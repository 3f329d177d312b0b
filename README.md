# go-fluid/cli generator core in Dafny

This project models the core of the go-fluid project generator, which is the
single Go file `test/main.go`. The generator reads a fluid project schema. It
keeps a cache of four base template repositories up to date. It then
assembles a project from those templates and packs the project into a
tarball. Four parts of that file are modelled, and properties are proved
about each:

- **Identifier case conversion** (`case_conversion.dfy`, `case_methods.dfy`,
  `case_examples.dfy`).
  - `kebabCase` turns a human-entered name into lower-case words joined by
    `-`.
  - `camelCase`, `pascalCase`, `snakeCase` and `titleCase` are computed from
    that kebab form.
  - Module `CaseConversion` defines the pipeline as functions:
    - the first `keep`;
    - the branch on space, then any capital, then underscore;
    - `caseSensitiveToKebab`;
    - lower-casing, the final `keep`, trimming `-`, and the single
      `--`→`-` replacement.
  - Module `CaseMethods` writes the byte and rune loops of the source as
    methods, each proved to compute those functions.
  - Module `CaseExamples` works through concrete names, including the
    quirks of the code:
    - `"ID"` becomes `"i-d"`;
    - `"Base_api"` becomes `"baseapi"`;
    - `"Base_Api"` becomes `"base-api"`;
    - `"a---b"` becomes `"a--b"`, so `kebabCase` is not idempotent.
- **Generation naming rules** (`generation.dfy`):
  - the `FieldCase` key;
  - the entity and contract file names;
  - the two rendered templates, as lists of lines.
- **Template cache synchronisation** (`template_cache.dfy`).
  - The loop of `updateCaches` is specified by `SyncRepository` and
    `SyncFrom`.
  - It runs as methods of the class `CacheStore`, whose field holds one
    cache per repository.
  - Per repository, a cache is a set of tag directories, the subset left
    incomplete by a failed extraction, and the tag `latest` points to.
  - The network, `tar` and `os.Symlink` are an oracle per repository.
- **Build orchestration** (`build.dfy`).
  - `buildProject`, `buildApi`, `buildLogic` and `buildPortal*` are
    modelled as the ordered plan of actions a build performs: make
    directories, copy template trees, render files, run `gofmt`, write the
    archive. The plan ends early with the error the code panics with.
  - `Execute` runs a plan against an oracle that says which actions
    succeed.
  - The methods `BuildApi`, `BuildLogic`, `BuildPortals` and `BuildProject`
    are the loops of the source, proved to produce that plan.

In three places the code's behaviour differs from the usual description of
the generator, and the model follows the code:

- `kebabCase("ID")` is `"i-d"`, not `"id"`.
- A release whose tag name or tarball URL is blank after trimming ends the
  whole run (the code panics). It is not skipped.
- A tag whose extraction failed has its directory already created, so the
  next run treats it as present: it does not download it again and links
  `latest` to the partial directory (`PartialTagLinkedOnRerun`).

`kebabCase` is also not idempotent. It is a fixed point exactly on canonical
kebab forms (`KebabFixedPoint`), and it is idempotent on an input exactly
when the input's kebab form has no `--` (`KebabIdempotentIff`).

## Model

| member | source | states |
|---|---|---|
| CaseConversion.UppercaseLettersAreUpper | test/main.go:501-506 | a rune is in the 26-capital set `isUpperCase` searches exactly when it is an ASCII capital |
| CaseConversion.InputKeepsetMembers | test/main.go:579 | the first keep set holds exactly the letters, the digits, `-`, `_` and space |
| CaseConversion.OutputKeepsetMembers | test/main.go:592 | the final keep set holds exactly `a-z`, `0-9` and `-` |
| CaseConversion.CaseMapping | test/main.go:592 | ASCII lower- and upper-casing map capitals and small letters onto each other, are inverse on them, and leave every other character unchanged |
| CaseConversion.Filtered | test/main.go:526-545 | the kept characters are never more than the input, and a character occurs in the result exactly when it occurs in the input and in the keep set |
| CaseConversion.FilteredKeepsAll | test/main.go:534-542 | filtering leaves unchanged a string whose characters are all in the keep set |
| CaseConversion.FilteredConcat | test/main.go:534-542 | filtering a concatenation is the concatenation of the filtered parts, so order is kept |
| CaseConversion.KeptKeepsAll | test/main.go:526-545 | `keep` returns unchanged a text whose characters are all in the keep set, including the empty text |
| CaseConversion.HyphenBeforeCapsConcat | test/main.go:558-566 | inserting `-` before each capital distributes over concatenation |
| CaseConversion.HyphenBeforeCapsNoCaps | test/main.go:552-553 | with no capital, nothing is inserted |
| CaseConversion.HyphenBeforeCapsAlnum | test/main.go:556-566 | on letters and digits every inserted character is a `-` directly before a capital; the last character is kept; the result starts with `-` exactly when the input starts with a capital |
| CaseConversion.TrimLeftHyphens | test/main.go:592 | the result is a suffix of the input, every character cut is `-`, and it does not start with `-` |
| CaseConversion.TrimRightHyphens | test/main.go:592 | the result is a prefix of the input, every character cut is `-`, and it does not end with `-` |
| CaseConversion.TrimHyphens | test/main.go:592 | `strings.Trim(…, "-")` gives a slice of the input, every character cut before or after it is `-`, no `-` is left at either end, and nothing changes when neither end is `-` |
| CaseConversion.DoubleHyphenTail | test/main.go:592 | a string not starting with `--` contains `--` exactly when its tail does |
| CaseConversion.CollapseDoubleHyphens | test/main.go:592 | the one-pass `--`→`-` replacement never lengthens, adds no new character, keeps a non-`-` first and last character, and changes the string exactly when it contains `--` |
| CaseConversion.Canonicalize | test/main.go:592 | lowering, the final keep, the trim and the replacement yield only `[a-z0-9-]` with no `-` at either end |
| CaseConversion.CanonicalizeLowersTo | test/main.go:592 | when lowering already gives a trimmed kebab-alphabet string, only the `--` replacement changes it |
| CaseConversion.KebabOfKebabShaped | test/main.go:571-592 | on a trimmed kebab-alphabet string, `kebabCase` is exactly the `--` replacement |
| CaseConversion.KebabShape | test/main.go:571-592 | `kebabCase` output contains only `a-z`, `0-9` and `-` and never starts or ends with `-` |
| CaseConversion.KebabEmpty | test/main.go:571-576 | the empty name maps to the empty name |
| CaseConversion.KebabFixedPoint | test/main.go:571-592 | `kebabCase(s) == s` exactly when `s` is over `[a-z0-9-]` with no `-` at either end and no `--` |
| CaseConversion.KebabIdempotentIff | test/main.go:592 | applying `kebabCase` twice equals applying it once exactly when the first result has no `--` |
| CaseConversion.HyphenatedAlnumIsKebab | test/main.go:547-569 | on a non-empty letters-and-digits name, the first character followed by the rest with `-` before each capital, lowered, is a canonical kebab form |
| CaseConversion.DelimitWordsAlnum | test/main.go:584-586 | a letters-and-digits name takes the capital branch or no branch, and both give the first character and the rest with `-` before each capital, lowered |
| CaseConversion.KebabOfAlnum | test/main.go:571-592 | the kebab form of a letters-and-digits name is its `caseSensitiveToKebab` form |
| CaseConversion.KebabOfKept | test/main.go:579 | a name already inside the first keep set is not changed by the first `keep` |
| CaseConversion.DropHyphensInverse | test/main.go:599-610 | the camel loop on a kebab string whose hyphens precede letters yields letters and digits, and re-inserting `-` before its capitals and lowering gives the kebab string back |
| CaseConversion.CamelRoundTrip | test/main.go:595-612 | `kebabCase(camelCase(s)) == kebabCase(s)` whenever every `-` of the kebab form precedes a letter |
| CaseConversion.CapitalizedRoundTrip | test/main.go:614-631 | the Pascal loop on such a kebab form is undone by `kebabCase` |
| CaseConversion.PascalRoundTrip | test/main.go:614-631 | `kebabCase(pascalCase(s)) == kebabCase(s)` whenever every `-` of the kebab form precedes a letter |
| CaseConversion.SpaceHyphensLength | test/main.go:641-653 | the title loop writes one character per character of the kebab form |
| CaseConversion.SpaceHyphensAt | test/main.go:641-653 | on a string without `--`, each `-` becomes a space, the character after it is upper-cased, and all others are kept |
| CaseConversion.CapitalizedTitle | test/main.go:641-653 | with the first character upper-cased too, the title text agrees with `TitleChar` at every index |
| CaseConversion.TitleShape | test/main.go:637-655 | `titleCase` keeps the kebab length, and without `--` every character is the kebab character, a space for `-`, or upper-cased after a `-` or at the start |
| CaseConversion.TitleLetters | test/main.go:581-583 | a title text is inside the first keep set; turning its spaces into `-` and lowering gives the kebab form back; it has a space exactly when the kebab form has a `-` |
| CaseConversion.TitledSpaced | test/main.go:581-583 | a title with spaces takes the space branch back to its kebab form |
| CaseConversion.OneWordTitleChars | test/main.go:641-653 | a one-word title is letters and digits with only its first character upper-cased |
| CaseConversion.OneWordTitleLowers | test/main.go:547-569 | `caseSensitiveToKebab` lowers such a one-word title back to the kebab word |
| CaseConversion.TitledOneWord | test/main.go:584-586 | a one-word title takes the capital branch back to its kebab form |
| CaseConversion.TitledRoundTrip | test/main.go:571-592 | `kebabCase` of the title text of a canonical kebab form is that form |
| CaseConversion.TitleRoundTrip | test/main.go:637-655 | `kebabCase(titleCase(s)) == kebabCase(s)` whenever the kebab form has no `--` |
| CaseConversion.SnakeShape | test/main.go:633-635 | `snakeCase` has the kebab length and maps each `-` to `_`, keeping every other character |
| CaseConversion.SnakedDelimit | test/main.go:587-590 | a snake form of a canonical kebab form takes the underscore branch back to it |
| CaseConversion.SnakedRoundTrip | test/main.go:571-592 | `kebabCase` of the snake form of a canonical kebab form is that form |
| CaseConversion.SnakeRoundTrip | test/main.go:633-635 | `kebabCase(snakeCase(s)) == kebabCase(s)` whenever the kebab form has no `--` |
| CaseConversion.DropHyphensIsSpaceHyphensWithoutSpaces | test/main.go:599-653 | the camel loop writes exactly the title loop's text with its spaces removed |
| CaseConversion.PascalIsTitleWithoutSpaces | test/main.go:614-655 | `pascalCase(s)` is `titleCase(s)` with the spaces removed |
| CaseConversion.CamelIsPascalUncapitalized | test/main.go:595-631 | camel and Pascal forms have equal length and agree after the first character; the camel form starts with the kebab form's first character, and the Pascal form with its upper case |
| CaseConversion.DropHyphensChars | test/main.go:599-610 | the camel loop writes only kebab characters and capitals |
| CaseConversion.CamelAlphabet | test/main.go:595-612 | `camelCase` output is made of `a-z`, `0-9`, `-` and capitals only |
| CaseExamples.FirstNameDelimited | test/main.go:581-583 | `"First Name"` takes the space branch to `"First-Name"` |
| CaseExamples.FirstNameCanonical | test/main.go:592 | `"First-Name"` is canonicalised to `"first-name"` |
| CaseExamples.KebabOfFirstName | test/main.go:571-592 | `kebabCase("First Name") == "first-name"` |
| CaseExamples.BuildRequestMarked | test/main.go:558-566 | the loop marks `"uildRequest"` as `"uild-Request"` |
| CaseExamples.BuildRequestLowered | test/main.go:568 | `"build-Request"` lowers to `"build-request"` |
| CaseExamples.BuildRequestMarkedWhole | test/main.go:556-566 | `caseSensitiveToKebab` marks `"buildRequest"` as `"build-Request"` before lowering |
| CaseExamples.BuildRequestHyphenated | test/main.go:584-586 | `"buildRequest"` takes the capital branch to `"build-request"` |
| CaseExamples.KebabOfBuildRequest | test/main.go:571-592 | `kebabCase("buildRequest") == "build-request"` |
| CaseExamples.IdMarkedWhole | test/main.go:556-566 | a capital at index 1 gets a `-`, so `"ID"` is marked `"I-D"` |
| CaseExamples.IdLowered | test/main.go:568 | `"I-D"` lowers to `"i-d"` |
| CaseExamples.IdHyphenated | test/main.go:584-586 | `"ID"` takes the capital branch to `"i-d"` |
| CaseExamples.KebabOfId | test/main.go:571-592 | `kebabCase("ID") == "i-d"` |
| CaseExamples.BaseApiDelimited | test/main.go:584-586 | the capital branch wins over the underscore branch: `"Base_api"` becomes `"base_api"` |
| CaseExamples.BaseApiFiltered | test/main.go:592 | the final keep deletes the underscore of `"base_api"` |
| CaseExamples.BaseApiCanonical | test/main.go:592 | `"base_api"` is canonicalised to `"baseapi"` |
| CaseExamples.KebabOfBaseApi | test/main.go:571-592 | `kebabCase("Base_api") == "baseapi"` |
| CaseExamples.SnakeNameDelimited | test/main.go:587-590 | `"base_api"` takes the underscore branch to `"base-api"` |
| CaseExamples.SnakeNameCanonical | test/main.go:592 | `"base-api"` is already canonical |
| CaseExamples.KebabOfSnakeName | test/main.go:571-592 | `kebabCase("base_api") == "base-api"` |
| CaseExamples.BaseApiCapsMarked | test/main.go:558-566 | the loop marks `"ase_Api"` as `"ase_-Api"` |
| CaseExamples.CapsAndUnderscoreDelimited | test/main.go:584-586 | `"Base_Api"` takes the capital branch to `"base_-api"` |
| CaseExamples.CapsAndUnderscoreFiltered | test/main.go:592 | the final keep turns `"base_-api"` into `"base-api"` |
| CaseExamples.BaseHyphenApiCanonical | test/main.go:592 | `"base-api"` has no `-` at an end and no `--` |
| CaseExamples.CapsAndUnderscoreLower | test/main.go:592 | lowering leaves `"base_-api"` unchanged |
| CaseExamples.CapsAndUnderscoreCanonical | test/main.go:592 | `"base_-api"` is canonicalised to `"base-api"` |
| CaseExamples.KebabOfBaseCapitalApi | test/main.go:571-592 | `kebabCase("Base_Api") == "base-api"` |
| CaseExamples.HyphenWordCollapsed | test/main.go:592 | `"-b"` has nothing to replace |
| CaseExamples.TripleTailCollapsed | test/main.go:592 | `"---b"` becomes `"--b"`: the replacement does not rescan what it wrote |
| CaseExamples.TripleCollapsed | test/main.go:592 | `"a---b"` becomes `"a--b"` |
| CaseExamples.DoubleTailCollapsed | test/main.go:592 | `"--b"` becomes `"-b"` |
| CaseExamples.DoubleCollapsed | test/main.go:592 | `"a--b"` becomes `"a-b"` |
| CaseExamples.KebabNotIdempotent | test/main.go:571-592 | `kebabCase("a---b") == "a--b"`, and applying `kebabCase` again gives `"a-b"` |
| CaseExamples.DigitWordCamel | test/main.go:599-610 | the camel loop turns `"a-1"` into `"a1"` |
| CaseExamples.DigitWordKebab | test/main.go:571-592 | `"a-1"` is its own kebab form |
| CaseExamples.JoinedKebab | test/main.go:571-592 | `"a1"` is its own kebab form |
| CaseExamples.CamelLosesDigitWord | test/main.go:595-612 | a word starting with a digit does not survive the camel round trip: `kebabCase(camelCase("a-1")) == "a1"` |
| CaseMethods.ContainsAnyUpperCase | test/main.go:508-524 | reports true exactly when some character is a capital, and never on the empty text |
| CaseMethods.Keep | test/main.go:526-545 | the index loop returns `Kept(text, keepset)` |
| CaseMethods.CaseSensitiveToKebab | test/main.go:547-569 | returns the specification `HyphenateCaps`, with both early returns for a short text or one without capitals after index 0 |
| CaseMethods.KebabCase | test/main.go:571-593 | returns `Kebab(anyCase)`, the specified pipeline |
| CaseMethods.CamelCase | test/main.go:595-612 | returns `Camel(name)` |
| CaseMethods.CamelRunes | test/main.go:598-611 | the rune loop with its `isToUpper` flag computes `DropHyphens(kebab, false)` |
| CaseMethods.PascalCase | test/main.go:614-631 | returns `Pascal(name)` |
| CaseMethods.PascalRunes | test/main.go:617-630 | the rune loop upper-cases index 0 and each character after a `-`, and drops the `-` |
| CaseMethods.TitleCase | test/main.go:637-655 | returns `Title(name)` |
| CaseMethods.TitleRunes | test/main.go:640-654 | the rune loop upper-cases index 0 and each character after a `-`, and writes a space for the `-` |
| CaseMethods.SnakeCase | test/main.go:633-635 | returns `Snake(name)` |
| Generation.FieldCase | test/main.go:183-188 | the key is `"_id"` exactly for names that lower-case to `"id"`, and the camel form of every other name |
| Generation.GoSuffix | test/main.go:158 | helper: cutting three characters off `stem + ".go"` gives back the stem and the `.go` suffix |
| Generation.SnakeOfKebabChars | test/main.go:634 | a kebab-alphabet string with `-` mapped to `_` is a snake stem: `a-z`, `0-9` and `_`, with no `_` at an end |
| Generation.SnakeIsStem | test/main.go:633-635 | every `snakeCase` output is such a snake stem |
| Generation.EntityFileNameShape | test/main.go:158 | an entity file name ends in `.go`, its stem is a snake stem, and without `--` the stem's kebab form is the singular name's kebab form |
| Generation.SpacedWordsKept | test/main.go:220 | for a non-empty letters-and-digits name and type: a contract name, a space and the upper-cased type lie inside the first keep set |
| Generation.SpacedWordsLowered | test/main.go:220 | for a non-empty letters-and-digits name and type: the space branch on that text, lowered, is the two lowered words joined by `-` |
| Generation.SpacedWordsKebab | test/main.go:220 | for a non-empty letters-and-digits name and type: the two lowered words joined by `-` form a canonical kebab form |
| Generation.SpacedWordsKebabCase | test/main.go:220 | for a non-empty letters-and-digits name and type, the kebab form of the contract name text is `name-type` lowered |
| Generation.SpacedWordsSnake | test/main.go:220 | for a non-empty letters-and-digits name and type: the snake form of that kebab form is `name_type` lowered |
| Generation.ContractFileNameOfWords | test/main.go:220 | closed form for a non-empty letters-and-digits name and type: the contract file is `lower(name)_lower(type).go` |
| Generation.ContractNameTakesSpaceBranch | test/main.go:220 | for every contract, the text `name + " " + upper(type)` keeps its space through the first `keep`, so `kebabCase` takes the space branch and never consults capitals or underscores |
| Generation.ContractFileNameSpaced | test/main.go:220 | for every contract, the file name is the snake form of that space-branch result, then `.go` |
| Generation.EntityHeader | test/main.go:143-150 | the entity template's text before the fields is eight lines |
| Generation.ContractHeader | test/main.go:209-212 | the contract template's text before the fields is four lines |
| Generation.FramedLines | test/main.go:151-153 | a rendered file is its header, then one declaration per field at consecutive lines in field order, then a blank line and `}` |
| Generation.EntityLayout | test/main.go:143-154 | an entity file has eight header lines, the field declarations in order, and the closing two lines |
| Generation.ContractLayout | test/main.go:209-216 | a contract file has four header lines, the field declarations in order, and the closing two lines |
| Generation.TextOfLines | test/main.go:143-154 | helper: the text of a list of lines is at least as long as the line count and ends with a newline |
| Generation.TextSplit | test/main.go:143-154 | the text of a list of lines is the text of any prefix followed by the text of the rest |
| Generation.FieldNameExported | test/main.go:151 | a field whose kebab form starts with a letter gets a Go name with a capital initial, so it is exported |
| Build.EndsWithIsSuffix | test/main.go:159 | `EndsWith` holds exactly when the suffix is the last characters of the string |
| Build.TrimSuffix | test/main.go:159 | `strings.TrimSuffix` cuts the suffix when it is present and otherwise returns the string |
| Build.JoinThree | test/main.go:106 | joining three elements joins the first two, then the third |
| Build.JoinPlain | test/main.go:45 | two plain path elements join with one `/`, and the result is plain |
| Build.Rejoin | test/main.go:159 | trimming a directory's last element and joining it again gives the same directory |
| Build.ContractWritesInOrder | test/main.go:108-112 | one contract file is written per contract, in the order of the contracts |
| Build.EntityWritesInOrder | test/main.go:129-133 | one entity file is written per entity, in the order of the entities |
| Build.ContractFileInDirectory | test/main.go:220-221 | a contract file goes directly into `api/service/contracts` under its snake name, with the contract template's lines |
| Build.EntityFileInDirectory | test/main.go:158-159 | an entity file goes directly into `logic/service/entities` under its snake name, with the entity template's lines |
| Build.ApiLayout | test/main.go:101-120 | `buildApi` copies the api template, writes the contract files in order, then formats the contracts directory |
| Build.LogicLayout | test/main.go:122-141 | `buildLogic` copies the logic template, writes the entity files in order, then formats the entities directory |
| Build.Dispatch | test/main.go:54-66 | a portal fails exactly when its type is neither Ionic nor Vuetify, and then with that type; a supported portal copies its type's `latest` template into the portal's slug directory |
| Build.PortalsFromStep | test/main.go:54-65 | one turn of the portal loop: a supported portal's copy comes before the rest, while an unsupported portal stops with no copy |
| Build.SupportedPortalsCopied | test/main.go:54-65 | when every portal from `i` on is supported, there is no error and one copy per portal, in order |
| Build.UnsupportedPortalStops | test/main.go:61-62 | the first unsupported portal ends the loop with its type, after one copy for each earlier portal, in order |
| Build.PortalsOnlyCopy | test/main.go:75-99 | the portal steps only copy template trees |
| Build.InvalidProjectPlansNothing | test/main.go:30-32 | an invalid project stops before any action |
| Build.CompletePlan | test/main.go:29-73 | for a valid project with supported portals, the plan has no error and is: set-up, api, logic, the portal copies in order, then the archive |
| Build.PlanFront | test/main.go:34-52 | in that plan, the three set-up steps come first, then the api steps, then the logic steps, at known indices |
| Build.PlanBack | test/main.go:54-72 | in that plan, each portal's copy sits at its list position after the logic steps, and the archive is last |
| Build.PlanOrder | test/main.go:29-73 | the whole order: set-up, api template, contracts in order, api format, logic template, entities in order, logic format, portals in order, archive |
| Build.UnsupportedPortalNoArchive | test/main.go:61-72 | an unsupported portal stops the build with its type, and no archive is planned |
| Build.BuiltNoArchive | test/main.go:29-66 | no step before the archive step is an archive |
| Build.ArchiveMemberIsSlug | test/main.go:67-68 | the archive is `directory/<slug>-<version>.tar.gz`, taken relative to the temporary directory, and holds the slug directory |
| Build.ArchiveNamesKebab | test/main.go:38-68 | with `kebabCase` as the slug, the archive holds `kebabCase(name)` and is named `<kebab>-<version>.tar.gz` |
| Build.ArchiveOfEmptySlug | test/main.go:45-68 | a name with an empty slug makes the project directory the temporary directory itself, and the prefix trim then leaves the member as the whole temporary path |
| Build.ExecuteStopsAtFirstFailure | test/main.go:29-73 | a run attempts a prefix of the plan; it ends without error exactly when every action succeeds, and then attempts them all; otherwise it stops at the first failing action, after all earlier ones succeed |
| Build.BuildSucceedsIff | test/main.go:29-73 | a build ends without error exactly when the project is valid, every portal is supported and every planned action succeeds; it then has attempted the whole plan, ending with the archive |
| Build.BuildArchivesIff | test/main.go:29-73 | the same for `buildProject` with `kebabCase` as the slug |
| Build.FirstUnsupported | test/main.go:54-66 | when some portal is unsupported, it finds the first one: it is unsupported, and every earlier one is supported |
| Build.ArchiveOnlyAfterEverything | test/main.go:67-72 | an archive is attempted only when the project is valid, every portal is supported and every earlier action succeeded |
| Build.ApiNoArchive | test/main.go:101-120 | the api steps hold no archive |
| Build.LogicNoArchive | test/main.go:122-141 | the logic steps hold no archive |
| Build.NoArchiveBeforeEnd | test/main.go:67-72 | in a complete plan, only the last action is an archive |
| Build.BuildApi | test/main.go:101-120 | the loop over contracts produces `ApiActions` |
| Build.BuildLogic | test/main.go:122-141 | the loop over entities produces `LogicActions` |
| Build.BuildPortals | test/main.go:54-65 | the portal loop produces `PortalsFrom` from the first portal: the copies, and the first unsupported type |
| Build.BuildProject | test/main.go:29-73 | `buildProject` produces `ProjectPlan`: nothing for an invalid project, and otherwise every step up to the first unsupported portal, or through the archive |
| TemplateCache.TrimLeftSpaceSuffix | test/main.go:470-471 | trimming leading space leaves a suffix, cuts only space characters, and does not start with a space |
| TemplateCache.TrimRightSpacePrefix | test/main.go:470-471 | trimming trailing space leaves a prefix, cuts only space characters, and does not end with a space |
| TemplateCache.TrimSpaceSlice | test/main.go:470-471 | `strings.TrimSpace` is a slice with only space characters cut at both ends, and does not start or end with a space |
| TemplateCache.TrimSpaceBlank | test/main.go:470-479 | a trimmed name is empty exactly when every character is a space character |
| TemplateCache.TrimSpaceUnchanged | test/main.go:470-471 | a string not starting or ending with a space character is unchanged |
| TemplateCache.SyncFrom | test/main.go:450-496 | the loop returns one cache per repository |
| TemplateCache.SyncFromStep | test/main.go:450-496 | one turn of the loop: the repository either ends the run with its error or leaves the rest of the loop to run on the updated caches, after its own download |
| TemplateCache.Run | test/main.go:424-429 | `updateCaches` returns one cache per repository, and nothing changes when the cache root cannot be made |
| TemplateCache.CacheStore.constructor | test/main.go:431-448 | the store starts with one given cache per template repository |
| TemplateCache.CacheStore.UpdateCaches | test/main.go:424-497 | the new caches, the downloads and the fatal error are those of `Run` on the old caches |
| TemplateCache.CacheStore.SyncAll | test/main.go:450-496 | the loop over repositories in list order leaves the caches, downloads and error of `SyncFrom` from the first repository |
| TemplateCache.CacheStore.SyncOne | test/main.go:452-495 | one repository's turn returns `SyncRepository` of its old cache, and only that repository's cache changes |
| TemplateCache.FetchFailureLeavesCache | test/main.go:457-468 | a failed release fetch is recovered: no change, no download, no error |
| TemplateCache.StepKeepsTags | test/main.go:450-496 | no tag directory is ever removed, and no partial one is forgotten |
| TemplateCache.StepAddsOnlyDownloadedTag | test/main.go:483-489 | a turn either leaves the tag directories as they were or adds exactly the tag it downloads |
| TemplateCache.PresentTagNotDownloaded | test/main.go:483 | an already-present tag directory is not downloaded again, and the tag set is unchanged |
| TemplateCache.AbsentTagDownloaded | test/main.go:483-489 | an absent tag with non-blank tag and URL is downloaded, from the trimmed URL |
| TemplateCache.BlankReleaseIsFatal | test/main.go:470-479 | a blank tag name or tarball URL after trimming is fatal, with the cache unchanged and nothing downloaded |
| TemplateCache.StepSucceedsIff | test/main.go:466-495 | a turn ends without error exactly when the fetch failed, or the tag and URL are non-blank, an absent tag is extracted, and the link succeeds; `latest` then names a present tag directory |
| TemplateCache.ExtractFailureLeavesPartialTag | test/main.go:483-495 | a failed extraction is fatal; the tag directory has already been created, so it is present but partial, and `latest` is not moved |
| TemplateCache.StepKeepsLatestPresent | test/main.go:491-495 | when `latest` names a present tag directory before a turn, it still does after it (or is gone) |
| TemplateCache.SyncFromKeepsTags | test/main.go:450-496 | the loop leaves the repositories before `i` untouched and removes no tag directory anywhere |
| TemplateCache.SyncFromKeepsLatestPresent | test/main.go:450-496 | the loop keeps every `latest` pointing at a present tag directory |
| TemplateCache.SyncFromInOrder | test/main.go:450 | downloads are started in repository list order, at most one per repository |
| TemplateCache.SyncFromStopsAtError | test/main.go:473-479 | a run ending with an error stops at one repository: none after it is changed, and none after it is downloaded |
| TemplateCache.SuccessfulSyncIsCurrent | test/main.go:450-496 | after a run without error, every repository whose release was fetched has that tag directory, with `latest` on it |
| TemplateCache.CurrentSyncDownloadsNothing | test/main.go:483-489 | when every fetched tag is already present, a run downloads nothing |
| TemplateCache.RerunDownloadsNothing | test/main.go:483-489 | running again after a successful run, with the same fetch results, downloads nothing |
| TemplateCache.PartialTagLinkedOnRerun | test/main.go:483-495 | for any cache and any release whose non-blank tag is absent and whose extraction fails: the run fails with that tag; a re-run with the same release, any install outcome and a successful link reports no error, downloads nothing, links `latest` to the tag, and the tag stays partial |

## Left out

- HTTP: `doRequest`, `doStreamRequest`, `getJson` and `getDownloadStream`, with their timeouts and JSON decoding, are not modelled. A release fetch is an oracle outcome, either failed or a (tag, URL) pair. The download and the extraction are together one oracle outcome.
- External processes and the filesystem: `tar`, `cp`, `gofmt`, `os.MkdirAll`, `ioutil.TempDir`, `os.Symlink` and `os.Stat` are not run. The build records them as `Action` values, and `Execute` takes whether each succeeds as a parameter. In `updateCaches`, the cache root and the symlink are oracle booleans.
- The `os.Stat` check treats a tag directory as present exactly when it is in the model's tag set; a `Stat` error other than "not exist" is not modelled.
- `os.Remove` of the old `latest` link is taken to succeed; a failed link leaves no `latest`.
- `getCacheDirectory`, the home directory lookup and their panics are not modelled: the cache directory is a parameter of the plan.
- The temporary directory name from `ioutil.TempDir` is a parameter.
- The build's slug function is a parameter of `PlanWith`; `ProjectPlan` and `BuildProject` fix it to `kebabCase`, as the program does.
- `filepath.Join` is modelled for the elements the program joins: empty elements are dropped and one `/` is put between the rest. The rest of `filepath.Clean` (`..`, `.`, repeated or trailing slashes) is not modelled; `Plain` paths avoid it.
- The `html/template` engine is not modelled. The contextual escaping is left out, and the model takes the substituted identifiers to need none. The rendered text is the header lines, one line per field and the closing lines.
- `fluid.Project.Validate` is a library call that is not shown. It is the boolean `valid` of the project.
- The embedded project schema literal (`fluidProjectScheme`) is configuration. Its names appear only as worked examples.
- `panic` and `recover` are modelled as returned errors that end the run. A fetch failure is the one recovered case.
- Only ASCII case mapping is modelled. Inside `kebabCase` and the forms computed from it this changes nothing: every character set tested is ASCII, the first `keep` drops every non-ASCII character before any case mapping, and byte versus rune indexing gives the same result. Two case mappings run on raw input before any `keep`, and there the model differs from Go's Unicode mapping:
  - `FieldCase` lower-cases the raw field name (test/main.go:184, 246). Go maps `"İD"` to `"id"`, so the source key is `"_id"`; the model's `LowerAll` keeps `İ`, and its key is the camel form, `"d"`.
  - The contract file name applies `strings.ToTitle` to the raw type (test/main.go:220). Go maps `ſ` to `S` and `ı` to `I`, so a type `"ſtatus"` gives a file ending `_status.go`; the model's `UpperAll` keeps `ſ`, the first `keep` drops it, and the file ends `_tatus.go`.
- TemplateCache.SyncRepository: a release tag is an opaque name. The code joins it into paths (test/main.go:481, 491-493), so a tag `latest` would make the link point at itself, and a tag such as `..` or `a/b` would leave or nest inside the repository's cache directory. In those cases "`latest` names a present tag directory" (`StepSucceedsIff`, `SuccessfulSyncIsCurrent`) does not describe what is on disk.
- `fmt.Println` of each command line is output only, and is not modelled.
- The build methods compute the plan; they do not stop when the filesystem fails. That behaviour is modelled by `Execute` and `Outcome` on top of the plan.
- TemplateCache.SyncFrom: its own contract states only the length of the result; its behaviour is stated by the step lemmas and the run lemmas beside it.
