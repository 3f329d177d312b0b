/**
 * The naming rules of the generated Go files (test/main.go:143-269): the
 * `bson` key a field is stored under, the names of the entity and contract
 * files, and the text the two templates render, as a list of lines.
 */
module Generation {
  import opened CaseConversion

  /** A field of an entity or a contract: its display name and its Go type. */
  datatype Field = Field(name: string, fieldType: string)

  /** An entity: its singular and plural names and its fields, in order. */
  datatype Entity = Entity(nameSingular: string, namePlural: string, fields: seq<Field>)

  /** A contract: its name, its type (such as "parameters") and its fields, in order. */
  datatype Contract = Contract(name: string, contractType: string, fields: seq<Field>)

  // ---------------------------------------------------------------------------
  // FieldCase (test/main.go:183-188, 245-250)
  // ---------------------------------------------------------------------------

  /**
   * The `FieldCase` template function: the key a field is stored under is
   * "_id" exactly for the names that lower-case to "id", and the camel form
   * of the name for every other name.
   */
  function FieldCase(name: string): (key: string)
    ensures key == "_id" <==> LowerAll(name) == "id"
    ensures LowerAll(name) != "id" ==> key == Camel(name)
  {
    if LowerAll(name) == "id" then "_id"
    else
      CamelAlphabet(name);
      assert Camel(name) != "_id" by {
        if |Camel(name)| == 3 {
          assert !(IsKebabChar('_') || IsUpper('_'));
          assert Camel(name)[0] != '_';
        }
      }
      Camel(name)
  }

  // ---------------------------------------------------------------------------
  // File names (test/main.go:158, 220)
  // ---------------------------------------------------------------------------

  /** `snakeCase(entity.NameSingular) + ".go"`. */
  function EntityFileName(e: Entity): string
  {
    Snake(e.nameSingular) + ".go"
  }

  /** `snakeCase(contract.Name + " " + strings.ToTitle(contract.Type)) + ".go"`, with ASCII title case. */
  function ContractFileName(c: Contract): string
  {
    Snake(c.name + " " + UpperAll(c.contractType)) + ".go"
  }

  /** A file stem in snake form: lower-case letters, digits and single '_' between words. */
  predicate SnakeStem(stem: string)
  {
    (forall i :: 0 <= i < |stem| ==> IsLowerLetter(stem[i]) || IsDigit(stem[i]) || stem[i] == '_') &&
    (|stem| > 0 ==> stem[0] != '_' && stem[|stem| - 1] != '_')
  }

  /** Cutting ".go" off a file name gives back its stem. */
  lemma GoSuffix(stem: string)
    ensures var n := stem + ".go";
      |n| == |stem| + 3 && n[..|n| - 3] == stem && n[|n| - 3..] == ".go"
  {
    var n := stem + ".go";
    assert n[..|n| - 3] == stem;
    assert n[|n| - 3..] == ".go";
  }

  /** A string that follows a kebab form with each '-' turned into '_' is a snake stem. */
  lemma SnakeOfKebabChars(k: string, n: string)
    requires AllKebabChars(k) && HyphenFreeEnds(k) && |n| == |k|
    requires forall i :: 0 <= i < |k| ==> n[i] == if k[i] == '-' then '_' else k[i]
    ensures SnakeStem(n)
  {
    forall i | 0 <= i < |n| ensures IsLowerLetter(n[i]) || IsDigit(n[i]) || n[i] == '_' {
      assert IsKebabChar(k[i]);
    }
  }

  /** A snake-cased name is a snake stem. */
  lemma SnakeIsStem(s: string)
    ensures SnakeStem(Snake(s))
  {
    KebabShape(s);
    SnakeShape(s);
    SnakeOfKebabChars(Kebab(s), Snake(s));
  }

  /**
   * An entity file is named by the snake form of its singular name and
   * ".go"; converting the stem back with `kebabCase` gives the kebab form
   * of the name whenever that holds no "--".
   */
  lemma {:induction false} EntityFileNameShape(e: Entity)
    ensures var n := EntityFileName(e);
      |n| >= 3 && n[|n| - 3..] == ".go" && SnakeStem(n[..|n| - 3])
    ensures !HasDoubleHyphen(Kebab(e.nameSingular)) ==>
      Kebab(EntityFileName(e)[..|EntityFileName(e)| - 3]) == Kebab(e.nameSingular)
  {
    GoSuffix(Snake(e.nameSingular));
    SnakeIsStem(e.nameSingular);
    if !HasDoubleHyphen(Kebab(e.nameSingular)) {
      SnakeRoundTrip(e.nameSingular);
    }
  }

  lemma {:induction false} SpacedWordsKept(name: string, ty: string)
    requires |name| > 0 && |ty| > 0 && AllAlnum(name) && AllAlnum(ty)
    ensures forall i :: 0 <= i < |name + " " + UpperAll(ty)| ==> (name + " " + UpperAll(ty))[i] in InputKeepset
  {
    var t := name + " " + UpperAll(ty);
    forall i | 0 <= i < |t| ensures t[i] in InputKeepset {
      if i < |name| {
        assert t[i] == name[i];
      } else if i > |name| {
        assert t[i] == ToUpper(ty[i - |name| - 1]);
        CaseMapping(ty[i - |name| - 1]);
      }
      InputKeepsetMembers(t[i]);
    }
  }

  lemma {:induction false} SpacedWordsLowered(name: string, ty: string)
    requires |name| > 0 && |ty| > 0 && AllAlnum(name) && AllAlnum(ty)
    ensures var t := name + " " + UpperAll(ty);
      LowerAll(ReplaceChar(t, ' ', '-')) == LowerAll(name) + "-" + LowerAll(ty)
  {
    var t := name + " " + UpperAll(ty);
    var k := LowerAll(name) + "-" + LowerAll(ty);
    var u := LowerAll(ReplaceChar(t, ' ', '-'));
    assert |u| == |k|;
    forall i | 0 <= i < |k| ensures u[i] == k[i] {
      if i < |name| {
        assert t[i] == name[i];
        assert k[i] == ToLower(name[i]);
        assert name[i] != ' ';
      } else if i == |name| {
        assert t[i] == ' ';
      } else {
        var c := ty[i - |name| - 1];
        assert t[i] == ToUpper(c);
        assert k[i] == ToLower(c);
        CaseMapping(c);
        assert ToUpper(c) != ' ';
      }
    }
  }

  lemma {:induction false} SpacedWordsKebab(name: string, ty: string)
    requires |name| > 0 && |ty| > 0 && AllAlnum(name) && AllAlnum(ty)
    ensures KebabForm(LowerAll(name) + "-" + LowerAll(ty))
  {
    var k := LowerAll(name) + "-" + LowerAll(ty);
    forall i | 0 <= i < |k| ensures IsKebabChar(k[i]) && (k[i] == '-' <==> i == |name|) {
      if i < |name| {
        CaseMapping(name[i]);
      } else if i > |name| {
        CaseMapping(ty[i - |name| - 1]);
      }
    }
  }

  /** For a name and a type made of letters and digits, the spaced words have the kebab form `name-type`, lowered. */
  lemma {:induction false} SpacedWordsKebabCase(t: string, name: string, ty: string)
    requires |name| > 0 && |ty| > 0 && AllAlnum(name) && AllAlnum(ty)
    requires t == name + " " + UpperAll(ty)
    ensures Kebab(t) == LowerAll(name) + "-" + LowerAll(ty)
  {
    var k := LowerAll(name) + "-" + LowerAll(ty);
    SpacedWordsKept(name, ty);
    KebabOfKept(t);
    assert t[|name|] == ' ';
    assert DelimitWords(t) == ReplaceChar(t, ' ', '-');
    SpacedWordsLowered(name, ty);
    SpacedWordsKebab(name, ty);
    CanonicalizeLowersTo(ReplaceChar(t, ' ', '-'), k);
  }

  /** Snake-casing the two kebab words joins them with '_'. */
  lemma {:induction false} SpacedWordsSnake(k: string, name: string, ty: string)
    requires |name| > 0 && |ty| > 0 && AllAlnum(name) && AllAlnum(ty)
    requires k == LowerAll(name) + "-" + LowerAll(ty)
    ensures ReplaceChar(LowerAll(k), '-', '_') == LowerAll(name) + "_" + LowerAll(ty)
  {
    SpacedWordsKebab(name, ty);
    LowerAllKebab(k);
    var r := ReplaceChar(k, '-', '_');
    var w := LowerAll(name) + "_" + LowerAll(ty);
    assert |r| == |w|;
    forall i | 0 <= i < |k| ensures r[i] == w[i] {
      if i < |name| {
        assert k[i] == w[i];
      } else if i > |name| {
        assert k[i] == w[i];
      }
    }
  }

  /**
   * The contract file name always takes the space branch of `kebabCase`:
   * for a name and a type made of letters and digits it is the lower-cased
   * name, '_', the lower-cased type and ".go", so capitals inside the name
   * do not split it into words.
   */
  lemma {:induction false} ContractFileNameOfWords(c: Contract)
    requires |c.name| > 0 && |c.contractType| > 0 && AllAlnum(c.name) && AllAlnum(c.contractType)
    ensures ContractFileName(c) == LowerAll(c.name) + "_" + LowerAll(c.contractType) + ".go"
  {
    var t := c.name + " " + UpperAll(c.contractType);
    SpacedWordsKebabCase(t, c.name, c.contractType);
    SpacedWordsSnake(Kebab(t), c.name, c.contractType);
  }

  /**
   * Whatever the contract's name and type, the text `kebabCase` is applied
   * to keeps its space through the first `keep`, so the space branch is
   * taken: neither a capital nor an underscore in the name is consulted.
   */
  lemma ContractNameTakesSpaceBranch(c: Contract)
    ensures var t := c.name + " " + UpperAll(c.contractType);
      Kebab(t) == Canonicalize(ReplaceChar(Kept(t, InputKeepset), ' ', '-'))
  {
    var t := c.name + " " + UpperAll(c.contractType);
    InputKeepsetMembers(' ');
    assert t[|c.name|] == ' ';
    assert ' ' in Filtered(t, InputKeepset);
  }

  /** The contract file name is the snake form of the space branch, for every contract. */
  lemma ContractFileNameSpaced(c: Contract)
    ensures var t := c.name + " " + UpperAll(c.contractType);
      ContractFileName(c) == ReplaceChar(LowerAll(Canonicalize(ReplaceChar(Kept(t, InputKeepset), ' ', '-'))), '-', '_') + ".go"
  {
    ContractNameTakesSpaceBranch(c);
  }

  // ---------------------------------------------------------------------------
  // Rendered text (test/main.go:143-154, 209-216)
  // ---------------------------------------------------------------------------

  /** The declaration a template writes for one field. */
  function FieldLine(f: Field): string
  {
    "    " + Pascal(f.name) + " " + f.fieldType + " `bson:\"" + FieldCase(f.name) + "\"`"
  }

  /** One declaration line per field, in the order of the fields (the template's `range` over them). */
  function FieldLines(fields: seq<Field>): (lines: seq<string>)
  {
    seq(|fields|, j requires 0 <= j < |fields| => FieldLine(fields[j]))
  }

  /** The constant naming an entity's collection. */
  function CollectionLine(plural: string): string
  {
    "\tCollection" + Pascal(plural) + " = \"" + Camel(plural) + "\""
  }

  /** The opening line of a struct declaration. */
  function StructLine(typeName: string): string
  {
    "type " + typeName + " struct {"
  }

  /** The lines of the entity template before its fields. */
  function EntityHeader(e: Entity): (header: seq<string>)
    ensures |header| == 8
  {
    [ "package entities",
      "",
      "const (",
      CollectionLine(e.namePlural),
      ")",
      "",
      StructLine(Pascal(e.nameSingular)),
      "" ]
  }

  /** The lines of the contract template before its fields. */
  function ContractHeader(c: Contract): (header: seq<string>)
    ensures |header| == 4
  {
    [ "package contracts",
      "",
      StructLine(Pascal(c.name) + Pascal(c.contractType)),
      "" ]
  }

  /** The lines both templates end with. */
  const Footer: seq<string> := ["", "}"]

  /** The lines of the entity template, which ends each with a newline. */
  function EntityLines(e: Entity): seq<string>
  {
    EntityHeader(e) + FieldLines(e.fields) + Footer
  }

  /** The lines of the contract template. */
  function ContractLines(c: Contract): seq<string>
  {
    ContractHeader(c) + FieldLines(c.fields) + Footer
  }

  /** The file text: each line followed by a newline. */
  function Text(lines: seq<string>): string
  {
    if |lines| == 0 then "" else Text(lines[..|lines| - 1]) + lines[|lines| - 1] + "\n"
  }

  lemma {:induction false} FramedLines(header: seq<string>, fields: seq<Field>, n: nat)
    requires |header| == n
    ensures var lines := header + FieldLines(fields) + Footer;
      |lines| == n + |fields| + 2 &&
      lines[..n] == header &&
      (forall j :: 0 <= j < |fields| ==> lines[n + j] == FieldLine(fields[j])) &&
      lines[|lines| - 2..] == Footer
  {
    var body := FieldLines(fields);
    var lines := header + body + Footer;
    forall j | 0 <= j < |fields| ensures lines[n + j] == FieldLine(fields[j]) {
      assert lines[n + j] == (header + body)[n + j] == body[j];
    }
    assert lines[..n] == (header + body)[..n] == header;
    assert lines[|lines| - 2..] == Footer;
  }

  /**
   * An entity file has a header of eight lines, then one declaration per
   * field in the order of the fields, then a blank line and "}".
   */
  lemma EntityLayout(e: Entity)
    ensures var lines := EntityLines(e);
      |lines| == 8 + |e.fields| + 2 &&
      lines[..8] == EntityHeader(e) &&
      (forall j :: 0 <= j < |e.fields| ==> lines[8 + j] == FieldLine(e.fields[j])) &&
      lines[|lines| - 2..] == Footer
  {
    FramedLines(EntityHeader(e), e.fields, 8);
  }

  /** A contract file has a header of four lines, one declaration per field in order, a blank line and "}". */
  lemma ContractLayout(c: Contract)
    ensures var lines := ContractLines(c);
      |lines| == 4 + |c.fields| + 2 &&
      lines[..4] == ContractHeader(c) &&
      (forall j :: 0 <= j < |c.fields| ==> lines[4 + j] == FieldLine(c.fields[j])) &&
      lines[|lines| - 2..] == Footer
  {
    FramedLines(ContractHeader(c), c.fields, 4);
  }

  /** The text holds every line and ends with a newline. */
  lemma {:induction false} TextOfLines(lines: seq<string>)
    ensures |Text(lines)| >= |lines|
    ensures |lines| > 0 ==> Text(lines)[|Text(lines)| - 1] == '\n'
  {
    if |lines| > 0 {
      TextOfLines(lines[..|lines| - 1]);
    }
  }

  /** The text of the lines is the text of any prefix followed by the text of the rest. */
  lemma {:induction false} TextSplit(lines: seq<string>, a: nat)
    requires a <= |lines|
    ensures Text(lines) == Text(lines[..a]) + Text(lines[a..])
    decreases |lines|
  {
    if a < |lines| {
      var front := lines[..|lines| - 1];
      TextSplit(front, a);
      assert front[..a] == lines[..a];
      assert lines[a..][..|lines[a..]| - 1] == front[a..];
    } else {
      assert lines[..a] == lines;
      assert lines[a..] == [];
    }
  }

  /** A field is always declared exported: once its kebab form starts with a letter, its Go name starts with a capital. */
  lemma {:induction false} FieldNameExported(f: Field)
    requires |Kebab(f.name)| > 0 && IsLowerLetter(Kebab(f.name)[0])
    ensures |Pascal(f.name)| > 0 && IsUpper(Pascal(f.name)[0])
  {
    CamelIsPascalUncapitalized(f.name);
    CaseMapping(Kebab(f.name)[0]);
  }
}
