/**
 * Worked conversions of names taken from the generator's own schema and
 * from the corner cases of `kebabCase`.  Each stage of the pipeline is
 * computed on its literal in a lemma of its own.
 */
module CaseExamples {
  import opened CaseConversion

  lemma AllKept(t: string)
    requires forall i :: 0 <= i < |t| ==> IsAlnum(t[i]) || t[i] in "-_ "
    ensures forall i :: 0 <= i < |t| ==> t[i] in InputKeepset
  {
    forall i | 0 <= i < |t| ensures t[i] in InputKeepset { InputKeepsetMembers(t[i]); }
  }

  // "First Name": a field name of the schema, with a space.

  lemma FirstNameDelimited()
    ensures DelimitWords("First Name") == "First-Name"
  {
    assert "First Name"[5] == ' ';
  }

  lemma FirstNameCanonical()
    ensures Canonicalize("First-Name") == "first-name"
  {
    assert LowerAll("First-Name") == "first-name";
    assert !HasDoubleHyphen("first-name");
    CanonicalizeLowersTo("First-Name", "first-name");
  }

  /** A field name with a space: its kebab form joins the words with '-'. */
  lemma KebabOfFirstName()
    ensures Kebab("First Name") == "first-name"
  {
    AllKept("First Name");
    KebabOfKept("First Name");
    FirstNameDelimited();
    FirstNameCanonical();
  }

  // "buildRequest": a camel-case name.

  lemma BuildRequestMarked()
    ensures HyphenBeforeCaps("uildRequest") == "uild-Request"
  {
    assert "uildRequest" == "uild" + ("R" + "equest");
    HyphenBeforeCapsNoCaps("uild");
    HyphenBeforeCapsNoCaps("equest");
    HyphenBeforeCapsConcat("uild", "R" + "equest");
    HyphenBeforeCapsConcat("R", "equest");
    assert HyphenBeforeCaps("R") == "-R";
  }

  lemma BuildRequestLowered()
    ensures LowerAll("build-Request") == "build-request"
  {
  }

  lemma BuildRequestMarkedWhole(t: string)
    requires t == "buildRequest"
    ensures [t[0]] + HyphenBeforeCaps(t[1..]) == "build-Request"
  {
    assert t[1..] == "uildRequest";
    BuildRequestMarked();
  }

  lemma BuildRequestHyphenated(t: string)
    requires t == "buildRequest"
    ensures Kebab(t) == "build-request"
  {
    assert AllAlnum(t);
    KebabOfAlnum(t);
    BuildRequestMarkedWhole(t);
    BuildRequestLowered();
  }

  /** A camel-case name: a '-' goes before each capital after the first character. */
  lemma KebabOfBuildRequest()
    ensures Kebab("buildRequest") == "build-request"
  {
    BuildRequestHyphenated("buildRequest");
  }

  // "ID": an initialism.

  lemma IdMarkedWhole(t: string)
    requires t == "ID"
    ensures [t[0]] + HyphenBeforeCaps(t[1..]) == "I-D"
  {
    assert t[1..] == "D";
    assert HyphenBeforeCaps("D") == "-D";
  }

  lemma IdLowered()
    ensures LowerAll("I-D") == "i-d"
  {
  }

  lemma IdHyphenated(t: string)
    requires t == "ID"
    ensures Kebab(t) == "i-d"
  {
    assert AllAlnum(t);
    KebabOfAlnum(t);
    IdMarkedWhole(t);
    IdLowered();
  }

  /** An all-capitals name is split before every letter after the first, so "ID" becomes "i-d". */
  lemma KebabOfId()
    ensures Kebab("ID") == "i-d"
  {
    IdHyphenated("ID");
  }

  // "Base_api": a capital and an underscore.

  lemma BaseApiDelimited()
    ensures DelimitWords("Base_api") == "base_api"
  {
    var t := "Base_api";
    assert ' ' !in t && IsUpper(t[0]);
    assert !HasUpper(t[1..]);
  }

  lemma LettersInOutputKeepset(w: string)
    requires forall i :: 0 <= i < |w| ==> IsKebabChar(w[i])
    ensures forall i :: 0 <= i < |w| ==> w[i] in OutputKeepset
  {
    forall i | 0 <= i < |w| ensures w[i] in OutputKeepset { OutputKeepsetMembers(w[i]); }
  }

  lemma {:induction false} WordKept(w: string)
    requires forall i :: 0 <= i < |w| ==> IsKebabChar(w[i])
    ensures Filtered(w, OutputKeepset) == w
  {
    LettersInOutputKeepset(w);
    FilteredKeepsAll(w, OutputKeepset);
  }

  /** Filtering two words of kebab characters around a character outside them drops just that character. */
  lemma FilteredDropsOne(a: string, u: char, c: string)
    requires AllKebabChars(a) && AllKebabChars(c) && !IsKebabChar(u)
    ensures Filtered(a + [u] + c, OutputKeepset) == a + c
  {
    WordKept(a);
    WordKept(c);
    OutputKeepsetMembers(u);
    assert [u][..0] == [];
    assert Filtered([u], OutputKeepset) == [];
    FilteredConcat(a + [u], c, OutputKeepset);
    FilteredConcat(a, [u], OutputKeepset);
    assert a + [] == a;
  }

  lemma {:induction false} BaseApiFiltered(l: string)
    requires l == "base_api"
    ensures Filtered(l, OutputKeepset) == "baseapi"
  {
    var a, c := l[..4], l[5..];
    assert l == a + [l[4]] + c;
    assert a == "base" && c == "api";
    assert a + c == "baseapi";
    FilteredDropsOne(a, l[4], c);
  }

  /** When the kept lower-case form is already canonical, it is the result. */
  lemma CanonicalOfFiltered(u: string, k: string)
    requires |u| > 0 && Filtered(LowerAll(u), OutputKeepset) == k
    requires HyphenFreeEnds(k) && !HasDoubleHyphen(k)
    ensures Canonicalize(u) == k
  {
    assert OutputKeepset[0] == 'a';
    assert Kept(LowerAll(u), OutputKeepset) == k;
  }

  lemma BaseApiCanonical(u: string)
    requires u == "base_api"
    ensures Canonicalize(u) == "baseapi"
  {
    assert LowerAll(u) == u;
    BaseApiFiltered(u);
    var k := "baseapi";
    assert k[0] == 'b' && k[|k| - 1] == 'i' && '-' !in k;
    CanonicalOfFiltered(u, k);
  }

  /**
   * A capital anywhere takes priority over '_', and the underscore is then
   * dropped by the final filter: "Base_api" becomes "baseapi".
   */
  lemma KebabOfBaseApi()
    ensures Kebab("Base_api") == "baseapi"
  {
    AllKept("Base_api");
    KebabOfKept("Base_api");
    BaseApiDelimited();
    BaseApiCanonical("base_api");
  }

  // "base_api": a snake-case name.

  lemma SnakeNameDelimited()
    ensures DelimitWords("base_api") == "base-api"
  {
    var t := "base_api";
    assert ' ' !in t && !HasUpper(t) && '_' == t[4];
    assert ReplaceChar(t, '_', '-') == "base-api";
  }

  lemma SnakeNameCanonical()
    ensures Canonicalize("base-api") == "base-api"
  {
    assert KebabForm("base-api");
    CanonicalizeLowersTo("base-api", "base-api");
  }

  /** A snake-case name with no capital: each '_' becomes '-'. */
  lemma KebabOfSnakeName()
    ensures Kebab("base_api") == "base-api"
  {
    AllKept("base_api");
    KebabOfKept("base_api");
    SnakeNameDelimited();
    SnakeNameCanonical();
  }

  // "Base_Api": capitals and an underscore.

  lemma BaseApiCapsMarked()
    ensures HyphenBeforeCaps("ase_Api") == "ase_-Api"
  {
    assert "ase_Api" == "ase_" + ("A" + "pi");
    HyphenBeforeCapsNoCaps("ase_");
    HyphenBeforeCapsNoCaps("pi");
    HyphenBeforeCapsConcat("ase_", "A" + "pi");
    HyphenBeforeCapsConcat("A", "pi");
    assert HyphenBeforeCaps("A") == "-A";
  }

  lemma CapsAndUnderscoreDelimited(t: string)
    requires t == "Base_Api"
    ensures DelimitWords(t) == "base_-api"
  {
    assert ' ' !in t && IsUpper(t[0]);
    assert |t| > 1 && IsUpper(t[1..][4]);
    assert t[1..] == "ase_Api";
    BaseApiCapsMarked();
    assert [t[0]] + "ase_-Api" == "Base_-Api";
    assert LowerAll("Base_-Api") == "base_-api";
  }

  lemma {:induction false} CapsAndUnderscoreFiltered(l: string)
    requires l == "base_-api"
    ensures Filtered(l, OutputKeepset) == "base-api"
  {
    var a, c := l[..4], l[5..];
    assert l == a + [l[4]] + c;
    assert a == "base" && c == "-api";
    assert a + c == "base-api";
    FilteredDropsOne(a, l[4], c);
  }

  lemma BaseHyphenApiCanonical(k: string)
    requires k == "base-api"
    ensures HyphenFreeEnds(k) && !HasDoubleHyphen(k)
  {
    assert k[0] == 'b' && k[|k| - 1] == 'i';
    assert !HasDoubleHyphen(k);
  }

  lemma CapsAndUnderscoreLower(u: string)
    requires u == "base_-api"
    ensures LowerAll(u) == u
  {
  }

  lemma CapsAndUnderscoreCanonical(u: string)
    requires u == "base_-api"
    ensures Canonicalize(u) == "base-api"
  {
    CapsAndUnderscoreLower(u);
    CapsAndUnderscoreFiltered(u);
    BaseHyphenApiCanonical("base-api");
    CanonicalOfFiltered(u, "base-api");
  }

  /**
   * With a capital after the first character, a '-' goes before it and the
   * underscore is then dropped: "Base_Api" becomes "base-api".
   */
  lemma KebabOfBaseCapitalApi()
    ensures Kebab("Base_Api") == "base-api"
  {
    AllKept("Base_Api");
    KebabOfKept("Base_Api");
    CapsAndUnderscoreDelimited("Base_Api");
    CapsAndUnderscoreCanonical("base_-api");
  }

  // "a---b": three separators in a row.

  lemma HyphenWordCollapsed(s: string)
    requires s == "-b"
    ensures CollapseDoubleHyphens(s) == "-b"
  {
    assert s[0] == '-' && s[1] == 'b';
    assert !HasDoubleHyphen(s);
  }

  lemma TripleTailCollapsed(s: string)
    requires s == "---b"
    ensures CollapseDoubleHyphens(s) == "--b"
  {
    assert s[0] == '-' && s[1] == '-';
    HyphenWordCollapsed(s[2..]);
  }

  lemma TripleCollapsed()
    ensures CollapseDoubleHyphens("a---b") == "a--b"
  {
    var s := "a---b";
    assert s[0] == 'a';
    TripleTailCollapsed(s[1..]);
  }

  lemma DoubleTailCollapsed(s: string)
    requires s == "--b"
    ensures CollapseDoubleHyphens(s) == "-b"
  {
    assert s[0] == '-' && s[1] == '-';
    assert s[2..] == "b";
  }

  lemma DoubleCollapsed()
    ensures CollapseDoubleHyphens("a--b") == "a-b"
  {
    var s := "a--b";
    assert s[0] == 'a';
    DoubleTailCollapsed(s[1..]);
  }

  /** `kebabCase` is not idempotent: one pass leaves "--" from "---", the next collapses it. */
  lemma KebabNotIdempotent()
    ensures Kebab("a---b") == "a--b"
    ensures Kebab(Kebab("a---b")) == "a-b"
  {
    assert AllKebabChars("a---b") && HyphenFreeEnds("a---b");
    KebabOfKebabShaped("a---b");
    TripleCollapsed();
    assert AllKebabChars("a--b") && HyphenFreeEnds("a--b");
    KebabOfKebabShaped("a--b");
    DoubleCollapsed();
  }

  // "a-1": a word that starts with a digit.

  lemma DigitWordCamel()
    ensures DropHyphens("a-1", false) == "a1"
  {
    assert "a-1"[1..] == "-1";
    assert "-1"[1..] == "1";
    assert "1"[1..] == [];
  }

  lemma DigitWordKebab()
    ensures Kebab("a-1") == "a-1"
  {
    assert KebabForm("a-1");
    KebabFixedPoint("a-1");
  }

  lemma JoinedKebab()
    ensures Kebab("a1") == "a1"
  {
    assert KebabForm("a1");
    KebabFixedPoint("a1");
  }

  /** A word that starts with a digit does not survive the camel round trip: "a-1" comes back as "a1". */
  lemma CamelLosesDigitWord()
    ensures Kebab("a-1") == "a-1"
    ensures Kebab(Camel("a-1")) == "a1"
  {
    DigitWordKebab();
    DigitWordCamel();
    JoinedKebab();
  }
}
