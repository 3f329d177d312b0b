/**
 * The identifier case-conversion engine of test/main.go (lines 501-655):
 * `kebabCase` turns an arbitrary human-entered name into lower-case words
 * joined by '-', and the camel, Pascal, snake and title forms are computed
 * from that kebab form.
 *
 * Strings are `seq<char>`. The source indexes bytes, but every character
 * set it tests against is ASCII, so a character outside ASCII is treated
 * exactly like any other character missing from the keep sets: it is
 * dropped by the first `keep`. Case mapping is ASCII case mapping, which
 * is what Go's `strings.ToLower`/`ToUpper` do on the ASCII strings they
 * are applied to here.
 *
 * This module holds the specification functions and their properties;
 * the loops of the source are the methods of module CaseMethods.
 */
module CaseConversion {

  // ---------------------------------------------------------------------------
  // Character classes and keep sets
  // ---------------------------------------------------------------------------

  const LowercaseLetters: string := "abcdefghijklmnopqrstuvwxyz"
  const UppercaseLetters: string := "ABCDEFGHIJKLMNOPQRSTUVWXYZ"
  const Digits: string := "0123456789"

  /** The characters the first `keep` of `kebabCase` lets through. */
  const InputKeepset: string := LowercaseLetters + UppercaseLetters + Digits + "-_ "

  /** The characters the final `keep` of `kebabCase` lets through. */
  const OutputKeepset: string := LowercaseLetters + Digits + "-"

  predicate IsUpper(c: char) { 'A' <= c <= 'Z' }
  predicate IsLowerLetter(c: char) { 'a' <= c <= 'z' }
  predicate IsDigit(c: char) { '0' <= c <= '9' }
  predicate IsAlnum(c: char) { IsUpper(c) || IsLowerLetter(c) || IsDigit(c) }

  /** A character that may appear in a kebab form. */
  predicate IsKebabChar(c: char) { IsLowerLetter(c) || IsDigit(c) || c == '-' }

  /** `isUpperCase` tests membership in the 26 capital letters. */
  lemma UppercaseLettersAreUpper(c: char)
    ensures c in UppercaseLetters <==> IsUpper(c)
  {
  }

  lemma LowercaseLettersAreLower(c: char)
    ensures c in LowercaseLetters <==> IsLowerLetter(c)
  {
  }

  lemma DigitsAreDigits(c: char)
    ensures c in Digits <==> IsDigit(c)
  {
  }

  lemma InputKeepsetMembers(c: char)
    ensures c in InputKeepset <==> IsAlnum(c) || c == '-' || c == '_' || c == ' '
  {
    LowercaseLettersAreLower(c);
    UppercaseLettersAreUpper(c);
    DigitsAreDigits(c);
    assert InputKeepset == LowercaseLetters + UppercaseLetters + Digits + "-_ ";
  }

  lemma OutputKeepsetMembers(c: char)
    ensures c in OutputKeepset <==> IsKebabChar(c)
  {
    LowercaseLettersAreLower(c);
    DigitsAreDigits(c);
    assert OutputKeepset == LowercaseLetters + Digits + "-";
  }

  function ToLower(c: char): char
  {
    if IsUpper(c) then (c as int + 32) as char else c
  }

  function ToUpper(c: char): char
  {
    if IsLowerLetter(c) then (c as int - 32) as char else c
  }

  /** ASCII case mapping moves between the two letter ranges and fixes everything else. */
  lemma CaseMapping(c: char)
    ensures IsUpper(c) ==> IsLowerLetter(ToLower(c)) && ToUpper(ToLower(c)) == c
    ensures IsLowerLetter(c) ==> IsUpper(ToUpper(c)) && ToLower(ToUpper(c)) == c
    ensures !IsUpper(c) ==> ToLower(c) == c
    ensures !IsLowerLetter(c) ==> ToUpper(c) == c
  {
  }

  function LowerAll(s: string): string
  {
    seq(|s|, i requires 0 <= i < |s| => ToLower(s[i]))
  }

  function UpperAll(s: string): string
  {
    seq(|s|, i requires 0 <= i < |s| => ToUpper(s[i]))
  }

  /** `strings.Replace(s, string(from), string(to), -1)` for single characters. */
  function ReplaceChar(s: string, from: char, to: char): string
  {
    seq(|s|, i requires 0 <= i < |s| => if s[i] == from then to else s[i])
  }

  predicate HasUpper(s: string)
  {
    exists i :: 0 <= i < |s| && IsUpper(s[i])
  }

  predicate HasDoubleHyphen(s: string)
  {
    exists i :: 0 <= i < |s| - 1 && s[i] == '-' && s[i + 1] == '-'
  }

  predicate AllKebabChars(s: string)
  {
    forall i :: 0 <= i < |s| ==> IsKebabChar(s[i])
  }

  predicate AllAlnum(s: string)
  {
    forall i :: 0 <= i < |s| ==> IsAlnum(s[i])
  }

  /** Neither the first nor the last character is '-'. */
  predicate HyphenFreeEnds(s: string)
  {
    |s| > 0 ==> s[0] != '-' && s[|s| - 1] != '-'
  }

  /**
   * A canonical kebab form: lower-case letters and digits in words joined
   * by single hyphens. These are exactly the fixed points of Kebab.
   */
  predicate KebabForm(k: string)
  {
    AllKebabChars(k) && HyphenFreeEnds(k) && !HasDoubleHyphen(k)
  }

  /** Every '-' is followed by a lower-case letter (so no word starts with a digit). */
  predicate HyphensBeforeLetters(k: string)
  {
    forall i :: 0 <= i < |k| && k[i] == '-' ==> i + 1 < |k| && IsLowerLetter(k[i + 1])
  }

  // ---------------------------------------------------------------------------
  // keep (test/main.go:526-545)
  // ---------------------------------------------------------------------------

  /** The characters of `s` that occur in `keepset`, in their original order. */
  function Filtered(s: string, keepset: string): (r: string)
    ensures |r| <= |s|
    ensures forall c :: c in r <==> c in s && c in keepset
  {
    if |s| == 0 then []
    else
      var last := s[|s| - 1];
      assert s == s[..|s| - 1] + [last];
      Filtered(s[..|s| - 1], keepset) + (if last in keepset then [last] else [])
  }

  /** `keep(text, keepset)`: an empty text or an empty keep set is returned unchanged. */
  function Kept(text: string, keepset: string): string
  {
    if |text| == 0 || |keepset| == 0 then text else Filtered(text, keepset)
  }

  lemma {:induction false} FilteredKeepsAll(s: string, keepset: string)
    requires forall i :: 0 <= i < |s| ==> s[i] in keepset
    ensures Filtered(s, keepset) == s
  {
    if |s| > 0 {
      FilteredKeepsAll(s[..|s| - 1], keepset);
    }
  }

  /** Filtering distributes over concatenation. */
  lemma {:induction false} FilteredConcat(a: string, b: string, keepset: string)
    ensures Filtered(a + b, keepset) == Filtered(a, keepset) + Filtered(b, keepset)
    decreases |b|
  {
    if |b| == 0 {
      assert a + b == a;
    } else {
      var front := b[..|b| - 1];
      assert (a + b)[..|a + b| - 1] == a + front;
      assert (a + b)[|a + b| - 1] == b[|b| - 1];
      FilteredConcat(a, front, keepset);
    }
  }

  /** A string made only of characters of the keep set is kept whole. */
  lemma KeptKeepsAll(s: string, keepset: string)
    requires forall i :: 0 <= i < |s| ==> s[i] in keepset
    ensures Kept(s, keepset) == s
  {
    FilteredKeepsAll(s, keepset);
  }

  // ---------------------------------------------------------------------------
  // caseSensitiveToKebab (test/main.go:547-569)
  // ---------------------------------------------------------------------------

  /** `s` with a '-' written before every capital letter. */
  function HyphenBeforeCaps(s: string): string
  {
    if |s| == 0 then []
    else
      var last := s[|s| - 1];
      HyphenBeforeCaps(s[..|s| - 1]) + (if IsUpper(last) then ['-', last] else [last])
  }

  /**
   * `caseSensitiveToKebab`: a string of at most one character, or one with
   * no capital after its first character, is only lower-cased; otherwise a
   * '-' goes before every capital at index 1 or later, then all is lower-cased.
   */
  function HyphenateCaps(s: string): string
  {
    if |s| <= 1 then LowerAll(s)
    else if !HasUpper(s[1..]) then LowerAll(s)
    else LowerAll([s[0]] + HyphenBeforeCaps(s[1..]))
  }

  lemma {:induction false} HyphenBeforeCapsConcat(a: string, b: string)
    ensures HyphenBeforeCaps(a + b) == HyphenBeforeCaps(a) + HyphenBeforeCaps(b)
    decreases |b|
  {
    if |b| > 0 {
      var ab := a + b;
      assert ab[..|ab| - 1] == a + b[..|b| - 1];
      HyphenBeforeCapsConcat(a, b[..|b| - 1]);
    } else {
      assert a + b == a;
    }
  }

  lemma {:induction false} HyphenBeforeCapsNoCaps(s: string)
    requires !HasUpper(s)
    ensures HyphenBeforeCaps(s) == s
  {
    if |s| > 0 {
      var init := s[..|s| - 1];
      assert !HasUpper(init) by {
        forall i | 0 <= i < |init| ensures !IsUpper(init[i]) { assert init[i] == s[i]; }
      }
      HyphenBeforeCapsNoCaps(init);
      assert s == init + [s[|s| - 1]];
    }
  }

  /** Letters and digits, and hyphens each standing right before a capital. */
  predicate CapsMarked(r: string)
  {
    forall i :: 0 <= i < |r| ==> IsAlnum(r[i]) || (r[i] == '-' && i + 1 < |r| && IsUpper(r[i + 1]))
  }

  /**
   * On letters and digits, the inserted characters are hyphens, each of which
   * stands right before a capital; the first character is '-' exactly when
   * the string starts with a capital, and the last character is kept.
   */
  lemma {:induction false} HyphenBeforeCapsAlnum(s: string)
    requires AllAlnum(s)
    ensures CapsMarked(HyphenBeforeCaps(s))
    ensures |s| > 0 ==> |HyphenBeforeCaps(s)| > 0 && HyphenBeforeCaps(s)[|HyphenBeforeCaps(s)| - 1] == s[|s| - 1]
    ensures |s| > 0 ==> (HyphenBeforeCaps(s)[0] == '-' <==> IsUpper(s[0]))
    ensures |s| == 0 ==> HyphenBeforeCaps(s) == []
  {
    if |s| > 0 {
      var init := s[..|s| - 1];
      var last := s[|s| - 1];
      assert AllAlnum(init) by {
        forall i | 0 <= i < |init| ensures IsAlnum(init[i]) { assert init[i] == s[i]; }
      }
      HyphenBeforeCapsAlnum(init);
      var ri := HyphenBeforeCaps(init);
      var tail := if IsUpper(last) then ['-', last] else [last];
      var r := HyphenBeforeCaps(s);
      assert r == ri + tail;
      forall i | 0 <= i < |r|
        ensures IsAlnum(r[i]) || (r[i] == '-' && i + 1 < |r| && IsUpper(r[i + 1]))
      {
        if i < |ri| {
          assert r[i] == ri[i];
          if i + 1 < |ri| { assert r[i + 1] == ri[i + 1]; }
        } else {
          assert r[i] == tail[i - |ri|];
          if IsUpper(last) && i == |ri| { assert r[i + 1] == last; }
        }
      }
      if |init| == 0 {
        assert ri == [];
      } else {
        assert r[0] == ri[0];
        assert s[0] == init[0];
      }
    }
  }

  // ---------------------------------------------------------------------------
  // kebabCase (test/main.go:571-593)
  // ---------------------------------------------------------------------------

  /**
   * The separator style chosen by `kebabCase`, in priority order: a space
   * is replaced by '-'; otherwise any capital sends the string through
   * `caseSensitiveToKebab`; otherwise '_' is replaced by '-'.
   */
  function DelimitWords(t: string): string
  {
    if ' ' in t then ReplaceChar(t, ' ', '-')
    else if HasUpper(t) then HyphenateCaps(t)
    else if '_' in t then ReplaceChar(t, '_', '-')
    else t
  }

  /** `strings.TrimLeft(s, "-")`. */
  function TrimLeftHyphens(s: string): (r: string)
    ensures |r| <= |s| && r == s[|s| - |r|..]
    ensures forall i :: 0 <= i < |s| - |r| ==> s[i] == '-'
    ensures |r| > 0 ==> r[0] != '-'
  {
    if |s| > 0 && s[0] == '-' then TrimLeftHyphens(s[1..]) else s
  }

  /** `strings.TrimRight(s, "-")`. */
  function TrimRightHyphens(s: string): (r: string)
    ensures |r| <= |s| && r == s[..|r|]
    ensures forall i :: |r| <= i < |s| ==> s[i] == '-'
    ensures |r| > 0 ==> r[|r| - 1] != '-'
  {
    if |s| > 0 && s[|s| - 1] == '-' then TrimRightHyphens(s[..|s| - 1]) else s
  }

  /** `strings.Trim(s, "-")`: no '-' is left at either end, and only hyphens were removed. */
  function TrimHyphens(s: string): (r: string)
    ensures HyphenFreeEnds(r)
    ensures exists a, b :: 0 <= a <= b <= |s| && r == s[a..b] && (forall i :: 0 <= i < a ==> s[i] == '-') && (forall i :: b <= i < |s| ==> s[i] == '-')
    ensures HyphenFreeEnds(s) ==> r == s
  {
    var l := TrimLeftHyphens(s);
    var r := TrimRightHyphens(l);
    var a := |s| - |l|;
    var b := a + |r|;
    assert r == s[a..b];
    assert forall i :: b <= i < |s| ==> s[i] == l[i - a];
    r
  }

  /** Away from a leading "--", a string holds "--" exactly when its tail does. */
  lemma DoubleHyphenTail(s: string)
    requires |s| >= 2 && !(s[0] == '-' && s[1] == '-')
    ensures HasDoubleHyphen(s) <==> HasDoubleHyphen(s[1..])
  {
    var rest := s[1..];
    if HasDoubleHyphen(s) {
      var i :| 0 <= i < |s| - 1 && s[i] == '-' && s[i + 1] == '-';
      assert rest[i - 1] == s[i] && rest[i] == s[i + 1];
    }
    if HasDoubleHyphen(rest) {
      var i :| 0 <= i < |rest| - 1 && rest[i] == '-' && rest[i + 1] == '-';
      assert s[i + 1] == rest[i] && s[i + 2] == rest[i + 1];
    }
  }

  /**
   * `strings.Replace(s, "--", "-", -1)`: one left-to-right pass replacing
   * non-overlapping occurrences of "--", so "---" becomes "--".
   */
  function CollapseDoubleHyphens(s: string): (r: string)
    ensures |r| <= |s|
    ensures forall c :: c in r ==> c in s
    ensures |s| > 0 && s[0] != '-' ==> |r| > 0 && r[0] == s[0]
    ensures |s| > 0 && s[|s| - 1] != '-' ==> |r| > 0 && r[|r| - 1] == s[|s| - 1]
    ensures r == s <==> !HasDoubleHyphen(s)
  {
    if |s| < 2 then s
    else if s[0] == '-' && s[1] == '-' then
      "-" + CollapseDoubleHyphens(s[2..])
    else
      DoubleHyphenTail(s);
      [s[0]] + CollapseDoubleHyphens(s[1..])
  }

  /** Lower-casing and keeping [a-z0-9-] leaves only kebab characters. */
  lemma KeptOutputKebabChars(u: string)
    ensures AllKebabChars(Kept(LowerAll(u), OutputKeepset))
  {
    var kept := Kept(LowerAll(u), OutputKeepset);
    forall i | 0 <= i < |kept| ensures IsKebabChar(kept[i]) {
      assert kept[i] in kept;
      OutputKeepsetMembers(kept[i]);
    }
  }

  /** A string whose characters all occur in a string of kebab characters is one too. */
  lemma KebabCharsSub(k: string, t: string)
    requires AllKebabChars(k) && forall c :: c in t ==> c in k
    ensures AllKebabChars(t)
  {
    forall i | 0 <= i < |t| ensures IsKebabChar(t[i]) {
      assert t[i] in t;
      var j :| 0 <= j < |k| && k[j] == t[i];
    }
  }

  /** A slice of a string of kebab characters is one too. */
  lemma KebabCharsSlice(k: string, t: string)
    requires AllKebabChars(k) && exists a, b :: 0 <= a <= b <= |k| && t == k[a..b]
    ensures AllKebabChars(t)
  {
    var a, b :| 0 <= a <= b <= |k| && t == k[a..b];
    forall i | 0 <= i < |t| ensures IsKebabChar(t[i]) {
      assert t[i] == k[a + i];
    }
  }

  /** The final line of `kebabCase`: lower-case, keep [a-z0-9-], trim '-', collapse "--". */
  function Canonicalize(u: string): (r: string)
    ensures AllKebabChars(r) && HyphenFreeEnds(r)
  {
    var kept := Kept(LowerAll(u), OutputKeepset);
    KeptOutputKebabChars(u);
    var trimmed := TrimHyphens(kept);
    KebabCharsSlice(kept, trimmed);
    var r := CollapseDoubleHyphens(trimmed);
    KebabCharsSub(trimmed, r);
    r
  }

  /** `kebabCase`. */
  function Kebab(s: string): string
  {
    if |s| == 0 then s else Canonicalize(DelimitWords(Kept(s, InputKeepset)))
  }

  lemma LowerAllKebab(k: string)
    requires AllKebabChars(k)
    ensures LowerAll(k) == k
  {
  }

  /** Canonicalize settles on a canonical form whose lower-casing it is given. */
  lemma CanonicalizeLowersTo(u: string, k: string)
    requires LowerAll(u) == k && AllKebabChars(k) && HyphenFreeEnds(k)
    ensures Canonicalize(u) == CollapseDoubleHyphens(k)
  {
    forall i | 0 <= i < |k| ensures k[i] in OutputKeepset { OutputKeepsetMembers(k[i]); }
    KeptKeepsAll(k, OutputKeepset);
  }

  /** A kebab-shaped string goes through every stage of `kebabCase` unchanged except the collapse. */
  lemma KebabOfKebabShaped(k: string)
    requires AllKebabChars(k) && HyphenFreeEnds(k)
    ensures Kebab(k) == CollapseDoubleHyphens(k)
  {
    if |k| > 0 {
      forall i | 0 <= i < |k| ensures k[i] in InputKeepset { InputKeepsetMembers(k[i]); }
      KeptKeepsAll(k, InputKeepset);
      assert ' ' !in k && '_' !in k && !HasUpper(k);
      LowerAllKebab(k);
      CanonicalizeLowersTo(k, k);
    }
  }

  /** `kebabCase` output uses only [a-z0-9-] and never starts or ends with '-'. */
  lemma KebabShape(s: string)
    ensures AllKebabChars(Kebab(s)) && HyphenFreeEnds(Kebab(s))
  {
  }

  /** The empty name stays empty. */
  lemma KebabEmpty()
    ensures Kebab("") == ""
  {
  }

  /** `kebabCase` leaves a string unchanged exactly when it is already a canonical kebab form. */
  lemma KebabFixedPoint(s: string)
    ensures Kebab(s) == s <==> KebabForm(s)
  {
    if Kebab(s) == s {
      KebabShape(s);
      KebabOfKebabShaped(s);
    }
    if KebabForm(s) {
      KebabOfKebabShaped(s);
    }
  }

  /**
   * `kebabCase` is idempotent on a name exactly when its kebab form holds no
   * "--"; three separators in a row leave one, so it is not idempotent in general.
   */
  lemma KebabIdempotentIff(s: string)
    ensures Kebab(Kebab(s)) == Kebab(s) <==> !HasDoubleHyphen(Kebab(s))
  {
    KebabShape(s);
    KebabFixedPoint(Kebab(s));
  }

  /** Lower-casing a hyphenated alphanumeric string gives a canonical kebab form. */
  lemma {:induction false} HyphenatedAlnumIsKebab(t: string)
    requires |t| > 0 && AllAlnum(t)
    ensures KebabForm(LowerAll([t[0]] + HyphenBeforeCaps(t[1..])))
  {
    var tail := t[1..];
    assert AllAlnum(tail) by {
      forall i | 0 <= i < |tail| ensures IsAlnum(tail[i]) { assert tail[i] == t[i + 1]; }
    }
    HyphenBeforeCapsAlnum(tail);
    var h := HyphenBeforeCaps(tail);
    var w := [t[0]] + h;
    var k := LowerAll(w);
    assert CapsMarked(w) by {
      forall i | 0 <= i < |w| ensures IsAlnum(w[i]) || (w[i] == '-' && i + 1 < |w| && IsUpper(w[i + 1])) {
        if i > 0 { assert w[i] == h[i - 1]; if i < |w| - 1 { assert w[i + 1] == h[i]; } }
      }
    }
    assert AllKebabChars(k) by {
      forall i | 0 <= i < |k| ensures IsKebabChar(k[i]) {
        assert IsAlnum(w[i]) || (w[i] == '-' && i + 1 < |w| && IsUpper(w[i + 1]));
        CaseMapping(w[i]);
      }
    }
    if |h| > 0 { assert k[|k| - 1] == ToLower(h[|h| - 1]); }
    assert !HasDoubleHyphen(k) by {
      forall i | 0 <= i < |k| - 1 ensures !(k[i] == '-' && k[i + 1] == '-') {
        assert IsAlnum(w[i]) || (w[i] == '-' && i + 1 < |w| && IsUpper(w[i + 1]));
        CaseMapping(w[i]);
        CaseMapping(w[i + 1]);
      }
    }
  }

  /** On a nonempty alphanumeric name, the separator step hyphenates before interior capitals. */
  lemma DelimitWordsAlnum(t: string)
    requires |t| > 0 && AllAlnum(t)
    ensures DelimitWords(t) == LowerAll([t[0]] + HyphenBeforeCaps(t[1..]))
  {
    var tail := t[1..];
    assert ' ' !in t && '_' !in t;
    if !HasUpper(tail) {
      HyphenBeforeCapsNoCaps(tail);
      assert [t[0]] + tail == t;
      if !HasUpper(t) {
        assert forall i :: 0 <= i < |t| ==> ToLower(t[i]) == t[i];
      }
    }
  }

  /**
   * The camel/Pascal branch in general: a name of letters and digits with
   * at least one character is lower-cased with a '-' before every capital
   * after its first character.
   */
  lemma KebabOfAlnum(t: string)
    requires |t| > 0 && AllAlnum(t)
    ensures Kebab(t) == LowerAll([t[0]] + HyphenBeforeCaps(t[1..]))
  {
    forall i | 0 <= i < |t| ensures t[i] in InputKeepset { InputKeepsetMembers(t[i]); }
    KeptKeepsAll(t, InputKeepset);
    DelimitWordsAlnum(t);
    var k := LowerAll([t[0]] + HyphenBeforeCaps(t[1..]));
    HyphenatedAlnumIsKebab(t);
    LowerAllKebab(k);
    CanonicalizeLowersTo(k, k);
  }

  // ---------------------------------------------------------------------------
  // camelCase, pascalCase, titleCase, snakeCase (test/main.go:595-655)
  // ---------------------------------------------------------------------------

  /**
   * The rune loop of `camelCase` and `pascalCase` from a given flag state:
   * a '-' is dropped and sets the flag, the character after it is upper-cased.
   */
  function DropHyphens(k: string, upperNext: bool): string
  {
    if |k| == 0 then []
    else if upperNext then [ToUpper(k[0])] + DropHyphens(k[1..], false)
    else if k[0] == '-' then DropHyphens(k[1..], true)
    else [k[0]] + DropHyphens(k[1..], false)
  }

  /**
   * The rune loop of `titleCase` from a given flag state: a '-' becomes a
   * space and sets the flag, the character after it is upper-cased.
   */
  function SpaceHyphens(k: string, upperNext: bool): string
  {
    if |k| == 0 then []
    else if upperNext then [ToUpper(k[0])] + SpaceHyphens(k[1..], false)
    else if k[0] == '-' then [' '] + SpaceHyphens(k[1..], true)
    else [k[0]] + SpaceHyphens(k[1..], false)
  }

  /** `camelCase`. */
  function Camel(s: string): string
  {
    DropHyphens(Kebab(s), false)
  }

  /** `pascalCase`: as `camelCase`, and the character at index 0 is upper-cased too. */
  function Pascal(s: string): string
  {
    var k := Kebab(s);
    if |k| == 0 then [] else [ToUpper(k[0])] + DropHyphens(k[1..], false)
  }

  /** `titleCase`: as `pascalCase`, but each '-' is written as a space. */
  function Title(s: string): string
  {
    var k := Kebab(s);
    if |k| == 0 then [] else [ToUpper(k[0])] + SpaceHyphens(k[1..], false)
  }

  /** `snakeCase`. */
  function Snake(s: string): string
  {
    ReplaceChar(LowerAll(Kebab(s)), '-', '_')
  }

  /** `s` without its spaces. */
  function WithoutSpaces(s: string): string
  {
    if |s| == 0 then [] else (if s[0] == ' ' then [] else [s[0]]) + WithoutSpaces(s[1..])
  }

  /** The kebab form of a name satisfies the camel inverse's condition once its hyphens precede letters. */
  lemma KebabSuffixCamelSafe(k: string)
    requires AllKebabChars(k) && HyphensBeforeLetters(k) && |k| > 0
    ensures AllKebabChars(k[1..]) && HyphensBeforeLetters(k[1..])
  {
    var rest := k[1..];
    forall i | 0 <= i < |rest| ensures IsKebabChar(rest[i]) { assert rest[i] == k[i + 1]; }
    forall i | 0 <= i < |rest| && rest[i] == '-' ensures i + 1 < |rest| && IsLowerLetter(rest[i + 1]) {
      assert rest[i] == k[i + 1];
      assert i + 2 < |k| && IsLowerLetter(k[i + 2]);
    }
  }

  /** Lower-casing works character by character. */
  lemma LowerAllConcat(a: string, b: string)
    ensures LowerAll(a + b) == LowerAll(a) + LowerAll(b)
  {
    var l := LowerAll(a + b);
    forall i | 0 <= i < |l| ensures l[i] == (LowerAll(a) + LowerAll(b))[i] {
      if i >= |a| { assert (a + b)[i] == b[i - |a|]; }
    }
  }

  /** A character in front of an alphanumeric string keeps it alphanumeric. */
  lemma PrependAlnum(u: char, tail: string)
    requires IsAlnum(u) && AllAlnum(tail)
    ensures AllAlnum([u] + tail)
  {
    var d := [u] + tail;
    forall i | 0 <= i < |d| ensures IsAlnum(d[i]) { if i > 0 { assert d[i] == tail[i - 1]; } }
  }

  /** An upper-cased letter in front is marked by a '-', and lower-casing brings the letter back. */
  lemma PrependUpperInverse(c: char, tail: string)
    requires IsLowerLetter(c)
    ensures LowerAll(HyphenBeforeCaps([ToUpper(c)] + tail)) == ['-', c] + LowerAll(HyphenBeforeCaps(tail))
  {
    var u := ToUpper(c);
    CaseMapping(c);
    HyphenBeforeCapsConcat([u], tail);
    assert [u][..0] == [];
    assert HyphenBeforeCaps([u]) == ['-', u];
    LowerAllConcat(['-', u], HyphenBeforeCaps(tail));
    assert LowerAll(['-', u]) == ['-', c];
  }

  /** A lower-case letter or digit in front is left as it is. */
  lemma PrependPlainInverse(c: char, tail: string)
    requires IsLowerLetter(c) || IsDigit(c)
    ensures LowerAll(HyphenBeforeCaps([c] + tail)) == [c] + LowerAll(HyphenBeforeCaps(tail))
  {
    HyphenBeforeCapsConcat([c], tail);
    assert [c][..0] == [];
    assert HyphenBeforeCaps([c]) == [c];
    LowerAllConcat([c], HyphenBeforeCaps(tail));
    assert LowerAll([c]) == [c];
  }

  /**
   * Inverse of the camel loop: putting a '-' back before every capital and
   * lower-casing recovers the kebab string (with the pending '-' in front
   * when the flag is set).
   */
  lemma {:induction false} DropHyphensInverse(k: string, upperNext: bool)
    requires AllKebabChars(k) && HyphensBeforeLetters(k)
    requires upperNext ==> |k| > 0 && IsLowerLetter(k[0])
    ensures AllAlnum(DropHyphens(k, upperNext))
    ensures LowerAll(HyphenBeforeCaps(DropHyphens(k, upperNext))) == (if upperNext then "-" else "") + k
    decreases |k|
  {
    if |k| > 0 {
      var rest := k[1..];
      KebabSuffixCamelSafe(k);
      assert k == [k[0]] + rest;
      if upperNext {
        DropHyphensInverse(rest, false);
        CaseMapping(k[0]);
        PrependAlnum(ToUpper(k[0]), DropHyphens(rest, false));
        PrependUpperInverse(k[0], DropHyphens(rest, false));
      } else if k[0] == '-' {
        DropHyphensInverse(rest, true);
      } else {
        DropHyphensInverse(rest, false);
        PrependAlnum(k[0], DropHyphens(rest, false));
        PrependPlainInverse(k[0], DropHyphens(rest, false));
      }
    }
  }

  /**
   * Converting the camel form back with `kebabCase` gives the kebab form
   * again, provided every word after the first starts with a letter
   * ("a-1" becomes "a1", whose kebab form is "a1").
   */
  lemma CamelRoundTrip(s: string)
    requires HyphensBeforeLetters(Kebab(s))
    ensures Kebab(Camel(s)) == Kebab(s)
  {
    var k := Kebab(s);
    KebabShape(s);
    if |k| > 0 {
      DropHyphensInverse(k, false);
      var c := Camel(s);
      assert c == [k[0]] + DropHyphens(k[1..], false);
      KebabOfAlnum(c);
      assert c[1..] == DropHyphens(k[1..], false);
      assert !IsUpper(c[0]);
      HyphenBeforeCapsConcat([c[0]], c[1..]);
      assert HyphenBeforeCaps([c[0]]) == [c[0]] by {
        assert [c[0]][..0] == [];
      }
      assert [c[0]] + c[1..] == c;
    }
  }

  lemma CapitalizedRoundTrip(k: string)
    requires |k| > 0 && k[0] != '-' && AllKebabChars(k) && HyphensBeforeLetters(k)
    ensures Kebab([ToUpper(k[0])] + DropHyphens(k[1..], false)) == k
  {
    var rest := k[1..];
    var tail := DropHyphens(rest, false);
    var p := [ToUpper(k[0])] + tail;
    var h := HyphenBeforeCaps(tail);
    assert AllAlnum(p) && LowerAll(h) == rest by {
      KebabSuffixCamelSafe(k);
      DropHyphensInverse(rest, false);
      CaseMapping(k[0]);
      forall i | 0 <= i < |p| ensures IsAlnum(p[i]) {
        if i > 0 { assert p[i] == tail[i - 1]; assert IsAlnum(tail[i - 1]); }
      }
    }
    assert LowerAll([p[0]] + HyphenBeforeCaps(p[1..])) == k by {
      assert p[1..] == tail;
      CaseMapping(k[0]);
      var a := LowerAll([p[0]] + h);
      forall i | 0 <= i < |a| ensures a[i] == k[i] {
        if i >= 1 { assert ([p[0]] + h)[i] == h[i - 1]; assert k[i] == rest[i - 1]; }
      }
    }
    KebabOfAlnum(p);
  }

  /** Converting the Pascal form back with `kebabCase` gives the kebab form again, under the same condition. */
  lemma PascalRoundTrip(s: string)
    requires HyphensBeforeLetters(Kebab(s))
    ensures Kebab(Pascal(s)) == Kebab(s)
  {
    KebabShape(s);
    if |Kebab(s)| > 0 {
      CapitalizedRoundTrip(Kebab(s));
    }
  }

  /** The character the title loop writes at index `i` of a string without "--". */
  function TitleChar(x: string, i: nat, upperFirst: bool): char
    requires i < |x|
  {
    if x[i] == '-' then ' '
    else if (if i == 0 then upperFirst else x[i - 1] == '-') then ToUpper(x[i])
    else x[i]
  }

  lemma {:induction false} SpaceHyphensLength(x: string, upperNext: bool)
    ensures |SpaceHyphens(x, upperNext)| == |x|
    decreases |x|
  {
    if |x| > 0 {
      if upperNext || x[0] != '-' {
        SpaceHyphensLength(x[1..], false);
      } else {
        SpaceHyphensLength(x[1..], true);
      }
    }
  }

  lemma NoDoubleHyphenTail(x: string)
    requires |x| > 0 && !HasDoubleHyphen(x)
    ensures !HasDoubleHyphen(x[1..])
  {
    var rest := x[1..];
    forall i | 0 <= i < |rest| - 1 ensures !(rest[i] == '-' && rest[i + 1] == '-') {
      assert rest[i] == x[i + 1] && rest[i + 1] == x[i + 2];
      assert !(x[i + 1] == '-' && x[i + 2] == '-');
    }
  }

  /** The title character at `i` of `x[1..]` is the one at `i + 1` of `x`, once the flag says whether `x[0]` is '-'. */
  lemma TitleCharTail(x: string, i: nat, upperFirst: bool, flag: bool)
    requires 0 < i < |x|
    requires i == 1 ==> flag == (x[0] == '-')
    ensures TitleChar(x[1..], i - 1, flag) == TitleChar(x, i, upperFirst)
  {
    assert x[1..][i - 1] == x[i];
    if i > 1 { assert x[1..][i - 2] == x[i - 1]; }
  }

  lemma {:induction false} SpaceHyphensAt(x: string, upperNext: bool)
    requires !HasDoubleHyphen(x)
    requires upperNext && |x| > 0 ==> x[0] != '-'
    ensures |SpaceHyphens(x, upperNext)| == |x|
    ensures forall i :: 0 <= i < |x| ==> SpaceHyphens(x, upperNext)[i] == TitleChar(x, i, upperNext)
    decreases |x|
  {
    SpaceHyphensLength(x, upperNext);
    if |x| > 0 {
      var rest := x[1..];
      NoDoubleHyphenTail(x);
      var flag := !upperNext && x[0] == '-';
      assert flag && |rest| > 0 ==> rest[0] != '-' by {
        if flag && |rest| > 0 { assert !(x[0] == '-' && x[1] == '-'); }
      }
      SpaceHyphensAt(rest, flag);
      var r := SpaceHyphens(x, upperNext);
      var head := if upperNext then ToUpper(x[0]) else if x[0] == '-' then ' ' else x[0];
      assert r == [head] + SpaceHyphens(rest, flag);
      forall i | 0 <= i < |x| ensures r[i] == TitleChar(x, i, upperNext) {
        if i > 0 {
          assert r[i] == SpaceHyphens(rest, flag)[i - 1];
          TitleCharTail(x, i, upperNext, flag);
        }
      }
    }
  }

  /** The title loop on a string without "--" that does not start with '-', first character upper-cased. */
  lemma CapitalizedTitle(k: string)
    requires |k| > 0 && k[0] != '-' && !HasDoubleHyphen(k)
    ensures var t := [ToUpper(k[0])] + SpaceHyphens(k[1..], false);
      |t| == |k| && forall i :: 0 <= i < |k| ==> t[i] == TitleChar(k, i, true)
  {
    var rest := k[1..];
    NoDoubleHyphenTail(k);
    SpaceHyphensAt(rest, false);
    var t := [ToUpper(k[0])] + SpaceHyphens(rest, false);
    forall i | 0 <= i < |k| ensures t[i] == TitleChar(k, i, true) {
      if i > 0 {
        assert t[i] == SpaceHyphens(rest, false)[i - 1];
        TitleCharTail(k, i, true, false);
      }
    }
  }

  /**
   * `titleCase` keeps the length of the kebab form; without "--" in it,
   * each '-' becomes a space and the first character and each character
   * after a '-' are upper-cased.
   */
  lemma TitleShape(s: string)
    ensures |Title(s)| == |Kebab(s)|
    ensures !HasDoubleHyphen(Kebab(s)) ==>
      forall i :: 0 <= i < |Kebab(s)| ==> Title(s)[i] == TitleChar(Kebab(s), i, true)
  {
    var k := Kebab(s);
    KebabShape(s);
    if |k| > 0 {
      SpaceHyphensLength(k[1..], false);
      if !HasDoubleHyphen(k) {
        CapitalizedTitle(k);
      }
    }
  }

  /** Once every character is one `kebabCase` keeps, its result is the canonical form of the delimited string. */
  lemma KebabOfKept(t: string)
    requires |t| > 0
    requires forall i :: 0 <= i < |t| ==> t[i] in InputKeepset
    ensures Kebab(t) == Canonicalize(DelimitWords(t))
  {
    KeptKeepsAll(t, InputKeepset);
  }

  /** The title form is made only of characters `kebabCase` keeps, and lower-cases back to the kebab form once its spaces are hyphens. */
  lemma TitleLetters(k: string, t: string)
    requires |t| == |k| && AllKebabChars(k)
    requires forall i :: 0 <= i < |k| ==> t[i] == TitleChar(k, i, true)
    ensures forall i :: 0 <= i < |t| ==> t[i] in InputKeepset
    ensures LowerAll(ReplaceChar(t, ' ', '-')) == k
    ensures (' ' in t) <==> ('-' in k)
  {
    forall i | 0 <= i < |t| ensures t[i] in InputKeepset && (t[i] == ' ' <==> k[i] == '-') {
      assert t[i] == TitleChar(k, i, true);
      CaseMapping(k[i]);
      InputKeepsetMembers(t[i]);
    }
    forall i | 0 <= i < |k| ensures LowerAll(ReplaceChar(t, ' ', '-'))[i] == k[i] {
      assert t[i] == TitleChar(k, i, true);
      CaseMapping(k[i]);
    }
  }

  lemma TitledSpaced(k: string, t: string)
    requires |k| > 0 && KebabForm(k) && |t| == |k| && '-' in k
    requires forall i :: 0 <= i < |k| ==> t[i] == TitleChar(k, i, true)
    ensures Canonicalize(DelimitWords(t)) == k
  {
    TitleLetters(k, t);
    var u := ReplaceChar(t, ' ', '-');
    assert DelimitWords(t) == u;
    CanonicalizeLowersTo(u, k);
  }

  /** The title form of a single word: its first letter upper-cased, the rest as in the kebab form. */
  lemma OneWordTitleChars(k: string, t: string)
    requires |k| > 0 && KebabForm(k) && |t| == |k| && '-' !in k
    requires forall i :: 0 <= i < |k| ==> t[i] == TitleChar(k, i, true)
    ensures AllAlnum(t) && !HasUpper(t[1..]) && t[1..] == k[1..] && ToLower(t[0]) == k[0]
  {
    forall i | 0 <= i < |t| ensures IsAlnum(t[i]) {
      assert t[i] == TitleChar(k, i, true);
      CaseMapping(k[i]);
    }
    var tail := t[1..];
    forall i | 0 <= i < |tail| ensures tail[i] == k[i + 1] {
      assert tail[i] == t[i + 1] == TitleChar(k, i + 1, true);
    }
    assert t[0] == ToUpper(k[0]);
    CaseMapping(k[0]);
  }

  /** Lower-casing the hyphenated single-word title form gives the word back. */
  lemma OneWordTitleLowers(k: string, t: string)
    requires |t| > 0 && |t| == |k| && AllKebabChars(k)
    requires !HasUpper(t[1..]) && t[1..] == k[1..] && ToLower(t[0]) == k[0]
    ensures LowerAll([t[0]] + HyphenBeforeCaps(t[1..])) == k
  {
    var tail := t[1..];
    HyphenBeforeCapsNoCaps(tail);
    LowerAllConcat([t[0]], tail);
    assert AllKebabChars(tail) by {
      forall i | 0 <= i < |tail| ensures IsKebabChar(tail[i]) { assert tail[i] == k[i + 1]; }
    }
    LowerAllKebab(tail);
    assert [k[0]] + k[1..] == k;
  }

  lemma TitledOneWord(k: string, t: string)
    requires |k| > 0 && KebabForm(k) && |t| == |k| && '-' !in k
    requires forall i :: 0 <= i < |k| ==> t[i] == TitleChar(k, i, true)
    ensures Canonicalize(DelimitWords(t)) == k
  {
    OneWordTitleChars(k, t);
    OneWordTitleLowers(k, t);
    KebabOfAlnum(t);
    TitleLetters(k, t);
    KebabOfKept(t);
  }

  lemma TitledRoundTrip(k: string, t: string)
    requires |k| > 0 && KebabForm(k) && |t| == |k|
    requires forall i :: 0 <= i < |k| ==> t[i] == TitleChar(k, i, true)
    ensures Kebab(t) == k
  {
    TitleLetters(k, t);
    KebabOfKept(t);
    if '-' in k {
      TitledSpaced(k, t);
    } else {
      TitledOneWord(k, t);
    }
  }

  /** Converting the title form back with `kebabCase` gives the kebab form again whenever it holds no "--". */
  lemma TitleRoundTrip(s: string)
    requires !HasDoubleHyphen(Kebab(s))
    ensures Kebab(Title(s)) == Kebab(s)
  {
    KebabShape(s);
    TitleShape(s);
    if |Kebab(s)| > 0 {
      TitledRoundTrip(Kebab(s), Title(s));
    }
  }

  /** `snakeCase` keeps the length of the kebab form and writes '_' for each '-'. */
  lemma SnakeShape(s: string)
    ensures |Snake(s)| == |Kebab(s)|
    ensures forall i :: 0 <= i < |Kebab(s)| ==>
      Snake(s)[i] == if Kebab(s)[i] == '-' then '_' else Kebab(s)[i]
  {
    KebabShape(s);
    LowerAllKebab(Kebab(s));
  }

  lemma SnakedDelimit(k: string, n: string)
    requires KebabForm(k) && |n| == |k|
    requires forall i :: 0 <= i < |k| ==> n[i] == if k[i] == '-' then '_' else k[i]
    ensures DelimitWords(n) == k
  {
    assert ' ' !in n && !HasUpper(n);
    if '_' in n { assert ReplaceChar(n, '_', '-') == k; } else { assert n == k; }
  }

  lemma SnakedRoundTrip(k: string, n: string)
    requires |k| > 0 && KebabForm(k) && |n| == |k|
    requires forall i :: 0 <= i < |k| ==> n[i] == if k[i] == '-' then '_' else k[i]
    ensures Kebab(n) == k
  {
    forall i | 0 <= i < |n| ensures n[i] in InputKeepset { InputKeepsetMembers(n[i]); }
    KebabOfKept(n);
    SnakedDelimit(k, n);
    LowerAllKebab(k);
    CanonicalizeLowersTo(k, k);
  }

  /** Converting the snake form back with `kebabCase` gives the kebab form again whenever it holds no "--". */
  lemma SnakeRoundTrip(s: string)
    requires !HasDoubleHyphen(Kebab(s))
    ensures Kebab(Snake(s)) == Kebab(s)
  {
    KebabShape(s);
    SnakeShape(s);
    if |Kebab(s)| > 0 {
      SnakedRoundTrip(Kebab(s), Snake(s));
    }
  }

  lemma {:induction false} DropHyphensIsSpaceHyphensWithoutSpaces(x: string, upperNext: bool)
    requires ' ' !in x
    ensures DropHyphens(x, upperNext) == WithoutSpaces(SpaceHyphens(x, upperNext))
    decreases |x|
  {
    if |x| > 0 {
      var rest := x[1..];
      assert ' ' !in rest by { assert forall c :: c in rest ==> c in x; }
      CaseMapping(x[0]);
      if upperNext {
        DropHyphensIsSpaceHyphensWithoutSpaces(rest, false);
        assert ([ToUpper(x[0])] + SpaceHyphens(rest, false))[1..] == SpaceHyphens(rest, false);
      } else if x[0] == '-' {
        DropHyphensIsSpaceHyphensWithoutSpaces(rest, true);
        assert ([' '] + SpaceHyphens(rest, true))[1..] == SpaceHyphens(rest, true);
      } else {
        DropHyphensIsSpaceHyphensWithoutSpaces(rest, false);
        assert ([x[0]] + SpaceHyphens(rest, false))[1..] == SpaceHyphens(rest, false);
      }
    }
  }

  /** The Pascal form is the title form with its spaces removed. */
  lemma PascalIsTitleWithoutSpaces(s: string)
    ensures Pascal(s) == WithoutSpaces(Title(s))
  {
    var k := Kebab(s);
    KebabShape(s);
    if |k| > 0 {
      var rest := k[1..];
      assert ' ' !in rest by {
        forall i | 0 <= i < |rest| ensures rest[i] != ' ' { assert rest[i] == k[i + 1]; }
      }
      DropHyphensIsSpaceHyphensWithoutSpaces(rest, false);
      CaseMapping(k[0]);
      var t := Title(s);
      assert t[1..] == SpaceHyphens(rest, false);
    }
  }

  /**
   * The camel and Pascal forms differ only in their first character, which
   * the Pascal form upper-cases and the camel form leaves as in the kebab form.
   */
  lemma CamelIsPascalUncapitalized(s: string)
    ensures |Camel(s)| == |Pascal(s)|
    ensures |Camel(s)| > 0 ==> Camel(s)[1..] == Pascal(s)[1..]
    ensures |Camel(s)| > 0 <==> |Kebab(s)| > 0
    ensures |Kebab(s)| > 0 ==> Camel(s)[0] == Kebab(s)[0] && Pascal(s)[0] == ToUpper(Kebab(s)[0])
  {
    KebabShape(s);
  }

  lemma {:induction false} DropHyphensChars(x: string, upperNext: bool)
    requires AllKebabChars(x)
    ensures forall i :: 0 <= i < |DropHyphens(x, upperNext)| ==>
      IsKebabChar(DropHyphens(x, upperNext)[i]) || IsUpper(DropHyphens(x, upperNext)[i])
    decreases |x|
  {
    if |x| > 0 {
      var rest := x[1..];
      assert AllKebabChars(rest) by {
        forall i | 0 <= i < |rest| ensures IsKebabChar(rest[i]) { assert rest[i] == x[i + 1]; }
      }
      CaseMapping(x[0]);
      DropHyphensChars(rest, false);
      DropHyphensChars(rest, true);
      var d := DropHyphens(x, upperNext);
      forall i | 0 <= i < |d| ensures IsKebabChar(d[i]) || IsUpper(d[i]) {
        if upperNext {
          assert d == [ToUpper(x[0])] + DropHyphens(rest, false);
          if i > 0 { assert d[i] == DropHyphens(rest, false)[i - 1]; }
        } else if x[0] == '-' {
          assert d == DropHyphens(rest, true);
        } else {
          assert d == [x[0]] + DropHyphens(rest, false);
          if i > 0 { assert d[i] == DropHyphens(rest, false)[i - 1]; }
        }
      }
    }
  }

  /** The camel form is made of letters, digits and '-', never '_'. */
  lemma CamelAlphabet(s: string)
    ensures forall i :: 0 <= i < |Camel(s)| ==> IsKebabChar(Camel(s)[i]) || IsUpper(Camel(s)[i])
  {
    KebabShape(s);
    DropHyphensChars(Kebab(s), false);
  }
}
