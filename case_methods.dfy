/**
 * The loops of the case helpers in test/main.go, written as the byte and
 * rune loops they are and proved against the functions of CaseConversion.
 */
module CaseMethods {
  import opened CaseConversion

  /** `containsAnyUpperCase`: whether any character is a capital letter. */
  method ContainsAnyUpperCase(text: string) returns (found: bool)
    ensures found <==> HasUpper(text)
    ensures found ==> |text| > 0
  {
    var l := |text|;
    if l <= 0 {
      return false;
    }
    var i := 0;
    while i < l
      invariant 0 <= i <= l
      invariant forall j :: 0 <= j < i ==> !IsUpper(text[j])
    {
      UppercaseLettersAreUpper(text[i]);
      if text[i] in UppercaseLetters {
        return true;
      }
      i := i + 1;
    }
    return false;
  }

  /** `keep`: the characters of `text` that occur in `keepset`, in order. */
  method Keep(text: string, keepset: string) returns (kept: string)
    ensures kept == Kept(text, keepset)
  {
    var l := |text|;
    if l <= 0 || |keepset| <= 0 {
      return text;
    }
    kept := "";
    var i := 0;
    while i < l
      invariant 0 <= i <= l
      invariant kept == Filtered(text[..i], keepset)
    {
      var r := text[i];
      assert text[..i + 1][..i] == text[..i];
      if r in keepset {
        kept := kept + [r];
      }
      i := i + 1;
    }
    assert text[..l] == text;
  }

  /** `caseSensitiveToKebab`. */
  method CaseSensitiveToKebab(caseSensitive: string) returns (kebab: string)
    ensures kebab == HyphenateCaps(caseSensitive)
  {
    var l := |caseSensitive|;
    if l <= 1 {
      return LowerAll(caseSensitive);
    }
    var anyUpper := ContainsAnyUpperCase(caseSensitive[1..]);
    if !anyUpper {
      return LowerAll(caseSensitive);
    }
    var buffer := [caseSensitive[0]];
    var i := 1;
    while i < l
      invariant 1 <= i <= l
      invariant buffer == [caseSensitive[0]] + HyphenBeforeCaps(caseSensitive[1..i])
    {
      var r := caseSensitive[i];
      assert caseSensitive[1..i + 1][..i - 1] == caseSensitive[1..i];
      UppercaseLettersAreUpper(r);
      if r in UppercaseLetters {
        buffer := buffer + "-";
      }
      buffer := buffer + [r];
      i := i + 1;
    }
    assert caseSensitive[1..l] == caseSensitive[1..];
    kebab := LowerAll(buffer);
  }

  /** `kebabCase`, calling the loops above. */
  method KebabCase(anyCase: string) returns (kebab: string)
    ensures kebab == Kebab(anyCase)
  {
    if |anyCase| <= 0 {
      return anyCase;
    }
    var text := Keep(anyCase, InputKeepset);
    var anyUpper := ContainsAnyUpperCase(text);
    if ' ' in text {
      text := ReplaceChar(text, ' ', '-');
    } else if anyUpper {
      text := CaseSensitiveToKebab(text);
    } else if '_' in text {
      text := ReplaceChar(text, '_', '-');
    }
    var kept := Keep(LowerAll(text), OutputKeepset);
    kebab := CollapseDoubleHyphens(TrimHyphens(kept));
  }

  /** `camelCase`. */
  method CamelCase(name: string) returns (camel: string)
    ensures camel == Camel(name)
  {
    var kebab := KebabCase(name);
    camel := CamelRunes(kebab);
  }

  /** The rune loop of `camelCase` over a kebab form: each '-' is dropped and what follows it upper-cased. */
  method CamelRunes(kebab: string) returns (camel: string)
    ensures camel == DropHyphens(kebab, false)
  {
    var isToUpper := false;
    camel := "";
    var i := 0;
    assert kebab[i..] == kebab;
    while i < |kebab|
      invariant 0 <= i <= |kebab|
      invariant camel + DropHyphens(kebab[i..], isToUpper) == DropHyphens(kebab, false)
    {
      var r := kebab[i];
      assert kebab[i..][1..] == kebab[i + 1..];
      if isToUpper {
        camel := camel + [ToUpper(r)];
        isToUpper := false;
      } else if r == '-' {
        isToUpper := true;
      } else {
        camel := camel + [r];
      }
      i := i + 1;
    }
    assert kebab[i..] == [];
  }

  /** `pascalCase`. */
  method PascalCase(name: string) returns (pascal: string)
    ensures pascal == Pascal(name)
  {
    var kebab := KebabCase(name);
    pascal := PascalRunes(kebab);
  }

  /** The rune loop of `pascalCase`: as the camel loop, upper-casing index 0 as well. */
  method PascalRunes(kebab: string) returns (pascal: string)
    ensures |kebab| == 0 ==> pascal == []
    ensures |kebab| > 0 ==> pascal == [ToUpper(kebab[0])] + DropHyphens(kebab[1..], false)
  {
    var isToUpper := false;
    pascal := "";
    var i := 0;
    while i < |kebab|
      invariant 0 <= i <= |kebab|
      invariant i == 0 ==> pascal == [] && !isToUpper
      invariant i > 0 ==> pascal + DropHyphens(kebab[i..], isToUpper) == [ToUpper(kebab[0])] + DropHyphens(kebab[1..], false)
    {
      var r := kebab[i];
      assert kebab[i..][1..] == kebab[i + 1..];
      if isToUpper || i == 0 {
        pascal := pascal + [ToUpper(r)];
        isToUpper := false;
      } else if r == '-' {
        isToUpper := true;
      } else {
        pascal := pascal + [r];
      }
      i := i + 1;
    }
    assert kebab[i..] == [];
  }

  /** `titleCase`. */
  method TitleCase(name: string) returns (title: string)
    ensures title == Title(name)
  {
    var kebab := KebabCase(name);
    title := TitleRunes(kebab);
  }

  /** The rune loop of `titleCase`: as the Pascal loop, writing a space for each '-'. */
  method TitleRunes(kebab: string) returns (title: string)
    ensures |kebab| == 0 ==> title == []
    ensures |kebab| > 0 ==> title == [ToUpper(kebab[0])] + SpaceHyphens(kebab[1..], false)
  {
    var isToUpper := false;
    title := "";
    var i := 0;
    while i < |kebab|
      invariant 0 <= i <= |kebab|
      invariant i == 0 ==> title == [] && !isToUpper
      invariant i > 0 ==> title + SpaceHyphens(kebab[i..], isToUpper) == [ToUpper(kebab[0])] + SpaceHyphens(kebab[1..], false)
    {
      var r := kebab[i];
      assert kebab[i..][1..] == kebab[i + 1..];
      if isToUpper || i == 0 {
        title := title + [ToUpper(r)];
        isToUpper := false;
      } else if r == '-' {
        isToUpper := true;
        title := title + [' '];
      } else {
        title := title + [r];
      }
      i := i + 1;
    }
    assert kebab[i..] == [];
  }

  /** `snakeCase`. */
  method SnakeCase(name: string) returns (snake: string)
    ensures snake == Snake(name)
  {
    var kebab := KebabCase(name);
    snake := ReplaceChar(LowerAll(kebab), '-', '_');
  }
}
