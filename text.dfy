/**
  String helpers used by the de-identification pipeline: Python's `str.strip()`
  (for the blank-cell test), `str.title()` restricted to ASCII letters (for the
  report labels) and the decimal rendering of a count in an f-string.
 */
module Text {

  /** Python's `str.isspace()` for one character: the ASCII controls TAB..CR,
      the four information separators U+001C..U+001F, SPACE, and the Unicode
      spaces and line/paragraph separators. */
  predicate IsSpace(c: char) {
    || ('\t' <= c <= '\r')
    || ('\U{1C}' <= c <= ' ')
    || c == '\U{85}' || c == '\U{A0}' || c == '\U{1680}'
    || ('\U{2000}' <= c <= '\U{200A}')
    || c == '\U{2028}' || c == '\U{2029}' || c == '\U{202F}'
    || c == '\U{205F}' || c == '\U{3000}'
  }

  /** `s` with its leading whitespace removed. */
  function TrimStart(s: string): string {
    if s != [] && IsSpace(s[0]) then TrimStart(s[1..]) else s
  }

  /** `s` with its trailing whitespace removed. */
  function TrimEnd(s: string): string {
    if s != [] && IsSpace(s[|s| - 1]) then TrimEnd(s[..|s| - 1]) else s
  }

  /** TrimStart removes the longest all-whitespace prefix: what it drops is
      whitespace and what it keeps is a suffix that does not start with
      whitespace. */
  lemma {:induction false} TrimStartSpec(s: string)
    ensures var r := TrimStart(s);
      && |r| <= |s| && r == s[|s| - |r|..]
      && (forall i :: 0 <= i < |s| - |r| ==> IsSpace(s[i]))
      && (r == [] || !IsSpace(r[0]))
  {
    if s != [] && IsSpace(s[0]) {
      var t := s[1..];
      var r := TrimStart(t);
      TrimStartSpec(t);
      assert t[|t| - |r|..] == s[|s| - |r|..];
      forall i | 0 < i < |s| - |r| ensures IsSpace(s[i]) {
        assert s[i] == t[i - 1];
      }
    }
  }

  /** TrimEnd removes the longest all-whitespace suffix: what it drops is
      whitespace and what it keeps is a prefix that does not end with
      whitespace. */
  lemma {:induction false} TrimEndSpec(s: string)
    ensures var r := TrimEnd(s);
      && |r| <= |s| && r == s[..|r|]
      && (forall i :: |r| <= i < |s| ==> IsSpace(s[i]))
      && (r == [] || !IsSpace(r[|r| - 1]))
  {
    if s != [] && IsSpace(s[|s| - 1]) {
      var t := s[..|s| - 1];
      var r := TrimEnd(t);
      TrimEndSpec(t);
      assert t[..|r|] == s[..|r|];
      forall i | |r| <= i < |s| - 1 ensures IsSpace(s[i]) {
        assert s[i] == t[i];
      }
    }
  }

  /** Python's `s.strip()` with no argument. */
  function Strip(s: string): string {
    TrimEnd(TrimStart(s))
  }

  /** The test `cell.strip() == ""` that decides whether a cell is skipped. */
  predicate IsBlank(s: string) {
    Strip(s) == ""
  }

  /** A cell is blank exactly when every one of its characters is whitespace
      (the empty cell included). */
  lemma BlankIffAllSpace(s: string)
    ensures IsBlank(s) <==> forall i :: 0 <= i < |s| ==> IsSpace(s[i])
  {
    var t := TrimStart(s);
    TrimStartSpec(s);
    TrimEndSpec(t);
    if t != [] {
      assert !IsSpace(t[0]);
      assert TrimEnd(t) != [];
      assert s[|s| - |t|] == t[0];
    }
  }

  /** Stripping keeps the slice `s[a..a + |Strip(s)|]`, which neither starts
      nor ends in whitespace, and everything it removes is whitespace. */
  lemma StripIsTrimmedSlice(s: string) returns (a: nat)
    ensures var r := Strip(s);
      && a + |r| <= |s| && s[a..a + |r|] == r
      && (r == [] || (!IsSpace(r[0]) && !IsSpace(r[|r| - 1])))
      && (r != [] ==> forall i :: 0 <= i < a ==> IsSpace(s[i]))
      && (r != [] ==> forall i :: a + |r| <= i < |s| ==> IsSpace(s[i]))
  {
    var t := TrimStart(s);
    var r := TrimEnd(t);
    TrimStartSpec(s);
    TrimEndSpec(t);
    a := |s| - |t|;
    if r != [] {
      assert r[0] == t[0];
      forall i | a + |r| <= i < |s| ensures IsSpace(s[i]) {
        assert s[i] == t[i - a];
      }
    }
  }

  predicate IsLower(c: char) { 'a' <= c <= 'z' }
  predicate IsUpper(c: char) { 'A' <= c <= 'Z' }

  /** A letter that has a case; only ASCII letters are considered. */
  predicate IsCased(c: char) { IsLower(c) || IsUpper(c) }

  function ToUpper(c: char): char {
    if IsLower(c) then (c as int - 'a' as int + 'A' as int) as char else c
  }

  function ToLower(c: char): char {
    if IsUpper(c) then (c as int - 'A' as int + 'a' as int) as char else c
  }

  /** `str.title()` on the rest of a string, `afterCased` telling whether the
      character just before it was a cased letter. */
  function TitleFrom(s: string, afterCased: bool): (r: string)
    ensures |r| == |s|
  {
    if s == [] then []
    else
      var c := s[0];
      if IsCased(c) then [if afterCased then ToLower(c) else ToUpper(c)] + TitleFrom(s[1..], true)
      else [c] + TitleFrom(s[1..], false)
  }

  /** Python's `s.title()`, for ASCII letters. */
  function Title(s: string): string {
    TitleFrom(s, false)
  }

  /** Title-casing keeps every character up to case, keeps every character
      that has no case, and upper-cases a letter exactly when it starts a
      word, that is, when the character before it is not a letter. */
  lemma {:induction false} TitleFromSpec(s: string, afterCased: bool)
    ensures var r := TitleFrom(s, afterCased);
      && (forall i :: 0 <= i < |s| ==> IsCased(r[i]) == IsCased(s[i]))
      && (forall i :: 0 <= i < |s| ==> ToLower(r[i]) == ToLower(s[i]))
      && (forall i :: 0 <= i < |s| && !IsCased(s[i]) ==> r[i] == s[i])
      && (forall i :: 0 <= i < |s| && IsCased(s[i]) ==>
            (IsUpper(r[i]) <==> !(if i == 0 then afterCased else IsCased(s[i - 1]))))
  {
    if s != [] {
      var r := TitleFrom(s, afterCased);
      var rest := TitleFrom(s[1..], IsCased(s[0]));
      TitleFromSpec(s[1..], IsCased(s[0]));
      assert r[1..] == rest;
      forall i | 0 < i < |s| ensures IsCased(r[i]) == IsCased(s[i]) && ToLower(r[i]) == ToLower(s[i]) {
        assert r[i] == rest[i - 1] && s[i] == s[1..][i - 1];
      }
      forall i | 0 < i < |s| && IsCased(s[i])
        ensures IsUpper(r[i]) <==> !IsCased(s[i - 1])
      {
        assert r[i] == rest[i - 1] && s[i] == s[1..][i - 1];
        if i > 1 {
          assert s[i - 1] == s[1..][i - 2];
        }
      }
    }
  }

  /** Title-casing a title-cased string changes nothing. */
  lemma {:induction false} TitleFromIdempotent(s: string, afterCased: bool)
    ensures TitleFrom(TitleFrom(s, afterCased), afterCased) == TitleFrom(s, afterCased)
  {
    if s != [] {
      var t := TitleFrom(s, afterCased);
      TitleFromIdempotent(s[1..], IsCased(s[0]));
      TitleFromSpec(s, afterCased);
      assert t[1..] == TitleFrom(s[1..], IsCased(s[0]));
      assert IsCased(t[0]) == IsCased(s[0]);
    }
  }

  /** Title-casing a concatenation title-cases the second part as if it
      followed the first: it starts a word unless the first ends in a letter. */
  lemma {:induction false} TitleFromAppend(a: string, b: string, afterCased: bool)
    ensures TitleFrom(a + b, afterCased)
         == TitleFrom(a, afterCased) + TitleFrom(b, if a == [] then afterCased else IsCased(a[|a| - 1]))
  {
    if a != [] {
      assert (a + b)[1..] == a[1..] + b;
      TitleFromAppend(a[1..], b, IsCased(a[0]));
    } else {
      assert a + b == b;
    }
  }

  /** Python's `s.replace('_', ' ')`. */
  function UnderscoresToSpaces(s: string): (r: string)
    ensures |r| == |s|
  {
    if s == [] then [] else [if s[0] == '_' then ' ' else s[0]] + UnderscoresToSpaces(s[1..])
  }

  /** Every underscore becomes a space and every other character is kept. */
  lemma {:induction false} UnderscoresToSpacesAt(s: string)
    ensures forall i :: 0 <= i < |s| ==>
      UnderscoresToSpaces(s)[i] == (if s[i] == '_' then ' ' else s[i])
  {
    if s != [] {
      UnderscoresToSpacesAt(s[1..]);
      assert forall i :: 0 < i < |s| ==> UnderscoresToSpaces(s)[i] == UnderscoresToSpaces(s[1..])[i - 1];
    }
  }

  /** Replacing underscores works on each part of a concatenation apart. */
  lemma {:induction false} UnderscoresToSpacesAppend(a: string, b: string)
    ensures UnderscoresToSpaces(a + b) == UnderscoresToSpaces(a) + UnderscoresToSpaces(b)
  {
    if a != [] {
      assert (a + b)[1..] == a[1..] + b;
      UnderscoresToSpacesAppend(a[1..], b);
    } else {
      assert a + b == b;
    }
  }

  /** A text without underscores is left unchanged. */
  lemma UnderscoreFreeUnchanged(s: string)
    requires forall i :: 0 <= i < |s| ==> s[i] != '_'
    ensures UnderscoresToSpaces(s) == s
  {
    UnderscoresToSpacesAt(s);
  }

  /** The label an entity type gets in the report:
      `key.replace('_', ' ').title()`. */
  function FormatLabel(key: string): string {
    Title(UnderscoresToSpaces(key))
  }

  /** The label has the key's length and no underscore: each underscore of the
      key is a space and every other character is the key's up to case; the
      label is already title-cased. */
  lemma FormatLabelSpec(key: string)
    ensures var r := FormatLabel(key);
      && |r| == |key|
      && (forall i :: 0 <= i < |key| ==> r[i] != '_')
      && (forall i :: 0 <= i < |key| && key[i] == '_' ==> r[i] == ' ')
      && (forall i :: 0 <= i < |key| && key[i] != '_' ==> ToLower(r[i]) == ToLower(key[i]))
      && Title(r) == r
  {
    var u := UnderscoresToSpaces(key);
    UnderscoresToSpacesAt(key);
    TitleFromSpec(u, false);
    TitleFromIdempotent(u, false);
  }

  /** The decimal digit for `d`. */
  function DigitChar(d: nat): (c: char)
    requires d < 10
    ensures '0' <= c <= '9' && c as int - '0' as int == d
  {
    ('0' as int + d) as char
  }

  predicate IsDigit(c: char) { '0' <= c <= '9' }

  function DigitValue(c: char): (d: nat)
    requires IsDigit(c)
    ensures d < 10 && DigitChar(d) == c
  {
    c as int - '0' as int
  }

  /** The decimal text of `n` as Python's `str(n)` or `f"{n}"` renders it. */
  function NatToString(n: nat): (r: string)
    ensures |r| >= 1
    ensures forall i :: 0 <= i < |r| ==> IsDigit(r[i])
    ensures r[0] == '0' ==> n == 0 && |r| == 1
  {
    if n < 10 then [DigitChar(n)] else NatToString(n / 10) + [DigitChar(n % 10)]
  }

  /** The value of a string of decimal digits, most significant first. */
  function DecimalValue(s: string): nat
    requires forall i :: 0 <= i < |s| ==> IsDigit(s[i])
  {
    if s == [] then 0
    else 10 * DecimalValue(s[..|s| - 1]) + DigitValue(s[|s| - 1])
  }

  /** Reading back the rendered count gives the count. */
  lemma {:induction false} NatToStringRoundTrip(n: nat)
    ensures DecimalValue(NatToString(n)) == n
  {
    if n >= 10 {
      var s := NatToString(n);
      NatToStringRoundTrip(n / 10);
      assert s[..|s| - 1] == NatToString(n / 10);
    }
  }
}
