/** Character classes and the string operations the client code uses:
    `replace(/\D/g, '')`, `replace(/\s/g, '')`, `trim()`, `toLowerCase()`,
    `replace(/([A-Z])/g, ' $1')`, substring search and splitting at newlines. */
module Text {
  import opened Basics

  /** `\d` in a JavaScript regular expression: the ASCII digits only. */
  predicate IsDigit(c: char) {
    '0' <= c <= '9'
  }

  /** `\s` in a JavaScript regular expression, which is also the set of
      characters `String.prototype.trim` strips. */
  predicate IsSpace(c: char) {
    || c == ' ' || c == '\t' || c == '\n' || c == '\r'
    || c == '\U{000B}' || c == '\U{000C}' || c == '\U{00A0}' || c == '\U{1680}'
    || ('\U{2000}' <= c <= '\U{200A}')
    || c == '\U{2028}' || c == '\U{2029}' || c == '\U{202F}' || c == '\U{205F}'
    || c == '\U{3000}' || c == '\U{FEFF}'
  }

  predicate NotSpace(c: char) {
    !IsSpace(c)
  }

  predicate IsUpper(c: char) {
    'A' <= c <= 'Z'
  }

  predicate IsNewline(c: char) {
    c == '\n'
  }

  predicate AllDigits(s: string) {
    forall i :: 0 <= i < |s| ==> IsDigit(s[i])
  }

  predicate Blank(s: string) {
    forall i :: 0 <= i < |s| ==> IsSpace(s[i])
  }

  /** `value.replace(/\D/g, '')`: the digits of `s`, in order. */
  function Digits(s: string): (r: string)
    ensures AllDigits(r)
    ensures |r| <= |s|
  {
    Filter(s, IsDigit)
  }

  /** `value.replace(/\s/g, '')`. */
  function StripSpaces(s: string): (r: string)
    ensures forall i :: 0 <= i < |r| ==> !IsSpace(r[i])
    ensures |r| <= |s|
  {
    Filter(s, NotSpace)
  }

  lemma {:induction false} DigitsOfDigits(s: string)
    requires AllDigits(s)
    ensures Digits(s) == s
    decreases |s|
  {
    if |s| > 0 {
      DigitsOfDigits(s[1..]);
      assert s == [s[0]] + s[1..];
    }
  }

  lemma {:induction false} StripSpacesOfDigits(s: string)
    requires AllDigits(s)
    ensures StripSpaces(s) == s
    decreases |s|
  {
    if |s| > 0 {
      StripSpacesOfDigits(s[1..]);
      assert s == [s[0]] + s[1..];
    }
  }

  function TrimStart(s: string): (r: string)
    ensures |r| <= |s| && r == s[|s| - |r|..]
    ensures Blank(s[..|s| - |r|])
    ensures r == [] || !IsSpace(r[0])
    decreases |s|
  {
    if |s| > 0 && IsSpace(s[0]) then
      var r := TrimStart(s[1..]);
      assert s[..|s| - |r|] == [s[0]] + s[1..][..|s| - 1 - |r|];
      r
    else s
  }

  function TrimEnd(s: string): (r: string)
    ensures |r| <= |s| && r == s[..|r|]
    ensures Blank(s[|r|..])
    ensures r == [] || !IsSpace(r[|r| - 1])
    decreases |s|
  {
    if |s| > 0 && IsSpace(s[|s| - 1]) then
      var r := TrimEnd(s[..|s| - 1]);
      assert s[|r|..] == s[..|s| - 1][|r|..] + [s[|s| - 1]];
      r
    else s
  }

  /** `String.prototype.trim`: the slice of `s` left after removing the
      whitespace at both ends. */
  function Trim(s: string): (r: string)
    ensures exists a, b :: 0 <= a <= b <= |s| && r == s[a..b] && Blank(s[..a]) && Blank(s[b..])
    ensures r == [] || (!IsSpace(r[0]) && !IsSpace(r[|r| - 1]))
  {
    var t := TrimStart(s);
    var r := TrimEnd(t);
    var a := |s| - |t|;
    assert r == s[a..a + |r|];
    assert s[a + |r|..] == t[|r|..];
    r
  }

  /** A field is "empty" to the client exactly when trimming leaves nothing,
      that is, when every character is whitespace. */
  lemma TrimEmptyIffBlank(s: string)
    ensures Trim(s) == [] <==> Blank(s)
  {
    var r := Trim(s);
    var a, b :| 0 <= a <= b <= |s| && r == s[a..b] && Blank(s[..a]) && Blank(s[b..]);
    if r == [] {
      assert a == b;
      forall i | 0 <= i < |s| ensures IsSpace(s[i]) {
        if i < a { assert s[i] == s[..a][i]; } else { assert s[i] == s[b..][i - b]; }
      }
    } else {
      assert !IsSpace(s[a]);
    }
  }

  /** ASCII lower-casing (all strings this model lower-cases are ASCII). */
  function ToLowerAscii(s: string): (r: string)
    ensures |r| == |s|
    ensures forall i :: 0 <= i < |r| ==> !IsUpper(r[i])
    ensures forall i :: 0 <= i < |r| ==> (IsUpper(s[i]) ==> r[i] as int == s[i] as int + 32)
    ensures forall i :: 0 <= i < |r| ==> (!IsUpper(s[i]) ==> r[i] == s[i])
  {
    seq(|s|, i requires 0 <= i < |s| => if IsUpper(s[i]) then (s[i] as int + 32) as char else s[i])
  }

  /** Lower-casing works character by character, so it distributes over
      concatenation. */
  lemma ToLowerAsciiAppend(a: string, b: string)
    ensures ToLowerAscii(a + b) == ToLowerAscii(a) + ToLowerAscii(b)
  {
    var l := ToLowerAscii(a + b);
    var r := ToLowerAscii(a) + ToLowerAscii(b);
    forall i | 0 <= i < |l| ensures l[i] == r[i] {
      if i < |a| {
        assert (a + b)[i] == a[i];
      } else {
        assert (a + b)[i] == b[i - |a|];
      }
    }
  }

  predicate NotBlankChar(c: char) {
    c != ' '
  }

  /** `s.replace(/([A-Z])/g, ' $1')`: a space before every capital. */
  function SpaceBeforeCapitals(s: string): string
    decreases |s|
  {
    if |s| == 0 then ""
    else (if IsUpper(s[0]) then [' ', s[0]] else [s[0]]) + SpaceBeforeCapitals(s[1..])
  }

  lemma SpaceBeforeCapitalsCons(c: char, s: string)
    ensures SpaceBeforeCapitals([c] + s) == (if IsUpper(c) then [' ', c] else [c]) + SpaceBeforeCapitals(s)
  {
    assert ([c] + s)[0] == c && ([c] + s)[1..] == s;
  }

  /** The rewrite works character by character, so it distributes over
      concatenation. */
  lemma {:induction false} SpaceBeforeCapitalsAppend(a: string, b: string)
    ensures SpaceBeforeCapitals(a + b) == SpaceBeforeCapitals(a) + SpaceBeforeCapitals(b)
    decreases |a|
  {
    if |a| > 0 {
      SpaceBeforeCapitalsAppend(a[1..], b);
      assert a + b == [a[0]] + (a[1..] + b);
      assert a == [a[0]] + a[1..];
      SpaceBeforeCapitalsCons(a[0], a[1..] + b);
      SpaceBeforeCapitalsCons(a[0], a[1..]);
    } else {
      assert a + b == b;
    }
  }

  /** Only spaces are inserted, and every capital ends up right after one. */
  lemma {:induction false} SpaceBeforeCapitalsOnlyAddsSpaces(s: string)
    ensures Filter(SpaceBeforeCapitals(s), NotBlankChar) == Filter(s, NotBlankChar)
    ensures var r := SpaceBeforeCapitals(s);
            forall i :: 0 <= i < |r| ==> (IsUpper(r[i]) ==> i > 0 && r[i - 1] == ' ')
    decreases |s|
  {
    if |s| > 0 {
      SpaceBeforeCapitalsOnlyAddsSpaces(s[1..]);
      var rest := SpaceBeforeCapitals(s[1..]);
      var head := if IsUpper(s[0]) then [' ', s[0]] else [s[0]];
      FilterAppend(head, rest, NotBlankChar);
      FilterAppend([s[0]], s[1..], NotBlankChar);
      assert s == [s[0]] + s[1..];
      var r := head + rest;
      forall i | 0 <= i < |r| && IsUpper(r[i]) ensures i > 0 && r[i - 1] == ' ' {
        if i >= |head| {
          assert r[i] == rest[i - |head|];
        }
      }
    }
  }

  /** A string without capitals is left as it is by both rewrites. */
  lemma {:induction false} NoCapitalsUnchanged(s: string)
    requires forall i :: 0 <= i < |s| ==> !IsUpper(s[i])
    ensures SpaceBeforeCapitals(s) == s
    ensures ToLowerAscii(s) == s
    decreases |s|
  {
    if |s| > 0 {
      NoCapitalsUnchanged(s[1..]);
      assert s == [s[0]] + s[1..];
    }
  }

  /** `s` contains `t` as a contiguous substring (SQL `LIKE '%t%'`). */
  predicate Contains(s: string, t: string) {
    exists i :: 0 <= i <= |s| && t <= s[i..]
  }

  /** `s.split('\n')`. */
  function SplitLines(s: string): (r: seq<string>)
    ensures |r| >= 1
    decreases |s|
  {
    match FirstIndex(s, IsNewline)
    case None => [s]
    case Some(i) => [s[..i]] + SplitLines(s[i + 1..])
  }

  lemma SplitLinesSingle(a: string)
    requires '\n' !in a
    ensures SplitLines(a) == [a]
  {
    assert forall j :: 0 <= j < |a| ==> !IsNewline(a[j]);
  }

  lemma SplitLinesCons(a: string, b: string)
    requires '\n' !in a
    ensures SplitLines(a + "\n" + b) == [a] + SplitLines(b)
  {
    var s := a + "\n" + b;
    var k := FirstIndex(s, IsNewline);
    assert IsNewline(s[|a|]);
    assert forall j :: 0 <= j < |a| ==> s[j] == a[j] && !IsNewline(s[j]);
    assert k.Some? && k.value == |a|;
    assert s[..|a|] == a;
    assert s[|a| + 1..] == b;
  }
}
