/** The string primitives the screens rely on: ECMAScript white space (what
    `String.prototype.trim` strips and what the regular-expression class `\s`
    matches), ASCII case mapping, decimal digits, and integer-to-string
    conversion. */
module Text {

  /** ECMAScript WhiteSpace and LineTerminator code points. */
  predicate IsWhitespace(c: char) {
    || c == ' ' || c == '\t' || c == '\n' || c == '\U{B}' || c == '\U{C}' || c == '\r'
    || c == '\U{A0}' || c == '\U{1680}' || ('\U{2000}' <= c <= '\U{200A}')
    || c == '\U{2028}' || c == '\U{2029}' || c == '\U{202F}' || c == '\U{205F}'
    || c == '\U{3000}' || c == '\U{FEFF}'
  }

  predicate IsDigit(c: char) {
    '0' <= c <= '9'
  }

  /** The regular-expression class `[A-Za-z]`. */
  predicate IsAsciiLetter(c: char) {
    'a' <= c <= 'z' || 'A' <= c <= 'Z'
  }

  predicate AllDigits(s: string) {
    forall k :: 0 <= k < |s| ==> IsDigit(s[k])
  }

  predicate AllWhitespace(s: string) {
    forall k :: 0 <= k < |s| ==> IsWhitespace(s[k])
  }

  function LowerAscii(c: char): char {
    if 'A' <= c <= 'Z' then (c as int + 32) as char else c
  }

  function UpperAscii(c: char): char {
    if 'a' <= c <= 'z' then (c as int - 32) as char else c
  }

  function ToLowerAscii(s: string): (r: string)
    ensures |r| == |s|
    ensures forall k :: 0 <= k < |s| ==> r[k] == LowerAscii(s[k])
  {
    seq(|s|, k requires 0 <= k < |s| => LowerAscii(s[k]))
  }

  function ToUpperAscii(s: string): (r: string)
    ensures |r| == |s|
    ensures forall k :: 0 <= k < |s| ==> r[k] == UpperAscii(s[k])
  {
    seq(|s|, k requires 0 <= k < |s| => UpperAscii(s[k]))
  }

  /** The end of the run of white space that starts at `i`. */
  function SkipSpaces(s: string, i: nat): (j: nat)
    requires i <= |s|
    ensures i <= j <= |s|
    ensures forall k :: i <= k < j ==> IsWhitespace(s[k])
    ensures j < |s| ==> !IsWhitespace(s[j])
    decreases |s| - i
  {
    if i < |s| && IsWhitespace(s[i]) then SkipSpaces(s, i + 1) else i
  }

  /** The start of the run of white space that ends at `j`. */
  function SkipSpacesBack(s: string, j: nat): (i: nat)
    requires j <= |s|
    ensures i <= j
    ensures forall k :: i <= k < j ==> IsWhitespace(s[k])
    ensures i > 0 ==> !IsWhitespace(s[i - 1])
  {
    if j > 0 && IsWhitespace(s[j - 1]) then SkipSpacesBack(s, j - 1) else j
  }

  /** `String.prototype.trim`: the slice left after removing the white space
      at both ends. */
  function Trim(s: string): (r: string)
    ensures r == [] <==> AllWhitespace(s)
    ensures r != [] ==> !IsWhitespace(r[0]) && !IsWhitespace(r[|r| - 1])
    ensures exists a :: 0 <= a <= |s| - |r| && r == s[a..a + |r|]
                        && AllWhitespace(s[..a]) && AllWhitespace(s[a + |r|..])
  {
    var a := SkipSpaces(s, 0);
    if a == |s| then
      assert s[..0] == [] && s[0..0] == [];
      []
    else
      var e := SkipSpacesBack(s, |s|);
      assert !IsWhitespace(s[a]);
      assert a < e;
      assert !AllWhitespace(s) by { assert !IsWhitespace(s[a]); }
      assert AllWhitespace(s[..a]) && AllWhitespace(s[e..]);
      assert s[a..e] == s[a..a + (e - a)];
      s[a..e]
  }

  /** A string with no white space at either end is its own trim. */
  lemma TrimOfTrimmed(s: string)
    requires s != [] ==> !IsWhitespace(s[0]) && !IsWhitespace(s[|s| - 1])
    ensures Trim(s) == s
  {
    if s != [] {
      assert SkipSpaces(s, 0) == 0;
      assert SkipSpacesBack(s, |s|) == |s|;
      assert s[0..|s|] == s;
    }
  }

  /** ASCII lower-casing neither makes nor removes white space. */
  lemma LowerKeepsWhitespace(c: char)
    ensures IsWhitespace(LowerAscii(c)) <==> IsWhitespace(c)
  {
  }

  lemma {:induction false} SkipSpacesLower(s: string, i: nat)
    requires i <= |s|
    ensures SkipSpaces(ToLowerAscii(s), i) == SkipSpaces(s, i)
    decreases |s| - i
  {
    if i < |s| {
      LowerKeepsWhitespace(s[i]);
      SkipSpacesLower(s, i + 1);
    }
  }

  lemma {:induction false} SkipSpacesBackLower(s: string, j: nat)
    requires j <= |s|
    ensures SkipSpacesBack(ToLowerAscii(s), j) == SkipSpacesBack(s, j)
  {
    if j > 0 {
      LowerKeepsWhitespace(s[j - 1]);
      SkipSpacesBackLower(s, j - 1);
    }
  }

  /** Trim as a slice between the two runs of white space. */
  lemma TrimSlice(s: string)
    ensures SkipSpaces(s, 0) == |s| ==> Trim(s) == []
    ensures SkipSpaces(s, 0) < |s| ==> SkipSpaces(s, 0) < SkipSpacesBack(s, |s|)
                                       && Trim(s) == s[SkipSpaces(s, 0)..SkipSpacesBack(s, |s|)]
  {
    if SkipSpaces(s, 0) < |s| {
      assert !IsWhitespace(s[SkipSpaces(s, 0)]);
    }
  }

  /** Lower-casing a slice is slicing the lower-cased string. */
  lemma LowerSlice(s: string, a: nat, e: nat)
    requires a <= e <= |s|
    ensures ToLowerAscii(s[a..e]) == ToLowerAscii(s)[a..e]
  {
  }

  /** Trimming and ASCII lower-casing can be done in either order. */
  lemma TrimLower(s: string)
    ensures Trim(ToLowerAscii(s)) == ToLowerAscii(Trim(s))
  {
    var t := ToLowerAscii(s);
    SkipSpacesLower(s, 0);
    SkipSpacesBackLower(s, |s|);
    TrimSlice(s);
    TrimSlice(t);
    var a := SkipSpaces(s, 0);
    if a < |s| {
      LowerSlice(s, a, SkipSpacesBack(s, |s|));
    } else {
      assert Trim(s) == [] && Trim(t) == [];
    }
  }

  /** The value of a decimal digit character. */
  function DigitValue(c: char): (v: nat)
    requires IsDigit(c)
    ensures v < 10
  {
    c as int - '0' as int
  }

  /** The character of a decimal digit value. */
  function DigitChar(v: nat): (c: char)
    requires v < 10
    ensures IsDigit(c) && DigitValue(c) == v
  {
    ('0' as int + v) as char
  }

  /** `parseInt(d, 10)` for a non-empty run of ASCII digits, without an
      upper bound. */
  function DigitsValue(d: string): nat
    requires AllDigits(d)
  {
    if d == [] then 0 else DigitsValue(d[..|d| - 1]) * 10 + DigitValue(d[|d| - 1])
  }

  /** The decimal digits of a natural number, with no leading zero. */
  function NatToDigits(n: nat): (r: string)
    ensures r != [] && AllDigits(r)
    ensures |r| > 1 ==> r[0] != '0'
  {
    if n < 10 then [DigitChar(n)] else NatToDigits(n / 10) + [DigitChar(n % 10)]
  }

  /** `String(n)` for an integer `n`. */
  function IntToString(n: int): (r: string)
    ensures r != []
  {
    if n < 0 then "-" + NatToDigits(-n) else NatToDigits(n)
  }

  /** Reading back the digits of `n` gives `n`. */
  lemma {:induction false} DigitsRoundTrip(n: nat)
    ensures DigitsValue(NatToDigits(n)) == n
  {
    if n >= 10 {
      var d := NatToDigits(n);
      assert d[..|d| - 1] == NatToDigits(n / 10);
      DigitsRoundTrip(n / 10);
    }
  }

  /** `String(n)` reads back as `n`: the digits of `n` itself, or a minus
      sign and the digits of `-n`. */
  lemma IntToStringRoundTrip(n: int)
    ensures n >= 0 ==> AllDigits(IntToString(n)) && DigitsValue(IntToString(n)) == n
    ensures n < 0 ==> IntToString(n)[0] == '-' && AllDigits(IntToString(n)[1..])
                      && DigitsValue(IntToString(n)[1..]) == -n
  {
    if n >= 0 {
      DigitsRoundTrip(n);
    } else {
      DigitsRoundTrip(-n);
      assert IntToString(n)[1..] == NatToDigits(-n);
    }
  }

  /** Different natural numbers print differently. */
  lemma NatToDigitsInjective(m: nat, n: nat)
    requires NatToDigits(m) == NatToDigits(n)
    ensures m == n
  {
    DigitsRoundTrip(m);
    DigitsRoundTrip(n);
  }

  /** The first line break at or after `i`, or `|s|` when there is none. */
  function NextNewline(s: string, i: nat): (j: nat)
    requires i <= |s|
    ensures i <= j <= |s|
    ensures forall k :: i <= k < j ==> s[k] != '\n'
    ensures j < |s| ==> s[j] == '\n'
    decreases |s| - i
  {
    if i == |s| || s[i] == '\n' then i else NextNewline(s, i + 1)
  }

  /** The inverse of `split('\n')`: the pieces glued back with line breaks. */
  function JoinLines(parts: seq<string>): string
    requires |parts| >= 1
  {
    if |parts| == 1 then parts[0] else parts[0] + "\n" + JoinLines(parts[1..])
  }

  /** `s.split('\n')`: at least one piece, none holding a line break, and
      joining them back gives `s`. */
  function SplitLines(s: string): (r: seq<string>)
    ensures |r| >= 1
    ensures forall k :: 0 <= k < |r| ==> '\n' !in r[k]
    ensures JoinLines(r) == s
    decreases |s|
  {
    var j := NextNewline(s, 0);
    if j == |s| then
      assert '\n' !in s by {
        forall k | 0 <= k < |s| ensures s[k] != '\n' { }
      }
      [s]
    else
      var rest := SplitLines(s[j + 1..]);
      var r := [s[..j]] + rest;
      assert r[1..] == rest;
      assert '\n' !in s[..j] by {
        forall k | 0 <= k < j ensures s[..j][k] != '\n' { }
      }
      assert s == s[..j] + "\n" + s[j + 1..];
      r
  }

  /** Splitting text of two lines gives the two lines. */
  lemma SplitTwoLines(a: string, b: string)
    requires '\n' !in a && '\n' !in b
    ensures SplitLines(a + "\n" + b) == [a, b]
  {
    var s := a + "\n" + b;
    var j := NextNewline(s, 0);
    assert forall k :: 0 <= k < |a| ==> s[k] == a[k];
    assert s[|a|] == '\n';
    assert j == |a|;
    assert s[..j] == a;
    assert s[j + 1..] == b;
    SplitOneLine(b);
  }

  /** Text without a line break is a single line. */
  lemma SplitOneLine(a: string)
    requires '\n' !in a
    ensures SplitLines(a) == [a]
  {
    assert forall k :: 0 <= k < |a| ==> a[k] in a;
  }
}
