/** The string primitives the screens borrow from JavaScript: the white-space
    class shared by `\s` and `String.prototype.trim`, trimming, ASCII case
    folding, substring search, `String(n)` on integers and `padStart`. */
module Text {

  /** ECMAScript WhiteSpace and LineTerminator code points: the characters a
      regular expression's `\s` matches and `trim` removes. */
  predicate IsSpace(c: char) {
    || c == '\t' || c == '\n' || c == '\U{000B}' || c == '\U{000C}' || c == '\r'
    || c == ' ' || c == '\U{00A0}' || c == '\U{1680}'
    || ('\U{2000}' <= c <= '\U{200A}')
    || c == '\U{2028}' || c == '\U{2029}' || c == '\U{202F}' || c == '\U{205F}'
    || c == '\U{3000}' || c == '\U{FEFF}'
  }

  predicate IsLower(c: char) { 'a' <= c <= 'z' }
  predicate IsUpper(c: char) { 'A' <= c <= 'Z' }
  predicate IsDigit(c: char) { '0' <= c <= '9' }
  predicate IsLetter(c: char) { IsLower(c) || IsUpper(c) }

  predicate AllSpace(s: string) { forall k | 0 <= k < |s| :: IsSpace(s[k]) }
  predicate AllDigits(s: string) { forall k | 0 <= k < |s| :: IsDigit(s[k]) }

  /** The first index at or after `i` that does not hold white space, or
      `|s|` when there is none. */
  function SkipSpace(s: string, i: nat): (j: nat)
    requires i <= |s|
    ensures i <= j <= |s|
    ensures j == |s| || !IsSpace(s[j])
    decreases |s| - i
  {
    if i < |s| && IsSpace(s[i]) then SkipSpace(s, i + 1) else i
  }

  /** Everything `SkipSpace` skips is white space. */
  lemma {:induction false} SkippedSpace(s: string, i: nat)
    requires i <= |s|
    ensures forall k | i <= k < SkipSpace(s, i) :: IsSpace(s[k])
    decreases |s| - i
  {
    if i < |s| && IsSpace(s[i]) {
      SkippedSpace(s, i + 1);
    }
  }

  /** The end of `s[lo..n]` once its trailing white space is dropped. */
  function SpaceEnd(s: string, lo: nat, n: nat): (m: nat)
    requires lo <= n <= |s|
    ensures lo <= m <= n
    ensures m == lo || !IsSpace(s[m - 1])
  {
    if n > lo && IsSpace(s[n - 1]) then SpaceEnd(s, lo, n - 1) else n
  }

  /** Everything past `SpaceEnd` is white space. */
  lemma {:induction false} TrailingSpace(s: string, lo: nat, n: nat)
    requires lo <= n <= |s|
    ensures forall k | SpaceEnd(s, lo, n) <= k < n :: IsSpace(s[k])
  {
    if n > lo && IsSpace(s[n - 1]) {
      TrailingSpace(s, lo, n - 1);
    }
  }

  /** `String.prototype.trim`: the part of `s` between its leading and its
      trailing white space. */
  function Trim(s: string): (r: string)
    ensures |r| <= |s|
    ensures r == [] || (!IsSpace(r[0]) && !IsSpace(r[|r| - 1]))
  {
    var i := SkipSpace(s, 0);
    s[i..SpaceEnd(s, i, |s|)]
  }

  /** `trim` removes white space only: `s` is the trimmed text with a run of
      white space on either side. */
  lemma TrimDropsSpace(s: string)
    ensures exists i, j | 0 <= i <= j <= |s| :: s[i..j] == Trim(s) && AllSpace(s[..i]) && AllSpace(s[j..])
  {
    var i := SkipSpace(s, 0);
    var j := SpaceEnd(s, i, |s|);
    SkippedSpace(s, 0);
    TrailingSpace(s, i, |s|);
    assert AllSpace(s[..i]) by {
      forall k | 0 <= k < i ensures IsSpace(s[..i][k]) { assert s[..i][k] == s[k]; }
    }
    assert AllSpace(s[j..]) by {
      forall k | 0 <= k < |s| - j ensures IsSpace(s[j..][k]) { assert s[j..][k] == s[j + k]; }
    }
  }

  /** `!value.trim()` in the screens: the string holds nothing but white space. */
  predicate IsBlank(s: string) {
    Trim(s) == ""
  }

  /** Trimming leaves nothing exactly when every character is white space. */
  lemma BlankIffAllSpace(s: string)
    ensures IsBlank(s) <==> AllSpace(s)
  {
    var i := SkipSpace(s, 0);
    SkippedSpace(s, 0);
    TrailingSpace(s, i, |s|);
    if AllSpace(s) {
      assert i == |s|;
    }
  }

  /** Trimming keeps the string whole when it has no white space at either end. */
  lemma TrimKeepsUnpadded(s: string)
    requires s == [] || (!IsSpace(s[0]) && !IsSpace(s[|s| - 1]))
    ensures Trim(s) == s
  {
  }

  /** ASCII case folding of one character. */
  function LowerChar(c: char): (r: char)
    ensures IsUpper(c) ==> IsLower(r) && r as int == c as int + 32
    ensures !IsUpper(c) ==> r == c
  {
    if IsUpper(c) then (c as int + 32) as char else c
  }

  /** `toLowerCase` restricted to ASCII letters: every other character is kept. */
  function ToLower(s: string): (r: string)
    ensures |r| == |s|
    ensures forall k | 0 <= k < |s| :: r[k] == LowerChar(s[k])
  {
    seq(|s|, k requires 0 <= k < |s| => LowerChar(s[k]))
  }

  /** `w` occurs in `s` starting at index `i`. */
  predicate OccursAt(s: string, w: string, i: int) {
    0 <= i && i + |w| <= |s| && s[i..i + |w|] == w
  }

  /** `s.includes(w)`. */
  predicate Contains(s: string, w: string) {
    exists i | 0 <= i <= |s| - |w| :: OccursAt(s, w, i)
  }

  /** Case-insensitive `includes` of a lower-case keyword, as
      `s.toLowerCase().includes(w)`. */
  predicate Mentions(s: string, w: string) {
    Contains(ToLower(s), w)
  }

  /** A string mentions a keyword when it literally contains it. */
  lemma MentionsLiteral(s: string, w: string)
    requires forall k | 0 <= k < |w| :: !IsUpper(w[k])
    requires Contains(s, w)
    ensures Mentions(s, w)
  {
    var i :| 0 <= i <= |s| - |w| && OccursAt(s, w, i);
    var t := ToLower(s);
    assert t[i..i + |w|] == w by {
      forall k | 0 <= k < |w| ensures t[i + k] == w[k] {
        assert s[i + k] == s[i..i + |w|][k];
      }
    }
    assert OccursAt(t, w, i);
  }

  /** A string that mentions `w` holds, in one case or the other, every
      character of `w`. */
  lemma MentionsNeedsChar(s: string, w: string, j: int)
    requires 0 <= j < |w| && Mentions(s, w)
    ensures exists k | 0 <= k < |s| :: LowerChar(s[k]) == w[j]
  {
    var t := ToLower(s);
    var i :| 0 <= i <= |t| - |w| && OccursAt(t, w, i);
    assert t[i..i + |w|][j] == t[i + j];
  }

  function DigitChar(d: nat): (c: char)
    requires d < 10
    ensures IsDigit(c) && c as int - '0' as int == d
  {
    ('0' as int + d) as char
  }

  function DigitValue(c: char): (d: nat)
    requires IsDigit(c)
    ensures d < 10 && DigitChar(d) == c
  {
    c as int - '0' as int
  }

  /** `String(n)` for a non-negative integer: decimal, no leading zeros. */
  function NatToString(n: nat): (r: string)
    ensures r != [] && AllDigits(r)
    ensures |r| > 1 ==> r[0] != '0'
    decreases n
  {
    if n < 10 then [DigitChar(n)] else NatToString(n / 10) + [DigitChar(n % 10)]
  }

  /** `String(n)` for any integer: a minus sign before the magnitude. */
  function IntToString(n: int): string {
    if n < 0 then "-" + NatToString(-n) else NatToString(n)
  }

  /** The value of a string of decimal digits (leading zeros allowed). */
  function ParseNat(s: string): nat
    requires AllDigits(s)
  {
    if s == [] then 0 else ParseNat(s[..|s| - 1]) * 10 + DigitValue(s[|s| - 1])
  }

  /** The inverse of `String(n)` on decimal strings with an optional minus sign. */
  function ParseInt(s: string): (r: Option<int>)
    ensures r.Some? <==> s != [] && (if s[0] == '-' then |s| > 1 && AllDigits(s[1..]) else AllDigits(s))
  {
    if s == [] then None
    else if s[0] == '-' then (if |s| > 1 && AllDigits(s[1..]) then Some(0 - ParseNat(s[1..]) as int) else None)
    else if AllDigits(s) then Some(ParseNat(s)) else None
  }

  datatype Option<T> = None | Some(value: T)

  lemma {:induction false} ParseNatToString(n: nat)
    ensures ParseNat(NatToString(n)) == n
    decreases n
  {
    if n >= 10 {
      var s := NatToString(n);
      assert s[..|s| - 1] == NatToString(n / 10);
      ParseNatToString(n / 10);
    }
  }

  lemma ParseIntToString(n: int)
    ensures ParseInt(IntToString(n)) == Some(n)
  {
    if n < 0 {
      var s := IntToString(n);
      assert s[1..] == NatToString(-n);
      ParseNatToString(-n);
    } else {
      ParseNatToString(n);
    }
  }

  /** Distinct integers print differently. */
  lemma IntToStringInjective(m: int, n: int)
    requires IntToString(m) == IntToString(n)
    ensures m == n
  {
    ParseIntToString(m);
    ParseIntToString(n);
  }

  /** Leading zeros do not change a decimal value. */
  lemma {:induction false} ParseNatLeadingZero(s: string)
    requires AllDigits(s)
    ensures AllDigits("0" + s) && ParseNat("0" + s) == ParseNat(s)
    decreases |s|
  {
    var z := "0" + s;
    if s != [] {
      assert z[..|z| - 1] == "0" + s[..|s| - 1];
      ParseNatLeadingZero(s[..|s| - 1]);
    }
  }

  function Repeat(c: char, n: nat): (r: string)
    ensures |r| == n && forall k | 0 <= k < n :: r[k] == c
  {
    if n == 0 then [] else [c] + Repeat(c, n - 1)
  }

  /** `s.padStart(width, c)`. */
  function PadStart(s: string, width: nat, c: char): (r: string)
    ensures |r| == if |s| >= width then |s| else width
    ensures r[|r| - |s|..] == s
    ensures forall k | 0 <= k < |r| - |s| :: r[k] == c
  {
    if |s| >= width then s else Repeat(c, width - |s|) + s
  }

  /** Zero padding does not change a decimal value. */
  lemma {:induction false} ParseNatZeroPadded(s: string, width: nat)
    requires AllDigits(s)
    ensures AllDigits(PadStart(s, width, '0'))
    ensures ParseNat(PadStart(s, width, '0')) == ParseNat(s)
    decreases width
  {
    if |s| < width {
      var p := PadStart(s, width, '0');
      var q := PadStart(s, width - 1, '0');
      assert p == "0" + q;
      ParseNatZeroPadded(s, width - 1);
      ParseNatLeadingZero(q);
    }
  }

  /** The decimal digits of `s[..n]` in order. */
  function DigitsBefore(s: string, n: nat): (r: string)
    requires n <= |s|
    ensures |r| <= n
  {
    if n == 0 then [] else DigitsBefore(s, n - 1) + (if IsDigit(s[n - 1]) then [s[n - 1]] else [])
  }

  /** What `DigitsBefore` keeps is digits only. */
  lemma {:induction false} DigitsBeforeAreDigits(s: string, n: nat)
    requires n <= |s|
    ensures AllDigits(DigitsBefore(s, n))
  {
    if n > 0 { DigitsBeforeAreDigits(s, n - 1); }
  }

  /** `value.replace(/[^0-9]/g, '')`: the decimal digits of `s` in order. */
  function KeepDigits(s: string): (r: string)
    ensures AllDigits(r) && |r| <= |s|
  {
    DigitsBeforeAreDigits(s, |s|);
    DigitsBefore(s, |s|)
  }
}
