/** The two regular expressions the screens test whole values against, written
    out as predicates: the e-mail pattern `^[^\s@]+@[^\s@]+\.[^\s@]+$` and the
    phone pattern
    `^[+]?[(]?[0-9]{1,4}[)]?[-\s.]?[(]?[0-9]{1,4}[)]?[-\s.]?[0-9]{1,9}$`. */
module Patterns {
  import opened Text

  // ---------------------------------------------------------------- e-mail

  /** A character of the class `[^\s@]`. */
  predicate EmailChar(c: char) { !IsSpace(c) && c != '@' }

  /** `[^\s@]+` matched by `s[lo..hi]`: one or more characters, none white
      space or '@'. */
  predicate EmailPart(s: string, lo: int, hi: int) {
    0 <= lo < hi <= |s| && forall k | lo <= k < hi :: EmailChar(s[k])
  }

  /** The pattern matches with its '@' at index `i` and its escaped '.' at `j`. */
  predicate EmailSplit(s: string, i: int, j: int) {
    && 0 <= i < j < |s| && s[i] == '@' && s[j] == '.'
    && EmailPart(s, 0, i) && EmailPart(s, i + 1, j) && EmailPart(s, j + 1, |s|)
  }

  /** `/^[^\s@]+@[^\s@]+\.[^\s@]+$/.test(s)`: some choice of the '@' and the '.'
      splits `s` into three parts of the class `[^\s@]+`. */
  predicate EmailPattern(s: string) {
    exists i, j | 0 <= i < j < |s| :: EmailSplit(s, i, j)
  }

  /** Index of the first `c` in `s` at or after `i`, or `|s|` when there is none. */
  function IndexFrom(s: string, c: char, i: nat): (r: nat)
    requires i <= |s|
    ensures i <= r <= |s|
    ensures forall k | i <= k < r :: s[k] != c
    ensures r < |s| ==> s[r] == c
    decreases |s| - i
  {
    if i == |s| then i else if s[i] == c then i else IndexFrom(s, c, i + 1)
  }

  /** Index of the first `c` in `s`, or `|s|` when there is none. */
  function IndexOf(s: string, c: char): (r: nat)
    ensures r <= |s|
    ensures forall k | 0 <= k < r :: s[k] != c
    ensures r < |s| ==> s[r] == c
  {
    IndexFrom(s, c, 0)
  }

  /** What an accepted address looks like, stated without the pattern: no white
      space anywhere, exactly one '@', not at the start, and after it a '.'
      that is neither the first nor the last character of the domain. */
  predicate WellFormedAddress(s: string) {
    var a := IndexOf(s, '@');
    && 0 < a < |s|
    && (forall k | 0 <= k < |s| :: !IsSpace(s[k]))
    && (forall k | a < k < |s| :: s[k] != '@')
    && exists j | a + 1 < j < |s| - 1 :: s[j] == '.'
  }

  /** The pattern accepts exactly the well-formed addresses. */
  lemma EmailPatternIff(s: string)
    ensures EmailPattern(s) <==> WellFormedAddress(s)
  {
    var a := IndexOf(s, '@');
    if EmailPattern(s) {
      var i, j :| 0 <= i < j < |s| && EmailSplit(s, i, j);
      assert !EmailChar(s[a]) by { if a < |s| { assert s[a] == '@'; } }
      assert a == i;
      assert s[j] == '.' && a + 1 < j < |s| - 1;
    }
    if WellFormedAddress(s) {
      var j :| a + 1 < j < |s| - 1 && s[j] == '.';
      assert EmailSplit(s, a, j);
    }
  }

  /** An accepted address has no white space and exactly one '@'. */
  lemma EmailOneAt(s: string, k: int)
    requires EmailPattern(s) && 0 <= k < |s|
    ensures !IsSpace(s[k])
    ensures s[k] == '@' <==> k == IndexOf(s, '@')
  {
    EmailPatternIff(s);
  }

  // ---------------------------------------------------------------- phone

  /** The character classes the phone pattern uses: `[+]`, `[(]`, `[)]`,
      `[0-9]` and `[-\s.]`. */
  datatype PhoneClass = PlusSign | OpenParen | CloseParen | Digit | Separator

  predicate InClass(k: PhoneClass, c: char) {
    match k
    case PlusSign => c == '+'
    case OpenParen => c == '('
    case CloseParen => c == ')'
    case Digit => IsDigit(c)
    case Separator => c == '-' || c == '.' || IsSpace(c)
  }

  /** No character belongs to two of the classes. */
  lemma ClassesDisjoint(k1: PhoneClass, k2: PhoneClass, c: char)
    requires InClass(k1, c) && InClass(k2, c)
    ensures k1 == k2
  {
  }

  /** `[k]{min,max}`; `[k]?` is `[k]{0,1}`. */
  datatype Atom = Atom(cls: PhoneClass, min: nat, max: nat)

  const PhoneAtoms: seq<Atom> := [
    Atom(PlusSign, 0, 1), Atom(OpenParen, 0, 1), Atom(Digit, 1, 4), Atom(CloseParen, 0, 1),
    Atom(Separator, 0, 1), Atom(OpenParen, 0, 1), Atom(Digit, 1, 4), Atom(CloseParen, 0, 1),
    Atom(Separator, 0, 1), Atom(Digit, 1, 9)]

  /** Every character of `s[lo..hi]` is in class `k`. */
  predicate AllIn(k: PhoneClass, s: string, lo: int, hi: int)
    requires 0 <= lo <= hi <= |s|
  {
    forall i | lo <= i < hi :: InClass(k, s[i])
  }

  /** The atoms `p[j..]`, in order, match the whole of `s[i..]` (the pattern is
      anchored at both ends): atom `p[j]` takes `s[i..m]` for some admissible
      length, as a backtracking regular-expression engine would try them all. */
  predicate MatchesFrom(p: seq<Atom>, j: nat, s: string, i: nat)
    requires j <= |p| && i <= |s|
    decreases |p| - j
  {
    if j == |p| then i == |s|
    else exists m | i + p[j].min <= m <= i + p[j].max && m <= |s| ::
      AllIn(p[j].cls, s, i, m) && MatchesFrom(p, j + 1, s, m)
  }

  /** `/^[+]?[(]?[0-9]{1,4}[)]?[-\s.]?[(]?[0-9]{1,4}[)]?[-\s.]?[0-9]{1,9}$/.test(s)`. */
  predicate PhonePattern(s: string) {
    MatchesFrom(PhoneAtoms, 0, s, 0)
  }

  /** How many characters of `s[lo..hi]` are in class `k`. */
  function CountIn(k: PhoneClass, s: string, lo: nat, hi: nat): nat
    requires lo <= hi <= |s|
    decreases hi - lo
  {
    if lo == hi then 0 else CountIn(k, s, lo, hi - 1) + (if InClass(k, s[hi - 1]) then 1 else 0)
  }

  /** How many characters of `s` are in class `k`. */
  function Count(k: PhoneClass, s: string): nat {
    CountIn(k, s, 0, |s|)
  }

  /** The most characters of class `k` the atoms `p[j..]` can consume. */
  function Capacity(p: seq<Atom>, j: nat, k: PhoneClass): nat
    requires j <= |p|
    decreases |p| - j
  {
    if j == |p| then 0 else (if p[j].cls == k then p[j].max else 0) + Capacity(p, j + 1, k)
  }

  /** Counting over two adjacent ranges adds up. */
  lemma {:induction false} CountInSplit(k: PhoneClass, s: string, lo: nat, mid: nat, hi: nat)
    requires lo <= mid <= hi <= |s|
    ensures CountIn(k, s, lo, hi) == CountIn(k, s, lo, mid) + CountIn(k, s, mid, hi)
    decreases hi - mid
  {
    if mid < hi {
      CountInSplit(k, s, lo, mid, hi - 1);
    }
  }

  /** A run of class `k2` holds no character of another class. */
  lemma {:induction false} CountInRun(k: PhoneClass, k2: PhoneClass, s: string, lo: nat, hi: nat)
    requires lo <= hi <= |s| && AllIn(k2, s, lo, hi)
    ensures CountIn(k, s, lo, hi) <= (if k == k2 then hi - lo else 0)
    decreases hi - lo
  {
    if lo < hi {
      if InClass(k, s[hi - 1]) { ClassesDisjoint(k, k2, s[hi - 1]); }
      CountInRun(k, k2, s, lo, hi - 1);
    }
  }

  /** A string whose rest `s[i..]` the atoms `p[j..]` match holds there at most
      `Capacity(p, j, k)` characters of each class `k`. */
  lemma {:induction false} MatchesCapacity(p: seq<Atom>, j: nat, s: string, i: nat, k: PhoneClass)
    requires j <= |p| && i <= |s| && MatchesFrom(p, j, s, i)
    ensures CountIn(k, s, i, |s|) <= Capacity(p, j, k)
    decreases |p| - j
  {
    if j < |p| {
      var m :| i + p[j].min <= m <= i + p[j].max && m <= |s| && AllIn(p[j].cls, s, i, m) && MatchesFrom(p, j + 1, s, m);
      CountInSplit(k, s, i, m, |s|);
      CountInRun(k, p[j].cls, s, i, m);
      MatchesCapacity(p, j + 1, s, m, k);
    }
  }

  /** `value.replace(/[^0-9]/g, '').length` counts the digits. */
  lemma {:induction false} DigitsBeforeCount(s: string, n: nat)
    requires n <= |s|
    ensures |DigitsBefore(s, n)| == CountIn(Digit, s, 0, n)
  {
    if n > 0 { DigitsBeforeCount(s, n - 1); }
  }

  lemma KeepDigitsCount(s: string)
    ensures |KeepDigits(s)| == Count(Digit, s)
  {
    DigitsBeforeCount(s, |s|);
  }

  /** The phone pattern's digit runs hold 4 + 4 + 9 digits; its two optional
      separators one each. */
  lemma PhoneCapacities()
    ensures Capacity(PhoneAtoms, 0, Digit) == 17
    ensures Capacity(PhoneAtoms, 0, Separator) == 2
  {
  }

  /** A value the phone pattern accepts has at most 4 + 4 + 9 = 17 digits and at
      most two separators. */
  lemma PhonePatternBounds(s: string)
    requires PhonePattern(s)
    ensures |KeepDigits(s)| <= 17
    ensures Count(Separator, s) <= 2
  {
    PhoneCapacities();
    MatchesCapacity(PhoneAtoms, 0, s, 0, Digit);
    MatchesCapacity(PhoneAtoms, 0, s, 0, Separator);
    KeepDigitsCount(s);
  }
}
