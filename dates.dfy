/** Calendar dates as the sign-up form uses them: a JavaScript `Date` reduced to
    its local calendar day (the form resets hours, minutes, seconds and
    milliseconds before comparing), the age arithmetic of the date-of-birth
    rule and the `YYYY-MM-DD` text sent to the server. */
module Dates {
  import opened Text

  /** `month` is 1-based: it is `getMonth() + 1`. */
  datatype Date = Date(year: int, month: int, day: int)

  predicate IsLeapYear(y: int) {
    y % 4 == 0 && (y % 100 != 0 || y % 400 == 0)
  }

  function DaysInMonth(y: int, m: int): int
    requires 1 <= m <= 12
  {
    if m == 2 then (if IsLeapYear(y) then 29 else 28)
    else if m == 4 || m == 6 || m == 9 || m == 11 then 30
    else 31
  }

  /** A day a `Date` object can denote. */
  predicate IsCalendarDate(d: Date) {
    1 <= d.month <= 12 && 1 <= d.day <= DaysInMonth(d.year, d.month)
  }

  /** `a` falls on an earlier day than `b`: comparing the two midnights is
      comparing (year, month, day) lexicographically. */
  predicate Before(a: Date, b: Date) {
    || a.year < b.year
    || (a.year == b.year && a.month < b.month)
    || (a.year == b.year && a.month == b.month && a.day < b.day)
  }

  /** The same month and day `k` years after `d`. */
  function Anniversary(d: Date, k: int): Date {
    Date(d.year + k, d.month, d.day)
  }

  /** Whole years from `birth` to `today`: the year difference, less one when
      (today's month, today's day) comes before (birth month, birth day). The
      result is the number of birthdays that have come: the `age`-th has been
      reached by `today` and the next has not. */
  function Age(birth: Date, today: Date): (age: int)
    ensures !Before(today, Anniversary(birth, age))
    ensures Before(today, Anniversary(birth, age + 1))
  {
    var age := today.year - birth.year;
    var monthDiff := today.month - birth.month;
    var dayDiff := today.day - birth.day;
    if monthDiff < 0 || (monthDiff == 0 && dayDiff < 0) then age - 1 else age
  }

  /** The two facts of `Age`'s contract pin the age down: no other count of
      years has them. */
  lemma AgeUnique(birth: Date, today: Date, k: int)
    requires !Before(today, Anniversary(birth, k))
    requires Before(today, Anniversary(birth, k + 1))
    ensures k == Age(birth, today)
  {
    var a := Age(birth, today);
    if k < a {
      AnniversaryMonotone(birth, k + 1, a);
    } else if a < k {
      AnniversaryMonotone(birth, a + 1, k);
    }
  }

  /** Later anniversaries fall on later days. */
  lemma AnniversaryMonotone(d: Date, j: int, k: int)
    requires j <= k
    ensures !Before(Anniversary(d, k), Anniversary(d, j))
  {
  }

  /** A person is at least `k` years old exactly when their `k`-th birthday
      has been reached. */
  lemma AgeAtLeast(birth: Date, today: Date, k: int)
    ensures Age(birth, today) >= k <==> !Before(today, Anniversary(birth, k))
  {
    var a := Age(birth, today);
    if a >= k {
      AnniversaryMonotone(birth, k, a);
    } else {
      AnniversaryMonotone(birth, a + 1, k);
    }
  }

  /** Someone born on or before today is at least zero years old. */
  lemma AgeNotNegative(birth: Date, today: Date)
    requires !Before(today, birth)
    ensures Age(birth, today) >= 0
  {
    AgeAtLeast(birth, today, 0);
    assert Anniversary(birth, 0) == birth;
  }

  /** `String(n).padStart(2, '0')`. */
  function TwoDigits(n: nat): string {
    PadStart(NatToString(n), 2, '0')
  }

  /** `formatDateForAPI`: `${year}-${month}-${day}` with the year as `String`
      prints it and month and day zero-padded to two digits; no date gives "". */
  function FormatDateForApi(date: Option<Date>): (r: string)
    requires date.Some? ==> IsCalendarDate(date.value)
    ensures date.None? <==> r == ""
  {
    match date
    case None => ""
    case Some(d) => IntToString(d.year) + "-" + TwoDigits(d.month) + "-" + TwoDigits(d.day)
  }

  /** Reads back the text `FormatDateForApi` writes: a year with an optional
      minus sign, then "-MM-DD". */
  function ParseApiDate(s: string): Option<Date> {
    if |s| < 7 || s[|s| - 6] != '-' || s[|s| - 3] != '-' then None
    else
      var y, mm, dd := ParseInt(s[..|s| - 6]), s[|s| - 5..|s| - 3], s[|s| - 2..];
      if y.None? || !AllDigits(mm) || !AllDigits(dd) then None
      else Some(Date(y.value, ParseNat(mm), ParseNat(dd)))
  }

  lemma TwoDigitsShape(n: nat)
    requires n < 100
    ensures |TwoDigits(n)| == 2 && AllDigits(TwoDigits(n)) && ParseNat(TwoDigits(n)) == n
  {
    ParseNatZeroPadded(NatToString(n), 2);
    ParseNatToString(n);
  }

  /** `ParseApiDate` splits off the last six characters as "-MM-DD". */
  lemma ParseApiDateParts(ys: string, ms: string, ds: string)
    requires ParseInt(ys).Some?
    requires |ms| == 2 && |ds| == 2 && AllDigits(ms) && AllDigits(ds)
    ensures ParseApiDate(ys + "-" + ms + "-" + ds) == Some(Date(ParseInt(ys).value, ParseNat(ms), ParseNat(ds)))
  {
    var s := ys + "-" + ms + "-" + ds;
    assert s[..|s| - 6] == ys;
    assert s[|s| - 5..|s| - 3] == ms;
    assert s[|s| - 2..] == ds;
  }

  /** Parsing the text sent to the server gives back the date of birth. */
  lemma FormatDateRoundTrip(date: Option<Date>)
    requires date.Some? ==> IsCalendarDate(date.value)
    ensures date.Some? ==> ParseApiDate(FormatDateForApi(date)) == date
  {
    if date.Some? {
      var d := date.value;
      TwoDigitsShape(d.month);
      TwoDigitsShape(d.day);
      ParseIntToString(d.year);
      ParseApiDateParts(IntToString(d.year), TwoDigits(d.month), TwoDigits(d.day));
    }
  }

  lemma FourDigitYear(y: nat)
    requires 1000 <= y <= 9999
    ensures |NatToString(y)| == 4
  {
    var a := y / 10;
    var b := a / 10;
    var c := b / 10;
    assert 100 <= a < 1000 && 10 <= b < 100 && 1 <= c < 10;
    assert |NatToString(c)| == 1;
    assert |NatToString(b)| == 2;
    assert |NatToString(a)| == 3;
  }

  /** Four digits, '-', two digits, '-', two digits make `YYYY-MM-DD`. */
  lemma DashedShape(ys: string, ms: string, ds: string)
    requires |ys| == 4 && |ms| == 2 && |ds| == 2
    requires AllDigits(ys) && AllDigits(ms) && AllDigits(ds)
    ensures var s := ys + "-" + ms + "-" + ds;
      && |s| == 10 && s[4] == '-' && s[7] == '-'
      && forall k | 0 <= k < 10 && k != 4 && k != 7 :: IsDigit(s[k])
  {
    var s := ys + "-" + ms + "-" + ds;
    forall k | 0 <= k < 10 && k != 4 && k != 7 ensures IsDigit(s[k]) {
      if k < 4 { assert s[k] == ys[k]; }
      else if k < 7 { assert s[k] == ms[k - 5]; }
      else { assert s[k] == ds[k - 8]; }
    }
  }

  /** For a four-digit year the text is exactly `YYYY-MM-DD`. */
  lemma FormatDateShape(d: Date)
    requires IsCalendarDate(d) && 1000 <= d.year <= 9999
    ensures var s := FormatDateForApi(Some(d));
      && |s| == 10 && s[4] == '-' && s[7] == '-'
      && forall k | 0 <= k < 10 && k != 4 && k != 7 :: IsDigit(s[k])
  {
    var ys, ms, ds := IntToString(d.year), TwoDigits(d.month), TwoDigits(d.day);
    TwoDigitsShape(d.month);
    TwoDigitsShape(d.day);
    FourDigitYear(d.year);
    assert ys == NatToString(d.year);
    DashedShape(ys, ms, ds);
  }
}
