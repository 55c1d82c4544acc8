/**
 * Calendar days written as the "YYYY-MM-DD" strings that an HTML date input
 * delivers, and the day-level "is this date before today" test both booking
 * forms run before accepting a date.
 *
 * `new Date(s)` on such a string either yields a day or, for a string that is
 * not a date, an invalid date whose comparison with anything is false.  The
 * model reads the string with `Parse`, and a string `Parse` rejects is never
 * "in the past".
 */
module IsoDate {
  import opened Options

  datatype CalendarDate = CalendarDate(year: int, month: int, day: int)

  predicate IsLeapYear(y: int) {
    y % 4 == 0 && (y % 100 != 0 || y % 400 == 0)
  }

  function DaysInMonth(y: int, m: int): (n: int)
    requires 1 <= m <= 12
    ensures 28 <= n <= 31
    ensures n == 29 <==> m == 2 && IsLeapYear(y)
  {
    if m == 2 then (if IsLeapYear(y) then 29 else 28)
    else if m == 4 || m == 6 || m == 9 || m == 11 then 30
    else 31
  }

  /** A day that has a four-digit "YYYY-MM-DD" spelling. */
  predicate IsValid(d: CalendarDate) {
    && 0 <= d.year <= 9999
    && 1 <= d.month <= 12
    && 1 <= d.day <= DaysInMonth(d.year, d.month)
  }

  /** Strictly earlier, comparing days and ignoring the time of day. */
  predicate Before(a: CalendarDate, b: CalendarDate) {
    || a.year < b.year
    || (a.year == b.year && a.month < b.month)
    || (a.year == b.year && a.month == b.month && a.day < b.day)
  }

  // ---- decimal digits ------------------------------------------------------

  predicate IsDigit(c: char) {
    '0' <= c <= '9'
  }

  predicate AllDigits(s: string) {
    forall i :: 0 <= i < |s| ==> IsDigit(s[i])
  }

  function DigitChar(n: int): (c: char)
    requires 0 <= n < 10
    ensures IsDigit(c) && c as int - '0' as int == n
  {
    ('0' as int + n) as char
  }

  function Pow10(n: nat): (p: nat)
    ensures p >= 1
  {
    if n == 0 then 1 else 10 * Pow10(n - 1)
  }

  /** The number a string of decimal digits spells, most significant first. */
  function ValueOf(s: string): nat
    requires AllDigits(s)
  {
    if s == [] then 0 else ValueOf(s[..|s| - 1]) * 10 + (s[|s| - 1] as int - '0' as int)
  }

  /** The last `width` decimal digits of `n`, with leading zeros. */
  function Pad(n: nat, width: nat): (s: string)
    ensures |s| == width && AllDigits(s)
  {
    if width == 0 then [] else Pad(n / 10, width - 1) + [DigitChar(n % 10)]
  }

  lemma {:induction false} ValueOfPad(n: nat, width: nat)
    requires n < Pow10(width)
    ensures ValueOf(Pad(n, width)) == n
  {
    if width > 0 {
      var s := Pad(n, width);
      ValueOfPad(n / 10, width - 1);
      assert s[..|s| - 1] == Pad(n / 10, width - 1);
    }
  }

  lemma {:induction false} PadValueOf(s: string)
    requires AllDigits(s)
    ensures ValueOf(s) < Pow10(|s|)
    ensures Pad(ValueOf(s), |s|) == s
  {
    if s != [] {
      var p, d := s[..|s| - 1], s[|s| - 1] as int - '0' as int;
      PadValueOf(p);
      var v := ValueOf(p) * 10 + d;
      assert v / 10 == ValueOf(p) && v % 10 == d;
      assert s == p + [DigitChar(d)];
    }
  }

  // ---- the "YYYY-MM-DD" form -----------------------------------------------

  function Format(d: CalendarDate): (s: string)
    requires IsValid(d)
    ensures |s| == 10 && s[4] == '-' && s[7] == '-'
  {
    Pad(d.year, 4) + "-" + Pad(d.month, 2) + "-" + Pad(d.day, 2)
  }

  /** Reads a "YYYY-MM-DD" string; `None` stands for an invalid date. */
  function Parse(s: string): (r: Option<CalendarDate>)
    ensures r.Some? ==> IsValid(r.value) && |s| == 10
  {
    if |s| == 10 && s[4] == '-' && s[7] == '-'
       && AllDigits(s[..4]) && AllDigits(s[5..7]) && AllDigits(s[8..])
    then
      var d := CalendarDate(ValueOf(s[..4]), ValueOf(s[5..7]), ValueOf(s[8..]));
      if IsValid(d) then Some(d) else None
    else None
  }

  lemma ParseFormat(d: CalendarDate)
    requires IsValid(d)
    ensures Parse(Format(d)) == Some(d)
  {
    var s := Format(d);
    assert s[..4] == Pad(d.year, 4);
    assert s[5..7] == Pad(d.month, 2);
    assert s[8..] == Pad(d.day, 2);
    assert Pow10(2) == 100 && Pow10(4) == 10000;
    ValueOfPad(d.year, 4);
    ValueOfPad(d.month, 2);
    ValueOfPad(d.day, 2);
  }

  lemma FormatParse(s: string)
    requires Parse(s).Some?
    ensures Format(Parse(s).value) == s
  {
    PadValueOf(s[..4]);
    PadValueOf(s[5..7]);
    PadValueOf(s[8..]);
    assert s == s[..4] + "-" + s[5..7] + "-" + s[8..];
  }

  /** The only strings `Parse` reads as a day are that day's spellings. */
  lemma ParseReadsOnlySpellings(s: string)
    ensures forall d :: IsValid(d) && Format(d) == s ==> Parse(s) == Some(d)
    ensures Parse(s).Some? ==> Format(Parse(s).value) == s
  {
    forall d | IsValid(d) && Format(d) == s ensures Parse(s) == Some(d) {
      ParseFormat(d);
    }
    if Parse(s).Some? {
      FormatParse(s);
    }
  }

  /**
   * `new Date(s) < today` at day granularity: `s` spells a day strictly
   * before today.
   */
  predicate IsPast(s: string, today: CalendarDate)
    ensures IsPast(s, today) <==> exists d :: IsValid(d) && Format(d) == s && Before(d, today)
  {
    ParseReadsOnlySpellings(s);
    match Parse(s)
    case None => false
    case Some(d) => Before(d, today)
  }

  lemma PastIffBefore(d: CalendarDate, today: CalendarDate)
    requires IsValid(d)
    ensures IsPast(Format(d), today) <==> Before(d, today)
  {
    ParseFormat(d);
  }

  /** A date on the current day is not in the past. */
  lemma TodayIsNotPast(today: CalendarDate)
    requires IsValid(today)
    ensures !IsPast(Format(today), today)
  {
    PastIffBefore(today, today);
  }
}
