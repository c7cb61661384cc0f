/** Day numbers of the Gregorian calendar (section 3.2.1 of ISO 8601:2004), and the age of a learned
    entry. */
module GregorianDays {
  import opened Common

  datatype Date = Date(year: int, month: int, day: int)

  // ---- The calendar ------------------------------------------------------

  predicate IsLeap(y: int) {
    (y % 4 == 0 && y % 100 != 0) || y % 400 == 0
  }

  function DaysInMonth(y: int, m: int): int {
    if m == 2 then (if IsLeap(y) then 29 else 28)
    else if m == 4 || m == 6 || m == 9 || m == 11 then 30
    else 31
  }

  predicate IsDate(d: Date) {
    d.year >= 0 && 1 <= d.month <= 12 && 1 <= d.day <= DaysInMonth(d.year, d.month)
  }

  function NextDate(d: Date): (e: Date)
    requires IsDate(d)
    ensures IsDate(e)
  {
    if d.day < DaysInMonth(d.year, d.month) then Date(d.year, d.month, d.day + 1)
    else if d.month < 12 then Date(d.year, d.month + 1, 1)
    else Date(d.year + 1, 1, 1)
  }

  function Later(d: Date, n: nat): (e: Date)
    requires IsDate(d)
    ensures IsDate(e)
  {
    if n == 0 then d else NextDate(Later(d, n - 1))
  }

  predicate Before(a: Date, b: Date) {
    a.year < b.year || (a.year == b.year && (a.month < b.month || (a.month == b.month && a.day < b.day)))
  }

  // ---- gregorian_day -----------------------------------------------------

  /** Full years from the start of the count, of years that begin in March. */
  function YearDays(yy: nat): int {
    365 * yy + yy / 4 - yy / 100 + yy / 400
  }

  /** No operand is negative for years from 0 on, so the divisions are the truncating ones of C. */
  function DayNumber(y: int, m: int, d: int): int
    requires y >= 0 && 1 <= m <= 12
  {
    var a := (14 - m) / 12;
    var yy := y + 4800 - a;
    var mm := m + 12 * a - 3;
    d + (153 * mm + 2) / 5 + 365 * yy + yy / 4 - yy / 100 + yy / 400 - 32045
  }

  function DayOf(d: Date): int
    requires IsDate(d)
  {
    DayNumber(d.year, d.month, d.day)
  }

  lemma LeapSteps(yy: nat)
    ensures YearDays(yy + 1) - YearDays(yy) == if IsLeap(yy + 1) then 366 else 365
  {
    Carry(yy, 4);
    Carry(yy, 100);
    Carry(yy, 400);
  }

  lemma Carry(n: nat, k: nat)
    requires k == 4 || k == 100 || k == 400
    ensures (n + 1) / k == n / k + (if (n + 1) % k == 0 then 1 else 0)
  {
  }

  lemma LeapCycle(y: nat)
    ensures IsLeap(y + 4800) == IsLeap(y)
  {
    assert (y + 4800) % 400 == y % 400 && (y + 4800) % 100 == y % 100 && (y + 4800) % 4 == y % 4;
  }

  /** Days of a March-based year before month m. */
  function MonthOffset(m: int): int {
    match m
    case 3 => 0 case 4 => 31 case 5 => 61 case 6 => 92 case 7 => 122 case 8 => 153
    case 9 => 184 case 10 => 214 case 11 => 245 case 12 => 275 case 1 => 306 case _ => 337
  }

  function MarchYear(y: nat, m: int): nat {
    if m <= 2 then y + 4799 else y + 4800
  }

  lemma DayNumberParts(y: nat, m: int, d: int)
    requires 1 <= m <= 12
    ensures DayNumber(y, m, d) == d + MonthOffset(m) + YearDays(MarchYear(y, m)) - 32045
  {
    var a := (14 - m) / 12;
    assert a == if m <= 2 then 1 else 0;
    assert (153 * (m + 12 * a - 3) + 2) / 5 == MonthOffset(m);
  }

  /** Across month ends, leap days, century rules and year ends: the next date is the next number. */
  lemma NextDayIsOneMore(d: Date)
    requires IsDate(d)
    ensures DayOf(NextDate(d)) == DayOf(d) + 1
  {
    var e := NextDate(d);
    DayNumberParts(d.year, d.month, d.day);
    DayNumberParts(e.year, e.month, e.day);
    LeapSteps(d.year + 4799);
    LeapCycle(d.year);
    NextParts(d);
  }

  lemma NextParts(d: Date)
    requires IsDate(d)
    ensures var e := NextDate(d);
            var years := YearDays(MarchYear(e.year, e.month)) - YearDays(MarchYear(d.year, d.month));
            e.day + MonthOffset(e.month) + years == d.day + MonthOffset(d.month) + 1
  {
    LeapSteps(d.year + 4799);
    LeapCycle(d.year);
    if NextDate(d).month == 3 && d.month == 2 {
      assert MarchYear(NextDate(d).year, 3) == MarchYear(d.year, 2) + 1;
    } else {
      assert MarchYear(NextDate(d).year, NextDate(d).month) == MarchYear(d.year, d.month);
    }
  }

  lemma {:induction false} DayCountIsExact(d: Date, n: nat)
    requires IsDate(d)
    ensures DayOf(Later(d, n)) == DayOf(d) + n
  {
    if n > 0 {
      DayCountIsExact(d, n - 1);
      NextDayIsOneMore(Later(d, n - 1));
    }
  }

  // ---- Order -------------------------------------------------------------

  /** The next date is the least later one. */
  lemma NextIsLeast(a: Date, b: Date)
    requires IsDate(a) && IsDate(b) && Before(a, b)
    ensures NextDate(a) == b || Before(NextDate(a), b)
  {
  }

  function MonthIndex(d: Date): int {
    12 * d.year + d.month
  }

  /** The day number is strictly monotone, so it is injective and orders the dates. */
  lemma {:induction false} Monotone(a: Date, b: Date)
    requires IsDate(a) && IsDate(b) && Before(a, b)
    ensures DayOf(a) < DayOf(b)
    decreases MonthIndex(b) - MonthIndex(a), 32 - a.day
  {
    NextIsLeast(a, b);
    NextDayIsOneMore(a);
    if NextDate(a) != b {
      Monotone(NextDate(a), b);
    }
  }

  lemma OrderIff(a: Date, b: Date)
    requires IsDate(a) && IsDate(b)
    ensures Before(a, b) <==> DayOf(a) < DayOf(b)
    ensures a == b <==> DayOf(a) == DayOf(b)
  {
    if Before(a, b) {
      Monotone(a, b);
    } else if Before(b, a) {
      Monotone(b, a);
    }
  }

  // ---- Timestamps --------------------------------------------------------

  predicate IsDigit(c: char) {
    '0' <= c <= '9'
  }

  predicate IsSpace(c: char) {
    c == ' ' || '\t' <= c <= '\r'
  }

  function Digits(s: string, acc: nat): (nat, string) {
    if s != "" && IsDigit(s[0]) then Digits(s[1..], 10 * acc + (s[0] - '0') as int) else (acc, s)
  }

  /** strtol in base 10: the number, and what follows it. Without digits nothing is consumed. */
  function StrToL(s: string): (int, string) {
    if s != "" && IsSpace(s[0]) then
      var r := StrToL(s[1..]);
      if r.1 == s[1..] then (0, s) else r
    else
      var signed := s != "" && (s[0] == '-' || s[0] == '+');
      var t := if signed then s[1..] else s;
      if t == "" || !IsDigit(t[0]) then (0, s)
      else
        var r := Digits(t, 0);
        var v: int := r.0;
        (if signed && s[0] == '-' then -v else v, r.1)
  }

  lemma StrToLDigits(s: string, n: nat, rest: string)
    requires s != "" && IsDigit(s[0]) && Digits(s, 0) == Digits(rest, n) && (rest == "" || !IsDigit(rest[0]))
    ensures StrToL(s) == (n, rest)
  {
  }

  predicate StartsWithDash(s: string) {
    s != "" && s[0] == '-'
  }

  /** parse_iso_date: any day up to 31 passes, whatever the month. */
  function ParseIsoDate(ts: string): Option<Date> {
    if |ts| < 8 || ts[4] != '-' || ts[7] != '-' then None
    else
      var y, m, d := StrToL(ts), StrToL(ts[5..]), StrToL(ts[8..]);
      if !StartsWithDash(y.1) || !StartsWithDash(m.1) then None
      else if y.0 < 2020 || y.0 > 2100 || m.0 < 1 || m.0 > 12 || d.0 < 1 || d.0 > 31 then None
      else Some(Date(y.0, m.0, d.0))
  }

  function DigitChar(v: nat): char
    requires v < 10
  {
    "0123456789"[v]
  }

  function TwoDigits(n: nat): string
    requires n < 100
  {
    [DigitChar(n / 10), DigitChar(n % 10)]
  }

  /** The complete date form YYYY-MM-DD (section 4.1.2.2 of ISO 8601:2004). */
  function IsoDate(d: Date): string
    requires 0 <= d.year < 10000 && 0 <= d.month < 100 && 0 <= d.day < 100
  {
    TwoDigits(d.year / 100) + TwoDigits(d.year % 100) + "-" + TwoDigits(d.month) + "-" + TwoDigits(d.day)
  }

  lemma ReadTwo(n: nat, rest: string, acc: nat)
    requires n < 100
    ensures Digits(TwoDigits(n) + rest, acc) == Digits(rest, 100 * acc + n)
  {
    var s := TwoDigits(n) + rest;
    assert s[0] == DigitChar(n / 10) && s[1..][0] == DigitChar(n % 10) && s[1..][1..] == rest;
    assert Digits(s, acc) == Digits(s[1..], 10 * acc + n / 10);
    assert Digits(s[1..], 10 * acc + n / 10) == Digits(rest, 10 * (10 * acc + n / 10) + n % 10);
  }

  lemma ReadFour(n: nat, rest: string)
    requires n < 10000
    ensures Digits(TwoDigits(n / 100) + TwoDigits(n % 100) + rest, 0) == Digits(rest, n)
  {
    assert TwoDigits(n / 100) + TwoDigits(n % 100) + rest == TwoDigits(n / 100) + (TwoDigits(n % 100) + rest);
    ReadTwo(n / 100, TwoDigits(n % 100) + rest, 0);
    ReadTwo(n % 100, rest, n / 100);
  }

  /** A date printed in that form, with or without a time behind it, is read back. */
  lemma ParseOfIsoDate(d: Date, time: string)
    requires IsDate(d) && 2020 <= d.year <= 2100 && (time == "" || !IsDigit(time[0]))
    ensures ParseIsoDate(IsoDate(d) + time) == Some(d)
  {
    hide Digits;
    var ts := IsoDate(d) + time;
    var fromMonth, fromDay := TwoDigits(d.month) + ("-" + (TwoDigits(d.day) + time)), TwoDigits(d.day) + time;
    var afterYear := "-" + fromMonth;
    assert ts == TwoDigits(d.year / 100) + TwoDigits(d.year % 100) + afterYear;
    assert ts[5..] == fromMonth && ts[8..] == fromDay;
    ReadFour(d.year, afterYear);
    ReadTwo(d.month, "-" + fromDay, 0);
    ReadTwo(d.day, time, 0);
    assert fromMonth == TwoDigits(d.month) + ("-" + fromDay);
    assert ts[0] == DigitChar(d.year / 100 / 10) && fromMonth[0] == DigitChar(d.month / 10);
    assert fromDay[0] == DigitChar(d.day / 10);
    StrToLDigits(ts, d.year, afterYear);
    StrToLDigits(fromMonth, d.month, "-" + fromDay);
    StrToLDigits(fromDay, d.day, time);
  }

  // ---- The age test ------------------------------------------------------

  /** static_cast<int> of a uint32_t */
  function AsInt(n: nat): int
    requires n < 0x1_0000_0000
  {
    if n < 0x8000_0000 then n else n - 0x1_0000_0000
  }

  predicate NeedsRevalidation(userLocked: bool, sampleCount: nat, bestAction: string, lastValidated: string,
                              today: Date, maxAgeDays: nat)
    requires IsDate(today) && maxAgeDays < 0x1_0000_0000
  {
    if userLocked then false
    else if sampleCount == 0 || bestAction == "" then true
    else
      match ParseIsoDate(lastValidated)
      case None => true
      case Some(v) => DayOf(today) - DayNumber(v.year, v.month, v.day) > AsInt(maxAgeDays)
  }

  /** An entry validated on a date of the calendar, n days ago, is due exactly when n exceeds the limit; if
      the clock was set back to n days before that date, it is not. From two to the 31 on the limit is
      negative as an int: then every entry is due, except behind a clock set back by at least the missing
      days to two to the 32. */
  lemma AgeIsTrueDayCount(bestAction: string, sampleCount: nat, v: Date, time: string, today: Date, n: nat, maxAgeDays: nat)
    requires IsDate(v) && 2020 <= v.year <= 2100 && (time == "" || !IsDigit(time[0])) && IsDate(today)
    requires sampleCount > 0 && bestAction != "" && maxAgeDays < 0x1_0000_0000
    ensures var due := NeedsRevalidation(false, sampleCount, bestAction, IsoDate(v) + time, today, maxAgeDays);
            && (today == Later(v, n) ==> (due <==> maxAgeDays >= 0x8000_0000 || n > maxAgeDays))
            && (v == Later(today, n) ==> (due <==> maxAgeDays >= 0x8000_0000 && n < 0x1_0000_0000 - maxAgeDays))
  {
    hide ParseIsoDate, IsoDate, DayNumber, Later;
    ParseOfIsoDate(v, time);
    DayCountIsExact(v, n);
    DayCountIsExact(today, n);
  }
}
