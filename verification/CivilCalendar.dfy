/** The civil calendar under the fixed +05:00 offset the attendance service
    assumes for Asia/Almaty. Instants are milliseconds since the epoch; day and
    year numbers follow section 15.9.1 of ECMA-262 edition 5.1. */
module CivilCalendar {
  import opened Options
  import opened DecimalText

  const MS_PER_DAY: int := 86_400_000
  const ALMATY_OFFSET_MS: int := 5 * 60 * 60 * 1000

  datatype Civil = Civil(year: int, month: int, day: int)

  predicate Leap(y: int) { y % 4 == 0 && (y % 100 != 0 || y % 400 == 0) }

  function DaysInYear(y: int): int { if Leap(y) then 366 else 365 }

  /** Day number of 1 January (section 15.9.1.3). */
  function DayFromYear(y: int): int {
    365 * (y - 1970) + (y - 1969) / 4 - (y - 1901) / 100 + (y - 1601) / 400
  }

  lemma YearLength(y: int)
    ensures DayFromYear(y + 1) == DayFromYear(y) + DaysInYear(y)
  {
    Quotient(y, 1969, 4);
    Quotient(y, 1901, 100);
    Quotient(y, 1601, 400);
  }

  lemma Quotient(y: int, origin: int, d: int)
    requires (d, origin) in {(4, 1969), (100, 1901), (400, 1601)}
    ensures (y + 1 - origin) / d == (y - origin) / d + (if y % d == 0 then 1 else 0)
  {
  }

  lemma {:induction false} YearsGrow(y: int, z: int)
    requires y <= z
    ensures DayFromYear(y) + 365 * (z - y) <= DayFromYear(z)
    decreases z - y
  {
    if y < z {
      YearsGrow(y, z - 1);
      YearLength(z - 1);
    }
  }

  /** The year a day falls in: the one whose 1 January is the last not after it. */
  function YearOf(day: int): (y: int)
    ensures DayFromYear(y) <= day < DayFromYear(y + 1)
  {
    var near := 1970 + day * 400 / 146097;
    if day < DayFromYear(near) then near - 1
    else if day < DayFromYear(near + 1) then near
    else near + 1
  }

  /** Days before the first of a month (sections 15.9.1.4 and 15.9.1.5). */
  function DaysBefore(leap: bool, month: int): int {
    var shift := if leap && month > 2 then 1 else 0;
    shift +
    (match month
     case 1 => 0   case 2 => 31  case 3 => 59  case 4 => 90  case 5 => 120 case 6 => 151
     case 7 => 181 case 8 => 212 case 9 => 243 case 10 => 273 case 11 => 304 case 12 => 334
     case _ => 365)
  }

  function MonthOf(leap: bool, dayInYear: int): (m: int)
    requires 0 <= dayInYear < if leap then 366 else 365
    ensures 1 <= m <= 12
    ensures DaysBefore(leap, m) <= dayInYear < DaysBefore(leap, m + 1)
  {
    MonthFrom(leap, dayInYear, 1)
  }

  function MonthFrom(leap: bool, dayInYear: int, m: int): (found: int)
    requires 1 <= m <= 12
    requires DaysBefore(leap, m) <= dayInYear < if leap then 366 else 365
    ensures m <= found <= 12
    ensures DaysBefore(leap, found) <= dayInYear < DaysBefore(leap, found + 1)
    decreases 12 - m
  {
    if dayInYear < DaysBefore(leap, m + 1) then m else MonthFrom(leap, dayInYear, m + 1)
  }

  function MonthLength(c: Civil): int {
    DaysBefore(Leap(c.year), c.month + 1) - DaysBefore(Leap(c.year), c.month)
  }

  predicate ValidCivil(c: Civil) {
    1 <= c.month <= 12 && 1 <= c.day <= MonthLength(c)
  }

  function DayNumber(c: Civil): int {
    DayFromYear(c.year) + DaysBefore(Leap(c.year), c.month) + c.day - 1
  }

  /** The civil date of a day number, as `getUTCFullYear`, `getUTCMonth() + 1`
      and `getUTCDate` report it. */
  function CivilOf(day: int): (c: Civil)
    ensures ValidCivil(c) && DayNumber(c) == day
  {
    var y := YearOf(day);
    var inYear := day - DayFromYear(y);
    YearLength(y);
    var m := MonthOf(Leap(y), inYear);
    Civil(y, m, inYear - DaysBefore(Leap(y), m) + 1)
  }

  lemma DayNumberInYear(c: Civil)
    requires ValidCivil(c)
    ensures DayFromYear(c.year) <= DayNumber(c) < DayFromYear(c.year + 1)
  {
    YearLength(c.year);
  }

  lemma YearIsUnique(c: Civil, e: Civil)
    requires ValidCivil(c) && ValidCivil(e) && DayNumber(c) == DayNumber(e)
    ensures c.year == e.year
  {
    hide DayNumber, DayFromYear, ValidCivil;
    DayNumberInYear(c);
    DayNumberInYear(e);
    if c.year < e.year { YearsGrow(c.year + 1, e.year); }
    if e.year < c.year { YearsGrow(e.year + 1, c.year); }
  }

  /** A day has one civil date. */
  lemma CivilIsUnique(c: Civil, e: Civil)
    requires ValidCivil(c) && ValidCivil(e) && DayNumber(c) == DayNumber(e)
    ensures c == e
  {
    hide DayFromYear, DaysBefore, Leap;
    YearIsUnique(c, e);
    MonthIsUnique(Leap(c.year), c.month, e.month, DayNumber(c) - DayFromYear(c.year));
  }

  lemma MonthIsUnique(leap: bool, m: int, n: int, dayInYear: int)
    requires 1 <= m <= 12 && 1 <= n <= 12
    requires DaysBefore(leap, m) <= dayInYear < DaysBefore(leap, m + 1)
    requires DaysBefore(leap, n) <= dayInYear < DaysBefore(leap, n + 1)
    ensures m == n
  {
  }

  /** The following civil date, by the rules of the calendar alone. */
  function Tomorrow(c: Civil): (next: Civil)
    requires ValidCivil(c)
    ensures ValidCivil(next) && next.year >= c.year
    ensures DayNumber(next) == DayNumber(c) + 1
  {
    YearLength(c.year);
    if c.day < MonthLength(c) then c.(day := c.day + 1)
    else if c.month < 12 then Civil(c.year, c.month + 1, 1)
    else Civil(c.year + 1, 1, 1)
  }

  lemma TomorrowIsNextDay(day: int)
    ensures CivilOf(day + 1) == Tomorrow(CivilOf(day))
  {
    hide CivilOf, Tomorrow;
    CivilIsUnique(CivilOf(day + 1), Tomorrow(CivilOf(day)));
  }

  /** `MakeDay` (section 15.9.1.12) for a zero-based month. */
  function MakeDay(year: int, month: int, date: int): int {
    var y := year + month / 12;
    DayFromYear(y) + DaysBefore(Leap(y), month % 12 + 1) + date - 1
  }

  /** `Date.UTC(year, month, date)` in milliseconds: years 0 to 99 mean 1900 to 1999. */
  function DateUtc(year: int, month: int, date: int): int {
    MakeDay(if 0 <= year <= 99 then 1900 + year else year, month, date) * MS_PER_DAY
  }

  /** Local day number of an instant. */
  function LocalDay(t: int): int { (t + ALMATY_OFFSET_MS) / MS_PER_DAY }

  function LocalYear(t: int): int { YearOf(LocalDay(t)) }

  function PrintDate(c: Civil): string
    requires ValidCivil(c)
  {
    PrintInt(c.year) + "-" + PadTwo(c.month) + "-" + PadTwo(c.day)
  }

  /** `almatyToday`, and `formatLocalIsoDate` under the fixed offset. */
  function LocalIsoDate(t: int): string { PrintDate(CivilOf(LocalDay(t))) }

  /** `almatyDayStartUtc`; None is an invalid date. */
  function DayStartUtc(date: string, addDays: int): Option<int> {
    var parts := Split(date);
    if |parts| < 3 then None
    else
      match (Number(parts[0]), Number(parts[1]), Number(parts[2]))
      case (Some(y), Some(m), Some(d)) => Some(DateUtc(y, m as int - 1, d as int + addDays) - ALMATY_OFFSET_MS)
      case _ => None
  }

  /** `from <= t < to` for the day window the recompute queries. */
  predicate InDay(date: string, t: int) {
    match (DayStartUtc(date, 0), DayStartUtc(date, 1))
    case (Some(from), Some(to)) => from <= t < to
    case _ => false
  }

  /** Printing a date and splitting it gives the fields back; a sign splits
      off as an empty first field, so such a year is read as 0. */
  lemma PrintedFields(c: Civil)
    requires ValidCivil(c)
    ensures var tail := [PadTwo(c.month), PadTwo(c.day)];
      Split(PrintDate(c)) ==
        if c.year >= 0 then [Digits(c.year)] + tail else ["", Digits(-c.year)] + tail
  {
    hide Split, Digits, PadTwo;
    var year, month, day := Digits(if c.year >= 0 then c.year else -c.year), PadTwo(c.month), PadTwo(c.day);
    var unsigned := year + "-" + month + "-" + day;
    assert unsigned == year + "-" + (month + "-" + day);
    SplitField(year, month + "-" + day);
    SplitField(month, day);
    SplitField(day, "");
    if c.year < 0 {
      SplitField("", unsigned);
      assert PrintDate(c) == "" + "-" + unsigned;
    }
  }

  lemma ReadFields(date: string, y: nat, m: nat, d: nat, addDays: int)
    requires |Split(date)| >= 3
    requires Number(Split(date)[0]) == Some(y)
    requires Number(Split(date)[1]) == Some(m)
    requires Number(Split(date)[2]) == Some(d)
    ensures DayStartUtc(date, addDays) == Some(DateUtc(y, m as int - 1, d as int + addDays) - ALMATY_OFFSET_MS)
  {
    hide Split, Number, DateUtc;
  }

  /** Parsing a printed date of year 100 or later finds its midnight. */
  lemma PrintParse(c: Civil, addDays: int)
    requires ValidCivil(c) && c.year >= 100
    ensures DayStartUtc(PrintDate(c), addDays)
         == Some((DayNumber(c) + addDays) * MS_PER_DAY - ALMATY_OFFSET_MS)
  {
    hide PrintDate, DayStartUtc, Split, Number, Digits, PadTwo, DayFromYear, DaysBefore;
    PrintedFields(c);
    NumberOfDigits(c.year);
    NumberOfPadTwo(c.month);
    NumberOfPadTwo(c.day);
    ReadFields(PrintDate(c), c.year, c.month, c.day, addDays);
    assert (c.month - 1) / 12 == 0 && (c.month - 1) % 12 == c.month - 1;
  }

  /** Days tile the time line: from year 100 on, an instant lies in the window
      of a printed date exactly when that is its own printed date. */
  lemma DayWindow(s: int, t: int)
    requires LocalYear(s) >= 100
    ensures InDay(LocalIsoDate(s), t) <==> LocalDay(t) == LocalDay(s)
    ensures InDay(LocalIsoDate(s), t) <==> LocalIsoDate(t) == LocalIsoDate(s)
  {
    hide CivilOf, YearOf, PrintDate, DayStartUtc;
    var c := CivilOf(LocalDay(s));
    CivilYear(LocalDay(s));
    PrintParse(c, 0);
    PrintParse(c, 1);
    if LocalIsoDate(t) == LocalIsoDate(s) {
      PrintInjective(CivilOf(LocalDay(t)), c);
    }
  }

  lemma CivilYear(day: int)
    ensures CivilOf(day).year == YearOf(day)
  {
  }

  lemma PrintInjective(c: Civil, e: Civil)
    requires ValidCivil(c) && ValidCivil(e) && PrintDate(c) == PrintDate(e)
    ensures c == e
  {
    hide PrintDate, Split, Number, Digits, PadTwo;
    PrintedFields(c);
    PrintedFields(e);
    var parts := Split(PrintDate(c));
    assert |parts| == (if c.year >= 0 then 3 else 4) == (if e.year >= 0 then 3 else 4);
    assert parts[|parts| - 3] == Digits(if c.year >= 0 then c.year else -c.year);
    assert parts[|parts| - 2] == PadTwo(c.month) && parts[|parts| - 1] == PadTwo(c.day);
    assert parts[|parts| - 3] == Digits(if e.year >= 0 then e.year else -e.year);
    assert parts[|parts| - 2] == PadTwo(e.month) && parts[|parts| - 1] == PadTwo(e.day);
    NumberOfDigits(if c.year >= 0 then c.year else -c.year);
    NumberOfDigits(if e.year >= 0 then e.year else -e.year);
    NumberOfPadTwo(c.month); NumberOfPadTwo(e.month);
    NumberOfPadTwo(c.day); NumberOfPadTwo(e.day);
  }

  /** The window of a printed date is the right one for every instant exactly
      from year 100 on: `Date.UTC` moves years 0 to 99, and a sign is lost. */
  lemma DayWindowExactlyFromYear100(s: int)
    ensures LocalYear(s) >= 100
       <==> (forall t :: InDay(LocalIsoDate(s), t) <==> LocalIsoDate(t) == LocalIsoDate(s))
  {
    if LocalYear(s) >= 100 {
      forall t ensures InDay(LocalIsoDate(s), t) <==> LocalIsoDate(t) == LocalIsoDate(s) {
        DayWindow(s, t);
      }
    } else {
      EarlyYearMisread(s);
    }
  }

  /** Before year 100 an instant is outside the window of its own printed date. */
  lemma EarlyYearMisread(s: int)
    requires LocalYear(s) < 100
    ensures !InDay(LocalIsoDate(s), s)
  {
    hide CivilOf, YearOf, PrintDate, DayStartUtc, DayFromYear;
    var c := CivilOf(LocalDay(s));
    CivilYear(LocalDay(s));
    YearsGrow(YearOf(LocalDay(s)) + 1, 1900);
    EarlyStart(c);
  }

  /** A printed date before year 100 is read as a day of 1900 or later. */
  lemma EarlyStart(c: Civil)
    requires ValidCivil(c) && c.year < 100
    ensures DayStartUtc(PrintDate(c), 0).Some?
    ensures DayStartUtc(PrintDate(c), 0).value >= DayFromYear(1900) * MS_PER_DAY - ALMATY_OFFSET_MS
  {
    hide PrintDate, DayStartUtc, Split, Number, Digits, PadTwo, MakeDay, DayFromYear;
    PrintedFields(c);
    NumberOfPadTwo(c.month);
    NumberOfPadTwo(c.day);
    if c.year >= 0 {
      NumberOfDigits(c.year);
      ReadFields(PrintDate(c), c.year, c.month, c.day, 0);
      MakeDayAfter1900(1900 + c.year, c.month - 1, c.day);
    } else {
      NumberOfDigits(-c.year);
      assert Number("") == Some(0) by { NumberOfEmpty(); }
      ReadFields(PrintDate(c), 0, -c.year, c.month, 0);
      MakeDayAfter1900(1900, -c.year - 1, c.month);
    }
  }

  lemma NumberOfEmpty()
    ensures Number("") == Some(0)
  {
  }

  lemma MakeDayAfter1900(year: int, month: int, date: int)
    requires year >= 1900 && month >= 0 && date >= 1
    ensures MakeDay(year, month, date) >= DayFromYear(1900)
  {
    YearsGrow(1900, year + month / 12);
  }

  /** Adding a day to a printed date reaches the next civil date's midnight,
      across month and leap-year ends. */
  lemma NextMidnight(c: Civil)
    requires ValidCivil(c) && c.year >= 100
    ensures DayStartUtc(PrintDate(c), 1) == DayStartUtc(PrintDate(Tomorrow(c)), 0)
  {
    hide PrintDate, DayStartUtc, Tomorrow, DayNumber;
    PrintParse(c, 1);
    PrintParse(Tomorrow(c), 0);
  }

  // ── In figures ──────────────────────────────────────────────────────────

  /** The lengths of the months. */
  lemma MonthLengths(c: Civil)
    requires 1 <= c.month <= 12
    ensures MonthLength(c) ==
      if c.month in {4, 6, 9, 11} then 30
      else if c.month != 2 then 31
      else if c.year % 4 == 0 && (c.year % 100 != 0 || c.year % 400 == 0) then 29 else 28
  {
    MonthLengthIn(Leap(c.year), c.month);
  }

  lemma MonthLengthIn(leap: bool, month: int)
    requires 1 <= month <= 12
    ensures DaysBefore(leap, month + 1) - DaysBefore(leap, month) ==
      if month in {4, 6, 9, 11} then 30 else if month != 2 then 31 else if leap then 29 else 28
  {
  }

  /** Day 0 is 1 January 1970; with `TomorrowIsNextDay` this fixes every date. */
  lemma Epoch()
    ensures CivilOf(0) == Civil(1970, 1, 1) && DayNumber(Civil(1970, 1, 1)) == 0
  {
    hide CivilOf;
    CivilIsUnique(CivilOf(0), Civil(1970, 1, 1));
  }

  /** A local day runs from 19:00 UTC to 19:00 UTC. */
  lemma AlmatyDay(t: int)
    ensures LocalDay(t) * 86_400_000 <= t + 18_000_000 < (LocalDay(t) + 1) * 86_400_000
  {
  }

  /** The midnight a printed date starts at, and those `addDays` later. */
  lemma Midnight(c: Civil, addDays: int)
    requires ValidCivil(c) && c.year >= 100
    ensures DayStartUtc(PrintDate(c), addDays) == Some((DayNumber(c) + addDays) * 86_400_000 - 18_000_000)
  {
    hide PrintDate, DayStartUtc, DayNumber;
    PrintParse(c, addDays);
  }

  /** The decimal digit of a number at a power of ten. */
  function Digit(n: nat, power: nat): char
    requires power > 0
  {
    ('0' as int + n / power % 10) as char
  }

  /** A date of years 1000 to 9999 prints as `YYYY-MM-DD`. */
  lemma PrintedForm(c: Civil)
    requires ValidCivil(c) && 1000 <= c.year <= 9999
    ensures PrintDate(c) == [
      Digit(c.year, 1000), Digit(c.year, 100), Digit(c.year, 10), Digit(c.year, 1), '-',
      Digit(c.month, 10), Digit(c.month, 1), '-', Digit(c.day, 10), Digit(c.day, 1)]
  {
    hide Split, DayNumber, DayFromYear;
    FourDigits(c.year);
    TwoDigits(c.month);
    TwoDigits(c.day);
  }

  lemma TwoDigits(n: nat)
    requires n < 100
    ensures PadTwo(n) == [Digit(n, 10), Digit(n, 1)]
  {
    if n >= 10 { assert Digits(n / 10) == [Digit(n, 10)]; }
  }

  lemma ThreeDigits(n: nat)
    requires 100 <= n <= 999
    ensures Digits(n) == [Digit(n, 100), Digit(n, 10), Digit(n, 1)]
  {
    assert n / 10 / 10 == n / 100 && n / 100 < 10;
    assert Digits(n / 10 / 10) == [Digit(n, 100)];
    assert Digits(n / 10) == Digits(n / 10 / 10) + [Digit(n, 10)];
  }

  lemma FourDigits(n: nat)
    requires 1000 <= n <= 9999
    ensures Digits(n) == [Digit(n, 1000), Digit(n, 100), Digit(n, 10), Digit(n, 1)]
  {
    var front := n / 10;
    ThreeDigits(front);
    Shifted(n);
    assert Digits(n) == Digits(front) + [Digit(n, 1)];
  }

  lemma Shifted(n: nat)
    ensures n / 10 / 100 == n / 1000 && n / 10 / 10 == n / 100
  {
  }
}
