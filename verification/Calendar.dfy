/** Seconds since the epoch as a calendar date and time of day. */
module Calendar {

  datatype Date = Date(year: int, month: int, day: int)

  datatype Stamp = Stamp(date: Date, hour: nat, minute: nat, second: nat)

  // ---- The conversion -----------------------------------------------------------

  function YearOfEra(doe: nat): int {
    (doe - doe / 1460 + doe / 36524 - doe / 146096) / 365
  }

  /** The month and day of a day counted from the first of March. */
  function MonthDay(y: int, doy: int): Date {
    var mp := (5 * doy + 2) / 153;
    var d := doy - (153 * mp + 2) / 5 + 1;
    var mo := if mp < 10 then mp + 3 else mp - 9;
    Date(if mo <= 2 then y + 1 else y, mo, d)
  }

  /** Division that rounds toward zero. */
  function TruncDiv(a: int, b: int): int
    requires b > 0
  {
    if a >= 0 then a / b else -((-a) / b)
  }

  function EraOf(z: int): int { TruncDiv(if z >= 0 then z else z - 146096, 146097) }

  function CivilFromDays(days: int): Date {
    var z := days + 719468;
    EraFloor(z, z / 146097, z % 146097);
    CivilOfEra(EraOf(z), z - EraOf(z) * 146097)
  }

  /** The date of a day of an era of 400 years. */
  function CivilOfEra(era: int, doe: nat): Date {
    var yoe := YearOfEra(doe);
    MonthDay(yoe + era * 400, doe - (365 * yoe + yoe / 4 - yoe / 100))
  }

  /** The adjusted truncation rounds down. */
  lemma EraFloor(z: int, era: int, doe: int)
    requires z == 146097 * era + doe && 0 <= doe < 146097
    ensures EraOf(z) == era
  {
    if z >= 0 {
      DivUnique(z, 146097, era, doe);
    } else {
      DivUnique(146096 - z, 146097, -era, 146096 - doe);
    }
  }

  function NowUtc(secs: nat): Stamp {
    var rem := secs % 86400;
    Stamp(CivilFromDays(secs / 86400), rem / 3600, (rem % 3600) / 60, rem % 60)
  }

  // ---- The Gregorian calendar -----------------------------------------------------

  /** The leap rule of Appendix C of RFC 3339. */
  predicate Leap(y: int) { y % 4 == 0 && (y % 100 != 0 || y % 400 == 0) }

  function MonthLen(y: int, m: int): int {
    if m == 2 then (if Leap(y) then 29 else 28)
    else if m == 4 || m == 6 || m == 9 || m == 11 then 30 else 31
  }

  predicate ValidDate(d: Date) { 1 <= d.month <= 12 && 1 <= d.day <= MonthLen(d.year, d.month) }

  function NextDay(d: Date): Date {
    if d.day < MonthLen(d.year, d.month) then d.(day := d.day + 1)
    else if d.month < 12 then Date(d.year, d.month + 1, 1)
    else Date(d.year + 1, 1, 1)
  }

  const Epoch := Date(1970, 1, 1)

  /** The date reached by counting forward from the epoch one day at a time. */
  function DateAt(n: nat): Date {
    if n == 0 then Epoch else NextDay(DateAt(n - 1))
  }

  /** Days of the months before `m`. */
  function MonthsBefore(y: int, m: int): int {
    if m <= 1 then 0 else MonthsBefore(y, m - 1) + MonthLen(y, m - 1)
  }

  function YearLen(y: int): int { if Leap(y) then 366 else 365 }

  /** Days of the years from 1970 up to `y`. */
  function YearsBefore(y: int): int
    requires y >= 1970
  {
    if y == 1970 then 0 else YearsBefore(y - 1) + YearLen(y - 1)
  }

  /** The day count of a date, by adding up year and month lengths. */
  function DayNumber(d: Date): int
    requires d.year >= 1970
  {
    YearsBefore(d.year) + MonthsBefore(d.year, d.month) + d.day - 1
  }

  // ---- Years ------------------------------------------------------------------------

  /** Days from the first of March of the year 0 to that of year `y`. */
  function MarchYears(y: nat): int { 365 * y + y / 4 - y / 100 + y / 400 }

  lemma DivStep(y: int, k: int)
    requires k > 1
    ensures y / k == (y - 1) / k + (if y % k == 0 then 1 else 0)
  {
    var q := (y - 1) / k;
    var r := (y - 1) % k;
    assert y == k * q + (r + 1);
    if r + 1 == k {
      assert y == k * (q + 1);
    }
    DivUnique(y, k, if r + 1 == k then q + 1 else q, if r + 1 == k then 0 else r + 1);
  }

  lemma DivUnique(y: int, k: int, q: int, r: int)
    requires k > 0 && y == k * q + r && 0 <= r < k
    ensures y / k == q && y % k == r
  {
    var q', r' := y / k, y % k;
    Apart(k, q, q', r, r');
  }

  lemma Apart(k: int, q: int, p: int, r: int, s: int)
    requires k > 0 && k * q + r == k * p + s && 0 <= r < k && 0 <= s < k
    ensures q == p
  {
    if q > p { Times(k, q - p); }
    if q < p { Times(k, p - q); }
  }

  lemma Times(k: int, x: int)
    requires k > 0 && x > 0
    ensures k * x >= k
  {
  }

  lemma {:induction false} YearsClosed(y: int)
    requires y >= 1970
    ensures YearsBefore(y) == MarchYears(y - 1) - MarchYears(1969)
  {
    if y > 1970 {
      YearsClosed(y - 1);
      MarchYearStep(y - 1);
    }
  }

  lemma LeapDivides(y: int)
    ensures Leap(y) <==> (y % 4 == 0 && y % 100 != 0) || y % 400 == 0
    ensures y % 400 == 0 ==> y % 100 == 0
    ensures y % 100 == 0 ==> y % 4 == 0
  {
  }

  lemma EraSplit(y: nat)
    ensures var e, r := y / 400, y % 400;
            && y / 4 == 100 * e + r / 4 && y / 100 == 4 * e + r / 100 && y / 400 == e
            && MarchYears(y) == 146097 * e + (365 * r + r / 4 - r / 100)
  {
  }

  /** The year of the era, for a year of century `c`, quadrennium `q`, year `k` and a day
      that the year has. */
  lemma YearOfEraExact(c: nat, q: nat, k: nat, doy: nat)
    requires c < 4 && q < 25 && k < 4 && doy <= 365
    requires doy == 365 ==> k == 3 && (q < 24 || c == 3)
    ensures var y := 100 * c + 4 * q + k;
            var doe := 365 * y + y / 4 - y / 100 + doy;
            && y / 4 == 25 * c + q && y / 100 == c && 0 <= doe < 146097
            && YearOfEra(doe) == y
  {
    var y := 100 * c + 4 * q + k;
    YearParts(c, q, k);
    var doe := 36524 * c + 1461 * q + 365 * k + doy;
    var e := if 24 * c + q + 365 * k + doy >= 1460 then 1 else 0;
    DivUnique(doe, 1460, 25 * c + q + e, 24 * c + q + 365 * k + doy - 1460 * e);
    CenturyPart(c, q, k, doy);
    EraQuotient(y, doy - e);
  }

  lemma EraQuotient(y: nat, r: int)
    requires 0 <= r < 365
    ensures (365 * y + r) / 365 == y
  {
    DivUnique(365 * y + r, 365, y, r);
  }

  lemma YearParts(c: nat, q: nat, k: nat)
    requires q < 25 && k < 4
    ensures var y := 100 * c + 4 * q + k; y / 4 == 25 * c + q && y / 100 == c
  {
  }

  /** The last day of an era is in a fifth century by division, and its own. */
  lemma CenturyPart(c: nat, q: nat, k: nat, doy: nat)
    requires c < 4 && q < 25 && k < 4 && doy <= 365
    requires doy == 365 ==> k == 3 && (q < 24 || c == 3)
    ensures var doe := 36524 * c + 1461 * q + 365 * k + doy;
            doe < 146097 && doe / 36524 - doe / 146096 == c
  {
    var doe, r := 36524 * c + 1461 * q + 365 * k + doy, 1461 * q + 365 * k + doy;
    var last := if r == 36524 then 1 else 0;
    DivUnique(doe, 36524, c + last, r - 36524 * last);
    DivUnique(doe, 146096, last, doe - 146096 * last);
  }

  // ---- Months -------------------------------------------------------------------------

  /** Days from the first of March to the date. */
  function SinceMarch(d: Date): int {
    if d.month > 2 then MonthsBefore(d.year, d.month) - MonthsBefore(d.year, 3) + d.day - 1
    else 306 + MonthsBefore(d.year, d.month) + d.day - 1
  }

  /** The months before each month, unfolded. */
  lemma MonthTable(y: int)
    ensures var f := if Leap(y) then 1 else 0;
            && MonthsBefore(y, 1) == 0 && MonthsBefore(y, 2) == 31 && MonthsBefore(y, 3) == 59 + f
            && MonthsBefore(y, 4) == 90 + f && MonthsBefore(y, 5) == 120 + f && MonthsBefore(y, 6) == 151 + f
            && MonthsBefore(y, 7) == 181 + f && MonthsBefore(y, 8) == 212 + f && MonthsBefore(y, 9) == 243 + f
            && MonthsBefore(y, 10) == 273 + f && MonthsBefore(y, 11) == 304 + f && MonthsBefore(y, 12) == 334 + f
            && MonthsBefore(y, 13) == 365 + f
  {
    assert MonthsBefore(y, 4) == MonthsBefore(y, 3) + 31;
    assert MonthsBefore(y, 7) == MonthsBefore(y, 6) + 30;
    assert MonthsBefore(y, 10) == MonthsBefore(y, 9) + 30;
  }

  function MarchYear(d: Date): int { if d.month <= 2 then d.year - 1 else d.year }

  lemma MonthDayExact(d: Date)
    requires ValidDate(d)
    ensures 0 <= SinceMarch(d) <= 365
    ensures SinceMarch(d) == 365 ==> Leap(d.year) && d.month == 2
    ensures MonthDay(MarchYear(d), SinceMarch(d)) == d
  {
    MonthTable(d.year);
    var doy := SinceMarch(d);
    var mp := if d.month > 2 then d.month - 3 else d.month + 9;
    assert doy - (153 * mp + 2) / 5 + 1 == d.day;
    assert (5 * doy + 2) / 153 == mp;
  }

  // ---- The count and the conversion agree -------------------------------------------------

  lemma DayNumberClosed(d: Date)
    requires ValidDate(d) && d.year >= 1970
    ensures DayNumber(d) + 719468 == MarchYears(MarchYear(d)) + SinceMarch(d)
  {
    YearsClosed(d.year);
    MonthTable(d.year);
    MarchYearStep(d.year);
  }

  /** A March year is as long as the calendar year it ends in. */
  lemma MarchYearStep(y: int)
    requires y >= 1
    ensures MarchYears(y) == MarchYears(y - 1) + YearLen(y)
  {
    DivStep(y, 4);
    DivStep(y, 100);
    DivStep(y, 400);
    LeapDivides(y);
  }

  /** The last day of February of a March year that has one. */
  lemma LeapDayYear(y: nat)
    requires Leap(y + 1)
    ensures var r := y % 400; r % 4 == 3 && (r % 100 / 4 < 24 || r / 100 == 3)
  {
    var e, r := y / 400, y % 400;
    Digits(r);
    var c, q, k := r / 100, r % 100 / 4, r % 4;
    LeapDivides(y + 1);
    DivUnique(y, 4, 100 * e + 25 * c + q, k);
    DivStep(y + 1, 4);
    if q == 24 && c < 3 {
      DivUnique(y + 1, 100, 4 * e + c + (k + 1) / 4, 96 + k + 1 - 100 * ((k + 1) / 4));
      DivUnique(y + 1, 400, e, 100 * c + 96 + k + 1);
    }
  }

  lemma Digits(r: nat)
    requires r < 400
    ensures var c, q, k := r / 100, r % 100 / 4, r % 4;
            c < 4 && q < 25 && k < 4 && r == 100 * c + 4 * q + k
  {
  }

  lemma EraYear(r: nat, doy: nat)
    requires r < 400 && doy <= 365
    requires doy == 365 ==> r % 4 == 3 && (r % 100 / 4 < 24 || r / 100 == 3)
    ensures var doe := 365 * r + r / 4 - r / 100 + doy; 0 <= doe < 146097 && YearOfEra(doe) == r
  {
    Digits(r);
    YearOfEraExact(r / 100, r % 100 / 4, r % 4, doy);
  }

  lemma CivilPartsAre(n: int, era: int, doe: int)
    requires n + 719468 == 146097 * era + doe && 0 <= doe < 146097
    ensures CivilFromDays(n) == CivilOfEra(era, doe)
  {
    EraFloor(n + 719468, era, doe);
  }

  lemma CivilOfParts(n: nat, era: nat, r: nat, doy: nat)
    requires var doe := 365 * r + r / 4 - r / 100 + doy;
             0 <= doe < 146097 && n + 719468 == 146097 * era + doe && YearOfEra(doe) == r
    ensures CivilFromDays(n) == MonthDay(r + era * 400, doy)
  {
    CivilPartsAre(n, era, 365 * r + r / 4 - r / 100 + doy);
  }

  /** Converting the count of a valid date gives the date back. */
  lemma CivilOfDayNumber(d: Date)
    requires ValidDate(d) && d.year >= 1970
    ensures DayNumber(d) >= 0 && CivilFromDays(DayNumber(d)) == d
  {
    var y := MarchYear(d);
    var era, r, doy := y / 400, y % 400, SinceMarch(d);
    DayNumberNat(d);
    DayNumberClosed(d);
    MonthDayExact(d);
    EraSplit(y);
    if doy == 365 { LeapDayYear(y); }
    EraYear(r, doy);
    CivilOfParts(DayNumber(d), era, r, doy);
  }

  lemma {:induction false} YearsNat(y: int)
    requires y >= 1970
    ensures YearsBefore(y) >= 0
  {
    if y > 1970 { YearsNat(y - 1); }
  }

  lemma DayNumberNat(d: Date)
    requires ValidDate(d) && d.year >= 1970
    ensures DayNumber(d) >= 0
  {
    YearsNat(d.year);
    MonthTable(d.year);
  }

  lemma NextDayCounts(d: Date)
    requires ValidDate(d) && d.year >= 1970
    ensures ValidDate(NextDay(d)) && NextDay(d).year >= 1970
    ensures DayNumber(NextDay(d)) == DayNumber(d) + 1
  {
    MonthTable(d.year);
    MonthTable(d.year + 1);
  }

  lemma {:induction false} CountedDate(n: nat)
    ensures ValidDate(DateAt(n)) && DateAt(n).year >= 1970 && DayNumber(DateAt(n)) == n
  {
    if n == 0 {
      MonthTable(1970);
    } else {
      CountedDate(n - 1);
      NextDayCounts(DateAt(n - 1));
    }
  }

  /** The conversion is the calendar: day `n` is the date reached by counting `n` days forward
      from the epoch, it is a valid date, and the standard count takes it back to `n`. */
  lemma CivilExact(n: nat)
    ensures CivilFromDays(n) == DateAt(n)
    ensures ValidDate(CivilFromDays(n)) && CivilFromDays(n).year >= 1970
    ensures DayNumber(CivilFromDays(n)) == n
    ensures CivilFromDays(n + 1) == NextDay(CivilFromDays(n))
  {
    CountedDate(n);
    CivilOfDayNumber(DateAt(n));
    CountedDate(n + 1);
    CivilOfDayNumber(DateAt(n + 1));
  }

  // ---- Days before the epoch -----------------------------------------------------------------

  function Later400(d: Date, k: int): Date { d.(year := d.year + 400 * k) }

  lemma MonthDayShift(y: int, k: int, doy: int)
    ensures MonthDay(y + 400 * k, doy) == Later400(MonthDay(y, doy), k)
  {
  }

  /** The calendar repeats every 400 years. */
  lemma EraShift(n: int, k: int, m: int)
    requires m == n + 146097 * k
    ensures CivilFromDays(m) == Later400(CivilFromDays(n), k)
  {
    var era, doe := (n + 719468) / 146097, (n + 719468) % 146097;
    CivilPartsAre(n, era, doe);
    CivilPartsAre(m, era + k, doe);
    CivilOfEraShift(era, doe, k);
  }

  lemma CivilOfEraShift(era: int, doe: nat, k: int)
    ensures CivilOfEra(era + k, doe) == Later400(CivilOfEra(era, doe), k)
  {
    var yoe := YearOfEra(doe);
    MonthDayShift(yoe + era * 400, k, doe - (365 * yoe + yoe / 4 - yoe / 100));
  }

  lemma ShiftModulus(y: int, k: int, m: int, c: int)
    requires m > 0 && 400 == m * c
    ensures (y + 400 * k) % m == y % m
  {
    var q, r := y / m, y % m;
    assert y + 400 * k == m * (q + c * k) + r by {
      assert m * (q + c * k) == m * q + m * c * k;
    }
    DivUnique(y + 400 * k, m, q + c * k, r);
  }

  lemma LeapShift(y: int, k: int)
    ensures Leap(y + 400 * k) == Leap(y)
  {
    ShiftModulus(y, k, 4, 100);
    ShiftModulus(y, k, 100, 4);
    ShiftModulus(y, k, 400, 1);
  }

  lemma NextDayShift(d: Date, k: int)
    ensures NextDay(Later400(d, k)) == Later400(NextDay(d), k)
    ensures ValidDate(Later400(d, k)) == ValidDate(d)
  {
    LeapShift(d.year, k);
  }

  /** For every day number, before the epoch as well: a valid date, and the next day's date is
      the next date. */
  lemma CivilEveryDay(n: int)
    ensures ValidDate(CivilFromDays(n))
    ensures CivilFromDays(n + 1) == NextDay(CivilFromDays(n))
    ensures CivilFromDays(0) == Epoch
  {
    EpochIsDayZero();
    ShiftedDay(n, if n >= 0 then 0 else -n);
  }

  lemma EpochIsDayZero()
    ensures CivilFromDays(0) == Epoch
  {
    CivilExact(0);
    assert DateAt(0) == Epoch;
  }

  lemma ShiftedDay(n: int, k: nat)
    requires n + 146097 * k >= 0
    ensures ValidDate(CivilFromDays(n)) && CivilFromDays(n + 1) == NextDay(CivilFromDays(n))
  {
    var m := n + 146097 * k;
    CivilExact(m);
    EraShift(n, k, m);
    EraShift(n + 1, k, m + 1);
    Unshift(CivilFromDays(n), CivilFromDays(n + 1), CivilFromDays(m), CivilFromDays(m + 1), k);
  }

  lemma Unshift(a: Date, b: Date, c: Date, d: Date, k: int)
    requires c == Later400(a, k) && d == Later400(b, k) && ValidDate(c) && d == NextDay(c)
    ensures ValidDate(a) && b == NextDay(a)
  {
    NextDayShift(a, k);
  }

  function SecondsOf(t: Stamp): int
    requires t.date.year >= 1970
  {
    86400 * DayNumber(t.date) + 3600 * t.hour + 60 * t.minute + t.second
  }

  lemma ClockExact(rem: nat)
    requires rem < 86400
    ensures rem / 3600 < 24 && rem % 3600 / 60 < 60
    ensures 3600 * (rem / 3600) + 60 * (rem % 3600 / 60) + rem % 60 == rem
  {
    assert rem % 60 == rem % 3600 % 60;
  }

  /** The whole stamp counts back to the clock reading, with every field in range. */
  lemma StampExact(secs: nat)
    ensures var t := NowUtc(secs);
            && ValidDate(t.date) && t.hour < 24 && t.minute < 60 && t.second < 60
            && t.date.year >= 1970 && SecondsOf(t) == secs
  {
    CivilExact(secs / 86400);
    ClockExact(secs % 86400);
  }
}
