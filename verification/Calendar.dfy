/** `civil_from_days` against a calendar that steps one day at a time. */
module Calendar {

  datatype Date = Date(year: int, month: int, day: int)

  // Division as the source's language does it: toward zero.
  function TruncDiv(a: int, b: int): int
    requires b > 0
  {
    if a >= 0 then a / b else -((-a) / b)
  }

  function CivilFromDays(daysSinceEpoch: int): Date {
    var days := daysSinceEpoch + 719_468;
    var era := if days >= 0 then TruncDiv(days, 146_097) else TruncDiv(days - 146_096, 146_097);
    var dayOfEra := days - era * 146_097;
    var yearOfEra := TruncDiv(dayOfEra - TruncDiv(dayOfEra, 1_460) + TruncDiv(dayOfEra, 36_524) - TruncDiv(dayOfEra, 146_096), 365);
    var year := yearOfEra + era * 400;
    var dayOfYear := dayOfEra - (365 * yearOfEra + TruncDiv(yearOfEra, 4) - TruncDiv(yearOfEra, 100));
    var monthPrime := TruncDiv(5 * dayOfYear + 2, 153);
    var day := dayOfYear - TruncDiv(153 * monthPrime + 2, 5) + 1;
    var month := monthPrime + if monthPrime < 10 then 3 else -9;
    Date(year + if month <= 2 then 1 else 0, month, day)
  }

  // ----- the calendar everybody knows -----

  predicate IsLeap(year: int) {
    year % 4 == 0 && (year % 100 != 0 || year % 400 == 0)
  }

  function DaysInMonth(year: int, month: int): int {
    if month == 2 then if IsLeap(year) then 29 else 28
    else if month in {4, 6, 9, 11} then 30
    else 31
  }

  predicate IsDate(date: Date) {
    1 <= date.month <= 12 && 1 <= date.day <= DaysInMonth(date.year, date.month)
  }

  function NextDay(date: Date): Date {
    if date.day < DaysInMonth(date.year, date.month) then date.(day := date.day + 1)
    else if date.month < 12 then Date(date.year, date.month + 1, 1)
    else Date(date.year + 1, 1, 1)
  }

  function PreviousDay(date: Date): Date {
    if date.day > 1 then date.(day := date.day - 1)
    else if date.month > 1 then Date(date.year, date.month - 1, DaysInMonth(date.year, date.month - 1))
    else Date(date.year - 1, 12, 31)
  }

  // Counting day by day from the epoch.
  function Counted(days: int): Date
    decreases if days < 0 then -days else days
  {
    if days == 0 then Date(1970, 1, 1)
    else if days > 0 then NextDay(Counted(days - 1))
    else PreviousDay(Counted(days + 1))
  }

  // ----- years that begin in March -----

  function MonthPrime(date: Date): int {
    if date.month > 2 then date.month - 3 else date.month + 9
  }

  function MarchYear(date: Date): int {
    if date.month > 2 then date.year else date.year - 1
  }

  function MonthStart(monthPrime: int): int {
    (153 * monthPrime + 2) / 5
  }

  // Days before a March year within its era of 400.
  function YearStart(yearOfEra: int): int {
    365 * yearOfEra + yearOfEra / 4 - yearOfEra / 100
  }

  function YearLength(yearOfEra: int): int {
    if IsLeap(yearOfEra + 1) then 366 else 365
  }

  function DaysFromCivil(date: Date): int {
    var y := MarchYear(date);
    (y / 400) * 146_097 + YearStart(y % 400) + MonthStart(MonthPrime(date)) + date.day - 1 - 719_468
  }

  lemma Div4(n: int, q: int)
    requires 0 <= n - 4 * q < 4
    ensures n / 4 == q
  {
  }

  lemma Div100(n: int, q: int)
    requires 0 <= n - 100 * q < 100
    ensures n / 100 == q
  {
  }

  lemma Div365(n: int, q: int)
    requires 0 <= n - 365 * q < 365
    ensures n / 365 == q
  {
  }

  lemma Div1460(n: int, q: int)
    requires 0 <= n - 1_460 * q < 1_460
    ensures n / 1_460 == q
  {
  }

  lemma Div36524(n: int, q: int)
    requires 0 <= n - 36_524 * q < 36_524
    ensures n / 36_524 == q
  {
  }

  lemma Div146096(n: int, q: int)
    requires 0 <= n - 146_096 * q < 146_096
    ensures n / 146_096 == q
  {
  }

  // In the decomposition 100 c + 4 q + r only the last year of a group of four can be long,
  // and the last group of a century only at the end of the era.
  predicate InYear(c: int, q: int, r: int, dayOfYear: int) {
    && 0 <= c < 4 && 0 <= q < 25 && 0 <= r < 4
    && 0 <= dayOfYear < if r == 3 && (q < 24 || c == 3) then 366 else 365
  }

  lemma CenturyLength(c: int, q: int, r: int)
    requires 0 <= c < 4 && 0 <= q < 25 && 0 <= r < 4
    ensures YearLength(100 * c + 4 * q + r) == if r == 3 && (q < 24 || c == 3) then 366 else 365
    ensures YearStart(100 * c + 4 * q + r) == 36_524 * c + 1_461 * q + 365 * r
  {
    var y := 100 * c + 4 * q + r;
    Div4(y, 25 * c + q);
    Div100(y, c);
  }

  lemma Numerator(c: int, q: int, r: int, dayOfYear: int)
    requires InYear(c, q, r, dayOfYear)
    ensures var dayOfEra := 36_524 * c + 1_461 * q + 365 * r + dayOfYear;
            && 0 <= dayOfEra < 146_097
            && 0 <= dayOfEra - dayOfEra / 1_460 + dayOfEra / 36_524 - dayOfEra / 146_096 - 365 * (100 * c + 4 * q + r) < 365
  {
    var dayOfEra := 36_524 * c + 1_461 * q + 365 * r + dayOfYear;
    var last := if dayOfEra == 146_096 then 1 else 0;
    var k := if 24 * c + q + 365 * r + dayOfYear >= 1_460 then 1 else 0;
    Div1460(dayOfEra, 25 * c + q + k);
    Div36524(dayOfEra, c + last);
    Div146096(dayOfEra, last);
  }

  // The heart of the closed form: it finds the March year of any day of the era.
  lemma YearIsFound(yearOfEra: int, dayOfYear: int)
    requires 0 <= yearOfEra < 400 && 0 <= dayOfYear < YearLength(yearOfEra)
    ensures var dayOfEra := YearStart(yearOfEra) + dayOfYear;
            && 0 <= dayOfEra < 146_097
            && (dayOfEra - dayOfEra / 1_460 + dayOfEra / 36_524 - dayOfEra / 146_096) / 365 == yearOfEra
            && 0 <= dayOfEra - dayOfEra / 1_460 + dayOfEra / 36_524 - dayOfEra / 146_096
  {
    hide YearStart, YearLength;
    var c := yearOfEra / 100;
    var q := (yearOfEra - 100 * c) / 4;
    var r := yearOfEra - 100 * c - 4 * q;
    CenturyLength(c, q, r);
    Numerator(c, q, r, dayOfYear);
    var dayOfEra := YearStart(yearOfEra) + dayOfYear;
    Div365(dayOfEra - dayOfEra / 1_460 + dayOfEra / 36_524 - dayOfEra / 146_096, yearOfEra);
  }

  // ----- months of a March year -----

  function MonthLength(monthPrime: int): int {
    if monthPrime == 11 then 28 else MonthStart(monthPrime + 1) - MonthStart(monthPrime)
  }

  lemma MonthsOfDate(date: Date)
    requires IsDate(date)
    ensures 0 <= MonthPrime(date) < 12
    ensures DaysInMonth(date.year, date.month)
         == MonthLength(MonthPrime(date)) + if date.month == 2 && IsLeap(date.year) then 1 else 0
    ensures 0 <= MonthStart(MonthPrime(date)) + date.day - 1 < YearLength(MarchYear(date) % 400)
  {
    var y := MarchYear(date);
    LeapByEra(y + 1, y % 400 + 1, y / 400);
    var months := [0, 31, 61, 92, 122, 153, 184, 214, 245, 275, 306, 337];
    assert MonthStart(MonthPrime(date)) == months[MonthPrime(date)];
  }

  lemma Mod4(a: int, b: int, k: int)
    requires a == b + 4 * k
    ensures a % 4 == b % 4
  {
  }

  lemma Mod100(a: int, b: int, k: int)
    requires a == b + 100 * k
    ensures a % 100 == b % 100
  {
  }

  lemma Mod400(a: int, b: int, k: int)
    requires a == b + 400 * k
    ensures a % 400 == b % 400
  {
  }

  lemma LeapByEra(a: int, b: int, eras: int)
    requires a == b + 400 * eras
    ensures IsLeap(a) == IsLeap(b)
  {
    Mod4(a, b, 100 * eras);
    Mod100(a, b, 4 * eras);
    Mod400(a, b, eras);
  }

  lemma MonthIsFound(monthPrime: int, day: int)
    requires 0 <= monthPrime < 12 && 1 <= day <= MonthLength(monthPrime) + if monthPrime == 11 then 1 else 0
    ensures var dayOfYear := MonthStart(monthPrime) + day - 1;
            && 0 <= dayOfYear && (5 * dayOfYear + 2) / 153 == monthPrime && dayOfYear - MonthStart(monthPrime) + 1 == day
  {
  }

  lemma EraIsFound(era: int, dayOfEra: int)
    requires 0 <= dayOfEra < 146_097
    ensures var days := era * 146_097 + dayOfEra;
            (if days >= 0 then TruncDiv(days, 146_097) else TruncDiv(days - 146_096, 146_097)) == era
  {
  }

  // The closed form on a day given by its era, March year, month and day.
  lemma CivilFromParts(era: int, yearOfEra: int, monthPrime: int, day: int)
    requires 0 <= yearOfEra < 400 && 0 <= monthPrime < 12
    requires 1 <= day <= MonthLength(monthPrime) + if monthPrime == 11 then 1 else 0
    requires MonthStart(monthPrime) + day - 1 < YearLength(yearOfEra)
    ensures CivilFromDays(era * 146_097 + YearStart(yearOfEra) + MonthStart(monthPrime) + day - 1 - 719_468)
         == Date(yearOfEra + era * 400 + if monthPrime >= 10 then 1 else 0,
                 monthPrime + if monthPrime < 10 then 3 else -9,
                 day)
  {
    hide YearStart, YearLength, MonthStart, MonthLength, TruncDiv;
    var dayOfYear := MonthStart(monthPrime) + day - 1;
    MonthIsFound(monthPrime, day);
    YearIsFound(yearOfEra, dayOfYear);
    var dayOfEra := YearStart(yearOfEra) + dayOfYear;
    EraIsFound(era, dayOfEra);
    StartsAreQuotients(yearOfEra, monthPrime);
    TruncDivs(dayOfEra);
    Truncated(dayOfEra - dayOfEra / 1_460 + dayOfEra / 36_524 - dayOfEra / 146_096, 365);
    Truncated(5 * dayOfYear + 2, 153);
  }

  // Days-from-civil is a right inverse of the closed form.
  lemma CivilOfDays(date: Date)
    requires IsDate(date)
    ensures CivilFromDays(DaysFromCivil(date)) == date
  {
    hide YearStart, YearLength, MonthStart, MonthLength, IsLeap, DaysInMonth, CivilFromDays;
    MonthsOfDate(date);
    CivilFromParts(MarchYear(date) / 400, MarchYear(date) % 400, MonthPrime(date), date.day);
  }

  lemma Truncated(n: int, d: int)
    requires 0 <= n && 0 < d
    ensures TruncDiv(n, d) == n / d
  {
  }

  lemma TruncDivs(n: int)
    requires 0 <= n
    ensures TruncDiv(n, 1_460) == n / 1_460 && TruncDiv(n, 36_524) == n / 36_524 && TruncDiv(n, 146_096) == n / 146_096
  {
  }

  lemma StartsAreQuotients(yearOfEra: int, monthPrime: int)
    requires 0 <= yearOfEra && 0 <= monthPrime
    ensures YearStart(yearOfEra) == 365 * yearOfEra + TruncDiv(yearOfEra, 4) - TruncDiv(yearOfEra, 100)
    ensures MonthStart(monthPrime) == TruncDiv(153 * monthPrime + 2, 5)
  {
  }

  // ----- stepping -----

  lemma NextDayCounts(date: Date)
    requires IsDate(date)
    ensures IsDate(NextDay(date)) && DaysFromCivil(NextDay(date)) == DaysFromCivil(date) + 1
  {
    hide YearStart, YearLength;
    MonthsOfDate(date);
    if date.month == 2 && date.day == DaysInMonth(date.year, 2) { YearEnds(MarchYear(date)); }
  }

  lemma YearEnds(y: int)
    ensures (y + 1) / 400 * 146_097 + YearStart((y + 1) % 400)
         == y / 400 * 146_097 + YearStart(y % 400) + 365 + if IsLeap(y + 1) then 1 else 0
  {
    LeapByEra(y + 1, y % 400 + 1, y / 400);
    var yearOfEra := y % 400;
    if yearOfEra < 399 {
      assert (y + 1) / 400 == y / 400 && (y + 1) % 400 == yearOfEra + 1;
      YearStartGrows(yearOfEra);
    } else {
      assert (y + 1) / 400 == y / 400 + 1 && (y + 1) % 400 == 0;
    }
  }

  lemma YearStartGrows(y: int)
    requires 0 <= y < 399
    ensures YearStart(y + 1) == YearStart(y) + 365 + if IsLeap(y + 1) then 1 else 0
  {
    assert (y + 1) / 4 == y / 4 + if (y + 1) % 4 == 0 then 1 else 0;
    assert (y + 1) / 100 == y / 100 + if (y + 1) % 100 == 0 then 1 else 0;
  }

  lemma PreviousDayUndoes(date: Date)
    requires IsDate(date)
    ensures IsDate(PreviousDay(date)) && NextDay(PreviousDay(date)) == date
  {
  }

  lemma {:induction false} CountedIsCivil(days: int)
    ensures IsDate(Counted(days)) && DaysFromCivil(Counted(days)) == days
    decreases if days < 0 then -days else days
  {
    if days > 0 {
      CountedIsCivil(days - 1);
      NextDayCounts(Counted(days - 1));
    } else if days < 0 {
      CountedIsCivil(days + 1);
      PreviousDayUndoes(Counted(days + 1));
      NextDayCounts(Counted(days));
    }
  }

  // The closed form is the calendar, and days-from-civil is its inverse.
  lemma ClosedFormCounts(days: int)
    ensures CivilFromDays(days) == Counted(days) && IsDate(CivilFromDays(days)) && DaysFromCivil(CivilFromDays(days)) == days
  {
    CountedIsCivil(days);
    CivilOfDays(Counted(days));
  }

  predicate Earlier(a: Date, b: Date) {
    a.year < b.year || (a.year == b.year && (a.month < b.month || (a.month == b.month && a.day < b.day)))
  }

  lemma {:induction false} DatesAscend(a: int, b: int)
    requires a < b
    ensures Earlier(CivilFromDays(a), CivilFromDays(b))
    decreases b - a
  {
    hide CivilFromDays, DaysFromCivil;
    ClosedFormCounts(b);
    ClosedFormCounts(b - 1);
    CountedSteps(b - 1);
    if a < b - 1 { DatesAscend(a, b - 1); }
  }

  lemma CountedSteps(days: int)
    ensures Counted(days + 1) == NextDay(Counted(days))
  {
    if days < 0 {
      CountedIsCivil(days + 1);
      PreviousDayUndoes(Counted(days + 1));
    }
  }

  // So the closed form is strictly monotone, hence injective.
  lemma MonotoneAndInjective(a: int, b: int)
    ensures a < b <==> Earlier(CivilFromDays(a), CivilFromDays(b))
    ensures a == b <==> CivilFromDays(a) == CivilFromDays(b)
  {
    hide CivilFromDays;
    if a < b { DatesAscend(a, b); }
    if b < a { DatesAscend(b, a); }
  }
}
