// The civil date of a day number, exact over all days.
module Calendar {
  // Integer division as Rust has it: toward zero.
  function TruncDiv(a: int, b: int): int
    requires b > 0
  {
    if a >= 0 then a / b else -((-a) / b)
  }

  datatype Date = Date(year: int, month: int, day: int)

  // A day as a year that begins on 1 March and a day within it.
  datatype MarchDay = MarchDay(year: int, doy: int)

  // The 400-year era of a day counted from 0000-03-01.
  function EraOf(z: int): int {
    TruncDiv(if z >= 0 then z else z - 146096, 146097)
  }

  // First half of the algorithm: the era, the year of the era and the day of the year.
  function FromDays(z0: int): MarchDay {
    var z := z0 + 719468;
    InEra(EraOf(z), z - EraOf(z) * 146097)
  }

  function InEra(era: int, doe: int): MarchDay {
    var yoe := YearOfEra(doe);
    MarchDay(yoe + era * 400, doe - (365 * yoe + yoe / 4 - yoe / 100))
  }

  // Second half: the month and the day of the month.
  function FromMarch(d: MarchDay): Date {
    var mp := (5 * d.doy + 2) / 153;
    var m := if mp < 10 then mp + 3 else mp - 9;
    Date(if m <= 2 then d.year + 1 else d.year, m, d.doy - (153 * mp + 2) / 5 + 1)
  }

  // The date of the z-th day after 1970-01-01.
  function CivilFromDays(z: int): Date {
    FromMarch(FromDays(z))
  }

  function YearOfEra(doe: int): int {
    (doe - doe / 1460 + doe / 36524 - doe / 146096) / 365
  }

  // ----- the Gregorian calendar -----

  predicate IsLeap(y: int) {
    y % 4 == 0 && (y % 100 != 0 || y % 400 == 0)
  }

  function DaysInMonth(y: int, m: int): int {
    if m == 2 then (if IsLeap(y) then 29 else 28)
    else if m in {4, 6, 9, 11} then 30
    else 31
  }

  predicate ValidDate(d: Date) {
    1 <= d.month <= 12 && 1 <= d.day <= DaysInMonth(d.year, d.month)
  }

  function Tomorrow(d: Date): Date {
    if d.day < DaysInMonth(d.year, d.month) then d.(day := d.day + 1)
    else if d.month < 12 then Date(d.year, d.month + 1, 1)
    else Date(d.year + 1, 1, 1)
  }

  // ----- years beginning in March -----

  // Days from 0000-03-01 to 1 March of a year.
  function MarchStart(y: int): int {
    365 * y + y / 4 - y / 100 + y / 400
  }

  function MarchLength(y: int): int {
    if IsLeap(y + 1) then 366 else 365
  }

  predicate ValidMarch(d: MarchDay) {
    0 <= d.doy < MarchLength(d.year)
  }

  function ToMarch(d: Date): MarchDay {
    var mp := if d.month > 2 then d.month - 3 else d.month + 9;
    MarchDay(if d.month <= 2 then d.year - 1 else d.year, (153 * mp + 2) / 5 + d.day - 1)
  }

  // The inverse: the day number of a date.
  function DaysFromCivil(d: Date): int {
    MarchStart(ToMarch(d).year) + ToMarch(d).doy - 719468
  }

  lemma MarchYearsAbut(y: int)
    ensures MarchStart(y + 1) == MarchStart(y) + MarchLength(y)
  {
    StepBy4(y);
    StepBy100(y);
    StepBy400(y);
    CenturiesAreFourths(y + 1);
    ErasAreCenturies(y + 1);
  }

  lemma CenturiesAreFourths(y: int)
    ensures y % 100 == 0 ==> y % 4 == 0
  {
    RemainderBy4(y % 100, 25 * (y / 100));
  }

  lemma ErasAreCenturies(y: int)
    ensures y % 400 == 0 ==> y % 100 == 0
  {
    RemainderBy100(y % 400, 4 * (y / 400));
  }

  lemma StepBy4(y: int)
    ensures (y + 1) / 4 == y / 4 + if (y + 1) % 4 == 0 then 1 else 0
  {
  }

  lemma StepBy100(y: int)
    ensures (y + 1) / 100 == y / 100 + if (y + 1) % 100 == 0 then 1 else 0
  {
  }

  lemma StepBy400(y: int)
    ensures (y + 1) / 400 == y / 400 + if (y + 1) % 400 == 0 then 1 else 0
  {
  }

  lemma {:induction false} MarchYearsAscend(y: int, z: int)
    requires y <= z
    ensures y < z ==> MarchStart(y) + MarchLength(y) <= MarchStart(z)
    decreases z - y
  {
    if y < z {
      MarchYearsAscend(y, z - 1);
      MarchYearsAbut(z - 1);
    }
  }

  // A day number names at most one day.
  lemma MarchUnique(a: MarchDay, b: MarchDay)
    requires ValidMarch(a) && ValidMarch(b)
    requires MarchStart(a.year) + a.doy == MarchStart(b.year) + b.doy
    ensures a == b
  {
    if a.year < b.year {
      MarchYearsAscend(a.year, b.year);
    } else if b.year < a.year {
      MarchYearsAscend(b.year, a.year);
    }
  }

  // ----- the year-of-era formula -----

  // With the era split into centuries, four-year cycles and years, the formula finds the year.
  lemma YearOfEraExact(c: int, q: int, r: int, doy: int)
    requires 0 <= c <= 3 && 0 <= q <= 24 && 0 <= r <= 3
    requires 0 <= doy <= 365
    requires doy == 365 ==> r == 3 && (q < 24 || c == 3)
    ensures YearOfEra(36524 * c + 1461 * q + 365 * r + doy) == 100 * c + 4 * q + r
  {
    var doe := 36524 * c + 1461 * q + 365 * r + doy;
    var low := 24 * c + q + 365 * r + doy;
    var last := if c == 3 && q == 24 && r == 3 && doy == 365 then 1 else 0;
    var e := if low >= 1460 then 1 else 0;
    assert doe == 1460 * (25 * c + q) + low && 0 <= low < 2 * 1460;
    assert doe / 1460 == 25 * c + q + e;
    assert doe == 36524 * c + (1461 * q + 365 * r + doy);
    assert 0 <= 1461 * q + 365 * r + doy <= 36524;
    assert doe / 36524 == c + last;
    assert doe / 146096 == last;
    assert doe - doe / 1460 + doe / 36524 - doe / 146096 == 365 * (100 * c + 4 * q + r) + (doy - e);
    assert 0 <= doy - e < 365;
  }

  // The split of a day of the era.
  lemma SplitEra(doe: int) returns (c: int, q: int, r: int, doy: int)
    requires 0 <= doe < 146097
    ensures 0 <= c <= 3 && 0 <= q <= 24 && 0 <= r <= 3 && 0 <= doy <= 365
    ensures doy == 365 ==> r == 3 && (q < 24 || c == 3)
    ensures doe == 36524 * c + 1461 * q + 365 * r + doy
  {
    c := if doe / 36524 == 4 then 3 else doe / 36524;
    var doc := doe - 36524 * c;
    q := doc / 1461;
    var doq := doc - 1461 * q;
    r := if doq / 365 == 4 then 3 else doq / 365;
    doy := doq - 365 * r;
  }

  lemma EraBounds(z: int)
    ensures 0 <= z - EraOf(z) * 146097 < 146097
  {
  }

  // The year found is the one the day falls in.
  lemma DayOfEraExact(doe: int)
    requires 0 <= doe < 146097
    ensures var yoe := YearOfEra(doe);
            var doy := doe - (365 * yoe + yoe / 4 - yoe / 100);
            && 0 <= yoe < 400
            && 0 <= doy <= 365
            && (doy == 365 ==> (yoe + 1) % 4 == 0 && ((yoe + 1) % 100 != 0 || yoe == 399))
  {
    var c, q, r, doy := SplitEra(doe);
    YearOfEraExact(c, q, r, doy);
    YearOfEraDays(c, q, r);
  }

  lemma YearOfEraDays(c: int, q: int, r: int)
    requires 0 <= c <= 3 && 0 <= q <= 24 && 0 <= r <= 3
    ensures var yoe := 100 * c + 4 * q + r;
            && 365 * yoe + yoe / 4 - yoe / 100 == 36524 * c + 1461 * q + 365 * r
            && ((yoe + 1) % 4 == 0 <==> r == 3) && (r == 3 ==> ((yoe + 1) % 100 == 0 <==> q == 24))
  {
    var yoe := 100 * c + 4 * q + r;
    assert yoe / 4 == 25 * c + q && yoe / 100 == c;
  }

  lemma PlaceInEra(era: int, doe: int)
    requires 0 <= doe < 146097
    ensures var d := InEra(era, doe); ValidMarch(d) && MarchStart(d.year) + d.doy == era * 146097 + doe
  {
    DayOfEraExact(doe);
    EraShifts(YearOfEra(doe), era);
  }

  lemma FromDaysExact(z0: int)
    ensures ValidMarch(FromDays(z0))
    ensures MarchStart(FromDays(z0).year) + FromDays(z0).doy == z0 + 719468
  {
    var z := z0 + 719468;
    EraBounds(z);
    PlaceInEra(EraOf(z), z - EraOf(z) * 146097);
  }

  lemma EraShifts(yoe: int, era: int)
    requires 0 <= yoe < 400
    ensures MarchStart(yoe + 400 * era) == 365 * yoe + yoe / 4 - yoe / 100 + 146097 * era
    ensures MarchLength(yoe + 400 * era)
         == if (yoe + 1) % 4 == 0 && ((yoe + 1) % 100 != 0 || yoe == 399) then 366 else 365
  {
    QuotientsShift(yoe, era);
    RemaindersShift(yoe, era);
  }

  lemma QuotientsShift(yoe: int, era: int)
    requires 0 <= yoe < 400
    ensures var y := yoe + 400 * era;
            y / 4 == yoe / 4 + 100 * era && y / 100 == yoe / 100 + 4 * era && y / 400 == era
  {
  }

  lemma RemaindersShift(yoe: int, era: int)
    requires 0 <= yoe < 400
    ensures var y := yoe + 400 * era + 1;
            y % 4 == (yoe + 1) % 4 && y % 100 == (yoe + 1) % 100 && (y % 400 == 0 <==> yoe == 399)
  {
    RemainderBy4(yoe + 1, 100 * era);
    RemainderBy100(yoe + 1, 4 * era);
    RemainderBy400(yoe + 1, era);
  }

  lemma RemainderBy4(a: int, k: int)
    ensures (a + 4 * k) % 4 == a % 4
  {
  }

  lemma RemainderBy100(a: int, k: int)
    ensures (a + 100 * k) % 100 == a % 100
  {
  }

  lemma RemainderBy400(a: int, k: int)
    ensures (a + 400 * k) % 400 == a % 400
  {
  }

  // ----- months -----

  lemma FromMarchValid(d: MarchDay)
    requires ValidMarch(d)
    ensures ValidDate(FromMarch(d)) && ToMarch(FromMarch(d)) == d
  {
    var mp := (5 * d.doy + 2) / 153;
    assert 0 <= mp <= 11;
    assert mp == 0 || mp == 1 || mp == 2 || mp == 3 || mp == 4 || mp == 5
        || mp == 6 || mp == 7 || mp == 8 || mp == 9 || mp == 10 || mp == 11;
  }

  lemma ToMarchValid(d: Date)
    requires ValidDate(d)
    ensures ValidMarch(ToMarch(d)) && FromMarch(ToMarch(d)) == d
  {
    assert d.month == 1 || d.month == 2 || d.month == 3 || d.month == 4 || d.month == 5 || d.month == 6
        || d.month == 7 || d.month == 8 || d.month == 9 || d.month == 10 || d.month == 11 || d.month == 12;
  }

  // ----- the theorems -----

  // Every day number, before or after 1970, names a valid Gregorian date whose number it is.
  lemma CivilIsExact(z: int)
    ensures ValidDate(CivilFromDays(z)) && DaysFromCivil(CivilFromDays(z)) == z
  {
    FromDaysExact(z);
    FromMarchValid(FromDays(z));
  }

  // Every valid date is the date of its number, so dates and day numbers correspond one to one.
  lemma DaysFromCivilIsExact(d: Date, z: int)
    requires ValidDate(d) && z == DaysFromCivil(d)
    ensures CivilFromDays(z) == d
  {
    ToMarchValid(d);
    FromDaysExact(z);
    MarchUnique(FromDays(z), ToMarch(d));
  }

  lemma TomorrowIsNext(d: Date)
    requires ValidDate(d)
    ensures ValidDate(Tomorrow(d)) && DaysFromCivil(Tomorrow(d)) == DaysFromCivil(d) + 1
  {
    if d.day < DaysInMonth(d.year, d.month) {
    } else if d.month == 2 {
      MarchYearsAbut(d.year - 1);
      assert ToMarch(Tomorrow(d)) == MarchDay(d.year, 0);
    } else {
      MonthEnds(d);
    }
  }

  lemma MonthEnds(d: Date)
    requires ValidDate(d) && d.month != 2 && d.day == DaysInMonth(d.year, d.month)
    ensures ToMarch(Tomorrow(d)) == ToMarch(d).(doy := ToMarch(d).doy + 1)
  {
    assert d.month == 1 || d.month == 3 || d.month == 4 || d.month == 5 || d.month == 6
        || d.month == 7 || d.month == 8 || d.month == 9 || d.month == 10 || d.month == 11 || d.month == 12;
  }

  // The date of the next day number is the calendar's next day, for every day number.
  lemma CivilFollowsCalendar(z: int)
    ensures CivilFromDays(z + 1) == Tomorrow(CivilFromDays(z))
  {
    CivilIsExact(z);
    TomorrowIsNext(CivilFromDays(z));
    DaysFromCivilIsExact(Tomorrow(CivilFromDays(z)), z + 1);
  }

  lemma EpochIsDayZero()
    ensures CivilFromDays(0) == Date(1970, 1, 1)
  {
    assert DaysFromCivil(Date(1970, 1, 1)) == 0;
    DaysFromCivilIsExact(Date(1970, 1, 1), 0);
  }
}
