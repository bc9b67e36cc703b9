/**
 `iso8601_z`: Unix nanoseconds to a UTC timestamp (the form of section 5.6 of RFC 3339), by the
 days-to-civil algorithm. The reference is the Gregorian calendar itself: leap years, month lengths,
 and the day that follows a date.
 */
module Calendar {
  import opened Prelude

  datatype Date = Date(year: int, month: nat, day: nat)

  // ---------------------------------------------------------------------------------------------
  // The Gregorian calendar

  predicate LeapYear(y: int) {
    y % 4 == 0 && (y % 100 != 0 || y % 400 == 0)
  }

  function MonthLength(y: int, m: nat): nat {
    if m == 2 then (if LeapYear(y) then 29 else 28)
    else if m == 4 || m == 6 || m == 9 || m == 11 then 30
    else 31
  }

  predicate ValidDate(d: Date) {
    1 <= d.month <= 12 && 1 <= d.day <= MonthLength(d.year, d.month)
  }

  function NextDay(d: Date): Date {
    if d.day < MonthLength(d.year, d.month) then d.(day := d.day + 1)
    else if d.month < 12 then Date(d.year, d.month + 1, 1)
    else Date(d.year + 1, 1, 1)
  }

  // ---------------------------------------------------------------------------------------------
  // Days to civil

  /** Year of the 400-year era, counted from March. */
  function YearOfEra(doe: nat): nat {
    (doe - doe / 1460 + doe / 36_524 - doe / 146_096) / 365
  }

  /** First day of a March-based year within its era. */
  function YearStart(yoe: nat): nat {
    365 * yoe + yoe / 4 - yoe / 100
  }

  /** March-based month, 0 to 11, of a day within its year. */
  function MonthOf(doy: nat): nat {
    (5 * doy + 2) / 153
  }

  function MonthStart(mp: nat): nat {
    (153 * mp + 2) / 5
  }

  function CivilOf(era: int, yoe: nat, doy: nat): Date
    requires doy < 366
  {
    var mp := MonthOf(doy);
    var d := doy - MonthStart(mp) + 1;
    var m := if mp < 10 then mp + 3 else mp - 9;
    Date(yoe + era * 400 + (if m <= 2 then 1 else 0), m, d)
  }

  /** Century, four-year cycle and year within the cycle, as the algorithm's divisions find them. */
  lemma YearOfParts(c: nat, q: nat, s: nat) returns (k: nat)
    requires c <= 3 && q <= 24 && s <= 1460 && 1461 * q + s < 36_524
    ensures k == Min(s / 365, 3) && YearOfEra(36_524 * c + 1461 * q + s) == 100 * c + 4 * q + k
  {
    var doe := 36_524 * c + 1461 * q + s;
    var e := (24 * c + q + s) / 1460;
    assert doe / 1460 == 25 * c + q + e;
    assert doe / 36_524 == c;
    assert doe / 146_096 == 0;
    k := (s - e) / 365;
    assert (36_500 * c + 1460 * q + (s - e)) / 365 == 100 * c + 4 * q + k;
  }

  lemma YearStartOfParts(c: nat, q: nat, k: nat)
    requires c <= 3 && q <= 24 && k <= 3
    ensures YearStart(100 * c + 4 * q + k) == 36_524 * c + 1461 * q + 365 * k
    ensures YearStart(100 * c + 4 * q + 4) == if q < 24 then 36_524 * c + 1461 * (q + 1) else 36_524 * (c + 1)
  {
    var y := 100 * c + 4 * q + k;
    assert y / 4 == 25 * c + q && y / 100 == c;
    var z := 100 * c + 4 * q + 4;
    assert z / 4 == 25 * c + q + 1 && z / 100 == if q < 24 then c else c + 1;
  }

  /** The year of the era is the one whose days contain `doe`. */
  lemma YearBounds(doe: nat)
    requires doe < 146_097
    ensures YearOfEra(doe) < 400
    ensures YearStart(YearOfEra(doe)) <= doe
    ensures doe < YearStart(YearOfEra(doe) + 1) || (YearOfEra(doe) == 399 && doe == 146_096)
  {
    if doe == 146_096 {
      assert YearOfEra(doe) == 399;
    } else {
      var c, r := doe / 36_524, doe % 36_524;
      var q, s := r / 1461, r % 1461;
      var k := YearOfParts(c, q, s);
      YearStartOfParts(c, q, k);
      if k < 3 { YearStartOfParts(c, q, k + 1); }
    }
  }

  /** Where the March-based year after `yoe` starts within, or at the end of, the era. */
  function YearEnd(yoe: nat): nat {
    if yoe == 399 then 146_097 else YearStart(yoe + 1)
  }

  lemma StepDiv(n: nat, k: nat)
    requires k == 4 || k == 100
    ensures (n + 1) / k - n / k == if (n + 1) % k == 0 then 1 else 0
  {
  }

  lemma LeapInEra(era: int, n: nat)
    requires n <= 400
    ensures LeapYear(era * 400 + n) <==> (n % 4 == 0 && n % 100 != 0) || n == 400 || n == 0
  {
    var y := era * 400 + n;
    ShiftMod(y, era * 100, n, 4);
    ShiftMod(y, era * 4, n, 100);
    ShiftMod(y, era, n, 400);
  }

  lemma ShiftMod(y: int, k: int, n: int, m: int)
    requires (m == 4 || m == 100 || m == 400) && y == m * k + n
    ensures y % m == n % m
  {
  }

  lemma YearLength(era: int, yoe: nat)
    requires yoe < 400
    ensures YearEnd(yoe) - YearStart(yoe) == if LeapYear(era * 400 + yoe + 1) then 366 else 365
  {
    LeapInEra(era, yoe + 1);
    assert era * 400 + yoe + 1 == era * 400 + (yoe + 1);
    if yoe < 399 {
      StepDiv(yoe, 4);
      StepDiv(yoe, 100);
    }
  }

  lemma {:induction false} YearsAscend(a: nat, b: nat)
    requires a < b <= 400
    ensures YearEnd(a) <= (if b == 400 then 146_097 else YearStart(b))
    decreases b - a
  {
    if a + 1 < b {
      YearsAscend(a + 1, b);
      YearLength(0, a + 1);
    }
  }

  lemma YearUnique(doe: nat, yoe: nat)
    requires doe < 146_097 && yoe < 400 && YearStart(yoe) <= doe < YearEnd(yoe)
    ensures YearOfEra(doe) == yoe
  {
    YearBounds(doe);
    var y := YearOfEra(doe);
    if y < yoe { YearsAscend(y, yoe); }
    if yoe < y { YearsAscend(yoe, y); }
  }

  /** The civil date of day `days` (day 0 is 1970-01-01). */
  function CivilFromDays(days: int): Date {
    var z := days + 719_468;
    var era, doe := z / 146_097, z % 146_097;
    var yoe := YearOfEra(doe);
    YearBounds(doe);
    YearLength(era, yoe);
    CivilOf(era, yoe, doe - YearStart(yoe))
  }

  lemma EpochDay()
    ensures CivilFromDays(0) == Date(1970, 1, 1)
  {
    assert YearStart(369) == 134_774 && YearEnd(369) == 135_139;
    CivilIs(0, 4, 369, 306);
    assert MonthOf(306) == 10 && MonthStart(10) == 306;
    DayInMonth(4, 369, 306, 10);
  }

  lemma MonthTable(doy: nat)
    requires doy < 366
    ensures MonthOf(doy) < 12 && MonthStart(MonthOf(doy)) <= doy
    ensures MonthOf(doy) < 11 ==> doy < MonthStart(MonthOf(doy) + 1)
    ensures doy + 1 < 366 ==>
      MonthOf(doy + 1) == if doy + 1 == MonthStart(MonthOf(doy) + 1) then MonthOf(doy) + 1 else MonthOf(doy)
  {
  }

  lemma MonthLengths(y: int, mp: nat)
    requires mp < 11
    ensures MonthLength(y, if mp < 10 then mp + 3 else mp - 9) == MonthStart(mp + 1) - MonthStart(mp)
  {
    assert mp == 0 || mp == 1 || mp == 2 || mp == 3 || mp == 4 || mp == 5 || mp == 6 || mp == 7
        || mp == 8 || mp == 9 || mp == 10;
  }

  /** The day after, inside one March-based year. */
  lemma NextWithinYear(era: int, yoe: nat, doy: nat)
    requires yoe < 400 && doy + 1 < YearEnd(yoe) - YearStart(yoe) <= 366
    ensures CivilOf(era, yoe, doy + 1) == NextDay(CivilOf(era, yoe, doy))
    ensures ValidDate(CivilOf(era, yoe, doy))
  {
    var mp := MonthOf(doy);
    MonthTable(doy);
    var date := CivilOf(era, yoe, doy);
    if mp < 11 {
      MonthLengths(date.year, mp);
    } else {
      YearLength(era, yoe);
      assert date.month == 2 && date.year == era * 400 + yoe + 1 && MonthStart(11) == 337;
    }
  }

  /** The last day of a March-based year is the last of February; the first of March follows. */
  lemma NextAcrossYears(era: int, yoe: nat, doy: nat)
    requires yoe < 400 && doy + 1 == YearEnd(yoe) - YearStart(yoe) && doy < 366
    ensures ValidDate(CivilOf(era, yoe, doy))
    ensures NextDay(CivilOf(era, yoe, doy)) == Date(era * 400 + yoe + 1, 3, 1)
  {
    YearLength(era, yoe);
    MonthTable(doy);
    assert MonthOf(doy) == 11 && MonthStart(11) == 337;
  }

  /** Era, year of era and day of year of a day count. */
  lemma Parts(days: int) returns (era: int, yoe: nat, doy: nat)
    ensures yoe < 400 && YearStart(yoe) + doy < YearEnd(yoe) && doy < 366
    ensures days + 719_468 == era * 146_097 + YearStart(yoe) + doy
    ensures CivilFromDays(days) == CivilOf(era, yoe, doy)
  {
    var z := days + 719_468;
    var doe := z % 146_097;
    era, yoe := z / 146_097, YearOfEra(doe);
    YearBounds(doe);
    YearLength(era, yoe);
    doy := doe - YearStart(yoe);
  }

  /** Where the next March-based year starts. */
  lemma NextMarch(era: int, yoe: nat) returns (era': int, yoe': nat)
    requires yoe < 400
    ensures yoe' < 400 && YearStart(yoe') < YearEnd(yoe')
    ensures era' * 146_097 + YearStart(yoe') == era * 146_097 + YearEnd(yoe)
    ensures yoe' + era' * 400 == era * 400 + yoe + 1
  {
    if yoe == 399 {
      era', yoe' := era + 1, 0;
      assert YearStart(0) == 0 && YearEnd(0) == 365;
    } else {
      era', yoe' := era, yoe + 1;
      YearLength(era, yoe + 1);
    }
  }

  lemma PartsNext(era: int, yoe: nat, doy: nat) returns (era': int, yoe': nat, doy': nat)
    requires yoe < 400 && YearStart(yoe) + doy < YearEnd(yoe) && doy < 366
    requires YearEnd(yoe) - YearStart(yoe) <= 366
    ensures yoe' < 400 && YearStart(yoe') + doy' < YearEnd(yoe') && doy' < 366
    ensures era' * 146_097 + YearStart(yoe') + doy' == era * 146_097 + YearStart(yoe) + doy + 1
    ensures ValidDate(CivilOf(era, yoe, doy))
    ensures CivilOf(era', yoe', doy') == NextDay(CivilOf(era, yoe, doy))
  {
    if doy + 1 < YearEnd(yoe) - YearStart(yoe) {
      era', yoe', doy' := era, yoe, doy + 1;
      NextWithinYear(era, yoe, doy);
    } else {
      doy' := 0;
      era', yoe' := NextMarch(era, yoe);
      NextAcrossYears(era, yoe, doy);
      FirstOfMarch(era', yoe', doy');
    }
  }

  lemma FirstOfMarch(era: int, yoe: nat, doy: nat)
    requires doy == 0
    ensures CivilOf(era, yoe, doy) == Date(yoe + era * 400, 3, 1)
  {
    assert MonthOf(doy) == 0;
    DayInMonth(era, yoe, doy, 0);
  }

  lemma DayInMonth(era: int, yoe: nat, doy: nat, mp: nat)
    requires doy < 366 && mp == MonthOf(doy)
    ensures CivilOf(era, yoe, doy).day == doy - MonthStart(mp) + 1
  {
  }

  /** Day n + 1 is the calendar successor of day n, for every n, and every date is a valid one. */
  lemma NextDayFollows(days: int)
    ensures ValidDate(CivilFromDays(days))
    ensures CivilFromDays(days + 1) == NextDay(CivilFromDays(days))
  {
    var era, yoe, doy := Parts(days);
    YearLength(era, yoe);
    var era', yoe', doy' := PartsNext(era, yoe, doy);
    CivilIs(days + 1, era', yoe', doy');
  }

  lemma DivUnique(z: int, q: int, r: int)
    requires 0 <= r < 146_097 && z == q * 146_097 + r
    ensures z / 146_097 == q && z % 146_097 == r
  {
  }

  lemma CivilIs(days: int, era: int, yoe: nat, doy: nat)
    requires yoe < 400 && YearStart(yoe) + doy < YearEnd(yoe) && doy < 366
    requires days + 719_468 == era * 146_097 + YearStart(yoe) + doy
    ensures CivilFromDays(days) == CivilOf(era, yoe, doy)
  {
    var z, doe := days + 719_468, YearStart(yoe) + doy;
    if yoe < 399 { YearsAscend(yoe, 400); }
    DivUnique(z, era, doe);
    YearUnique(doe, yoe);
  }
}
