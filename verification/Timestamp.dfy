/** The printed timestamp: fixed-width fields, so it reads back exactly and sorts as it counts. */
module Timestamp {
  import opened Prelude
  import opened Calendar

  const NS_PER_SEC := 1_000_000_000
  const SECS_PER_DAY := 86_400

  // ---------------------------------------------------------------------------------------------
  // Fixed-width decimal fields

  function Pow10(w: nat): nat {
    if w == 0 then 1 else 10 * Pow10(w - 1)
  }

  function Fixed(n: nat, w: nat): (s: string)
    ensures |s| == w
  {
    if w == 0 then "" else Fixed(n / 10, w - 1) + ["0123456789"[n % 10]]
  }

  /** `{n:0w}`: zero-padded to the width, longer when the number needs it. */
  function Padded(n: nat, w: nat): string {
    if n < Pow10(w) then Fixed(n, w) else Decimal(n)
  }

  /** A field of the layout: its width and the character behind it. */
  datatype Slot = Slot(width: nat, after: char)

  const LAYOUT := [
    Slot(4, '-'), Slot(2, '-'), Slot(2, 'T'), Slot(2, ':'), Slot(2, ':'), Slot(2, '.'), Slot(9, 'Z')]

  function Render(slots: seq<Slot>, values: seq<nat>): string
    requires |slots| == |values|
    decreases |slots|, |values|
  {
    if slots == [] then ""
    else Padded(values[0], slots[0].width) + [slots[0].after] + Render(slots[1..], values[1..])
  }

  function Read(slots: seq<Slot>, s: string): Option<seq<nat>>
    decreases |slots|, |s|
  {
    if slots == [] then (if s == "" then Some([]) else None)
    else
      var w := slots[0].width;
      if |s| <= w || !AllDigits(s[..w]) || s[w] != slots[0].after then None
      else match Read(slots[1..], s[w + 1..])
        case None => None
        case Some(rest) => Some([DigitsValue(s[..w])] + rest)
  }

  predicate Fits(slots: seq<Slot>, values: seq<nat>) {
    |slots| == |values| && forall i | 0 <= i < |slots| :: values[i] < Pow10(slots[i].width)
  }

  lemma DigitChar(d: nat)
    requires d < 10
    ensures '0' <= "0123456789"[d] <= '9' && "0123456789"[d] as int - '0' as int == d
  {
  }

  lemma {:induction false} FixedReads(n: nat, w: nat)
    requires n < Pow10(w)
    ensures AllDigits(Fixed(n, w)) && DigitsValue(Fixed(n, w)) == n
  {
    if w > 0 {
      FixedReads(n / 10, w - 1);
      DigitChar(n % 10);
      assert Fixed(n, w)[..w - 1] == Fixed(n / 10, w - 1);
    }
  }

  lemma ReadSlot(slots: seq<Slot>, field: string, rest: string)
    requires slots != [] && |field| == slots[0].width && AllDigits(field) && Read(slots[1..], rest).Some?
    ensures Read(slots, field + [slots[0].after] + rest)
         == Some([DigitsValue(field)] + Read(slots[1..], rest).value)
  {
    var s, w := field + [slots[0].after] + rest, slots[0].width;
    assert s[..w] == field;
    assert s[w + 1..] == rest;
  }

  lemma {:induction false} ReadRendered(slots: seq<Slot>, values: seq<nat>)
    requires Fits(slots, values)
    ensures Read(slots, Render(slots, values)) == Some(values)
    decreases |slots|
  {
    if slots != [] {
      FixedReads(values[0], slots[0].width);
      ReadRendered(slots[1..], values[1..]);
      ReadSlot(slots, Fixed(values[0], slots[0].width), Render(slots[1..], values[1..]));
      assert values == [values[0]] + values[1..];
    }
  }

  // ---------------------------------------------------------------------------------------------
  // String order

  predicate Before(a: string, b: string)
    decreases |a|
  {
    b != "" && (a == "" || a[0] < b[0] || (a[0] == b[0] && Before(a[1..], b[1..])))
  }

  predicate Less(a: seq<nat>, b: seq<nat>)
    requires |a| == |b|
  {
    a != [] && (a[0] < b[0] || (a[0] == b[0] && Less(a[1..], b[1..])))
  }

  lemma {:induction false} BeforeConcat(p: string, q: string, x: string, y: string)
    requires |p| == |q|
    ensures Before(p + x, q + y) <==> Before(p, q) || (p == q && Before(x, y))
    decreases |p|
  {
    if p == "" {
      assert p + x == x && q + y == y;
    } else {
      assert (p + x)[1..] == p[1..] + x && (q + y)[1..] == q[1..] + y;
      assert p == q <==> p[0] == q[0] && p[1..] == q[1..];
      BeforeConcat(p[1..], q[1..], x, y);
    }
  }

  lemma {:induction false} FixedOrder(n: nat, m: nat, w: nat)
    requires n < Pow10(w) && m < Pow10(w)
    ensures Before(Fixed(n, w), Fixed(m, w)) <==> n < m
    ensures Fixed(n, w) == Fixed(m, w) <==> n == m
  {
    FixedReads(n, w);
    FixedReads(m, w);
    if w > 0 {
      FixedOrder(n / 10, m / 10, w - 1);
      DigitChar(n % 10);
      DigitChar(m % 10);
      var a, b := ["0123456789"[n % 10]], ["0123456789"[m % 10]];
      BeforeConcat(Fixed(n / 10, w - 1), Fixed(m / 10, w - 1), a, b);
      assert a[1..] == "" && b[1..] == "";
    }
  }

  lemma {:induction false} RenderedOrder(slots: seq<Slot>, a: seq<nat>, b: seq<nat>)
    requires Fits(slots, a) && Fits(slots, b)
    ensures Before(Render(slots, a), Render(slots, b)) <==> Less(a, b)
    decreases |slots|
  {
    if slots != [] {
      var w, c := slots[0].width, [slots[0].after];
      var p, q := Fixed(a[0], w), Fixed(b[0], w);
      var x, y := Render(slots[1..], a[1..]), Render(slots[1..], b[1..]);
      FixedOrder(a[0], b[0], w);
      BeforeConcat(p, q, c + x, c + y);
      BeforeConcat(c, c, x, y);
      assert !Before(c, c) by { assert c[1..] == ""; }
      Assoc(p, c, x);
      Assoc(q, c, y);
      assert forall i | 0 <= i < |slots[1..]| ::
          slots[1..][i] == slots[i + 1] && a[1..][i] == a[i + 1] && b[1..][i] == b[i + 1];
      RenderedOrder(slots[1..], a[1..], b[1..]);
    }
  }

  // ---------------------------------------------------------------------------------------------
  // Counting days back from a date

  function LeapsThrough(y: int): int {
    y / 4 - y / 100 + y / 400
  }

  function DaysBeforeMonth(y: int, m: nat): nat
    requires 1 <= m
  {
    if m == 1 then 0 else DaysBeforeMonth(y, m - 1) + MonthLength(y, m - 1)
  }

  /** Days since 1970-01-01, counted through whole years, whole months and days. */
  function DayNumber(d: Date): int
    requires 1 <= d.month
  {
    365 * (d.year - 1970) + LeapsThrough(d.year - 1) - LeapsThrough(1969) + DaysBeforeMonth(d.year, d.month) + d.day - 1
  }

  lemma MonthSums(y: int)
    ensures DaysBeforeMonth(y, 4) == 62 + MonthLength(y, 2)
    ensures DaysBeforeMonth(y, 8) == DaysBeforeMonth(y, 4) + 122
    ensures DaysBeforeMonth(y, 12) == DaysBeforeMonth(y, 8) + 122
  {
    assert DaysBeforeMonth(y, 2) == 31;
    assert DaysBeforeMonth(y, 3) == 31 + MonthLength(y, 2);
    assert DaysBeforeMonth(y, 6) == DaysBeforeMonth(y, 4) + 61;
    assert DaysBeforeMonth(y, 8) == DaysBeforeMonth(y, 6) + 61;
    assert DaysBeforeMonth(y, 10) == DaysBeforeMonth(y, 8) + 61;
    assert DaysBeforeMonth(y, 12) == DaysBeforeMonth(y, 10) + 61;
  }

  lemma YearSum(y: int)
    ensures DaysBeforeMonth(y, 12) + MonthLength(y, 12) == if LeapYear(y) then 366 else 365
  {
    MonthSums(y);
  }

  lemma DivMod(y: int, k: int, q: int)
    requires k == 4 || k == 100
    requires y == k * q
    ensures y % k == 0
  {
  }

  lemma Multiples(y: int)
    ensures y % 400 == 0 ==> y % 100 == 0
    ensures y % 100 == 0 ==> y % 4 == 0
  {
    if y % 400 == 0 { DivMod(y, 100, 4 * (y / 400)); }
    if y % 100 == 0 { DivMod(y, 4, 25 * (y / 100)); }
  }

  lemma LeapCount(y: int)
    ensures LeapsThrough(y) - LeapsThrough(y - 1) == if LeapYear(y) then 1 else 0
  {
    DivStep(y, 4);
    DivStep(y, 100);
    DivStep(y, 400);
    Multiples(y);
  }

  lemma DivStep(y: int, k: int)
    requires k == 4 || k == 100 || k == 400
    ensures y / k - (y - 1) / k == if y % k == 0 then 1 else 0
  {
  }

  lemma DayNumberNext(d: Date)
    requires ValidDate(d)
    ensures DayNumber(NextDay(d)) == DayNumber(d) + 1
  {
    if d.day == MonthLength(d.year, d.month) && d.month == 12 {
      YearSum(d.year);
      LeapCount(d.year);
    }
  }

  lemma EpochNumber()
    ensures DayNumber(Date(1970, 1, 1)) == 0
  {
  }

  /** Any enumeration of dates that starts at the epoch and proceeds by successors counts days. */
  lemma {:induction false} SuccessorsCount(dates: int -> Date, n: nat)
    requires dates(0) == Date(1970, 1, 1)
    requires forall k: int :: ValidDate(dates(k)) && dates(k + 1) == NextDay(dates(k))
    ensures ValidDate(dates(n)) && DayNumber(dates(n)) == n
  {
    if n == 0 {
      EpochNumber();
    } else {
      SuccessorsCount(dates, n - 1);
      DayNumberNext(dates(n - 1));
      assert dates(n - 1 + 1) == NextDay(dates(n - 1));
    }
  }

  /** Day n of the algorithm is the date whose day number is n. */
  lemma DayNumberOfCivil(n: nat)
    ensures ValidDate(CivilFromDays(n)) && DayNumber(CivilFromDays(n)) == n
  {
    EpochDay();
    forall k: int ensures ValidDate(CivilFromDays(k)) && CivilFromDays(k + 1) == NextDay(CivilFromDays(k)) {
      NextDayFollows(k);
    }
    SuccessorsCount(CivilFromDays, n);
  }

  predicate Earlier(a: Date, b: Date) {
    a.year < b.year || (a.year == b.year && (a.month < b.month || (a.month == b.month && a.day < b.day)))
  }

  lemma {:induction false} SuccessorsAscend(dates: int -> Date, i: int, j: int)
    requires i < j
    requires forall k: int :: ValidDate(dates(k)) && dates(k + 1) == NextDay(dates(k))
    ensures Earlier(dates(i), dates(j))
    decreases j - i
  {
    assert dates(j - 1 + 1) == NextDay(dates(j - 1));
    if i < j - 1 { SuccessorsAscend(dates, i, j - 1); }
  }

  lemma DatesAscend(i: int, j: int)
    requires i < j
    ensures Earlier(CivilFromDays(i), CivilFromDays(j))
  {
    forall k: int ensures ValidDate(CivilFromDays(k)) && CivilFromDays(k + 1) == NextDay(CivilFromDays(k)) {
      NextDayFollows(k);
    }
    SuccessorsAscend(CivilFromDays, i, j);
  }

  lemma YearRange(d: Date, n: nat)
    requires ValidDate(d) && DayNumber(d) == n && d.year >= 1970
    ensures 365 * (d.year - 1970) <= n
  {
    LeapsMonotone(1969, d.year - 1);
    assert DaysBeforeMonth(d.year, d.month) + d.day - 1 >= 0;
  }

  lemma {:induction false} LeapsMonotone(a: int, b: int)
    requires a <= b
    ensures LeapsThrough(a) <= LeapsThrough(b)
    decreases b - a
  {
    if a < b {
      LeapCount(b);
      LeapsMonotone(a, b - 1);
    }
  }

  // ---------------------------------------------------------------------------------------------
  // `iso8601_z`

  datatype Clock = Clock(days: nat, ofDay: nat, nanos: nat)

  function Split(ns: nat): (c: Clock)
    ensures c.ofDay < SECS_PER_DAY && c.nanos < NS_PER_SEC
    ensures ns == (c.days * SECS_PER_DAY + c.ofDay) * NS_PER_SEC + c.nanos
  {
    var secs := ns / NS_PER_SEC;
    Clock(secs / SECS_PER_DAY, secs % SECS_PER_DAY, ns % NS_PER_SEC)
  }

  function Values(date: Date, ofDay: nat, nanos: nat): (v: seq<nat>)
    requires date.year >= 0
    ensures |v| == 7
  {
    [date.year, date.month, date.day, ofDay / 3600, ofDay % 3600 / 60, ofDay % 60, nanos]
  }

  lemma DateInRange(ns: nat)
    requires ns < U64_LIMIT
    ensures var date := CivilFromDays(Split(ns).days);
            ValidDate(date) && DayNumber(date) == Split(ns).days && 1970 <= date.year < 10_000
  {
    var days := Split(ns).days;
    DayNumberOfCivil(days);
    YearFrom1970(days);
    YearRange(CivilFromDays(days), days);
  }

  lemma YearFrom1970(days: nat)
    ensures CivilFromDays(days).year >= 1970
  {
    EpochDay();
    if days > 0 { DatesAscend(0, days); }
  }

  /** The timestamp of a u64 nanosecond count. */
  function Iso8601Z(ns: nat): string
    requires ns < U64_LIMIT
  {
    var c := Split(ns);
    DateInRange(ns);
    Render(LAYOUT, Values(CivilFromDays(c.days), c.ofDay, c.nanos))
  }

  lemma LayoutWidths()
    ensures Pow10(4) == 10_000 && Pow10(2) == 100 && Pow10(9) == NS_PER_SEC
  {
    assert Pow10(3) == 1_000;
    assert Pow10(6) == 1_000_000;
  }

  lemma ValuesFit(date: Date, ofDay: nat, nanos: nat)
    requires ValidDate(date) && 0 <= date.year < 10_000 && ofDay < SECS_PER_DAY && nanos < NS_PER_SEC
    ensures Fits(LAYOUT, Values(date, ofDay, nanos))
  {
    LayoutWidths();
  }

  /** Reads a timestamp of this layout back to nanoseconds, counting days through the calendar. */
  function Parse(s: string): Option<int> {
    match Read(LAYOUT, s)
    case None => None
    case Some(v) =>
      if |v| != 7 || v[1] < 1 then None
      else
        var days := DayNumber(Date(v[0], v[1], v[2]));
        Some((((days * 24 + v[3]) * 60 + v[4]) * 60 + v[5]) * 1_000_000_000 + v[6])
  }

  lemma ClockValue(ofDay: nat)
    ensures ofDay / 3600 * 3600 + ofDay % 3600 / 60 * 60 + ofDay % 60 == ofDay
  {
    assert ofDay % 3600 % 60 == ofDay % 60;
  }

  lemma ValuesReadBack(date: Date, ofDay: nat, nanos: nat, s: string)
    requires date.year >= 0 && date.month >= 1
    requires Read(LAYOUT, s) == Some(Values(date, ofDay, nanos))
    ensures Parse(s) == Some((DayNumber(date) * SECS_PER_DAY + ofDay) * NS_PER_SEC + nanos)
  {
    ClockValue(ofDay);
    assert date == Date(date.year, date.month, date.day);
  }

  lemma RenderedReadsBack(date: Date, ofDay: nat, nanos: nat, s: string)
    requires ValidDate(date) && 0 <= date.year < 10_000 && ofDay < SECS_PER_DAY && nanos < NS_PER_SEC
    requires s == Render(LAYOUT, Values(date, ofDay, nanos))
    ensures Parse(s) == Some((DayNumber(date) * SECS_PER_DAY + ofDay) * NS_PER_SEC + nanos)
  {
    ValuesFit(date, ofDay, nanos);
    ReadRendered(LAYOUT, Values(date, ofDay, nanos));
    ValuesReadBack(date, ofDay, nanos, s);
  }

  /** Every u64 nanosecond count is printed so that it reads back unchanged. */
  lemma TimestampRoundTrip(ns: nat)
    requires ns < U64_LIMIT
    ensures Parse(Iso8601Z(ns)) == Some(ns)
  {
    var c := Split(ns);
    DateInRange(ns);
    assert ns == (c.days * SECS_PER_DAY + c.ofDay) * NS_PER_SEC + c.nanos;
    RenderedReadsBack(CivilFromDays(c.days), c.ofDay, c.nanos, Iso8601Z(ns));
  }

  lemma RenderHead(slots: seq<Slot>, values: seq<nat>)
    requires slots != [] && Fits(slots, values)
    ensures Render(slots, values)
         == Fixed(values[0], slots[0].width) + ([slots[0].after] + Render(slots[1..], values[1..]))
    ensures Fits(slots[1..], values[1..])
  {
    Assoc(Fixed(values[0], slots[0].width), [slots[0].after], Render(slots[1..], values[1..]));
  }

  /** Two fields of a printed form and what follows them. */
  lemma RenderTwo(slots: seq<Slot>, values: seq<nat>)
    requires |slots| >= 2 && Fits(slots, values)
    ensures Render(slots, values)
         == Fixed(values[0], slots[0].width) + ([slots[0].after]
              + (Fixed(values[1], slots[1].width) + ([slots[1].after] + Render(slots[2..], values[2..]))))
    ensures Fits(slots[2..], values[2..])
  {
    RenderHead(slots, values);
    RenderHead(slots[1..], values[1..]);
    assert slots[1..][1..] == slots[2..] && values[1..][1..] == values[2..];
  }

  function DateText(year: nat, month: nat, day: nat, rest: string): string {
    Fixed(year, 4) + ("-" + (Fixed(month, 2) + ("-" + (Fixed(day, 2) + ("T" + rest)))))
  }

  function TimeText(hour: nat, minute: nat, second: nat, nanos: nat): string {
    Fixed(hour, 2) + (":" + (Fixed(minute, 2) + (":" + (Fixed(second, 2) + ("." + (Fixed(nanos, 9) + "Z"))))))
  }

  lemma RenderDate(v: seq<nat>)
    requires |v| == 7 && Fits(LAYOUT, v)
    ensures Render(LAYOUT, v) == DateText(v[0], v[1], v[2], Render(LAYOUT[3..], v[3..]))
    ensures Fits(LAYOUT[3..], v[3..])
  {
    RenderTwo(LAYOUT, v);
    RenderHead(LAYOUT[2..], v[2..]);
    assert LAYOUT[2..][1..] == LAYOUT[3..] && v[2..][1..] == v[3..];
  }

  lemma RenderTime(v: seq<nat>)
    requires |v| == 4 && Fits(LAYOUT[3..], v)
    ensures Render(LAYOUT[3..], v) == TimeText(v[0], v[1], v[2], v[3])
  {
    RenderTwo(LAYOUT[3..], v);
    assert LAYOUT[3..][2..] == LAYOUT[5..];
    RenderSeconds(v[2..]);
  }

  lemma RenderSeconds(v: seq<nat>)
    requires |v| == 2 && Fits(LAYOUT[5..], v)
    ensures Render(LAYOUT[5..], v) == Fixed(v[0], 2) + ("." + (Fixed(v[1], 9) + "Z"))
  {
    RenderTwo(LAYOUT[5..], v);
    assert LAYOUT[5..][2..] == [] && v[2..] == [];
    assert Render([], []) == "" && "Z" + "" == "Z";
  }

  /**
   The printed form spelled out: `yyyy-mm-ddThh:mm:ss.nnnnnnnnnZ`, with the calendar date of the day
   and the hour, minute, second and nanosecond that make up the count.
   */
  lemma PrintedForm(ns: nat) returns (date: Date, hour: nat, minute: nat, second: nat, nanos: nat)
    requires ns < U64_LIMIT
    ensures ValidDate(date) && 1970 <= date.year < 10_000
    ensures hour < 24 && minute < 60 && second < 60 && nanos < 1_000_000_000
    ensures ns == (((DayNumber(date) * 24 + hour) * 60 + minute) * 60 + second) * 1_000_000_000 + nanos
    ensures Iso8601Z(ns) == DateText(date.year, date.month, date.day, TimeText(hour, minute, second, nanos))
  {
    var c := Split(ns);
    DateInRange(ns);
    date, nanos := CivilFromDays(c.days), c.nanos;
    hour, minute, second := c.ofDay / 3600, c.ofDay % 3600 / 60, c.ofDay % 60;
    ClockValue(c.ofDay);
    ValuesFit(date, c.ofDay, nanos);
    var v := Values(date, c.ofDay, nanos);
    RenderDate(v);
    RenderTime(v[3..]);
  }

  /** Its 30 characters have the punctuation in these places. */
  lemma PrintedPunctuation(ns: nat)
    requires ns < U64_LIMIT
    ensures var s := Iso8601Z(ns);
            && |s| == 30 && s[4] == '-' && s[7] == '-' && s[10] == 'T' && s[13] == ':' && s[16] == ':'
            && s[19] == '.' && s[29] == 'Z'
  {
    var date, hour, minute, second, nanos := PrintedForm(ns);
    TextPunctuation(date.year, date.month, date.day, hour, minute, second, nanos);
  }

  lemma TextPunctuation(year: nat, month: nat, day: nat, hour: nat, minute: nat, second: nat, nanos: nat)
    ensures var s := DateText(year, month, day, TimeText(hour, minute, second, nanos));
            && |s| == 30 && s[4] == '-' && s[7] == '-' && s[10] == 'T' && s[13] == ':' && s[16] == ':'
            && s[19] == '.' && s[29] == 'Z'
  {
    var t := TimeText(hour, minute, second, nanos);
    assert |t| == 19 && t[2] == ':' && t[5] == ':' && t[8] == '.' && t[18] == 'Z';
    DatePunctuation(year, month, day, t);
  }

  lemma DatePunctuation(year: nat, month: nat, day: nat, t: string)
    ensures var s := DateText(year, month, day, t);
            && |s| == 11 + |t| && s[4] == '-' && s[7] == '-' && s[10] == 'T'
            && forall k | 0 <= k < |t| :: s[11 + k] == t[k]
  {
  }

  lemma {:induction false} LessAt(v: seq<nat>, w: seq<nat>, k: nat)
    requires |v| == |w| && k < |v| && v[k] < w[k] && forall i | 0 <= i < k :: v[i] == w[i]
    ensures Less(v, w) && !Less(w, v)
    decreases k
  {
    if k > 0 { LessAt(v[1..], w[1..], k - 1); }
  }

  lemma ClockOrder(x: nat, y: nat)
    requires x < y
    ensures x / 3600 <= y / 3600
    ensures x / 3600 == y / 3600 ==> x % 3600 / 60 <= y % 3600 / 60
    ensures x / 3600 == y / 3600 && x % 3600 / 60 == y % 3600 / 60 ==> x % 60 < y % 60
  {
    ClockValue(x);
    ClockValue(y);
  }

  lemma ValuesOrder(a: Date, x: nat, m: nat, b: Date, y: nat, n: nat)
    requires a.year >= 0 && b.year >= 0
    requires Earlier(a, b) || (a == b && (x < y || (x == y && m < n)))
    ensures Less(Values(a, x, m), Values(b, y, n)) && !Less(Values(b, y, n), Values(a, x, m))
  {
    if a == b && x < y { ClockOrder(x, y); }
    var k :=
      if a.year < b.year then 0
      else if a.month < b.month then 1
      else if a.day < b.day then 2
      else if x / 3600 < y / 3600 then 3
      else if x % 3600 / 60 < y % 3600 / 60 then 4
      else if x < y then 5
      else 6;
    LessAt(Values(a, x, m), Values(b, y, n), k);
  }

  lemma SplitOrder(a: nat, b: nat)
    requires a < b
    ensures var c, d := Split(a), Split(b);
            c.days < d.days || (c.days == d.days && (c.ofDay < d.ofDay || (c.ofDay == d.ofDay && c.nanos < d.nanos)))
  {
  }

  lemma PrintedBefore(a: nat, b: nat)
    requires a < b < U64_LIMIT
    ensures Before(Iso8601Z(a), Iso8601Z(b)) && !Before(Iso8601Z(b), Iso8601Z(a))
  {
    var c, d := Split(a), Split(b);
    var p, q := CivilFromDays(c.days), CivilFromDays(d.days);
    DateInRange(a);
    DateInRange(b);
    SplitOrder(a, b);
    if c.days < d.days { DatesAscend(c.days, d.days); }
    ValuesFit(p, c.ofDay, c.nanos);
    ValuesFit(q, d.ofDay, d.nanos);
    var v, w := Values(p, c.ofDay, c.nanos), Values(q, d.ofDay, d.nanos);
    ValuesOrder(p, c.ofDay, c.nanos, q, d.ofDay, d.nanos);
    RenderedOrder(LAYOUT, v, w);
    RenderedOrder(LAYOUT, w, v);
  }

  /** String order of timestamps is the numeric order of the instants. */
  lemma TimestampOrder(a: nat, b: nat)
    requires a < U64_LIMIT && b < U64_LIMIT
    ensures Before(Iso8601Z(a), Iso8601Z(b)) <==> a < b
  {
    if a < b { PrintedBefore(a, b); }
    if b < a { PrintedBefore(b, a); }
    NeverBeforeItself(Iso8601Z(a));
  }

  lemma {:induction false} NeverBeforeItself(s: string)
    ensures !Before(s, s)
    decreases |s|
  {
    if s != "" { NeverBeforeItself(s[1..]); }
  }
}
