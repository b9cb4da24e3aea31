/** The proleptic Gregorian calendar of Python's datetime.date. */
module Calendar {
  import opened Common

  const MIN_YEAR := 1
  const MAX_YEAR := 9999
  const MAX_ORDINAL := 3652059

  datatype Date = Date(year: int, month: int, day: int) {
    predicate Valid() {
      MIN_YEAR <= year <= MAX_YEAR && 1 <= month <= 12 && 1 <= day <= DaysInMonth(year, month)
    }
  }

  const MAX_DATE := Date(MAX_YEAR, 12, 31)

  predicate Leap(year: int) {
    year % 4 == 0 && (year % 100 != 0 || year % 400 == 0)
  }

  function DaysInMonth(year: int, month: int): (n: int)
    ensures 28 <= n <= 31
  {
    if month == 2 then (if Leap(year) then 29 else 28)
    else if month == 4 || month == 6 || month == 9 || month == 11 then 30
    else 31
  }

  /** Thirty days have April, June, September and November; February has 29 in leap years and 28 in others. */
  lemma MonthLengths(year: int)
    ensures DaysInMonth(year, 1) == 31 && DaysInMonth(year, 3) == 31 && DaysInMonth(year, 4) == 30
    ensures DaysInMonth(year, 5) == 31 && DaysInMonth(year, 6) == 30 && DaysInMonth(year, 7) == 31
    ensures DaysInMonth(year, 8) == 31 && DaysInMonth(year, 9) == 30 && DaysInMonth(year, 10) == 31
    ensures DaysInMonth(year, 11) == 30 && DaysInMonth(year, 12) == 31
    ensures DaysInMonth(year, 2) == if (year % 4 == 0 && year % 100 != 0) || year % 400 == 0 then 29 else 28
  {
    FourCenturyStep(year);
    CenturyStep(year);
  }

  function DaysBeforeYear(year: int): int {
    var y := year - 1;
    365 * y + y / 4 - y / 100 + y / 400
  }

  function DaysBeforeMonth(year: int, month: nat): int {
    if month <= 1 then 0 else DaysBeforeMonth(year, month - 1) + DaysInMonth(year, month - 1)
  }

  function ToOrdinal(d: Date): int
    requires d.Valid()
  {
    DaysBeforeYear(d.year) + DaysBeforeMonth(d.year, d.month) + d.day
  }

  predicate DateLe(a: Date, b: Date) {
    a.year < b.year || (a.year == b.year && (a.month < b.month || (a.month == b.month && a.day <= b.day)))
  }

  lemma YearLength(year: int)
    ensures DaysBeforeYear(year + 1) == DaysBeforeYear(year) + (if Leap(year) then 366 else 365)
  {
    QuarterStep(year);
    CenturyStep(year);
    FourCenturyStep(year);
  }

  lemma QuarterStep(year: int)
    ensures year / 4 - (year - 1) / 4 == if year % 4 == 0 then 1 else 0
  {
  }

  lemma CenturyStep(year: int)
    ensures year / 100 - (year - 1) / 100 == if year % 100 == 0 then 1 else 0
    ensures year % 100 == 0 ==> year % 4 == 0
  {
    if year % 100 == 0 {
      assert year == 4 * (25 * (year / 100));
    }
  }

  lemma FourCenturyStep(year: int)
    ensures year / 400 - (year - 1) / 400 == if year % 400 == 0 then 1 else 0
    ensures year % 400 == 0 ==> year % 100 == 0
  {
    if year % 400 == 0 {
      assert year == 100 * (4 * (year / 400));
    }
  }

  lemma MonthsFillYear(year: int)
    ensures DaysBeforeMonth(year, 12) + 31 == if Leap(year) then 366 else 365
  {
    hide Leap;
    assert DaysBeforeMonth(year, 2) == 31;
    assert DaysBeforeMonth(year, 3) == 31 + DaysInMonth(year, 2);
    assert DaysBeforeMonth(year, 4) == DaysBeforeMonth(year, 3) + 31;
    assert DaysBeforeMonth(year, 5) == DaysBeforeMonth(year, 4) + 30;
    assert DaysBeforeMonth(year, 6) == DaysBeforeMonth(year, 5) + 31;
    assert DaysBeforeMonth(year, 7) == DaysBeforeMonth(year, 6) + 30;
    assert DaysBeforeMonth(year, 8) == DaysBeforeMonth(year, 7) + 31;
    assert DaysBeforeMonth(year, 9) == DaysBeforeMonth(year, 8) + 31;
    assert DaysBeforeMonth(year, 10) == DaysBeforeMonth(year, 9) + 30;
    assert DaysBeforeMonth(year, 11) == DaysBeforeMonth(year, 10) + 31;
  }

  lemma {:induction false} MonthsMonotone(year: int, m: nat, n: nat)
    requires 1 <= m < n
    ensures DaysBeforeMonth(year, m) + DaysInMonth(year, m) <= DaysBeforeMonth(year, n)
  {
    if m + 1 < n {
      MonthsMonotone(year, m, n - 1);
    }
  }

  lemma {:induction false} YearsMonotone(m: int, n: int)
    requires m < n
    ensures DaysBeforeYear(m + 1) <= DaysBeforeYear(n)
    decreases n - m
  {
    if m + 1 < n {
      YearLength(n - 1);
      YearsMonotone(m, n - 1);
    }
  }

  /** Date comparison is comparison of ordinals, so ordinals identify dates. */
  lemma OrdinalOrder(a: Date, b: Date)
    requires a.Valid() && b.Valid()
    ensures DateLe(a, b) <==> ToOrdinal(a) <= ToOrdinal(b)
    ensures a == b <==> ToOrdinal(a) == ToOrdinal(b)
  {
    hide ToOrdinal, DaysInMonth, Leap;
    if a != b {
      if DateLe(a, b) {
        OrdinalStrict(a, b);
      } else {
        OrdinalStrict(b, a);
      }
    }
  }

  lemma OrdinalStrict(a: Date, b: Date)
    requires a.Valid() && b.Valid() && DateLe(a, b) && a != b
    ensures ToOrdinal(a) < ToOrdinal(b)
  {
    if a.year < b.year {
      DayWithinYear(a);
      DayWithinYear(b);
      YearLength(a.year);
      YearsMonotone(a.year, b.year);
    } else if a.month < b.month {
      MonthsMonotone(a.year, a.month, b.month);
    }
  }

  lemma DayWithinYear(d: Date)
    requires d.Valid()
    ensures DaysBeforeYear(d.year) < ToOrdinal(d) <= DaysBeforeYear(d.year + 1)
  {
    YearLength(d.year);
    MonthsFillYear(d.year);
    if d.month < 12 {
      MonthsMonotone(d.year, d.month, 12);
    }
    if 1 < d.month {
      MonthsMonotone(d.year, 1, d.month);
    }
  }

  function NextDay(d: Date): (e: Date)
    requires d.Valid() && d != MAX_DATE
    ensures e.Valid()
  {
    if d.day < DaysInMonth(d.year, d.month) then d.(day := d.day + 1)
    else if d.month < 12 then Date(d.year, d.month + 1, 1)
    else Date(d.year + 1, 1, 1)
  }

  lemma NextDayOrdinal(d: Date)
    requires d.Valid() && d != MAX_DATE
    ensures ToOrdinal(NextDay(d)) == ToOrdinal(d) + 1
  {
    YearLength(d.year);
    MonthsFillYear(d.year);
  }

  lemma LastOrdinal()
    ensures MAX_DATE.Valid() && ToOrdinal(MAX_DATE) == MAX_ORDINAL
    ensures Date(1, 1, 1).Valid() && ToOrdinal(Date(1, 1, 1)) == 1
  {
    MonthsFillYear(MAX_YEAR);
  }

  lemma OrdinalRange(d: Date)
    requires d.Valid()
    ensures 1 <= ToOrdinal(d) <= MAX_ORDINAL
    ensures ToOrdinal(d) == MAX_ORDINAL <==> d == MAX_DATE
  {
    LastOrdinal();
    hide ToOrdinal;
    OrdinalOrder(d, MAX_DATE);
    OrdinalOrder(Date(1, 1, 1), d);
  }

  /** date.fromordinal: the inverse of ToOrdinal, undefined outside years 1..9999. */
  function FromOrdinal(n: int): (d: Date)
    requires 1 <= n <= MAX_ORDINAL
    ensures d.Valid() && ToOrdinal(d) == n
  {
    if n == 1 then Date(1, 1, 1)
    else
      var previous := FromOrdinal(n - 1);
      assert previous != MAX_DATE by { OrdinalRange(previous); }
      NextDayOrdinal(previous);
      NextDay(previous)
  }
}

/** BackfillPlan's partitions: the calendar tiling and the coverage validator. */
module BackfillPlanning {
  import opened Common
  import opened Calendar
  import opened Text

  datatype Granularity = Yearly | Monthly

  datatype Partition = Partition(key: string, start: Date, end: Date) {
    predicate Valid() {
      start.Valid() && end.Valid() && DateLe(start, end)
    }

    predicate Covers(day: int)
      requires Valid()
    {
      ToOrdinal(start) <= day <= ToOrdinal(end)
    }
  }

  function Pad2(n: nat): (s: string)
    requires n < 100
    ensures |s| == 2
  {
    [Digit(n / 10), Digit(n % 10)]
  }

  function Pad4(n: nat): (s: string)
    requires n < 10000
    ensures |s| == 4
  {
    Pad2(n / 100) + Pad2(n % 100)
  }

  /** The calendar period a date falls in, as a number that grows with time. */
  function Period(g: Granularity, d: Date): int {
    if g.Yearly? then d.year else 12 * d.year + (d.month - 1)
  }

  function KeyOf(g: Granularity, d: Date): string
    requires d.Valid()
  {
    if g.Yearly? then Pad4(d.year) else Pad4(d.year) + "-" + Pad2(d.month)
  }

  function Boundary(g: Granularity, d: Date): (e: Date)
    requires d.Valid()
    ensures e.Valid() && DateLe(d, e) && Period(g, e) == Period(g, d)
  {
    if g.Yearly? then Date(d.year, 12, 31)
    else Date(d.year, d.month, DaysInMonth(d.year, d.month))
  }

  /** A key is the year in four digits, and for months a hyphen and the month in two. */
  lemma KeyText(g: Granularity, d: Date)
    requires d.Valid()
    ensures var k := KeyOf(g, d);
            && |k| == (if g.Yearly? then 4 else 7) && (g.Monthly? ==> k[4] == '-')
            && (forall i :: 0 <= i < 4 ==> IsDigit(k[i])) && ParseDecimal(k[..4]) == d.year
            && (g.Monthly? ==> (forall i :: 5 <= i < 7 ==> IsDigit(k[i])) && ParseDecimal(k[5..]) == d.month)
  {
    hide ParseDecimal;
    var k := KeyOf(g, d);
    assert k[..4] == Pad4(d.year);
    Pad2Reads(d.year / 100);
    Pad4Reads(d.year);
    if g.Monthly? {
      assert k[5..] == Pad2(d.month);
      Pad2Reads(d.month);
    }
  }

  lemma TwoDigits(a: char, b: char)
    requires IsDigit(a) && IsDigit(b)
    ensures ParseDecimal([a, b]) == 10 * DigitValue(a) + DigitValue(b)
  {
    assert [a, b][..1] == [a] && [a][..0] == [];
    assert ParseDecimal([a]) == DigitValue(a);
  }

  lemma Pad2Reads(n: nat)
    requires n < 100
    ensures (forall c :: c in Pad2(n) ==> IsDigit(c)) && ParseDecimal(Pad2(n)) == n
  {
    TwoDigits(Digit(n / 10), Digit(n % 10));
    DigitReads(n / 10);
    DigitReads(n % 10);
  }

  lemma DigitReads(n: nat)
    requires n < 10
    ensures IsDigit(Digit(n)) && DigitValue(Digit(n)) == n
  {
  }

  lemma Pad4Reads(n: nat)
    requires n < 10000
    ensures (forall c :: c in Pad4(n) ==> IsDigit(c)) && ParseDecimal(Pad4(n)) == n
  {
    var a, b := Pad2(n / 100), Pad2(n % 100);
    Pad2Reads(n / 100);
    Pad2Reads(n % 100);
    var s := Pad4(n);
    assert s[..3] == a + [b[0]] && s[..3][..2] == a && s[..2] == a;
    assert b == [b[0], b[1]];
    TwoDigits(b[0], b[1]);
    assert ParseDecimal(s[..3]) == 10 * ParseDecimal(a) + DigitValue(b[0]);
    assert ParseDecimal(s) == 10 * ParseDecimal(s[..3]) + DigitValue(s[3]);
  }

  lemma DigitInjective(m: nat, n: nat)
    requires m < 10 && n < 10 && Digit(m) == Digit(n)
    ensures m == n
  {
  }

  lemma Pad2Injective(m: nat, n: nat)
    requires m < 100 && n < 100 && Pad2(m) == Pad2(n)
    ensures m == n
  {
    assert Pad2(m)[0] == Pad2(n)[0] && Pad2(m)[1] == Pad2(n)[1];
    DigitInjective(m / 10, n / 10);
    DigitInjective(m % 10, n % 10);
  }

  lemma Pad4Injective(m: nat, n: nat)
    requires m < 10000 && n < 10000 && Pad4(m) == Pad4(n)
    ensures m == n
  {
    assert Pad2(m / 100) == Pad4(m)[..2] == Pad4(n)[..2] == Pad2(n / 100);
    assert Pad2(m % 100) == Pad4(m)[2..] == Pad4(n)[2..] == Pad2(n % 100);
    Pad2Injective(m / 100, n / 100);
    Pad2Injective(m % 100, n % 100);
  }

  /** Two dates share a partition key exactly when they share a calendar period. */
  lemma KeyIdentifiesPeriod(g: Granularity, a: Date, b: Date)
    requires a.Valid() && b.Valid()
    ensures KeyOf(g, a) == KeyOf(g, b) <==> Period(g, a) == Period(g, b)
  {
    hide Pad2, Pad4;
    if KeyOf(g, a) == KeyOf(g, b) {
      assert Pad4(a.year) == KeyOf(g, a)[..4] == KeyOf(g, b)[..4] == Pad4(b.year);
      Pad4Injective(a.year, b.year);
      if g.Monthly? {
        assert Pad2(a.month) == KeyOf(g, a)[5..] == KeyOf(g, b)[5..] == Pad2(b.month);
        Pad2Injective(a.month, b.month);
      }
    }
  }

  /** Consecutive pieces, each inside one period, in strictly increasing periods. */
  ghost predicate Chain(parts: seq<Partition>, g: Granularity) {
    && (forall i :: 0 <= i < |parts| ==> parts[i].Valid())
    && (forall i :: 0 <= i < |parts| ==>
          parts[i].key == KeyOf(g, parts[i].start) && Period(g, parts[i].start) == Period(g, parts[i].end))
    && (forall i :: 0 <= i < |parts| - 1 ==>
          && ToOrdinal(parts[i + 1].start) == ToOrdinal(parts[i].end) + 1
          && Period(g, parts[i].end) < Period(g, parts[i + 1].start))
  }

  /** The specification of the tiling: empty for an empty interval, else a chain from start to end. */
  ghost predicate Tiles(parts: seq<Partition>, start: Date, end: Date, g: Granularity) {
    && Chain(parts, g)
    && (parts == [] <==> !DateLe(start, end))
    && (parts != [] ==> parts[0].start == start && parts[|parts| - 1].end == end)
  }

  datatype PlanError = DateOutOfRange

  /** The day after a period's last day opens a later period. */
  lemma PeriodAfterBoundary(g: Granularity, d: Date, next: Date)
    requires d.Valid() && next.Valid()
    requires ToOrdinal(next) == ToOrdinal(Boundary(g, d)) + 1
    ensures Period(g, d) < Period(g, next)
  {
    hide ToOrdinal, DaysInMonth, Leap;
    var e := Boundary(g, d);
    OrdinalRange(next);
    OrdinalRange(e);
    NextDayOrdinal(e);
    OrdinalOrder(next, NextDay(e));
  }

  /** The loop's progress: the pieces laid so far end on the day before the cursor. */
  ghost predicate Laid(parts: seq<Partition>, cursor: Date, start: Date, end: Date, g: Granularity) {
    && cursor.Valid() && Chain(parts, g)
    && (parts == [] ==> cursor == start)
    && (parts != [] ==>
          && parts[0].start == start && DateLe(start, end)
          && ToOrdinal(cursor) == ToOrdinal(parts[|parts| - 1].end) + 1
          && DateLe(parts[|parts| - 1].end, end)
          && (DateLe(cursor, end) ==> Period(g, parts[|parts| - 1].end) < Period(g, cursor)))
  }

  function PieceAt(cursor: Date, end: Date, g: Granularity): (p: Partition)
    requires cursor.Valid() && end.Valid() && DateLe(cursor, end)
    ensures p.Valid() && p.start == cursor && p.key == KeyOf(g, cursor)
    ensures DateLe(p.end, end) && Period(g, p.end) == Period(g, cursor)
    ensures p.end == end || p.end == Boundary(g, cursor)
  {
    var boundary := Boundary(g, cursor);
    Partition(KeyOf(g, cursor), cursor, if DateLe(boundary, end) then boundary else end)
  }

  lemma LayPiece(parts: seq<Partition>, cursor: Date, next: Date, start: Date, end: Date, g: Granularity)
    requires start.Valid() && end.Valid() && next.Valid()
    requires Laid(parts, cursor, start, end, g) && DateLe(cursor, end)
    requires ToOrdinal(next) == ToOrdinal(PieceAt(cursor, end, g).end) + 1
    ensures Laid(parts + [PieceAt(cursor, end, g)], next, start, end, g)
  {
    hide ToOrdinal, DaysInMonth, Leap, Period, KeyOf, Boundary, PieceAt;
    var p := PieceAt(cursor, end, g);
    OrdinalOrder(next, end);
    OrdinalOrder(p.end, end);
    if DateLe(next, end) {
      PeriodAfterBoundary(g, cursor, next);
    }
    if parts == [] {
      assert (parts + [p])[0] == p;
    }
  }

  lemma LaidOut(parts: seq<Partition>, cursor: Date, start: Date, end: Date, g: Granularity)
    requires start.Valid() && end.Valid()
    requires Laid(parts, cursor, start, end, g) && !DateLe(cursor, end)
    ensures Tiles(parts, start, end, g)
    ensures parts != [] ==> end != MAX_DATE
  {
    hide ToOrdinal, DaysInMonth, Leap, Period, KeyOf;
    if parts != [] {
      var last := parts[|parts| - 1].end;
      OrdinalOrder(cursor, end);
      OrdinalOrder(last, end);
      OrdinalRange(end);
      OrdinalRange(cursor);
    }
  }

  method DatePartitions(start: Date, end: Date, g: Granularity) returns (r: Result<seq<Partition>, PlanError>)
    requires start.Valid() && end.Valid()
    ensures r.Err? <==> DateLe(start, end) && end == Date(9999, 12, 31)
    ensures r.Ok? ==> Tiles(r.value, start, end, g)
  {
    hide ToOrdinal, DaysInMonth, Leap, Period, KeyOf, Boundary, PieceAt;
    var parts: seq<Partition> := [];
    var cursor := start;
    while DateLe(cursor, end)
      invariant Laid(parts, cursor, start, end, g)
      decreases MAX_ORDINAL - ToOrdinal(cursor)
    {
      var piece := PieceAt(cursor, end, g);
      OrdinalOrder(cursor, piece.end);
      OrdinalRange(piece.end);
      if piece.end == MAX_DATE {
        OrdinalOrder(end, MAX_DATE);
        OrdinalOrder(piece.end, end);
        OrdinalRange(end);
        return Err(DateOutOfRange);
      }
      var next := FromOrdinal(ToOrdinal(piece.end) + 1);
      OrdinalRange(cursor);
      LayPiece(parts, cursor, next, start, end, g);
      parts := parts + [piece];
      cursor := next;
    }
    LaidOut(parts, cursor, start, end, g);
    r := Ok(parts);
  }

  /** Chains only move forward in time and period. */
  lemma {:induction false} ChainForward(parts: seq<Partition>, g: Granularity, i: nat, j: nat)
    requires Chain(parts, g) && i < j < |parts|
    ensures ToOrdinal(parts[i].end) < ToOrdinal(parts[j].start)
    ensures Period(g, parts[i].end) < Period(g, parts[j].start)
  {
    hide ToOrdinal, DaysInMonth, Leap, Period, KeyOf;
    if i + 1 < j {
      ChainForward(parts, g, i, j - 1);
      OrdinalOrder(parts[j - 1].start, parts[j - 1].end);
    }
  }

  /** Keys are pairwise distinct, so each names one checkpoint row and file. */
  lemma ChainKeysDistinct(parts: seq<Partition>, g: Granularity)
    requires Chain(parts, g)
    ensures forall i, j :: 0 <= i < j < |parts| ==> parts[i].key != parts[j].key
  {
    hide ToOrdinal, DaysInMonth, Leap;
    forall i, j | 0 <= i < j < |parts|
      ensures parts[i].key != parts[j].key
    {
      ChainForward(parts, g, i, j);
      KeyIdentifiesPeriod(g, parts[i].start, parts[j].start);
    }
  }

  /** Every day of the interval lies in exactly one piece. */
  lemma {:induction false} EveryDayOnce(parts: seq<Partition>, start: Date, end: Date, g: Granularity, day: int) returns (i: nat)
    requires start.Valid() && end.Valid() && Tiles(parts, start, end, g)
    requires ToOrdinal(start) <= day <= ToOrdinal(end)
    ensures i < |parts| && parts[i].Covers(day)
    ensures forall j :: 0 <= j < |parts| && parts[j].Covers(day) ==> j == i
  {
    hide ToOrdinal, DaysInMonth, Leap;
    OrdinalOrder(start, end);
    i := 0;
    while ToOrdinal(parts[i].end) < day
      invariant i < |parts| && ToOrdinal(parts[i].start) <= day
      decreases |parts| - i
    {
      OrdinalOrder(parts[i].end, end);
      i := i + 1;
    }
    hide Tiles, Chain, KeyOf, Period;
    forall j | 0 <= j < |parts| && parts[j].Covers(day)
      ensures j == i
    {
      CoversOnce(parts, start, end, g, i, j, day);
    }
  }

  lemma CoversOnce(parts: seq<Partition>, start: Date, end: Date, g: Granularity, i: nat, j: nat, day: int)
    requires Tiles(parts, start, end, g) && i < |parts| && j < |parts|
    requires parts[i].Valid() && parts[i].Covers(day) && parts[j].Valid() && parts[j].Covers(day)
    ensures i == j
  {
    hide ToOrdinal, DaysInMonth, Leap, KeyOf, Period;
    if i < j {
      ChainForward(parts, g, i, j);
    } else if j < i {
      ChainForward(parts, g, j, i);
    }
  }

  /** Piece membership is membership of the calendar period: a piece never splits a period. */
  lemma SamePieceIffSamePeriod(parts: seq<Partition>, start: Date, end: Date, g: Granularity, a: Date, b: Date)
    requires start.Valid() && end.Valid() && Tiles(parts, start, end, g)
    requires a.Valid() && b.Valid() && DateLe(start, a) && DateLe(a, b) && DateLe(b, end)
    ensures KeyOf(g, a) == KeyOf(g, b) <==>
            exists i :: 0 <= i < |parts| && parts[i].Covers(ToOrdinal(a)) && parts[i].Covers(ToOrdinal(b))
  {
    hide ToOrdinal, DaysInMonth, Leap;
    OrdinalOrder(start, a);
    OrdinalOrder(a, b);
    OrdinalOrder(b, end);
    KeyIdentifiesPeriod(g, a, b);
    var i := EveryDayOnce(parts, start, end, g, ToOrdinal(a));
    var j := EveryDayOnce(parts, start, end, g, ToOrdinal(b));
    PeriodInside(parts[i], g, a);
    PeriodInside(parts[j], g, b);
    if i < j {
      ChainForward(parts, g, i, j);
    } else if j < i {
      ChainForward(parts, g, j, i);
    }
  }

  lemma PeriodInside(p: Partition, g: Granularity, d: Date)
    requires p.Valid() && d.Valid() && p.Covers(ToOrdinal(d))
    requires Period(g, p.start) == Period(g, p.end)
    ensures Period(g, d) == Period(g, p.start)
  {
    hide ToOrdinal, DaysInMonth, Leap;
    OrdinalOrder(p.start, d);
    OrdinalOrder(d, p.end);
  }

  lemma {:induction false} TilingAgrees(a: seq<Partition>, b: seq<Partition>, start: Date, end: Date, g: Granularity, i: nat)
    requires start.Valid() && end.Valid()
    requires Tiles(a, start, end, g) && Tiles(b, start, end, g)
    requires i < |a| && i < |b|
    ensures a[i] == b[i]
  {
    hide ToOrdinal, DaysInMonth, Leap, Period, KeyOf;
    if i > 0 {
      TilingAgrees(a, b, start, end, g, i - 1);
      OrdinalOrder(a[i].start, b[i].start);
    }
    PieceEnd(a, start, end, g, i, b, i);
    PieceEnd(b, start, end, g, i, a, i);
    OrdinalOrder(a[i].end, b[i].end);
  }

  lemma TilingLength(a: seq<Partition>, b: seq<Partition>, start: Date, end: Date, g: Granularity)
    requires start.Valid() && end.Valid()
    requires Tiles(a, start, end, g) && Tiles(b, start, end, g) && a != []
    ensures |a| <= |b|
  {
    hide ToOrdinal, DaysInMonth, Leap, Period, KeyOf;
    if |b| < |a| {
      TilingAgrees(a, b, start, end, g, |b| - 1);
      ChainForward(a, g, |b| - 1, |a| - 1);
    }
  }

  /** The specification determines the partition list, so it fixes what the loop computes. */
  lemma TilingUnique(a: seq<Partition>, b: seq<Partition>, start: Date, end: Date, g: Granularity)
    requires start.Valid() && end.Valid()
    requires Tiles(a, start, end, g) && Tiles(b, start, end, g)
    ensures a == b
  {
    hide Chain;
    if a != [] {
      TilingLength(a, b, start, end, g);
      TilingLength(b, a, start, end, g);
      forall i | 0 <= i < |a|
        ensures a[i] == b[i]
      {
        TilingAgrees(a, b, start, end, g, i);
      }
    }
  }

  /** A piece starting where another starts reaches at least as far. */
  lemma PieceEnd(a: seq<Partition>, start: Date, end: Date, g: Granularity, i: nat, b: seq<Partition>, j: nat)
    requires start.Valid() && end.Valid()
    requires Tiles(a, start, end, g) && Tiles(b, start, end, g)
    requires i < |a| && j < |b| && a[i].start == b[j].start
    ensures ToOrdinal(b[j].end) <= ToOrdinal(a[i].end)
  {
    hide ToOrdinal, DaysInMonth, Leap, KeyOf;
    if ToOrdinal(a[i].end) < ToOrdinal(b[j].end) {
      if j < |b| - 1 {
        ChainForward(b, g, j, |b| - 1);
        OrdinalOrder(b[|b| - 1].start, b[|b| - 1].end);
      }
      assert i < |a| - 1;
      OrdinalOrder(a[i].start, a[i].end);
      PeriodInside(b[j], g, a[i + 1].start);
    }
  }

  predicate Adjacent(p: Partition, q: Partition)
    requires p.Valid() && q.Valid()
  {
    DateLe(p.start, q.start) && ToOrdinal(q.start) - ToOrdinal(p.end) == 1
  }

  /** BackfillPlan._coverage. */
  predicate Coverage(parts: seq<Partition>, start: Date, end: Date)
    requires forall i :: 0 <= i < |parts| ==> parts[i].Valid()
  {
    && parts != []
    && (forall i :: 0 <= i < |parts| - 1 ==> Adjacent(parts[i], parts[i + 1]))
    && parts[0].start == start
    && parts[|parts| - 1].end == end
  }

  /** Every nonempty tiling passes the plan validator. */
  lemma TilesPassCoverage(parts: seq<Partition>, start: Date, end: Date, g: Granularity)
    requires start.Valid() && end.Valid() && DateLe(start, end)
    requires Tiles(parts, start, end, g)
    ensures Coverage(parts, start, end)
  {
    hide ToOrdinal, DaysInMonth, Leap;
    forall i | 0 <= i < |parts| - 1
      ensures Adjacent(parts[i], parts[i + 1])
    {
      OrdinalOrder(parts[i].start, parts[i].end);
      OrdinalOrder(parts[i].start, parts[i + 1].start);
    }
  }
}
