/**
 * Civil time: the Gregorian calendar, time.AddDate in a location, and the
 * hour, day and month windows of the usage query. Instants and offsets are nanoseconds.
 */
module Calendar {

  function Hours(n: int): int { n * 3_600_000_000_000 }

  function Days(n: int): int { n * 86_400_000_000_000 }

  const HOUR: int := 3_600_000_000_000
  const DAY: int := 86_400_000_000_000

  /** Asia/Shanghai, the zone the buckets are cut in. */
  const SHANGHAI: int := 28_800_000_000_000

  /** Months are counted from January of year 0, so month k is month k % 12 + 1 of year k / 12. */
  type MonthIndex = int

  const EPOCH_MONTH: MonthIndex := 1970 * 12

  predicate IsLeap(y: int) {
    y % 4 == 0 && (y % 100 != 0 || y % 400 == 0)
  }

  function DaysIn(k: MonthIndex): int {
    var m := k % 12;
    if m == 1 then (if IsLeap(k / 12) then 29 else 28)
    else if m == 3 || m == 5 || m == 8 || m == 10 then 30
    else 31
  }

  lemma DaysInBounds(k: MonthIndex)
    ensures 28 <= DaysIn(k) <= 31
  {
  }

  /** Day number, counted from 1 January 1970, of the first day of month k. */
  function MonthStart(k: MonthIndex): int
    decreases if k > EPOCH_MONTH then k - EPOCH_MONTH else EPOCH_MONTH - k
  {
    if k == EPOCH_MONTH then 0
    else if k > EPOCH_MONTH then MonthStart(k - 1) + DaysIn(k - 1)
    else MonthStart(k + 1) - DaysIn(k)
  }

  /** The calendar law: consecutive months are DaysIn apart, across year ends and leap years. */
  lemma MonthLength(k: MonthIndex)
    ensures MonthStart(k + 1) - MonthStart(k) == DaysIn(k)
    ensures 28 <= DaysIn(k) <= 31
  {
    DaysInBounds(k);
  }

  lemma {:induction false} MonthsAhead(k: MonthIndex, n: nat)
    ensures 28 * n <= MonthStart(k + n) - MonthStart(k) <= 31 * n
    decreases n
  {
    if n > 0 {
      MonthsAhead(k, n - 1);
      MonthLength(k + (n - 1));
    }
  }

  lemma MonthStartIsMonotone(j: MonthIndex, k: MonthIndex)
    ensures j < k <==> MonthStart(j) < MonthStart(k)
  {
    if j < k { MonthsAhead(j, k - j); } else { MonthsAhead(k, j - k); }
  }

  /** A month at or before day n. */
  function EarlierMonth(n: int): (k: MonthIndex)
    ensures MonthStart(k) <= n
  {
    var k := EPOCH_MONTH + (if n >= 0 then n / 31 else n / 28);
    assert MonthStart(k) <= n by {
      assert MonthStart(EPOCH_MONTH) == 0;
      if n >= 0 { MonthsAhead(EPOCH_MONTH, n / 31); } else { MonthsAhead(k, -(n / 28)); }
    }
    k
  }

  function FindMonth(n: int, k: MonthIndex): (r: MonthIndex)
    requires MonthStart(k) <= n
    ensures MonthStart(r) <= n < MonthStart(r + 1)
    decreases n - MonthStart(k)
  {
    MonthLength(k);
    if n < MonthStart(k + 1) then k else FindMonth(n, k + 1)
  }

  /** The month day n lies in. */
  function MonthOf(n: int): (k: MonthIndex)
    ensures MonthStart(k) <= n < MonthStart(k + 1)
  {
    FindMonth(n, EarlierMonth(n))
  }

  lemma MonthOfIsUnique(n: int, k: MonthIndex)
    requires MonthStart(k) <= n < MonthStart(k + 1)
    ensures MonthOf(n) == k
  {
    var r := MonthOf(n);
    MonthStartIsMonotone(r, k + 1);
    MonthStartIsMonotone(k, r + 1);
  }

  lemma MonthOfStart(k: MonthIndex, d: int)
    requires 0 <= d < DaysIn(k)
    ensures MonthOf(MonthStart(k) + d) == k
  {
    hide MonthStart, DaysIn, MonthOf;
    MonthLength(k);
    MonthOfIsUnique(MonthStart(k) + d, k);
  }

  // ---- Windows ----------------------------------------------------------------------------

  datatype Granularity = Hour | Day | Month

  /** Day number and time of day of an instant in the location `offset` east of UTC. */
  function DayOf(t: int, offset: int): int { (t + offset) / 86_400_000_000_000 }

  function TimeOfDay(t: int, offset: int): (r: int)
    ensures 0 <= r < DAY
  {
    (t + offset) % 86_400_000_000_000
  }

  /** Which window, counting from a fixed origin, an instant falls in. */
  function WindowIndex(g: Granularity, t: int): int {
    match g
    case Hour => (t + SHANGHAI) / 3_600_000_000_000
    case Day => DayOf(t, SHANGHAI)
    case Month => MonthOf(DayOf(t, SHANGHAI))
  }

  /** First instant of window i. */
  function WindowStart(g: Granularity, i: int): int {
    match g
    case Hour => Hours(i) - SHANGHAI
    case Day => Days(i) - SHANGHAI
    case Month => Days(MonthStart(i)) - SHANGHAI
  }

  /** The start of the window an instant falls in. */
  function Bucket(g: Granularity, t: int): int {
    WindowStart(g, WindowIndex(g, t))
  }

  /** The rules of a location: how far its clocks are ahead of UTC at an instant. */
  type Zone = int -> int

  function Fixed(offset: int): Zone { (t: int) => offset }

  /** What clocks show, as if it were UTC, some months and days after they show `clock`; an excess day runs into the next month. */
  function AddToClock(clock: int, months: int, days: int): int {
    var n := DayOf(clock, 0);
    var k := MonthOf(n);
    Days(MonthStart(k + months) + (n - MonthStart(k)) + days) + TimeOfDay(clock, 0)
  }

  /** The offset time.Date resolves a clock reading with: the one in force where a first guess puts the reading. */
  function OffsetFor(zone: Zone, clock: int): int { zone(clock - zone(clock)) }

  /** time.Time.AddDate(0, months, days) */
  function AddDate(t: int, zone: Zone, months: int, days: int): int {
    var clock := AddToClock(t + zone(t), months, days);
    clock - OffsetFor(zone, clock)
  }

  /** nextWindow, for a value carried in a location. */
  function NextWindow(g: Granularity, t: int, zone: Zone): int {
    match g
    case Hour => t + HOUR
    case Day => AddDate(t, zone, 0, 1)
    case Month => AddDate(t, zone, 1, 0)
  }

  lemma WindowStartStep(g: Granularity, i: int)
    ensures WindowStart(g, i) < WindowStart(g, i + 1)
  {
    if g.Month? { MonthLength(i); }
  }

  lemma WindowStartIsMonotone(g: Granularity, i: int, j: int)
    ensures i < j <==> WindowStart(g, i) < WindowStart(g, j)
  {
    if g.Month? { MonthStartIsMonotone(i, j); }
  }

  /** Every instant lies in its window. */
  lemma InstantInWindow(g: Granularity, t: int)
    ensures WindowStart(g, WindowIndex(g, t)) <= t < WindowStart(g, WindowIndex(g, t) + 1)
  {
    if g.Month? {
      var n := DayOf(t, SHANGHAI);
      assert Days(n) <= t + SHANGHAI < Days(n + 1);
      var k := MonthOf(n);
      assert n + 1 <= MonthStart(k + 1);
    }
  }

  lemma WindowIndexIsUnique(g: Granularity, t: int, i: int)
    requires WindowStart(g, i) <= t < WindowStart(g, i + 1)
    ensures WindowIndex(g, t) == i
  {
    hide WindowIndex, WindowStart;
    var j := WindowIndex(g, t);
    InstantInWindow(g, t);
    WindowStartIsMonotone(g, i, j + 1);
    WindowStartIsMonotone(g, j, i + 1);
  }

  lemma WindowIndexOfStart(g: Granularity, i: int)
    ensures WindowIndex(g, WindowStart(g, i)) == i
  {
    WindowStartStep(g, i);
    WindowIndexIsUnique(g, WindowStart(g, i), i);
  }

  lemma WindowIndexIsMonotone(g: Granularity, s: int, t: int)
    requires s <= t
    ensures WindowIndex(g, s) <= WindowIndex(g, t) && Bucket(g, s) <= Bucket(g, t)
  {
    hide WindowIndex, WindowStart;
    var i, j := WindowIndex(g, s), WindowIndex(g, t);
    InstantInWindow(g, s);
    InstantInWindow(g, t);
    WindowStartIsMonotone(g, i, j + 1);
    WindowStartIsMonotone(g, j, i);
  }

  /** Splitting an instant, n whole days and a rest, in a location. */
  lemma DaySplit(t: int, offset: int, n: int, rest: int)
    requires t + offset == Days(n) + rest && 0 <= rest < DAY
    ensures DayOf(t, offset) == n && TimeOfDay(t, offset) == rest
  {
  }

  /** Adding a month to day d (counted from 0) of month k. */
  lemma AddMonth(clock: int, k: MonthIndex, d: int, rest: int)
    requires 0 <= d < DaysIn(k) && 0 <= rest < DAY && clock == Days(MonthStart(k) + d) + rest
    ensures AddToClock(clock, 1, 0) == Days(MonthStart(k + 1) + d) + rest
  {
    hide MonthStart, MonthOf, DaysIn, DayOf, TimeOfDay;
    DaySplit(clock, 0, MonthStart(k) + d, rest);
    MonthOfStart(k, d);
  }

  lemma NextMonthEast(k: MonthIndex, offset: int)
    requires 0 <= offset - SHANGHAI < DAY
    ensures AddToClock(WindowStart(Month, k) + offset, 1, 0) == WindowStart(Month, k + 1) + offset
  {
    hide MonthStart, AddToClock;
    DaysInBounds(k);
    AddMonth(WindowStart(Month, k) + offset, k, 0, offset - SHANGHAI);
  }

  /** The last day of the month before, carried over. */
  lemma DayBeforeMonth(k: MonthIndex)
    ensures MonthStart(k - 1) + (DaysIn(k - 1) - 1) == MonthStart(k) - 1
    ensures MonthStart(k) + (DaysIn(k - 1) - 1) == MonthStart(k + 1) + (DaysIn(k - 1) - DaysIn(k)) - 1
  {
    hide MonthStart, DaysIn;
    MonthLength(k - 1);
    MonthLength(k);
  }

  lemma NextMonthWest(k: MonthIndex, offset: int)
    requires -DAY <= offset - SHANGHAI < 0
    ensures AddToClock(WindowStart(Month, k) + offset, 1, 0)
         == WindowStart(Month, k + 1) + offset + Days(DaysIn(k - 1) - DaysIn(k))
  {
    hide MonthStart, DaysIn, AddToClock;
    DaysInBounds(k - 1);
    DayBeforeMonth(k);
    AddMonth(WindowStart(Month, k) + offset, k - 1, DaysIn(k - 1) - 1, offset - SHANGHAI + DAY);
  }

  lemma NextDay(clock: int)
    ensures AddToClock(clock, 0, 1) == clock + DAY
  {
    hide MonthStart, MonthOf;
  }

  /** The days by which a month too short or too long moves the end of window i, west of Asia/Shanghai. */
  function Slip(g: Granularity, i: int, before: int): int {
    if g.Month? && before < SHANGHAI then Days(DaysIn(i - 1) - DaysIn(i)) else 0
  }

  /** The offset with which the end of the window that starts at t is resolved. */
  function EndOffset(g: Granularity, t: int, zone: Zone): int {
    OffsetFor(zone, AddToClock(t + zone(t), if g.Month? then 1 else 0, if g.Month? then 0 else 1))
  }

  /** The end reported for a day or month window, in any location. */
  lemma NextWindowEnd(g: Granularity, i: int, zone: Zone)
    requires g != Hour && Hours(-16) <= zone(WindowStart(g, i)) < Hours(32)
    ensures var before := zone(WindowStart(g, i));
      NextWindow(g, WindowStart(g, i), zone)
      == WindowStart(g, i + 1) + Slip(g, i, before) + before - EndOffset(g, WindowStart(g, i), zone)
  {
    hide AddToClock, OffsetFor, MonthStart, DaysIn;
    var before := zone(WindowStart(g, i));
    if g.Day? {
      NextDay(WindowStart(g, i) + before);
    } else if before >= SHANGHAI {
      NextMonthEast(i, before);
    } else {
      NextMonthWest(i, before);
    }
  }

  /**
   * The end reported for a window is the start of the next one exactly when the window is an hour, or the location's
   * offset changes between start and end by just the slip of the month. As long as offsets change by less than a day,
   * that is when the offset is the same at both, and the window is a day, the location lies at or east of
   * Asia/Shanghai, or the month before is as long as the month itself.
   */
  lemma NextWindowExact(g: Granularity, i: int, zone: Zone)
    requires Hours(-16) <= zone(WindowStart(g, i)) < Hours(32)
    ensures var before, after := zone(WindowStart(g, i)), EndOffset(g, WindowStart(g, i), zone);
      && (NextWindow(g, WindowStart(g, i), zone) == WindowStart(g, i + 1)
          <==> g.Hour? || after - before == Slip(g, i, before))
      && (-DAY < after - before < DAY ==>
            (NextWindow(g, WindowStart(g, i), zone) == WindowStart(g, i + 1)
             <==> g.Hour? || (before == after && (g.Day? || before >= SHANGHAI || DaysIn(i - 1) == DaysIn(i)))))
  {
    hide MonthStart, DaysIn, AddToClock, OffsetFor, EndOffset;
    if g != Hour {
      hide NextWindow, WindowStart;
      NextWindowEnd(g, i, zone);
    }
  }

  /** In UTC the February window of every common year is reported to end on 4 March, not 1 March (Shanghai dates). */
  lemma UtcFebruaryEndsLate(y: int)
    requires !IsLeap(y)
    ensures NextWindow(Month, WindowStart(Month, 12 * y + 1), Fixed(0)) == WindowStart(Month, 12 * y + 2) + Days(3)
  {
    hide MonthStart, DaysIn, AddToClock;
    NextWindowEnd(Month, 12 * y + 1, Fixed(0));
    DaysInMonth(y, 0);
    DaysInMonth(y, 1);
  }

  /** Clocks that are changed once. */
  function Changing(change: int, before: int, after: int): Zone { (t: int) => if t < change then before else after }

  /** Around a clock change every reading that clocks show once is resolved to the instant at which they show it. */
  lemma ReadingsAreResolved(change: int, before: int, after: int, t: int)
    requires -DAY < before < DAY && -DAY < after < DAY
    requires var zone := Changing(change, before, after); forall u :: u + zone(u) == t + zone(t) ==> u == t
    ensures var zone := Changing(change, before, after);
      t + zone(t) - OffsetFor(zone, t + zone(t)) == t
  {
    var zone := Changing(change, before, after);
    var clock := t + zone(t);
    assert clock - before < change ==> clock - before + zone(clock - before) == clock;
    assert clock - after >= change ==> clock - after + zone(clock - after) == clock;
  }

  /** Clocks that are set back an hour, from 11 to 10 hours east, as in Sydney every April. */
  function SetBack(change: int): Zone { Changing(change, Hours(11), Hours(10)) }

  /** The day or month window in which clocks are set back is reported to end an hour late. */
  lemma SetBackEndsLate(g: Granularity, i: int, change: int)
    requires g != Hour && WindowStart(g, i) < change <= WindowStart(g, i + 1)
    ensures NextWindow(g, WindowStart(g, i), SetBack(change)) == WindowStart(g, i + 1) + HOUR
  {
    hide MonthStart, AddToClock, WindowStart, NextWindow;
    var zone, next := SetBack(change), WindowStart(g, i + 1) + Hours(11);
    assert zone(WindowStart(g, i)) == Hours(11);
    assert zone(next) == Hours(10) && zone(next - Hours(10)) == Hours(10);
    NextWindowEnd(g, i, zone);
    if g.Day? {
      NextDay(WindowStart(g, i) + Hours(11));
      DayWindow(i);
    } else {
      NextMonthEast(i, Hours(11));
    }
  }

  lemma DayWindow(i: int)
    ensures WindowStart(Day, i + 1) == WindowStart(Day, i) + DAY
  {
  }

  lemma NextWindowInShanghai(g: Granularity, i: int)
    ensures NextWindow(g, WindowStart(g, i), Fixed(SHANGHAI)) == WindowStart(g, i + 1)
  {
    hide MonthStart, DaysIn, AddToClock;
    NextWindowExact(g, i, Fixed(SHANGHAI));
  }

  lemma SameWindow(g: Granularity, s: int, t: int)
    ensures Bucket(g, s) == Bucket(g, t)
       <==> WindowStart(g, WindowIndex(g, t)) <= s < WindowStart(g, WindowIndex(g, t) + 1)
  {
    hide WindowIndex, WindowStart;
    var i, j := WindowIndex(g, t), WindowIndex(g, s);
    InstantInWindow(g, s);
    WindowStartIsMonotone(g, i, j);
    WindowStartIsMonotone(g, j, i);
    if WindowStart(g, i) <= s < WindowStart(g, i + 1) {
      WindowIndexIsUnique(g, s, i);
    }
  }

  /** In Asia/Shanghai civil time the windows tile the time line: no gap, no overlap, every start its own bucket. */
  lemma WindowsTileTime(g: Granularity, t: int)
    ensures Bucket(g, t) <= t < NextWindow(g, Bucket(g, t), Fixed(SHANGHAI))
    ensures Bucket(g, Bucket(g, t)) == Bucket(g, t)
    ensures Bucket(g, NextWindow(g, Bucket(g, t), Fixed(SHANGHAI))) == NextWindow(g, Bucket(g, t), Fixed(SHANGHAI))
    ensures forall s :: Bucket(g, s) == Bucket(g, t) <==> Bucket(g, t) <= s < NextWindow(g, Bucket(g, t), Fixed(SHANGHAI))
  {
    hide WindowIndex, WindowStart, NextWindow;
    var i := WindowIndex(g, t);
    InstantInWindow(g, t);
    NextWindowInShanghai(g, i);
    WindowIndexOfStart(g, i);
    WindowIndexOfStart(g, i + 1);
    forall s ensures Bucket(g, s) == Bucket(g, t) <==> Bucket(g, t) <= s < WindowStart(g, i + 1) {
      SameWindow(g, s, t);
    }
  }

  /** fine is at least as fine as coarse */
  predicate Refines(fine: Granularity, coarse: Granularity) {
    fine.Hour? || coarse.Month? || fine == coarse
  }

  lemma HourInDay(t: int)
    ensures DayOf(Bucket(Hour, t), SHANGHAI) == DayOf(t, SHANGHAI)
  {
    var h := (t + SHANGHAI) / 3_600_000_000_000;
    var n := DayOf(t, SHANGHAI);
    InstantInWindow(Hour, t);
    assert Days(n) <= t + SHANGHAI < Days(n + 1);
    assert n * 24 <= h < (n + 1) * 24;
    assert Days(n) <= Hours(h) < Days(n + 1);
  }

  /** Windows nest: the coarse bucket of an instant is the coarse bucket of its fine bucket. */
  lemma WindowsNest(fine: Granularity, coarse: Granularity, t: int)
    requires Refines(fine, coarse)
    ensures Bucket(coarse, Bucket(fine, t)) == Bucket(coarse, t)
  {
    if fine == coarse {
      WindowIndexOfStart(fine, WindowIndex(fine, t));
    } else if fine.Hour? {
      HourInDay(t);
    } else {
      WindowIndexOfStart(Day, WindowIndex(Day, t));
    }
  }

  // ---- How many windows a query range can touch ---------------------------------------------

  /** The longest range QueryUsage accepts. */
  const MAX_RANGE: int := Days(366)

  function MaxWindows(g: Granularity): nat {
    match g
    case Hour => 8785
    case Day => 367
    case Month => 14
  }

  lemma DaysInMonth(y: int, m: int)
    requires 0 <= m < 12
    ensures DaysIn(12 * y + m) == [31, if IsLeap(y) then 29 else 28, 31, 30, 31, 30, 31, 31, 30, 31, 30, 31][m]
  {
    assert (12 * y + m) % 12 == m && (12 * y + m) / 12 == y;
  }

  /** From the first of a month to the first of the same month a year later. */
  lemma {:induction false} YearLength(y: int, m: int)
    requires 0 <= m < 12
    ensures MonthStart(12 * (y + 1) + m) - MonthStart(12 * y + m)
         == if IsLeap(if m <= 1 then y else y + 1) then 366 else 365
  {
    hide MonthStart, DaysIn, IsLeap;
    if m == 0 {
      YearFromJanuary(y, 12);
      assert 12 * (y + 1) + m == 12 * y + 12;
    } else {
      YearLength(y, m - 1);
      MonthStep(y, m - 1);
      MonthStep(y + 1, m - 1);
    }
  }

  /** From the first of a month to the first of the next, by the number of the month. */
  lemma MonthStep(y: int, m: int)
    requires 0 <= m < 12
    ensures MonthStart(12 * y + (m + 1)) - MonthStart(12 * y + m)
         == [31, if IsLeap(y) then 29 else 28, 31, 30, 31, 30, 31, 31, 30, 31, 30, 31][m]
  {
    hide MonthStart, DaysIn, IsLeap;
    MonthLength(12 * y + m);
    DaysInMonth(y, m);
    assert 12 * y + m + 1 == 12 * y + (m + 1);
  }

  /** Days from 1 January to the first of month m + 1. */
  lemma {:induction false} YearFromJanuary(y: int, m: nat)
    requires m <= 12
    ensures MonthStart(12 * y + m) - MonthStart(12 * y)
         == [0, 31, 59, 90, 120, 151, 181, 212, 243, 273, 304, 334, 365][m] + (if m > 1 && IsLeap(y) then 1 else 0)
  {
    hide MonthStart, DaysIn, IsLeap;
    if m > 0 {
      YearFromJanuary(y, m - 1);
      MonthStep(y, m - 1);
    }
  }

  lemma JanuaryToJanuary(y: int)
    ensures MonthStart(12 * (y + 1)) - MonthStart(12 * y) == if IsLeap(y) then 366 else 365
  {
    hide MonthStart, DaysIn, IsLeap;
    YearLength(y, 0);
    assert 12 * (y + 1) + 0 == 12 * (y + 1) && 12 * y + 0 == 12 * y;
  }

  /** The leap days from 1970 up to 1 January of a year, by the Gregorian rule. */
  function LeapDays(y: int): int { (y - 1969) / 4 - (y - 1901) / 100 + (y - 1601) / 400 }

  lemma LeapDaysStep(y: int)
    ensures LeapDays(y + 1) - LeapDays(y) == if y % 4 == 0 && (y % 100 != 0 || y % 400 == 0) then 1 else 0
  {
    Fourth(y);
    Hundredth(y);
    FourHundredth(y);
    Multiples(y);
  }

  lemma Fourth(y: int)
    ensures (y - 1968) / 4 - (y - 1969) / 4 == if y % 4 == 0 then 1 else 0
  {
  }

  lemma Hundredth(y: int)
    ensures (y - 1900) / 100 - (y - 1901) / 100 == if y % 100 == 0 then 1 else 0
  {
  }

  lemma FourHundredth(y: int)
    ensures (y - 1600) / 400 - (y - 1601) / 400 == if y % 400 == 0 then 1 else 0
  {
  }

  lemma Multiples(y: int)
    ensures (y % 400 == 0 ==> y % 100 == 0) && (y % 100 == 0 ==> y % 4 == 0)
  {
  }

  /**
   * The day number of every New Year, counted from 1 January 1970: 365 days a year, and one more for every fourth
   * year, but not for a hundredth one, but again for a four hundredth.
   */
  lemma NewYear(y: int)
    ensures MonthStart(12 * y) == 365 * (y - 1970) + (y - 1969) / 4 - (y - 1901) / 100 + (y - 1601) / 400
  {
    if y >= 1970 { NewYearAfter(y - 1970); } else { NewYearBefore(1970 - y); }
  }

  lemma NewYearByLeaps(y: int)
    ensures MonthStart(12 * y) == 365 * (y - 1970) + LeapDays(y)
  {
    hide MonthStart;
    NewYear(y);
  }

  lemma {:induction false} NewYearAfter(n: nat)
    ensures MonthStart(12 * (1970 + n)) == 365 * n + LeapDays(1970 + n)
  {
    if n > 0 {
      hide MonthStart, LeapDays;
      NewYearAfter(n - 1);
      JanuaryToJanuary(1970 + (n - 1));
      LeapDaysStep(1970 + (n - 1));
      assert 1970 + (n - 1) + 1 == 1970 + n;
    } else {
      assert MonthStart(EPOCH_MONTH) == 0;
    }
  }

  lemma {:induction false} NewYearBefore(n: nat)
    ensures MonthStart(12 * (1970 - n)) == -365 * n + LeapDays(1970 - n)
  {
    if n > 0 {
      hide MonthStart, LeapDays;
      NewYearBefore(n - 1);
      JanuaryToJanuary(1970 - n);
      LeapDaysStep(1970 - n);
      assert 1970 - n + 1 == 1970 - (n - 1);
    } else {
      assert MonthStart(EPOCH_MONTH) == 0;
    }
  }

  /** February takes what the other months of its year leave. */
  lemma FebruaryTakesTheRest(y: int)
    ensures DaysIn(12 * y + 1) == MonthStart(12 * (y + 1)) - MonthStart(12 * y) - 337
  {
    hide MonthStart;
    JanuaryToJanuary(y);
    DaysInMonth(y, 1);
  }

  /** The calendar repeats after 400 years, which are 146097 days from any month on. */
  lemma FourCenturies(k: MonthIndex)
    ensures MonthStart(k + 4800) - MonthStart(k) == 146_097 && DaysIn(k + 4800) == DaysIn(k)
  {
    var y, m := k / 12, k % 12;
    hide MonthStart, DaysIn, IsLeap, LeapDays;
    DaysRepeat(k);
    FromJanuary(y, m);
    NewYearByLeaps(y);
    NewYearByLeaps(y + 400);
    FourCenturyStep(y);
    assert 12 * (y + 400) + m == k + 4800 && 12 * y + m == k;
  }

  lemma FourCenturyStep(y: int)
    ensures LeapDays(y + 400) == LeapDays(y) + 97
  {
    MoreFourths(y - 1969);
    MoreHundredths(y - 1901);
    MoreFourHundredths(y - 1601);
  }

  lemma MoreFourths(x: int)
    ensures (x + 400) / 4 == x / 4 + 100
  {
  }

  lemma MoreHundredths(x: int)
    ensures (x + 400) / 100 == x / 100 + 4
  {
  }

  lemma MoreFourHundredths(x: int)
    ensures (x + 400) / 400 == x / 400 + 1
  {
  }

  lemma LeapsRepeat(y: int)
    ensures IsLeap(y + 400) == IsLeap(y)
  {
    RestsRepeat(y);
  }

  lemma RestsRepeat(y: int)
    ensures (y + 400) % 4 == y % 4 && (y + 400) % 100 == y % 100 && (y + 400) % 400 == y % 400
  {
    MoreFourths(y);
    MoreHundredths(y);
    MoreFourHundredths(y);
  }

  lemma DaysRepeat(k: MonthIndex)
    ensures DaysIn(k + 4800) == DaysIn(k)
  {
    hide IsLeap;
    LeapsRepeat(k / 12);
    assert (k + 4800) / 12 == k / 12 + 400 && (k + 4800) % 12 == k % 12;
  }

  /** The months of a year start as far from its New Year as those of 400 years later. */
  lemma FromJanuary(y: int, m: nat)
    requires m <= 12
    ensures MonthStart(12 * (y + 400) + m) - MonthStart(12 * (y + 400)) == MonthStart(12 * y + m) - MonthStart(12 * y)
  {
    hide MonthStart, DaysIn, IsLeap;
    YearFromJanuary(y, m);
    YearFromJanuary(y + 400, m);
    LeapsRepeat(y);
  }

  /** January 2026 starts, in Asia/Shanghai, at 2025-12-31T16:00:00Z, 1767196800 seconds after the epoch. */
  lemma JanuaryOf2026()
    ensures WindowStart(Month, 12 * 2026) == 1_767_196_800_000_000_000
  {
    hide MonthStart;
    NewYear(2026);
  }

  lemma ThirteenMonths(k: MonthIndex, n: nat)
    ensures MonthStart(k + 13 + n) - MonthStart(k) >= 393
  {
    hide MonthStart, DaysIn, IsLeap;
    YearLength(k / 12, k % 12);
    assert 12 * (k / 12) + k % 12 == k;
    assert 12 * (k / 12 + 1) + k % 12 == k + 12;
    MonthLength(k + 12);
    MonthsAhead(k + 13, n);
  }

  /** A range of at most 366 days touches at most MaxWindows windows. */
  lemma RangeTouchesFewWindows(g: Granularity, start: int, end: int)
    requires start < end <= start + MAX_RANGE
    ensures WindowIndex(g, end - 1) - WindowIndex(g, start) + 1 <= MaxWindows(g)
  {
    hide MonthStart, MonthOf;
    match g
    case Hour =>
    case Day =>
    case Month => FewMonths(start, end);
  }

  lemma FewMonths(start: int, end: int)
    requires start < end <= start + MAX_RANGE
    ensures WindowIndex(Month, end - 1) - WindowIndex(Month, start) + 1 <= 14
  {
    hide MonthStart, WindowIndex;
    var i, j := WindowIndex(Month, start), WindowIndex(Month, end - 1);
    InstantInWindow(Month, start);
    InstantInWindow(Month, end - 1);
    if j >= i + 14 {
      ThirteenMonths(i + 1, j - (i + 14));
    }
  }

  lemma FebruaryAfterCommonYear(y: int)
    requires !IsLeap(y)
    ensures MonthStart(12 * y + 13) == MonthStart(12 * y) + 396
  {
    hide MonthStart, DaysIn, IsLeap;
    YearLength(y, 0);
    MonthStep(y + 1, 0);
    assert 12 * (y + 1) + 0 == 12 * y + 12 && 12 * y + 0 == 12 * y;
    assert 12 * (y + 1) + (0 + 1) == 12 * y + 13;
  }

  lemma TwoMonthsOf(k: MonthIndex)
    requires MonthStart(k + 1) == MonthStart(k) + 31 && MonthStart(k + 13) == MonthStart(k) + 396
    ensures MonthOf(MonthStart(k) + 30) == k && MonthOf(MonthStart(k) + 396) == k + 13
  {
    MonthOfIsUnique(MonthStart(k) + 30, k);
    MonthStartIsMonotone(k + 13, k + 14);
    MonthOfIsUnique(MonthStart(k) + 396, k + 13);
  }

  lemma JanuaryToFebruary(y: int)
    requires !IsLeap(y)
    ensures MonthOf(MonthStart(12 * y) + 30) == 12 * y && MonthOf(MonthStart(12 * y) + 396) == 12 * y + 13
  {
    YearFromJanuary(y, 1);
    FebruaryAfterCommonYear(y);
    TwoMonthsOf(12 * y);
  }

  /** From noon on day n + 30 to noon on day n + 396, when these lie 13 months apart. */
  lemma NoonToNoon(g: Granularity, n: int) returns (start: int, end: int)
    requires MonthOf(n + 396) == MonthOf(n + 30) + 13
    ensures start < end <= start + MAX_RANGE
    ensures WindowIndex(g, end - 1) - WindowIndex(g, start) + 1 == MaxWindows(g)
  {
    hide MonthStart, MonthOf;
    start := Days(n + 30) + Hours(12) + 1 - SHANGHAI;
    end := start + MAX_RANGE;
    DaySplit(start, SHANGHAI, n + 30, Hours(12) + 1);
    DaySplit(end - 1, SHANGHAI, n + 396, Hours(12));
  }

  /** The bounds are the least ones: in every common year an accepted range reaches all three. */
  lemma WindowBoundsAreTight(g: Granularity, y: int) returns (start: int, end: int)
    requires !IsLeap(y)
    ensures start < end <= start + MAX_RANGE
    ensures WindowIndex(g, end - 1) - WindowIndex(g, start) + 1 == MaxWindows(g)
  {
    JanuaryToFebruary(y);
    start, end := NoonToNoon(g, MonthStart(12 * y));
  }
}
