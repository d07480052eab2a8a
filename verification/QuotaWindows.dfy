/**
  The quota window containing an instant, for every window kind, and the proof that windows tile
  time.  Instants are nanoseconds since the Unix epoch.
 */
module QuotaWindows {
  import opened Prelude
  import opened Calendar

  const SECOND: int := 1_000_000_000
  const DAY: int := 86_400 * SECOND
  const WEEK: int := 7 * DAY

  /** A custom window carries its parsed duration, if it parsed. */
  datatype Kind = Off | Daily | Weekly | Monthly | Custom(duration: Option<int>)

  datatype Limits = Limits(window: Kind, anchor: Option<int>, limitTokens: int, limitRequests: int)

  datatype Window = Window(start: int, end: int)

  function RollingPeriod(k: Kind): Option<int> {
    if k.Custom? && k.duration.Some? && k.duration.value > 0 then k.duration else None
  }

  /** Go's truncating quotient, corrected down. */
  function FloorDiv(a: int, b: int): int
    requires b > 0
  {
    var q := TruncDiv(a, b);
    if TruncMod(a, b) != 0 && a < 0 then q - 1 else q
  }

  function GridStart(a: int, now: int, d: int): int
    requires d > 0
  {
    a + FloorDiv(now - a, d) * d
  }

  function DayNumber(t: int): int {
    t / DAY
  }

  /** time.Date at midnight. */
  function Midnight(y: int, m: int, d: int): int {
    DayOf(y, m, d) * DAY
  }

  function MidnightOf(t: int): int {
    var u := DateOf(DayNumber(t));
    Midnight(u.year, u.month, u.day)
  }

  /** Sunday is 0; 1970-01-01 was a Thursday. */
  function Weekday(t: int): int {
    (DayNumber(t) + 4) % 7
  }

  function IsoWeekStart(t: int): int {
    var wd := if Weekday(t) == 0 then 7 else Weekday(t);
    MidnightOf(t) - (wd - 1) * DAY
  }

  /** The anchor's day of month, clamped to the month, at its time of day in whole seconds. */
  function Phase(a: int, y: int, m: int): int {
    var day := Min(DateOf(DayNumber(a)).day, DaysIn(y, m));
    Midnight(y, m, day) + (a % DAY) / SECOND * SECOND
  }

  function PhaseAt(a: int, ym: (int, int)): int {
    Phase(a, ym.0, ym.1)
  }

  function MonthGrid(anchor: Option<int>, u: int): Window {
    var t := DateOf(DayNumber(u));
    match anchor
    case None => Window(Midnight(t.year, t.month, 1), Midnight(t.year, t.month + 1, 1))
    case Some(a) =>
      var here := Phase(a, t.year, t.month);
      var start := if here > u then PhaseAt(a, MonthShift(t.year, t.month, -1)) else here;
      var s := DateOf(DayNumber(start));
      Window(start, PhaseAt(a, MonthShift(s.year, s.month, 1)))
  }

  /** The window containing now, or None where the source returns zero times. */
  function CurrentWindow(l: Limits, anchor: Option<int>, now: int): Option<Window> {
    match l.window
    case Daily =>
      var start := if l.anchor.Some? then GridStart(l.anchor.value, now, DAY) else MidnightOf(now);
      Some(Window(start, start + DAY))
    case Weekly =>
      var start := if l.anchor.Some? then GridStart(l.anchor.value, now, WEEK) else IsoWeekStart(now);
      Some(Window(start, start + WEEK))
    case Monthly => Some(MonthGrid(l.anchor, now))
    case Off => None
    case Custom(_) =>
      var period := RollingPeriod(l.window);
      var origin := if anchor.Some? then anchor else l.anchor;
      if period.None? then None
      else if origin.None? then Some(Window(now, now + period.value))
      else
        var start := GridStart(origin.value, now, period.value);
        Some(Window(start, start + period.value))
  }

  // ---- Grids -----------------------------------------------------------------------------------------

  lemma FloorDivIsFloor(a: int, b: int)
    requires b > 0
    ensures FloorDiv(a, b) == a / b
  {
    var q := TruncDiv(a, b);
    var r := TruncMod(a, b);
    if a >= 0 {
    } else if r == 0 {
      Quotient(a, b, q, 0);
    } else {
      var m := (-a) / b;
      assert -a == m * b + (-a) % b;
      assert (q - 1) * b == -m * b - b;
      Quotient(a, b, q - 1, b - (-a) % b);
    }
  }

  /** The grid cell of an instant: the last grid point not after it. */
  lemma GridCell(a: int, t: int, d: int)
    requires d > 0
    ensures GridStart(a, t, d) <= t < GridStart(a, t, d) + d
    ensures GridStart(a, t, d) == a + ((t - a) / d) * d
  {
    FloorDivIsFloor(t - a, d);
    assert t - a == ((t - a) / d) * d + (t - a) % d;
  }

  lemma GridCellUnique(a: int, t: int, d: int, k: int)
    requires d > 0 && a + k * d <= t < a + k * d + d
    ensures GridStart(a, t, d) == a + k * d
  {
    GridCell(a, t, d);
    Quotient(t - a, d, k, t - a - k * d);
  }

  lemma GridTiles(a: int, now: int, d: int, t: int)
    requires d > 0
    ensures var s := GridStart(a, now, d);
            && s <= now < s + d
            && (s <= t < s + d ==> GridStart(a, t, d) == s)
            && GridStart(a, s + d, d) == s + d
  {
    hide GridStart;
    GridCell(a, now, d);
    var k := (now - a) / d;
    var s := GridStart(a, now, d);
    if s <= t < s + d {
      GridCellUnique(a, t, d, k);
    }
    NextMultiple(k, d);
    GridCellUnique(a, s + d, d, k + 1);
  }

  lemma NextMultiple(k: int, d: int)
    ensures (k + 1) * d == k * d + d
  {
  }

  /** Re-anchoring a grid on one of its own window starts never drifts. */
  lemma ReanchorNeverDrifts(a: int, t1: int, t2: int, d: int)
    requires d > 0
    ensures GridStart(GridStart(a, t1, d), t2, d) == GridStart(a, t2, d)
  {
    GridCell(a, t1, d);
    GridCell(a, t2, d);
    var j, k := (t1 - a) / d, (t2 - a) / d;
    assert a + k * d == (a + j * d) + (k - j) * d;
    GridCellUnique(a + j * d, t2, d, k - j);
  }

  // ---- Days and weeks are grids ------------------------------------------------------------------------

  lemma MidnightIsGrid(t: int)
    ensures MidnightOf(t) == GridStart(0, t, DAY)
  {
    hide DateOf, DayOf;
    DateRoundTrip(DayNumber(t));
    GridCell(0, t, DAY);
  }

  /** Monday 1969-12-29. */
  const MONDAY: int := -3 * DAY

  lemma IsoWeekIsGrid(t: int)
    ensures IsoWeekStart(t) == GridStart(MONDAY, t, WEEK)
  {
    hide DateOf, DayOf, GridStart, DayNumber;
    DateRoundTrip(DayNumber(t));
    var n := DayNumber(t);
    var w, r := (n + 3) / 7, (n + 3) % 7;
    DayBounds(t);
    WeekdayIsShifted(n);
    assert n == 7 * w + r - 3;
    assert MidnightOf(t) - r * DAY == MONDAY + w * WEEK;
    GridCellUnique(MONDAY, t, WEEK, w);
  }

  lemma WeekdayIsShifted(n: int)
    ensures (if (n + 4) % 7 == 0 then 7 else (n + 4) % 7) - 1 == (n + 3) % 7
  {
    var w, r := (n + 3) / 7, (n + 3) % 7;
    if r == 6 {
      Quotient(n + 4, 7, w + 1, 0);
    } else {
      Quotient(n + 4, 7, w, r + 1);
    }
  }

  // ---- Months -----------------------------------------------------------------------------------------------

  /** The grid point of month k: its first midnight, or the anchor's day and time clamped into it. */
  function MonthPoint(anchor: Option<int>, k: int): int {
    match anchor
    case None => MonthStart(k) * DAY
    case Some(a) =>
      (MonthStart(k) + Min(DateOf(DayNumber(a)).day, MonthLength(k)) - 1) * DAY + (a % DAY) / SECOND * SECOND
  }

  lemma TimeOfDay(a: int)
    ensures 0 <= (a % DAY) / SECOND * SECOND < DAY
  {
  }

  lemma PointInMonth(anchor: Option<int>, k: int)
    ensures MonthStart(k) * DAY <= MonthPoint(anchor, k) < MonthStart(k + 1) * DAY
    ensures DayNumber(MonthPoint(anchor, k)) < MonthStart(k + 1)
    ensures MonthStart(k) <= DayNumber(MonthPoint(anchor, k))
  {
    hide DateOf, MonthStart, MonthLength;
    MonthStep(k);
    if anchor.Some? {
      var a := anchor.value;
      DateRoundTrip(DayNumber(a));
      TimeOfDay(a);
      var n := MonthStart(k) + Min(DateOf(DayNumber(a)).day, MonthLength(k)) - 1;
      Quotient(MonthPoint(anchor, k), DAY, n, (a % DAY) / SECOND * SECOND);
    } else {
      Quotient(MonthPoint(anchor, k), DAY, MonthStart(k), 0);
    }
  }

  lemma PhaseIsPoint(a: int, y: int, m: int)
    requires 1 <= m <= 12
    ensures Phase(a, y, m) == MonthPoint(Some(a), MonthIndex(y, m))
  {
    hide DateOf, MonthStart, MonthDays;
    DaysInIsMonthDays(y, m);
    Quotient(MonthIndex(y, m), 12, y, m - 1);
  }

  lemma MonthOfDay(day: int, k: int)
    requires MonthStart(k) <= day < MonthStart(k + 1)
    ensures MonthIndex(DateOf(day).year, DateOf(day).month) == k
    ensures 1 <= DateOf(day).month <= 12
  {
    hide DateOf, MonthStart;
    DateRoundTrip(day);
    var t := DateOf(day);
    MonthUnique(day, k, MonthIndex(t.year, t.month));
  }

  lemma DayBounds(u: int)
    ensures DayNumber(u) * DAY <= u < (DayNumber(u) + 1) * DAY
  {
  }

  /** The month window runs from one grid point to the next and contains the instant. */
  lemma MonthGridIsCell(anchor: Option<int>, u: int) returns (k: int)
    ensures MonthGrid(anchor, u) == Window(MonthPoint(anchor, k), MonthPoint(anchor, k + 1))
    ensures MonthPoint(anchor, k) <= u < MonthPoint(anchor, k + 1)
  {
    hide DateOf, MonthStart, MonthLength, Phase, MonthPoint, MonthShift;
    var t := DateOf(DayNumber(u));
    DateRoundTrip(DayNumber(u));
    var here := MonthIndex(t.year, t.month);
    AroundMonth(anchor, u, here);
    match anchor {
      case None =>
        k := here;
        FirstsArePoints(t.year, t.month);
      case Some(a) =>
        PhaseIsPoint(a, t.year, t.month);
        k := if MonthPoint(anchor, here) > u then here - 1 else here;
        MonthShiftAdds(t.year, t.month, -1);
        var before := MonthShift(t.year, t.month, -1);
        PhaseIsPoint(a, before.0, before.1);
        NextPoint(a, k);
    }
  }

  /** An instant of month k lies between the points of its neighbours; unanchored, between its own
      month's ends. */
  lemma AroundMonth(anchor: Option<int>, u: int, k: int)
    requires MonthStart(k) <= DayNumber(u) < MonthStart(k + 1)
    ensures MonthPoint(anchor, k - 1) <= u < MonthPoint(anchor, k + 1)
    ensures anchor.None? ==> MonthPoint(anchor, k) <= u
  {
    hide MonthStart, MonthLength, DateOf;
    DayBounds(u);
    PointInMonth(anchor, k - 1);
    PointInMonth(anchor, k);
    PointInMonth(anchor, k + 1);
  }

  lemma NextPoint(a: int, k: int)
    ensures var s := DateOf(DayNumber(MonthPoint(Some(a), k)));
            PhaseAt(a, MonthShift(s.year, s.month, 1)) == MonthPoint(Some(a), k + 1)
  {
    hide DateOf, MonthStart, MonthLength, Phase, MonthPoint, MonthShift;
    var at := MonthPoint(Some(a), k);
    PointInMonth(Some(a), k);
    MonthOfDay(DayNumber(at), k);
    var s := DateOf(DayNumber(at));
    MonthShiftAdds(s.year, s.month, 1);
    var next := MonthShift(s.year, s.month, 1);
    PhaseIsPoint(a, next.0, next.1);
  }

  lemma FirstsArePoints(y: int, m: int)
    ensures Midnight(y, m, 1) == MonthPoint(None, MonthIndex(y, m))
    ensures Midnight(y, m + 1, 1) == MonthPoint(None, MonthIndex(y, m) + 1)
  {
    hide MonthStart;
  }

  lemma PointsGrow(anchor: Option<int>, j: int, k: int)
    requires j < k
    ensures MonthPoint(anchor, j) < MonthPoint(anchor, k)
    decreases k - j
  {
    hide MonthPoint, MonthStart;
    PointInMonth(anchor, k - 1);
    PointInMonth(anchor, k);
    if j < k - 1 {
      PointsGrow(anchor, j, k - 1);
    }
  }

  lemma MonthCellUnique(anchor: Option<int>, u: int, k: int)
    requires MonthPoint(anchor, k) <= u < MonthPoint(anchor, k + 1)
    ensures MonthGrid(anchor, u) == Window(MonthPoint(anchor, k), MonthPoint(anchor, k + 1))
  {
    hide MonthPoint, MonthGrid;
    var j := MonthGridIsCell(anchor, u);
    if j < k {
      if j + 1 < k {
        PointsGrow(anchor, j + 1, k);
      }
    } else if k < j {
      if k + 1 < j {
        PointsGrow(anchor, k + 1, j);
      }
    }
  }

  lemma MonthTiles(anchor: Option<int>, now: int, t: int)
    ensures var w := MonthGrid(anchor, now);
            && w.start <= now < w.end
            && (w.start <= t < w.end ==> MonthGrid(anchor, t) == w)
            && MonthGrid(anchor, w.end).start == w.end
  {
    hide MonthPoint, MonthGrid;
    var k := MonthGridIsCell(anchor, now);
    var w := MonthGrid(anchor, now);
    if w.start <= t < w.end {
      MonthCellUnique(anchor, t, k);
    }
    PointsGrow(anchor, k + 1, k + 2);
    MonthCellUnique(anchor, w.end, k + 1);
  }

  // ---- Every kind tiles -----------------------------------------------------------------------------------

  predicate Tracked(l: Limits) {
    l.window.Daily? || l.window.Weekly? || l.window.Monthly? || RollingPeriod(l.window).Some?
  }

  /** Windows tile time, for every kind and anchor, month-end clamping and leap years included: the
      window contains its instant, every instant inside it yields the same window, and the window at
      its end starts there.  An unanchored rolling window needs a grid origin. */
  lemma WindowsTile(l: Limits, anchor: Option<int>, now: int, t: int)
    requires Tracked(l)
    requires l.window.Custom? ==> anchor.Some? || l.anchor.Some?
    ensures CurrentWindow(l, anchor, now).Some?
    ensures var w := CurrentWindow(l, anchor, now).value;
            && w.start <= now < w.end
            && (w.start <= t < w.end ==> CurrentWindow(l, anchor, t) == Some(w))
            && CurrentWindow(l, anchor, w.end).Some?
            && CurrentWindow(l, anchor, w.end).value.start == w.end
  {
    hide GridStart, MidnightOf, IsoWeekStart, MonthGrid;
    match l.window {
      case Daily =>
        if l.anchor.Some? {
          GridTiles(l.anchor.value, now, DAY, t);
        } else {
          GridTiles(0, now, DAY, t);
          MidnightIsGrid(now);
          MidnightIsGrid(t);
          MidnightIsGrid(MidnightOf(now) + DAY);
        }
      case Weekly =>
        if l.anchor.Some? {
          GridTiles(l.anchor.value, now, WEEK, t);
        } else {
          GridTiles(MONDAY, now, WEEK, t);
          IsoWeekIsGrid(now);
          IsoWeekIsGrid(t);
          IsoWeekIsGrid(IsoWeekStart(now) + WEEK);
        }
      case Monthly => MonthTiles(l.anchor, now, t);
      case Custom(_) =>
        var origin := if anchor.Some? then anchor.value else l.anchor.value;
        GridTiles(origin, now, RollingPeriod(l.window).value, t);
    }
  }
}
