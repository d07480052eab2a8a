/**
  What each kind of window is on the calendar: its length, and where it starts.
 */
module QuotaCalendar {
  import opened Prelude
  import opened Calendar
  import opened QuotaWindows
  import opened QuotaTracker

  /** The window has length d and starts a whole number of lengths from the origin. */
  ghost predicate OnGrid(w: Window, d: int, origin: int) {
    d > 0 && w.end - w.start == d && (w.start - origin) % d == 0
  }

  /** t falls on the date, at the time of day; day 0 is 1970-01-01. */
  ghost predicate FallsOn(t: int, date: Date, timeOfDay: int) {
    && 1 <= date.month <= 12 && 1 <= date.day <= MonthDays(date.year, date.month)
    && 0 <= timeOfDay < 86_400_000_000_000
    && t == DayOf(date.year, date.month, date.day) * 86_400_000_000_000 + timeOfDay
  }

  /** The month after. */
  ghost predicate Follows(y: int, m: int, y': int, m': int) {
    if m == 12 then y' == y + 1 && m' == 1 else y' == y && m' == m + 1
  }

  /** t is where the window of month m of year y starts: its first midnight, or the anchor's day of the
      month, the last if the month is shorter, at the anchor's time of day in whole seconds. */
  ghost predicate StartsMonth(t: int, y: int, m: int, anchor: Option<int>) {
    match anchor
    case None => FallsOn(t, Date(y, m, 1), 0)
    case Some(a) =>
      var day := DateOf(a / 86_400_000_000_000).day;
      FallsOn(t, Date(y, m, if day > MonthDays(y, m) then MonthDays(y, m) else day),
              a % 86_400_000_000_000 / 1_000_000_000 * 1_000_000_000)
  }

  /** From the start of one month's window to that of the next. */
  ghost predicate IsMonth(w: Window, anchor: Option<int>) {
    exists y, m, y', m' :: Follows(y, m, y', m') && StartsMonth(w.start, y, m, anchor) && StartsMonth(w.end, y', m', anchor)
  }

  /** The window is of the configured kind.  Daily: 24 hours, from a UTC midnight or whole days from the
      configured anchor.  Weekly: 7 days, from the midnight of a Monday (day 4 was one) or whole weeks
      from the anchor.  Monthly: a month.  Custom: its own duration, on the grid of its origin. */
  ghost predicate IsOfKind(w: Window, l: Limits, origin: int) {
    match l.window
    case Off => false
    case Daily => OnGrid(w, 86_400_000_000_000, if l.anchor.Some? then l.anchor.value else 0)
    case Weekly =>
      OnGrid(w, 604_800_000_000_000, if l.anchor.Some? then l.anchor.value else 4 * 86_400_000_000_000)
    case Monthly => IsMonth(w, l.anchor)
    case Custom(d) => d.Some? && OnGrid(w, d.value, origin)
  }

  lemma GridStartOnGrid(a: int, t: int, d: int)
    requires d > 0
    ensures OnGrid(Window(GridStart(a, t, d), GridStart(a, t, d) + d), d, a)
  {
    hide GridStart;
    GridCell(a, t, d);
    Quotient(GridStart(a, t, d) - a, d, (t - a) / d, 0);
  }

  lemma MondayGrid(t: int)
    ensures GridStart(MONDAY, t, WEEK) == GridStart(4 * DAY, t, WEEK)
  {
    hide GridStart;
    GridCell(MONDAY, t, WEEK);
    var k := (t - MONDAY) / WEEK;
    assert MONDAY + k * WEEK == 4 * DAY + (k - 1) * WEEK;
    GridCellUnique(4 * DAY, t, WEEK, k - 1);
  }

  /** Day 0 is 1970-01-01, which was a Thursday, so day 4 was a Monday. */
  lemma EpochDay()
    ensures DateOf(0) == Date(1970, 1, 1)
    ensures Weekday(0) == 4 && Weekday(4 * DAY) == 1
  {
    hide DateOf;
    assert MonthIndex(1970, 1) == 23640;
    assert MonthStart(23640) == 0;
    DayRoundTrip(1970, 1, 1);
    assert DayNumber(0) == 0 && DayNumber(4 * DAY) == 4;
  }

  lemma PointStartsMonth(anchor: Option<int>, k: int)
    ensures StartsMonth(MonthPoint(anchor, k), k / 12, k % 12 + 1, anchor)
  {
    hide DateOf, MonthStart, DaysBeforeMonth, DaysBeforeYear;
    MonthStep(k);
    assert MonthIndex(k / 12, k % 12 + 1) == k;
    if anchor.Some? {
      DateRoundTrip(DayNumber(anchor.value));
      TimeOfDay(anchor.value);
    }
  }

  lemma NextMonthFollows(k: int)
    ensures Follows(k / 12, k % 12 + 1, (k + 1) / 12, (k + 1) % 12 + 1)
  {
    if k % 12 == 11 {
      Quotient(k + 1, 12, k / 12 + 1, 0);
    } else {
      Quotient(k + 1, 12, k / 12, k % 12 + 1);
    }
  }

  lemma MonthGridIsMonth(anchor: Option<int>, u: int)
    ensures IsMonth(MonthGrid(anchor, u), anchor)
  {
    hide MonthPoint, MonthGrid, StartsMonth, Follows;
    var k := MonthGridIsCell(anchor, u);
    PointStartsMonth(anchor, k);
    PointStartsMonth(anchor, k + 1);
    NextMonthFollows(k);
  }

  /** Every kind of window is what its name says, and contains its instant. */
  lemma WindowIsOfKind(l: Limits, anchor: Option<int>, now: int)
    requires Tracked(l) && (l.window.Custom? ==> anchor.Some? || l.anchor.Some?)
    ensures var w := CurrentWindow(l, anchor, now);
            w.Some? && w.value.start <= now < w.value.end
            && IsOfKind(w.value, l, if anchor.Some? then anchor.value else if l.anchor.Some? then l.anchor.value else 0)
  {
    hide GridStart, MidnightOf, IsoWeekStart, MonthGrid, OnGrid, IsMonth;
    WindowsTile(l, anchor, now, now);
    match l.window {
      case Daily =>
        MidnightIsGrid(now);
        GridStartOnGrid(if l.anchor.Some? then l.anchor.value else 0, now, DAY);
      case Weekly =>
        IsoWeekIsGrid(now);
        MondayGrid(now);
        GridStartOnGrid(if l.anchor.Some? then l.anchor.value else 4 * DAY, now, WEEK);
      case Monthly => MonthGridIsMonth(l.anchor, now);
      case Custom(d) =>
        GridStartOnGrid(if anchor.Some? then anchor.value else l.anchor.value, now, d.value);
    }
  }

  /** A duration that did not parse, or is not positive, tracks nothing; a custom window without any
      origin runs from now. */
  lemma CustomWindows(l: Limits, now: int)
    requires l.window.Custom?
    ensures CurrentWindow(l, None, now).None? <==> l.window.duration.None? || l.window.duration.value <= 0
    ensures CurrentWindow(l, None, now).Some? && l.anchor.None? ==>
              CurrentWindow(l, None, now) == Some(Window(now, now + l.window.duration.value))
  {
  }

  /** So Status counts over a window of the configured kind: the origin of a custom one is its anchor or
      else the provider's first observation, or now if there is none. */
  lemma {:induction false} StatusWindowIsOfKind(limits: map<string, Limits>, log: seq<Observation>, provider: string, now: int)
    requires Chronological(log) && forall i :: 0 <= i < |log| ==> log[i].now <= now
    requires provider in limits && Tracked(limits[provider])
    ensures var l, i := limits[provider], First(log, |log|, provider);
            var st := StatusAt(limits, After(limits, log, |log|), provider, now);
            && st.Some? && st.value.window.Some?
            && IsOfKind(st.value.window.value, l,
                        if l.anchor.Some? then l.anchor.value else if i < 0 then now else log[i].now)
            && st.value.window.value.start <= now < st.value.window.value.end
  {
    hide CurrentWindow, After, StatusAt, IsOfKind;
    StatusWindow(limits, log, provider, now);
    var l, i := limits[provider], First(log, |log|, provider);
    WindowIsOfKind(l, if l.anchor.Some? then l.anchor else Some(if i < 0 then now else log[i].now), now);
  }
}
