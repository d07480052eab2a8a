/**
  The 60-second sliding window of the rate limiter: 60 one-second cells in a ring, and the proof
  that they count exactly the events logged in the last 60 seconds.  Instants are Unix seconds.
 */
module SlidingWindow {
  import opened Prelude

  const WINDOW: int := 60

  datatype Cell = Cell(sec: int, v: int)

  datatype Ev = Ev(at: int, v: int)

  // ---- The log ---------------------------------------------------------------------------------------

  /** What was logged at instants in [lo, hi). */
  function Logged(log: seq<Ev>, lo: int, hi: int): int {
    if |log| == 0 then 0
    else Logged(log[..|log| - 1], lo, hi) + if lo <= log[|log| - 1].at < hi then log[|log| - 1].v else 0
  }

  function Second(log: seq<Ev>, s: int): int {
    Logged(log, s, s + 1)
  }

  /** What was logged in the 60 seconds up to and including now. */
  function Count(log: seq<Ev>, now: int): int {
    Logged(log, now - WINDOW + 1, now + 1)
  }

  ghost predicate LogUpTo(log: seq<Ev>, t: int) {
    forall i :: 0 <= i < |log| ==> 0 < log[i].at <= t && log[i].v > 0
  }

  lemma {:induction false} LoggedNonNegative(log: seq<Ev>, lo: int, hi: int, t: int)
    requires LogUpTo(log, t)
    ensures Logged(log, lo, hi) >= 0
  {
    if |log| > 0 {
      LoggedNonNegative(log[..|log| - 1], lo, hi, t);
    }
  }

  lemma {:induction false} LoggedGrows(log: seq<Ev>, lo: int, hi: int, lo': int, hi': int, t: int)
    requires LogUpTo(log, t) && lo' <= lo && (hi <= hi' || t < hi')
    ensures Logged(log, lo, hi) <= Logged(log, lo', hi')
  {
    if |log| > 0 {
      LoggedGrows(log[..|log| - 1], lo, hi, lo', hi', t);
    }
  }

  lemma {:induction false} LoggedSplits(log: seq<Ev>, lo: int, mid: int, hi: int)
    requires lo <= mid <= hi
    ensures Logged(log, lo, hi) == Logged(log, lo, mid) + Logged(log, mid, hi)
  {
    if |log| > 0 {
      LoggedSplits(log[..|log| - 1], lo, mid, hi);
    }
  }

  lemma {:induction false} LoggedAppend(log: seq<Ev>, e: Ev, lo: int, hi: int)
    ensures Logged(log + [e], lo, hi) == Logged(log, lo, hi) + if lo <= e.at < hi then e.v else 0
  {
    assert (log + [e])[..|log|] == log;
  }

  lemma {:induction false} LoggedPast(log: seq<Ev>, lo: int, hi: int, t: int)
    requires LogUpTo(log, t) && t < lo
    ensures Logged(log, lo, hi) == 0
  {
    if |log| > 0 {
      LoggedPast(log[..|log| - 1], lo, hi, t);
    }
  }

  // ---- The ring -----------------------------------------------------------------------------------------

  predicate Live(c: Cell, now: int) {
    c.v != 0 && now - c.sec < WINDOW
  }

  /** The second of the window ending at now that falls in cell i. */
  function SecondOf(now: int, i: int): int {
    now - (now - i) % WINDOW
  }

  /** The ring after aging: stale cells zeroed. */
  function Aged(w: seq<Cell>, now: int): (r: seq<Cell>)
    ensures |r| == |w|
    ensures forall i :: 0 <= i < |w| ==> r[i] == if Live(w[i], now) then w[i] else w[i].(v := 0)
  {
    seq(|w|, i requires 0 <= i < |w| => if Live(w[i], now) then w[i] else w[i].(v := 0))
  }

  function RingSum(w: seq<Cell>, now: int, n: nat): int
    requires n <= |w|
  {
    if n == 0 then 0 else RingSum(w, now, n - 1) + if Live(w[n - 1], now) then w[n - 1].v else 0
  }

  function RingOldest(w: seq<Cell>, now: int, n: nat): int
    requires n <= |w|
  {
    if n == 0 then 0
    else
      var o := RingOldest(w, now, n - 1);
      if Live(w[n - 1], now) && (o == 0 || w[n - 1].sec < o) then w[n - 1].sec else o
  }

  function Added(w: seq<Cell>, now: int, v: int): seq<Cell>
    requires |w| == WINDOW
  {
    var i := now % WINDOW;
    w[i := Cell(now, if w[i].sec != now then v else w[i].v + v)]
  }

  /** The ring holds the log as of t: each non-zero cell counts one second of it, and each second of
      the last 60 is where it should be. */
  ghost predicate Represents(w: seq<Cell>, log: seq<Ev>, t: int) {
    && |w| == WINDOW
    && LogUpTo(log, t)
    && (forall i :: 0 <= i < WINDOW && w[i].v != 0 ==>
          0 < w[i].sec <= t && w[i].sec % WINDOW == i && w[i].v == Second(log, w[i].sec))
    && (forall s :: t - WINDOW < s <= t && Second(log, s) != 0 ==>
          w[s % WINDOW].sec == s && w[s % WINDOW].v == Second(log, s))
  }

  lemma SecondOfUnique(now: int, i: int, s: int)
    requires 0 <= i < WINDOW && now - WINDOW < s <= now
    ensures s % WINDOW == i <==> s == SecondOf(now, i)
  {
  }

  /** Each cell contributes what was logged in its second of the window. */
  lemma CellCounts(w: seq<Cell>, log: seq<Ev>, t: int, now: int, i: int)
    requires Represents(w, log, t) && t <= now && 0 <= i < WINDOW
    ensures var s := SecondOf(now, i);
            && now - WINDOW < s <= now
            && Second(log, s) == (if Live(w[i], now) then w[i].v else 0)
            && (Live(w[i], now) ==> w[i].sec == s)
  {
    var s := SecondOf(now, i);
    SecondOfUnique(now, i, s);
    if Live(w[i], now) {
      SecondOfUnique(now, i, w[i].sec);
    }
    if s > t {
      LoggedPast(log, s, s + 1, t);
    }
  }

  lemma AgingKeepsLog(w: seq<Cell>, log: seq<Ev>, t: int, now: int)
    requires Represents(w, log, t) && t <= now
    ensures Represents(Aged(w, now), log, now)
  {
    hide Logged;
    forall s | now - WINDOW < s <= now && Second(log, s) != 0
      ensures Aged(w, now)[s % WINDOW].sec == s && Aged(w, now)[s % WINDOW].v == Second(log, s)
    {
      SecondOfUnique(now, s % WINDOW, s);
      CellCounts(w, log, t, now, s % WINDOW);
    }
  }

  /** A ring not touched for a while still represents its log: staleness is relative to the reading. */
  lemma RepresentsLater(w: seq<Cell>, log: seq<Ev>, t: int, now: int)
    requires Represents(w, log, t) && t <= now
    ensures Represents(w, log, now)
  {
    hide Logged;
    forall s | t < s <= now
      ensures Second(log, s) == 0
    {
      LoggedPast(log, s, s + 1, t);
    }
  }

  lemma EmptyRing(w: seq<Cell>, t: int)
    requires |w| == WINDOW && t >= 0 && forall i :: 0 <= i < WINDOW ==> w[i].v == 0
    ensures Represents(w, [], t)
  {
  }

  lemma AddingKeepsLog(w: seq<Cell>, log: seq<Ev>, t: int, now: int, v: int)
    requires Represents(w, log, t) && t <= now && now > 0 && v > 0
    ensures Represents(Added(w, now, v), log + [Ev(now, v)], now)
  {
    hide Logged;
    var r := Added(w, now, v);
    var log' := log + [Ev(now, v)];
    LoggedNonNegative(log, now, now + 1, t);
    forall s
      ensures Second(log', s) == Second(log, s) + if s == now then v else 0
    {
      LoggedAppend(log, Ev(now, v), s, s + 1);
    }
    if t < now {
      LoggedPast(log, now, now + 1, t);
    }
    forall s | now - WINDOW < s <= now && Second(log', s) != 0
      ensures r[s % WINDOW].sec == s && r[s % WINDOW].v == Second(log', s)
    {
      SecondOfUnique(now, s % WINDOW, s);
      CellCounts(w, log, t, now, s % WINDOW);
      SecondOfUnique(now, now % WINDOW, now);
    }
  }

  // ---- The sum over cells is the count over seconds --------------------------------------------------------

  /** The window's events whose second falls in the first n cells. */
  function Partial(log: seq<Ev>, now: int, n: nat): int {
    if |log| == 0 then 0
    else
      var e := log[|log| - 1];
      Partial(log[..|log| - 1], now, n)
      + if now - WINDOW < e.at <= now && e.at % WINDOW < n then e.v else 0
  }

  lemma {:induction false} PartialStep(log: seq<Ev>, now: int, n: nat)
    requires n < WINDOW
    ensures Partial(log, now, n + 1) == Partial(log, now, n) + Second(log, SecondOf(now, n))
  {
    if |log| > 0 {
      PartialStep(log[..|log| - 1], now, n);
      var e := log[|log| - 1];
      if now - WINDOW < e.at <= now {
        SecondOfUnique(now, n, e.at);
      } else {
        SecondOfUnique(now, n, SecondOf(now, n));
      }
    }
  }

  lemma {:induction false} PartialNone(log: seq<Ev>, now: int)
    ensures Partial(log, now, 0) == 0
  {
    if |log| > 0 {
      PartialNone(log[..|log| - 1], now);
    }
  }

  lemma {:induction false} PartialAll(log: seq<Ev>, now: int)
    ensures Partial(log, now, 60) == Count(log, now)
  {
    if |log| > 0 {
      PartialAll(log[..|log| - 1], now);
    }
  }

  lemma {:induction false} RingSumIsPartial(w: seq<Cell>, log: seq<Ev>, t: int, now: int, n: nat)
    requires Represents(w, log, t) && t <= now && n <= WINDOW
    ensures RingSum(w, now, n) == Partial(log, now, n)
  {
    hide Partial, Logged;
    if n == 0 {
      PartialNone(log, now);
    } else {
      RingSumIsPartial(w, log, t, now, n - 1);
      PartialStep(log, now, n - 1);
      CellCounts(w, log, t, now, n - 1);
    }
  }

  /** The ring sum is the exact count of the last 60 seconds. */
  lemma {:induction false} RingSumIsCount(w: seq<Cell>, log: seq<Ev>, t: int, now: int)
    requires Represents(w, log, t) && t <= now
    ensures RingSum(w, now, 60) == Count(log, now)
  {
    RingSumIsPartial(w, log, t, now, 60);
    PartialAll(log, now);
  }

  /** The oldest second that still counts, or 0 when nothing does. */
  ghost predicate IsOldest(log: seq<Ev>, now: int, oldest: int) {
    if oldest == 0 then Count(log, now) == 0
    else
      && now - WINDOW < oldest <= now
      && Second(log, oldest) > 0
      && Logged(log, now - WINDOW + 1, oldest) == 0
  }

  lemma {:induction false} RingOldestIsLeast(w: seq<Cell>, now: int, n: nat)
    requires n <= |w| && forall i :: 0 <= i < |w| && w[i].v != 0 ==> w[i].sec > 0
    ensures var o := RingOldest(w, now, n);
            && (o != 0 ==> exists i :: 0 <= i < n && Live(w[i], now) && w[i].sec == o)
            && (forall i :: 0 <= i < n && Live(w[i], now) ==> o != 0 && o <= w[i].sec)
  {
    if n > 0 {
      RingOldestIsLeast(w, now, n - 1);
    }
  }

  /** Nothing logged from lo up to hi when no second in between has anything. */
  lemma {:induction false} NothingBetween(log: seq<Ev>, lo: int, hi: int)
    requires forall s :: lo <= s < hi ==> Second(log, s) == 0
    ensures Logged(log, lo, hi) == 0
    decreases hi - lo
  {
    if lo < hi {
      NothingBetween(log, lo + 1, hi);
      assert Second(log, lo) == 0;
      LoggedSplits(log, lo, lo + 1, hi);
    } else {
      LoggedEmpty(log, lo, hi);
    }
  }

  lemma {:induction false} LoggedEmpty(log: seq<Ev>, lo: int, hi: int)
    requires lo >= hi
    ensures Logged(log, lo, hi) == 0
  {
    if |log| > 0 {
      LoggedEmpty(log[..|log| - 1], lo, hi);
    }
  }

  lemma {:induction false} RingOldestIsOldest(w: seq<Cell>, log: seq<Ev>, t: int, now: int)
    requires Represents(w, log, t) && t <= now
    ensures IsOldest(log, now, RingOldest(w, now, 60))
  {
    hide Logged;
    var o := RingOldest(w, now, 60);
    RingOldestIsLeast(w, now, 60);
    var hi := if o == 0 then now + 1 else o;
    if o != 0 {
      var i :| 0 <= i < 60 && Live(w[i], now) && w[i].sec == o;
      CellCounts(w, log, t, now, i);
      LoggedNonNegative(log, o, o + 1, t);
    }
    forall s | now - WINDOW + 1 <= s < hi
      ensures Second(log, s) == 0
    {
      CellCounts(w, log, t, now, s % WINDOW);
      SecondOfUnique(now, s % WINDOW, s);
    }
    NothingBetween(log, now - WINDOW + 1, hi);
  }

  // ---- Admission over runs -------------------------------------------------------------------------------------

  /** One request under a fixed limit. */
  function Admit(log: seq<Ev>, now: int, rpm: int): seq<Ev> {
    if Count(log, now) < rpm then log + [Ev(now, 1)] else log
  }

  /** The admissions among requests at the first n of the given instants. */
  function Admissions(times: seq<int>, n: nat, rpm: int): seq<Ev>
    requires n <= |times|
  {
    if n == 0 then [] else Admit(Admissions(times, n - 1, rpm), times[n - 1], rpm)
  }

  lemma {:induction false} AdmissionsUpTo(times: seq<int>, n: nat, rpm: int, t: int)
    requires n <= |times| && NonDecreasing(times) && (|times| > 0 ==> times[0] > 0)
    requires n > 0 ==> times[n - 1] <= t
    ensures LogUpTo(Admissions(times, n, rpm), t)
  {
    if n > 0 {
      if n > 1 {
        assert times[n - 2] <= times[n - 1];
        AdmissionsUpTo(times, n - 1, rpm, times[n - 2]);
      }
    }
  }

  /** No 60 consecutive seconds admit more than rpm requests. */
  lemma {:induction false} NeverOverLimit(times: seq<int>, n: nat, rpm: int, s: int)
    requires n <= |times| && NonDecreasing(times) && (|times| > 0 ==> times[0] > 0) && rpm > 0
    ensures Logged(Admissions(times, n, rpm), s, s + WINDOW) <= rpm
  {
    if n > 0 {
      var now := times[n - 1];
      var log := Admissions(times, n - 1, rpm);
      NeverOverLimit(times, n - 1, rpm, s);
      if Count(log, now) < rpm {
        LoggedAppend(log, Ev(now, 1), s, s + WINDOW);
        if s <= now < s + WINDOW {
          if n > 1 {
            assert times[n - 2] <= now;
          }
          AdmissionsUpTo(times, n - 1, rpm, now);
          LoggedGrows(log, s, s + WINDOW, now - WINDOW + 1, now + 1, now);
        }
      }
    }
  }

  /** The seconds to wait that a refusal reports. */
  function RetryAfter(oldest: int, now: int): int {
    Max(1, (if oldest == 0 then now else oldest) + WINDOW - now)
  }

  /** Under one fixed limit the retry value is tight: refused at every earlier second, admitted at
      that second, if nothing else was admitted meanwhile. */
  lemma {:induction false} RetryIsTight(times: seq<int>, rpm: int, now: int, oldest: int, u: int)
    requires NonDecreasing(times) && (|times| > 0 ==> times[0] > 0 && times[|times| - 1] <= now) && rpm > 0
    requires var log := Admissions(times, |times|, rpm);
             Count(log, now) >= rpm && IsOldest(log, now, oldest)
    ensures var log := Admissions(times, |times|, rpm);
            var retry := RetryAfter(oldest, now);
            && 1 <= retry <= WINDOW
            && (now <= u < now + retry ==> Count(log, u) >= rpm)
            && Count(log, now + retry) < rpm
  {
    var log := Admissions(times, |times|, rpm);
    AdmissionsUpTo(times, |times|, rpm, now);
    NeverEarly(log, now, oldest, rpm, u);
    NeverOverLimit(times, |times|, rpm, now - WINDOW + 1);
    var back := oldest + WINDOW;
    LoggedSplits(log, now - WINDOW + 1, oldest + 1, now + 1);
    LoggedSplits(log, now - WINDOW + 1, oldest, oldest + 1);
    LoggedGrows(log, back - WINDOW + 1, back + 1, oldest + 1, now + 1, now);
  }

  /** Whatever the events weigh, a window at its limit stays there until the retry second. */
  lemma NeverEarly(log: seq<Ev>, now: int, oldest: int, limit: int, u: int)
    requires LogUpTo(log, now) && limit > 0 && Count(log, now) >= limit && IsOldest(log, now, oldest)
    ensures 1 <= RetryAfter(oldest, now) <= WINDOW && oldest != 0
    ensures now <= u < now + RetryAfter(oldest, now) ==> Count(log, u) >= limit
  {
    LoggedSplits(log, now - WINDOW + 1, oldest, now + 1);
    if now <= u < oldest + WINDOW {
      LoggedGrows(log, oldest, now + 1, u - WINDOW + 1, u + 1, now);
    }
  }

  /** For any weights the retry second lifts the block, if nothing else is logged meanwhile, exactly
      when what was logged after the oldest second is under the limit. */
  lemma {:induction false} RetryLiftsExactlyWhen(log: seq<Ev>, now: int, oldest: int, limit: int)
    requires LogUpTo(log, now) && limit > 0 && Count(log, now) >= limit && IsOldest(log, now, oldest)
    ensures Count(log, now + RetryAfter(oldest, now)) < limit <==> Logged(log, oldest + 1, now + 1) < limit
  {
    NeverEarly(log, now, oldest, limit, now);
    var back := oldest + WINDOW;
    LoggedGrows(log, back - WINDOW + 1, back + 1, oldest + 1, now + 1, now);
    LoggedGrows(log, oldest + 1, now + 1, back - WINDOW + 1, back + 1, now);
  }

  /** For tokens the retry value is a lower bound only: a later burst can outlast the oldest one. */
  lemma TokenRetryNotTight()
    ensures var log := [Ev(1, 600), Ev(2, 600)];
            && LogUpTo(log, 2) && Count(log, 2) >= 500 && IsOldest(log, 2, 1)
            && Count(log, 2 + RetryAfter(1, 2)) >= 500
  {
    var log := [Ev(1, 600), Ev(2, 600)];
    forall lo, hi
      ensures Logged(log, lo, hi) == (if lo <= 1 < hi then 600 else 0) + (if lo <= 2 < hi then 600 else 0)
    {
      LoggedAppend([Ev(1, 600)], Ev(2, 600), lo, hi);
      LoggedAppend([], Ev(1, 600), lo, hi);
      assert [] + [Ev(1, 600)] == [Ev(1, 600)];
      assert [Ev(1, 600)] + [Ev(2, 600)] == log;
    }
  }
}
