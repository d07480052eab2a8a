/**
  The per-provider quota counters and the proof that they are the sum of exactly the observations
  logged in the current window.
 */
module QuotaTracker {
  import opened Prelude
  import opened QuotaWindows

  /** start is None until the first observation. */
  datatype WindowState = WindowState(start: Option<int>, usedTokens: int, usedRequests: int)

  const UNSEEN: WindowState := WindowState(None, 0, 0)

  datatype Status = Status(window: Option<Window>, usedTokens: int, usedRequests: int, exhausted: bool)

  datatype Observation = Observation(provider: string, tokens: int, requests: int, now: int)

  function AnchorOf(l: Limits, ws: WindowState): Option<int> {
    if l.anchor.Some? then l.anchor else ws.start
  }

  function StartOf(w: Option<Window>): Option<int> {
    if w.Some? then Some(w.value.start) else None
  }

  function Roll(l: Limits, ws: WindowState, now: int): WindowState {
    var start := StartOf(CurrentWindow(l, AnchorOf(l, ws), now));
    if ws.start == start then ws else WindowState(start, 0, 0)
  }

  function Exhausted(l: Limits, tokens: int, requests: int): bool {
    (l.limitTokens > 0 && tokens >= l.limitTokens) || (l.limitRequests > 0 && requests >= l.limitRequests)
  }

  type State = map<string, WindowState>

  function StateOf(s: State, provider: string): WindowState {
    if provider in s then s[provider] else UNSEEN
  }

  function Observed(limits: map<string, Limits>, s: State, o: Observation): State {
    if o.provider !in limits || limits[o.provider].window == Off then s
    else
      var ws := Roll(limits[o.provider], StateOf(s, o.provider), o.now);
      s[o.provider := ws.(usedTokens := ws.usedTokens + o.tokens, usedRequests := ws.usedRequests + o.requests)]
  }

  function StatusAt(limits: map<string, Limits>, s: State, provider: string, now: int): Option<Status> {
    if provider !in limits || limits[provider].window == Off then None
    else
      var l := limits[provider];
      var ws := StateOf(s, provider);
      var w := CurrentWindow(l, AnchorOf(l, ws), now);
      var live := ws.start == StartOf(w);
      var t, r := if live then ws.usedTokens else 0, if live then ws.usedRequests else 0;
      Some(Status(w, t, r, Exhausted(l, t, r)))
  }

  /** The state after the first n observations of the log. */
  function After(limits: map<string, Limits>, log: seq<Observation>, n: nat): State
    requires n <= |log|
  {
    if n == 0 then map[] else Observed(limits, After(limits, log, n - 1), log[n - 1])
  }

  ghost predicate Chronological(log: seq<Observation>) {
    forall i, j :: 0 <= i < j < |log| ==> log[i].now <= log[j].now
  }

  // ---- The log sum ---------------------------------------------------------------------------------

  datatype Sum = Sum(tokens: int, requests: int)

  /** What a provider used, over the first n observations, at instants in [lo, hi). */
  function LogSum(log: seq<Observation>, n: nat, provider: string, lo: int, hi: int): Sum
    requires n <= |log|
  {
    if n == 0 then Sum(0, 0)
    else
      var s := LogSum(log, n - 1, provider, lo, hi);
      var o := log[n - 1];
      if o.provider == provider && lo <= o.now < hi then Sum(s.tokens + o.tokens, s.requests + o.requests) else s
  }

  lemma {:induction false} NothingLogged(log: seq<Observation>, n: nat, provider: string, lo: int, hi: int)
    requires n <= |log|
    requires forall i :: 0 <= i < n && log[i].provider == provider ==> log[i].now < lo
    ensures LogSum(log, n, provider, lo, hi) == Sum(0, 0)
  {
    if n > 0 {
      NothingLogged(log, n - 1, provider, lo, hi);
    }
  }

  /** The last of the first n observations of a provider, or -1. */
  function Last(log: seq<Observation>, n: nat, provider: string): (i: int)
    requires n <= |log|
    ensures -1 <= i < n
    ensures i >= 0 ==> log[i].provider == provider
    ensures forall j :: i < j < n ==> log[j].provider != provider
  {
    if n == 0 then -1 else if log[n - 1].provider == provider then n - 1 else Last(log, n - 1, provider)
  }

  function First(log: seq<Observation>, n: nat, provider: string): (i: int)
    requires n <= |log|
    ensures -1 <= i < n
    ensures i >= 0 ==> log[i].provider == provider
  {
    if n == 0 then -1
    else
      var i := First(log, n - 1, provider);
      if i < 0 && log[n - 1].provider == provider then n - 1 else i
  }

  lemma {:induction false} FirstAndLast(log: seq<Observation>, n: nat, provider: string)
    requires n <= |log|
    ensures First(log, n, provider) < 0 <==> Last(log, n, provider) < 0
  {
    if n > 0 {
      FirstAndLast(log, n - 1, provider);
    }
  }

  /** The window of a provider at t on its fixed grid: the configured anchor, the calendar, or the
      instant the provider was first observed. */
  function GridWindow(l: Limits, firstSeen: int, t: int): Window
    requires Tracked(l)
  {
    WindowsTile(l, if l.anchor.Some? then l.anchor else Some(firstSeen), t, t);
    CurrentWindow(l, if l.anchor.Some? then l.anchor else Some(firstSeen), t).value
  }

  lemma GridWindowsTile(l: Limits, firstSeen: int, t: int, u: int)
    requires Tracked(l)
    ensures var w := GridWindow(l, firstSeen, t);
            w.start <= t < w.end && (w.start <= u < w.end ==> GridWindow(l, firstSeen, u) == w)
  {
    hide CurrentWindow;
    WindowsTile(l, if l.anchor.Some? then l.anchor else Some(firstSeen), t, u);
  }

  /** The code carries an unanchored rolling grid forward from window start to window start; it stays
      on the grid of the first observation. */
  lemma CarriedGrid(l: Limits, firstSeen: int, t: int, now: int)
    requires Tracked(l)
    ensures CurrentWindow(l, AnchorOf(l, WindowState(Some(GridWindow(l, firstSeen, t).start), 0, 0)), now)
         == Some(GridWindow(l, firstSeen, now))
  {
    hide GridStart, MonthGrid, MidnightOf, IsoWeekStart;
    WindowsTile(l, if l.anchor.Some? then l.anchor else Some(firstSeen), now, now);
    WindowsTile(l, if l.anchor.Some? then l.anchor else Some(firstSeen), t, t);
    if l.window.Custom? && l.anchor.None? {
      ReanchorNeverDrifts(firstSeen, t, now, RollingPeriod(l.window).value);
    }
  }

  lemma FirstWindow(l: Limits, now: int)
    requires Tracked(l)
    ensures CurrentWindow(l, AnchorOf(l, UNSEEN), now) == Some(GridWindow(l, now, now))
  {
    hide GridStart, MonthGrid, MidnightOf, IsoWeekStart;
    WindowsTile(l, if l.anchor.Some? then l.anchor else Some(now), now, now);
    if l.window.Custom? && l.anchor.None? {
      GridCellUnique(now, now, RollingPeriod(l.window).value, 0);
    }
  }

  /** The state a log leaves for one provider. */
  ghost predicate Tallied(l: Limits, log: seq<Observation>, n: nat, provider: string, ws: WindowState)
    requires Tracked(l) && n <= |log|
  {
    var i, j := First(log, n, provider), Last(log, n, provider);
    if j < 0 || i < 0 then ws == UNSEEN
    else
      var w := GridWindow(l, log[i].now, log[j].now);
      ws.start == Some(w.start) && Sum(ws.usedTokens, ws.usedRequests) == LogSum(log, n, provider, w.start, w.end)
  }

  /** Rolling a tallied state to `now`, no earlier than the log, tallies the window of now. */
  lemma {:induction false} RollTallies(l: Limits, log: seq<Observation>, n: nat, provider: string, ws: WindowState, now: int, firstSeen: int)
    requires Tracked(l) && n <= |log| && Tallied(l, log, n, provider, ws)
    requires Chronological(log) && forall i :: 0 <= i < n ==> log[i].now <= now
    requires firstSeen == if First(log, n, provider) < 0 then now else log[First(log, n, provider)].now
    ensures var w := GridWindow(l, firstSeen, now);
            && CurrentWindow(l, AnchorOf(l, ws), now) == Some(w)
            && (ws.start == Some(w.start) || LogSum(log, n, provider, w.start, w.end) == Sum(0, 0))
            && Roll(l, ws, now) == (var s := LogSum(log, n, provider, w.start, w.end);
                                    WindowState(Some(w.start), s.tokens, s.requests))
  {
    hide CurrentWindow, GridWindow, LogSum;
    FirstAndLast(log, n, provider);
    var w := GridWindow(l, firstSeen, now);
    GridWindowsTile(l, firstSeen, now, now);
    var j := Last(log, n, provider);
    if j < 0 {
      FirstWindow(l, now);
      NothingLogged(log, n, provider, w.start, w.end);
    } else {
      CarriedGrid(l, firstSeen, log[j].now, now);
      GridWindowsTile(l, firstSeen, now, log[j].now);
      GridWindowsTile(l, firstSeen, log[j].now, now);
      if ws.start != Some(w.start) {
        NothingLogged(log, n, provider, w.start, w.end);
      }
    }
  }

  lemma {:induction false} LogTallies(limits: map<string, Limits>, log: seq<Observation>, n: nat, provider: string)
    requires n <= |log| && Chronological(log)
    requires provider in limits && Tracked(limits[provider])
    ensures Tallied(limits[provider], log, n, provider, StateOf(After(limits, log, n), provider))
  {
    hide CurrentWindow, GridWindow;
    if n > 0 {
      LogTallies(limits, log, n - 1, provider);
      var o := log[n - 1];
      if o.provider == provider {
        var l := limits[provider];
        var i := First(log, n - 1, provider);
        var firstSeen := if i < 0 then o.now else log[i].now;
        RollTallies(l, log, n - 1, provider, StateOf(After(limits, log, n - 1), provider), o.now, firstSeen);
        GridWindowsTile(l, firstSeen, o.now, o.now);
      }
    }
  }

  /** For observations at non-decreasing instants, the counters Status reports are the sum over
      exactly the logged observations in the window it reports, which contains now; and it reports
      exhaustion exactly when one of them has reached its limit, a limit of 0 being none. */
  lemma {:induction false} StatusIsLogSum(limits: map<string, Limits>, log: seq<Observation>, provider: string, now: int)
    requires Chronological(log) && forall i :: 0 <= i < |log| ==> log[i].now <= now
    requires provider in limits && Tracked(limits[provider])
    ensures var st := StatusAt(limits, After(limits, log, |log|), provider, now);
            && st.Some? && st.value.window.Some?
            && var w := st.value.window.value;
               && w.start <= now < w.end
               && Sum(st.value.usedTokens, st.value.usedRequests) == LogSum(log, |log|, provider, w.start, w.end)
               && var l := limits[provider];
                  st.value.exhausted <==>
                    || (l.limitTokens > 0 && st.value.usedTokens >= l.limitTokens)
                    || (l.limitRequests > 0 && st.value.usedRequests >= l.limitRequests)
  {
    hide CurrentWindow, GridWindow, LogSum, After;
    var l := limits[provider];
    var i := First(log, |log|, provider);
    var firstSeen := if i < 0 then now else log[i].now;
    var ws := StateOf(After(limits, log, |log|), provider);
    LogTallies(limits, log, |log|, provider);
    RollTallies(l, log, |log|, provider, ws, now, firstSeen);
    GridWindowsTile(l, firstSeen, now, now);
  }

  // ---- Exhaustion lasts until the window ends ---------------------------------------------------------------

  lemma {:induction false} LogSumGrows(log: seq<Observation>, more: seq<Observation>, n: nat, m: nat, provider: string, lo: int, hi: int)
    requires n <= |log| && n <= m <= |log + more|
    requires m > n ==> n == |log|
    requires forall o :: o in more ==> o.tokens >= 0 && o.requests >= 0
    ensures LogSum(log + more, m, provider, lo, hi).tokens >= LogSum(log, n, provider, lo, hi).tokens
    ensures LogSum(log + more, m, provider, lo, hi).requests >= LogSum(log, n, provider, lo, hi).requests
    decreases m
  {
    if m > n {
      LogSumGrows(log, more, n, m - 1, provider, lo, hi);
    } else if m > 0 {
      LogSumGrows(log, more, n - 1, m - 1, provider, lo, hi);
    }
  }

  lemma {:induction false} FirstOfPrefix(log: seq<Observation>, more: seq<Observation>, n: nat, m: nat, provider: string)
    requires n <= |log| && n <= m <= |log + more| && (m > n ==> n == |log|)
    requires First(log, n, provider) >= 0
    ensures First(log + more, m, provider) == First(log, n, provider)
    decreases m
  {
    if m > n {
      FirstOfPrefix(log, more, n, m - 1, provider);
    } else if n > 0 {
      if First(log, n - 1, provider) >= 0 {
        FirstOfPrefix(log, more, n - 1, m - 1, provider);
      } else {
        FirstAbsent(log, more, n - 1, provider);
      }
    }
  }

  lemma {:induction false} FirstAbsent(log: seq<Observation>, more: seq<Observation>, n: nat, provider: string)
    requires n <= |log| && First(log, n, provider) < 0
    ensures First(log + more, n, provider) < 0
  {
    if n > 0 {
      FirstAbsent(log, more, n - 1, provider);
    }
  }

  /** The window Status reports: the grid window of now, on the grid of the first observation. */
  lemma {:induction false} StatusWindow(limits: map<string, Limits>, log: seq<Observation>, provider: string, now: int)
    requires Chronological(log) && forall i :: 0 <= i < |log| ==> log[i].now <= now
    requires provider in limits && Tracked(limits[provider])
    ensures var i := First(log, |log|, provider);
            var st := StatusAt(limits, After(limits, log, |log|), provider, now);
            st.Some? && st.value.window == Some(GridWindow(limits[provider], if i < 0 then now else log[i].now, now))
  {
    hide CurrentWindow, GridWindow, LogSum, After;
    var i := First(log, |log|, provider);
    LogTallies(limits, log, |log|, provider);
    RollTallies(limits[provider], log, |log|, provider, StateOf(After(limits, log, |log|), provider), now,
                if i < 0 then now else log[i].now);
  }

  lemma {:induction false} ObservedIfUsed(log: seq<Observation>, provider: string)
    ensures First(log, |log|, provider) < 0 ==>
              forall lo, hi :: LogSum(log, |log|, provider, lo, hi) == Sum(0, 0)
  {
    if First(log, |log|, provider) < 0 {
      FirstAndLast(log, |log|, provider);
      forall lo, hi
        ensures LogSum(log, |log|, provider, lo, hi) == Sum(0, 0)
      {
        NothingLogged(log, |log|, provider, lo, hi);
      }
    }
  }

  /** Once a provider is exhausted it stays exhausted until its window ends,
      whatever is observed meanwhile. */
  lemma {:induction false} ExhaustionLasts(limits: map<string, Limits>, log: seq<Observation>, more: seq<Observation>,
                        provider: string, now: int, later: int)
    requires Chronological(log + more) && now <= later
    requires forall i :: 0 <= i < |log| ==> log[i].now <= now
    requires forall i :: 0 <= i < |more| ==> now <= more[i].now <= later
    requires forall o :: o in more ==> o.tokens >= 0 && o.requests >= 0
    requires provider in limits && Tracked(limits[provider])
    requires var st := StatusAt(limits, After(limits, log, |log|), provider, now);
             st.Some? && st.value.exhausted && st.value.window.Some? && later < st.value.window.value.end
    ensures var st := StatusAt(limits, After(limits, log + more, |log + more|), provider, later);
            st.Some? && st.value.exhausted
  {
    hide CurrentWindow, GridWindow, LogSum, After, StatusAt;
    var all := log + more;
    assert Chronological(log) by {
      assert forall i :: 0 <= i < |log| ==> all[i] == log[i];
    }
    assert forall i :: 0 <= i < |all| ==> all[i].now <= later;
    StatusIsLogSum(limits, log, provider, now);
    ObservedIfUsed(log, provider);
    StatusIsLogSum(limits, all, provider, later);
    StatusWindow(limits, log, provider, now);
    StatusWindow(limits, all, provider, later);
    FirstOfPrefix(log, more, |log|, |all|, provider);
    var i := First(log, |log|, provider);
    GridWindowsTile(limits[provider], log[i].now, now, later);
    var w := GridWindow(limits[provider], log[i].now, now);
    LogSumGrows(log, more, |log|, |all|, provider, w.start, w.end);
  }

  // ---- The tracker -----------------------------------------------------------------------------------------------

  /** The tracker: the map of counters is updated in place under its mutex. */
  class Tracker {
    const limits: map<string, Limits>
    var state: State

    constructor (limits: map<string, Limits>)
      ensures this.limits == limits && state == After(limits, [], 0)
    {
      this.limits, state := limits, map[];
    }

    method RollTo(l: Limits, ws: WindowState, now: int) returns (r: WindowState)
      ensures r == Roll(l, ws, now)
    {
      r := ws;
      var anchor := ws.start;
      if l.anchor.Some? {
        anchor := l.anchor;
      }
      var start := StartOf(CurrentWindow(l, anchor, now));
      if r.start != start {
        r := WindowState(start, 0, 0);
      }
    }

    method Observe(provider: string, tokens: int, requests: int, now: int)
      modifies this`state
      ensures state == Observed(limits, old(state), Observation(provider, tokens, requests, now))
    {
      if provider !in limits || limits[provider].window == Off {
        return;
      }
      if provider !in state {
        state := state[provider := UNSEEN];
      }
      var ws := RollTo(limits[provider], state[provider], now);
      state := state[provider := ws.(usedTokens := ws.usedTokens + tokens, usedRequests := ws.usedRequests + requests)];
    }

    method GetStatus(provider: string, now: int) returns (st: Option<Status>)
      ensures st == StatusAt(limits, state, provider, now)
    {
      if provider !in limits || limits[provider].window == Off {
        return None;
      }
      var l := limits[provider];
      var ws := UNSEEN;
      if provider in state {
        ws := state[provider];
      }
      var anchor := ws.start;
      if l.anchor.Some? {
        anchor := l.anchor;
      }
      var w := CurrentWindow(l, anchor, now);
      var usedT, usedR := 0, 0;
      if ws.start == StartOf(w) {
        usedT, usedR := ws.usedTokens, ws.usedRequests;
      }
      return Some(Status(w, usedT, usedR, Exhausted(l, usedT, usedR)));
    }
  }
}
