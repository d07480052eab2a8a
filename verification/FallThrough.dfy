/**
  How a request moves from target to target: which turns each target finds, when the request is
  served, and which error a refused one returns.
 */
module FallThrough {
  import opened Prelude
  import opened Fallback

  // ---- How one leg ends --------------------------------------------------------------------------------

  /** A leg that falls gives the error of its last call, or that of an empty pool it would not wait for;
      one that ends the request with a refusal gives a client that hung up, or the error of its last
      call, which is then one that ends the request. */
  ghost predicate EndSays(leg: Leg, last: Why, script: seq<Turn>, r: LegRun) {
    var final := if |r.calls| > 0 then Some(r.calls[|r.calls| - 1].reply) else None;
    && |r.rest| <= |script| && r.rest == script[|script| - |r.rest|..]
    && (r.end.Fell? ==>
          || (r.end.why == PoolEmpty && !leg.retryForever && |r.rest| < |script|
              && !script[|script| - |r.rest| - 1].account)
          || (final.None? && !leg.retryForever && r.rest == script && r.end.why == last)
          || (final.Some? && final.value.Failed? && r.end.why == Upstream(final.value.err)
              && !EndsRequest(leg, final.value)))
    && (r.end.Returned? && r.end.outcome.Refused? ==>
          || r.end.outcome.why == ClientClosed
          || (final.Some? && final.value.Failed? && r.end.outcome.why == Upstream(final.value.err)
              && EndsRequest(leg, final.value)))
    && (r.end.Returned? && r.end.outcome.Pending? ==> r.rest == [])
  }

  lemma ConsSays(leg: Leg, last: Why, script: seq<Turn>, c: Call, r: LegRun)
    requires |script| > 0 && c.reply.Failed? && !EndsRequest(leg, c.reply)
    requires EndSays(leg, Upstream(c.reply.err), script[1..], r)
    ensures EndSays(leg, last, script, Cons(c, r))
  {
    hide EndsRequest;
    var all := [c] + r.calls;
    assert |r.calls| > 0 ==> all[|all| - 1] == r.calls[|r.calls| - 1];
    assert script[1..][|script| - 1 - |r.rest|..] == script[|script| - |r.rest|..];
  }

  lemma WaitSays(leg: Leg, last: Why, script: seq<Turn>, r: LegRun)
    requires |script| > 0 && leg.retryForever && EndSays(leg, last, script[1..], r)
    ensures EndSays(leg, last, script, r)
  {
    hide EndsRequest;
    assert script[1..][|script| - 1 - |r.rest|..] == script[|script| - |r.rest|..];
  }

  lemma {:induction false} LegSays(cfg: Config, leg: Leg, t: nat, attempt: nat, gated: nat, last: Why, script: seq<Turn>)
    ensures EndSays(leg, last, script, RunLeg(cfg, leg, t, attempt, gated, last, script))
    decreases |script|
  {
    hide Judge, EndsRequest, AfterFailure;
    if (leg.retryForever || attempt < Attempts(cfg) || gated > 0) && |script| > 0 {
      var turn, rest := script[0], script[1..];
      if turn.account && turn.reply.Failed? {
        hide EndSays;
        FailureSays(cfg, leg, t, attempt, gated, last, script);
      } else if !turn.account && leg.retryForever && !turn.hangUp {
        hide EndSays;
        LegSays(cfg, leg, t, attempt, gated, last, rest);
        WaitSays(leg, last, script, RunLeg(cfg, leg, t, attempt, gated, last, rest));
      }
    }
  }

  lemma {:induction false} FailureSays(cfg: Config, leg: Leg, t: nat, attempt: nat, gated: nat, last: Why, script: seq<Turn>)
    requires |script| > 0 && script[0].account && script[0].reply.Failed?
    ensures EndSays(leg, last, script, AfterFailure(cfg, leg, t, attempt, gated, script[0], script[1..]))
    decreases |script|, 0
  {
    hide Judge, EndsRequest, RunLeg;
    var turn, rest := script[0], script[1..];
    var c, e := Call(t, turn.reply), turn.reply.err;
    var v, why := Judge(leg, e), Upstream(e);
    DispatchAgrees(leg, e);
    if v.GatedRotate? && gated < leg.accounts && !turn.hangUp {
      LegSays(cfg, leg, t, attempt, gated + 1, why, rest);
      ConsSays(leg, last, script, c, RunLeg(cfg, leg, t, attempt, gated + 1, why, rest));
    } else if v.RetryNow? || (v.RetryAfterWait? && !turn.hangUp) {
      LegSays(cfg, leg, t, attempt + 1, gated, why, rest);
      ConsSays(leg, last, script, c, RunLeg(cfg, leg, t, attempt + 1, gated, why, rest));
    } else {
      assert rest == script[1..];
    }
  }

  /** The same from the first attempt on, which is always made. */
  ghost predicate FirstSays(leg: Leg, script: seq<Turn>, r: LegRun) {
    EndSays(leg, NoRoute, script, r) && (r.end.Fell? ==> r.end.why != NoRoute)
  }

  lemma {:induction false} AttemptsSay(cfg: Config, leg: Leg, t: nat, script: seq<Turn>)
    ensures FirstSays(leg, script, RunLeg(cfg, leg, t, 0, 0, NoRoute, script))
  {
    hide EndsRequest, Judge;
    var r := RunLeg(cfg, leg, t, 0, 0, NoRoute, script);
    LegSays(cfg, leg, t, 0, 0, NoRoute, script);
    if |script| > 0 && !script[0].account && leg.retryForever && !script[0].hangUp {
      LegSays(cfg, leg, t, 0, 0, NoRoute, script[1..]);
    }
  }

  // ---- The turns each target finds -----------------------------------------------------------------------

  /** The request goes on to the next target, if any, once a leg falls: it is not a combo, or combo
      fallback is on. */
  predicate GoesOn(cfg: Config) {
    cfg.isCombo ==> cfg.fallbackOn
  }

  /** The panic guard: a retry_forever combo leg that fell without a refusal. */
  predicate Guarded(cfg: Config, leg: Leg, end: LegEnd) {
    end.Fell? && leg.retryForever && cfg.isCombo && !end.refusal
  }

  /** The turns that are left when the request gets to target t; None when it is over before. */
  function Left(cfg: Config, legs: seq<Leg>, t: nat, script: seq<Turn>): Option<seq<Turn>>
    requires t <= |legs|
  {
    if t == 0 then Some(script)
    else
      var s := Left(cfg, legs, t - 1, script);
      if s.None? || Stalls(legs[t - 1]) then None
      else if !StartsOn(legs[t - 1]) then s
      else
        var r := RunLeg(cfg, legs[t - 1], t - 1, 0, 0, NoRoute, s.value);
        if r.end.Returned? || Guarded(cfg, legs[t - 1], r.end) then None else Some(r.rest)
  }

  /** Target t is tried, and this is how that went. */
  function Tried(cfg: Config, legs: seq<Leg>, t: nat, script: seq<Turn>): Option<LegRun>
    requires t < |legs|
  {
    var s := Left(cfg, legs, t, script);
    if s.None? || !StartsOn(legs[t]) then None else Some(RunLeg(cfg, legs[t], t, 0, 0, NoRoute, s.value))
  }

  /** Why target t did not serve a request that went on past it. */
  function Complaint(cfg: Config, legs: seq<Leg>, t: nat, script: seq<Turn>): Why
    requires t < |legs|
  {
    if !legs[t].known then UnknownProvider
    else if legs[t].disabled then ProviderDisabled
    else
      var r := Tried(cfg, legs, t, script);
      if r.Some? && r.value.end.Fell? then r.value.end.why else ModelBenched
  }

  lemma {:induction false} OverStaysOver(cfg: Config, legs: seq<Leg>, i: nat, t: nat, script: seq<Turn>)
    requires i <= t <= |legs| && Left(cfg, legs, i, script).None?
    ensures Left(cfg, legs, t, script).None?
    decreases t
  {
    hide RunLeg;
    if i < t {
      OverStaysOver(cfg, legs, i, t - 1, script);
    }
  }

  /** What the targets from i on, which find the turns s, contribute. */
  ghost predicate TakesTurns(cfg: Config, legs: seq<Leg>, i: nat, script: seq<Turn>, r: Run, t: nat)
    requires i <= t < |legs|
  {
    var w := Tried(cfg, legs, t, script);
    OnTarget(r.calls, t) == if w.Some? then w.value.calls else []
  }

  lemma {:induction false} TurnsFrom(cfg: Config, legs: seq<Leg>, i: nat, script: seq<Turn>, tried: bool, last: Option<Why>, s: seq<Turn>, t: nat)
    requires GoesOn(cfg) && i <= t < |legs| && Left(cfg, legs, i, script) == Some(s)
    ensures TakesTurns(cfg, legs, i, script, RunFrom(cfg, legs, i, tried, last, s), t)
    decreases |legs| - i
  {
    hide RunLeg, LegInv, RunInv, OnTarget;
    var leg := legs[i];
    NoCallsOnTarget(t);
    if Left(cfg, legs, i + 1, script).None? && i < t {
      OverStaysOver(cfg, legs, i + 1, t, script);
    }
    if StartsOn(leg) {
      var r := RunLeg(cfg, leg, i, 0, 0, NoRoute, s);
      LegShape(cfg, leg, i, 0, 0, NoRoute, s);
      OneLegOnTarget(leg, i, r, t);
      if r.end.Fell? && !Guarded(cfg, leg, r.end) {
        var rest := RunFrom(cfg, legs, i + 1, true, Some(r.end.why), r.rest);
        RunShape(cfg, legs, i + 1, true, Some(r.end.why), r.rest);
        OnTargetSplit(legs, i, r, rest, t);
        if i < t {
          TurnsFrom(cfg, legs, i + 1, script, true, Some(r.end.why), r.rest, t);
        }
      }
    } else if !Stalls(leg) {
      var why := if !leg.known then UnknownProvider else if leg.disabled then ProviderDisabled else ModelBenched;
      if i < t {
        TurnsFrom(cfg, legs, i + 1, script, tried, Some(why), s, t);
      } else {
        LaterUncalled(cfg, legs, t, tried, Some(why), s);
      }
    }
  }

  /** A leg that falls, for whatever reason, leaves the turns it did not use to the next target the
      request can start on: every target's calls are its attempts on what the ones before it left. */
  lemma {:induction false} TargetsTakeTurns(cfg: Config, legs: seq<Leg>, script: seq<Turn>, t: nat)
    requires GoesOn(cfg) && t < |legs|
    ensures var w := Tried(cfg, legs, t, script);
            OnTarget(Execute(cfg, legs, script).calls, t) == if w.Some? then w.value.calls else []
  {
    TurnsFrom(cfg, legs, 0, script, false, None, script, t);
  }

  /** The request ends on target t: the client hangs up while its bench is waited out, its attempts
      return, or the panic guard fires.  The last attempt is then the last call of all. */
  ghost predicate Stops(cfg: Config, legs: seq<Leg>, t: nat, script: seq<Turn>, r: Run)
    requires t < |legs|
  {
    var w := Tried(cfg, legs, t, script);
    && Left(cfg, legs, t, script).Some?
    && (|| (Stalls(legs[t]) && r.outcome == Refused(ClientClosed))
        || (w.Some? && w.value.end == Returned(r.outcome))
        || (w.Some? && Guarded(cfg, legs[t], w.value.end) && r.outcome == Panicked))
    && (w.Some? && |w.value.calls| > 0 ==>
          |r.calls| > 0 && r.calls[|r.calls| - 1] == w.value.calls[|w.value.calls| - 1])
  }

  /** The last call, if there is one, is not one after which a request makes no other. */
  ghost predicate LeavesOff(legs: seq<Leg>, calls: seq<Call>) {
    |calls| > 0 ==>
      && calls[|calls| - 1].target < |legs|
      && !EndsRequest(legs[calls[|calls| - 1].target], calls[|calls| - 1].reply)
  }

  /** How the request ends from target i on: on a target, or past the last one with its complaint. */
  ghost predicate EndsWell(cfg: Config, legs: seq<Leg>, i: nat, script: seq<Turn>, last: Option<Why>, r: Run)
    requires i <= |legs|
  {
    if Left(cfg, legs, |legs|, script).Some? then
      && LeavesOff(legs, r.calls)
      && r.outcome == Refused(if |legs| > i then Complaint(cfg, legs, |legs| - 1, script)
                              else if last.Some? then last.value else NoRoute)
    else exists t :: i <= t < |legs| && Stops(cfg, legs, t, script, r)
  }

  /** A leg that falls before a well-ended rest. */
  lemma {:induction false} AppendEndsWell(cfg: Config, legs: seq<Leg>, i: nat, script: seq<Turn>, lr: LegRun, rest: Run)
    requires i < |legs| && LegInv(legs[i], i, 0, lr) && lr.end.Fell?
    requires Left(cfg, legs, |legs|, script).Some? ==> |legs| > i + 1 || rest.outcome == Refused(Complaint(cfg, legs, i, script))
    requires EndsWell(cfg, legs, i + 1, script, Some(Complaint(cfg, legs, i, script)), rest)
    ensures EndsWell(cfg, legs, i, script, None, Run(lr.calls + rest.calls, rest.outcome))
  {
    hide RunLeg, Left, Tried, Complaint, EndsRequest, GatedCount;
    var all := lr.calls + rest.calls;
    LegTargets(legs[i], i, lr);
    assert |rest.calls| > 0 ==> all[|all| - 1] == rest.calls[|rest.calls| - 1];
    assert |rest.calls| == 0 ==> all == lr.calls;
    if Left(cfg, legs, |legs|, script).None? {
      var t :| i + 1 <= t < |legs| && Stops(cfg, legs, t, script, rest);
      assert Stops(cfg, legs, t, script, Run(all, rest.outcome));
    }
  }

  lemma {:induction false} EndsFrom(cfg: Config, legs: seq<Leg>, i: nat, script: seq<Turn>, tried: bool, last: Option<Why>, s: seq<Turn>)
    requires GoesOn(cfg) && i <= |legs| && Left(cfg, legs, i, script) == Some(s)
    ensures EndsWell(cfg, legs, i, script, last, RunFrom(cfg, legs, i, tried, last, s))
    decreases |legs| - i
  {
    hide RunLeg, LegInv, EndsRequest;
    if i < |legs| {
      var leg := legs[i];
      var r := RunFrom(cfg, legs, i, tried, last, s);
      if Left(cfg, legs, i + 1, script).None? {
        OverStaysOver(cfg, legs, i + 1, |legs|, script);
        assert Stops(cfg, legs, i, script, r);
      } else {
        var why := Some(Complaint(cfg, legs, i, script));
        var left := Left(cfg, legs, i + 1, script).value;
        EndsFrom(cfg, legs, i + 1, script, tried || StartsOn(leg), why, left);
        var rest := RunFrom(cfg, legs, i + 1, tried || StartsOn(leg), why, left);
        if StartsOn(leg) {
          LegShape(cfg, leg, i, 0, 0, NoRoute, s);
          AppendEndsWell(cfg, legs, i, script, Tried(cfg, legs, i, script).value, rest);
        } else {
          assert r == rest;
        }
      }
    }
  }

  lemma {:induction false} StopsLast(cfg: Config, legs: seq<Leg>, t: nat, script: seq<Turn>, r: Run)
    requires t < |legs| && Stops(cfg, legs, t, script, r)
    ensures Left(cfg, legs, t + 1, script).None?
  {
    hide RunLeg;
  }

  /** A request is served exactly when some target that is tried answers. */
  lemma {:induction false} ServedExactlyWhen(cfg: Config, legs: seq<Leg>, script: seq<Turn>)
    requires GoesOn(cfg)
    ensures Execute(cfg, legs, script).outcome.Served? <==>
            exists t :: 0 <= t < |legs| && Tried(cfg, legs, t, script).Some?
                        && Tried(cfg, legs, t, script).value.end == Returned(Served)
  {
    var r := Execute(cfg, legs, script);
    EndsFrom(cfg, legs, 0, script, false, None, script);
    hide RunLeg, Execute, EndsRequest;
    if exists t :: 0 <= t < |legs| && Tried(cfg, legs, t, script).Some?
                   && Tried(cfg, legs, t, script).value.end == Returned(Served) {
      var t :| 0 <= t < |legs| && Tried(cfg, legs, t, script).Some?
               && Tried(cfg, legs, t, script).value.end == Returned(Served);
      assert Left(cfg, legs, t + 1, script).None?;
      OverStaysOver(cfg, legs, t + 1, |legs|, script);
      var u :| 0 <= u < |legs| && Stops(cfg, legs, u, script, r);
      StopsLast(cfg, legs, u, script, r);
      if u < t {
        OverStaysOver(cfg, legs, u + 1, t, script);
      } else if t < u {
        OverStaysOver(cfg, legs, t + 1, u, script);
      }
    }
  }

  /** The request was not ended on any target: it is refused, the client is still there, and its last
      call, if any, is no committed stream and no terminal refusal. */
  ghost predicate RanOut(legs: seq<Leg>, r: Run) {
    r.outcome.Refused? && r.outcome.why != ClientClosed && LeavesOff(legs, r.calls)
  }

  lemma {:induction false} TriedSays(cfg: Config, legs: seq<Leg>, t: nat, script: seq<Turn>)
    requires t < |legs| && Tried(cfg, legs, t, script).Some?
    ensures FirstSays(legs[t], Left(cfg, legs, t, script).value, Tried(cfg, legs, t, script).value)
    ensures LegInv(legs[t], t, 0, Tried(cfg, legs, t, script).value)
  {
    hide RunLeg, FirstSays, LegInv;
    var s := Left(cfg, legs, t, script).value;
    AttemptsSay(cfg, legs[t], t, s);
    LegShape(cfg, legs[t], t, 0, 0, NoRoute, s);
  }

  /** It runs out exactly when every target it could start on was tried and fell. */
  lemma {:induction false} RunsOutExactlyWhen(cfg: Config, legs: seq<Leg>, script: seq<Turn>)
    requires GoesOn(cfg)
    ensures RanOut(legs, Execute(cfg, legs, script)) <==> Left(cfg, legs, |legs|, script).Some?
  {
    var r := Execute(cfg, legs, script);
    EndsFrom(cfg, legs, 0, script, false, None, script);
    hide RunLeg, Execute, EndsRequest, Left;
    if Left(cfg, legs, |legs|, script).Some? {
      if |legs| > 0 && Tried(cfg, legs, |legs| - 1, script).Some? {
        TriedSays(cfg, legs, |legs| - 1, script);
      }
    } else {
      var t :| 0 <= t < |legs| && Stops(cfg, legs, t, script, r);
      if Tried(cfg, legs, t, script).Some? {
        TriedSays(cfg, legs, t, script);
        var w := Tried(cfg, legs, t, script).value;
        LegTargets(legs[t], t, w);
      }
    }
  }

  /** A refused request whose client is still there and whose last call did not end it has tried
      every target it could start on, each on what the ones before it left, and returns the last
      target's complaint: the error of its last call, the pool-empty error, or why it was skipped. */
  lemma {:induction false} RefusedAfterAll(cfg: Config, legs: seq<Leg>, script: seq<Turn>, t: nat)
    requires GoesOn(cfg) && t < |legs| && RanOut(legs, Execute(cfg, legs, script))
    ensures StartsOn(legs[t]) ==> Tried(cfg, legs, t, script).Some? && Tried(cfg, legs, t, script).value.end.Fell?
    ensures Execute(cfg, legs, script).outcome == Refused(Complaint(cfg, legs, |legs| - 1, script))
  {
    RunsOutExactlyWhen(cfg, legs, script);
    EndsFrom(cfg, legs, 0, script, false, None, script);
    hide RunLeg, RanOut;
    if Left(cfg, legs, t, script).None? {
      OverStaysOver(cfg, legs, t, |legs|, script);
    } else if Left(cfg, legs, t + 1, script).None? {
      OverStaysOver(cfg, legs, t + 1, |legs|, script);
    }
  }

  lemma {:induction false} LeftIsSuffix(cfg: Config, legs: seq<Leg>, t: nat, script: seq<Turn>)
    requires t <= |legs| && Left(cfg, legs, t, script).Some?
    ensures var s := Left(cfg, legs, t, script).value;
            |s| <= |script| && s == script[|script| - |s|..]
  {
    hide RunLeg, FirstSays;
    if t > 0 {
      LeftIsSuffix(cfg, legs, t - 1, script);
      if StartsOn(legs[t - 1]) {
        TriedSays(cfg, legs, t - 1, script);
        SuffixOfSuffix(script, Left(cfg, legs, t - 1, script).value, legs[t - 1], Tried(cfg, legs, t - 1, script).value);
      }
    }
  }

  lemma SuffixOfSuffix(script: seq<Turn>, s: seq<Turn>, leg: Leg, r: LegRun)
    requires |s| <= |script| && s == script[|script| - |s|..] && FirstSays(leg, s, r)
    ensures |r.rest| <= |script| && r.rest == script[|script| - |r.rest|..]
  {
  }

  /** While the pools hand out accounts, a request that runs out has called every target it could
      start on. */
  lemma {:induction false} EveryTargetCalled(cfg: Config, legs: seq<Leg>, script: seq<Turn>, t: nat)
    requires GoesOn(cfg) && t < |legs| && StartsOn(legs[t])
    requires forall j :: 0 <= j < |script| ==> script[j].account
    requires RanOut(legs, Execute(cfg, legs, script))
    ensures OnTarget(Execute(cfg, legs, script).calls, t) != []
  {
    hide RunLeg, Execute, RanOut, Left;
    RefusedAfterAll(cfg, legs, script, t);
    TargetsTakeTurns(cfg, legs, script, t);
    TriedSays(cfg, legs, t, script);
    LeftIsSuffix(cfg, legs, t, script);
  }

  /** Two live targets and one attempt each: a retryable 500 on the first, an answer on the second. */
  lemma SpentBudgetFallsThrough(a: Leg, b: Leg)
    requires StartsOn(a) && StartsOn(b) && !a.retryForever
    ensures Execute(Config(true, true, 1), [a, b], [Turn(true, Failed(TRANSIENT), false), Turn(true, Answer, false)])
         == Run([Call(0, Failed(TRANSIENT)), Call(1, Answer)], Served)
  {
    var cfg := Config(true, true, 1);
    var answer := Turn(true, Answer, false);
    var script := [Turn(true, Failed(TRANSIENT), false), answer];
    assert script[1..] == [answer];
    var r := RunLeg(cfg, a, 0, 0, 0, NoRoute, script);
    NoTurn(cfg, a, 0, 1, 0, Upstream(TRANSIENT), [answer]);
    OneTurn(cfg, a, 0, 0, 0, NoRoute, script);
    assert r == AfterFailure(cfg, a, 0, 0, 0, script[0], [answer]);
    assert Judge(a, TRANSIENT) == RetryAfterWait;
    assert r == LegRun([Call(0, Failed(TRANSIENT))], [answer], Fell(Upstream(TRANSIENT), false));
    var w := RunLeg(cfg, b, 1, 0, 0, NoRoute, [answer]);
    assert w == LegRun([Call(1, Answer)], [], Returned(Served));
    assert RunFrom(cfg, [a, b], 1, true, Some(Upstream(TRANSIENT)), [answer]) == Run(w.calls, Served);
  }

  /** With combo fallback off the request is its first known, enabled target's attempts and nothing
      else. */
  lemma {:induction false} NoFallbackIsOneLeg(cfg: Config, legs: seq<Leg>, i: nat, last: Option<Why>, script: seq<Turn>)
    requires !GoesOn(cfg) && i <= |legs|
    ensures var f, r := FirstLive(legs, i), RunFrom(cfg, legs, i, false, last, script);
            if f >= |legs| then r.calls == [] && r.outcome.Refused?
            else if legs[f].benched && !legs[f].retryForever then r == Run([], Refused(ModelBenched))
            else if Stalls(legs[f]) then r == Run([], Refused(ClientClosed))
            else
              var w := RunLeg(cfg, legs[f], f, 0, 0, NoRoute, script);
              r == Run(w.calls, if w.end.Returned? then w.end.outcome
                                else if Guarded(cfg, legs[f], w.end) then Panicked
                                else Refused(w.end.why))
    decreases |legs| - i
  {
    hide RunLeg;
    if i < |legs| {
      var leg := legs[i];
      if !leg.known || leg.disabled {
        NoFallbackIsOneLeg(cfg, legs, i + 1, Some(if !leg.known then UnknownProvider else ProviderDisabled), script);
      } else if StartsOn(leg) {
        var w := RunLeg(cfg, leg, i, 0, 0, NoRoute, script);
        assert w.calls + [] == w.calls;
      }
    }
  }

  lemma {:induction false} ErrorFrom(cfg: Config, legs: seq<Leg>, i: nat, tried: bool, last: Option<Why>, script: seq<Turn>, e: Err)
    requires i <= |legs| && RunFrom(cfg, legs, i, tried, last, script).outcome == Refused(Upstream(e))
    ensures var calls := RunFrom(cfg, legs, i, tried, last, script).calls;
            if calls == [] then last == Some(Upstream(e)) else calls[|calls| - 1].reply == Failed(e)
    decreases |legs| - i
  {
    hide RunLeg, EndsRequest;
    if i < |legs| && !(tried && cfg.isCombo && !cfg.fallbackOn) {
      var leg := legs[i];
      if !leg.known || leg.disabled || (leg.benched && !leg.retryForever) {
        var why := if !leg.known then UnknownProvider else if leg.disabled then ProviderDisabled else ModelBenched;
        if !(leg.known && !leg.disabled && cfg.isCombo && !cfg.fallbackOn) {
          ErrorFrom(cfg, legs, i + 1, tried, Some(why), script, e);
        }
      } else if StartsOn(leg) {
        var r := RunLeg(cfg, leg, i, 0, 0, NoRoute, script);
        AttemptsSay(cfg, leg, i, script);
        if r.end.Fell? && !Guarded(cfg, leg, r.end) {
          ErrorFrom(cfg, legs, i + 1, true, Some(r.end.why), r.rest, e);
          var rest := RunFrom(cfg, legs, i + 1, true, Some(r.end.why), r.rest).calls;
          assert rest == [] ==> r.calls + rest == r.calls;
        }
      }
    }
  }

  /** An upstream error that is returned is the one of the last call made. */
  lemma UpstreamErrorIsTheLast(cfg: Config, legs: seq<Leg>, script: seq<Turn>, e: Err)
    requires Execute(cfg, legs, script).outcome == Refused(Upstream(e))
    ensures var calls := Execute(cfg, legs, script).calls;
            |calls| > 0 && calls[|calls| - 1].reply == Failed(e)
  {
    ErrorFrom(cfg, legs, 0, false, None, script, e);
  }

  // ---- The dispatch, seen from outside --------------------------------------------------------------------

  /** Which errors give the same target a second call, attempts permitting, and which of them even
      when the client hangs up meanwhile. */
  lemma {:induction false} RetriedExactlyWhen(cfg: Config, leg: Leg, t: nat, e: Err, hangUp: bool)
    requires cfg.maxAttempts >= 2
    ensures var answer := Turn(true, Answer, false);
            RunLeg(cfg, leg, t, 0, 0, NoRoute, [Turn(true, Failed(e), hangUp), answer]).end == Returned(Served) <==>
              && !e.streamCommitted && (e.corrupt ==> leg.retryForever)
              && (e.retryable || e.regionLocked || e.fallbackable)
              && if e.fallbackable && e.status == 403 then leg.accounts > 0 && !hangUp
                 else if leg.retryForever then !hangUp
                 else !e.noSameTargetRetry && !e.sharedConcurrency && (hangUp ==> e.regionLocked || e.fallbackable)
  {
    var answer := Turn(true, Answer, false);
    var script := [Turn(true, Failed(e), hangUp), answer];
    assert script[1..] == [answer];
    OneTurn(cfg, leg, t, 0, 0, NoRoute, script);
    OneTurn(cfg, leg, t, 1, 0, Upstream(e), [answer]);
    OneTurn(cfg, leg, t, 0, 1, Upstream(e), [answer]);
  }
}
