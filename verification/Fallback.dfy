/**
  The router's fallback loop as a machine that consumes a script of turns.

  A turn is what the outside world does in one pass of the attempt loop: whether the provider's pool
  hands out an account, how the call ends if it does, and whether the client has hung up at the next
  wait.  A finite script is a finite prefix of a run; when it is used up the run is Pending.  The
  script is arbitrary, so the theorems hold for every error oracle.
 */
module Fallback {
  import opened Prelude

  /** An upstream error: its status and the predicates the loop reads. */
  datatype Err = Err(
    status: int,
    streamCommitted: bool,
    corrupt: bool,            // CorruptStream or JunkReasoning
    retryable: bool, regionLocked: bool, fallbackable: bool,
    modelScoped: bool, echoRequired: bool, contextExceeded: bool,
    noSameTargetRetry: bool, sharedConcurrency: bool)

  datatype Reply = Answer | Failed(err: Err)

  datatype Turn = Turn(account: bool, reply: Reply, hangUp: bool)

  /** What the loop reads of one target on reaching it. */
  datatype Leg = Leg(known: bool, disabled: bool, retryForever: bool, benched: bool, benchHangUp: bool, accounts: nat)

  datatype Config = Config(isCombo: bool, fallbackOn: bool, maxAttempts: int)

  datatype Call = Call(target: nat, reply: Reply)

  datatype Why = NoRoute | UnknownProvider | ProviderDisabled | ModelBenched | PoolEmpty | Upstream(err: Err) | ClientClosed

  datatype Outcome = Served | Refused(why: Why) | Panicked | Pending

  /** How the attempts on one target end: the request is over, or the leg fell through. */
  datatype LegEnd = Returned(outcome: Outcome) | Fell(why: Why, refusal: bool)

  datatype LegRun = LegRun(calls: seq<Call>, rest: seq<Turn>, end: LegEnd)

  datatype Run = Run(calls: seq<Call>, outcome: Outcome)

  function Attempts(cfg: Config): int {
    Max(1, cfg.maxAttempts)
  }

  predicate HardRefusal(e: Err) {
    !(e.retryable || e.regionLocked || e.fallbackable)
  }

  /** The refusals that indict this target only. */
  predicate TargetOnly(e: Err) {
    (e.status == 404 && e.modelScoped) || e.echoRequired || e.contextExceeded
  }

  predicate Gated(e: Err) {
    e.fallbackable && e.status == 403
  }

  /** What one failed call leads to. */
  datatype Verdict = Return | Fall(refusal: bool) | GatedRotate | RetryAfterWait | RetryNow

  function Judge(leg: Leg, e: Err): Verdict {
    if e.streamCommitted then Return
    else if e.corrupt && !leg.retryForever then Fall(false)
    else if HardRefusal(e) then (if TargetOnly(e) then Fall(true) else Return)
    else if Gated(e) then GatedRotate
    else if leg.retryForever then RetryAfterWait
    else if e.noSameTargetRetry || e.sharedConcurrency then Fall(false)
    else if e.regionLocked || e.fallbackable then RetryNow
    else RetryAfterWait
  }

  function Cons(c: Call, r: LegRun): LegRun {
    r.(calls := [c] + r.calls)
  }

  /** The attempt loop on target t. */
  function RunLeg(cfg: Config, leg: Leg, t: nat, attempt: nat, gated: nat, last: Why, script: seq<Turn>): LegRun
    decreases |script|, 0
  {
    if !(leg.retryForever || attempt < Attempts(cfg) || gated > 0) then LegRun([], script, Fell(last, false))
    else if |script| == 0 then LegRun([], [], Returned(Pending))
    else
      var turn, rest := script[0], script[1..];
      if !turn.account then
        if !leg.retryForever then LegRun([], rest, Fell(PoolEmpty, false))
        else if turn.hangUp then LegRun([], rest, Returned(Refused(ClientClosed)))
        else RunLeg(cfg, leg, t, attempt, gated, last, rest)
      else
        var c := Call(t, turn.reply);
        if turn.reply.Answer? then LegRun([c], rest, Returned(Served))
        else AfterFailure(cfg, leg, t, attempt, gated, turn, rest)
  }

  /** What a failed call leaves to do. */
  function AfterFailure(cfg: Config, leg: Leg, t: nat, attempt: nat, gated: nat, turn: Turn, rest: seq<Turn>): LegRun
    requires turn.reply.Failed?
    decreases |rest|, 1
  {
    var c, e := Call(t, turn.reply), turn.reply.err;
    match Judge(leg, e)
    case Return => LegRun([c], rest, Returned(Refused(Upstream(e))))
    case Fall(refusal) => LegRun([c], rest, Fell(Upstream(e), refusal))
    case GatedRotate =>
      if gated + 1 > leg.accounts then LegRun([c], rest, Fell(Upstream(e), false))
      else if turn.hangUp then LegRun([c], rest, Returned(Refused(ClientClosed)))
      else Cons(c, RunLeg(cfg, leg, t, attempt, gated + 1, Upstream(e), rest))
    case RetryNow => Cons(c, RunLeg(cfg, leg, t, attempt + 1, gated, Upstream(e), rest))
    case RetryAfterWait =>
      if turn.hangUp then LegRun([c], rest, Returned(Refused(ClientClosed)))
      else Cons(c, RunLeg(cfg, leg, t, attempt + 1, gated, Upstream(e), rest))
  }

  function Ended(last: Option<Why>): Outcome {
    Refused(if last.Some? then last.value else NoRoute)
  }

  /** The loop over targets from i on. */
  function RunFrom(cfg: Config, legs: seq<Leg>, i: nat, tried: bool, last: Option<Why>, script: seq<Turn>): Run
    requires i <= |legs|
    decreases |legs| - i
  {
    if i == |legs| || (tried && cfg.isCombo && !cfg.fallbackOn) then Run([], Ended(last))
    else
      var leg := legs[i];
      if !leg.known then RunFrom(cfg, legs, i + 1, tried, Some(UnknownProvider), script)
      else if leg.disabled then RunFrom(cfg, legs, i + 1, tried, Some(ProviderDisabled), script)
      else if leg.benched && !leg.retryForever then
        if cfg.isCombo && !cfg.fallbackOn then Run([], Refused(ModelBenched))
        else RunFrom(cfg, legs, i + 1, tried, Some(ModelBenched), script)
      else if leg.benched && leg.benchHangUp then Run([], Refused(ClientClosed))
      else
        var r := RunLeg(cfg, leg, i, 0, 0, NoRoute, script);
        match r.end
        case Returned(o) => Run(r.calls, o)
        case Fell(why, refusal) =>
          if leg.retryForever && cfg.isCombo && !refusal then Run(r.calls, Panicked)
          else
            var rest := RunFrom(cfg, legs, i + 1, true, Some(why), r.rest);
            Run(r.calls + rest.calls, rest.outcome)
  }

  function Execute(cfg: Config, legs: seq<Leg>, script: seq<Turn>): Run {
    RunFrom(cfg, legs, 0, false, None, script)
  }

  // ---- The calls of one leg ----------------------------------------------------------------------------

  /** A refusal that ends the request whatever targets are left: not one of the retried classes, and
      not one that indicts this target only. */
  predicate Terminal(e: Err) {
    HardRefusal(e) && !TargetOnly(e)
  }

  /** A stream the upstream broke before anything was committed; it costs the target, not the
      request. */
  predicate Broken(leg: Leg, e: Err) {
    e.corrupt && !leg.retryForever
  }

  /** A reply after which the request makes no further call: an answer, a committed stream or a
      terminal refusal on an unbroken stream. */
  predicate EndsRequest(leg: Leg, r: Reply) {
    r.Answer? || r.err.streamCommitted || (Terminal(r.err) && !Broken(leg, r.err))
  }

  /** A gated 403 on an unbroken, uncommitted stream. */
  predicate IsGated(leg: Leg, r: Reply) {
    r.Failed? && Gated(r.err) && !r.err.streamCommitted && !Broken(leg, r.err)
  }

  /** The dispatch returns, and rotates, on exactly those errors. */
  lemma DispatchAgrees(leg: Leg, e: Err)
    ensures Judge(leg, e).Return? <==> EndsRequest(leg, Failed(e))
    ensures Judge(leg, e).GatedRotate? <==> IsGated(leg, Failed(e))
  {
  }

  /** Gated 403s among the calls on a leg. */
  function GatedCount(leg: Leg, calls: seq<Call>): nat {
    if |calls| == 0 then 0 else (if IsGated(leg, calls[0].reply) then 1 else 0) + GatedCount(leg, calls[1..])
  }

  function Answers(calls: seq<Call>): nat {
    if |calls| == 0 then 0 else (if calls[0].reply.Answer? then 1 else 0) + Answers(calls[1..])
  }

  /** Everything the later theorems need of one leg's run, `gated` 403s into it. */
  ghost predicate LegInv(leg: Leg, t: nat, gated: nat, r: LegRun) {
    && (forall c :: c in r.calls ==> c.target == t)
    && (forall j :: 0 <= j < |r.calls| - 1 ==> !EndsRequest(leg, r.calls[j].reply))
    && (r.end == Returned(Served) <==> |r.calls| > 0 && r.calls[|r.calls| - 1].reply.Answer?)
    && (|r.calls| > 0 && EndsRequest(leg, r.calls[|r.calls| - 1].reply) ==> r.end.Returned?)
    && r.end != Returned(Panicked)
    && gated + GatedCount(leg, r.calls) <= leg.accounts + 1
    && (leg.retryForever ==>
          (r.end.Fell? && !r.end.refusal <==> gated + GatedCount(leg, r.calls) == leg.accounts + 1))
  }

  lemma ConsKeepsInv(leg: Leg, t: nat, gated: nat, c: Call, r: LegRun)
    requires c.target == t && !EndsRequest(leg, c.reply)
    requires LegInv(leg, t, gated + (if IsGated(leg, c.reply) then 1 else 0), r)
    requires r.end.Returned? || |r.calls| > 0 || gated + (if IsGated(leg, c.reply) then 1 else 0) <= leg.accounts
    ensures LegInv(leg, t, gated, Cons(c, r))
  {
    hide Judge;
    assert ([c] + r.calls)[1..] == r.calls;
  }

  /** A run of one call: it ends the request, or falls on it. */
  lemma LastCallInv(leg: Leg, t: nat, gated: nat, c: Call, rest: seq<Turn>, end: LegEnd)
    requires gated <= leg.accounts && c.target == t && end != Returned(Panicked)
    requires EndsRequest(leg, c.reply) ==> end.Returned?
    requires end == Returned(Served) <==> c.reply.Answer?
    requires leg.retryForever ==> (end.Fell? && !end.refusal <==> IsGated(leg, c.reply) && gated == leg.accounts)
    ensures LegInv(leg, t, gated, LegRun([c], rest, end))
  {
    hide Judge;
    assert [c][1..] == [];
    assert GatedCount(leg, [c]) == if IsGated(leg, c.reply) then 1 else 0;
  }

  lemma {:induction false} LegShape(cfg: Config, leg: Leg, t: nat, attempt: nat, gated: nat, last: Why, script: seq<Turn>)
    requires gated <= leg.accounts
    ensures LegInv(leg, t, gated, RunLeg(cfg, leg, t, attempt, gated, last, script))
    decreases |script|
  {
    hide Judge;
    if (leg.retryForever || attempt < Attempts(cfg) || gated > 0) && |script| > 0 {
      var turn, rest := script[0], script[1..];
      var r := RunLeg(cfg, leg, t, attempt, gated, last, script);
      var c := Call(t, turn.reply);
      if !turn.account {
        if leg.retryForever && !turn.hangUp {
          LegShape(cfg, leg, t, attempt, gated, last, rest);
        }
      } else if turn.reply.Answer? {
        LastCallInv(leg, t, gated, c, rest, r.end);
      } else {
        hide LegInv;
        var e := turn.reply.err;
        var v := Judge(leg, e);
        JudgeRetryForever(leg, e);
        DispatchAgrees(leg, e);
        if v.GatedRotate? && gated < leg.accounts && !turn.hangUp {
          LegShape(cfg, leg, t, attempt, gated + 1, Upstream(e), rest);
          ConsKeepsInv(leg, t, gated, c, RunLeg(cfg, leg, t, attempt, gated + 1, Upstream(e), rest));
        } else if v.RetryNow? || (v.RetryAfterWait? && !turn.hangUp) {
          LegShape(cfg, leg, t, attempt + 1, gated, Upstream(e), rest);
          ConsKeepsInv(leg, t, gated, c, RunLeg(cfg, leg, t, attempt + 1, gated, Upstream(e), rest));
        } else {
          LastCallInv(leg, t, gated, c, rest, r.end);
        }
      }
    }
  }

  /** A retry_forever leg falls only on a refusal that indicts its target. */
  lemma JudgeRetryForever(leg: Leg, e: Err)
    ensures leg.retryForever && Judge(leg, e).Fall? ==> Judge(leg, e).refusal
    ensures Judge(leg, e).RetryNow? ==> !leg.retryForever
  {
  }

  /** Without a gated 403 the attempt budget of a bounded leg holds. */
  lemma {:induction false} BudgetHolds(cfg: Config, leg: Leg, t: nat, attempt: nat, last: Why, script: seq<Turn>)
    requires !leg.retryForever && attempt <= Attempts(cfg)
    requires GatedCount(leg, RunLeg(cfg, leg, t, attempt, 0, last, script).calls) == 0
    ensures attempt + |RunLeg(cfg, leg, t, attempt, 0, last, script).calls| <= Attempts(cfg)
    decreases |script|
  {
    hide Judge;
    if attempt < Attempts(cfg) && |script| > 0 && script[0].account && script[0].reply.Failed? {
      var e := script[0].reply.err;
      DispatchAgrees(leg, e);
      if Judge(leg, e).RetryNow? || (Judge(leg, e).RetryAfterWait? && !script[0].hangUp) {
        BudgetHolds(cfg, leg, t, attempt + 1, Upstream(e), script[1..]);
      }
    }
  }

  // ---- Whole requests -------------------------------------------------------------------------------------

  function OnTarget(calls: seq<Call>, t: nat): seq<Call> {
    if |calls| == 0 then []
    else (if calls[0].target == t then [calls[0]] else []) + OnTarget(calls[1..], t)
  }

  function FirstLive(legs: seq<Leg>, i: nat): nat
    requires i <= |legs|
    decreases |legs| - i
  {
    if i == |legs| || (legs[i].known && !legs[i].disabled) then i else FirstLive(legs, i + 1)
  }

  lemma {:induction false} FirstOnTarget(c: Call, rest: seq<Call>, t: nat)
    ensures OnTarget([c] + rest, t) == (if c.target == t then [c] else []) + OnTarget(rest, t)
  {
    assert ([c] + rest)[1..] == rest;
  }

  lemma {:induction false} OnTargetAppend(a: seq<Call>, b: seq<Call>, t: nat)
    ensures OnTarget(a + b, t) == OnTarget(a, t) + OnTarget(b, t)
  {
    if |a| == 0 {
      assert a + b == b;
    } else {
      hide OnTarget;
      var c, rest := a[0], a[1..];
      OnTargetAppend(rest, b, t);
      assert a == [c] + rest && a + b == [c] + (rest + b);
      FirstOnTarget(c, rest, t);
      FirstOnTarget(c, rest + b, t);
    }
  }

  lemma {:induction false} OnTargetAll(a: seq<Call>, t: nat)
    requires forall j :: 0 <= j < |a| ==> a[j].target == t
    ensures OnTarget(a, t) == a
  {
    if |a| > 0 {
      OnTargetAll(a[1..], t);
    }
  }

  lemma {:induction false} OnTargetNone(a: seq<Call>, t: nat)
    requires forall j :: 0 <= j < |a| ==> a[j].target != t
    ensures OnTarget(a, t) == []
  {
    if |a| > 0 {
      OnTargetNone(a[1..], t);
    }
  }

  /** The calls on target t are one leg's attempts, or none. */
  ghost predicate LegOf(cfg: Config, legs: seq<Leg>, calls: seq<Call>, t: nat)
    requires t < |legs|
  {
    calls == [] || exists script :: calls == RunLeg(cfg, legs[t], t, 0, 0, NoRoute, script).calls
  }

  /** Calls visit targets in list order, and only known, enabled ones that are not benched or are
      waited out. */
  ghost predicate InOrder(legs: seq<Leg>, i: nat, calls: seq<Call>) {
    && (forall j :: 0 <= j < |calls| ==>
                      && i <= calls[j].target < |legs|
                      && var leg := legs[calls[j].target];
                         leg.known && !leg.disabled && (leg.benched ==> leg.retryForever))
    && (forall j, k :: 0 <= j < k < |calls| ==> calls[j].target <= calls[k].target)
  }

  /** Nothing follows an answer, a committed stream or a terminal refusal. */
  ghost predicate StopsWhenOver(legs: seq<Leg>, i: nat, calls: seq<Call>)
    requires InOrder(legs, i, calls)
  {
    forall j :: 0 <= j < |calls| - 1 ==> !EndsRequest(legs[calls[j].target], calls[j].reply)
  }

  ghost predicate RunInv(legs: seq<Leg>, i: nat, r: Run) {
    && InOrder(legs, i, r.calls)
    && StopsWhenOver(legs, i, r.calls)
    && (r.outcome.Served? <==> |r.calls| > 0 && r.calls[|r.calls| - 1].reply.Answer?)
  }

  lemma LegTargets(leg: Leg, t: nat, lr: LegRun)
    requires LegInv(leg, t, 0, lr)
    ensures forall j :: 0 <= j < |lr.calls| ==> lr.calls[j].target == t
  {
    assert forall j :: 0 <= j < |lr.calls| ==> lr.calls[j] in lr.calls;
  }

  lemma AppendKeepsInv(legs: seq<Leg>, i: nat, lr: LegRun, rest: Run)
    requires i < |legs| && LegInv(legs[i], i, 0, lr) && lr.end.Fell? && RunInv(legs, i + 1, rest)
    requires legs[i].known && !legs[i].disabled && (legs[i].benched ==> legs[i].retryForever)
    ensures RunInv(legs, i, Run(lr.calls + rest.calls, rest.outcome))
  {
    hide Judge, GatedCount, EndsRequest;
    LegTargets(legs[i], i, lr);
    var calls := lr.calls + rest.calls;
    forall j, k | 0 <= j < k < |calls|
      ensures calls[j].target <= calls[k].target
    {
      assert calls[j] == if j < |lr.calls| then lr.calls[j] else rest.calls[j - |lr.calls|];
      assert calls[k] == if k < |lr.calls| then lr.calls[k] else rest.calls[k - |lr.calls|];
    }
    forall j | 0 <= j < |calls|
      ensures i <= calls[j].target < |legs| && legs[calls[j].target].known && !legs[calls[j].target].disabled
      ensures legs[calls[j].target].benched ==> legs[calls[j].target].retryForever
      ensures j < |calls| - 1 ==> !EndsRequest(legs[calls[j].target], calls[j].reply)
    {
      if j < |lr.calls| {
        assert calls[j] == lr.calls[j];
      } else {
        assert calls[j] == rest.calls[j - |lr.calls|];
      }
    }
  }

  lemma OneLegInv(legs: seq<Leg>, i: nat, lr: LegRun, o: Outcome)
    requires i < |legs| && LegInv(legs[i], i, 0, lr)
    requires legs[i].known && !legs[i].disabled && (legs[i].benched ==> legs[i].retryForever)
    requires o.Served? <==> lr.end == Returned(Served)
    ensures RunInv(legs, i, Run(lr.calls, o))
  {
    hide Judge, GatedCount;
    assert forall j :: 0 <= j < |lr.calls| ==> lr.calls[j] in lr.calls;
  }

  lemma InOrderFrom(legs: seq<Leg>, i: nat, r: Run)
    requires i < |legs| && RunInv(legs, i + 1, r)
    ensures RunInv(legs, i, r)
  {
  }

  lemma {:induction false} RunShape(cfg: Config, legs: seq<Leg>, i: nat, tried: bool, last: Option<Why>, script: seq<Turn>)
    requires i <= |legs|
    ensures RunInv(legs, i, RunFrom(cfg, legs, i, tried, last, script))
    decreases |legs| - i
  {
    hide RunLeg, LegInv;
    if i < |legs| && !(tried && cfg.isCombo && !cfg.fallbackOn) {
      hide RunInv;
      var leg := legs[i];
      if !leg.known || leg.disabled || (leg.benched && !leg.retryForever) {
        var why := if !leg.known then UnknownProvider else if leg.disabled then ProviderDisabled else ModelBenched;
        RunShape(cfg, legs, i + 1, tried, Some(why), script);
        InOrderFrom(legs, i, RunFrom(cfg, legs, i + 1, tried, Some(why), script));
        EmptyRunInv(legs, i, ModelBenched);
      } else {
        EmptyRunInv(legs, i, ClientClosed);
        var r := RunLeg(cfg, leg, i, 0, 0, NoRoute, script);
        LegShape(cfg, leg, i, 0, 0, NoRoute, script);
        match r.end {
          case Returned(o) => OneLegInv(legs, i, r, o);
          case Fell(why, refusal) =>
            if leg.retryForever && cfg.isCombo && !refusal {
              OneLegInv(legs, i, r, Panicked);
            } else {
              RunShape(cfg, legs, i + 1, true, Some(why), r.rest);
              AppendKeepsInv(legs, i, r, RunFrom(cfg, legs, i + 1, true, Some(why), r.rest));
            }
        }
      }
    }
  }

  lemma EmptyRunInv(legs: seq<Leg>, i: nat, why: Why)
    ensures RunInv(legs, i, Run([], Refused(why)))
  {
  }

  /** What a fallen leg and the rest of the request contribute to one target's calls. */
  lemma {:induction false} OnTargetSplit(legs: seq<Leg>, i: nat, lr: LegRun, rest: Run, t: nat)
    requires i < |legs| && LegInv(legs[i], i, 0, lr) && RunInv(legs, i + 1, rest)
    ensures OnTarget(lr.calls + rest.calls, t) == if t == i then lr.calls else OnTarget(rest.calls, t)
  {
    hide EndsRequest, GatedCount;
    OnTargetAppend(lr.calls, rest.calls, t);
    assert forall j :: 0 <= j < |lr.calls| ==> lr.calls[j] in lr.calls;
    if t == i {
      OnTargetAll(lr.calls, t);
      OnTargetNone(rest.calls, t);
    } else {
      OnTargetNone(lr.calls, t);
    }
  }

  lemma {:induction false} OneLegOnTarget(leg: Leg, i: nat, lr: LegRun, t: nat)
    requires LegInv(leg, i, 0, lr)
    ensures OnTarget(lr.calls, t) == if t == i then lr.calls else []
  {
    hide EndsRequest, GatedCount;
    assert forall j :: 0 <= j < |lr.calls| ==> lr.calls[j] in lr.calls;
    if t == i {
      OnTargetAll(lr.calls, t);
    } else {
      OnTargetNone(lr.calls, t);
    }
  }

  lemma {:induction false} NoCallsIsLegOf(cfg: Config, legs: seq<Leg>, t: nat)
    requires t < |legs|
    ensures LegOf(cfg, legs, [], t) && LegOf(cfg, legs, OnTarget([], t), t)
  {
  }

  lemma {:induction false} OneLegIsLegOf(cfg: Config, legs: seq<Leg>, i: nat, script: seq<Turn>, t: nat)
    requires i < |legs| && t < |legs|
    ensures i == t ==> LegOf(cfg, legs, RunLeg(cfg, legs[i], i, 0, 0, NoRoute, script).calls, t)
  {
  }

  lemma {:induction false} LegsOfRun(cfg: Config, legs: seq<Leg>, i: nat, tried: bool, last: Option<Why>, script: seq<Turn>, t: nat)
    requires i <= |legs| && t < |legs|
    ensures LegOf(cfg, legs, OnTarget(RunFrom(cfg, legs, i, tried, last, script).calls, t), t)
    decreases |legs| - i
  {
    hide RunLeg, LegInv, RunInv, LegOf, OnTarget;
    NoCallsIsLegOf(cfg, legs, t);
    if i < |legs| && !(tried && cfg.isCombo && !cfg.fallbackOn) {
      var leg := legs[i];
      if !leg.known || leg.disabled || (leg.benched && !leg.retryForever) {
        var why := if !leg.known then UnknownProvider else if leg.disabled then ProviderDisabled else ModelBenched;
        LegsOfRun(cfg, legs, i + 1, tried, Some(why), script, t);
      } else {
        var r := RunLeg(cfg, leg, i, 0, 0, NoRoute, script);
        LegShape(cfg, leg, i, 0, 0, NoRoute, script);
        OneLegOnTarget(leg, i, r, t);
        OneLegIsLegOf(cfg, legs, i, script, t);
        if r.end.Fell? {
          LegsOfRun(cfg, legs, i + 1, true, Some(r.end.why), r.rest, t);
          RunShape(cfg, legs, i + 1, true, Some(r.end.why), r.rest);
          OnTargetSplit(legs, i, r, RunFrom(cfg, legs, i + 1, true, Some(r.end.why), r.rest), t);
        }
      }
    }
  }

  /** The calls of a request visit targets in list order, and none follows an answer, a committed
      stream or a terminal refusal. */
  lemma CallsAreOrderedAndStop(cfg: Config, legs: seq<Leg>, script: seq<Turn>)
    ensures InOrder(legs, 0, Execute(cfg, legs, script).calls)
    ensures StopsWhenOver(legs, 0, Execute(cfg, legs, script).calls)
  {
    RunShape(cfg, legs, 0, false, None, script);
  }

  lemma {:induction false} OneAnswerAtMost(legs: seq<Leg>, i: nat, calls: seq<Call>)
    requires InOrder(legs, i, calls) && StopsWhenOver(legs, i, calls)
    ensures Answers(calls) == if |calls| > 0 && calls[|calls| - 1].reply.Answer? then 1 else 0
  {
    if |calls| > 0 {
      if |calls| > 1 {
        assert !EndsRequest(legs[calls[0].target], calls[0].reply);
      }
      assert forall j :: 0 <= j < |calls[1..]| - 1 ==> !EndsRequest(legs[calls[1..][j].target], calls[1..][j].reply);
      OneAnswerAtMost(legs, i, calls[1..]);
    }
  }

  /** The request succeeds exactly when the result callback ran, and it never runs twice. */
  lemma SuccessIffOneResult(cfg: Config, legs: seq<Leg>, script: seq<Turn>)
    ensures var r := Execute(cfg, legs, script);
            Answers(r.calls) == if r.outcome.Served? then 1 else 0
  {
    RunShape(cfg, legs, 0, false, None, script);
    OneAnswerAtMost(legs, 0, Execute(cfg, legs, script).calls);
  }

  lemma {:induction false} NoFallbackShape(cfg: Config, legs: seq<Leg>, i: nat, tried: bool, last: Option<Why>, script: seq<Turn>)
    requires i <= |legs| && cfg.isCombo && !cfg.fallbackOn
    ensures forall c :: c in RunFrom(cfg, legs, i, tried, last, script).calls ==>
              !tried && c.target == FirstLive(legs, i)
    decreases |legs| - i
  {
    hide RunLeg, GatedCount, EndsRequest;
    if i < |legs| && !tried {
      var leg := legs[i];
      if !leg.known || leg.disabled {
        var why := if !leg.known then UnknownProvider else ProviderDisabled;
        NoFallbackShape(cfg, legs, i + 1, tried, Some(why), script);
      } else if !leg.benched || leg.retryForever {
        var r := RunLeg(cfg, leg, i, 0, 0, NoRoute, script);
        LegShape(cfg, leg, i, 0, 0, NoRoute, script);
        if r.end.Fell? {
          NoFallbackShape(cfg, legs, i + 1, true, Some(r.end.why), r.rest);
        }
      }
    }
  }

  /** With combo fallback off a combo never switches models silently: every call goes to the first
      known, enabled target. */
  lemma {:induction false} NoSilentModelSwitch(cfg: Config, legs: seq<Leg>, script: seq<Turn>, c: Call)
    requires cfg.isCombo && !cfg.fallbackOn && c in Execute(cfg, legs, script).calls
    ensures c.target == FirstLive(legs, 0)
  {
    NoFallbackShape(cfg, legs, 0, false, None, script);
  }

  /** A bounded target that answers no gated 403 gets at most max(1, MaxAttempts) calls. */
  lemma {:induction false} AttemptBudget(cfg: Config, legs: seq<Leg>, script: seq<Turn>, t: nat)
    requires t < |legs| && !legs[t].retryForever
    requires GatedCount(legs[t], OnTarget(Execute(cfg, legs, script).calls, t)) == 0
    ensures |OnTarget(Execute(cfg, legs, script).calls, t)| <= Attempts(cfg)
  {
    LegsOfRun(cfg, legs, 0, false, None, script, t);
    var calls := OnTarget(Execute(cfg, legs, script).calls, t);
    if calls != [] {
      var s :| calls == RunLeg(cfg, legs[t], t, 0, 0, NoRoute, s).calls;
      BudgetHolds(cfg, legs[t], t, 0, NoRoute, s);
    }
  }

  /** A 500 that is retried after the backoff. */
  const TRANSIENT: Err := Err(500, false, false, true, false, false, false, false, false, false, false)

  const GATED_403: Err := Err(403, false, false, false, false, true, false, false, false, false, false)

  function Storm(n: nat): seq<Turn> {
    if n == 0 then [] else [Turn(true, Failed(TRANSIENT), false)] + Storm(n - 1)
  }

  lemma {:induction false} StormNeverEnds(cfg: Config, leg: Leg, t: nat, attempt: nat, gated: nat, last: Why, n: nat)
    requires gated > 0 && !leg.retryForever
    ensures |RunLeg(cfg, leg, t, attempt, gated, last, Storm(n)).calls| == n
    decreases n
  {
    if n > 0 {
      assert Storm(n)[1..] == Storm(n - 1);
      StormNeverEnds(cfg, leg, t, attempt + 1, gated, Upstream(TRANSIENT), n - 1);
    }
  }

  /** After one gated 403, transient errors keep a bounded leg retrying for as long as they last. */
  lemma {:induction false} StormAfterGated(cfg: Config, leg: Leg, t: nat, n: nat)
    requires !leg.retryForever && leg.accounts > 0
    ensures |RunLeg(cfg, leg, t, 0, 0, NoRoute, [Turn(true, Failed(GATED_403), false)] + Storm(n)).calls| == n + 1
  {
    var script := [Turn(true, Failed(GATED_403), false)] + Storm(n);
    assert script[1..] == Storm(n);
    StormNeverEnds(cfg, leg, t, 0, 1, Upstream(GATED_403), n);
    var r := RunLeg(cfg, leg, t, 0, 0, NoRoute, script);
    assert r == AfterFailure(cfg, leg, t, 0, 0, script[0], Storm(n));
    assert r == Cons(Call(t, Failed(GATED_403)), RunLeg(cfg, leg, t, 0, 1, Upstream(GATED_403), Storm(n)));
  }

  // ---- Which targets a request can get to -----------------------------------------------------------------

  /** The attempt loop starts on this leg. */
  predicate StartsOn(leg: Leg) {
    leg.known && !leg.disabled && !(leg.benched && (!leg.retryForever || leg.benchHangUp))
  }

  /** The client hangs up while this leg's bench is waited out. */
  predicate Stalls(leg: Leg) {
    leg.known && !leg.disabled && leg.benched && leg.retryForever && leg.benchHangUp
  }

  /** From target i on, some behaviour of the upstream brings the request to target t: without combo
      fallback only the first known, enabled target can be tried. */
  predicate Reachable(cfg: Config, legs: seq<Leg>, i: nat, t: nat)
    requires i <= t < |legs|
  {
    && StartsOn(legs[t])
    && if cfg.isCombo && !cfg.fallbackOn then t == FirstLive(legs, i) else forall j :: i <= j < t ==> !Stalls(legs[j])
  }

  /** A prompt too long for one target: refused there, tried on the next. */
  const TOO_LONG: Err := Err(400, false, false, false, false, false, false, false, true, false, false)

  const REFUSED: Turn := Turn(true, Failed(TOO_LONG), false)

  /** One such refusal for every leg tried before t. */
  function Approach(legs: seq<Leg>, i: nat, t: nat): seq<Turn>
    requires i <= t < |legs|
    decreases t - i
  {
    if i == t then [] else (if StartsOn(legs[i]) then [REFUSED] else []) + Approach(legs, i + 1, t)
  }

  lemma {:induction false} OneRefusal(cfg: Config, leg: Leg, t: nat, rest: seq<Turn>)
    ensures RunLeg(cfg, leg, t, 0, 0, NoRoute, [REFUSED] + rest)
         == LegRun([Call(t, Failed(TOO_LONG))], rest, Fell(Upstream(TOO_LONG), true))
  {
    assert ([REFUSED] + rest)[1..] == rest;
  }

  /** Later targets add nothing to t's calls. */
  lemma {:induction false} LastLegOnTarget(cfg: Config, legs: seq<Leg>, t: nat, tried: bool, last: Option<Why>, script: seq<Turn>)
    requires t < |legs| && StartsOn(legs[t]) && !(tried && cfg.isCombo && !cfg.fallbackOn)
    ensures OnTarget(RunFrom(cfg, legs, t, tried, last, script).calls, t)
         == RunLeg(cfg, legs[t], t, 0, 0, NoRoute, script).calls
  {
    hide RunLeg, LegInv, RunInv, OnTarget;
    var r := RunLeg(cfg, legs[t], t, 0, 0, NoRoute, script);
    LegShape(cfg, legs[t], t, 0, 0, NoRoute, script);
    OneLegOnTarget(legs[t], t, r, t);
    if r.end.Fell? {
      RunShape(cfg, legs, t + 1, true, Some(r.end.why), r.rest);
      OnTargetSplit(legs, t, r, RunFrom(cfg, legs, t + 1, true, Some(r.end.why), r.rest), t);
    }
  }

  lemma {:induction false} ApproachReaches(cfg: Config, legs: seq<Leg>, i: nat, t: nat, tried: bool, last: Option<Why>, script: seq<Turn>)
    requires i <= t < |legs| && Reachable(cfg, legs, i, t) && !(tried && cfg.isCombo && !cfg.fallbackOn)
    ensures OnTarget(RunFrom(cfg, legs, i, tried, last, Approach(legs, i, t) + script).calls, t)
         == RunLeg(cfg, legs[t], t, 0, 0, NoRoute, script).calls
    decreases t - i
  {
    hide RunLeg, LegInv, RunInv, OnTarget;
    if i == t {
      assert Approach(legs, i, t) + script == script;
      LastLegOnTarget(cfg, legs, t, tried, last, script);
    } else {
      var leg, rest := legs[i], Approach(legs, i + 1, t) + script;
      if StartsOn(leg) {
        assert Approach(legs, i, t) + script == [REFUSED] + rest;
        OneRefusal(cfg, leg, i, rest);
        LegShape(cfg, leg, i, 0, 0, NoRoute, [REFUSED] + rest);
        var why := Some(Upstream(TOO_LONG));
        ApproachReaches(cfg, legs, i + 1, t, true, why, script);
        RunShape(cfg, legs, i + 1, true, why, rest);
        OnTargetSplit(legs, i, RunLeg(cfg, leg, i, 0, 0, NoRoute, [REFUSED] + rest),
                      RunFrom(cfg, legs, i + 1, true, why, rest), t);
      } else {
        assert Approach(legs, i, t) + script == rest;
        var why := if !leg.known then UnknownProvider else if leg.disabled then ProviderDisabled else ModelBenched;
        ApproachReaches(cfg, legs, i + 1, t, tried, Some(why), script);
      }
    }
  }

  lemma {:induction false} UnreachableUncalled(cfg: Config, legs: seq<Leg>, i: nat, t: nat, tried: bool, last: Option<Why>, script: seq<Turn>)
    requires i <= t < |legs| && !Reachable(cfg, legs, i, t)
    ensures OnTarget(RunFrom(cfg, legs, i, tried, last, script).calls, t) == []
    decreases t - i
  {
    hide RunLeg, LegInv, RunInv, OnTarget;
    NoCallsOnTarget(t);
    if !(tried && cfg.isCombo && !cfg.fallbackOn) {
      var leg := legs[i];
      var why := if !leg.known then UnknownProvider else if leg.disabled then ProviderDisabled else ModelBenched;
      if i == t {
        LaterUncalled(cfg, legs, i, tried, Some(why), script);
      } else if !leg.known || leg.disabled || (leg.benched && !leg.retryForever) {
        if !(leg.known && !leg.disabled && cfg.isCombo && !cfg.fallbackOn) {
          UnreachableUncalled(cfg, legs, i + 1, t, tried, Some(why), script);
        }
      } else {
        var r := RunLeg(cfg, leg, i, 0, 0, NoRoute, script);
        LegShape(cfg, leg, i, 0, 0, NoRoute, script);
        OneLegOnTarget(leg, i, r, t);
        if r.end.Fell? && !(cfg.isCombo && !cfg.fallbackOn) && !Stalls(leg) {
          UnreachableUncalled(cfg, legs, i + 1, t, true, Some(r.end.why), r.rest);
          RunShape(cfg, legs, i + 1, true, Some(r.end.why), r.rest);
          OnTargetSplit(legs, i, r, RunFrom(cfg, legs, i + 1, true, Some(r.end.why), r.rest), t);
        } else {
          assert r.calls + [] == r.calls;
        }
      }
    }
  }

  lemma {:induction false} NoCallsOnTarget(t: nat)
    ensures OnTarget([], t) == []
  {
  }

  lemma LaterUncalled(cfg: Config, legs: seq<Leg>, t: nat, tried: bool, last: Option<Why>, script: seq<Turn>)
    requires t < |legs|
    ensures OnTarget(RunFrom(cfg, legs, t + 1, tried, last, script).calls, t) == []
  {
    RunShape(cfg, legs, t + 1, tried, last, script);
    OnTargetNone(RunFrom(cfg, legs, t + 1, tried, last, script).calls, t);
  }

  /** One gated 403 lifts the attempt budget altogether, on every bounded target a request can get to:
      after it, plain transient errors keep the target retrying for as long as they last.  The 403
      benches the account it came from, so the retries run on a second account, or on the same one
      once its bench has ended. */
  lemma {:induction false} GatedLiftsBudget(cfg: Config, legs: seq<Leg>, t: nat, n: nat)
    requires t < |legs| && !legs[t].retryForever && legs[t].accounts > 0 && Reachable(cfg, legs, 0, t)
    ensures var script := Approach(legs, 0, t) + ([Turn(true, Failed(GATED_403), false)] + Storm(n));
            |OnTarget(Execute(cfg, legs, script).calls, t)| == n + 1
  {
    hide RunLeg, OnTarget;
    ApproachReaches(cfg, legs, 0, t, false, None, [Turn(true, Failed(GATED_403), false)] + Storm(n));
    StormAfterGated(cfg, legs[t], t, n);
  }

  lemma {:induction false} BudgetWithoutAccounts(cfg: Config, leg: Leg, t: nat, attempt: nat, last: Why, script: seq<Turn>)
    requires !leg.retryForever && leg.accounts == 0 && attempt <= Attempts(cfg)
    ensures attempt + |RunLeg(cfg, leg, t, attempt, 0, last, script).calls| <= Attempts(cfg)
    decreases |script|
  {
    hide Judge;
    if attempt < Attempts(cfg) && |script| > 0 && script[0].account && script[0].reply.Failed? {
      var e := script[0].reply.err;
      if Judge(leg, e).RetryNow? || (Judge(leg, e).RetryAfterWait? && !script[0].hangUp) {
        BudgetWithoutAccounts(cfg, leg, t, attempt + 1, Upstream(e), script[1..]);
      }
    }
  }

  /** So the budget of a bounded target, anywhere in the list, stands whatever the upstreams answer
      exactly when its provider has no account that a gated 403 could rotate away from, or no request
      can get to it. */
  lemma {:induction false} BudgetStandsExactlyWhen(cfg: Config, legs: seq<Leg>, t: nat)
    requires t < |legs| && !legs[t].retryForever
    ensures (forall script :: |OnTarget(Execute(cfg, legs, script).calls, t)| <= Attempts(cfg)) <==>
            legs[t].accounts == 0 || !Reachable(cfg, legs, 0, t)
  {
    hide RunLeg, OnTarget, Execute;
    if legs[t].accounts == 0 || !Reachable(cfg, legs, 0, t) {
      forall script
        ensures |OnTarget(Execute(cfg, legs, script).calls, t)| <= Attempts(cfg)
      {
        BudgetStands(cfg, legs, t, script);
      }
    } else {
      GatedLiftsBudget(cfg, legs, t, Attempts(cfg));
    }
  }

  /** A gated 403 benches the leg's account, and the router picks again at once: with a single account
      that pick finds none. */
  ghost predicate BenchHolds(leg: Leg, script: seq<Turn>) {
    forall i :: 0 <= i < |script| - 1 && script[i].account && IsGated(leg, script[i].reply) ==> !script[i + 1].account
  }

  lemma {:induction false} OneAccountBudget(cfg: Config, leg: Leg, t: nat, attempt: nat, last: Why, script: seq<Turn>)
    requires !leg.retryForever && leg.accounts == 1 && attempt <= Attempts(cfg) && BenchHolds(leg, script)
    ensures attempt + |RunLeg(cfg, leg, t, attempt, 0, last, script).calls| <= Attempts(cfg)
    decreases |script|
  {
    hide Judge, IsGated;
    if attempt < Attempts(cfg) && |script| > 0 && script[0].account && script[0].reply.Failed? {
      var e, rest := script[0].reply.err, script[1..];
      DispatchAgrees(leg, e);
      assert forall i :: 0 <= i < |rest| ==> rest[i] == script[i + 1];
      if Judge(leg, e).GatedRotate? {
        assert |rest| > 0 ==> !rest[0].account;
        assert |RunLeg(cfg, leg, t, attempt, 1, Upstream(e), rest).calls| == 0;
      } else if Judge(leg, e).RetryNow? || (Judge(leg, e).RetryAfterWait? && !script[0].hangUp) {
        OneAccountBudget(cfg, leg, t, attempt + 1, Upstream(e), rest);
      }
    }
  }

  /** With the bench taken into account, the attempts on a bounded target stay within its budget
      whatever its upstream answers exactly when its provider has at most one account. */
  lemma {:induction false} LegBudgetExactlyWhen(cfg: Config, leg: Leg, t: nat)
    requires !leg.retryForever
    ensures (forall script :: (leg.accounts == 1 ==> BenchHolds(leg, script)) ==>
               |RunLeg(cfg, leg, t, 0, 0, NoRoute, script).calls| <= Attempts(cfg)) <==>
            leg.accounts <= 1
  {
    hide RunLeg;
    if leg.accounts <= 1 {
      forall script | leg.accounts == 1 ==> BenchHolds(leg, script)
        ensures |RunLeg(cfg, leg, t, 0, 0, NoRoute, script).calls| <= Attempts(cfg)
      {
        if leg.accounts == 1 {
          OneAccountBudget(cfg, leg, t, 0, NoRoute, script);
        } else {
          BudgetWithoutAccounts(cfg, leg, t, 0, NoRoute, script);
        }
      }
    } else {
      StormAfterGated(cfg, leg, t, Attempts(cfg));
    }
  }

  lemma {:induction false} BudgetStands(cfg: Config, legs: seq<Leg>, t: nat, script: seq<Turn>)
    requires t < |legs| && !legs[t].retryForever
    requires legs[t].accounts == 0 || !Reachable(cfg, legs, 0, t)
    ensures |OnTarget(Execute(cfg, legs, script).calls, t)| <= Attempts(cfg)
  {
    hide RunLeg, OnTarget;
    if Reachable(cfg, legs, 0, t) {
      LegsOfRun(cfg, legs, 0, false, None, script, t);
      var calls := OnTarget(Execute(cfg, legs, script).calls, t);
      if calls != [] {
        var s :| calls == RunLeg(cfg, legs[t], t, 0, 0, NoRoute, s).calls;
        BudgetWithoutAccounts(cfg, legs[t], t, 0, NoRoute, s);
      }
    } else {
      UnreachableUncalled(cfg, legs, 0, t, false, None, script);
    }
  }

  /** Gated rotation is bounded by the pool on every leg, retry_forever or not. */
  lemma {:induction false} GatedBound(cfg: Config, legs: seq<Leg>, script: seq<Turn>, t: nat)
    requires t < |legs|
    ensures GatedCount(legs[t], OnTarget(Execute(cfg, legs, script).calls, t)) <= legs[t].accounts + 1
  {
    LegsOfRun(cfg, legs, 0, false, None, script, t);
    var calls := OnTarget(Execute(cfg, legs, script).calls, t);
    if calls != [] {
      var s :| calls == RunLeg(cfg, legs[t], t, 0, 0, NoRoute, s).calls;
      LegShape(cfg, legs[t], t, 0, 0, NoRoute, s);
    }
  }

  ghost predicate GatedOut(cfg: Config, legs: seq<Leg>, calls: seq<Call>) {
    && cfg.isCombo && |calls| > 0
    && var t := calls[|calls| - 1].target;
       t < |legs| && legs[t].retryForever
       && GatedCount(legs[t], OnTarget(calls, t)) == legs[t].accounts + 1
  }

  lemma OneLegGatedOut(cfg: Config, legs: seq<Leg>, i: nat, lr: LegRun)
    requires i < |legs| && LegInv(legs[i], i, 0, lr)
    ensures GatedOut(cfg, legs, lr.calls) <==>
            cfg.isCombo && legs[i].retryForever && lr.end.Fell? && !lr.end.refusal
  {
    hide EndsRequest;
    OneLegOnTarget(legs[i], i, lr, i);
    assert |lr.calls| > 0 ==> lr.calls[|lr.calls| - 1] in lr.calls;
  }

  lemma SplitGatedOut(cfg: Config, legs: seq<Leg>, i: nat, lr: LegRun, rest: Run)
    requires i < |legs| && LegInv(legs[i], i, 0, lr) && RunInv(legs, i + 1, rest)
    requires !GatedOut(cfg, legs, lr.calls)
    ensures GatedOut(cfg, legs, lr.calls + rest.calls) <==> GatedOut(cfg, legs, rest.calls)
  {
    hide EndsRequest, GatedCount, LegInv;
    if |rest.calls| == 0 {
      assert lr.calls + rest.calls == lr.calls;
    } else {
      OnTargetSplit(legs, i, lr, rest, rest.calls[|rest.calls| - 1].target);
    }
  }

  lemma {:induction false} PanicShape(cfg: Config, legs: seq<Leg>, i: nat, tried: bool, last: Option<Why>, script: seq<Turn>)
    requires i <= |legs|
    ensures var r := RunFrom(cfg, legs, i, tried, last, script);
            r.outcome.Panicked? <==> GatedOut(cfg, legs, r.calls)
    decreases |legs| - i
  {
    hide RunLeg, LegInv, RunInv;
    if i < |legs| && !(tried && cfg.isCombo && !cfg.fallbackOn) {
      var leg := legs[i];
      if !leg.known || leg.disabled || (leg.benched && !leg.retryForever) {
        var why := if !leg.known then UnknownProvider else if leg.disabled then ProviderDisabled else ModelBenched;
        PanicShape(cfg, legs, i + 1, tried, Some(why), script);
      } else {
        var r := RunLeg(cfg, leg, i, 0, 0, NoRoute, script);
        LegShape(cfg, leg, i, 0, 0, NoRoute, script);
        OneLegGatedOut(cfg, legs, i, r);
        LegNeverPanics(leg, i, r);
        if r.end.Fell? {
          PanicShape(cfg, legs, i + 1, true, Some(r.end.why), r.rest);
          RunShape(cfg, legs, i + 1, true, Some(r.end.why), r.rest);
          if !GatedOut(cfg, legs, r.calls) {
            SplitGatedOut(cfg, legs, i, r, RunFrom(cfg, legs, i + 1, true, Some(r.end.why), r.rest));
          }
        }
      }
    }
  }

  lemma LegNeverPanics(leg: Leg, t: nat, r: LegRun)
    requires LegInv(leg, t, 0, r)
    ensures r.end != Returned(Panicked)
  {
  }

  /** The panic guard fires exactly when, in a combo, a retry_forever leg has answered one gated 403
      more than it has accounts; no other class of error drives such a leg out of its loop. */
  lemma PanicsExactlyWhenGatedOut(cfg: Config, legs: seq<Leg>, script: seq<Turn>)
    ensures var r := Execute(cfg, legs, script);
            r.outcome.Panicked? <==>
              && cfg.isCombo && |r.calls| > 0
              && var t := r.calls[|r.calls| - 1].target;
                 t < |legs| && legs[t].retryForever
                 && GatedCount(legs[t], OnTarget(r.calls, t)) == legs[t].accounts + 1
  {
    PanicShape(cfg, legs, 0, false, None, script);
  }

  // ---- The loops ----------------------------------------------------------------------------------------------

  /** The dispatch on a failed call, test by test. */
  method JudgeError(leg: Leg, e: Err) returns (v: Verdict)
    ensures v == Judge(leg, e)
  {
    if e.streamCommitted {
      return Return;
    }
    if e.corrupt && !leg.retryForever {
      return Fall(false);
    }
    var refusal := !(e.retryable || e.regionLocked || e.fallbackable);
    if refusal {
      if e.status == 404 && e.modelScoped {
        return Fall(refusal);
      }
      if e.echoRequired {
        return Fall(refusal);
      }
      if e.contextExceeded {
        return Fall(refusal);
      }
      return Return;
    }
    if e.fallbackable && e.status == 403 {
      return GatedRotate;
    }
    if leg.retryForever {
      return RetryAfterWait;
    }
    if e.noSameTargetRetry || e.sharedConcurrency {
      return Fall(refusal);
    }
    if e.regionLocked || e.fallbackable {
      return RetryNow;
    }
    return RetryAfterWait;
  }

  lemma {:induction false} NoTurn(cfg: Config, leg: Leg, t: nat, attempt: nat, gated: nat, last: Why, script: seq<Turn>)
    ensures !(leg.retryForever || attempt < Attempts(cfg) || gated > 0) ==>
              RunLeg(cfg, leg, t, attempt, gated, last, script) == LegRun([], script, Fell(last, false))
    ensures (leg.retryForever || attempt < Attempts(cfg) || gated > 0) && |script| == 0 ==>
              RunLeg(cfg, leg, t, attempt, gated, last, script) == LegRun([], [], Returned(Pending))
  {
  }

  lemma {:induction false} OneTurn(cfg: Config, leg: Leg, t: nat, attempt: nat, gated: nat, last: Why, script: seq<Turn>)
    requires (leg.retryForever || attempt < Attempts(cfg) || gated > 0) && |script| > 0
    ensures var turn, rest, r := script[0], script[1..], RunLeg(cfg, leg, t, attempt, gated, last, script);
            var c := Call(t, turn.reply);
            if !turn.account then
              r == if !leg.retryForever then LegRun([], rest, Fell(PoolEmpty, false))
                   else if turn.hangUp then LegRun([], rest, Returned(Refused(ClientClosed)))
                   else RunLeg(cfg, leg, t, attempt, gated, last, rest)
            else if turn.reply.Answer? then r == LegRun([c], rest, Returned(Served))
            else r == AfterFailure(cfg, leg, t, attempt, gated, turn, rest)
  {
  }

  /** The attempt loop on one target, consuming the script from `from`. */
  method TryTarget(cfg: Config, leg: Leg, t: nat, script: seq<Turn>, from: nat)
    returns (calls: seq<Call>, upto: nat, end: LegEnd)
    requires from <= |script|
    ensures from <= upto <= |script|
    ensures LegRun(calls, script[upto..], end) == RunLeg(cfg, leg, t, 0, 0, NoRoute, script[from..])
  {
    hide Judge, RunLeg;
    ghost var whole := RunLeg(cfg, leg, t, 0, 0, NoRoute, script[from..]);
    calls, upto := [], from;
    var attempt, gated := 0, 0;
    var last := NoRoute;
    while leg.retryForever || attempt < Attempts(cfg) || gated > 0
      invariant from <= upto <= |script|
      invariant attempt >= 0 && gated >= 0
      invariant var r := RunLeg(cfg, leg, t, attempt, gated, last, script[upto..]);
                whole == r.(calls := calls + r.calls)
      decreases |script| - upto
    {
      if upto == |script| {
        NoTurn(cfg, leg, t, attempt, gated, last, script[upto..]);
        return calls, upto, Returned(Pending);
      }
      var turn := script[upto];
      assert script[upto..][1..] == script[upto + 1..];
      OneTurn(cfg, leg, t, attempt, gated, last, script[upto..]);
      upto := upto + 1;
      if !turn.account {
        if leg.retryForever {
          if turn.hangUp {
            return calls, upto, Returned(Refused(ClientClosed));
          }
          continue;
        }
        return calls, upto, Fell(PoolEmpty, false);
      }
      calls := calls + [Call(t, turn.reply)];
      if turn.reply.Answer? {
        return calls, upto, Returned(Served);
      }
      var e := turn.reply.err;
      last := Upstream(e);
      var v := JudgeError(leg, e);
      match v {
        case Return => return calls, upto, Returned(Refused(last));
        case Fall(refusal) => return calls, upto, Fell(last, refusal);
        case GatedRotate =>
          gated := gated + 1;
          if gated > leg.accounts {
            return calls, upto, Fell(last, false);
          }
          if turn.hangUp {
            return calls, upto, Returned(Refused(ClientClosed));
          }
        case RetryNow => attempt := attempt + 1;
        case RetryAfterWait =>
          attempt := attempt + 1;
          if turn.hangUp {
            return calls, upto, Returned(Refused(ClientClosed));
          }
      }
    }
    NoTurn(cfg, leg, t, attempt, gated, last, script[upto..]);
    end := Fell(last, false);
  }

  lemma {:induction false} ExecuteIsRunFrom(cfg: Config, legs: seq<Leg>, script: seq<Turn>)
    ensures Execute(cfg, legs, script) == RunFrom(cfg, legs, 0, false, None, script[0..])
    ensures RunFrom(cfg, legs, 0, false, None, script[0..]) == RunFrom(cfg, legs, 0, false, None, script)
  {
    assert script[0..] == script;
  }

  lemma Joined(a: seq<Call>, b: seq<Call>, c: seq<Call>)
    ensures a + (b + c) == (a + b) + c && a + [] == a
  {
  }

  /** The request: targets in order until one ends it.  `results` counts the result callbacks. */
  method ExecuteRequest(cfg: Config, legs: seq<Leg>, script: seq<Turn>)
    returns (calls: seq<Call>, outcome: Outcome, results: nat)
    ensures Run(calls, outcome) == Execute(cfg, legs, script)
    ensures results == if outcome.Served? then 1 else 0
  {
    hide RunLeg, Judge, Execute;
    ghost var whole := RunFrom(cfg, legs, 0, false, None, script);
    ExecuteIsRunFrom(cfg, legs, script);
    calls, results := [], 0;
    var tried := false;
    var last: Option<Why> := None;
    var i, at := 0, 0;
    while i < |legs|
      invariant i <= |legs| && at <= |script| && results == 0
      invariant var r := RunFrom(cfg, legs, i, tried, last, script[at..]);
                whole == Run(calls + r.calls, r.outcome)
    {
      if tried && cfg.isCombo && !cfg.fallbackOn {
        break;
      }
      var leg := legs[i];
      if !leg.known {
        last, i := Some(UnknownProvider), i + 1;
        continue;
      }
      if leg.disabled {
        last, i := Some(ProviderDisabled), i + 1;
        continue;
      }
      if leg.benched {
        if leg.retryForever {
          if leg.benchHangUp {
            return calls, Refused(ClientClosed), results;
          }
        } else {
          last := Some(ModelBenched);
          if cfg.isCombo && !cfg.fallbackOn {
            break;
          }
          i := i + 1;
          continue;
        }
      }
      tried := true;
      var made, upto, end := TryTarget(cfg, leg, i, script, at);
      Joined(calls, made, RunFrom(cfg, legs, i + 1, true, if end.Fell? then Some(end.why) else None, script[upto..]).calls);
      calls, at := calls + made, upto;
      if end.Returned? {
        if end.outcome.Served? {
          results := results + 1;
        }
        return calls, end.outcome, results;
      }
      if leg.retryForever && cfg.isCombo && !end.refusal {
        return calls, Panicked, results;
      }
      last, i := Some(end.why), i + 1;
    }
    outcome := Refused(if last.Some? then last.value else NoRoute);
  }
}
