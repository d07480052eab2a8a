/**
  What each fault and each success leaves on the slots of its account, field by field, and which
  successes a bench outlives, told by when calls began and not by the stamp a slot carries.
 */
module PoolBenches {
  import opened Prelude
  import opened PoolState
  import opened PoolAdmission
  import opened PoolRuns
  import opened PoolAccounts

  /** The fault benches slot s, its account's, for d: a cool for its own length, a 429 for the upstream's
      hint or else the ladder's step. */
  ghost predicate Benches(p: Pool, e: Event, s: Slot, d: int) {
    && (e.Cool? || e.Hit429?)
    && Same(s.acct, e.a)
    && d == (if e.Cool? then e.d else if e.retryAfter > 0 then e.retryAfter else Ladder(p.policy, s.strikes))
  }

  /** The ladder in seconds written out: 10, 20, 40, 60 from then on, unless configured otherwise. */
  function Ladder(y: Policy, strikes: nat): int {
    var base := if y.coolBase > 0 then y.coolBase else 10_000_000_000;
    var cap := if y.coolCap > 0 then y.coolCap else 60_000_000_000;
    var step := if strikes == 0 then base else if strikes == 1 then 2 * base else if strikes == 2 then 4 * base else 8 * base;
    if step > cap then cap else step
  }

  lemma LadderIsStep(y: Policy, k: nat)
    ensures LadderStep(y, k) == Ladder(y, k)
    ensures Ladder(y, k) > 0
  {
    var n := if k < 3 then k else 3;
    assert Power2(0) == 1 && Power2(1) == 2;
    assert Power2(2) == 4;
    assert Power2(3) == 8;
    if k == 0 {
      assert LadderBase(y) * Power2(n) == LadderBase(y);
    }
  }

  /** A 429 or a cool of d on an account: every slot of it is benched until now + d and stamped now, if
      that lies beyond both now and the bench that stands; otherwise it keeps its stamp, and its bench
      or, if that had passed, now.  A 429 adds one strike, a cool none; a billing mark stays. */
  lemma SlotAfterBench(p: Pool, e: Event, t: int, i: nat, d: int)
    requires Inv(p, t) && Reading(e, t) >= t && i < |p.slots|
    requires Benches(p, e, p.slots[i], d)
    ensures |Step(p, e).slots| == |p.slots|
    ensures var now, s, r := Reading(e, t), p.slots[i], Step(p, e).slots[i];
            && (if d > 0 && now + d > s.cooldown then r.cooldown == now + d && r.benchedAt == now
                else r.cooldown == (if s.cooldown < now then now else s.cooldown) && r.benchedAt == s.benchedAt)
            && r.strikes == s.strikes + (if e.Hit429? then 1 else 0)
            && r.invalidated == s.invalidated && r.invalidatedAt == s.invalidatedAt
  {
    hide NextAccount, Step, InSync, Stamped, LadderStep, Ladder;
    FaultAfterStep(p, e, t, i);
    LadderIsStep(p.policy, p.slots[i].strikes);
  }

  /** A billing refusal marks every slot of its account and stamps it now, also when it was marked. */
  lemma SlotAfterRefusal(p: Pool, a: Account, now: int, t: int, i: nat)
    requires Inv(p, t) && now >= t && i < |p.slots| && Same(p.slots[i].acct, a)
    ensures var s, r := p.slots[i], Step(p, Invalidate(a, now)).slots[i];
            && r.invalidated && r.invalidatedAt == now
            && r.cooldown == s.cooldown && r.benchedAt == s.benchedAt && r.strikes == s.strikes
  {
    hide NextAccount, InSync, Stamped;
    FaultAfterStep(p, Invalidate(a, now), t, i);
  }

  /** A success leaves no strikes on any slot of its account; it lifts a billing mark, and a bench, whose
      stamp lies before the call began, and leaves any other as it was. */
  lemma SlotAfterSuccess(p: Pool, a: Account, since: int, t: int, i: nat)
    requires Inv(p, t) && i < |p.slots| && Same(p.slots[i].acct, a)
    ensures var s, r := p.slots[i], Step(p, Ok(a, since)).slots[i];
            && r.strikes == 0
            && (if s.invalidated && s.invalidatedAt < since then !r.invalidated && r.invalidatedAt == 0
                else r.invalidated == s.invalidated && r.invalidatedAt == s.invalidatedAt)
            && (if s.cooldown != 0 && s.benchedAt < since then r.cooldown == 0 && r.benchedAt == 0
                else r.cooldown == s.cooldown && r.benchedAt == s.benchedAt)
  {
    hide NextAccount, InSync, Stamped;
    FaultAfterStep(p, Ok(a, since), t, i);
  }

  /** An operator's reset clears all slots of a terminal account and touches no other. */
  lemma SlotAfterReset(p: Pool, a: Account, t: int, i: nat)
    requires Inv(p, t) && i < |p.slots| && Same(p.slots[i].acct, a)
    ensures var s, r := p.slots[i], Step(p, Revalidate(a)).slots[i];
            Fault(r) == if s.invalidated then FaultState(0, 0, 0, false, 0) else Fault(s)
  {
    hide NextAccount, InSync, Stamped;
    FaultAfterStep(p, Revalidate(a), t, i);
  }

  /** A slot whose account is refused at now is closed until the parole ends, 30 minutes later unless
      configured, and reports that instant; from then on the mark does not close it. */
  lemma RefusalParoles(p: Pool, a: Account, now: int, t: int, i: nat, u: int)
    requires Inv(p, t) && now >= t && i < |p.slots| && Same(p.slots[i].acct, a) && u >= now
    ensures var parole := if p.policy.billingParole > 0 then p.policy.billingParole else 1_800_000_000_000;
            var q := Step(p, Invalidate(a, now));
            var unmarked := p.(slots := p.slots[i := p.slots[i].(invalidated := false)]);
            Sound(q) && Sound(unmarked)
            && PoolState.Available(q, i, u) == if u < now + parole then Blocked(now + parole)
                                               else PoolState.Available(unmarked, i, u)
  {
    hide InSync, Stamped;
    StepShape(p, Invalidate(a, now), t, i);
  }

  // ---- Which successes lift a bench -----------------------------------------------------------------------

  lemma {:induction false} ClockedCons(e: Event, es: seq<Event>, t: int)
    ensures Clocked([e] + es, t) <==> Reading(e, t) >= t && Clocked(es, Reading(e, t))
  {
    assert ([e] + es)[1..] == es;
  }

  lemma {:induction false} RunCons(p: Pool, e: Event, es: seq<Event>, t: int)
    requires Inv(p, t) && Clocked([e] + es, t)
    ensures Inv(Step(p, e), Reading(e, t)) && Clocked(es, Reading(e, t))
    ensures Run(p, [e] + es, t) == Run(Step(p, e), es, Reading(e, t))
  {
    hide InSync, Stamped, Step;
    ClockedCons(e, es, t);
    StepKeepsInv(p, e, t);
    assert ([e] + es)[1..] == es;
  }

  /** A bench of d set at now outlives, over any run, every success of a call that began at or before
      now. */
  lemma {:induction false} BenchOutlivesEarlierCalls(p: Pool, e: Event, es: seq<Event>, t: int, i: nat, d: int)
    requires Inv(p, t) && Clocked([e] + es, t) && i < |p.slots|
    requires Benches(p, e, p.slots[i], d)
    requires d > 0 && Reading(e, t) + d > p.slots[i].cooldown
    requires OnlyStragglers(es, p.slots[i].acct, Reading(e, t))
    ensures Run(p, [e] + es, t).slots[i].cooldown >= Reading(e, t) + d
  {
    hide InSync, Stamped, Step, Run, OnlyStragglers, Clocked;
    ClockedCons(e, es, t);
    RunCons(p, e, es, t);
    SlotAfterBench(p, e, t, i, d);
    StepShape(p, e, t, i);
    BenchOutlivesStragglers(Step(p, e), es, Reading(e, t), i);
  }

  lemma StepShape(p: Pool, e: Event, t: int, i: nat)
    requires Inv(p, t) && Reading(e, t) >= t && i < |p.slots|
    ensures Inv(Step(p, e), Reading(e, t)) && Reading(e, t) > 0
    ensures |Step(p, e).slots| == |p.slots| && Step(p, e).slots[i].acct == p.slots[i].acct
  {
    hide Step;
    StepKeepsInv(p, e, t);
  }

  /** No further bench of the account, besides stragglers. */
  ghost predicate OnlyEarlierSuccesses(es: seq<Event>, a: Account, now: int) {
    && OnlyStragglers(es, a, now)
    && forall k :: 0 <= k < |es| ==> !((es[k].Hit429? || es[k].Cool?) && Same(a, es[k].a))
  }

  lemma {:induction false} BenchStands(p: Pool, es: seq<Event>, t: int, i: nat)
    requires Inv(p, t) && Clocked(es, t) && i < |p.slots|
    requires OnlyEarlierSuccesses(es, p.slots[i].acct, p.slots[i].benchedAt)
    ensures Run(p, es, t).slots[i].cooldown == p.slots[i].cooldown
    ensures Run(p, es, t).slots[i].benchedAt == p.slots[i].benchedAt
    decreases |es|
  {
    hide NextAccount, Step, InSync, Stamped;
    if |es| > 0 {
      var e := es[0];
      FaultAfterStep(p, e, t, i);
      StepShape(p, e, t, i);
      BenchStands(Step(p, e), es[1..], Reading(e, t), i);
    }
  }

  /** The recency rule: of the successes after a bench of d set at now, with no other bench between, one
      lifts it exactly when its call began after now; until one does it stands at now + d. */
  lemma {:induction false} BenchLiftedExactlyByLaterCalls(p: Pool, e: Event, es: seq<Event>, t: int, i: nat, d: int, a: Account, since: int)
    requires Inv(p, t) && Clocked([e] + es, t) && i < |p.slots|
    requires Benches(p, e, p.slots[i], d)
    requires d > 0 && Reading(e, t) + d > p.slots[i].cooldown
    requires OnlyEarlierSuccesses(es, p.slots[i].acct, Reading(e, t)) && Same(p.slots[i].acct, a)
    ensures var q := Run(p, [e] + es, t);
            q.slots[i].cooldown == Reading(e, t) + d
            && Step(q, Ok(a, since)).slots[i].cooldown == if since > Reading(e, t) then 0 else Reading(e, t) + d
  {
    hide InSync, Stamped, Step, Run, OnlyEarlierSuccesses, Clocked;
    ClockedCons(e, es, t);
    RunCons(p, e, es, t);
    SlotAfterBench(p, e, t, i, d);
    StepShape(p, e, t, i);
    BenchStands(Step(p, e), es, Reading(e, t), i);
    var q := Run(p, [e] + es, t);
    FaultAfterStep(q, Ok(a, since), After(t, [e] + es), i);
  }

  /** A success of a call that began after every reading so far leaves its account without bench,
      billing mark and strikes. */
  lemma {:induction false} FreshSuccessClears(p: Pool, es: seq<Event>, t: int, i: nat, a: Account, since: int)
    requires Inv(p, t) && Clocked(es, t) && i < |p.slots| && Same(p.slots[i].acct, a) && since > After(t, es)
    ensures var r := Step(Run(p, es, t), Ok(a, since)).slots[i];
            r.cooldown == 0 && !r.invalidated && r.strikes == 0
  {
    hide Step, Clocked, Run;
    FaultAfterStep(Run(p, es, t), Ok(a, since), After(t, es), i);
  }

  lemma {:induction false} OneAccountPool(a: Account, policy: Policy, selection: Selection)
    requires a.weight == 1 && a.rpm == 0
    ensures NewPool([a], 0, 0, policy, selection).slots == [FreshSlot(a, None)]
  {
    var base := Base(0);
    assert Lay(base, [a], 1) == AddAccount(base, a);
    assert Copies(FreshSlot(a, None), 1) == Copies(FreshSlot(a, None), 0) + [FreshSlot(a, None)];
  }

  /** The first 429, at 100 s, benches until 110 s; a success of a call begun at 50 s leaves that, one
      begun at 101 s lifts it. */
  lemma {:induction false} FirstBenchExample(policy: Policy, selection: Selection)
    requires policy.coolBase == 0 && policy.coolCap == 0
    ensures var a := Account("a", "k", 1, 0);
            var p := NewPool([a], 0, 0, policy, selection);
            && Inv(p, SECOND)
            && var q := Step(p, Hit429(a, 0, 100 * SECOND));
               && Sound(q) && |q.slots| == 1
               && Step(q, Ok(a, 50 * SECOND)).slots[0].cooldown == 110 * SECOND
               && Step(q, Ok(a, 101 * SECOND)).slots[0].cooldown == 0
  {
    hide NewPool, Step, InSync, Stamped, Clocked;
    var a := Account("a", "k", 1, 0);
    var p := NewPool([a], 0, 0, policy, selection);
    NewPoolInv([a], 0, 0, policy, selection, SECOND);
    OneAccountPool(a, policy, selection);
    NewPoolKeeps([a], policy, selection);
    var hit := Hit429(a, 0, 100 * SECOND);
    StepShape(p, hit, SECOND, 0);
    NoMore(p, hit, SECOND);
    BenchLiftedExactlyByLaterCalls(p, hit, [], SECOND, 0, 10 * SECOND, a, 50 * SECOND);
    BenchLiftedExactlyByLaterCalls(p, hit, [], SECOND, 0, 10 * SECOND, a, 101 * SECOND);
  }

  lemma NewPoolKeeps(accts: seq<Account>, policy: Policy, selection: Selection)
    ensures NewPool(accts, 0, 0, policy, selection).policy == policy
  {
  }

  lemma {:induction false} NoMore(p: Pool, e: Event, t: int)
    requires Inv(p, t) && Reading(e, t) >= t
    ensures Clocked([e] + [], t) && Run(p, [e] + [], t) == Step(p, e)
  {
    hide Step, InSync, Stamped;
    ClockedCons(e, [], t);
    RunCons(p, e, [], t);
  }
}
