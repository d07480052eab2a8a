/**
  What the token buckets are worth to their callers: the burst `next` lets through at one instant,
  exactly when every grant is charged, and the budget of one configured account over any run of the
  pool built from it.
 */
module PoolBudgets {
  import opened Prelude
  import opened TokenBuckets
  import opened PoolState
  import opened PoolAdmission
  import opened PoolRuns

  // ---- Bursts through next -----------------------------------------------------------------------------

  /** Bucket k, shared or own, is the one every grant is charged to. */
  ghost predicate Governs(p: Pool, k: nat) {
    && Sound(p) && k < |p.heap|
    && (p.shared == None || p.shared == Some(k))
    && forall i :: 0 <= i < |p.slots| ==> p.slots[i].bucket == if p.shared == None then Some(k) else None
  }

  /** Neither terminal nor cooling. */
  predicate Ungated(y: Policy, s: Slot, now: int) {
    && (s.invalidated ==> s.invalidatedAt != 0 && now >= s.invalidatedAt + Parole(y))
    && (s.cooldown != 0 ==> now > s.cooldown)
  }

  ghost predicate SomeUngated(p: Pool, now: int) {
    exists i :: 0 <= i < |p.slots| && Ungated(p.policy, p.slots[i], now)
  }

  lemma GrantsExactlyWhen(p: Pool, id: string, now: int, o: Oracle, k: nat)
    requires Governs(p, k) && now > 0
    ensures NextAccount(p, id, now, o).slot.Some? <==>
            !BreakerOpen(p, now) && SomeUngated(p, now) && RefillAt(p.heap[k], now) <= now
  {
    hide NextAccount, RefillAt;
    AdmitsExactlyWhenOpen(p, id, now, o);
    forall i: nat | i < |p.slots|
      ensures Available(p, i, now).Open? <==>
              Ungated(p.policy, p.slots[i], now) && (p.shared == None ==> RefillAt(p.heap[k], now) <= now)
    {
    }
    if SomeUngated(p, now) && (p.shared == None ==> RefillAt(p.heap[k], now) <= now) {
      var i :| 0 <= i < |p.slots| && Ungated(p.policy, p.slots[i], now);
      assert Available(p, i, now).Open?;
    }
    if SomeOpen(p, now) {
      var i: nat :| i < |p.slots| && Available(p, i, now).Open?;
      assert Ungated(p.policy, p.slots[i], now);
    }
  }

  /** One caller's pick. */
  datatype Pick = Pick(id: string, o: Oracle)

  /** Every one of these picks at one instant is handed an account. */
  ghost predicate AllGranted(p: Pool, picks: seq<Pick>, now: int)
    requires Inv(p, now)
    decreases |picks|
  {
    if |picks| == 0 then true
    else
      NextKeepsInv(p, picks[0].id, now, picks[0].o);
      var r := NextAccount(p, picks[0].id, now, picks[0].o);
      r.slot.Some? && AllGranted(r.pool, picks[1..], now)
  }

  lemma GrantLeavesGates(p: Pool, id: string, now: int, o: Oracle, k: nat)
    requires Inv(p, now) && Governs(p, k) && NextAccount(p, id, now, o).slot.Some?
    ensures var q := NextAccount(p, id, now, o).pool;
            && Inv(q, now) && Governs(q, k)
            && q.heap[k] == AfterTake(p.heap[k], now)
            && (SomeUngated(p, now) ==> SomeUngated(q, now))
            && BreakerOpen(q, now) == BreakerOpen(p, now)
  {
    var e := NextCall(id, now, o);
    NextKeepsInv(p, id, now, o);
    NextLeavesFaults(p, id, now, o);
    HeapStep(p, e, now, k);
    BreakerStep(p, e, now);
    hide NextAccount, Inv, WellFormed;
    var q := NextAccount(p, id, now, o).pool;
    assert forall i :: 0 <= i < |p.slots| ==>
      Ungated(p.policy, q.slots[i], now) == Ungated(p.policy, p.slots[i], now);
  }

  /** A burst of picks at one instant, whoever makes them: with the breaker closed and some slot up,
      all are granted exactly while the bucket holds a token for each, however many it has piled up,
      or when what is left over leaks. */
  lemma {:induction false} BurstThroughNext(p: Pool, picks: seq<Pick>, now: int, k: nat)
    requires Inv(p, now) && Governs(p, k) && !BreakerOpen(p, now) && SomeUngated(p, now)
    ensures AllGranted(p, picks, now) <==> Level(p.heap[k], now) >= |picks| * TOKEN || Leaks(p.heap[k], now)
  {
    BurstFollowsGate(p, picks, now, k);
    GateBurst(p.heap[k], now, |picks|);
  }

  lemma {:induction false} BurstFollowsGate(p: Pool, picks: seq<Pick>, now: int, k: nat)
    requires Inv(p, now) && Governs(p, k) && !BreakerOpen(p, now) && SomeUngated(p, now)
    ensures AllGranted(p, picks, now) <==> GateStays(p.heap[k], now, |picks|)
    decreases |picks|
  {
    hide NextAccount, Governs, SomeUngated, RefillAt, AfterTake, InSync, Stamped;
    if |picks| > 0 {
      var id, o := picks[0].id, picks[0].o;
      assert Sound(p) && k < |p.heap| by {
        BucketInRange(p, k);
      }
      GrantsExactlyWhen(p, id, now, o, k);
      if NextAccount(p, id, now, o).slot.Some? {
        GrantLeavesGates(p, id, now, o, k);
        BurstFollowsGate(NextAccount(p, id, now, o).pool, picks[1..], now, k);
      }
    }
  }

  lemma BucketInRange(p: Pool, k: nat)
    requires Governs(p, k)
    ensures Sound(p) && k < |p.heap|
  {
  }

  // ---- When every grant is charged ----------------------------------------------------------------------

  /** A bucket whose token is a whole number of refill nanoseconds never falls a fraction short. */
  predicate Aligned(b: Bucket) {
    b.rpm > 0 && TOKEN % b.rpm == 0 && b.tokens % b.rpm == 0
  }

  lemma Multiple(x: int, d: int) returns (q: int)
    requires d > 0 && x % d == 0
    ensures x == q * d
  {
    q := x / d;
  }

  lemma MultipleMod(q: int, d: int)
    requires d > 0
    ensures (q * d) % d == 0
  {
    Quotient(q * d, d, q, 0);
  }

  lemma AlignedNeverSubTick(b: Bucket, now: int)
    requires Aligned(b)
    ensures !SubTick(b, now)
  {
    var t := Multiple(TOKEN, b.rpm);
    var q := Multiple(b.tokens, b.rpm);
    assert TOKEN - b.tokens == (t - q) * b.rpm;
    if t - q >= 1 {
      Ordered(1, t - q, b.rpm);
    } else {
      Ordered(t - q, 0, b.rpm);
    }
  }

  lemma TakeKeepsAligned(b: Bucket, now: int)
    requires Aligned(b)
    ensures Aligned(AfterTake(b, now))
  {
    var t := Multiple(TOKEN, b.rpm);
    var q := Multiple(b.tokens, b.rpm);
    var n := if b.last == 0 then 0 else now - b.last;
    assert Level(b, now) == (q + n) * b.rpm;
    MultipleMod(q + n, b.rpm);
    assert Level(b, now) - TOKEN == (q + n - t) * b.rpm;
    MultipleMod(q + n - t, b.rpm);
  }

  lemma {:induction false} AlignedNeverFree(p: Pool, es: seq<Event>, t: int, k: nat)
    requires Inv(p, t) && Clocked(es, t) && k < |p.heap| && Aligned(p.heap[k])
    ensures FreeGrants(p, es, t, k) == 0
    decreases |es|
  {
    hide NextAccount, Step, Charges, Stamped, InSync, WellFormed, SubTick, Aligned, AfterTake;
    if |es| > 0 {
      StepKeepsInv(p, es[0], t);
      HeapStep(p, es[0], t, k);
      AlignedNeverSubTick(p.heap[k], Reading(es[0], t));
      TakeKeepsAligned(p.heap[k], Reading(es[0], t));
      AlignedNeverFree(Step(p, es[0]), es[1..], Reading(es[0], t), k);
    }
  }

  lemma NewBucketAligned(rpm: int)
    requires rpm > 0 && TOKEN % rpm == 0
    ensures Aligned(NewBucket(rpm))
  {
    var t := Multiple(TOKEN, rpm);
    assert 2 * TOKEN == (2 * t) * rpm;
    MultipleMod(2 * t, rpm);
  }

  /** The pool of one account with one slot. */
  function Lone(rpm: int): Pool {
    Pool([FreshSlot(Account("a", "k", 1, rpm), Some(0))], [NewBucket(rpm)], None, 0, 0, map[], 0, 0,
         Policy(0, 0, 0, 0, 0), Fastest, [], 0)
  }

  function PickAt(now: int): Event {
    NextCall("", now, Oracle([], [], 0, 0, []))
  }

  lemma LoneStep(p: Pool, t: int, now: int)
    requires Inv(p, t) && now >= t && Governs(p, 0) && p.shared == None && |p.slots| == 1
    requires !BreakerOpen(p, now) && SomeUngated(p, now) && RefillAt(p.heap[0], now) <= now
    ensures Charges(p, PickAt(now), 0)
    ensures var q := Step(p, PickAt(now));
            && Inv(q, now) && Governs(q, 0) && q.shared == None && |q.slots| == 1
            && !BreakerOpen(q, now) && SomeUngated(q, now)
            && q.heap[0] == AfterTake(p.heap[0], now)
  {
    var e := PickAt(now);
    OtherKeepsInv(p, p, t, now);
    GrantsExactlyWhen(p, e.id, now, e.o, 0);
    GrantLeavesGates(p, e.id, now, e.o, 0);
    NextKeepsInv(p, e.id, now, e.o);
  }

  /** Two picks a whole token's refill apart and a third at the reading of the second. */
  function LoneRun(rpm: int): seq<Event>
    requires rpm > 0
  {
    [PickAt(1), PickAt(1 + TOKEN / rpm), PickAt(1 + TOKEN / rpm)]
  }

  lemma LoneBuckets(rpm: int)
    requires rpm > 0 && TOKEN % rpm != 0
    ensures var b0, u := NewBucket(rpm), 1 + TOKEN / rpm;
            var b1 := AfterTake(b0, 1);
            var b2 := AfterTake(b1, u);
            && RefillAt(b0, 1) <= 1 && RefillAt(b1, u) <= u && RefillAt(b2, u) <= u
            && !SubTick(b0, 1) && !SubTick(b1, u) && SubTick(b2, u)
            && rpm * (u - 1) < TOKEN
  {
    var u := 1 + TOKEN / rpm;
    var b1 := AfterTake(NewBucket(rpm), 1);
    ShortRemainder(rpm);
    assert b1 == Bucket(TOKEN, rpm, 1);
    assert Level(b1, u) == 2 * TOKEN - TOKEN % rpm;
    var b2 := AfterTake(b1, u);
    assert b2 == Bucket(TOKEN - TOKEN % rpm, rpm, u);
  }

  lemma ShortRemainder(rpm: int)
    requires rpm > 0 && TOKEN % rpm != 0
    ensures 0 < TOKEN % rpm < rpm && TOKEN % rpm <= TOKEN && TOKEN / rpm >= 0
    ensures (TOKEN / rpm) * rpm == TOKEN - TOKEN % rpm
    ensures rpm > TOKEN <==> TOKEN / rpm == 0
    ensures (TOKEN % rpm) / rpm == 0
  {
    var q, r := TOKEN / rpm, TOKEN % rpm;
    assert q * rpm + r == TOKEN;
    Quotient(r, rpm, 0, r);
    if q <= -1 {
      Ordered(q, -1, rpm);
    } else if q >= 1 {
      Ordered(1, q, rpm);
    }
  }

  lemma LoneStarts(rpm: int)
    requires rpm > 0
    ensures Inv(Lone(rpm), 1) && Governs(Lone(rpm), 0) && !BreakerOpen(Lone(rpm), 1) && SomeUngated(Lone(rpm), 1)
  {
    assert Ungated(Lone(rpm).policy, Lone(rpm).slots[0], 1);
  }

  /** All three are granted, but the third finds the bucket a fraction of a nanosecond short: it is
      not charged, and three grants are more than two plus the refill. */
  lemma LoneOverruns(rpm: int)
    requires rpm > 0 && TOKEN % rpm != 0
    ensures var p, es, u := Lone(rpm), LoneRun(rpm), 1 + TOKEN / rpm;
            && Inv(p, 1) && Clocked(es, 1) && After(1, es) == u
            && Grants(p, es, 1, 0) == 3 && FreeGrants(p, es, 1, 0) == 1
            && Origin(p, es, 1, 0) == 1 && 3 * TOKEN > 2 * TOKEN + rpm * (u - 1)
  {
    hide NextAccount, Step, Charges, Inv, Governs, SomeUngated, BreakerOpen, RefillAt, AfterTake, SubTick;
    var p0, es, u := Lone(rpm), LoneRun(rpm), 1 + TOKEN / rpm;
    LoneBuckets(rpm);
    LoneStarts(rpm);
    LoneStep(p0, 1, 1);
    var p1 := Step(p0, es[0]);
    LaterUngated(p1, 1, u);
    LoneStep(p1, 1, u);
    var p2 := Step(p1, es[1]);
    LoneStep(p2, u, u);
    LoneClock(u);
    assert es[1..] == [PickAt(u), PickAt(u)] && es[1..][1..] == [PickAt(u)] && es[1..][1..][1..] == [];
    StepKeepsInv(p0, es[0], 1);
    StepKeepsInv(p1, es[1], 1);
    StepKeepsInv(p2, es[2], u);
    LoneTally(p2, [PickAt(u)], u);
    LoneTally(p1, es[1..], 1);
    LoneTally(p0, es, 1);
  }

  lemma {:induction false} LoneClock(u: int)
    requires u >= 1
    ensures Clocked([PickAt(1), PickAt(u), PickAt(u)], 1) && Clocked([PickAt(u), PickAt(u)], 1) && Clocked([PickAt(u)], u)
    ensures After(1, [PickAt(1), PickAt(u), PickAt(u)]) == u
  {
    var one, two := [PickAt(u)], [PickAt(u), PickAt(u)];
    assert one[1..] == [] && two[1..] == one && [PickAt(1), PickAt(u), PickAt(u)][1..] == two;
    assert Clocked([], u) && Clocked(one, u) && Clocked(two, 1);
    assert After(u, []) == u && After(u, one) == u && After(1, two) == u;
  }

  lemma LaterUngated(p: Pool, t: int, u: int)
    requires u >= t && !BreakerOpen(p, t) && SomeUngated(p, t)
    ensures !BreakerOpen(p, u) && SomeUngated(p, u)
  {
    var i :| 0 <= i < |p.slots| && Ungated(p.policy, p.slots[i], t);
    assert Ungated(p.policy, p.slots[i], u);
  }

  /** One step of the three tallies. */
  lemma {:induction false} LoneTally(p: Pool, es: seq<Event>, t: int)
    requires Inv(p, t) && Clocked(es, t) && |es| > 0 && |p.heap| > 0
    ensures var q, u := Step(p, es[0]), Reading(es[0], t);
            && Inv(q, u) && Clocked(es[1..], u) && |q.heap| == |p.heap|
            && Grants(p, es, t, 0) == (if Charges(p, es[0], 0) then 1 else 0) + Grants(q, es[1..], u, 0)
            && FreeGrants(p, es, t, 0)
               == (if Charges(p, es[0], 0) && SubTick(p.heap[0], u) then 1 else 0) + FreeGrants(q, es[1..], u, 0)
            && (p.heap[0].last == 0 && Charges(p, es[0], 0) ==> Origin(p, es, t, 0) == u)
  {
    hide Step, Charges, SubTick, InSync, Stamped, WellFormed;
    StepKeepsInv(p, es[0], t);
  }

  /** No run ever grants from a new bucket of this rate without charging it. */
  ghost predicate NeverFree(rpm: int) {
    forall p, es, t, k: nat | Inv(p, t) && Clocked(es, t) && k < |p.heap| && p.heap[k] == NewBucket(rpm) ::
      FreeGrants(p, es, t, k) == 0
  }

  /** Every run grants at most two tokens and the refill from a new bucket of this rate. */
  ghost predicate WithinBudget(rpm: int) {
    forall p, es, t, k: nat | Inv(p, t) && Clocked(es, t) && k < |p.heap| && p.heap[k] == NewBucket(rpm) ::
      TOKEN * Grants(p, es, t, k) <= 2 * TOKEN + rpm * (After(t, es) - Origin(p, es, t, k))
  }

  /** Exactly which configured rates keep the budget "two plus the refill" over every run: those
      that divide a token evenly, and for those every grant is charged. */
  lemma BudgetExactlyWhen(rpm: int)
    requires rpm > 0
    ensures WithinBudget(rpm) <==> TOKEN % rpm == 0
    ensures NeverFree(rpm) <==> TOKEN % rpm == 0
  {
    hide NextAccount, Grants, FreeGrants, Origin, Run, Inv, Clocked;
    if TOKEN % rpm == 0 {
      forall p, es, t, k: nat | Inv(p, t) && Clocked(es, t) && k < |p.heap| && p.heap[k] == NewBucket(rpm)
        ensures FreeGrants(p, es, t, k) == 0
        ensures TOKEN * Grants(p, es, t, k) <= 2 * TOKEN + rpm * (After(t, es) - Origin(p, es, t, k))
      {
        NewBucketAligned(rpm);
        AlignedNeverFree(p, es, t, k);
        GrantBudget(p, es, t, k);
      }
    } else {
      LoneOverruns(rpm);
      assert Lone(rpm).heap[0] == NewBucket(rpm);
    }
  }

  /** And for those a burst at one instant is exactly the whole tokens piled up. */
  lemma {:induction false} AlignedBurst(p: Pool, picks: seq<Pick>, now: int, k: nat)
    requires Inv(p, now) && Governs(p, k) && !BreakerOpen(p, now) && SomeUngated(p, now) && Aligned(p.heap[k])
    ensures AllGranted(p, picks, now) <==> Level(p.heap[k], now) >= |picks| * TOKEN
  {
    hide AllGranted, Leaks, InSync, Stamped;
    BurstThroughNext(p, picks, now, k);
    AlignedNeverLeaks(p.heap[k], now);
  }

  lemma AlignedNeverLeaks(b: Bucket, now: int)
    requires Aligned(b)
    ensures !Leaks(b, now)
  {
    var q := Multiple(b.tokens, b.rpm);
    var n := if b.last == 0 then 0 else now - b.last;
    assert Level(b, now) == (q + n) * b.rpm;
    AlignedRemainder(q + n, b.rpm);
  }

  /** The part of a multiple of d that is left after whole tokens is at least d short of another. */
  lemma AlignedRemainder(q: int, d: int)
    requires d > 0 && TOKEN % d == 0
    ensures (q * d) % TOKEN <= TOKEN - d
  {
    var t := Multiple(TOKEN, d);
    var w, r := (q * d) / TOKEN, (q * d) % TOKEN;
    assert q * d == w * TOKEN + r;
    Regroup(q, w, t, d);
    var m := q - w * t;
    assert r == m * d;
    if m >= t {
      Ordered(t, m, d);
    } else {
      Ordered(m, t - 1, d);
      Regroup(t, 1, 1, d);
    }
  }

  lemma Regroup(q: int, w: int, t: int, d: int)
    ensures q * d - w * (t * d) == (q - w * t) * d
  {
  }
}
