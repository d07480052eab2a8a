/**
  When `next` hands out an account, which one, and what a refusal's ready instant is worth.
 */
module PoolAdmission {
  import opened Prelude
  import opened TokenBuckets
  import opened PoolState

  /** The pool's invariant at clock reading `now`. */
  ghost predicate Reached(p: Pool, now: int) {
    && Sound(p)
    && now > 0
    && (forall k :: 0 <= k < |p.heap| ==> WellFormed(p.heap[k], now))
    && (forall i :: 0 <= i < |p.slots| && p.slots[i].bucket.Some? ==> p.shared != p.slots[i].bucket)
  }

  ghost predicate SomeOpen(p: Pool, now: int)
    requires Sound(p)
  {
    exists i: nat :: i < |p.slots| && Available(p, i, now).Open?
  }

  /** Rotation from any start visits every slot. */
  lemma RotationCovers(start: nat, n: nat, j: nat) returns (i: nat)
    requires start <= n && j < n
    ensures i < n && (start + i) % n == j
  {
    i := if j >= start then j - start else j + n - start;
    if j >= start {
      SmallMod(j, n);
    } else {
      WrapsOnce(j, n);
    }
    assert start + i == if j >= start then j else j + n;
  }

  lemma WrapsOnce(j: nat, n: nat)
    requires j < n
    ensures (j + n) % n == j
  {
    var q := (j + n) / n;
    assert j + n == q * n + (j + n) % n;
    if q >= 2 {
      Ordered(2, q, n);
    } else {
      Ordered(q, 1, n);
    }
  }

  lemma {:induction false} ScanFinds(p: Pool, start: nat, now: int, k: nat, i: nat)
    requires Sound(p) && i < k && Available(p, (start + i) % |p.slots|, now).Open?
    ensures (start + i) % |p.slots| in Scan(p, start, now, k)
  {
    if i < k - 1 {
      ScanFinds(p, start, now, k - 1, i);
    }
  }

  lemma {:induction false} ScanIsComplete(p: Pool, start: nat, now: int, j: nat)
    requires Sound(p) && start <= |p.slots| && j < |p.slots| && Available(p, j, now).Open?
    ensures j in Scan(p, start, now, |p.slots|)
  {
    var i := RotationCovers(start, |p.slots|, j);
    ScanFinds(p, start, now, |p.slots|, i);
  }

  /** The admission rule: an account is handed out exactly when the breaker is closed, some slot
      passes its own gates and the shared budget is ready, whatever the identity, the cursor, the
      pins, the selection mode and the random draws. */
  lemma AdmitsExactlyWhenOpen(p: Pool, id: string, now: int, o: Oracle)
    requires Sound(p)
    ensures NextAccount(p, id, now, o).slot.Some? <==>
            !BreakerOpen(p, now) && SomeOpen(p, now) && SharedReady(p, now) == 0
  {
    if !BreakerOpen(p, now) {
      var advice := ConsultPin(p, id, now);
      if advice.Serve? {
        assert Available(p, advice.slot, now).Open?;
      } else {
        var start := if advice.RotateFrom? then advice.start else p.rr;
        var open := Scan(p, start, now, |p.slots|);
        if |open| > 0 {
          assert Available(p, open[0], now).Open?;
        }
        if SomeOpen(p, now) {
          var j: nat :| j < |p.slots| && Available(p, j, now).Open?;
          ScanIsComplete(p, start, now, j);
        }
      }
    }
  }

  /** The account handed out passes every gate, and no slot that does is less busy. */
  lemma OffersLeastBusyOpenSlot(p: Pool, id: string, now: int, o: Oracle, j: nat)
    requires Sound(p)
    requires NextAccount(p, id, now, o).slot.Some?
    requires j < |p.slots| && Available(p, j, now).Open?
    ensures var i := NextAccount(p, id, now, o).slot.value;
            Available(p, i, now).Open? && p.slots[i].live <= p.slots[j].live
  {
    var advice := ConsultPin(p, id, now);
    if !advice.Serve? {
      var start := if advice.RotateFrom? then advice.start else p.rr;
      ScanIsComplete(p, start, now, j);
      var sticky := if PinTTL(p.ttl, id) > 0 && advice != Spread then p.sticky - {id} else p.sticky;
      PickInOpen(p.(sticky := sticky), Scan(p, start, now, |p.slots|), o);
    }
  }

  lemma OpenBucketRefilled(p: Pool, i: nat, k: nat, now: int)
    requires Sound(p) && now > 0 && i < |p.slots| && k < |p.heap|
    requires Available(p, i, now).Open? && SharedReady(p, now) == 0
    requires p.shared == Some(k) || p.slots[i].bucket == Some(k)
    ensures RefillAt(p.heap[k], now) <= now
  {
  }

  /** Neither take inside a grant fails, the sub-nanosecond case apart. */
  lemma GrantedTakesSucceed(p: Pool, id: string, now: int, o: Oracle, k: nat)
    requires Reached(p, now)
    requires NextAccount(p, id, now, o).slot.Some?
    requires var i := NextAccount(p, id, now, o).slot.value;
             p.shared == Some(k) || p.slots[i].bucket == Some(k)
    requires k < |p.heap|
    ensures Level(p.heap[k], now) >= TOKEN <==> !SubTick(p.heap[k], now)
  {
    hide NextAccount, PoolState.Available, PoolState.SharedReady;
    OfferPassesGates(p, id, now, o);
    OpenBucketRefilled(p, NextAccount(p, id, now, o).slot.value, k, now);
    OpenGateHoldsToken(p.heap[k], now);
    if p.heap[k].last == now {
      assert Level(p.heap[k], now) == p.heap[k].tokens;
    }
  }

  lemma OfferPassesGates(p: Pool, id: string, now: int, o: Oracle)
    requires Sound(p)
    requires NextAccount(p, id, now, o).slot.Some?
    ensures !BreakerOpen(p, now) && SharedReady(p, now) == 0
    ensures Available(p, NextAccount(p, id, now, o).slot.value, now).Open?
  {
    AdmitsExactlyWhenOpen(p, id, now, o);
    var j: nat :| j < |p.slots| && Available(p, j, now).Open?;
    OffersLeastBusyOpenSlot(p, id, now, o, j);
  }

  /** Stickiness across calls: an identity that was given a new pin comes back to that account at
      every later instant before the pin expires, if the account's first slot is then idle and open;
      and one that only spread away from its busy account keeps its old pin. */
  lemma PinHoldsAcrossCalls(p: Pool, id: string, now: int, o: Oracle, t: int, o': Oracle)
    requires Sound(p) && PinTTL(p.ttl, id) > 0 && t >= now
    requires NextAccount(p, id, now, o).slot.Some? && Sound(NextAccount(p, id, now, o).pool)
    ensures var r := NextAccount(p, id, now, o);
            var q, a := r.pool, p.slots[r.slot.value].acct;
            if ConsultPin(p, id, now).RotateFrom? then
              && id in q.sticky && q.sticky[id] == Pin(a.name, a.key, now + PinTTL(p.ttl, id))
              && var f := FirstSlot(q.slots, a.name, a.key, 0);
                 && f.Some?
                 && (t < now + PinTTL(p.ttl, id) && Available(q, f.value, t).Open? && SharedReady(q, t) == 0
                     && q.slots[f.value].live == 0 ==>
                       NextAccount(q, id, t, o').slot == f)
            else q.sticky == p.sticky
  {
    hide Scan, Soonest, PoolState.Available, PoolState.SharedReady, PickSlot;
    var r := NextAccount(p, id, now, o);
    assert !BreakerOpen(p, now);
    assert r.pool.slots[r.slot.value].acct == p.slots[r.slot.value].acct;
  }

  // ---- The ready instant of a refusal -----------------------------------------------------------------

  /** The first instant from which slot i passes its own gates for good, faults aside; 0 stands for
      a hand-marked slot that never opens. */
  function ServesFrom(p: Pool, i: nat): int
    requires Sound(p) && i < |p.slots|
  {
    var s := p.slots[i];
    var own := if s.bucket.None? then 1 else Max(1, OpenFrom(p.heap[s.bucket.value]));
    var cooled := if s.cooldown == 0 then own else Max(own, s.cooldown + 1);
    if !s.invalidated then cooled
    else if s.invalidatedAt == 0 then 0
    else Max(cooled, Gate(p, s))
  }

  function SharedFrom(p: Pool): int
    requires Sound(p)
  {
    if p.shared.None? then 1 else OpenFrom(p.heap[p.shared.value])
  }

  lemma ServesFromIsExact(p: Pool, i: nat, t: int)
    requires Reached(p, t) && i < |p.slots|
    ensures Available(p, i, t).Open? <==> ServesFrom(p, i) != 0 && t >= ServesFrom(p, i)
  {
    var s := p.slots[i];
    if s.bucket.Some? {
      OpenFromIsExact(p.heap[s.bucket.value], t);
    }
  }

  lemma SharedFromIsExact(p: Pool, t: int)
    requires Reached(p, t)
    ensures SharedReady(p, t) == 0 <==> t >= SharedFrom(p)
  {
    if p.shared.Some? {
      OpenFromIsExact(p.heap[p.shared.value], t);
    }
  }

  lemma ReachedLater(p: Pool, now: int, t: int)
    requires Reached(p, now) && t >= now
    ensures Reached(p, t)
  {
  }

  ghost predicate SomeServesBy(p: Pool, t: int)
    requires Sound(p)
  {
    exists i: nat :: i < |p.slots| && ServesFrom(p, i) != 0 && t >= ServesFrom(p, i)
  }

  /** With the breaker out of the way, `next` succeeds at t exactly when t has passed the closed-form
      instants. */
  lemma AdmitsFrom(p: Pool, id: string, t: int, o: Oracle)
    requires Reached(p, t) && !BreakerOpen(p, t)
    ensures NextAccount(p, id, t, o).slot.Some? <==> SomeServesBy(p, t) && t >= SharedFrom(p)
  {
    AdmitsExactlyWhenOpen(p, id, t, o);
    SharedFromIsExact(p, t);
    forall i: nat | i < |p.slots|
      ensures Available(p, i, t).Open? <==> ServesFrom(p, i) != 0 && t >= ServesFrom(p, i)
    {
      ServesFromIsExact(p, i, t);
    }
  }

  ghost predicate AlwaysAdmittedAfter(p: Pool, ready: int, now: int)
    requires Sound(p)
  {
    forall t, id, o | t > ready && t >= now :: NextAccount(p, id, t, o).slot.Some?
  }

  /** The promise of a refusal, reduced to its first instant: what opens then stays open. */
  lemma HonestFromFirst(p: Pool, id: string, now: int, o: Oracle)
    requires Reached(p, now)
    requires NextAccount(p, id, now, o).slot.None?
    ensures var next := Max(NextAccount(p, id, now, o).ready + 1, now);
            AlwaysAdmittedAfter(p, NextAccount(p, id, now, o).ready, now) <==>
            !BreakerOpen(p, next) && SomeServesBy(p, next) && next >= SharedFrom(p)
  {
    var next := Max(NextAccount(p, id, now, o).ready + 1, now);
    if AlwaysAdmittedAfter(p, next - 1, now) {
      ReachedLater(p, now, next);
      assert NextAccount(p, id, next, o).slot.Some?;
      AdmitsExactlyWhenOpen(p, id, next, o);
      AdmitsFrom(p, id, next, o);
    }
    if !BreakerOpen(p, next) && SomeServesBy(p, next) && next >= SharedFrom(p) {
      forall t, id', o' | t > next - 1 && t >= now
        ensures NextAccount(p, id', t, o').slot.Some?
      {
        ReachedLater(p, now, t);
        AdmitsFrom(p, id', t, o');
      }
    }
  }

  lemma SoonestIsSome(p: Pool, start: nat, now: int, k: nat) returns (i: nat)
    requires Sound(p) && Soonest(p, start, now, k) != 0
    ensures i < |p.slots| && Available(p, i, now).Blocked? && Available(p, i, now).ready == Soonest(p, start, now, k)
  {
    var j := (start + k - 1) % |p.slots|;
    var r := Soonest(p, start, now, k - 1);
    var v := Available(p, j, now);
    if v.Blocked? && v.ready != 0 && (r == 0 || v.ready < r) {
      i := j;
    } else {
      i := SoonestIsSome(p, start, now, k - 1);
    }
  }

  lemma SharedReadyIsLateEnough(p: Pool, now: int)
    requires Reached(p, now) && SharedReady(p, now) != 0
    ensures SharedReady(p, now) > now && SharedReady(p, now) + 1 >= SharedFrom(p)
  {
    var r := SharedReady(p, now);
    RefillAtHonest(p.heap[p.shared.value], now, r + 1);
    ReachedLater(p, now, r + 1);
    OpenFromIsExact(p.heap[p.shared.value], r + 1);
  }

  lemma RefusalUnfolded(p: Pool, id: string, now: int, o: Oracle) returns (start: nat)
    requires Sound(p) && !BreakerOpen(p, now) && NextAccount(p, id, now, o).slot.None?
    ensures start <= |p.slots|
    ensures NextAccount(p, id, now, o).ready == RefusalInstant(p, start, now)
    ensures |Scan(p, start, now, |p.slots|)| == 0 || SharedReady(p, now) != 0
  {
    var advice := ConsultPin(p, id, now);
    start := if advice.RotateFrom? then advice.start else p.rr;
  }

  // ---- Exactly when the ready instant is honest ----------------------------------------------------------

  predicate HandMarked(s: Slot) {
    s.invalidated && s.invalidatedAt == 0
  }

  /** Terminal, with its parole still to come. */
  predicate InParole(p: Pool, s: Slot, now: int) {
    s.invalidated && s.invalidatedAt != 0 && now < Gate(p, s)
  }

  /** Slot j's parole gate is reported although its cooldown or refill ends later, and no other slot
      serves by then either. */
  ghost predicate GateMisleads(p: Pool, j: nat, now: int)
    requires Sound(p) && j < |p.slots|
  {
    && InParole(p, p.slots[j], now)
    && forall i :: 0 <= i < |p.slots| && !HandMarked(p.slots[i]) ==>
         ServesFrom(p, i) > Max(Gate(p, p.slots[j]), SharedReady(p, now)) + 1
  }

  /** What makes a refusal's ready instant early, on the pool alone. */
  ghost predicate Misleading(p: Pool, now: int)
    requires Sound(p)
  {
    if BreakerOpen(p, now) then !(SomeServesBy(p, p.flapOpenUntil + 1) && SharedFrom(p) <= p.flapOpenUntil + 1)
    else
      || (forall i :: 0 <= i < |p.slots| ==> HandMarked(p.slots[i]))
      || exists j :: 0 <= j < |p.slots| && GateMisleads(p, j, now)
  }

  /** A blocked slot's report: its gate while in parole, else never before it can serve, less the
      tick in which a cooldown ends. */
  lemma ReportIsLateEnough(p: Pool, i: nat, now: int)
    requires Reached(p, now) && i < |p.slots| && Available(p, i, now).Blocked? && !HandMarked(p.slots[i])
    ensures var r, s := Available(p, i, now).ready, p.slots[i];
            && ServesFrom(p, i) != 0
            && if InParole(p, s, now) then r == Gate(p, s) > now
               else r >= now && r != 0 && r + 1 >= ServesFrom(p, i)
  {
    var s := p.slots[i];
    var r := Available(p, i, now).ready;
    if !InParole(p, s, now) && s.bucket.Some? {
      RefillBounds(p.heap[s.bucket.value], now);
      RefillAtHonest(p.heap[s.bucket.value], now, r + 1);
      ReachedLater(p, now, r + 1);
      OpenFromIsExact(p.heap[s.bucket.value], r + 1);
    }
  }

  lemma {:induction false} SoonestIsLeast(p: Pool, start: nat, now: int, k: nat, i: nat)
    requires Sound(p) && i < k
    requires var v := Available(p, (start + i) % |p.slots|, now); v.Blocked? && v.ready != 0
    ensures Soonest(p, start, now, k) != 0
    ensures Soonest(p, start, now, k) <= Available(p, (start + i) % |p.slots|, now).ready
  {
    if i < k - 1 {
      SoonestIsLeast(p, start, now, k - 1, i);
    }
  }

  lemma {:induction false} SoonestBelow(p: Pool, start: nat, now: int, j: nat)
    requires Sound(p) && start <= |p.slots| && j < |p.slots|
    requires Available(p, j, now).Blocked? && Available(p, j, now).ready != 0
    ensures Soonest(p, start, now, |p.slots|) != 0
    ensures Soonest(p, start, now, |p.slots|) <= Available(p, j, now).ready
  {
    var i := RotationCovers(start, |p.slots|, j);
    SoonestIsLeast(p, start, now, |p.slots|, i);
  }

  /** With no slot misleading, some slot and the shared budget are there right after the refusal's
      instant. */
  lemma {:induction false} NotMisleadingServes(p: Pool, start: nat, now: int)
    requires Reached(p, now) && start <= |p.slots| && !BreakerOpen(p, now)
    requires |Scan(p, start, now, |p.slots|)| == 0 || SharedReady(p, now) != 0
    requires !Misleading(p, now)
    ensures var ready := RefusalInstant(p, start, now);
            ready >= now && SomeServesBy(p, ready + 1) && ready + 1 >= SharedFrom(p)
  {
    var ready := RefusalInstant(p, start, now);
    var open := Scan(p, start, now, |p.slots|);
    if SharedReady(p, now) != 0 {
      SharedReadyIsLateEnough(p, now);
    } else {
      SharedFromIsExact(p, now);
    }
    if |open| > 0 {
      ServesFromIsExact(p, open[0], now);
      assert ServesFrom(p, open[0]) != 0 && ready + 1 >= ServesFrom(p, open[0]);
    } else {
      var m: nat :| m < |p.slots| && !HandMarked(p.slots[m]);
      NoneOpen(p, start, now, m);
      ReportIsLateEnough(p, m, now);
      SoonestBelow(p, start, now, m);
      var i := SoonestIsSome(p, start, now, |p.slots|);
      ReportIsLateEnough(p, i, now);
      if InParole(p, p.slots[i], now) {
        assert !GateMisleads(p, i, now);
        var h: nat :| h < |p.slots| && !HandMarked(p.slots[h])
          && ServesFrom(p, h) <= Max(Gate(p, p.slots[i]), SharedReady(p, now)) + 1;
        NoneOpen(p, start, now, h);
        ReportIsLateEnough(p, h, now);
        assert ServesFrom(p, h) != 0 && ready + 1 >= ServesFrom(p, h);
      } else {
        assert ServesFrom(p, i) != 0 && ready + 1 >= ServesFrom(p, i);
      }
    }
  }

  lemma {:induction false} NoneOpen(p: Pool, start: nat, now: int, i: nat)
    requires Sound(p) && start <= |p.slots| && i < |p.slots| && |Scan(p, start, now, |p.slots|)| == 0
    ensures Available(p, i, now).Blocked?
  {
    if Available(p, i, now).Open? {
      ScanIsComplete(p, start, now, i);
    }
  }

  /** And with one misleading, no slot is. */
  lemma MisleadingServesNone(p: Pool, start: nat, now: int, j: nat)
    requires Reached(p, now) && start <= |p.slots| && j < |p.slots| && GateMisleads(p, j, now)
    ensures var ready := RefusalInstant(p, start, now);
            now <= ready <= Max(Gate(p, p.slots[j]), SharedReady(p, now)) && !SomeServesBy(p, ready + 1)
  {
    var ready := RefusalInstant(p, start, now);
    SoonestBelow(p, start, now, j);
    var i := SoonestIsSome(p, start, now, |p.slots|);
    ReportIsLateEnough(p, i, now);
    if |Scan(p, start, now, |p.slots|)| > 0 {
      var x := Scan(p, start, now, |p.slots|)[0];
      ServesFromIsExact(p, x, now);
      assert false;
    }
  }

  lemma HandMarkedServeNone(p: Pool, t: int)
    requires Sound(p) && forall i :: 0 <= i < |p.slots| ==> HandMarked(p.slots[i])
    ensures !SomeServesBy(p, t)
  {
  }

  /** Exactly when a refusal's ready instant keeps its word, so that strictly after it every identity
      is served for as long as nothing else happens.  With the breaker open: some slot and the shared
      budget are there by its end.  With it closed: always, unless every slot is marked by hand, or
      the parole gate of a slot whose cooldown or refill ends later comes before anything serves. */
  lemma ReadyIsHonestExactlyWhen(p: Pool, id: string, now: int, o: Oracle)
    requires Reached(p, now)
    requires NextAccount(p, id, now, o).slot.None?
    ensures AlwaysAdmittedAfter(p, NextAccount(p, id, now, o).ready, now) <==> !Misleading(p, now)
  {
    hide Soonest, Scan, PoolState.Available, PoolState.SharedReady, ServesFrom, SharedFrom;
    HonestFromFirst(p, id, now, o);
    if !BreakerOpen(p, now) {
      var start := RefusalUnfolded(p, id, now, o);
      if !Misleading(p, now) {
        NotMisleadingServes(p, start, now);
      } else if forall i :: 0 <= i < |p.slots| ==> HandMarked(p.slots[i]) {
        HandMarkedServeNone(p, Max(RefusalInstant(p, start, now) + 1, now));
      } else {
        var j :| 0 <= j < |p.slots| && GateMisleads(p, j, now);
        MisleadingServesNone(p, start, now, j);
      }
    }
  }

  /** With the breaker closed and no slot terminal the ready instant is always honest: it accounts
      for cooldowns, own buckets and the shared bucket together. */
  lemma ReadyIsHonest(p: Pool, id: string, now: int, o: Oracle)
    requires Reached(p, now) && !BreakerOpen(p, now)
    requires forall i :: 0 <= i < |p.slots| ==> !p.slots[i].invalidated
    requires NextAccount(p, id, now, o).slot.None?
    ensures NextAccount(p, id, now, o).ready >= now
    ensures AlwaysAdmittedAfter(p, NextAccount(p, id, now, o).ready, now)
  {
    hide Soonest, Scan, PoolState.Available, PoolState.SharedReady, ServesFrom, SharedFrom;
    assert !HandMarked(p.slots[0]);
    var start := RefusalUnfolded(p, id, now, o);
    NotMisleadingServes(p, start, now);
    ReadyIsHonestExactlyWhen(p, id, now, o);
  }

  /** A lone slot of a billing-refused account, cooling for longer than its parole. */
  function ParoledButCooling(): Pool {
    Pool([Slot(Account("a", "k", 1, 0), true, 1, 0, 1000, 1, 1, None, 0)],
         [], None, 0, 0, map[], 0, 0, Policy(0, 0, 0, 0, 10), Fastest, [], 0)
  }

  /** Without that condition it fails: a terminal slot reports its parole gate although its cooldown
      is longer, so a client that obeys the hint is refused again. */
  lemma TerminalReadyCanBeEarly(o: Oracle)
    ensures Reached(ParoledButCooling(), 1) && !BreakerOpen(ParoledButCooling(), 1)
    ensures NextAccount(ParoledButCooling(), "", 1, o).slot.None?
    ensures NextAccount(ParoledButCooling(), "", 1, o).ready == 11
    ensures NextAccount(ParoledButCooling(), "", 12, o).slot.None?
  {
    hide NextAccount;
    var p := ParoledButCooling();
    ParoledVerdicts();
    AdmitsExactlyWhenOpen(p, "", 1, o);
    AdmitsExactlyWhenOpen(p, "", 12, o);
    var start := RefusalUnfolded(p, "", 1, o);
    ParoledSoonest(start);
  }

  lemma ParoledVerdicts()
    ensures Sound(ParoledButCooling())
    ensures Available(ParoledButCooling(), 0, 1) == Blocked(11)
    ensures Available(ParoledButCooling(), 0, 12) == Blocked(1000)
  {
  }

  lemma ParoledSoonest(start: nat)
    ensures Sound(ParoledButCooling()) && RefusalInstant(ParoledButCooling(), start, 1) == 11
  {
    var p := ParoledButCooling();
    ParoledVerdicts();
    assert (start + 1 - 1) % 1 == 0;
    assert Soonest(p, start, 1, 0) == 0;
    assert Soonest(p, start, 1, 1) == 11;
  }
}
