/**
  How late a refusal's ready instant can be: never later than needed, except for the time its buckets
  have gone without a take.
 */
module PoolReady {
  import opened Prelude
  import opened TokenBuckets
  import opened PoolState
  import opened PoolAdmission

  /** How long ago a running bucket was last taken from. */
  function Lag(b: Bucket, now: int): int {
    if b.last == 0 then 0 else now - b.last
  }

  /** No bucket of the pool has gone longer than lag without a take. */
  ghost predicate Within(p: Pool, lag: int, now: int) {
    lag >= 0 && forall k :: 0 <= k < |p.heap| ==> Lag(p.heap[k], now) <= lag
  }

  /** A closed gate reports an instant that is late by at most the bucket's lag: the refill since the
      last take is not counted. */
  lemma RefillLateByLag(b: Bucket, now: int)
    requires now > 0 && WellFormed(b, now) && RefillAt(b, now) > now
    ensures OpenFrom(b) - 1 <= RefillAt(b, now) <= OpenFrom(b) + Lag(b, now)
  {
    RefillBounds(b, now);
    var x := TOKEN - b.tokens;
    if b.last != 0 && Level(b, now) < TOKEN {
      QuotientZero(x, b.rpm);
      FloorBelowCeiling(x, b.rpm);
    }
  }

  lemma FloorBelowCeiling(x: int, y: int)
    requires x >= 0 && y > 0
    ensures x / y <= (x + y - 1) / y
  {
    QuotientBelow(x, y, (x + y - 1) / y + 1);
  }

  lemma SharedNotLate(p: Pool, now: int, lag: int)
    requires Reached(p, now) && SharedReady(p, now) != 0 && Within(p, lag, now)
    ensures SharedReady(p, now) <= SharedFrom(p) + lag
  {
    RefillLateByLag(p.heap[p.shared.value], now);
  }

  /** A blocked slot that can serve again reports a non-zero instant, late by at most the lag. */
  lemma ReportNotLate(p: Pool, i: nat, now: int, lag: int)
    requires Reached(p, now) && i < |p.slots| && Available(p, i, now).Blocked? && ServesFrom(p, i) != 0
    requires Within(p, lag, now)
    requires p.slots[i].invalidatedAt >= 0
    ensures 0 != Available(p, i, now).ready <= ServesFrom(p, i) + lag
  {
    var s := p.slots[i];
    if s.bucket.Some? && RefillAt(p.heap[s.bucket.value], now) > now {
      RefillLateByLag(p.heap[s.bucket.value], now);
    }
  }

  /** A refusal asks for no more patience than needed, the lag of its buckets apart: until that long
      before its ready instant every identity is refused. */
  lemma {:induction false} RefusedUntilReady(p: Pool, id: string, now: int, o: Oracle, lag: int, id': string, t: int, o': Oracle)
    requires Reached(p, now) && Within(p, lag, now)
    requires forall k :: 0 <= k < |p.slots| ==> p.slots[k].invalidatedAt >= 0
    requires NextAccount(p, id, now, o).slot.None?
    requires now <= t < NextAccount(p, id, now, o).ready - lag
    ensures NextAccount(p, id', t, o').slot.None?
  {
    hide Soonest, Scan, PoolState.Available, PoolState.SharedReady, ServesFrom, SharedFrom;
    if !BreakerOpen(p, now) && NextAccount(p, id', t, o').slot.Some? {
      ReachedLater(p, now, t);
      AdmitsExactlyWhenOpen(p, id', t, o');
      AdmitsFrom(p, id', t, o');
      var i: nat :| i < |p.slots| && ServesFrom(p, i) != 0 && t >= ServesFrom(p, i);
      var start := RefusalUnfolded(p, id, now, o);
      if SharedReady(p, now) != 0 {
        SharedNotLate(p, now, lag);
      }
      if |Scan(p, start, now, |p.slots|)| == 0 {
        NoneOpen(p, start, now, i);
        ReportNotLate(p, i, now, lag);
        SoonestBelow(p, start, now, i);
      }
    }
  }

  /** Without buckets, then, the ready instant is exact: refused until it, served strictly after it. */
  lemma {:induction false} ReadyIsExactWithoutBuckets(p: Pool, id: string, now: int, o: Oracle)
    requires Reached(p, now) && p.heap == [] && !BreakerOpen(p, now)
    requires forall i :: 0 <= i < |p.slots| ==> !p.slots[i].invalidated && p.slots[i].invalidatedAt >= 0
    requires NextAccount(p, id, now, o).slot.None?
    ensures var ready := NextAccount(p, id, now, o).ready;
            forall id', t, o' :: t >= now ==> (NextAccount(p, id', t, o').slot.Some? <==> t > ready)
  {
    hide NextAccount, Soonest, Scan;
    var ready := NextAccount(p, id, now, o).ready;
    ReadyIsHonest(p, id, now, o);
    var start := RefusalUnfolded(p, id, now, o);
    forall id', t, o' | now <= t <= ready
      ensures NextAccount(p, id', t, o').slot.None?
    {
      AdmitsExactlyWhenOpen(p, id', t, o');
      if NextAccount(p, id', t, o').slot.Some? {
        var i: nat :| i < |p.slots| && PoolState.Available(p, i, t).Open?;
        NoneOpen(p, start, now, i);
        SoonestBelow(p, start, now, i);
      }
    }
  }
}
