/**
  The burst `next` lets through at one instant in a pool of any mix of own, shared and no buckets.
 */
module PoolBursts {
  import opened Prelude
  import opened TokenBuckets
  import opened PoolState
  import opened PoolAdmission
  import opened PoolRuns
  import opened PoolBudgets

  /** Whole tokens in the bucket. */
  function Tokens(b: Bucket, now: int): int {
    Level(b, now) / TOKEN
  }

  ghost predicate AllAligned(p: Pool) {
    forall k :: 0 <= k < |p.heap| ==> Aligned(p.heap[k])
  }

  /** Bucket k is the own bucket of some slot that is neither terminal nor cooling. */
  ghost predicate Feeds(p: Pool, k: nat, now: int) {
    exists i :: 0 <= i < |p.slots| && Ungated(p.policy, p.slots[i], now) && p.slots[i].bucket == Some(k)
  }

  /** Some such slot has no bucket of its own. */
  ghost predicate SomeUnmetered(p: Pool, now: int) {
    exists i :: 0 <= i < |p.slots| && Ungated(p.policy, p.slots[i], now) && p.slots[i].bucket == None
  }

  /** The whole tokens among the first n buckets that feed such slots. */
  ghost function OwnTokens(p: Pool, now: int, n: nat): int
    requires n <= |p.heap|
  {
    if n == 0 then 0 else OwnTokens(p, now, n - 1) + if Feeds(p, n - 1, now) then Tokens(p.heap[n - 1], now) else 0
  }

  ghost predicate SharedHolds(p: Pool, now: int, m: nat)
    requires Sound(p)
  {
    p.shared.Some? ==> Tokens(p.heap[p.shared.value], now) >= m
  }

  /** The pool is up, the shared bucket holds m tokens and so do the own buckets together. */
  ghost predicate HoldsFor(p: Pool, now: int, m: nat)
    requires Sound(p)
  {
    m > 0 ==>
      && !BreakerOpen(p, now)
      && SharedHolds(p, now, m)
      && (SomeUnmetered(p, now) || OwnTokens(p, now, |p.heap|) >= m)
  }

  lemma GateIsToken(b: Bucket, now: int)
    requires now > 0 && WellFormed(b, now) && Aligned(b)
    ensures RefillAt(b, now) <= now <==> Tokens(b, now) >= 1
    ensures Tokens(b, now) >= 0
    ensures Tokens(b, now) >= 1 ==> Tokens(AfterTake(b, now), now) == Tokens(b, now) - 1
  {
    OpenGateHoldsToken(b, now);
    AlignedNeverSubTick(b, now);
    LevelNonNegative(b, now);
    OneTokenLess(Level(b, now));
  }

  lemma OneTokenLess(x: int)
    requires x >= 0
    ensures x / TOKEN >= 0 && (x / TOKEN >= 1 <==> x >= TOKEN)
    ensures x >= TOKEN ==> (x - TOKEN) / TOKEN == x / TOKEN - 1
  {
  }

  lemma {:induction false} OwnTokensPositive(p: Pool, now: int, n: nat)
    requires Inv(p, now) && AllAligned(p) && n <= |p.heap|
    ensures OwnTokens(p, now, n) >= 0
    ensures OwnTokens(p, now, n) >= 1 <==> exists k: nat :: k < n && Feeds(p, k, now) && Tokens(p.heap[k], now) >= 1
  {
    hide Tokens, Feeds, InSync, Stamped, Aligned;
    if n > 0 {
      OwnTokensPositive(p, now, n - 1);
      GateIsToken(p.heap[n - 1], now);
    }
  }

  lemma OpenExactlyWhen(p: Pool, i: nat, now: int)
    requires Inv(p, now) && AllAligned(p) && i < |p.slots|
    ensures Available(p, i, now).Open? <==>
            Ungated(p.policy, p.slots[i], now)
            && (p.slots[i].bucket.Some? ==> Tokens(p.heap[p.slots[i].bucket.value], now) >= 1)
  {
    hide Tokens, RefillAt, InSync, Stamped, Aligned;
    if p.slots[i].bucket.Some? {
      GateIsToken(p.heap[p.slots[i].bucket.value], now);
    }
  }

  /** One pick succeeds exactly when the pool holds for one. */
  lemma OnePick(p: Pool, id: string, now: int, o: Oracle)
    requires Inv(p, now) && AllAligned(p)
    ensures NextAccount(p, id, now, o).slot.Some? <==> HoldsFor(p, now, 1)
  {
    hide NextAccount, PoolState.Available, Tokens, InSync, Stamped, Aligned, Ungated, OwnTokens, RefillAt;
    AdmitsExactlyWhenOpen(p, id, now, o);
    OwnTokensPositive(p, now, |p.heap|);
    if p.shared.Some? {
      GateIsToken(p.heap[p.shared.value], now);
    }
    forall i: nat | i < |p.slots|
      ensures Available(p, i, now).Open? <==>
              Ungated(p.policy, p.slots[i], now)
              && (p.slots[i].bucket.Some? ==> Tokens(p.heap[p.slots[i].bucket.value], now) >= 1)
    {
      OpenExactlyWhen(p, i, now);
    }
    if SomeOpen(p, now) {
      var i: nat :| i < |p.slots| && Available(p, i, now).Open?;
      if p.slots[i].bucket.Some? {
        assert Feeds(p, p.slots[i].bucket.value, now);
      } else {
        assert SomeUnmetered(p, now);
      }
    }
    if SomeUnmetered(p, now) {
      var i: nat :| i < |p.slots| && Ungated(p.policy, p.slots[i], now) && p.slots[i].bucket == None;
      assert Available(p, i, now).Open?;
    } else if OwnTokens(p, now, |p.heap|) >= 1 {
      var k: nat :| k < |p.heap| && Feeds(p, k, now) && Tokens(p.heap[k], now) >= 1;
      var i: nat :| i < |p.slots| && Ungated(p.policy, p.slots[i], now) && p.slots[i].bucket == Some(k);
      assert Available(p, i, now).Open?;
    }
  }

  /** What a pick leaves: the same gates, one token less in each bucket it was charged to. */
  lemma AfterPick(p: Pool, id: string, now: int, o: Oracle)
    requires Inv(p, now) && AllAligned(p) && NextAccount(p, id, now, o).slot.Some?
    ensures var r := NextAccount(p, id, now, o);
            var q, own := r.pool, p.slots[r.slot.value].bucket;
            && Inv(q, now) && AllAligned(q) && |q.heap| == |p.heap| && q.shared == p.shared
            && BreakerOpen(q, now) == BreakerOpen(p, now)
            && (SomeUnmetered(q, now) <==> SomeUnmetered(p, now))
            && (forall k :: 0 <= k < |p.heap| ==>
                  && (Feeds(q, k, now) <==> Feeds(p, k, now))
                  && Tokens(q.heap[k], now) == Tokens(p.heap[k], now) - if p.shared == Some(k) || own == Some(k) then 1 else 0)
            && (own.Some? ==> own != p.shared && own.value < |p.heap| && Feeds(p, own.value, now))
            && (own.None? ==> SomeUnmetered(p, now))
  {
    hide Tokens, InSync, Stamped, Aligned, Ungated, RefillAt, AfterTake;
    var e := NextCall(id, now, o);
    NextKeepsInv(p, id, now, o);
    NextLeavesFaults(p, id, now, o);
    OfferPassesGates(p, id, now, o);
    BreakerStep(p, e, now);
    OpenExactlyWhen(p, NextAccount(p, id, now, o).slot.value, now);
    var r := NextAccount(p, id, now, o);
    forall k: nat | k < |p.heap|
      ensures r.pool.heap[k] == if Charges(p, e, k) then AfterTake(p.heap[k], now) else p.heap[k]
      ensures Aligned(r.pool.heap[k])
      ensures Charges(p, e, k) ==> Tokens(r.pool.heap[k], now) == Tokens(p.heap[k], now) - 1
    {
      HeapStep(p, e, now, k);
      TakeKeepsAligned(p.heap[k], now);
      GateIsToken(p.heap[k], now);
      if Charges(p, e, k) {
        ChargedHolds(p, id, now, o, k);
      }
    }
    hide NextAccount;
    SameFeeds(p, r.pool, now);
  }

  lemma ChargedHolds(p: Pool, id: string, now: int, o: Oracle, k: nat)
    requires Inv(p, now) && AllAligned(p) && k < |p.heap| && Charges(p, NextCall(id, now, o), k)
    ensures Tokens(p.heap[k], now) >= 1
  {
    hide NextAccount, InSync, Stamped, SubTick, Level, PoolState.Available, PoolState.SharedReady;
    OfferPassesGates(p, id, now, o);
    OpenBucketRefilled(p, NextAccount(p, id, now, o).slot.value, k, now);
    GateIsToken(p.heap[k], now);
  }

  lemma SameFeeds(p: Pool, q: Pool, now: int)
    requires |q.slots| == |p.slots| && q.policy == p.policy
    requires forall i :: 0 <= i < |p.slots| ==> q.slots[i] == p.slots[i].(lastUsed := q.slots[i].lastUsed)
    ensures SomeUnmetered(q, now) <==> SomeUnmetered(p, now)
    ensures forall k: nat :: Feeds(q, k, now) <==> Feeds(p, k, now)
  {
    assert forall i :: 0 <= i < |p.slots| ==>
      Ungated(q.policy, q.slots[i], now) == Ungated(p.policy, p.slots[i], now) && q.slots[i].bucket == p.slots[i].bucket;
  }

  /** A pick takes one token from the own buckets together, if it took one from any. */
  lemma {:induction false} OwnTokensAfter(p: Pool, q: Pool, now: int, n: nat, own: Option<nat>)
    requires n <= |p.heap| == |q.heap|
    requires forall k :: 0 <= k < |p.heap| ==>
               && (Feeds(q, k, now) <==> Feeds(p, k, now))
               && Tokens(q.heap[k], now) == Tokens(p.heap[k], now) - if p.shared == Some(k) || own == Some(k) then 1 else 0
    requires own.Some? ==> own != p.shared && Feeds(p, own.value, now)
    requires forall i :: 0 <= i < |p.slots| && p.slots[i].bucket.Some? ==> p.shared != p.slots[i].bucket
    ensures OwnTokens(q, now, n) == OwnTokens(p, now, n) - if own.Some? && own.value < n then 1 else 0
  {
    hide Tokens;
    if n > 0 {
      OwnTokensAfter(p, q, now, n - 1, own);
      assert p.shared == Some(n - 1) ==> !Feeds(p, n - 1, now);
    }
  }

  /** A burst of picks at one instant, in a pool of any mix of buckets at rates that divide a token
      evenly: all are granted exactly when the breaker is closed, the shared bucket holds a token for
      each, and some slot that is up has no bucket of its own or the own buckets of the slots that are
      up hold a token for each together. */
  lemma {:induction false} MixedBurst(p: Pool, picks: seq<Pick>, now: int)
    requires Inv(p, now) && AllAligned(p)
    ensures AllGranted(p, picks, now) <==> HoldsFor(p, now, |picks|)
    decreases |picks|
  {
    hide NextAccount, InSync, Stamped, Tokens, Feeds, SomeUnmetered, Aligned, OwnTokens, WellFormed;
    if |picks| > 0 {
      var id, o := picks[0].id, picks[0].o;
      OnePick(p, id, now, o);
      if NextAccount(p, id, now, o).slot.Some? {
        var r := NextAccount(p, id, now, o);
        AfterPick(p, id, now, o);
        OwnTokensAfter(p, r.pool, now, |p.heap|, p.slots[r.slot.value].bucket);
        MixedBurst(r.pool, picks[1..], now);
      }
    }
  }
}
