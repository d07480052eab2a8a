/**
  What a settled request leaves behind, in the fields of its result: what its waiters receive, and
  what later claims are answered.
 */
module IdempotencyAnswers {
  import opened Prelude
  import opened IdempotencyState
  import opened IdempotencyRuns
  import opened IdempotencyRetention

  /** A waiter that has its result is left alone by eviction. */
  lemma {:induction false} EnforceKeepsSent(c: Cache, now: int, w: nat)
    requires Coherent(c) && w < |c.chans| && c.chans[w].sent != []
    ensures |Enforce(c, now).chans| == |c.chans| && Enforce(c, now).chans[w] == c.chans[w]
    decreases |c.lru|
  {
    hide Recorded, Accounted, Wake, Without;
    if Overfull(c) {
      var v := Evictable(c, now, |c.lru|);
      if v.Some? {
        var x := c.lru[v.value];
        RemoveKeepsCoherent(c, x);
        WakeSends(c.chans, c.items[x].waiters, GONE, w);
        if w in c.items[x].waiters {
          WokenAreEmpty(c, x, w);
        }
        EnforceKeepsSent(Remove(c, x), now, w);
      }
    }
  }

  /** A finished request with an outcome to keep: each of its waiters receives exactly the result, and a
      claim within the TTL of its record replays exactly it, while the record stays; for a stream or a
      body over 1 MiB they receive the status alone, and the claim is a conflict. */
  lemma {:induction false} FinishAnswers(c: Cache, k: Key, r: Result, now: int, t: int)
    requires Inv(c) && k in c.items && !c.items[k].complete
    requires !r.gone && r.status != 0 && r.status != 499
    ensures var d, whole := Finish(c, k, Some(r), now), !r.stream && |r.body| <= 0x10_0000;
            var kept := if whole then r else Result(r.status, "", [], true, false);
            && (forall w :: w in c.items[k].waiters ==> w < |d.chans| && d.chans[w].sent == [kept])
            && (k in d.items ==> d.items[k] == Entry(c.items[k].created, true, Some(kept), []))
            && (k in d.items && t - c.items[k].created <= c.ttl ==>
                  Claim(d, k, t).1 == if whole then Replay(r) else Conflict)
  {
    hide Enforce, Wake, BodySum;
    var s := Settle(c, k, r);
    var d := Finish(c, k, Some(r), now);
    SettleKeepsCoherent(c, k, r);
    if k in d.items {
      EnforceOnlyDrops(s, now, k);
    }
    forall w | w in c.items[k].waiters
      ensures w < |d.chans| && d.chans[w].sent == [s.items[k].res.value]
    {
      WokenAreEmpty(c, k, w);
      WakeSends(c.chans, c.items[k].waiters, s.items[k].res.value, w);
      EnforceKeepsSent(s, now, w);
    }
    EnforceKeepsTTL(s, now);
  }

  /** A request that wrote nothing, or whose own client hung up, leaves no record: its waiters are told
      so, and the next claim runs the request anew. */
  lemma {:induction false} VanishedAnswers(c: Cache, k: Key, res: Option<Result>, now: int, t: int)
    requires Inv(c) && k in c.items && !c.items[k].complete
    requires res.None? || res.value.gone || res.value.status == 0 || res.value.status == 499
    ensures var d := Finish(c, k, res, now);
            && k !in d.items && Claim(d, k, t).1 == Miss
            && (forall w :: w in c.items[k].waiters ==> w < |d.chans| && d.chans[w].sent == [Result(0, "", [], false, true)])
            && (forall x :: x in c.items && x != k ==> x in d.items && d.items[x] == c.items[x])
  {
    hide Wake, BodySum, Without;
    forall w | w in c.items[k].waiters
      ensures w < |c.chans| && Finish(c, k, res, now).chans[w].sent == [Result(0, "", [], false, true)]
    {
      WokenAreEmpty(c, k, w);
      WakeSends(c.chans, c.items[k].waiters, GONE, w);
    }
  }

  /** The first request on a new cache, finished with a body of at most 1 MiB, is replayed to every claim
      within its TTL. */
  lemma {:induction false} FirstResultReplays(configured: int, ttl: int, k: Key, r: Result, start: int, now: int, t: int)
    requires !r.gone && r.status != 0 && r.status != 499 && !r.stream && |r.body| <= 0x10_0000
    requires t - start <= ttl
    ensures var c := Claim(NewCache(configured, ttl), k, start).0;
            Listed(c) && Claim(Finish(c, k, Some(r), now), k, t).1 == Replay(r)
  {
    hide Enforce;
    var c := Claim(NewCache(configured, ttl), k, start).0;
    NewCacheInv(configured, ttl);
    ClaimKeepsInv(NewCache(configured, ttl), k, start);
    FinishAnswers(c, k, r, now, t);
    var s := Settle(c, k, r);
    SettleKeepsListed(c, k, r);
    assert |s.items.Keys| == 1 by {
      assert s.items.Keys == {k};
    }
    SettleAccounts(c, k, r);
    assert s.bytes <= 0x10_0000;
    NotOver(s, now);
  }

  /** Eviction goes on until the cache is within its capacity and its 4 MiB of bodies, or nothing is left
      but unexpired requests in flight. */
  lemma {:induction false} EnforceEnds(c: Cache, now: int)
    requires Listed(c)
    ensures var d := Enforce(c, now);
            || (|d.items| <= d.cap && d.bytes <= 0x40_0000)
            || forall k :: k in d.items ==> !d.items[k].complete && now - d.items[k].created <= d.ttl
    decreases |c.lru|
  {
    if Overfull(c) {
      var v := Evictable(c, now, |c.lru|);
      if v.Some? {
        RemoveKeepsListed(c, c.lru[v.value]);
        EnforceEnds(Remove(c, c.lru[v.value]), now);
      } else {
        forall k | k in c.items
          ensures !MayEvict(c, k, now)
        {
          assert k in c.lru;
          var j :| 0 <= j < |c.lru| && c.lru[j] == k;
        }
      }
    }
  }

  /** A cache within both is left alone. */
  lemma {:induction false} NotOver(c: Cache, now: int)
    requires Listed(c) && |c.items| <= c.cap && c.bytes <= 0x40_0000
    ensures Enforce(c, now) == c
  {
  }
}
