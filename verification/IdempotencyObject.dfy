/**
  The idempotency cache as the mutable object behind the middleware.  Each method is one operation
  under the cache's mutex; its contract is the corresponding function of IdempotencyState, and it
  keeps the invariant of IdempotencyRuns.
 */
module IdempotencyObject {
  import opened Prelude
  import opened IdempotencyState
  import R = IdempotencyRuns

  class IdempotencyCache {
    const cap: nat
    const ttl: int
    var items: map<Key, Entry>
    var lru: seq<Key>
    var bytes: int
    var chans: seq<Chan>

    ghost function View(): Cache
      reads this
    {
      Cache(cap, ttl, items, lru, bytes, chans)
    }

    ghost predicate Valid()
      reads this
    {
      R.Inv(View())
    }

    constructor (capacity: int, ttl: int)
      ensures Valid() && View() == NewCache(capacity, ttl)
    {
      var n := capacity;
      if n <= 0 {
        n := DEFAULT_ENTRIES;
      }
      if n > MAX_ENTRIES_HARD {
        n := MAX_ENTRIES_HARD;
      }
      this.cap, this.ttl := n, ttl;
      items, lru, bytes, chans := map[], [], 0, [];
      new;
      R.NewCacheInv(capacity, ttl);
    }

    /** One send per waiter.  Every channel is empty when it is sent to. */
    method Wake(waiters: seq<nat>, r: Result)
      requires Distinct(waiters)
      requires forall j :: 0 <= j < |waiters| ==> waiters[j] < |chans| && chans[waiters[j]].sent == []
      modifies this`chans
      ensures chans == IdempotencyState.Wake(old(chans), waiters, r, |waiters|)
    {
      for j := 0 to |waiters|
        invariant chans == IdempotencyState.Wake(old(chans), waiters, r, j)
      {
        var w := waiters[j];
        R.WakeMisses(old(chans), waiters, r, j, w);
        assert chans[w].sent == [];
        chans := chans[w := Chan(chans[w].of, chans[w].sent + [r])];
      }
    }

    /** Drops the record of k, waking its waiters with Gone. */
    method Remove(k: Key)
      requires R.Coherent(View()) && k in items
      modifies this
      ensures R.Coherent(View())
      ensures View() == IdempotencyState.Remove(old(View()), k)
    {
      hide R.WaitersOnce, R.Delivered, R.Recorded, BodySum, Listed;
      ghost var c := View();
      var e := items[k];
      WaitersReady(c, k);
      Wake(e.waiters, GONE);
      if e.complete && e.res.Some? && !e.res.value.stream {
        bytes := bytes - |e.res.value.body|;
      }
      items := items - {k};
      lru := Without(lru, k);
      assert View() == IdempotencyState.Remove(c, k);
      R.RemoveKeepsCoherent(c, k);
    }

    /** The back-to-front scan for a record that may be dropped. */
    method FindEvictable(now: int) returns (r: Option<nat>)
      requires Listed(View())
      ensures r == Evictable(View(), now, |lru|)
    {
      var n: nat := |lru|;
      while n > 0
        invariant n <= |lru|
        invariant Evictable(View(), now, |lru|) == Evictable(View(), now, n)
      {
        var e := items[lru[n - 1]];
        if e.complete || now - e.created > ttl {
          return Some(n - 1);
        }
        n := n - 1;
      }
      return None;
    }

    method EnforceLimits(now: int)
      requires R.Coherent(View())
      modifies this
      ensures R.Coherent(View())
      ensures View() == Enforce(old(View()), now)
    {
      while |items| > cap || bytes > TOTAL_BODY_BUDGET
        invariant R.Coherent(View())
        invariant Enforce(old(View()), now) == Enforce(View(), now)
        decreases |lru|
      {
        var victim := FindEvictable(now);
        if victim == None {
          return;
        }
        Remove(lru[victim.value]);
      }
    }

    method ClaimKey(k: Key, now: int) returns (d: Decision)
      requires Valid()
      modifies this
      ensures Valid()
      ensures (View(), d) == Claim(old(View()), k, now)
    {
      ghost var c := View();
      R.ClaimKeepsInv(c, k, now);
      if k in items {
        var e := items[k];
        if now - e.created > ttl {
          Remove(k);
        } else if !e.complete {
          var w := |chans|;
          chans := chans + [Chan(k, [])];
          items := items[k := e.(waiters := e.waiters + [w])];
          return Wait(w);
        } else {
          lru := [k] + Without(lru, k);
          if e.res.None? || e.res.value.stream {
            return Conflict;
          }
          return Replay(e.res.value);
        }
      }
      items := items[k := Entry(now, false, None, [])];
      lru := [k] + lru;
      return Miss;
    }

    method FinishKey(k: Key, res: Option<Result>, now: int)
      requires Valid()
      modifies this
      ensures Valid()
      ensures View() == Finish(old(View()), k, res, now)
    {
      hide R.WaitersOnce, R.Delivered, R.Recorded, R.Accounted, R.Bounded;
      R.FinishKeepsInv(View(), k, res, now);
      if k !in items {
        return;
      }
      var e := items[k];
      if e.complete {
        return;
      }
      if res.None? || res.value.gone || res.value.status == 0 || res.value.status == 499 {
        Remove(k);
        return;
      }
      SettleInPlace(k, res.value);
      EnforceLimits(now);
    }

    /** Records the outcome and fans it out. */
    method SettleInPlace(k: Key, res: Result)
      requires R.Coherent(View()) && k in items && !items[k].complete && !Vanished(Some(res))
      modifies this
      ensures R.Coherent(View())
      ensures View() == Settle(old(View()), k, res)
    {
      hide R.WaitersOnce, R.Delivered, R.Recorded, BodySum, Listed;
      ghost var c := View();
      var e := items[k];
      var r := res;
      if r.stream || |r.body| > ENTRY_BODY_CAP {
        r := Result(r.status, "", [], true, false);
      }
      WaitersReady(c, k);
      items := items[k := Entry(e.created, true, Some(r), [])];
      if !r.stream {
        bytes := bytes + |r.body|;
      }
      Wake(e.waiters, r);
      assert View() == Settle(c, k, res);
      R.SettleKeepsCoherent(c, k, res);
    }
  }

  lemma WaitersReady(c: Cache, k: Key)
    requires R.WaitersOnce(c) && R.Delivered(c) && k in c.items
    ensures var ws := c.items[k].waiters;
            Distinct(ws) && forall j :: 0 <= j < |ws| ==> ws[j] < |c.chans| && c.chans[ws[j]].sent == []
  {
    var ws := c.items[k].waiters;
    forall j | 0 <= j < |ws|
      ensures ws[j] < |c.chans| && c.chans[ws[j]].sent == []
    {
      R.WokenAreEmpty(c, k, ws[j]);
    }
  }
}
