/**
  What every sequence of claims and finishes preserves: exactly-once delivery, exact byte
  accounting, the bounds, and where every recorded or delivered result came from.
 */
module IdempotencyRuns {
  import opened Prelude
  import opened IdempotencyState

  // ---- The invariant -------------------------------------------------------------------------------

  ghost predicate Holds(c: Cache, k: Key, w: nat) {
    k in c.items && w in c.items[k].waiters
  }

  ghost predicate Attached(c: Cache, w: nat) {
    exists k :: Holds(c, k, w)
  }

  /** Waiters sit on in-flight entries of their own key, each on one entry and once. */
  ghost predicate WaitersOnce(c: Cache) {
    && (forall k :: k in c.items ==> Distinct(c.items[k].waiters))
    && (forall k, w: nat :: Holds(c, k, w) ==> w < |c.chans| && c.chans[w].of == k)
    && (forall k :: k in c.items && c.items[k].complete ==> c.items[k].waiters == [])
  }

  /** Every waiter is attached and has nothing sent to it, or is detached and has exactly one
      result. */
  ghost predicate Delivered(c: Cache) {
    forall w: nat :: w < |c.chans| ==>
                       if Attached(c, w) then c.chans[w].sent == [] else |c.chans[w].sent| == 1
  }

  ghost predicate Recorded(c: Cache) {
    forall k :: k in c.items ==>
                  && (c.items[k].complete <==> c.items[k].res.Some?)
                  && (c.items[k].complete ==>
                        var r := c.items[k].res.value;
                        !r.gone && |r.body| <= ENTRY_BODY_CAP && (r.stream ==> r.body == []))
  }

  ghost predicate Accounted(c: Cache)
    requires Listed(c)
  {
    c.bytes == BodySum(c.items, c.lru)
  }

  ghost function CompleteKeys(c: Cache): set<Key> {
    set k | k in c.items && c.items[k].complete
  }

  ghost predicate Bounded(c: Cache) {
    |CompleteKeys(c)| <= c.cap && c.bytes <= TOTAL_BODY_BUDGET
  }

  /** The invariant without the two bounds, which an operation may exceed until it has evicted. */
  ghost predicate Coherent(c: Cache) {
    Listed(c) && WaitersOnce(c) && Delivered(c) && Recorded(c) && Accounted(c)
  }

  ghost predicate Inv(c: Cache) {
    Coherent(c) && Bounded(c)
  }

  // ---- Waking -----------------------------------------------------------------------------------------

  lemma {:induction false} WakeMisses(chans: seq<Chan>, waiters: seq<nat>, r: Result, n: nat, w: nat)
    requires n <= |waiters| && w < |chans| && forall j :: 0 <= j < n ==> waiters[j] != w
    ensures Wake(chans, waiters, r, n)[w] == chans[w]
  {
    if n > 0 {
      WakeMisses(chans, waiters, r, n - 1, w);
    }
  }

  lemma {:induction false} WakeHits(chans: seq<Chan>, waiters: seq<nat>, r: Result, n: nat, j: nat)
    requires j < n <= |waiters| && Distinct(waiters) && waiters[j] < |chans|
    ensures Wake(chans, waiters, r, n)[waiters[j]]
         == Chan(chans[waiters[j]].of, chans[waiters[j]].sent + [r])
  {
    if j == n - 1 {
      WakeMisses(chans, waiters, r, n - 1, waiters[j]);
    } else {
      WakeHits(chans, waiters, r, n - 1, j);
    }
  }

  /** Waking sends r to each distinct waiter once, and to no one else. */
  lemma {:induction false} WakeSends(chans: seq<Chan>, waiters: seq<nat>, r: Result, w: nat)
    requires Distinct(waiters) && w < |chans|
    ensures Wake(chans, waiters, r, |waiters|)[w]
         == if w in waiters then Chan(chans[w].of, chans[w].sent + [r]) else chans[w]
  {
    if w in waiters {
      var j: nat :| j < |waiters| && waiters[j] == w;
      WakeHits(chans, waiters, r, |waiters|, j);
    } else {
      WakeMisses(chans, waiters, r, |waiters|, w);
    }
  }

  /** No send meets a full channel: a waiter about to be woken has received nothing. */
  lemma WokenAreEmpty(c: Cache, k: Key, w: nat)
    requires WaitersOnce(c) && Delivered(c) && k in c.items && w in c.items[k].waiters
    ensures w < |c.chans| && c.chans[w].of == k && c.chans[w].sent == []
    ensures forall x :: Holds(c, x, w) ==> x == k
  {
    assert Holds(c, k, w);
    assert Attached(c, w);
  }

  /** d detaches k's waiters and leaves every other record's where they are. */
  ghost predicate Detaches(c: Cache, k: Key, d: Cache) {
    forall x, w :: Holds(d, x, w) <==> Holds(c, x, w) && x != k
  }

  /** Detaching k's waiters and sending each one result keeps every waiter accounted for. */
  lemma {:induction false} WakeDelivers(c: Cache, k: Key, r: Result, d: Cache)
    requires WaitersOnce(c) && Delivered(c) && k in c.items && Detaches(c, k, d)
    requires d.chans == Wake(c.chans, c.items[k].waiters, r, |c.items[k].waiters|)
    ensures Delivered(d)
    ensures forall w: nat :: w < |c.chans| ==> d.chans[w].of == c.chans[w].of
    ensures forall w: nat :: w < |c.chans| && d.chans[w] != c.chans[w] ==>
              c.chans[w].of == k && d.chans[w].sent == [r]
  {
    hide Wake;
    forall w: nat | w < |d.chans|
      ensures if Attached(d, w) then d.chans[w].sent == [] else |d.chans[w].sent| == 1
      ensures d.chans[w].of == c.chans[w].of
      ensures d.chans[w] != c.chans[w] ==> c.chans[w].of == k && d.chans[w].sent == [r]
    {
      WakeSends(c.chans, c.items[k].waiters, r, w);
      if w in c.items[k].waiters {
        WokenAreEmpty(c, k, w);
      } else {
        StillAttached(c, k, d, w);
      }
    }
  }

  lemma StillAttached(c: Cache, k: Key, d: Cache, w: nat)
    requires Detaches(c, k, d) && !Holds(c, k, w)
    ensures Attached(c, w) <==> Attached(d, w)
  {
    if Attached(c, w) {
      var x :| Holds(c, x, w);
      assert Holds(d, x, w);
    }
    if Attached(d, w) {
      var x :| Holds(d, x, w);
      assert Holds(c, x, w);
    }
  }

  // ---- Sums ---------------------------------------------------------------------------------------------

  lemma {:induction false} SumWithout(items: map<Key, Entry>, lru: seq<Key>, k: Key)
    requires Distinct(lru) && k in lru && forall x :: x in lru ==> x in items
    ensures BodySum(items, lru) == Body(items[k]) + BodySum(items, Without(lru, k))
  {
    if lru[0] != k {
      SumWithout(items, lru[1..], k);
      var r := Without(lru[1..], k);
      assert ([lru[0]] + r)[1..] == r;
    }
  }

  lemma {:induction false} SumSame(a: map<Key, Entry>, b: map<Key, Entry>, lru: seq<Key>)
    requires forall x :: x in lru ==> x in a && x in b && Body(a[x]) == Body(b[x])
    ensures BodySum(a, lru) == BodySum(b, lru)
  {
    if |lru| > 0 {
      SumSame(a, b, lru[1..]);
    }
  }

  lemma {:induction false} NoCompleteNoBytes(items: map<Key, Entry>, lru: seq<Key>)
    requires forall x :: x in lru ==> x in items && !items[x].complete
    ensures BodySum(items, lru) == 0
  {
    if |lru| > 0 {
      NoCompleteNoBytes(items, lru[1..]);
    }
  }

  // ---- Every operation keeps the invariant ---------------------------------------------------------------

  lemma RemoveAccounts(c: Cache, k: Key)
    requires Listed(c) && Accounted(c) && k in c.items
    ensures Listed(Remove(c, k)) && Accounted(Remove(c, k))
    ensures Remove(c, k).bytes <= c.bytes
  {
    hide Wake;
    RemoveKeepsListed(c, k);
    SumWithout(c.items, c.lru, k);
    SumSame(c.items, Remove(c, k).items, Without(c.lru, k));
  }

  lemma RemoveDelivers(c: Cache, k: Key)
    requires WaitersOnce(c) && Delivered(c) && Recorded(c) && k in c.items
    ensures WaitersOnce(Remove(c, k)) && Delivered(Remove(c, k)) && Recorded(Remove(c, k))
    ensures var d := Remove(c, k);
            forall w: nat :: w < |c.chans| ==>
              d.chans[w].of == c.chans[w].of && (d.chans[w] == c.chans[w] || d.chans[w].sent == [GONE])
  {
    hide Wake, Without;
    WakeDelivers(c, k, GONE, Remove(c, k));
  }

  lemma RemoveKeepsCoherent(c: Cache, k: Key)
    requires Coherent(c) && k in c.items
    ensures Coherent(Remove(c, k))
    ensures CompleteKeys(Remove(c, k)) == CompleteKeys(c) - {k}
    ensures Remove(c, k).bytes <= c.bytes
  {
    hide WaitersOnce, Delivered, Recorded, BodySum;
    RemoveAccounts(c, k);
    RemoveDelivers(c, k);
  }

  lemma SettleAccounts(c: Cache, k: Key, r: Result)
    requires Listed(c) && Accounted(c) && k in c.items && !c.items[k].complete
    ensures Listed(Settle(c, k, r)) && Accounted(Settle(c, k, r))
  {
    hide Wake, Stored;
    var d := Settle(c, k, r);
    SettleKeepsListed(c, k, r);
    SumWithout(c.items, c.lru, k);
    SumWithout(d.items, d.lru, k);
    WithoutIsDistinct(c.lru, k);
    SumSame(c.items, d.items, Without(c.lru, k));
  }

  lemma SettleDelivers(c: Cache, k: Key, r: Result)
    requires WaitersOnce(c) && Delivered(c) && Recorded(c) && k in c.items && !Vanished(Some(r))
    ensures WaitersOnce(Settle(c, k, r)) && Delivered(Settle(c, k, r)) && Recorded(Settle(c, k, r))
    ensures var d := Settle(c, k, r);
            forall w: nat :: w < |c.chans| ==>
              d.chans[w].of == c.chans[w].of
              && (d.chans[w] == c.chans[w] || (c.chans[w].of == k && d.chans[w].sent == [Stored(r)]))
  {
    hide Wake;
    WakeDelivers(c, k, Stored(r), Settle(c, k, r));
  }

  lemma SettleKeepsCoherent(c: Cache, k: Key, r: Result)
    requires Coherent(c) && k in c.items && !c.items[k].complete && !Vanished(Some(r))
    ensures Coherent(Settle(c, k, r))
  {
    hide WaitersOnce, Delivered, Recorded, BodySum, Settle;
    SettleAccounts(c, k, r);
    SettleDelivers(c, k, r);
  }

  /** Enforcement ends under both limits or with nothing left but unexpired requests in flight, so
      the bounds hold either way. */
  lemma {:induction false} EnforceBounds(c: Cache, now: int)
    requires Coherent(c)
    ensures Coherent(Enforce(c, now)) && Bounded(Enforce(c, now))
    decreases |c.lru|
  {
    if Overfull(c) {
      var v := Evictable(c, now, |c.lru|);
      if v.Some? {
        RemoveKeepsCoherent(c, c.lru[v.value]);
        EnforceBounds(Remove(c, c.lru[v.value]), now);
      } else {
        forall k | k in c.items
          ensures !c.items[k].complete
        {
          assert k in c.lru;
          var j :| 0 <= j < |c.lru| && c.lru[j] == k;
          assert !MayEvict(c, c.lru[j], now);
        }
        NoCompleteNoBytes(c.items, c.lru);
        assert CompleteKeys(c) == {};
      }
    } else {
      SubsetSize(CompleteKeys(c), c.items.Keys);
    }
  }

  lemma FinishKeepsInv(c: Cache, k: Key, res: Option<Result>, now: int)
    requires Inv(c)
    ensures Inv(Finish(c, k, res, now))
  {
    if k in c.items && !c.items[k].complete {
      if Vanished(res) {
        RemoveKeepsCoherent(c, k);
        SubsetSize(CompleteKeys(c) - {k}, CompleteKeys(c));
      } else {
        SettleKeepsCoherent(c, k, res.value);
        EnforceBounds(Settle(c, k, res.value), now);
      }
    }
  }

  lemma CoalesceDelivers(c: Cache, k: Key)
    requires WaitersOnce(c) && Delivered(c) && k in c.items && !c.items[k].complete
    ensures WaitersOnce(Coalesce(c, k)) && Delivered(Coalesce(c, k))
  {
    var w := |c.chans|;
    var d := Coalesce(c, k);
    assert forall x, v :: Holds(d, x, v) <==> Holds(c, x, v) || (x == k && v == w);
    forall v: nat | v < |d.chans|
      ensures if Attached(d, v) then d.chans[v].sent == [] else |d.chans[v].sent| == 1
    {
      if v == w {
        assert Holds(d, k, w);
      } else if Attached(c, v) {
        var x :| Holds(c, x, v);
        assert Holds(d, x, v);
      }
    }
    assert forall x :: x in d.items ==> Distinct(d.items[x].waiters) by {
      assert forall v: nat :: Holds(c, k, v) ==> v < w;
      assert forall j :: 0 <= j < |c.items[k].waiters| ==> Holds(c, k, c.items[k].waiters[j]);
    }
  }

  lemma CoalesceKeepsInv(c: Cache, k: Key)
    requires Inv(c) && k in c.items && !c.items[k].complete
    ensures Inv(Coalesce(c, k))
  {
    hide WaitersOnce, Delivered, BodySum;
    CoalesceDelivers(c, k);
    SumSame(c.items, Coalesce(c, k).items, c.lru);
    assert CompleteKeys(Coalesce(c, k)) == CompleteKeys(c);
  }

  /** Same channels, same attachments. */
  lemma SameWaiters(c: Cache, d: Cache)
    requires WaitersOnce(c) && Delivered(c) && d.chans == c.chans
    requires forall x, w :: Holds(d, x, w) <==> Holds(c, x, w)
    ensures Delivered(d)
  {
    assert forall w :: Attached(d, w) <==> Attached(c, w);
  }

  lemma PromoteAccounts(c: Cache, k: Key)
    requires Listed(c) && Accounted(c) && k in c.items
    ensures Listed(Promote(c, k)) && Accounted(Promote(c, k))
  {
    WithoutIsDistinct(c.lru, k);
    SumWithout(c.items, c.lru, k);
    assert Promote(c, k).lru[1..] == Without(c.lru, k);
  }

  lemma PromoteKeepsInv(c: Cache, k: Key)
    requires Inv(c) && k in c.items
    ensures Inv(Promote(c, k))
  {
    hide WaitersOnce, Delivered, Holds, BodySum, Without;
    PromoteAccounts(c, k);
    OnlyItemsMatter(c, Promote(c, k));
    assert CompleteKeys(Promote(c, k)) == CompleteKeys(c);
  }

  lemma OnlyItemsMatter(c: Cache, d: Cache)
    requires WaitersOnce(c) && Delivered(c) && d.chans == c.chans && d.items == c.items
    ensures WaitersOnce(d) && Delivered(d)
  {
    assert forall x, w :: Holds(d, x, w) <==> Holds(c, x, w);
    SameWaiters(c, d);
  }

  lemma OpenAccounts(c: Cache, k: Key, now: int)
    requires Listed(c) && Accounted(c) && k !in c.items
    ensures Listed(OpenRecord(c, k, now)) && Accounted(OpenRecord(c, k, now))
  {
    assert OpenRecord(c, k, now).lru[1..] == c.lru;
    SumSame(c.items, OpenRecord(c, k, now).items, c.lru);
  }

  lemma OpenKeepsInv(c: Cache, k: Key, now: int)
    requires Inv(c) && k !in c.items
    ensures Inv(OpenRecord(c, k, now))
  {
    hide WaitersOnce, Delivered, Holds, BodySum;
    OpenAccounts(c, k, now);
    OpenHoldsNothing(c, k, now);
    assert CompleteKeys(OpenRecord(c, k, now)) == CompleteKeys(c);
  }

  lemma OpenHoldsNothing(c: Cache, k: Key, now: int)
    requires WaitersOnce(c) && Delivered(c) && k !in c.items
    ensures WaitersOnce(OpenRecord(c, k, now)) && Delivered(OpenRecord(c, k, now))
  {
    assert forall x, w :: Holds(OpenRecord(c, k, now), x, w) <==> Holds(c, x, w);
    SameWaiters(c, OpenRecord(c, k, now));
  }

  lemma ClaimKeepsInv(c: Cache, k: Key, now: int)
    requires Inv(c)
    ensures Inv(Claim(c, k, now).0)
  {
    if k in c.items && !Expired(c, c.items[k], now) {
      if !c.items[k].complete {
        CoalesceKeepsInv(c, k);
      } else {
        PromoteKeepsInv(c, k);
      }
    } else {
      if k in c.items {
        RemoveKeepsCoherent(c, k);
        SubsetSize(CompleteKeys(c) - {k}, CompleteKeys(c));
      }
      OpenKeepsInv(if k in c.items then Remove(c, k) else c, k, now);
    }
  }

  // ---- Runs ------------------------------------------------------------------------------------------------

  datatype Event = Claimed(k: Key, now: int) | Finished(k: Key, res: Option<Result>, now: int)

  function Step(c: Cache, e: Event): Cache
    requires Listed(c)
  {
    match e
    case Claimed(k, now) => Claim(c, k, now).0
    case Finished(k, res, now) => Finish(c, k, res, now)
  }

  lemma StepKeepsInv(c: Cache, e: Event)
    requires Inv(c)
    ensures Inv(Step(c, e))
  {
    match e {
      case Claimed(k, now) => ClaimKeepsInv(c, k, now);
      case Finished(k, res, now) => FinishKeepsInv(c, k, res, now);
    }
  }

  /** The cache after the first n events. */
  function Run(c: Cache, es: seq<Event>, n: nat): (d: Cache)
    requires Inv(c) && n <= |es|
    ensures Inv(d)
  {
    if n == 0 then c
    else
      var d := Run(c, es, n - 1);
      StepKeepsInv(d, es[n - 1]);
      Step(d, es[n - 1])
  }

  lemma NewCacheInv(configured: int, ttl: int)
    ensures Inv(NewCache(configured, ttl))
    ensures 1 <= NewCache(configured, ttl).cap <= MAX_ENTRIES_HARD
  {
    assert CompleteKeys(NewCache(configured, ttl)) == {};
  }

  /** A new cache after the first n events. */
  function RunNew(configured: int, ttl: int, es: seq<Event>, n: nat): (c: Cache)
    requires n <= |es|
    ensures Inv(c)
  {
    NewCacheInv(configured, ttl);
    Run(NewCache(configured, ttl), es, n)
  }

  /** Every waiter ever issued, at every operation boundary of every run: attached to exactly one
      in-flight entry, of its own key, with nothing received, or detached with exactly one
      result. */
  lemma {:induction false} EveryWaiterExactlyOnce(configured: int, ttl: int, es: seq<Event>, n: nat, w: nat)
    requires n <= |es| && w < |RunNew(configured, ttl, es, n).chans|
    ensures var c := RunNew(configured, ttl, es, n);
            || (c.chans[w].sent == []
                && c.chans[w].of in c.items
                && !c.items[c.chans[w].of].complete
                && w in c.items[c.chans[w].of].waiters
                && forall k :: k in c.items && w in c.items[k].waiters ==> k == c.chans[w].of)
            || (|c.chans[w].sent| == 1 && forall k :: k in c.items ==> w !in c.items[k].waiters)
  {
    var c := RunNew(configured, ttl, es, n);
    if Attached(c, w) {
      var k :| Holds(c, k, w);
      assert Holds(c, c.chans[w].of, w);
    }
    assert forall k :: k in c.items && w in c.items[k].waiters ==> Holds(c, k, w);
  }

  /** And at every boundary: list and map hold the same keys, each once; `bytes` is what the stored
      non-stream bodies take, within the 4 MiB budget; complete records are within the capacity. */
  lemma {:induction false} AccountedAndBounded(configured: int, ttl: int, es: seq<Event>, n: nat)
    requires n <= |es|
    ensures var c := RunNew(configured, ttl, es, n);
            && Distinct(c.lru) && (forall k :: k in c.lru <==> k in c.items)
            && c.bytes == BodySum(c.items, c.lru) <= 4 * 1024 * 1024
            && |CompleteKeys(c)| <= c.cap
            && c.cap == if configured <= 0 then 128 else if configured > 1024 then 1024 else configured
  {
    hide Run;
    CapacityStays(NewCache(configured, ttl), es, n);
  }

  lemma {:induction false} CapacityStays(c: Cache, es: seq<Event>, n: nat)
    requires Inv(c) && n <= |es|
    ensures Run(c, es, n).cap == c.cap
  {
    hide Inv, Wake, Without;
    if n > 0 {
      CapacityStays(c, es, n - 1);
      var d := Run(c, es, n - 1);
      match es[n - 1] {
        case Claimed(k, now) =>
        case Finished(k, res, now) =>
          if k in d.items && !d.items[k].complete && !Vanished(res) {
            assert Inv(d);
            CapacityKept(d, k, res.value, now);
          }
      }
    }
  }

  lemma {:induction false} CapacityKept(c: Cache, k: Key, r: Result, now: int)
    requires Inv(c) && k in c.items
    ensures Listed(Settle(c, k, r)) && Enforce(Settle(c, k, r), now).cap == c.cap
  {
    SettleKeepsListed(c, k, r);
    EnforceKeepsCapacity(Settle(c, k, r), now);
  }

  lemma {:induction false} EnforceKeepsCapacity(c: Cache, now: int)
    requires Listed(c)
    ensures Enforce(c, now).cap == c.cap
    decreases |c.lru|
  {
    if Overfull(c) {
      var v := Evictable(c, now, |c.lru|);
      if v.Some? {
        RemoveKeepsListed(c, c.lru[v.value]);
        EnforceKeepsCapacity(Remove(c, c.lru[v.value]), now);
      }
    }
  }

  // ---- Claim answers like a map of unexpired records ----------------------------------------------------------

  /** What each answer means. */
  lemma ClaimAnswers(c: Cache, k: Key, now: int)
    requires Inv(c)
    ensures var d := Claim(c, k, now).1;
            var known := k in c.items && now - c.items[k].created <= c.ttl;
            && (d.Miss? <==> !known)
            && (d.Wait? <==> known && !c.items[k].complete)
            && (d.Conflict? <==> known && c.items[k].complete && c.items[k].res.value.stream)
            && (d.Replay? <==> known && c.items[k].complete && !c.items[k].res.value.stream)
            && (d.Replay? ==> Some(d.res) == c.items[k].res)
  {
  }

  lemma {:induction false} EnforceKeepsInFlight(c: Cache, k: Key, now: int)
    requires Listed(c) && k in c.items && !MayEvict(c, k, now)
    ensures k in Enforce(c, now).items && Enforce(c, now).items[k] == c.items[k]
    decreases |c.lru|
  {
    if Overfull(c) {
      var v := Evictable(c, now, |c.lru|);
      if v.Some? {
        RemoveKeepsListed(c, c.lru[v.value]);
        EnforceKeepsInFlight(Remove(c, c.lru[v.value]), k, now);
      }
    }
  }

  /** An unexpired in-flight record leaves, or settles, only through a Finish on its own key; until
      then it keeps its creation time and all its waiters. */
  lemma InFlightLeavesOnlyByFinish(c: Cache, e: Event, k: Key)
    requires Inv(c) && k in c.items && !c.items[k].complete
    requires e.now - c.items[k].created <= c.ttl
    requires !(e.Finished? && e.k == k)
    ensures var d := Step(c, e);
            k in d.items && !d.items[k].complete && d.items[k].created == c.items[k].created
            && c.items[k].waiters <= d.items[k].waiters
  {
    if e.Finished? && e.k in c.items && !c.items[e.k].complete && !Vanished(e.res) {
      var s := Settle(c, e.k, e.res.value);
      SettleKeepsListed(c, e.k, e.res.value);
      assert s.items[k] == c.items[k];
      EnforceKeepsInFlight(s, k, e.now);
    }
  }

  // ---- Provenance ------------------------------------------------------------------------------------------------

  /** Some Finish among the first n events supplied, for key k, the result recorded as r. */
  ghost predicate Supplied(es: seq<Event>, n: nat, k: Key, r: Result, after: int)
    requires n <= |es|
  {
    exists j :: 0 <= j < n && after < j && es[j].Finished? && es[j].k == k && es[j].res.Some?
             && !Vanished(es[j].res) && r == Stored(es[j].res.value)
  }

  /** The record of k was opened by a claim and, if complete, closed by a later Finish of k. */
  ghost predicate Sourced(es: seq<Event>, n: nat, k: Key, e: Entry)
    requires n <= |es|
  {
    exists i :: 0 <= i < n && es[i] == Claimed(k, e.created)
             && (e.complete ==> e.res.Some? && Supplied(es, n, k, e.res.value, i))
  }

  ghost predicate Sourcing(es: seq<Event>, n: nat, c: Cache)
    requires n <= |es|
  {
    && (forall k :: k in c.items ==> Sourced(es, n, k, c.items[k]))
    && (forall w: nat :: w < |c.chans| ==> forall r :: r in c.chans[w].sent ==>
          r == GONE || Supplied(es, n, c.chans[w].of, r, -1))
  }

  lemma SuppliedLater(es: seq<Event>, n: nat, k: Key, r: Result, after: int)
    requires n < |es| && Supplied(es, n, k, r, after)
    ensures Supplied(es, n + 1, k, r, after)
  {
    var j :| 0 <= j < n && after < j && es[j].Finished? && es[j].k == k && es[j].res.Some?
          && !Vanished(es[j].res) && r == Stored(es[j].res.value);
    assert es[j].Finished?;
  }

  lemma SourcedLater(es: seq<Event>, n: nat, k: Key, e: Entry)
    requires n < |es| && Sourced(es, n, k, e)
    ensures Sourced(es, n + 1, k, e)
  {
    var i :| 0 <= i < n && es[i] == Claimed(k, e.created)
          && (e.complete ==> e.res.Some? && Supplied(es, n, k, e.res.value, i));
    if e.complete {
      SuppliedLater(es, n, k, e.res.value, i);
    }
    assert es[i] == Claimed(k, e.created);
  }

  lemma SourcingLater(es: seq<Event>, n: nat, c: Cache)
    requires n < |es| && Sourcing(es, n, c)
    ensures Sourcing(es, n + 1, c)
  {
    forall k | k in c.items
      ensures Sourced(es, n + 1, k, c.items[k])
    {
      SourcedLater(es, n, k, c.items[k]);
    }
    forall w: nat, r | w < |c.chans| && r in c.chans[w].sent
      ensures r == GONE || Supplied(es, n + 1, c.chans[w].of, r, -1)
    {
      if r != GONE {
        SuppliedLater(es, n, c.chans[w].of, r, -1);
      }
    }
  }

  lemma RemoveKeepsSourcing(es: seq<Event>, n: nat, c: Cache, k: Key)
    requires n <= |es| && Coherent(c) && Sourcing(es, n, c) && k in c.items
    ensures Sourcing(es, n, Remove(c, k))
  {
    hide Wake, Without, WaitersOnce, Delivered, Recorded, BodySum;
    RemoveDelivers(c, k);
    SentFrom(es, n, c, Remove(c, k), k, GONE);
  }

  /** What a wake adds to the channels comes from where the woken result does. */
  lemma SentFrom(es: seq<Event>, n: nat, c: Cache, d: Cache, k: Key, r: Result)
    requires n <= |es| && Sourcing(es, n, c) && |d.chans| == |c.chans|
    requires forall w: nat :: w < |c.chans| ==>
               d.chans[w].of == c.chans[w].of
               && (d.chans[w] == c.chans[w] || ((r == GONE || c.chans[w].of == k) && d.chans[w].sent == [r]))
    requires r == GONE || Supplied(es, n, k, r, -1)
    ensures forall w: nat, x :: w < |d.chans| && x in d.chans[w].sent ==>
              x == GONE || Supplied(es, n, d.chans[w].of, x, -1)
  {
    forall w: nat, x | w < |d.chans| && x in d.chans[w].sent
      ensures x == GONE || Supplied(es, n, d.chans[w].of, x, -1)
    {
      if d.chans[w] == c.chans[w] {
        assert x in c.chans[w].sent;
      }
    }
  }

  lemma {:induction false} EnforceKeepsSourcing(es: seq<Event>, n: nat, c: Cache, now: int)
    requires n <= |es| && Coherent(c) && Sourcing(es, n, c)
    ensures Sourcing(es, n, Enforce(c, now))
    decreases |c.lru|
  {
    if Overfull(c) {
      var v := Evictable(c, now, |c.lru|);
      if v.Some? {
        RemoveKeepsCoherent(c, c.lru[v.value]);
        RemoveKeepsSourcing(es, n, c, c.lru[v.value]);
        EnforceKeepsSourcing(es, n, Remove(c, c.lru[v.value]), now);
      }
    }
  }

  lemma SettleKeepsSourcing(es: seq<Event>, n: nat, c: Cache, k: Key, r: Result)
    requires n < |es| && Coherent(c) && Sourcing(es, n, c)
    requires k in c.items && !c.items[k].complete && !Vanished(Some(r))
    requires es[n].Finished? && es[n].k == k && es[n].res == Some(r)
    ensures Sourcing(es, n + 1, Settle(c, k, r))
  {
    hide Wake, WaitersOnce, Delivered, Recorded, BodySum;
    SourcingLater(es, n, c);
    SettleDelivers(c, k, r);
    assert Sourced(es, n, k, c.items[k]);
    var i :| 0 <= i < n && es[i] == Claimed(k, c.items[k].created);
    SettledSourced(es, n, c, k, r, i);
    SuppliedNow(es, n, k, r, -1);
    hide Supplied, Sourced;
    SentFrom(es, n + 1, c, Settle(c, k, r), k, Stored(r));
  }

  lemma SettledSourced(es: seq<Event>, n: nat, c: Cache, k: Key, r: Result, i: nat)
    requires i < n < |es| && k in c.items && !Vanished(Some(r)) && es[i] == Claimed(k, c.items[k].created)
    requires es[n].Finished? && es[n].k == k && es[n].res == Some(r)
    ensures Sourced(es, n + 1, k, Settle(c, k, r).items[k])
  {
    SuppliedNow(es, n, k, r, i);
    assert es[i] == Claimed(k, Settle(c, k, r).items[k].created);
  }

  lemma SuppliedNow(es: seq<Event>, n: nat, k: Key, r: Result, after: int)
    requires n < |es| && after < n && !Vanished(Some(r))
    requires es[n].Finished? && es[n].k == k && es[n].res == Some(r)
    ensures Supplied(es, n + 1, k, Stored(r), after)
  {
    assert es[n].Finished?;
  }

  lemma OpenKeepsSourcing(es: seq<Event>, n: nat, c: Cache, k: Key, now: int)
    requires n < |es| && Sourcing(es, n + 1, c) && es[n] == Claimed(k, now)
    ensures Sourcing(es, n + 1, OpenRecord(c, k, now))
  {
    var d := OpenRecord(c, k, now);
    assert es[n] == Claimed(k, d.items[k].created);
    assert Sourced(es, n + 1, k, d.items[k]);
  }

  lemma CoalesceKeepsSourcing(es: seq<Event>, n: nat, c: Cache, k: Key)
    requires n <= |es| && Sourcing(es, n, c) && k in c.items && !c.items[k].complete
    ensures Sourcing(es, n, Coalesce(c, k))
  {
    var d := Coalesce(c, k);
    assert Sourced(es, n, k, c.items[k]);
    var i :| 0 <= i < n && es[i] == Claimed(k, c.items[k].created);
    assert es[i] == Claimed(k, d.items[k].created);
    assert Sourced(es, n, k, d.items[k]);
  }

  lemma ClaimKeepsSourcing(es: seq<Event>, n: nat, c: Cache, k: Key, now: int)
    requires n < |es| && Inv(c) && Sourcing(es, n, c) && es[n] == Claimed(k, now)
    ensures Sourcing(es, n + 1, Claim(c, k, now).0)
  {
    hide Wake, WaitersOnce, Delivered, Recorded, BodySum, Bounded, Remove, OpenRecord, Coalesce;
    SourcingLater(es, n, c);
    if k in c.items && !Expired(c, c.items[k], now) {
      if !c.items[k].complete {
        CoalesceKeepsSourcing(es, n + 1, c, k);
      }
    } else {
      if k in c.items {
        RemoveKeepsSourcing(es, n + 1, c, k);
      }
      OpenKeepsSourcing(es, n, if k in c.items then Remove(c, k) else c, k, now);
    }
  }

  lemma FinishKeepsSourcing(es: seq<Event>, n: nat, c: Cache, k: Key, res: Option<Result>, now: int)
    requires n < |es| && Inv(c) && Sourcing(es, n, c) && es[n] == Finished(k, res, now)
    ensures Sourcing(es, n + 1, Finish(c, k, res, now))
  {
    hide Wake, WaitersOnce, Delivered, Recorded, BodySum, Bounded, Remove, Settle, Enforce, Sourcing;
    SourcingLater(es, n, c);
    if k in c.items && !c.items[k].complete {
      if Vanished(res) {
        RemoveKeepsSourcing(es, n + 1, c, k);
      } else {
        SettleKeepsSourcing(es, n, c, k, res.value);
        SettleKeepsCoherent(c, k, res.value);
        EnforceKeepsSourcing(es, n + 1, Settle(c, k, res.value), now);
      }
    }
  }

  /** Over every run: each record was opened by a claim of its key and, when complete, holds what a
      later Finish of that key supplied; each result a waiter got is Gone or was supplied by a
      Finish of the key it waited on. */
  lemma {:induction false} ResultsComeFromFinish(c: Cache, es: seq<Event>, n: nat)
    requires Inv(c) && n <= |es| && c.items == map[] && c.chans == []
    ensures Sourcing(es, n, Run(c, es, n))
  {
    hide WaitersOnce, Delivered, Recorded, Accounted, Bounded, Claim, Finish;
    if n > 0 {
      var d := Run(c, es, n - 1);
      ResultsComeFromFinish(c, es, n - 1);
      match es[n - 1] {
        case Claimed(k, now) => ClaimKeepsSourcing(es, n - 1, d, k, now);
        case Finished(k, res, now) => FinishKeepsSourcing(es, n - 1, d, k, res, now);
      }
    }
  }

  /** A Replay, at any point of any run, returns what some Finish of that very key supplied, under a
      record opened by a claim no longer ago than the TTL. */
  lemma {:induction false} ReplayIsFinishedWithinTTL(c: Cache, es: seq<Event>, n: nat, k: Key, now: int)
    requires Inv(c) && n <= |es| && c.items == map[] && c.chans == []
    requires Claim(Run(c, es, n), k, now).1.Replay?
    ensures var r := Claim(Run(c, es, n), k, now).1.res;
            exists i :: 0 <= i < n && es[i].Claimed? && es[i].k == k && now - es[i].now <= Run(c, es, n).ttl
                     && Supplied(es, n, k, r, i)
  {
    var d := Run(c, es, n);
    ResultsComeFromFinish(c, es, n);
    ClaimAnswers(d, k, now);
    var i :| 0 <= i < n && es[i] == Claimed(k, d.items[k].created)
          && (d.items[k].complete ==> Supplied(es, n, k, d.items[k].res.value, i));
    assert es[i].Claimed?;
  }

  // ---- Recency -----------------------------------------------------------------------------------------------------

  /** The last of the first n events that used k: a claim of k that did not just coalesce. */
  function LastUse(c: Cache, es: seq<Event>, n: nat, k: Key): int
    requires Inv(c) && n <= |es|
  {
    if n == 0 then -1
    else if Uses(Run(c, es, n - 1), es[n - 1], k) then n - 1
    else LastUse(c, es, n - 1, k)
  }

  ghost predicate ByRecency(c: Cache, es: seq<Event>, n: nat, lru: seq<Key>)
    requires Inv(c) && n <= |es|
  {
    forall i, j :: 0 <= i < j < |lru| ==> LastUse(c, es, n, lru[i]) > LastUse(c, es, n, lru[j])
  }

  lemma {:induction false} LastUseInPast(c: Cache, es: seq<Event>, n: nat, k: Key)
    requires Inv(c) && n <= |es|
    ensures LastUse(c, es, n, k) < n
  {
    hide Inv, Run, Uses;
    if n > 0 {
      LastUseInPast(c, es, n - 1, k);
    }
  }

  lemma {:induction false} WithoutKeepsRecency(c: Cache, es: seq<Event>, n: nat, lru: seq<Key>, k: Key)
    requires Inv(c) && n <= |es| && ByRecency(c, es, n, lru)
    ensures ByRecency(c, es, n, Without(lru, k))
  {
    if |lru| > 0 && lru[0] != k {
      WithoutKeepsRecency(c, es, n, lru[1..], k);
      var r := [lru[0]] + Without(lru[1..], k);
      forall i, j | 0 <= i < j < |r|
        ensures LastUse(c, es, n, r[i]) > LastUse(c, es, n, r[j])
      {
        if i == 0 {
          assert r[j] in lru[1..];
        }
      }
    }
  }

  lemma {:induction false} EnforceKeepsRecency(c: Cache, es: seq<Event>, n: nat, d: Cache, now: int)
    requires Inv(c) && n <= |es| && Listed(d) && ByRecency(c, es, n, d.lru)
    ensures ByRecency(c, es, n, Enforce(d, now).lru)
    decreases |d.lru|
  {
    if Overfull(d) {
      var v := Evictable(d, now, |d.lru|);
      if v.Some? {
        RemoveKeepsListed(d, d.lru[v.value]);
        WithoutKeepsRecency(c, es, n, d.lru, d.lru[v.value]);
        EnforceKeepsRecency(c, es, n, Remove(d, d.lru[v.value]), now);
      }
    }
  }

  predicate Uses(c: Cache, e: Event, k: Key) {
    e.Claimed? && e.k == k && !Claim(c, k, e.now).1.Wait?
  }

  lemma {:induction false} FrontIsNewest(c: Cache, es: seq<Event>, n: nat, lru: seq<Key>, k: Key)
    requires Inv(c) && n < |es| && ByRecency(c, es, n, lru) && k !in lru
    requires Uses(Run(c, es, n), es[n], k)
    ensures ByRecency(c, es, n + 1, [k] + lru)
  {
    hide Inv, Run, Claim, Uses, LastUse;
    var r := [k] + lru;
    forall i, j | 0 <= i < j < |r|
      ensures LastUse(c, es, n + 1, r[i]) > LastUse(c, es, n + 1, r[j])
    {
      NewestPair(c, es, n, lru, k, i, j);
    }
  }

  lemma {:induction false} NewestPair(c: Cache, es: seq<Event>, n: nat, lru: seq<Key>, k: Key, i: nat, j: nat)
    requires Inv(c) && n < |es| && k !in lru && i < j <= |lru|
    requires Uses(Run(c, es, n), es[n], k)
    requires i > 0 ==> LastUse(c, es, n, lru[i - 1]) > LastUse(c, es, n, lru[j - 1])
    ensures LastUse(c, es, n + 1, ([k] + lru)[i]) > LastUse(c, es, n + 1, ([k] + lru)[j])
  {
    hide Inv, Run, Claim, Uses, LastUse;
    UsedLast(c, es, n, k);
    OthersUnused(c, es, n, k, lru[j - 1]);
    LastUseInPast(c, es, n, lru[j - 1]);
    if i > 0 {
      OthersUnused(c, es, n, k, lru[i - 1]);
    }
  }

  lemma {:induction false} UsedLast(c: Cache, es: seq<Event>, n: nat, k: Key)
    requires Inv(c) && n < |es| && Uses(Run(c, es, n), es[n], k)
    ensures LastUse(c, es, n + 1, k) == n && es[n].k == k
  {
  }

  lemma OthersUnused(c: Cache, es: seq<Event>, n: nat, k: Key, x: Key)
    requires Inv(c) && n < |es| && x != k && es[n].k == k
    ensures LastUse(c, es, n + 1, x) == LastUse(c, es, n, x)
  {
  }

  /** Which keys a step lists: the used one in front, the rest in their order, some evicted. */
  lemma StepList(c: Cache, e: Event)
    requires Listed(c)
    ensures Listed(c) && (e.Claimed? ==>
              Step(c, e).lru == if Uses(c, e, e.k) then [e.k] + Without(c.lru, e.k) else c.lru)
  {
    if e.k !in c.items {
      assert Without(c.lru, e.k) == c.lru;
    }
  }

  lemma FinishKeepsRecency(c: Cache, es: seq<Event>, n: nat, d: Cache, k: Key, res: Option<Result>, now: int)
    requires Inv(c) && n <= |es| && Listed(d) && ByRecency(c, es, n, d.lru)
    ensures ByRecency(c, es, n, Finish(d, k, res, now).lru)
  {
    hide Inv, ByRecency, Enforce;
    if k in d.items && !d.items[k].complete {
      WithoutKeepsRecency(c, es, n, d.lru, k);
      if !Vanished(res) {
        SettleKeepsListed(d, k, res.value);
        EnforceKeepsRecency(c, es, n, Settle(d, k, res.value), now);
      }
    }
  }

  lemma NothingUsed(c: Cache, es: seq<Event>, n: nat, lru: seq<Key>)
    requires Inv(c) && n < |es| && ByRecency(c, es, n, lru)
    requires forall k :: k in lru ==> !Uses(Run(c, es, n), es[n], k)
    ensures ByRecency(c, es, n + 1, lru)
  {
    hide Inv, Run, Claim, Uses;
    forall k | k in lru
      ensures LastUse(c, es, n + 1, k) == LastUse(c, es, n, k)
    {
    }
  }

  /** The list is in order of last use at every operation boundary, so the entry `Evictable` picks
      is the least recently used of those that may be dropped. */
  lemma {:induction false} ListIsByRecency(c: Cache, es: seq<Event>, n: nat)
    requires Inv(c) && n <= |es| && c.lru == []
    ensures ByRecency(c, es, n, Run(c, es, n).lru)
  {
    hide WaitersOnce, Delivered, Recorded, Accounted, Bounded, Claim, Finish, ByRecency, Without;
    if n == 0 {
      NoKeys(c, es);
    } else {
      var d := Run(c, es, n - 1);
      var e := es[n - 1];
      ListIsByRecency(c, es, n - 1);
      StepList(d, e);
      if Uses(d, e, e.k) {
        WithoutIsDistinct(d.lru, e.k);
        WithoutKeepsRecency(c, es, n - 1, d.lru, e.k);
        FrontIsNewest(c, es, n - 1, Without(d.lru, e.k), e.k);
      } else {
        NothingUsed(c, es, n - 1, d.lru);
        if e.Finished? {
          FinishKeepsRecency(c, es, n, d, e.k, e.res, e.now);
        }
      }
    }
  }

  lemma NoKeys(c: Cache, es: seq<Event>)
    requires Inv(c)
    ensures ByRecency(c, es, 0, [])
  {
  }

  lemma {:induction false} EvictsLeastRecentlyUsed(c: Cache, es: seq<Event>, n: nat, now: int, k: Key)
    requires Inv(c) && n <= |es| && c.lru == []
    requires k in Run(c, es, n).items && MayEvict(Run(c, es, n), k, now)
    ensures var d := Run(c, es, n);
            var v := Evictable(d, now, |d.lru|);
            v.Some? && LastUse(c, es, n, d.lru[v.value]) <= LastUse(c, es, n, k)
  {
    hide WaitersOnce, Delivered, Recorded, Accounted, Bounded, Run, LastUse;
    ListIsByRecency(c, es, n);
    var d := Run(c, es, n);
    assert k in d.lru;
    var j :| 0 <= j < |d.lru| && d.lru[j] == k;
    assert MayEvict(d, d.lru[j], now);
  }

  // ---- An expired origin is not a stranger ----------------------------------------------------------------------------

  lemma {:induction false} EnforceOnlyDrops(c: Cache, now: int, k: Key)
    requires Listed(c) && k in Enforce(c, now).items
    ensures k in c.items && Enforce(c, now).items[k] == c.items[k]
    decreases |c.lru|
  {
    if Overfull(c) {
      var v := Evictable(c, now, |c.lru|);
      if v.Some? {
        RemoveKeepsListed(c, c.lru[v.value]);
        EnforceOnlyDrops(Remove(c, c.lru[v.value]), now, k);
      }
    }
  }

  /** Exactly when a Finish does nothing, whoever calls it and however late: no record of the key is
      in flight.  Only that decides, not whether the record is the caller's own. */
  lemma FinishDoesNothingExactlyWhen(c: Cache, k: Key, res: Option<Result>, now: int)
    requires Listed(c)
    ensures Finish(c, k, res, now) == c <==> k !in c.items || c.items[k].complete
  {
    if k in c.items && !c.items[k].complete && !Vanished(res) {
      SettleKeepsListed(c, k, res.value);
      if k in Enforce(Settle(c, k, res.value), now).items {
        EnforceOnlyDrops(Settle(c, k, res.value), now, k);
      }
    }
  }

  /** The comment on Claim says an expired origin's Finish does nothing.  It does: if the key has
      been claimed again meanwhile, the late result settles the newer origin's record and wakes the
      newer origin's waiters. */
  lemma LateFinishSettlesNewerOrigin(k: Key, r: Result)
    requires !Vanished(Some(r))
    ensures var c := NewCache(1, 10);
            var first := Claim(c, k, 0);
            var second := Claim(first.0, k, 11);
            var third := Claim(second.0, k, 12);
            && first.1.Miss? && second.1.Miss? && third.1 == Wait(0)
            && Listed(third.0)
            && Settle(third.0, k, r).chans == [Chan(k, [Stored(r)])]
            && Finish(third.0, k, Some(r), 13) == Enforce(Settle(third.0, k, r), 13)
  {
    hide Enforce;
    var c := NewCache(1, 10);
    var c1 := Claim(c, k, 0).0;
    assert c1 == Cache(1, 10, map[k := Entry(0, false, None, [])], [k], 0, []);
    assert Remove(c1, k) == c by {
      assert c1.items - {k} == map[];
    }
    var c2 := Claim(c1, k, 11).0;
    assert c2 == Cache(1, 10, map[k := Entry(11, false, None, [])], [k], 0, []);
    var c3 := Claim(c2, k, 12).0;
    assert c3.items[k].waiters == [0];
    assert c3.chans == [Chan(k, [])];
    WakeHits(c3.chans, [0], Stored(r), 1, 0);
    assert [] + [Stored(r)] == [Stored(r)];
  }
}
