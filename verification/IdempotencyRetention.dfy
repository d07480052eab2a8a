/**
  How long a finished result stays replayable: what keeps a record in the cache.
 */
module IdempotencyRetention {
  import opened Prelude
  import opened IdempotencyState
  import opened IdempotencyRuns

  /** How many of the keys from place i of the list on may not be dropped. */
  function Stuck(c: Cache, i: nat, now: int): nat
    requires i <= |c.lru| && forall k :: k in c.lru ==> k in c.items
    decreases |c.lru| - i
  {
    if i == |c.lru| then 0 else (if MayEvict(c, c.lru[i], now) then 0 else 1) + Stuck(c, i + 1, now)
  }

  /** The record at place i of the list and all used since fit, beside the records in flight. */
  ghost predicate FitsAt(c: Cache, i: nat, now: int)
    requires Listed(c) && i < |c.lru|
  {
    && i + 1 + Stuck(c, i + 1, now) <= c.cap
    && BodySum(c.items, c.lru[..i + 1]) <= TOTAL_BODY_BUDGET
  }

  lemma {:induction false} ListSize(c: Cache)
    requires Listed(c)
    ensures |c.lru| == |c.items|
  {
    SizeOfDistinct(c.lru);
    assert c.items.Keys == set k | k in c.lru;
  }

  lemma {:induction false} SizeOfDistinct(lru: seq<Key>)
    requires Distinct(lru)
    ensures |set k | k in lru| == |lru|
  {
    if |lru| == 0 {
      assert (set k | k in lru) == {};
    } else {
      SizeOfDistinct(lru[1..]);
      assert (set k | k in lru) == {lru[0]} + set k | k in lru[1..];
    }
  }

  /** From the last place that may be dropped on, everything is in flight. */
  lemma {:induction false} StuckTail(c: Cache, i: nat, now: int)
    requires i <= |c.lru| && forall k :: k in c.lru ==> k in c.items
    requires forall j :: i <= j < |c.lru| ==> !MayEvict(c, c.lru[j], now)
    ensures Stuck(c, i, now) == |c.lru| - i
    ensures BodySum(c.items, c.lru[i..]) == 0
    decreases |c.lru| - i
  {
    if i < |c.lru| {
      StuckTail(c, i + 1, now);
      assert c.lru[i..][0] == c.lru[i] && c.lru[i..][1..] == c.lru[i + 1..];
    } else {
      assert c.lru[i..] == [];
    }
  }

  lemma {:induction false} SumAppend(items: map<Key, Entry>, a: seq<Key>, b: seq<Key>)
    requires forall k :: k in a + b ==> k in items
    ensures (forall k :: k in a ==> k in items) && (forall k :: k in b ==> k in items)
    ensures BodySum(items, a + b) == BodySum(items, a) + BodySum(items, b)
  {
    assert forall k :: k in a || k in b ==> k in a + b;
    if |a| == 0 {
      assert a + b == b;
    } else {
      assert (a + b)[1..] == a[1..] + b;
      SumAppend(items, a[1..], b);
    }
  }

  /** If the record at place i is the one to drop, the cache is not over its limits. */
  lemma NotOverfullAt(c: Cache, i: nat, now: int)
    requires Listed(c) && Accounted(c) && i < |c.lru| && FitsAt(c, i, now)
    requires forall j :: i < j < |c.lru| ==> !MayEvict(c, c.lru[j], now)
    ensures !Overfull(c)
  {
    hide Stuck, BodySum;
    ListSize(c);
    StuckTail(c, i + 1, now);
    assert c.lru == c.lru[..i + 1] + c.lru[i + 1..];
    SumAppend(c.items, c.lru[..i + 1], c.lru[i + 1..]);
  }

  lemma {:induction false} WithoutAt(front: seq<Key>, k: Key, back: seq<Key>)
    requires k !in front
    ensures Without(front + [k] + back, k) == front + back
  {
    if |front| == 0 {
      assert front + [k] + back == [k] + back && front + back == back;
    } else {
      WithoutAt(front[1..], k, back);
      assert (front + [k] + back)[1..] == front[1..] + [k] + back;
      assert front + back == [front[0]] + (front[1..] + back);
    }
  }

  /** What dropping the key at place v leaves of the list. */
  lemma {:induction false} DroppedList(lru: seq<Key>, v: nat)
    requires Distinct(lru) && v < |lru|
    ensures Without(lru, lru[v]) == lru[..v] + lru[v + 1..]
  {
    hide Without;
    assert lru == lru[..v] + [lru[v]] + lru[v + 1..];
    WithoutAt(lru[..v], lru[v], lru[v + 1..]);
  }

  lemma SameFront(lru: seq<Key>, v: nat, i: nat)
    requires i < v < |lru|
    ensures (lru[..v] + lru[v + 1..])[i] == lru[i]
    ensures (lru[..v] + lru[v + 1..])[..i + 1] == lru[..i + 1]
  {
  }

  /** Dropping a record further back leaves the front and what is stuck behind it. */
  lemma DropKeepsFit(c: Cache, i: nat, v: nat, now: int)
    requires Listed(c) && Accounted(c) && i < v < |c.lru| && MayEvict(c, c.lru[v], now) && FitsAt(c, i, now)
    ensures var d := Remove(c, c.lru[v]);
            Listed(d) && Accounted(d) && i < |d.lru| < |c.lru| && d.lru[i] == c.lru[i]
            && d.items[c.lru[i]] == c.items[c.lru[i]] && FitsAt(d, i, now)
  {
    hide Stuck, BodySum, Wake, Without;
    var d := Remove(c, c.lru[v]);
    RemoveKeepsListed(c, c.lru[v]);
    RemoveAccounts(c, c.lru[v]);
    DroppedList(c.lru, v);
    SameFront(c.lru, v, i);
    SumSame(c.items, d.items, c.lru[..i + 1]);
    StuckAfterDrop(c, d, i + 1, v, now);
  }

  lemma {:induction false} StuckAfterDrop(c: Cache, d: Cache, i: nat, v: nat, now: int)
    requires Listed(c) && Listed(d) && i <= v < |c.lru| && MayEvict(c, c.lru[v], now)
    requires d.lru == c.lru[..v] + c.lru[v + 1..] && d.ttl == c.ttl
    requires forall k :: k in d.items ==> k in c.items && d.items[k] == c.items[k]
    ensures Stuck(d, i, now) == Stuck(c, i, now)
    decreases v - i
  {
    if i < v {
      assert d.lru[i] == c.lru[i] && d.lru[i] in d.items;
      StuckAfterDrop(c, d, i + 1, v, now);
    } else {
      StuckShift(c, d, v, v, now);
    }
  }

  lemma {:induction false} StuckShift(c: Cache, d: Cache, i: nat, v: nat, now: int)
    requires Listed(c) && Listed(d) && v <= i <= |d.lru| && |d.lru| == |c.lru| - 1
    requires d.ttl == c.ttl && forall j :: v <= j < |d.lru| ==> d.lru[j] == c.lru[j + 1]
    requires forall k :: k in d.items ==> k in c.items && d.items[k] == c.items[k]
    ensures Stuck(d, i, now) == Stuck(c, i + 1, now)
    decreases |d.lru| - i
  {
    if i < |d.lru| {
      assert d.lru[i] in d.items;
      StuckShift(c, d, i + 1, v, now);
    }
  }

  /** Eviction never reaches a settled record that fits with everything used since. */
  lemma {:induction false} EnforceRetains(c: Cache, i: nat, now: int)
    requires Listed(c) && Accounted(c) && i < |c.lru| && c.items[c.lru[i]].complete && FitsAt(c, i, now)
    ensures c.lru[i] in Enforce(c, now).items && Enforce(c, now).items[c.lru[i]] == c.items[c.lru[i]]
    decreases |c.lru|
  {
    hide FitsAt, Remove;
    if Overfull(c) {
      var v := Evictable(c, now, |c.lru|);
      assert MayEvict(c, c.lru[i], now);
      assert v.Some? && v.value >= i;
      if v.value == i {
        NotOverfullAt(c, i, now);
      }
      RemoveKeepsListed(c, c.lru[v.value]);
      DropKeepsFit(c, i, v.value, now);
      EnforceRetains(Remove(c, c.lru[v.value]), i, now);
    }
  }

  // ---- Over runs ---------------------------------------------------------------------------------------------

  /** The record of k, wherever it is in the list, fits with everything used since. */
  ghost predicate Fits(c: Cache, k: Key, now: int)
    requires Listed(c)
  {
    exists i :: 0 <= i < |c.lru| && c.lru[i] == k && FitsAt(c, i, now)
  }

  /** The event leaves room for k: a claim of k comes within the TTL, and a result settled for another
      key finds k fitting with everything used since. */
  ghost predicate Spares(c: Cache, e: Event, k: Key)
    requires Inv(c) && k in c.items
  {
    match e
    case Claimed(x, now) => x == k ==> !Expired(c, c.items[k], now)
    case Finished(x, res, now) =>
      if x == k || x !in c.items || c.items[x].complete || Vanished(res) then true
      else
        SettleKeepsListed(c, x, res.value);
        Fits(Settle(c, x, res.value), k, now)
  }

  lemma StepRetains(c: Cache, e: Event, k: Key)
    requires Inv(c) && k in c.items && c.items[k].complete && Spares(c, e, k)
    ensures k in Step(c, e).items && Step(c, e).items[k] == c.items[k] && Step(c, e).ttl == c.ttl
  {
    hide FitsAt, Wake, Without, Enforce;
    if e.Finished? && e.k in c.items && !c.items[e.k].complete && !Vanished(e.res) {
      var s := Settle(c, e.k, e.res.value);
      SettleKeepsListed(c, e.k, e.res.value);
      SettleAccounts(c, e.k, e.res.value);
      var i: nat :| i < |s.lru| && s.lru[i] == k && FitsAt(s, i, e.now);
      EnforceRetains(s, i, e.now);
      EnforceKeepsTTL(s, e.now);
    }
  }

  lemma {:induction false} EnforceKeepsTTL(c: Cache, now: int)
    requires Listed(c)
    ensures Enforce(c, now).ttl == c.ttl
    decreases |c.lru|
  {
    if Overfull(c) {
      var v := Evictable(c, now, |c.lru|);
      if v.Some? {
        RemoveKeepsListed(c, c.lru[v.value]);
        EnforceKeepsTTL(Remove(c, c.lru[v.value]), now);
      }
    }
  }

  /** Retention over any run: a settled record survives as long as every result settled meanwhile finds
      it fitting with everything used since; so within its TTL a claim still replays that very result. */
  lemma {:induction false} StaysReplayable(c: Cache, es: seq<Event>, m: nat, n: nat, k: Key, now: int)
    requires Inv(c) && m <= n <= |es|
    requires k in Run(c, es, m).items && Run(c, es, m).items[k].complete
    requires forall j: nat :: m <= j < n && k in Run(c, es, j).items ==> Spares(Run(c, es, j), es[j], k)
    ensures var d, e := Run(c, es, n), Run(c, es, m).items[k];
            && k in d.items && d.items[k] == e && d.ttl == Run(c, es, m).ttl
            && (now - e.created <= d.ttl && !e.res.value.stream ==> Claim(d, k, now).1 == Replay(e.res.value))
    decreases n
  {
    hide Inv, Spares, Step, Claim;
    if m < n {
      StaysReplayable(c, es, m, n - 1, k, now);
      StepRetains(Run(c, es, n - 1), es[n - 1], k);
    }
    Replays(Run(c, es, n), k, now);
  }

  lemma Replays(c: Cache, k: Key, now: int)
    requires Inv(c) && k in c.items && c.items[k].complete
    ensures c.items[k].res.Some?
    ensures now - c.items[k].created <= c.ttl && !c.items[k].res.value.stream ==>
              Claim(c, k, now).1 == Replay(c.items[k].res.value)
  {
    ClaimAnswers(c, k, now);
  }
}
