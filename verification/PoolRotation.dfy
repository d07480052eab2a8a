/**
  Rotation: which of several equally good slots `next` hands out, and how the cursor moves.
 */
module PoolRotation {
  import opened Prelude
  import opened PoolState
  import opened PoolAdmission
  import opened PoolRuns
  import opened PoolAccounts
  import opened PoolSpread

  /** How many places slot j comes after slot `start` in rotation order. */
  function Behind(start: nat, j: nat, n: nat): (d: nat)
    requires start <= n && j < n
    ensures d < n
  {
    if j >= start then j - start else j + n - start
  }

  lemma BehindTurns(start: nat, d: nat, n: nat)
    requires start <= n && d < n
    ensures (start + d) % n < n && Behind(start, (start + d) % n, n) == d
  {
    var x := start + d;
    if x < n {
      SmallMod(x, n);
    } else {
      WrapsOnce(x - n, n);
    }
  }

  /** The candidates come in rotation order from start. */
  ghost predicate Rising(start: nat, n: nat, s: seq<nat>)
    requires start <= n
  {
    && InRange(s, n)
    && forall a, b :: 0 <= a < b < |s| ==> Behind(start, s[a], n) < Behind(start, s[b], n)
  }

  lemma {:induction false} ScanRises(p: Pool, start: nat, now: int, k: nat)
    requires Sound(p) && start <= |p.slots| && k <= |p.slots|
    ensures Rising(start, |p.slots|, Scan(p, start, now, k))
    ensures forall a :: 0 <= a < |Scan(p, start, now, k)| ==> Behind(start, Scan(p, start, now, k)[a], |p.slots|) < k
  {
    hide PoolState.Available;
    if k > 0 {
      ScanRises(p, start, now, k - 1);
      BehindTurns(start, k - 1, |p.slots|);
    }
  }

  lemma {:induction false} IdleRises(slots: seq<Slot>, start: nat, open: seq<nat>, m: nat, k: nat)
    requires start <= |slots| && k <= |open| && Rising(start, |slots|, open)
    ensures Rising(start, |slots|, Idle(slots, open, m, k))
    ensures forall x :: x in Idle(slots, open, m, k) ==> x in open[..k]
  {
    hide Behind;
    if k > 0 {
      IdleRises(slots, start, open, m, k - 1);
      var r, last := Idle(slots, open, m, k - 1), open[k - 1];
      assert open[..k] == open[..k - 1] + [last];
      forall a | 0 <= a < |r|
        ensures Behind(start, r[a], |slots|) < Behind(start, last, |slots|)
      {
        assert r[a] in open[..k - 1];
        var x :| 0 <= x < k - 1 && open[x] == r[a];
      }
    }
  }

  /** Slot i is the faster one, or as fast and no further round. */
  predicate Ahead(o: Oracle, start: nat, n: nat, i: nat, j: nat)
    requires start <= n && i < n && j < n
  {
    || At(o.tps, i) > At(o.tps, j)
    || (At(o.tps, i) == At(o.tps, j) && Behind(start, i, n) <= Behind(start, j, n))
  }

  lemma {:induction false} FastestFromIsAhead(open: seq<nat>, o: Oracle, start: nat, n: nat, j: nat, best: nat)
    requires start <= n && Rising(start, n, open) && 1 <= j <= |open|
    requires best in open[..j] && forall a :: 0 <= a < j ==> Ahead(o, start, n, best, open[a])
    ensures var r := FastestFrom(open, o, j, best);
            r in open && forall a :: 0 <= a < |open| ==> Ahead(o, start, n, r, open[a])
    decreases |open| - j
  {
    if j < |open| {
      var b := if At(o.tps, open[j]) > At(o.tps, best) then open[j] else best;
      assert open[..j + 1] == open[..j] + [open[j]];
      FastestFromIsAhead(open, o, start, n, j + 1, b);
    }
  }

  /** The default mode takes, of the candidates, the least busy, then the fastest, then the first in
      rotation order. */
  lemma {:induction false} PickIsFirstAmongEquals(p: Pool, start: nat, open: seq<nat>, o: Oracle, j: nat)
    requires p.selection == Fastest && start <= |p.slots| && Rising(start, |p.slots|, open) && j in open
    ensures var i := PickSlot(p, open, o).slot;
            && i in open
            && (p.slots[i].live < p.slots[j].live
                || (p.slots[i].live == p.slots[j].live && Ahead(o, start, |p.slots|, i, j)))
  {
    PickInOpen(p, open, o);
    var i, n := PickSlot(p, open, o).slot, |p.slots|;
    if |open| > 1 {
      var m := MinLive(p.slots, open, |open|);
      MinLiveIsLeast(p.slots, open, |open|);
      var idle := Idle(p.slots, open, m, |open|);
      IdleRises(p.slots, start, open, m, |open|);
      if |idle| > 1 {
        assert idle[..1] == [idle[0]];
        FastestFromIsAhead(idle, o, start, n, 1, idle[0]);
      }
    }
  }

  /** Where the scan of `next` starts: past the first slot of the account the identity is pinned to, if
      that slot is closed; otherwise at the cursor. */
  function StartOfScan(p: Pool, id: string, now: int): (s: nat)
    requires Sound(p)
    ensures s <= |p.slots|
  {
    if PinTTL(p.ttl, id) <= 0 || id !in p.sticky || now >= p.sticky[id].expires then p.rr
    else
      var f := FirstSlot(p.slots, p.sticky[id].name, p.sticky[id].key, 0);
      if f.None? || PoolState.Available(p, f.value, now).Open? then p.rr else f.value + 1
  }

  lemma ScanStarts(p: Pool, id: string, now: int)
    requires Sound(p) && PoolState.SharedReady(p, now) == 0
    ensures var advice := ConsultPin(p, id, now);
            !advice.Serve? ==> StartOfScan(p, id, now) == if advice.RotateFrom? then advice.start else p.rr
  {
    hide PoolState.Available, PoolState.SharedReady, FirstSlot, PinTTL;
  }

  /** The account handed out otherwise than to its pinned identity beats every open slot: fewer calls
      in flight, else faster, else nearer after the start of the scan. */
  lemma ServesFirstAmongEquals(p: Pool, id: string, now: int, o: Oracle, j: nat)
    requires Sound(p) && p.selection == Fastest && !ConsultPin(p, id, now).Serve?
    requires j < |p.slots| && PoolState.Available(p, j, now).Open? && NextAccount(p, id, now, o).slot.Some?
    ensures var i, start := NextAccount(p, id, now, o).slot.value, StartOfScan(p, id, now);
            || p.slots[i].live < p.slots[j].live
            || (p.slots[i].live == p.slots[j].live && Ahead(o, start, |p.slots|, i, j))
  {
    hide PoolState.Available, PoolState.SharedReady, RefusalInstant, PinUpdate, PickSlot, Ahead, Grant, ConsultPin;
    var start := StartOfScan(p, id, now);
    AdmitsExactlyWhenOpen(p, id, now, o);
    ScanStarts(p, id, now);
    var sticky := if PinTTL(p.ttl, id) > 0 && ConsultPin(p, id, now) != Spread then p.sticky - {id} else p.sticky;
    var q := p.(sticky := sticky);
    ScanRises(p, start, now, |p.slots|);
    ScanIsComplete(p, start, now, j);
    PickIsFirstAmongEquals(q, start, Scan(p, start, now, |p.slots|), o, j);
  }

  /** The cursor: a slot handed out by the scan leaves it one past that slot; a pinned slot, and a
      refusal, leave it where it was. */
  lemma CursorAfterNext(p: Pool, id: string, now: int, o: Oracle)
    requires Sound(p)
    ensures var r := NextAccount(p, id, now, o);
            r.pool.rr == if r.slot.None? || ConsultPin(p, id, now).Serve? then p.rr
                         else if r.slot.value == |p.slots| - 1 then 0 else r.slot.value + 1
  {
    hide PoolState.Available, PoolState.SharedReady, RefusalInstant, PinUpdate, PickSlot, ConsultPin, Scan;
    var r := NextAccount(p, id, now, o);
    if r.slot.Some? {
      Turn(r.slot.value, |p.slots|);
    }
  }

  lemma Turn(i: nat, n: nat)
    requires i < n
    ensures (i + 1) % n == if i == n - 1 then 0 else i + 1
  {
    if i < n - 1 {
      SmallMod(i + 1, n);
    }
  }

  /** No other operation moves it. */
  lemma CursorAfterStep(p: Pool, e: Event)
    requires Sound(p) && !e.NextCall?
    ensures Step(p, e).rr == p.rr
  {
  }

  // ---- Rotation over runs --------------------------------------------------------------------------------

  /** If e is a pick, it is one for an identity that is not pinned, with every slot open, equally busy
      and equally fast. */
  ghost predicate Even(p: Pool, e: Event)
    requires Sound(p)
  {
    e.NextCall? ==>
      && PinTTL(p.ttl, e.id) <= 0
      && !BreakerOpen(p, e.now) && PoolState.SharedReady(p, e.now) == 0
      && forall j :: 0 <= j < |p.slots| ==>
           && PoolState.Available(p, j, e.now).Open?
           && p.slots[j].live == p.slots[0].live
           && At(e.o.tps, j) == At(e.o.tps, 0)
  }

  ghost predicate EvenRun(p: Pool, es: seq<Event>, t: int)
    requires Inv(p, t) && Clocked(es, t)
    decreases |es|
  {
    |es| > 0 ==>
      && Even(p, es[0])
      && (StepKeepsInv(p, es[0], t); EvenRun(Step(p, es[0]), es[1..], Reading(es[0], t)))
  }

  /** The slots handed out over a run, in order. */
  ghost function Handed(p: Pool, es: seq<Event>, t: int): (r: seq<nat>)
    requires Inv(p, t) && Clocked(es, t)
    ensures InRange(r, |p.slots|)
    decreases |es|
  {
    if |es| == 0 then []
    else
      StepKeepsInv(p, es[0], t);
      var e := es[0];
      var first := if e.NextCall? then NextAccount(p, e.id, e.now, e.o).slot else None;
      (if first.Some? then [first.value] else []) + Handed(Step(p, e), es[1..], Reading(e, t))
  }

  lemma EvenPick(p: Pool, e: Event)
    requires Sound(p) && p.selection == Fastest && e.NextCall? && Even(p, e)
    ensures NextAccount(p, e.id, e.now, e.o).slot == Some(p.rr)
    ensures Step(p, e).rr == (p.rr + 1) % |p.slots|
  {
    hide PoolState.Available, PoolState.SharedReady, RefusalInstant, PinUpdate, PickSlot, Scan, Grant;
    AdmitsExactlyWhenOpen(p, e.id, e.now, e.o);
    assert PoolState.Available(p, p.rr, e.now).Open?;
    ServesFirstAmongEquals(p, e.id, e.now, e.o, p.rr);
    CursorAfterNext(p, e.id, e.now, e.o);
    Turn(p.rr, |p.slots|);
  }

  lemma TurnOn(i: nat, k: nat, n: nat)
    requires i < n
    ensures ((i + 1) % n + k) % n == (i + 1 + k) % n
  {
    Turn(i, n);
    if i == n - 1 {
      var q := k / n;
      assert k == q * n + k % n;
      Quotient(n + k, n, q + 1, k % n);
    }
  }

  /** The slots from, from + 1, ... round n. */
  ghost predicate InTurn(h: seq<nat>, from: nat, n: nat)
    requires n > 0
  {
    forall k :: 0 <= k < |h| ==> h[k] == (from + k) % n
  }

  lemma InTurnCons(from: nat, n: nat, rest: seq<nat>)
    requires from < n && InTurn(rest, (from + 1) % n, n)
    ensures InTurn([from] + rest, from, n)
  {
    var h := [from] + rest;
    SmallMod(from, n);
    forall k | 1 <= k < |h|
      ensures h[k] == (from + k) % n
    {
      TurnOn(from, k - 1, n);
      assert h[k] == rest[k - 1];
    }
  }

  lemma {:induction false} HandedStep(p: Pool, es: seq<Event>, t: int)
    requires Inv(p, t) && Clocked(es, t) && |es| > 0 && p.selection == Fastest && Even(p, es[0])
    ensures Inv(Step(p, es[0]), Reading(es[0], t)) && Clocked(es[1..], Reading(es[0], t))
    ensures var q := Step(p, es[0]);
            var rest := Handed(q, es[1..], Reading(es[0], t));
            && |q.slots| == |p.slots| && q.selection == p.selection && p.rr < |p.slots|
            && if es[0].NextCall? then Handed(p, es, t) == [p.rr] + rest && q.rr == (p.rr + 1) % |p.slots|
               else Handed(p, es, t) == rest && q.rr == p.rr
  {
    hide NextAccount, Step, InSync, Stamped, Even;
    StepKeepsInv(p, es[0], t);
    if es[0].NextCall? {
      EvenPick(p, es[0]);
    } else {
      CursorAfterStep(p, es[0]);
    }
  }

  /** Rotation: however other operations come between them, picks that find all slots open, equally
      busy and equally fast hand the slots out in turn from the cursor on. */
  lemma {:induction false} HandsOutInTurn(p: Pool, es: seq<Event>, t: int)
    requires Inv(p, t) && Clocked(es, t) && p.selection == Fastest && EvenRun(p, es, t)
    ensures forall k :: 0 <= k < |Handed(p, es, t)| ==> Handed(p, es, t)[k] == (p.rr + k) % |p.slots|
  {
    TurnsFrom(p, es, t);
  }

  lemma {:induction false} TurnsFrom(p: Pool, es: seq<Event>, t: int)
    requires Inv(p, t) && Clocked(es, t) && p.selection == Fastest && EvenRun(p, es, t)
    ensures InTurn(Handed(p, es, t), p.rr, |p.slots|)
    decreases |es|
  {
    hide NextAccount, Step, InSync, Stamped, Even, Clocked;
    if |es| > 0 {
      hide InTurn, Handed;
      HandedStep(p, es, t);
      TurnsFrom(Step(p, es[0]), es[1..], Reading(es[0], t));
      if es[0].NextCall? {
        InTurnCons(p.rr, |p.slots|, Handed(Step(p, es[0]), es[1..], Reading(es[0], t)));
      }
    }
  }

  lemma ModAdd(x: nat, d: nat, n: nat)
    requires n > 0
    ensures (x + d) % n == (x % n + d) % n
  {
    var q, r := x / n, (x % n + d) % n;
    var q' := (x % n + d) / n;
    assert x == q * n + x % n && x % n + d == q' * n + r;
    assert (q + q') * n == q * n + q' * n;
    Quotient(x + d, n, q + q', r);
  }

  lemma NearbyDiffer(x: nat, d: nat, n: nat)
    requires 0 < d < n
    ensures (x + d) % n != x % n
  {
    ModAdd(x, d, n);
    var r := x % n;
    if r + d < n {
      SmallMod(r + d, n);
    } else {
      WrapsOnce(r + d - n, n);
    }
  }

  /** Any n picks in a row, n the number of slots, hand out every slot exactly once. */
  lemma {:induction false} OncePerRound(p: Pool, es: seq<Event>, t: int, k: nat, x: nat)
    requires Inv(p, t) && Clocked(es, t) && p.selection == Fastest && EvenRun(p, es, t)
    requires x < |p.slots| && k + |p.slots| <= |Handed(p, es, t)|
    ensures var h := Handed(p, es, t)[k..k + |p.slots|];
            x in h && forall a, b :: 0 <= a < b < |h| ==> h[a] != h[b]
  {
    hide Handed, EvenRun, Inv, Clocked;
    HandsOutInTurn(p, es, t);
    var n, h := |p.slots|, Handed(p, es, t)[k..k + |p.slots|];
    forall a, b | 0 <= a < b < |h|
      ensures h[a] != h[b]
    {
      NearbyDiffer(p.rr + k + a, b - a, n);
    }
    var from := (p.rr + k) % n;
    var d := Behind(from, x, n);
    ModAdd(p.rr + k, d, n);
    if from + d < n {
      SmallMod(x, n);
    } else {
      WrapsOnce(x, n);
    }
    assert h[d] == x;
  }

  // ---- A pool as built rotates ------------------------------------------------------------------------------

  /** No slot has a bucket, a bench, a refusal or a call in flight. */
  ghost predicate Plain(p: Pool) {
    && p.shared.None? && p.flapOpenUntil == 0
    && forall j :: 0 <= j < |p.slots| ==>
         p.slots[j].(lastUsed := 0) == FreshSlot(p.slots[j].acct, None)
  }

  /** Picks only, for identities that are not pinned, with all speeds equal. */
  ghost predicate OnlyPicks(es: seq<Event>, ttl: int, n: nat) {
    forall k :: 0 <= k < |es| ==>
      && es[k].NextCall? && PinTTL(ttl, es[k].id) <= 0
      && forall j :: 0 <= j < n ==> At(es[k].o.tps, j) == At(es[k].o.tps, 0)
  }

  lemma PlainIsEven(p: Pool, e: Event)
    requires Sound(p) && Plain(p) && OnlyPicks([e], p.ttl, |p.slots|)
    ensures Even(p, e)
  {
    assert [e][0] == e;
  }

  lemma PlainStays(p: Pool, e: Event, t: int)
    requires Inv(p, t) && Plain(p) && e.NextCall? && e.now >= t
    ensures Plain(Step(p, e))
  {
    hide NextAccount, InSync, Stamped;
    NextLeavesFaults(p, e.id, e.now, e.o);
    StepKeepsInv(p, e, t);
    BreakerStep(p, e, t);
    forall j | 0 <= j < |p.slots|
      ensures Step(p, e).slots[j].(lastUsed := 0) == FreshSlot(Step(p, e).slots[j].acct, None)
    {
      assert p.slots[j].(lastUsed := 0) == FreshSlot(p.slots[j].acct, None);
    }
  }

  lemma {:induction false} PlainRunIsEven(p: Pool, es: seq<Event>, t: int)
    requires Inv(p, t) && Clocked(es, t) && Plain(p) && OnlyPicks(es, p.ttl, |p.slots|)
    ensures EvenRun(p, es, t) && |Handed(p, es, t)| == |es|
    decreases |es|
  {
    hide NextAccount, Step, InSync, Stamped, Even, Plain, PinTTL;
    if |es| > 0 {
      var e := es[0];
      assert OnlyPicks([e], p.ttl, |p.slots|);
      PlainIsEven(p, e);
      PlainStays(p, e, t);
      StepKeepsInv(p, e, t);
      PlainGrants(p, e);
      PlainRunIsEven(Step(p, e), es[1..], Reading(e, t));
    }
  }

  lemma PlainGrants(p: Pool, e: Event)
    requires Sound(p) && e.NextCall? && Even(p, e)
    ensures NextAccount(p, e.id, e.now, e.o).slot.Some?
  {
    hide NextAccount, PoolState.Available, PoolState.SharedReady;
    AdmitsExactlyWhenOpen(p, e.id, e.now, e.o);
    assert PoolState.Available(p, 0, e.now).Open?;
  }

  /** A pool built without budgets and picked from in the default mode, at equal speeds and for
      identities that are not pinned, hands out its slots 0, 1, ..., n - 1, 0, 1, ... */
  lemma {:induction false} NewPoolRotates(accts: seq<Account>, ttl: int, sharedRPM: int, policy: Policy, es: seq<Event>, t: int)
    requires (forall k :: 0 <= k < |accts| ==> accts[k].rpm <= 0) && sharedRPM <= 0 && t > 0
    requires Clocked(es, t) && OnlyPicks(es, ttl, |NewPool(accts, ttl, sharedRPM, policy, Fastest).slots|)
    ensures var p := NewPool(accts, ttl, sharedRPM, policy, Fastest);
            Inv(p, t) && |Handed(p, es, t)| == |es|
            && forall k :: 0 <= k < |es| ==> Handed(p, es, t)[k] == k % |p.slots|
  {
    hide Lay, Handed, EvenRun, Clocked, OnlyPicks;
    var p := NewPool(accts, ttl, sharedRPM, policy, Fastest);
    NewPoolInv(accts, ttl, sharedRPM, policy, Fastest, t);
    LayPlain(Base(sharedRPM), Configured(accts), |Configured(accts)|);
    PlainRunIsEven(p, es, t);
    HandsOutInTurn(p, es, t);
  }

  ghost predicate PlainLayout(l: Layout) {
    l.byAccount == map[] && forall j :: 0 <= j < |l.slots| ==> l.slots[j] == FreshSlot(l.slots[j].acct, None)
  }

  lemma {:induction false} LayPlain(l: Layout, accts: seq<Account>, k: nat)
    requires k <= |accts| && PlainLayout(l) && forall i :: 0 <= i < |accts| ==> accts[i].rpm <= 0
    ensures PlainLayout(Lay(l, accts, k))
  {
    if k > 0 {
      LayPlain(l, accts, k - 1);
    }
  }
}
