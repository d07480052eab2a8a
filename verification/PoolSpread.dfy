/**
  Whether least-busy selection spreads calls over accounts: exactly which configurations it does for.
 */
module PoolSpread {
  import opened Prelude
  import opened TokenBuckets
  import opened PoolState
  import opened PoolAdmission
  import opened PoolRuns
  import opened PoolAccounts

  /** Calls in flight on an account: the count its first slot keeps. */
  function InFlight(p: Pool, a: Account): nat {
    match FirstSlot(p.slots, a.name, a.key, 0)
    case None => 0
    case Some(i) => p.slots[i].live
  }

  ghost predicate OneSlotEach(slots: seq<Slot>) {
    forall i, j :: 0 <= i < j < |slots| ==> !Same(slots[i].acct, slots[j].acct)
  }

  ghost predicate OneAccount(slots: seq<Slot>) {
    forall i, j :: 0 <= i < |slots| && 0 <= j < |slots| ==> Same(slots[i].acct, slots[j].acct)
  }

  /** If this pick hands out an account, no open account has fewer calls in flight. */
  ghost predicate SpreadsAt(p: Pool, id: string, now: int, o: Oracle)
    requires Sound(p)
  {
    var r := NextAccount(p, id, now, o);
    r.slot.Some? ==>
      forall j :: 0 <= j < |p.slots| && Available(p, j, now).Open? ==>
        InFlight(p, p.slots[r.slot.value].acct) <= InFlight(p, p.slots[j].acct)
  }

  /** Every pick after every run does. */
  ghost predicate Spreads(p: Pool) {
    forall es, t, id, now, o | Inv(p, t) && Clocked(es, t) && now >= After(t, es) :: SpreadsAt(Run(p, es, t), id, now, o)
  }

  // ---- Where it spreads ------------------------------------------------------------------------------------

  /** Where every account has one slot, the account handed out has the fewest calls in flight of all
      open accounts. */
  lemma OffersLeastBusyAccount(p: Pool, id: string, now: int, o: Oracle)
    requires Sound(p) && OneSlotEach(p.slots)
    ensures SpreadsAt(p, id, now, o)
  {
    hide NextAccount, PoolState.Available;
    var r := NextAccount(p, id, now, o);
    if r.slot.Some? {
      forall j | 0 <= j < |p.slots| && Available(p, j, now).Open?
        ensures InFlight(p, p.slots[r.slot.value].acct) <= InFlight(p, p.slots[j].acct)
      {
        OffersLeastBusyOpenSlot(p, id, now, o, j);
        OwnFirst(p, r.slot.value);
        OwnFirst(p, j);
      }
    }
  }

  lemma OwnFirst(p: Pool, i: nat)
    requires i < |p.slots| && OneSlotEach(p.slots)
    ensures InFlight(p, p.slots[i].acct) == p.slots[i].live
  {
    var f := FirstSlot(p.slots, p.slots[i].acct.name, p.slots[i].acct.key, 0);
    assert Same(p.slots[f.value].acct, p.slots[i].acct);
  }

  lemma OneAccountSpreads(p: Pool, id: string, now: int, o: Oracle)
    requires Sound(p) && OneAccount(p.slots)
    ensures SpreadsAt(p, id, now, o)
  {
    hide NextAccount, PoolState.Available;
  }

  lemma KeepsMix(p: Pool, q: Pool)
    requires SameShape(p, q)
    ensures OneSlotEach(p.slots) ==> OneSlotEach(q.slots)
    ensures OneAccount(p.slots) ==> OneAccount(q.slots)
  {
  }

  // ---- The pick depends on counts only through which are zero -----------------------------------------------

  /** The same pool but for the counts, idle slots being the same. */
  ghost predicate SameIdle(p: Pool, q: Pool) {
    && q == p.(slots := q.slots) && |q.slots| == |p.slots|
    && forall i :: 0 <= i < |p.slots| ==>
         q.slots[i] == p.slots[i].(live := q.slots[i].live) && (q.slots[i].live == 0 <==> p.slots[i].live == 0)
  }

  lemma SameGates(p: Pool, q: Pool, now: int)
    requires Sound(p) && Sound(q) && SameIdle(p, q)
    ensures forall i :: 0 <= i < |p.slots| ==> Available(q, i, now) == Available(p, i, now)
    ensures SharedReady(q, now) == SharedReady(p, now) && BreakerOpen(q, now) == BreakerOpen(p, now)
  {
    forall i | 0 <= i < |p.slots|
      ensures Available(q, i, now) == Available(p, i, now)
    {
      assert q.slots[i] == p.slots[i].(live := q.slots[i].live);
    }
  }

  lemma {:induction false} SameScan(p: Pool, q: Pool, start: nat, now: int, k: nat)
    requires Sound(p) && Sound(q) && SameIdle(p, q)
    ensures Scan(q, start, now, k) == Scan(p, start, now, k)
  {
    hide PoolState.Available;
    SameGates(p, q, now);
    if k > 0 {
      SameScan(p, q, start, now, k - 1);
    }
  }

  lemma {:induction false} SameIdleSlots(p: Pool, q: Pool, open: seq<nat>, k: nat)
    requires SameIdle(p, q) && k <= |open| && InRange(open, |p.slots|)
    ensures Idle(q.slots, open, 0, k) == Idle(p.slots, open, 0, k)
  {
    if k > 0 {
      SameIdleSlots(p, q, open, k - 1);
    }
  }

  lemma {:induction false} SameLeastUsed(p: Pool, q: Pool, open: seq<nat>, j: nat, best: nat)
    requires SameIdle(p, q) && j <= |open| && InRange(open, |p.slots|) && best < |p.slots|
    ensures LeastUsedFrom(q.slots, open, j, best) == LeastUsedFrom(p.slots, open, j, best)
    decreases |open| - j
  {
    if j < |open| {
      assert q.slots[open[j]].lastUsed == p.slots[open[j]].lastUsed && q.slots[best].lastUsed == p.slots[best].lastUsed;
      SameLeastUsed(p, q, open, j + 1, best);
      SameLeastUsed(p, q, open, j + 1, open[j]);
    }
  }

  lemma {:induction false} ZeroIsLeast(slots: seq<Slot>, open: seq<nat>, z: nat)
    requires InRange(open, |slots|) && z in open && slots[z].live == 0
    ensures MinLive(slots, open, |open|) == 0
  {
    MinLiveIsLeast(slots, open, |open|);
    var j :| 0 <= j < |open| && open[j] == z;
  }

  /** With some open slot idle, the pick is the same. */
  lemma SamePick(p: Pool, q: Pool, now: int, o: Oracle, z: nat)
    requires Sound(p) && Sound(q) && SameIdle(p, q)
    requires z < |p.slots| && p.slots[z].live == 0 && Available(p, z, now).Open?
    ensures NextAccount(q, "", now, o).slot == NextAccount(p, "", now, o).slot
  {
    hide PoolState.Available, PoolState.SharedReady, Scan, Grant, RefusalInstant;
    SameGates(p, q, now);
    var open := Scan(p, p.rr, now, |p.slots|);
    SameScan(p, q, p.rr, now, |p.slots|);
    ScanIsComplete(p, p.rr, now, z);
    SameChoice(p, q, open, o, z);
  }

  lemma SameChoice(p: Pool, q: Pool, open: seq<nat>, o: Oracle, z: nat)
    requires SameIdle(p, q) && InRange(open, |p.slots|)
    requires z in open && p.slots[z].live == 0
    ensures PickSlot(q, open, o).slot == PickSlot(p, open, o).slot
  {
    assert z < |q.slots| && q.slots[z].live == 0;
    ZeroIsLeast(p.slots, open, z);
    ZeroIsLeast(q.slots, open, z);
    SameIdleSlots(p, q, open, |open|);
    var idle := Idle(p.slots, open, 0, |open|);
    if |idle| > 1 {
      SameLeastUsed(p, q, idle, 1, idle[0]);
    }
  }

  // ---- Loading a pool ----------------------------------------------------------------------------------------

  ghost predicate OnlyBegins(es: seq<Event>) {
    forall k :: 0 <= k < |es| ==> es[k].BeginCall?
  }

  lemma {:induction false} BeginsTakeNoTime(es: seq<Event>, t: int, a: Account, open: nat)
    requires OnlyBegins(es)
    ensures Clocked(es, t) && After(t, es) == t
    ensures Paired(es, a, open) && Ended(es, a) == 0
    decreases |es|
  {
    if |es| > 0 {
      BeginsTakeNoTime(es[1..], t, a, open);
      BeginsTakeNoTime(es[1..], t, a, open + 1);
    }
  }

  lemma {:induction false} BeginsOnlyCount(p: Pool, es: seq<Event>, t: int)
    requires Inv(p, t) && Clocked(es, t) && OnlyBegins(es)
    ensures var q := Run(p, es, t);
            && q == p.(slots := q.slots) && |q.slots| == |p.slots|
            && forall i :: 0 <= i < |p.slots| ==> q.slots[i] == p.slots[i].(live := q.slots[i].live)
    decreases |es|
  {
    hide InSync, Stamped, WellFormed;
    if |es| > 0 {
      StepKeepsInv(p, es[0], t);
      BeginsOnlyCount(Step(p, es[0]), es[1..], t);
    }
  }

  lemma {:induction false} BegunAppend(xs: seq<Event>, ys: seq<Event>, a: Account)
    ensures Begun(xs + ys, a) == Begun(xs, a) + Begun(ys, a)
  {
    if |xs| == 0 {
      assert xs + ys == ys;
    } else {
      assert (xs + ys)[1..] == xs[1..] + ys;
      BegunAppend(xs[1..], ys, a);
    }
  }

  lemma {:induction false} BegunAtMost(es: seq<Event>, a: Account)
    ensures Begun(es, a) <= |es|
  {
    if |es| > 0 {
      BegunAtMost(es[1..], a);
    }
  }

  /** One call on the account of each of the first n slots. */
  function OnEach(slots: seq<Slot>, n: nat): (es: seq<Event>)
    requires n <= |slots|
    ensures |es| == n
  {
    if n == 0 then [] else OnEach(slots, n - 1) + [BeginCall(slots[n - 1].acct)]
  }

  lemma {:induction false} OnEachLoads(slots: seq<Slot>, n: nat, i: nat)
    requires i < n <= |slots|
    ensures OnlyBegins(OnEach(slots, n)) && Begun(OnEach(slots, n), slots[i].acct) >= 1
  {
    OnEachBegins(slots, n);
    BegunAppend(OnEach(slots, n - 1), [BeginCall(slots[n - 1].acct)], slots[i].acct);
    if i == n - 1 {
      assert Begun([BeginCall(slots[i].acct)], slots[i].acct) == 1;
    } else {
      OnEachLoads(slots, n - 1, i);
    }
  }

  lemma {:induction false} OnEachBegins(slots: seq<Slot>, n: nat)
    requires n <= |slots|
    ensures OnlyBegins(OnEach(slots, n))
  {
    if n > 0 {
      OnEachBegins(slots, n - 1);
    }
  }

  /** n more calls on one account. */
  function Again(a: Account, n: nat): (es: seq<Event>)
    ensures |es| == n && forall k :: 0 <= k < n ==> es[k] == BeginCall(a)
  {
    if n == 0 then [] else [BeginCall(a)] + Again(a, n - 1)
  }

  lemma {:induction false} AgainLoads(a: Account, n: nat, b: Account)
    ensures Begun(Again(a, n), b) == if Same(b, a) then n else 0
  {
    if n > 0 {
      assert Again(a, n)[1..] == Again(a, n - 1);
      AgainLoads(a, n - 1, b);
    }
  }

  /** Nothing in flight yet and every gate open. */
  ghost predicate Unloaded(p: Pool, t: int) {
    && Inv(p, t) && !BreakerOpen(p, t) && SharedReady(p, t) == 0
    && forall i :: 0 <= i < |p.slots| ==> p.slots[i].live == 0 && Available(p, i, t).Open?
  }

  /** What a load of begins leaves in flight. */
  lemma {:induction false} LoadedCounts(p: Pool, es: seq<Event>, t: int, i: nat)
    requires Unloaded(p, t) && OnlyBegins(es) && i < |p.slots|
    ensures Clocked(es, t) && After(t, es) == t
    ensures var q := Run(p, es, t);
            && |q.slots| == |p.slots|
            && q.slots[i].live == (if FirstSlot(p.slots, p.slots[i].acct.name, p.slots[i].acct.key, 0) == Some(i)
                                   then Begun(es, p.slots[i].acct) else 0)
            && InFlight(q, p.slots[i].acct) == Begun(es, p.slots[i].acct)
  {
    hide InSync, Stamped, WellFormed, Run, PoolState.Available;
    var a := p.slots[i].acct;
    BeginsTakeNoTime(es, t, a, 0);
    LiveCountsCallsInFlight(p, es, t, a, i);
    var f := FirstSlot(p.slots, a.name, a.key, 0).value;
    LiveCountsCallsInFlight(p, es, t, a, f);
    FirstSlotOfSameShape(p, Run(p, es, t), a, 0);
  }

  lemma {:induction false} LoadedAlike(p: Pool, xs: seq<Event>, ys: seq<Event>, t: int)
    requires Unloaded(p, t) && OnlyBegins(xs) && OnlyBegins(ys)
    requires forall i :: 0 <= i < |p.slots| ==> Begun(xs, p.slots[i].acct) >= 1 && Begun(ys, p.slots[i].acct) >= 1
    ensures Clocked(xs, t) && Clocked(ys, t) && SameIdle(Run(p, xs, t), Run(p, ys, t))
  {
    hide InSync, Stamped, WellFormed, Run, PoolState.Available, Begun;
    LoadedCounts(p, xs, t, 0);
    LoadedCounts(p, ys, t, 0);
    BeginsOnlyCount(p, xs, t);
    BeginsOnlyCount(p, ys, t);
    forall i | 0 <= i < |p.slots|
      ensures Run(p, xs, t).slots[i].live == 0 <==> Run(p, ys, t).slots[i].live == 0
    {
      LoadedCounts(p, xs, t, i);
      LoadedCounts(p, ys, t, i);
    }
  }

  /** A slot that is not its account's first stays idle and open under any load. */
  lemma {:induction false} SecondStaysIdle(p: Pool, es: seq<Event>, t: int, x: nat, z: nat)
    requires Unloaded(p, t) && OnlyBegins(es) && x < z < |p.slots| && Same(p.slots[x].acct, p.slots[z].acct)
    ensures Clocked(es, t)
    ensures var q := Run(p, es, t);
            && |q.slots| == |p.slots| && q.slots[z].live == 0 && Available(q, z, t).Open?
            && !BreakerOpen(q, t) && SharedReady(q, t) == 0
            && forall i :: 0 <= i < |p.slots| ==> Available(q, i, t).Open?
  {
    hide InSync, Stamped, WellFormed, Run;
    LoadedCounts(p, es, t, z);
    BeginsOnlyCount(p, es, t);
    var q := Run(p, es, t);
    forall i | 0 <= i < |p.slots|
      ensures Available(q, i, t).Open?
    {
      assert Available(p, i, t).Open? && q.slots[i] == p.slots[i].(live := q.slots[i].live);
    }
  }

  /** In any other mix some load makes a pick stack: put a call on every account, see which slot is
      picked, and load its account further.  The same slot is picked again, though other accounts are
      open with fewer calls. */
  lemma SomeLoadStacks(p: Pool, t: int, o: Oracle) returns (es: seq<Event>)
    requires Unloaded(p, t) && !OneSlotEach(p.slots) && !OneAccount(p.slots)
    ensures OnlyBegins(es) && Clocked(es, t) && After(t, es) == t
    ensures !SpreadsAt(Run(p, es, t), "", t, o)
  {
    hide InSync, Stamped, WellFormed, Run, PoolState.Available, PoolState.SharedReady, NextAccount, Begun;
    var n := |p.slots|;
    var x, z :| 0 <= x < z < n && Same(p.slots[x].acct, p.slots[z].acct);
    var first := OnEach(p.slots, n);
    OnEachBegins(p.slots, n);
    SecondStaysIdle(p, first, t, x, z);
    var q1 := Run(p, first, t);
    BeginsTakeNoTime(first, t, p.slots[0].acct, 0);
    AdmitsExactlyWhenOpen(q1, "", t, o);
    var c := NextAccount(q1, "", t, o).slot.value;
    var a := p.slots[c].acct;
    es := first + Again(a, n);
    SecondStaysIdle(p, es, t, x, z);
    BeginsTakeNoTime(es, t, p.slots[0].acct, 0);
    var q2 := Run(p, es, t);
    forall i | 0 <= i < n
      ensures Begun(first, p.slots[i].acct) >= 1 && Begun(es, p.slots[i].acct) >= 1
    {
      OnEachLoads(p.slots, n, i);
      BegunAppend(first, Again(a, n), p.slots[i].acct);
    }
    LoadedAlike(p, first, es, t);
    SamePick(q1, q2, t, o, z);
    var j := OtherAccount(p.slots, c);
    Busier(p.slots, c, j);
    LoadedCounts(p, es, t, c);
    LoadedCounts(p, es, t, j);
    BeginsOnlyCount(p, es, t);
    assert q2.slots[c].acct == a && q2.slots[j].acct == p.slots[j].acct;
  }

  lemma {:induction false} Busier(slots: seq<Slot>, c: nat, j: nat)
    requires c < |slots| && j < |slots| && !Same(slots[j].acct, slots[c].acct)
    ensures var es := OnEach(slots, |slots|) + Again(slots[c].acct, |slots|);
            Begun(es, slots[c].acct) > Begun(es, slots[j].acct)
  {
    var n, a, b := |slots|, slots[c].acct, slots[j].acct;
    BegunAppend(OnEach(slots, n), Again(a, n), a);
    BegunAppend(OnEach(slots, n), Again(a, n), b);
    AgainLoads(a, n, a);
    AgainLoads(a, n, b);
    OnEachLoads(slots, n, c);
    BegunAtMost(OnEach(slots, n), b);
  }

  lemma OtherAccount(slots: seq<Slot>, c: nat) returns (j: nat)
    requires c < |slots| && !OneAccount(slots)
    ensures j < |slots| && !Same(slots[j].acct, slots[c].acct)
  {
    var x, y :| 0 <= x < |slots| && 0 <= y < |slots| && !Same(slots[x].acct, slots[y].acct);
    j := if Same(slots[x].acct, slots[c].acct) then y else x;
  }

  // ---- Exactly which configurations spread -------------------------------------------------------------------

  lemma MixSpreads(p: Pool)
    requires OneSlotEach(p.slots) || OneAccount(p.slots)
    ensures Spreads(p)
  {
    forall es, t, id, now, o | Inv(p, t) && Clocked(es, t) && now >= After(t, es)
      ensures SpreadsAt(Run(p, es, t), id, now, o)
    {
      hide InSync, Stamped, WellFormed, Run, SpreadsAt;
      var q := Run(p, es, t);
      KeepsMix(p, q);
      if OneSlotEach(q.slots) {
        OffersLeastBusyAccount(q, id, now, o);
      } else {
        OneAccountSpreads(q, id, now, o);
      }
    }
  }

  /** Distinct accounts of weight 1. */
  ghost predicate AllSingle(accts: seq<Account>, k: nat)
    requires k <= |accts|
  {
    && (forall i :: 0 <= i < k ==> Weight(accts[i]) == 1)
    && forall i, j :: 0 <= i < j < k ==> !Same(accts[i], accts[j])
  }

  ghost predicate AllAlike(accts: seq<Account>) {
    forall i, j :: 0 <= i < |accts| && 0 <= j < |accts| ==> Same(accts[i], accts[j])
  }

  lemma AddedCount(l: Layout, a: Account)
    ensures |AddAccount(l, a).slots| == |l.slots| + Weight(a)
  {
  }

  lemma {:induction false} SingleLayout(l: Layout, accts: seq<Account>, k: nat)
    requires k <= |accts| && l.slots == [] && AllSingle(accts, k)
    ensures var r := Lay(l, accts, k).slots;
            |r| == k && forall i :: 0 <= i < k ==> r[i].acct == accts[i]
  {
    hide AddAccount;
    if k > 0 {
      SingleLayout(l, accts, k - 1);
      AddedSlots(Lay(l, accts, k - 1), accts[k - 1]);
      AddedCount(Lay(l, accts, k - 1), accts[k - 1]);
    }
  }

  /** Where account m's slots start. */
  lemma StartOf(l: Layout, accts: seq<Account>, m: nat) returns (x: nat)
    requires m < |accts|
    ensures x == |Lay(l, accts, m).slots|
    ensures var r := Lay(l, accts, |accts|).slots;
            x + Weight(accts[m]) <= |r| && forall i :: x <= i < x + Weight(accts[m]) ==> r[i].acct == accts[m]
  {
    hide AddAccount;
    x := |Lay(l, accts, m).slots|;
    AddedSlots(Lay(l, accts, m), accts[m]);
    AddedCount(Lay(l, accts, m), accts[m]);
    LayPrefix(l, accts, m + 1, |accts|);
  }

  lemma {:induction false} LaidFrom(l: Layout, accts: seq<Account>, k: nat, i: nat) returns (m: nat)
    requires k <= |accts| && l.slots == [] && i < |Lay(l, accts, k).slots|
    ensures m < k && Lay(l, accts, k).slots[i].acct == accts[m]
  {
    hide AddAccount;
    if k > 0 {
      AddedSlots(Lay(l, accts, k - 1), accts[k - 1]);
      if i < |Lay(l, accts, k - 1).slots| {
        m := LaidFrom(l, accts, k - 1, i);
      } else {
        m := k - 1;
      }
    }
  }

  lemma {:induction false} WeightDoubles(l: Layout, accts: seq<Account>, m: nat)
    requires m < |accts| && Weight(accts[m]) != 1
    ensures !OneSlotEach(Lay(l, accts, |accts|).slots)
  {
    hide Lay;
    var r := Lay(l, accts, |accts|).slots;
    var x := StartOf(l, accts, m);
    assert Same(r[x].acct, r[x + 1].acct);
  }

  lemma {:induction false} RepeatDoubles(l: Layout, accts: seq<Account>, i: nat, j: nat)
    requires i < j < |accts| && Same(accts[i], accts[j])
    ensures !OneSlotEach(Lay(l, accts, |accts|).slots)
  {
    var r := Lay(l, accts, |accts|).slots;
    var x := StartOf(l, accts, i);
    var y := StartOf(l, accts, j);
    AddedSlots(Lay(l, accts, i), accts[i]);
    LayPrefix(l, accts, i + 1, j);
    hide Lay, AddAccount;
    assert x < y && Same(r[x].acct, r[y].acct);
  }

  lemma {:induction false} SingleSlots(l: Layout, accts: seq<Account>)
    requires l.slots == []
    ensures OneSlotEach(Lay(l, accts, |accts|).slots) <==> AllSingle(accts, |accts|)
  {
    hide Lay;
    if AllSingle(accts, |accts|) {
      SingleLayout(l, accts, |accts|);
    } else if m :| 0 <= m < |accts| && Weight(accts[m]) != 1 {
      WeightDoubles(l, accts, m);
    } else {
      var i, j :| 0 <= i < j < |accts| && Same(accts[i], accts[j]);
      RepeatDoubles(l, accts, i, j);
    }
  }

  lemma {:induction false} AlikeSlots(l: Layout, accts: seq<Account>)
    requires l.slots == []
    ensures OneAccount(Lay(l, accts, |accts|).slots) <==> AllAlike(accts)
  {
    hide Lay;
    var r := Lay(l, accts, |accts|).slots;
    if AllAlike(accts) {
      forall i, j | 0 <= i < |r| && 0 <= j < |r|
        ensures Same(r[i].acct, r[j].acct)
      {
        var m := LaidFrom(l, accts, |accts|, i);
        var n := LaidFrom(l, accts, |accts|, j);
      }
    } else {
      var i, j :| 0 <= i < |accts| && 0 <= j < |accts| && !Same(accts[i], accts[j]);
      var x := StartOf(l, accts, i);
      var y := StartOf(l, accts, j);
      assert !Same(r[x].acct, r[y].acct);
    }
  }

  lemma NewPoolFresh(accts: seq<Account>, ttl: int, sharedRPM: int, policy: Policy, selection: Selection, t: int)
    requires t > 0
    ensures var p := NewPool(accts, ttl, sharedRPM, policy, selection);
            && Sound(p) && !BreakerOpen(p, t) && SharedReady(p, t) == 0
            && forall i :: 0 <= i < |p.slots| ==> p.slots[i].live == 0 && Available(p, i, t).Open?
  {
    hide Lay;
    NewPoolInv(accts, ttl, sharedRPM, policy, selection, t);
    var l := Base(sharedRPM);
    LayIsLaidOut(l, Configured(accts), |Configured(accts)|, |l.heap|, t);
    LayUnused(l, Configured(accts), |Configured(accts)|);
  }

  /** No bucket has been taken from. */
  ghost predicate Unused(heap: seq<Bucket>) {
    forall b :: 0 <= b < |heap| ==> heap[b].last == 0
  }

  lemma {:induction false} LayUnused(l: Layout, accts: seq<Account>, k: nat)
    requires k <= |accts| && Unused(l.heap)
    ensures Unused(Lay(l, accts, k).heap)
  {
    hide AddAccount;
    if k > 0 {
      LayUnused(l, accts, k - 1);
      AddedHeap(Lay(l, accts, k - 1), accts[k - 1]);
    }
  }

  lemma AddedHeap(l: Layout, a: Account)
    ensures AddAccount(l, a).heap == l.heap + if a.rpm > 0 then [NewBucket(a.rpm)] else []
  {
  }

  lemma NewPoolUnloaded(accts: seq<Account>, ttl: int, sharedRPM: int, policy: Policy, selection: Selection, t: int)
    requires t > 0
    ensures Unloaded(NewPool(accts, ttl, sharedRPM, policy, selection), t)
  {
    var p := NewPool(accts, ttl, sharedRPM, policy, selection);
    NewPoolInv(accts, ttl, sharedRPM, policy, selection, t);
    NewPoolFresh(accts, ttl, sharedRPM, policy, selection, t);
  }

  /** Exactly which configurations let no strategy stack calls on a busier account, over every run of
      the pool built from them and for every pick: all accounts distinct and of weight 1, or only one
      account. */
  lemma SpreadsExactlyWhen(accts: seq<Account>, ttl: int, sharedRPM: int, policy: Policy, selection: Selection)
    ensures Spreads(NewPool(accts, ttl, sharedRPM, policy, selection)) <==>
            AllSingle(Configured(accts), |Configured(accts)|) || AllAlike(Configured(accts))
  {
    hide Lay, OneSlotEach, OneAccount, AllSingle, AllAlike, SpreadsAt, Inv, Clocked, Run;
    var p := NewPool(accts, ttl, sharedRPM, policy, selection);
    SingleSlots(Base(sharedRPM), Configured(accts));
    AlikeSlots(Base(sharedRPM), Configured(accts));
    if OneSlotEach(p.slots) || OneAccount(p.slots) {
      MixSpreads(p);
    } else {
      NewPoolUnloaded(accts, ttl, sharedRPM, policy, selection, 1);
      var o := Oracle([], [], 0, 0, []);
      var es := SomeLoadStacks(p, 1, o);
      assert Inv(p, 1);
    }
  }

  /** Account a has weight 2 and two calls in flight, account b one. */
  function Stacked(): Pool {
    var a, b := Account("a", "k", 2, 0), Account("b", "l", 1, 0);
    Pool([FreshSlot(a, None).(live := 2), FreshSlot(a, None), FreshSlot(b, None).(live := 1)],
         [], None, 0, 0, map[], 0, 0, Policy(0, 0, 0, 0, 0), Fastest, [], 0)
  }

  /** Such a mix at work: calls are counted on an account's first slot only, so the second slot of a
      looks idle and the busier account is handed out. */
  lemma WeightStacksCalls(o: Oracle)
    ensures Sound(Stacked())
    ensures var r := NextAccount(Stacked(), "", 1, o);
            r.slot == Some(1)
            && Available(Stacked(), 2, 1).Open?
            && InFlight(Stacked(), Stacked().slots[1].acct) == 2 > 1 == InFlight(Stacked(), Stacked().slots[2].acct)
  {
    hide NextAccount;
    var p := Stacked();
    StackedOpen();
    AdmitsExactlyWhenOpen(p, "", 1, o);
    OffersLeastBusyOpenSlot(p, "", 1, o, 1);
  }

  lemma StackedOpen()
    ensures Sound(Stacked()) && !BreakerOpen(Stacked(), 1) && SomeOpen(Stacked(), 1) && SharedReady(Stacked(), 1) == 0
    ensures Available(Stacked(), 1, 1).Open? && Available(Stacked(), 2, 1).Open?
    ensures InFlight(Stacked(), Stacked().slots[1].acct) == 2 && InFlight(Stacked(), Stacked().slots[2].acct) == 1
  {
    assert Available(Stacked(), 1, 1).Open?;
    assert Stacked().slots[0].acct.name == "a" && Stacked().slots[2].acct.name == "b";
    assert "a"[0] != "b"[0];
  }
}
