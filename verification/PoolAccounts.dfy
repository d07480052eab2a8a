/**
  Configured accounts and their buckets: which slots share one, and the budget of one account over
  any run of the pool built from the configuration.
 */
module PoolAccounts {
  import opened Prelude
  import opened TokenBuckets
  import opened PoolState
  import opened PoolRuns
  import opened PoolBudgets

  /** The slots of one account point at one bucket, or at none. */
  ghost predicate OneBucketEach(slots: seq<Slot>) {
    forall i, j :: 0 <= i < |slots| && 0 <= j < |slots| && Same(slots[i].acct, slots[j].acct) ==>
      slots[i].bucket == slots[j].bucket
  }

  /** No bucket is pointed at by slots of two accounts. */
  ghost predicate NoneShared(slots: seq<Slot>) {
    forall i, j :: 0 <= i < |slots| && 0 <= j < |slots| && slots[i].bucket.Some? && slots[i].bucket == slots[j].bucket ==>
      Same(slots[i].acct, slots[j].acct)
  }

  /** No account with a budget repeats the name and key of an earlier one. */
  ghost predicate NoBudgetRepeats(accts: seq<Account>, k: nat)
    requires k <= |accts|
  {
    forall i, j :: 0 <= i < j < k && Same(accts[i], accts[j]) ==> accts[j].rpm <= 0
  }

  // ---- Laying out the slots ------------------------------------------------------------------------------

  function PairOf(a: Account): (string, string) {
    (a.name, a.key)
  }

  /** A bucket belongs to the account it was made for. */
  ghost predicate Owned(l: Layout) {
    && (forall q :: q in l.byAccount ==> l.byAccount[q] < |l.heap|)
    && (forall i :: 0 <= i < |l.slots| && l.slots[i].bucket.Some? ==> l.slots[i].bucket.value < |l.heap|)
    && (forall q, r :: q in l.byAccount && r in l.byAccount && l.byAccount[q] == l.byAccount[r] ==> q == r)
    && (forall i, q :: 0 <= i < |l.slots| && q in l.byAccount && l.slots[i].bucket == Some(l.byAccount[q]) ==>
          PairOf(l.slots[i].acct) == q)
    && NoneShared(l.slots)
  }

  /** What adding an account appends and enters. */
  lemma AddedSlots(l: Layout, a: Account)
    ensures var r := AddAccount(l, a);
            && |r.slots| > |l.slots| && l.slots <= r.slots && l.heap <= r.heap
            && (forall i :: |l.slots| <= i < |r.slots| ==>
                  r.slots[i].acct == a
                  && r.slots[i].bucket == if PairOf(a) in r.byAccount then Some(r.byAccount[PairOf(a)]) else None)
            && (a.rpm > 0 ==> r.byAccount == l.byAccount[PairOf(a) := |l.heap|] && |r.heap| == |l.heap| + 1)
            && (a.rpm <= 0 ==> r.byAccount == l.byAccount && r.heap == l.heap)
  {
  }

  lemma AddKeepsNoneShared(l: Layout, a: Account)
    requires Owned(l)
    ensures NoneShared(AddAccount(l, a).slots)
  {
    AddedSlots(l, a);
    hide AddAccount;
    var r := AddAccount(l, a);
    forall i, j | 0 <= i < |r.slots| && 0 <= j < |r.slots| && r.slots[i].bucket.Some? && r.slots[i].bucket == r.slots[j].bucket
      ensures Same(r.slots[i].acct, r.slots[j].acct)
    {
      if i < |l.slots| && j < |l.slots| {
        assert r.slots[i] == l.slots[i] && r.slots[j] == l.slots[j];
      }
    }
  }

  lemma AddKeepsOwned(l: Layout, a: Account)
    requires Owned(l)
    ensures Owned(AddAccount(l, a))
  {
    AddKeepsNoneShared(l, a);
    AddedSlots(l, a);
    hide AddAccount, NoneShared;
  }

  lemma {:induction false} LayOwned(l: Layout, accts: seq<Account>, k: nat)
    requires k <= |accts| && Owned(l)
    ensures Owned(Lay(l, accts, k))
  {
    if k > 0 {
      LayOwned(l, accts, k - 1);
      AddKeepsOwned(Lay(l, accts, k - 1), accts[k - 1]);
    }
  }

  /** Without repeats each slot points at its account's entry in the table, at its configured rate. */
  ghost predicate Tabled(l: Layout, accts: seq<Account>, k: nat)
    requires k <= |accts|
  {
    && (forall q :: q in l.byAccount ==> l.byAccount[q] < |l.heap|)
    && (forall i :: 0 <= i < |l.slots| ==>
          var a := l.slots[i].acct;
          && l.slots[i].bucket == (if PairOf(a) in l.byAccount then Some(l.byAccount[PairOf(a)]) else None)
          && (a.rpm > 0 ==> PairOf(a) in l.byAccount && l.heap[l.byAccount[PairOf(a)]] == NewBucket(a.rpm))
          && exists m :: 0 <= m < k && accts[m] == a)
  }

  lemma {:induction false} LayTabled(l: Layout, accts: seq<Account>, k: nat)
    requires k <= |accts| && NoBudgetRepeats(accts, k) && l.slots == [] && l.byAccount == map[]
    ensures Tabled(Lay(l, accts, k), accts, k)
  {
    hide AddAccount, Tabled;
    if k == 0 {
      EmptyTabled(l, accts);
    } else {
      LayTabled(l, accts, k - 1);
      AddKeepsTabled(Lay(l, accts, k - 1), accts, k - 1);
    }
  }

  lemma EmptyTabled(l: Layout, accts: seq<Account>)
    requires l.slots == [] && l.byAccount == map[]
    ensures Tabled(l, accts, 0)
  {
  }

  lemma AddKeepsTabled(l: Layout, accts: seq<Account>, k: nat)
    requires k < |accts| && NoBudgetRepeats(accts, k + 1) && Tabled(l, accts, k)
    ensures Tabled(AddAccount(l, accts[k]), accts, k + 1)
  {
    var a := accts[k];
    var r := AddAccount(l, a);
    forall i | 0 <= i < |r.slots|
      ensures var b := r.slots[i].acct;
              && r.slots[i].bucket == (if PairOf(b) in r.byAccount then Some(r.byAccount[PairOf(b)]) else None)
              && (b.rpm > 0 ==> PairOf(b) in r.byAccount && r.heap[r.byAccount[PairOf(b)]] == NewBucket(b.rpm))
              && exists m :: 0 <= m < k + 1 && accts[m] == b
    {
      if i < |l.slots| {
        assert r.slots[i] == l.slots[i];
        var m :| 0 <= m < k && accts[m] == l.slots[i].acct;
        assert a.rpm > 0 ==> !Same(accts[m], a);
      } else {
        assert r.slots[i].acct == accts[k];
      }
    }
  }

  lemma {:induction false} LayPrefix(l: Layout, accts: seq<Account>, m: nat, k: nat)
    requires m <= k <= |accts|
    ensures Lay(l, accts, m).slots <= Lay(l, accts, k).slots
    ensures |Lay(l, accts, m).heap| <= |Lay(l, accts, k).heap|
    decreases k - m
  {
    hide AddAccount;
    if m < k {
      LayPrefix(l, accts, m, k - 1);
      AddedSlots(Lay(l, accts, k - 1), accts[k - 1]);
    }
  }

  /** A repeated account with a budget of its own splits the account over two buckets. */
  lemma {:induction false} RepeatSplits(l: Layout, accts: seq<Account>, i: nat, j: nat)
    requires i < j < |accts| && Same(accts[i], accts[j]) && accts[j].rpm > 0 && Owned(l)
    ensures !OneBucketEach(Lay(l, accts, |accts|).slots)
  {
    hide AddAccount, OneBucketEach;
    var all := Lay(l, accts, |accts|).slots;
    var x, y := |Lay(l, accts, i).slots|, |Lay(l, accts, j).slots|;
    AddedSlots(Lay(l, accts, i), accts[i]);
    AddedSlots(Lay(l, accts, j), accts[j]);
    LayOwned(l, accts, i + 1);
    LayPrefix(l, accts, i + 1, j);
    LayPrefix(l, accts, i + 1, |accts|);
    LayPrefix(l, accts, j + 1, |accts|);
    assert all[x] == Lay(l, accts, i + 1).slots[x] && all[y] == Lay(l, accts, j + 1).slots[y];
    assert all[y].bucket == Some(|Lay(l, accts, j).heap|);
    SplitBuckets(all, x, y);
  }

  lemma SplitBuckets(slots: seq<Slot>, i: nat, j: nat)
    requires i < |slots| && j < |slots| && Same(slots[i].acct, slots[j].acct) && slots[i].bucket != slots[j].bucket
    ensures !OneBucketEach(slots)
  {
  }

  function Base(sharedRPM: int): Layout {
    Layout([], if sharedRPM > 0 then [NewBucket(sharedRPM)] else [], map[])
  }

  /** Which buckets a new pool's slots share: never one of two accounts, and one for all slots of an
      account exactly when no account with a budget repeats an earlier one's name and key. */
  lemma NewPoolBuckets(accts: seq<Account>, ttl: int, sharedRPM: int, policy: Policy, selection: Selection)
    ensures var p := NewPool(accts, ttl, sharedRPM, policy, selection);
            && NoneShared(p.slots)
            && (OneBucketEach(p.slots) <==> NoBudgetRepeats(Configured(accts), |Configured(accts)|))
  {
    hide Lay;
    var all := Configured(accts);
    LayOwned(Base(sharedRPM), all, |all|);
    if NoBudgetRepeats(all, |all|) {
      LayTabled(Base(sharedRPM), all, |all|);
    } else {
      var i, j :| 0 <= i < j < |all| && Same(all[i], all[j]) && all[j].rpm > 0;
      RepeatSplits(Base(sharedRPM), all, i, j);
    }
  }

  // ---- The budget of one account --------------------------------------------------------------------------

  /** Picks of the run that handed out the account. */
  ghost function AccountGrants(p: Pool, es: seq<Event>, t: int, a: Account): nat
    requires Inv(p, t) && Clocked(es, t)
    decreases |es|
  {
    if |es| == 0 then 0
    else
      StepKeepsInv(p, es[0], t);
      (if HandsOut(p, es[0], a) then 1 else 0) + AccountGrants(Step(p, es[0]), es[1..], Reading(es[0], t), a)
  }

  ghost predicate HandsOut(p: Pool, e: Event, a: Account)
    requires Sound(p)
  {
    && e.NextCall?
    && var r := NextAccount(p, e.id, e.now, e.o);
       r.slot.Some? && Same(p.slots[r.slot.value].acct, a)
  }

  lemma KeepsBuckets(p: Pool, q: Pool)
    requires SameShape(p, q)
    ensures OneBucketEach(p.slots) ==> OneBucketEach(q.slots)
    ensures NoneShared(p.slots) ==> NoneShared(q.slots)
  {
  }

  /** With one bucket each, the picks of an account are the charges of its bucket. */
  lemma {:induction false} AccountGrantsCharge(p: Pool, es: seq<Event>, t: int, i: nat, k: nat)
    requires Inv(p, t) && Clocked(es, t) && i < |p.slots| && p.slots[i].bucket == Some(k)
    requires OneBucketEach(p.slots) && NoneShared(p.slots)
    ensures AccountGrants(p, es, t, p.slots[i].acct) == Grants(p, es, t, k)
    decreases |es|
  {
    hide NextAccount, Step, InSync, Stamped, WellFormed;
    if |es| > 0 {
      StepKeepsInv(p, es[0], t);
      KeepsBuckets(p, Step(p, es[0]));
      AccountGrantsCharge(Step(p, es[0]), es[1..], Reading(es[0], t), i, k);
    }
  }

  /** A bucket that is charged at all refills from some instant of the run. */
  lemma {:induction false} OriginInRun(p: Pool, es: seq<Event>, t: int, k: nat)
    requires Inv(p, t) && Clocked(es, t) && k < |p.heap| && p.heap[k].last == 0
    ensures Grants(p, es, t, k) == 0 || Origin(p, es, t, k) >= t
    decreases |es|
  {
    hide NextAccount, Step, Charges, InSync, Stamped, WellFormed;
    if |es| > 0 {
      StepKeepsInv(p, es[0], t);
      if !Charges(p, es[0], k) {
        HeapStep(p, es[0], t, k);
        OriginInRun(Step(p, es[0]), es[1..], Reading(es[0], t), k);
      }
    }
  }

  /** The account's budget, over any run of the pool built from a configuration without repeats: an
      account whose rate divides a token evenly is handed out, on all its slots together, at most
      twice and once for every token's refill since the pool was built. */
  lemma {:induction false} AccountBudget(accts: seq<Account>, ttl: int, sharedRPM: int, policy: Policy, selection: Selection,
                      es: seq<Event>, t: int, i: nat)
    requires t > 0 && Clocked(es, t) && NoBudgetRepeats(accts, |accts|)
    requires i < |accts| && accts[i].rpm > 0 && TOKEN % accts[i].rpm == 0
    ensures var p := NewPool(accts, ttl, sharedRPM, policy, selection);
            Inv(p, t) && TOKEN * AccountGrants(p, es, t, accts[i]) <= 2 * TOKEN + accts[i].rpm * (After(t, es) - t)
  {
    hide Lay, Run, Grants, FreeGrants, AccountGrants, Origin, NextAccount, InSync, Stamped, Clocked, Same;
    var p := NewPool(accts, ttl, sharedRPM, policy, selection);
    NewPoolInv(accts, ttl, sharedRPM, policy, selection, t);
    NewPoolBuckets(accts, ttl, sharedRPM, policy, selection);
    var x := SlotOfAccount(accts, ttl, sharedRPM, policy, selection, i);
    var k := p.slots[x].bucket.value;
    AccountGrantsCharge(p, es, t, x, k);
    NewBucketAligned(accts[i].rpm);
    AlignedNeverFree(p, es, t, k);
    GrantBudget(p, es, t, k);
    OriginInRun(p, es, t, k);
    ClockRuns(es, t);
    if Grants(p, es, t, k) > 0 {
      Ordered(After(t, es) - Origin(p, es, t, k), After(t, es) - t, accts[i].rpm);
    } else {
      Ordered(0, After(t, es) - t, accts[i].rpm);
    }
  }

  /** Each configured account has a slot, with a full bucket at its rate. */
  lemma SlotOfAccount(accts: seq<Account>, ttl: int, sharedRPM: int, policy: Policy, selection: Selection, i: nat)
    returns (x: nat)
    requires NoBudgetRepeats(accts, |accts|) && i < |accts| && accts[i].rpm > 0
    ensures var p := NewPool(accts, ttl, sharedRPM, policy, selection);
            && x < |p.slots| && p.slots[x].acct == accts[i]
            && p.slots[x].bucket.Some? && p.slots[x].bucket.value < |p.heap|
            && p.heap[p.slots[x].bucket.value] == NewBucket(accts[i].rpm)
  {
    var l := Base(sharedRPM);
    x := |Lay(l, accts, i).slots|;
    AddedSlots(Lay(l, accts, i), accts[i]);
    LayPrefix(l, accts, i + 1, |accts|);
    LayTabled(l, accts, |accts|);
    hide AddAccount;
    assert Lay(l, accts, |accts|).slots[x] == Lay(l, accts, i + 1).slots[x];
  }
}
