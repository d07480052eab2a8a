/**
  The account pool as the mutable object the gateway keeps: each method is one operation under the
  pool's mutex, its fields are updated in place, and its contract ties the new state to the
  corresponding step in PoolState.
 */
module PoolObject {
  import opened Prelude
  import opened TokenBuckets
  import opened PoolState
  import PoolAdmission
  import PoolRuns

  class AccountPool {
    var accts: seq<Slot>
    const buckets: seq<TokenBucket>
    const shared: Option<nat>
    var rr: nat
    const ttl: int
    var sticky: map<string, Pin>
    var flapStrikes: nat
    var flapOpenUntil: int
    const policy: Policy
    const selection: Selection
    var deck: seq<nat>
    var deckPos: nat

    ghost function View(): Pool
      reads this, buckets
    {
      Pool(accts, Views(buckets), shared, rr, ttl, sticky, flapStrikes, flapOpenUntil, policy, selection, deck, deckPos)
    }

    ghost predicate Valid()
      reads this, buckets
    {
      && Sound(View())
      && Distinct(buckets)
    }

    constructor (accounts: seq<Account>, ttl: int, sharedRPM: int, policy: Policy, selection: Selection)
      ensures Valid() && forall i :: 0 <= i < |buckets| ==> fresh(buckets[i])
      ensures View() == NewPool(accounts, ttl, sharedRPM, policy, selection)
    {
      var accts := accounts;
      if |accts| == 0 {
        accts := [Account("default", "", 0, 0)];
      }
      var heap: seq<TokenBucket> := [];
      if sharedRPM > 0 {
        var b := new TokenBucket(sharedRPM);
        heap := [b];
      }
      assert Views(heap) == if sharedRPM > 0 then [NewBucket(sharedRPM)] else [];
      var slots, bs := LayOut(accts, heap);
      this.accts := slots;
      this.buckets := bs;
      this.shared := if sharedRPM > 0 then Some(0) else None;
      this.rr, this.ttl, this.sticky := 0, ttl, map[];
      this.flapStrikes, this.flapOpenUntil := 0, 0;
      this.policy, this.selection, this.deck, this.deckPos := policy, selection, [], 0;
      new;
      PoolRuns.NewPoolInv(accounts, ttl, sharedRPM, policy, selection, 1);
    }

    /** The slots of every account, weight by weight, and the buckets they share. */
    static method LayOut(accts: seq<Account>, shared: seq<TokenBucket>)
      returns (slots: seq<Slot>, heap: seq<TokenBucket>)
      requires Distinct(shared)
      ensures Distinct(heap) && shared <= heap
      ensures forall i :: |shared| <= i < |heap| ==> fresh(heap[i])
      ensures var l := Lay(Layout([], old(Views(shared)), map[]), accts, |accts|);
              slots == l.slots && Views(heap) == l.heap
    {
      heap := shared;
      ghost var base := Layout([], Views(shared), map[]);
      slots := [];
      var byAccount: map<(string, string), nat> := map[];
      for k := 0 to |accts|
        invariant Distinct(heap) && shared <= heap
        invariant forall i :: |shared| <= i < |heap| ==> fresh(heap[i])
        invariant Lay(base, accts, k) == Layout(slots, Views(heap), byAccount)
      {
        var a := accts[k];
        if a.rpm > 0 {
          var b := new TokenBucket(a.rpm);
          ghost var was := Views(heap);
          byAccount := byAccount[(a.name, a.key) := |heap|];
          heap := heap + [b];
          assert Views(heap) == was + [NewBucket(a.rpm)];
        }
        var bucket := if (a.name, a.key) in byAccount then Some(byAccount[(a.name, a.key)]) else None;
        slots := AppendCopies(slots, FreshSlot(a, bucket), a.weight);
      }
    }

    static method AppendCopies(slots: seq<Slot>, s: Slot, weight: int) returns (r: seq<Slot>)
      ensures r == slots + Copies(s, if weight <= 0 then 1 else weight)
    {
      r := slots;
      var w := weight;
      if w <= 0 {
        w := 1;
      }
      for c := 0 to w
        invariant r == slots + Copies(s, c)
      {
        r := r + [s];
      }
    }

    /** Whether slot i may take a call now; when it may not, the instant it reports instead. */
    method Available(i: nat, now: int) returns (v: Verdict)
      requires Valid() && i < |accts|
      ensures v == PoolState.Available(View(), i, now)
    {
      var s := accts[i];
      if s.invalidated {
        if s.invalidatedAt == 0 {
          return Blocked(0);
        }
        var gate := s.invalidatedAt + Parole(policy);
        if now < gate {
          return Blocked(gate);
        }
      }
      var cool := s.cooldown != 0 && !(now > s.cooldown);
      if s.bucket == None {
        return if cool then Blocked(s.cooldown) else Open;
      }
      assert View().heap[s.bucket.value].rpm > 0;
      var r := buckets[s.bucket.value].RefillInstant(now);
      if cool {
        var serve := s.cooldown;
        if r > serve {
          serve := r;
        }
        return Blocked(serve);
      }
      return if r > now then Blocked(r) else Open;
    }

    method SharedReady(now: int) returns (r: int)
      requires Valid()
      ensures r == PoolState.SharedReady(View(), now)
    {
      if shared == None {
        return 0;
      }
      assert View().heap[shared.value].rpm > 0;
      r := buckets[shared.value].RefillInstant(now);
      if !(r > now) {
        r := 0;
      }
    }

    method TakeFrom(k: Option<nat>, now: int)
      requires Valid() && (k.Some? ==> k.value < |buckets|)
      modifies buckets
      ensures Valid()
      ensures View() == old(View()).(heap := PoolState.TakeFrom(old(View()).heap, k, now))
    {
      if k.Some? {
        assert View().heap[k.value].rpm > 0;
        var _ := buckets[k.value].Take(now);
        assert forall j :: 0 <= j < |buckets| && j != k.value ==> buckets[j] != buckets[k.value];
      }
      assert Views(buckets) == PoolState.TakeFrom(old(View()).heap, k, now);
    }

    method Grant(i: nat, now: int)
      requires Valid() && i < |accts|
      modifies this`accts, buckets
      ensures Valid()
      ensures View() == PoolState.Grant(old(View()), i, now)
    {
      ghost var p := View();
      accts := accts[i := accts[i].(lastUsed := now)];
      TakeFrom(shared, now);
      TakeFrom(accts[i].bucket, now);
    }

    method DeckPick(open: seq<nat>, shuffle: seq<nat>) returns (slot: nat)
      requires |open| > 0
      modifies this`deck, this`deckPos
      ensures Picked(slot, deck, deckPos) == PoolState.DeckPick(old(deck), old(deckPos), open, |accts|, shuffle)
    {
      for tries := 0 to 2
        invariant tries == 0 ==> deck == old(deck) && deckPos == old(deckPos)
        invariant tries >= 1 ==> deck == Shuffled(|accts|, shuffle) && deckPos == 0
        invariant tries >= 1 ==> DeckScan(old(deck), old(deckPos), open) >= |old(deck)|
        invariant tries >= 2 ==> DeckScan(Shuffled(|accts|, shuffle), 0, open) >= |Shuffled(|accts|, shuffle)|
      {
        ghost var from, d := deckPos, deck;
        while deckPos < |deck|
          invariant deck == d
          invariant DeckScan(deck, from, open) == DeckScan(deck, deckPos, open)
          decreases |deck| - deckPos
        {
          var i := deck[deckPos];
          deckPos := deckPos + 1;
          if i in open {
            return i;
          }
        }
        deck := Shuffled(|accts|, shuffle);
        deckPos := 0;
      }
      slot := open[0];
    }

    method LeastUsed(open: seq<nat>) returns (best: nat)
      requires |open| > 1 && InRange(open, |accts|)
      ensures best == LeastUsedFrom(accts, open, 1, open[0])
    {
      best := open[0];
      for j := 1 to |open|
        invariant best < |accts|
        invariant LeastUsedFrom(accts, open, 1, open[0]) == LeastUsedFrom(accts, open, j, best)
      {
        var a, b := accts[open[j]].lastUsed, accts[best].lastUsed;
        if a == 0 {
          return open[j];
        }
        if b == 0 {
          continue;
        }
        if a < b {
          best := open[j];
        }
      }
    }

    method Fastest(open: seq<nat>, o: Oracle) returns (best: nat)
      requires |open| > 1
      ensures best == FastestFrom(open, o, 1, open[0])
    {
      best := open[0];
      for j := 1 to |open|
        invariant FastestFrom(open, o, 1, open[0]) == FastestFrom(open, o, j, best)
      {
        if At(o.tps, open[j]) > At(o.tps, best) {
          best := open[j];
        }
      }
    }

    /** The least busy of the candidates. */
    method Narrow(open: seq<nat>) returns (idle: seq<nat>)
      requires |open| > 0 && InRange(open, |accts|)
      ensures idle == Idle(accts, open, MinLive(accts, open, |open|), |open|)
    {
      var minLive := accts[open[0]].live;
      for j := 1 to |open|
        invariant minLive == MinLive(accts, open, j)
      {
        if accts[open[j]].live < minLive {
          minLive := accts[open[j]].live;
        }
      }
      idle := [];
      for j := 0 to |open|
        invariant idle == Idle(accts, open, minLive, j)
      {
        if accts[open[j]].live == minLive {
          idle := idle + [open[j]];
        }
      }
    }

    method Choose(open: seq<nat>, o: Oracle) returns (slot: nat)
      requires |open| > 1 && InRange(open, |accts|)
      modifies this`deck, this`deckPos
      ensures Picked(slot, deck, deckPos) == PoolState.Choose(old(View()), open, o)
    {
      match selection {
        case LeastUsed => slot := LeastUsed(open);
        case Random => slot := open[o.pick1 % |open|];
        case StrictRandom => slot := DeckPick(open, o.shuffle);
        case P2C =>
          if |open| == 2 {
            slot := Cheaper(o, open[0], open[1]);
          } else {
            var i := o.pick1 % |open|;
            var j := o.pick2 % (|open| - 1);
            if j >= i {
              j := j + 1;
            }
            slot := Cheaper(o, open[i], open[j]);
          }
        case Fastest => slot := Fastest(open, o);
      }
    }

    method PickSlot(candidates: seq<nat>, o: Oracle) returns (slot: nat)
      requires |candidates| > 0 && InRange(candidates, |accts|)
      modifies this`deck, this`deckPos
      ensures Picked(slot, deck, deckPos) == PoolState.PickSlot(old(View()), candidates, o)
    {
      hide PoolState.Choose, Idle, MinLive;
      var open := candidates;
      if |open| == 1 {
        return open[0];
      }
      var idle := Narrow(open);
      if |idle| > 0 {
        open := idle;
      }
      if |open| == 1 {
        return open[0];
      }
      slot := Choose(open, o);
    }

    /** Drops expired pins. */
    method Sweep(now: int)
      modifies this`sticky
      ensures sticky == map k | k in old(sticky) && now <= old(sticky)[k].expires :: old(sticky)[k]
    {
      var todo := sticky.Keys;
      while todo != {}
        invariant todo <= sticky.Keys <= old(sticky).Keys
        invariant forall k :: k in sticky ==> sticky[k] == old(sticky)[k]
        invariant forall k :: k in old(sticky) && k !in todo ==> (k in sticky <==> now <= old(sticky)[k].expires)
      {
        var k :| k in todo;
        if now > sticky[k].expires {
          sticky := sticky - {k};
        }
        todo := todo - {k};
      }
    }

    method PinTo(id: string, a: Account, now: int)
      modifies this`sticky
      ensures sticky == PinUpdate(old(sticky), ttl, id, a, now)
    {
      var d := PinTTL(ttl, id);
      if d <= 0 {
        return;
      }
      if |sticky| >= MAX_STICKY_PINS {
        Sweep(now);
        if |sticky| >= MAX_STICKY_PINS {
          sticky := map[];
        }
      }
      sticky := sticky[id := Pin(a.name, a.key, now + d)];
    }

    method ConsultPin(id: string, now: int) returns (advice: PinAdvice)
      requires Valid()
      ensures advice == PoolState.ConsultPin(View(), id, now)
    {
      if PinTTL(ttl, id) > 0 && id in sticky && now < sticky[id].expires {
        var pin := sticky[id];
        for i := 0 to |accts|
          invariant FirstSlot(accts, pin.name, pin.key, 0) == FirstSlot(accts, pin.name, pin.key, i)
        {
          if accts[i].acct.name == pin.name && accts[i].acct.key == pin.key {
            var v := Available(i, now);
            var sharedAt := SharedReady(now);
            if v == Open && sharedAt == 0 {
              return if accts[i].live == 0 then Serve(i) else Spread;
            }
            return RotateFrom(i + 1);
          }
        }
      }
      return RotateFrom(rr);
    }

    /** The rotation scan: the open slots in order and the soonest refusal instant. */
    method CollectOpen(start: nat, now: int) returns (open: seq<nat>, soonest: int)
      requires Valid()
      ensures open == Scan(View(), start, now, |accts|)
      ensures soonest == Soonest(View(), start, now, |accts|)
    {
      open, soonest := [], 0;
      for k := 0 to |accts|
        invariant open == Scan(View(), start, now, k)
        invariant soonest == Soonest(View(), start, now, k)
      {
        var i := (start + k) % |accts|;
        var v := Available(i, now);
        if v == Open {
          open := open + [i];
        } else if v.ready != 0 {
          if soonest == 0 || v.ready < soonest {
            soonest := v.ready;
          }
        }
      }
    }

    method Admit(id: string, now: int, keepPin: bool, open: seq<nat>, o: Oracle) returns (slot: nat)
      requires Valid() && |open| > 0 && InRange(open, |accts|)
      modifies this, buckets
      ensures Valid()
      ensures Offer(View(), Some(slot), 0) == PoolState.Admit(old(View()), id, now, keepPin, open, o)
    {
      hide PoolState.PickSlot, PinUpdate;
      PickInOpen(View(), open, o);
      slot := PickSlot(open, o);
      Grant(slot, now);
      rr := (slot + 1) % |accts|;
      if !keepPin {
        PinTo(id, accts[slot].acct, now);
      }
    }

    /** Picks the account for one request, or reports when to come back.  With PoolAdmission this
        says when it succeeds and what the ready instant is worth. */
    method Next(id: string, now: int, o: Oracle) returns (chosen: Option<nat>, ready: int)
      requires Valid()
      modifies this, buckets
      ensures Valid()
      ensures Offer(View(), chosen, ready) == NextAccount(old(View()), id, now, o)
    {
      hide PoolState.Available, PoolState.SharedReady, PoolState.Admit, PoolState.ConsultPin;
      ghost var p := View();
      if flapOpenUntil != 0 && now < flapOpenUntil {
        return None, flapOpenUntil;
      }
      var advice := ConsultPin(id, now);
      if advice.Serve? {
        Grant(advice.slot, now);
        return Some(advice.slot), 0;
      }
      var keepPin := advice == Spread;
      if PinTTL(ttl, id) > 0 && !keepPin {
        sticky := sticky - {id};
      }
      var start := if advice.RotateFrom? then advice.start else rr;
      ghost var q := View();
      StickyIrrelevant(p, q, start, now, |accts|);
      var open, soonest := CollectOpen(start, now);
      var sharedAt := SharedReady(now);
      if |open| > 0 && sharedAt == 0 {
        var slot := Admit(id, now, keepPin, open, o);
        return Some(slot), 0;
      }
      ready := soonest;
      if sharedAt != 0 && (|open| > 0 || soonest == 0 || sharedAt > soonest) {
        ready := sharedAt;
      }
      return None, ready;
    }

    /** The index of the account's first slot. */
    method SlotOf(a: Account) returns (r: Option<nat>)
      ensures r == FirstSlot(accts, a.name, a.key, 0)
    {
      for i := 0 to |accts|
        invariant FirstSlot(accts, a.name, a.key, 0) == FirstSlot(accts, a.name, a.key, i)
      {
        if accts[i].acct.name == a.name && accts[i].acct.key == a.key {
          return Some(i);
        }
      }
      return None;
    }

    method BeginCall(a: Account) returns (depth: nat)
      requires Valid()
      modifies this`accts
      ensures Valid()
      ensures View() == Begin(old(View()), a)
      ensures depth > 0 <==> FirstSlot(accts, a.name, a.key, 0).Some?
    {
      var f := SlotOf(a);
      if f == None {
        return 0;
      }
      var s := accts[f.value];
      accts := accts[f.value := s.(live := s.live + 1)];
      ShapeOfFirst(old(accts), accts, a, 0);
      return s.live + 1;
    }

    method EndCall(a: Account)
      requires Valid()
      modifies this`accts
      ensures Valid()
      ensures View() == End(old(View()), a)
    {
      var f := SlotOf(a);
      if f.Some? && accts[f.value].live > 0 {
        var s := accts[f.value];
        accts := accts[f.value := s.(live := s.live - 1)];
      }
    }

    /** One pass over the slots: every slot of the account takes the mark. */
    method MarkAll(a: Account, m: Mark) returns (newly: bool, cleared: bool)
      requires Valid()
      modifies this`accts
      ensures Valid()
      ensures View() == old(View()).(slots := OnAccount(old(accts), a, m))
      ensures newly == exists i :: 0 <= i < |old(accts)| && Same(old(accts)[i].acct, a) && !old(accts)[i].invalidated
      ensures cleared == exists i :: 0 <= i < |old(accts)| && Same(old(accts)[i].acct, a) && old(accts)[i].invalidated
    {
      newly, cleared := false, false;
      for i := 0 to |accts|
        invariant |accts| == |old(accts)|
        invariant forall j :: 0 <= j < i ==>
          accts[j] == if Same(old(accts)[j].acct, a) then Touch(old(accts)[j], m) else old(accts)[j]
        invariant forall j :: i <= j < |accts| ==> accts[j] == old(accts)[j]
        invariant newly == exists j :: 0 <= j < i && Same(old(accts)[j].acct, a) && !old(accts)[j].invalidated
        invariant cleared == exists j :: 0 <= j < i && Same(old(accts)[j].acct, a) && old(accts)[j].invalidated
      {
        var s := accts[i];
        if Same(s.acct, a) {
          if s.invalidated {
            cleared := true;
          } else {
            newly := true;
          }
          accts := accts[i := Touch(s, m)];
        }
      }
      assert accts == OnAccount(old(accts), a, m);
    }

    /** A successful call that began at `since`. */
    method Ok(a: Account, since: int)
      requires Valid()
      modifies this`accts
      ensures Valid() && View() == PoolRuns.Step(old(View()), PoolRuns.Ok(a, since))
    {
      var _, _ := MarkAll(a, Served(since));
    }

    method RateLimited(a: Account, retryAfter: int, now: int)
      requires Valid()
      modifies this`accts
      ensures Valid() && View() == PoolRuns.Step(old(View()), PoolRuns.Hit429(a, retryAfter, now))
    {
      var f := SlotOf(a);
      if f == None {
        return;
      }
      var cur := accts[f.value].strikes;
      var d := retryAfter;
      if d <= 0 {
        d := LadderBase(policy) * Power2(if cur < 3 then cur else 3);
        if d > LadderCap(policy) {
          d := LadderCap(policy);
        }
      }
      var _, _ := MarkAll(a, Strike(cur + 1, d, now));
    }

    method CoolFor(a: Account, d: int, now: int)
      requires Valid()
      modifies this`accts
      ensures Valid() && View() == PoolRuns.Step(old(View()), PoolRuns.Cool(a, d, now))
    {
      var _, _ := MarkAll(a, Park(d, now));
    }

    /** True when the account was not already terminal on some slot. */
    method Invalidate(a: Account, now: int) returns (newly: bool)
      requires Valid()
      modifies this`accts
      ensures Valid() && View() == PoolRuns.Step(old(View()), PoolRuns.Invalidate(a, now))
      ensures newly == exists i :: 0 <= i < |old(accts)| && Same(old(accts)[i].acct, a) && !old(accts)[i].invalidated
    {
      var cleared;
      newly, cleared := MarkAll(a, Refuse(now));
    }

    method Revalidate(a: Account) returns (cleared: bool)
      requires Valid()
      modifies this`accts
      ensures Valid() && View() == PoolRuns.Step(old(View()), PoolRuns.Revalidate(a))
      ensures cleared == exists i :: 0 <= i < |old(accts)| && Same(old(accts)[i].acct, a) && old(accts)[i].invalidated
    {
      var newly;
      newly, cleared := MarkAll(a, Reset);
    }

    method StrikeEdge(now: int)
      requires Valid()
      modifies this`flapStrikes, this`flapOpenUntil
      ensures Valid() && View() == PoolRuns.Step(old(View()), PoolRuns.EdgeFault(now))
    {
      flapStrikes := flapStrikes + 1;
      if flapStrikes >= FlapTrip(policy) {
        var t := now + FlapPark(policy);
        if t > flapOpenUntil {
          flapOpenUntil := t;
        }
      }
    }

    method HealEdge()
      requires Valid()
      modifies this`flapStrikes, this`flapOpenUntil
      ensures Valid() && View() == PoolRuns.Step(old(View()), PoolRuns.EdgeHeal)
    {
      flapStrikes, flapOpenUntil := 0, 0;
    }

    method Unpin(id: string)
      requires Valid()
      modifies this`sticky
      ensures Valid() && View() == PoolRuns.Step(old(View()), PoolRuns.Unpin(id))
    {
      if id == "" {
        return;
      }
      sticky := sticky - {id};
    }
  }

  ghost function Views(bs: seq<TokenBucket>): (h: seq<Bucket>)
    reads bs
    ensures |h| == |bs| && forall i :: 0 <= i < |h| ==> h[i] == bs[i].View()
  {
    seq(|bs|, i requires 0 <= i < |bs| reads bs => bs[i].View())
  }

  /** The scan reads the gates only. */
  lemma {:induction false} StickyIrrelevant(p: Pool, q: Pool, start: nat, now: int, k: nat)
    requires Sound(p) && q == p.(sticky := q.sticky)
    ensures Scan(q, start, now, k) == Scan(p, start, now, k)
    ensures Soonest(q, start, now, k) == Soonest(p, start, now, k)
    ensures PoolState.SharedReady(q, now) == PoolState.SharedReady(p, now)
  {
    if k > 0 {
      StickyIrrelevant(p, q, start, now, k - 1);
      var i := (start + k - 1) % |p.slots|;
      assert PoolState.Available(q, i, now) == PoolState.Available(p, i, now);
    }
  }

  lemma {:induction false} ShapeOfFirst(s: seq<Slot>, r: seq<Slot>, a: Account, from: nat)
    requires |s| == |r| && from <= |s|
    requires forall i :: 0 <= i < |s| ==> s[i].acct == r[i].acct
    ensures FirstSlot(s, a.name, a.key, from) == FirstSlot(r, a.name, a.key, from)
    decreases |s| - from
  {
    if from < |s| {
      ShapeOfFirst(s, r, a, from + 1);
    }
  }
}
