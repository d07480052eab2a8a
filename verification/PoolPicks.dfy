/**
  What selection and pinning promise over several calls: the strict-random deck, and pins that survive
  other traffic.
 */
module PoolPicks {
  import opened Prelude
  import opened TokenBuckets
  import opened PoolState
  import opened PoolAdmission
  import opened PoolRuns

  // ---- A deck serves each slot once ------------------------------------------------------------------------

  ghost function Elements(s: seq<nat>): (r: set<nat>)
    ensures |r| <= |s| && forall x :: x in r <==> x in s
  {
    if |s| == 0 then {} else Elements(s[1..]) + {s[0]}
  }

  ghost function Upto(n: nat): (r: set<nat>)
    ensures |r| == n && forall x :: x in r <==> 0 <= x < n
  {
    if n == 0 then {} else Upto(n - 1) + {n - 1}
  }

  /** A list of n slots that holds each of the n holds none twice. */
  lemma DeckIsDistinct(d: seq<nat>, n: nat)
    requires IsDeck(d, n)
    ensures Distinct(d)
  {
    forall i, j | 0 <= i < j < |d|
      ensures d[i] != d[j]
    {
      if d[i] == d[j] {
        var rest := d[..j] + d[j + 1..];
        forall x: nat | x < n
          ensures x in rest
        {
          assert x in d;
          var y :| 0 <= y < |d| && d[y] == x;
          assert rest[if y == j then i else if y < j then y else y - 1] == x;
        }
        SubsetSize(Upto(n), Elements(rest));
        assert false;
      }
    }
  }

  /** One deck pick. */
  datatype Deal = Deal(open: seq<nat>, shuffle: seq<nat>)

  /** Successive deck picks. */
  function Pickings(deck: seq<nat>, pos: nat, n: nat, deals: seq<Deal>): (ps: seq<Picked>)
    requires forall k :: 0 <= k < |deals| ==> |deals[k].open| > 0
    ensures |ps| == |deals|
    decreases |deals|
  {
    if |deals| == 0 then []
    else
      var p := DeckPick(deck, pos, deals[0].open, n, deals[0].shuffle);
      [p] + Pickings(p.deck, p.deckPos, n, deals[1..])
  }

  /** How many of them the deck serves before it has to be reshuffled. */
  function Served(deck: seq<nat>, pos: nat, deals: seq<Deal>): (m: nat)
    requires pos <= |deck|
    ensures m <= |deals|
    decreases |deals|
  {
    if |deals| == 0 then 0
    else
      var j := DeckScan(deck, pos, deals[0].open);
      if j >= |deck| then 0 else 1 + Served(deck, j + 1, deals[1..])
  }

  /** Where in the deck the k-th of those comes from. */
  function Spot(deck: seq<nat>, pos: nat, deals: seq<Deal>, k: nat): nat
    requires pos <= |deck| && k < Served(deck, pos, deals)
    decreases k
  {
    var j := DeckScan(deck, pos, deals[0].open);
    if k == 0 then j else Spot(deck, j + 1, deals[1..], k - 1)
  }

  lemma {:induction false} SpotServes(deck: seq<nat>, pos: nat, n: nat, deals: seq<Deal>, k: nat)
    requires pos <= |deck| && k < Served(deck, pos, deals)
    requires forall l :: 0 <= l < |deals| ==> |deals[l].open| > 0
    ensures var x := Spot(deck, pos, deals, k);
            pos <= x < |deck| && Pickings(deck, pos, n, deals)[k] == Picked(deck[x], deck, x + 1)
    decreases k
  {
    DeckScanFrom(deck, pos, deals[0].open);
    if k > 0 {
      SpotServes(deck, DeckScan(deck, pos, deals[0].open) + 1, n, deals[1..], k - 1);
    }
  }

  lemma {:induction false} SpotsGrow(deck: seq<nat>, pos: nat, n: nat, deals: seq<Deal>, k: nat, l: nat)
    requires pos <= |deck| && k < l < Served(deck, pos, deals)
    requires forall i :: 0 <= i < |deals| ==> |deals[i].open| > 0
    ensures Spot(deck, pos, deals, k) < Spot(deck, pos, deals, l)
    decreases k
  {
    DeckScanFrom(deck, pos, deals[0].open);
    var j := DeckScan(deck, pos, deals[0].open);
    if k > 0 {
      SpotsGrow(deck, j + 1, n, deals[1..], k - 1, l - 1);
    } else {
      SpotServes(deck, j + 1, n, deals[1..], l - 1);
    }
  }

  lemma {:induction false} ScanStopsFirst(deck: seq<nat>, pos: nat, open: seq<nat>, k: nat)
    requires pos <= k < |deck| && deck[k] in open
    ensures DeckScan(deck, pos, open) <= k
    decreases |deck| - pos
  {
    if deck[pos] !in open {
      ScanStopsFirst(deck, pos + 1, open, k);
    }
  }

  lemma {:induction false} OpenSpotServed(deck: seq<nat>, pos: nat, deals: seq<Deal>, x: nat) returns (k: nat)
    requires pos <= x < |deck| && Served(deck, pos, deals) < |deals|
    requires forall l :: 0 <= l <= Served(deck, pos, deals) ==> deck[x] in deals[l].open
    ensures k < Served(deck, pos, deals) && Spot(deck, pos, deals, k) == x
    decreases |deals|
  {
    var j := DeckScan(deck, pos, deals[0].open);
    DeckScanFrom(deck, pos, deals[0].open);
    ScanStopsFirst(deck, pos, deals[0].open, x);
    if j == x {
      k := 0;
    } else {
      var i := OpenSpotServed(deck, j + 1, deals[1..], x);
      k := i + 1;
    }
  }

  /** An entry the deck passes over, because its slot is closed, is not retried from this deck. */
  lemma {:induction false} PassedOverIsLost(deck: seq<nat>, pos: nat, n: nat, deals: seq<Deal>, x: nat, k: nat, l: nat)
    requires pos <= |deck| && k < Served(deck, pos, deals) && l < Served(deck, pos, deals)
    requires forall i :: 0 <= i < |deals| ==> |deals[i].open| > 0
    requires x < Spot(deck, pos, deals, k)
    requires forall i :: 0 <= i < k ==> Spot(deck, pos, deals, i) != x
    ensures Spot(deck, pos, deals, l) != x
  {
    hide Spot, Served;
    if l > k {
      SpotsGrow(deck, pos, n, deals, k, l);
    }
  }

  /** strict-random wears the slots evenly: the picks a deck serves from where it stands are all
      different, and a slot still in it that is open at each of them, and at the one that forces the
      reshuffle, is among them. */
  lemma {:induction false} OncePerDeck(deck: seq<nat>, pos: nat, n: nat, deals: seq<Deal>, slot: nat)
    requires IsDeck(deck, n) && pos <= n
    requires forall k :: 0 <= k < |deals| ==> |deals[k].open| > 0
    ensures var ps, m := Pickings(deck, pos, n, deals), Served(deck, pos, deals);
            && (forall k :: 0 <= k < m ==> ps[k].deck == deck)
            && (forall k, l :: 0 <= k < l < m ==> ps[k].slot != ps[l].slot)
            && (m < |deals| && slot in deck[pos..] && (forall k :: 0 <= k <= m ==> slot in deals[k].open) ==>
                  exists k :: 0 <= k < m && ps[k].slot == slot)
  {
    hide Pickings, Served, Spot;
    DeckIsDistinct(deck, n);
    var ps, m := Pickings(deck, pos, n, deals), Served(deck, pos, deals);
    forall k | 0 <= k < m
      ensures ps[k].deck == deck
    {
      SpotServes(deck, pos, n, deals, k);
    }
    forall k, l | 0 <= k < l < m
      ensures ps[k].slot != ps[l].slot
    {
      SpotServes(deck, pos, n, deals, k);
      SpotServes(deck, pos, n, deals, l);
      SpotsGrow(deck, pos, n, deals, k, l);
    }
    if m < |deals| && slot in deck[pos..] && forall k :: 0 <= k <= m ==> slot in deals[k].open {
      var y :| 0 <= y < |deck[pos..]| && deck[pos..][y] == slot;
      var k := OpenSpotServed(deck, pos, deals, pos + y);
      SpotServes(deck, pos, n, deals, k);
    }
  }

  /** The pick that finds the deck used up starts a fresh one. */
  lemma {:induction false} ReshuffleRestarts(deck: seq<nat>, pos: nat, n: nat, deals: seq<Deal>)
    requires pos <= |deck| && Served(deck, pos, deals) < |deals|
    requires forall k :: 0 <= k < |deals| ==> |deals[k].open| > 0 && InRange(deals[k].open, n)
    ensures var m := Served(deck, pos, deals);
            Pickings(deck, pos, n, deals)[m..] == Pickings(Shuffled(n, deals[m].shuffle), 0, n, deals[m..])
    decreases |deals|
  {
    hide Pickings, Served, DeckScan, DeckPick, Shuffled, IsDeck;
    var j := DeckScan(deck, pos, deals[0].open);
    DeckScanFrom(deck, pos, deals[0].open);
    if j < |deck| {
      ServedStep(deck, pos, n, deals);
      ReshuffleRestarts(deck, j + 1, n, deals[1..]);
      var m := Served(deck, j + 1, deals[1..]);
      assert deals[1..][m..] == deals[m + 1..] && deals[1..][m] == deals[m + 1];
    } else {
      FreshDeal(deck, pos, n, deals);
    }
  }

  lemma ServedStep(deck: seq<nat>, pos: nat, n: nat, deals: seq<Deal>)
    requires pos <= |deck| && |deals| > 0 && DeckScan(deck, pos, deals[0].open) < |deck|
    requires forall k :: 0 <= k < |deals| ==> |deals[k].open| > 0
    ensures var j := DeckScan(deck, pos, deals[0].open);
            var m := Served(deck, j + 1, deals[1..]);
            && Served(deck, pos, deals) == m + 1
            && Pickings(deck, pos, n, deals)[m + 1..] == Pickings(deck, j + 1, n, deals[1..])[m..]
  {
    hide DeckScan;
    var j := DeckScan(deck, pos, deals[0].open);
    var p := DeckPick(deck, pos, deals[0].open, n, deals[0].shuffle);
    assert p == Picked(deck[j], deck, j + 1);
    var rest := Pickings(deck, j + 1, n, deals[1..]);
    assert Pickings(deck, pos, n, deals) == [p] + rest;
  }

  lemma {:induction false} FreshDeal(deck: seq<nat>, pos: nat, n: nat, deals: seq<Deal>)
    requires pos <= |deck| && |deals| > 0 && DeckScan(deck, pos, deals[0].open) >= |deck|
    requires forall k :: 0 <= k < |deals| ==> |deals[k].open| > 0 && InRange(deals[k].open, n)
    ensures Served(deck, pos, deals) == 0
    ensures Pickings(deck, pos, n, deals) == Pickings(Shuffled(n, deals[0].shuffle), 0, n, deals)
    ensures Pickings(deck, pos, n, deals)[0..] == Pickings(deck, pos, n, deals) && deals[0..] == deals
  {
    var d := Shuffled(n, deals[0].shuffle);
    DeckAlwaysHits(deck, pos, deals[0].open, n, deals[0].shuffle);
    assert DeckPick(deck, pos, deals[0].open, n, deals[0].shuffle) == DeckPick(d, 0, deals[0].open, n, deals[0].shuffle);
  }

  // ---- Deck picks made through next ----------------------------------------------------------------------------

  /** The deck pick behind a call of next, if it comes to one: pinned calls, refusals and a single least
      busy slot leave the deck alone. */
  function DealOf(p: Pool, id: string, now: int, o: Oracle): (r: Option<Deal>)
    requires Sound(p)
    ensures r.Some? ==> |r.value.open| > 0 && InRange(r.value.open, |p.slots|)
  {
    var advice := ConsultPin(p, id, now);
    var open := Scan(p, if advice.RotateFrom? then advice.start else p.rr, now, |p.slots|);
    if BreakerOpen(p, now) || advice.Serve? || SharedReady(p, now) != 0 || |open| <= 1 then None
    else
      var idle := Idle(p.slots, open, MinLive(p.slots, open, |open|), |open|);
      if |idle| <= 1 then None else Some(Deal(idle, o.shuffle))
  }

  lemma NextDealsOnce(p: Pool, id: string, now: int, o: Oracle)
    requires Sound(p) && p.selection == StrictRandom
    ensures var r := NextAccount(p, id, now, o);
            match DealOf(p, id, now, o)
            case None => r.pool.deck == p.deck && r.pool.deckPos == p.deckPos
            case Some(d) =>
              r.slot.Some?
              && Picked(r.slot.value, r.pool.deck, r.pool.deckPos)
                 == DeckPick(p.deck, p.deckPos, d.open, |p.slots|, d.shuffle)
  {
    hide ConsultPin, Scan, SharedReady, RefusalInstant, DeckPick, PinUpdate, PickSlot, Idle, MinLive, Grant;
    var advice := ConsultPin(p, id, now);
    var open := Scan(p, if advice.RotateFrom? then advice.start else p.rr, now, |p.slots|);
    if |open| > 0 {
      PickDeals(p, open, o);
      PickIgnoresPins(p, p.(sticky := p.sticky - {id}), open, o);
    }
    if advice.Serve? {
      GrantKeepsDeck(p, advice.slot, now);
    }
  }

  lemma PickIgnoresPins(p: Pool, q: Pool, open: seq<nat>, o: Oracle)
    requires |open| > 0 && InRange(open, |p.slots|) && q == p.(sticky := q.sticky)
    ensures PickSlot(q, open, o) == PickSlot(p, open, o)
  {
  }

  lemma GrantKeepsDeck(p: Pool, i: nat, now: int)
    requires Sound(p) && i < |p.slots|
    ensures Grant(p, i, now).deck == p.deck && Grant(p, i, now).deckPos == p.deckPos
  {
  }

  /** A pick deals from the deck exactly when more than one slot is least busy. */
  lemma {:induction false} PickDeals(p: Pool, open: seq<nat>, o: Oracle)
    requires p.selection == StrictRandom && |open| > 0 && InRange(open, |p.slots|)
    ensures var idle := Idle(p.slots, open, MinLive(p.slots, open, |open|), |open|);
            var pick := PickSlot(p, open, o);
            if |open| == 1 || |idle| <= 1 then pick.deck == p.deck && pick.deckPos == p.deckPos
            else pick == DeckPick(p.deck, p.deckPos, idle, |p.slots|, o.shuffle)
  {
    SomeIdle(p.slots, open);
    hide DeckPick, Idle, MinLive;
  }

  lemma {:induction false} SomeIdle(slots: seq<Slot>, open: seq<nat>)
    requires |open| > 0 && InRange(open, |slots|)
    ensures |Idle(slots, open, MinLive(slots, open, |open|), |open|)| > 0
  {
    MinLiveIsLeast(slots, open, |open|);
    var j :| 0 <= j < |open| && MinLive(slots, open, |open|) == slots[open[j]].live;
    assert open[j] in Idle(slots, open, MinLive(slots, open, |open|), |open|);
  }

  function ListOf<T>(x: Option<T>): seq<T> {
    if x.Some? then [x.value] else []
  }

  function DealBy(p: Pool, e: Event): (r: Option<Deal>)
    requires Sound(p)
    ensures r.Some? ==> e.NextCall? && |r.value.open| > 0 && InRange(r.value.open, |p.slots|)
  {
    if e.NextCall? then DealOf(p, e.id, e.now, e.o) else None
  }

  /** The deck picks of a run, and the slots they handed out. */
  ghost function Deals(p: Pool, es: seq<Event>, t: int): (ds: seq<Deal>)
    requires Inv(p, t) && Clocked(es, t)
    ensures forall k :: 0 <= k < |ds| ==> |ds[k].open| > 0 && InRange(ds[k].open, |p.slots|)
    decreases |es|
  {
    if |es| == 0 then []
    else
      StepKeepsInv(p, es[0], t);
      ListOf(DealBy(p, es[0])) + Deals(Step(p, es[0]), es[1..], Reading(es[0], t))
  }

  ghost function DealtSlots(p: Pool, es: seq<Event>, t: int): seq<Option<nat>>
    requires Inv(p, t) && Clocked(es, t)
    decreases |es|
  {
    if |es| == 0 then []
    else
      StepKeepsInv(p, es[0], t);
      var e := es[0];
      (if DealBy(p, e).Some? then [NextAccount(p, e.id, e.now, e.o).slot] else [])
      + DealtSlots(Step(p, e), es[1..], Reading(e, t))
  }

  lemma DeckStep(p: Pool, e: Event, t: int)
    requires Inv(p, t) && Reading(e, t) >= t && p.selection == StrictRandom
    ensures var q := Step(p, e);
            match DealBy(p, e)
            case None => q.deck == p.deck && q.deckPos == p.deckPos
            case Some(d) =>
              var r := NextAccount(p, e.id, e.now, e.o);
              r.slot.Some? && Picked(r.slot.value, q.deck, q.deckPos)
                              == DeckPick(p.deck, p.deckPos, d.open, |p.slots|, d.shuffle)
  {
    hide NextAccount, DealOf, DeckPick;
    if e.NextCall? {
      NextDealsOnce(p, e.id, e.now, e.o);
    }
  }

  lemma SameMode(p: Pool, q: Pool)
    requires SameShape(p, q)
    ensures |q.slots| == |p.slots| && q.selection == p.selection
  {
  }

  lemma {:induction false} DealsStep(p: Pool, es: seq<Event>, t: int)
    requires Inv(p, t) && Clocked(es, t) && |es| > 0
    ensures Inv(Step(p, es[0]), Reading(es[0], t)) && Clocked(es[1..], Reading(es[0], t)) && Reading(es[0], t) >= t
    ensures SameShape(p, Step(p, es[0]))
    ensures var e, d := es[0], DealBy(p, es[0]);
            var ds, ss := Deals(Step(p, e), es[1..], Reading(e, t)), DealtSlots(Step(p, e), es[1..], Reading(e, t));
            && Deals(p, es, t) == ListOf(d) + ds
            && DealtSlots(p, es, t) == (if d.Some? then [NextAccount(p, e.id, e.now, e.o).slot] else []) + ss
  {
    hide NextAccount, Step, DealBy, InSync, Stamped, SameShape;
    StepKeepsInv(p, es[0], t);
  }

  lemma {:induction false} FirstPicking(deck: seq<nat>, pos: nat, n: nat, d: Deal, rest: seq<Deal>)
    requires |d.open| > 0 && forall k :: 0 <= k < |rest| ==> |rest[k].open| > 0
    ensures var p := DeckPick(deck, pos, d.open, n, d.shuffle);
            Pickings(deck, pos, n, [d] + rest) == [p] + Pickings(p.deck, p.deckPos, n, rest)
  {
    hide DeckPick;
    assert ([d] + rest)[1..] == rest;
  }

  /** Over any run the slots handed out by deck picks are those of successive picks from the deck,
      whatever happens between them. */
  lemma {:induction false} RunDeals(p: Pool, es: seq<Event>, t: int)
    requires Inv(p, t) && Clocked(es, t) && p.selection == StrictRandom
    ensures var ds, ss, ps := Deals(p, es, t), DealtSlots(p, es, t), Pickings(p.deck, p.deckPos, |p.slots|, Deals(p, es, t));
            |ss| == |ds| && forall k :: 0 <= k < |ss| ==> ss[k] == Some(ps[k].slot)
    decreases |es|
  {
    hide NextAccount, Step, DealBy, DeckPick, InSync, Stamped, SameShape, IsDeck, InRange, Clocked, Pickings;
    if |es| > 0 {
      var e := es[0];
      var q := Step(p, e);
      DealsStep(p, es, t);
      DeckStep(p, e, t);
      SameMode(p, q);
      RunDeals(q, es[1..], Reading(e, t));
      hide Deals, DealtSlots;
      var d, rest := DealBy(p, e), Deals(q, es[1..], Reading(e, t));
      if d.Some? {
        FirstPicking(p.deck, p.deckPos, |p.slots|, d.value, rest);
      } else {
        assert ListOf(d) + rest == rest;
      }
    }
  }

  /** So over any run of the pool: until the deck is used up no deck pick hands out a slot twice, and a
      slot still in it that is a candidate at every one of them, and at the one that reshuffles, is
      handed out. */
  lemma {:induction false} OncePerDeckThroughNext(p: Pool, es: seq<Event>, t: int, slot: nat)
    requires Inv(p, t) && Clocked(es, t) && p.selection == StrictRandom
    requires IsDeck(p.deck, |p.slots|) && p.deckPos <= |p.deck|
    ensures var ds, ss := Deals(p, es, t), DealtSlots(p, es, t);
            var m := Served(p.deck, p.deckPos, ds);
            && |ss| == |ds|
            && (forall k, l :: 0 <= k < l < m ==> ss[k] != ss[l])
            && (m < |ds| && slot in p.deck[p.deckPos..] && (forall k :: 0 <= k <= m ==> slot in ds[k].open) ==>
                  Some(slot) in ss[..m])
  {
    hide Deals, DealtSlots, Pickings, Served, InSync, Stamped, WellFormed;
    RunDeals(p, es, t);
    var ds, ss := Deals(p, es, t), DealtSlots(p, es, t);
    OncePerDeck(p.deck, p.deckPos, |p.slots|, ds, slot);
    var ps, m := Pickings(p.deck, p.deckPos, |p.slots|, ds), Served(p.deck, p.deckPos, ds);
    if m < |ds| && slot in p.deck[p.deckPos..] && forall k :: 0 <= k <= m ==> slot in ds[k].open {
      var k :| 0 <= k < m && ps[k].slot == slot;
      assert ss[..m][k] == Some(slot);
    }
  }

  // ---- Pins over runs -------------------------------------------------------------------------------------------

  /** The pins a sweep keeps. */
  function Unexpired(sticky: map<string, Pin>, now: int): map<string, Pin> {
    map k | k in sticky && now <= sticky[k].expires :: sticky[k]
  }

  /** Nothing in the run moves the identity's pin: no unpin; whenever the identity itself calls, its
      pinned account is up, be it busy; and no pick finds the table full of unexpired pins. */
  ghost predicate Undisturbed(p: Pool, es: seq<Event>, t: int, id: string)
    requires Inv(p, t) && Clocked(es, t)
    decreases |es|
  {
    if |es| == 0 then true
    else
      StepKeepsInv(p, es[0], t);
      && LeavesPin(p, es[0], id)
      && Undisturbed(Step(p, es[0]), es[1..], Reading(es[0], t), id)
  }

  ghost predicate LeavesPin(p: Pool, e: Event, id: string)
    requires Sound(p)
  {
    && e != Unpin(id)
    && (e.NextCall? ==> |Unexpired(p.sticky, e.now)| < MAX_STICKY_PINS)
    && (e.NextCall? && e.id == id ==> !ConsultPin(p, id, e.now).RotateFrom?)
  }

  lemma PinStep(p: Pool, e: Event, t: int, id: string)
    requires Inv(p, t) && Reading(e, t) >= t && id in p.sticky && Reading(e, t) <= p.sticky[id].expires
    requires LeavesPin(p, e, id)
    ensures id in Step(p, e).sticky && Step(p, e).sticky[id] == p.sticky[id]
  {
    hide ConsultPin, Scan, SharedReady, RefusalInstant, PickSlot, PinUpdate;
    match e {
      case NextCall(other, now, o) =>
        var advice := ConsultPin(p, other, now);
        if other != id && advice.RotateFrom? && NextAccount(p, other, now, o).slot.Some? {
          var a := p.slots[NextAccount(p, other, now, o).slot.value].acct;
          FewerUnexpired(p.sticky, other, now);
          PinLeavesOthers(p.sticky - {other}, p.ttl, other, a, now, id);
          PinLeavesOthers(p.sticky, p.ttl, other, a, now, id);
        }
      case _ =>
    }
  }

  lemma FewerUnexpired(sticky: map<string, Pin>, other: string, now: int)
    ensures |Unexpired(sticky - {other}, now)| <= |Unexpired(sticky, now)|
  {
    SubsetSize(Unexpired(sticky - {other}, now).Keys, Unexpired(sticky, now).Keys);
  }

  lemma PinLeavesOthers(sticky: map<string, Pin>, ttl: int, other: string, a: Account, now: int, id: string)
    requires id in sticky && id != other && now <= sticky[id].expires
    requires |Unexpired(sticky, now)| < MAX_STICKY_PINS
    ensures var r := PinUpdate(sticky, ttl, other, a, now);
            id in r && r[id] == sticky[id]
  {
    assert Unexpired(sticky, now) == map k | k in sticky && now <= sticky[k].expires :: sticky[k];
  }

  lemma {:induction false} PinSurvives(p: Pool, es: seq<Event>, t: int, id: string)
    requires Inv(p, t) && Clocked(es, t) && id in p.sticky && After(t, es) <= p.sticky[id].expires
    requires Undisturbed(p, es, t, id)
    ensures var q := Run(p, es, t);
            id in q.sticky && q.sticky[id] == p.sticky[id]
    decreases |es|
  {
    hide NextAccount, Step, ConsultPin, LeavesPin, InSync, Stamped, WellFormed;
    if |es| > 0 {
      StepKeepsInv(p, es[0], t);
      ClockRuns(es[1..], Reading(es[0], t));
      PinStep(p, es[0], t, id);
      PinSurvives(Step(p, es[0]), es[1..], Reading(es[0], t), id);
    }
  }

  /** Stickiness over a run: whatever other traffic the pool has seen, short of filling the pin table
      with unexpired pins, an identity comes back to its account at every instant before the pin expires
      at which the account's first slot is idle and up. */
  lemma {:induction false} PinHoldsOverRun(p: Pool, es: seq<Event>, t: int, id: string, now: int, o: Oracle)
    requires Inv(p, t) && Clocked(es, t) && id in p.sticky
    requires Undisturbed(p, es, t, id) && PinTTL(p.ttl, id) > 0
    requires After(t, es) <= now < p.sticky[id].expires
    ensures var q := Run(p, es, t);
            var f := FirstSlot(q.slots, p.sticky[id].name, p.sticky[id].key, 0);
            !BreakerOpen(q, now) && f.Some? && Available(q, f.value, now).Open? && SharedReady(q, now) == 0
            && q.slots[f.value].live == 0 ==>
              NextAccount(q, id, now, o).slot == f
  {
    hide Run, Undisturbed, PoolState.Available, PoolState.SharedReady, InSync, Stamped, WellFormed;
    PinSurvives(p, es, t, id);
  }

  /** Which picks made by the scan leave a pin, and for how long: a conversation ("s:" or "c:") always,
      for 15 minutes unless a TTL is configured; any other identity only if one is; the empty one
      never. */
  lemma PinsFor(p: Pool, id: string, now: int, o: Oracle)
    requires Sound(p) && ConsultPin(p, id, now).RotateFrom? && NextAccount(p, id, now, o).slot.Some?
    ensures var r := NextAccount(p, id, now, o);
            var a, conversation := p.slots[r.slot.value].acct, "s:" <= id || "c:" <= id;
            if id != "" && (p.ttl > 0 || conversation) then
              && id in r.pool.sticky
              && r.pool.sticky[id] == Pin(a.name, a.key, now + if p.ttl > 0 then p.ttl else 900_000_000_000)
            else r.pool.sticky == p.sticky
  {
    hide Scan, Soonest, PoolState.Available, PoolState.SharedReady, PickSlot;
    assert "s:" <= id <==> |id| >= 2 && id[..2] == "s:";
    assert "c:" <= id <==> |id| >= 2 && id[..2] == "c:";
  }

  /** The slot handed out is stamped with the reading, and no other is. */
  lemma HandingOutStamps(p: Pool, id: string, now: int, o: Oracle)
    requires Sound(p)
    ensures var r := NextAccount(p, id, now, o);
            |r.pool.slots| == |p.slots| && forall j :: 0 <= j < |p.slots| ==>
              r.pool.slots[j].lastUsed == if r.slot == Some(j) then now else p.slots[j].lastUsed
  {
    hide ConsultPin, Scan, PoolState.Available, PoolState.SharedReady, RefusalInstant, PickSlot, PinUpdate;
  }

  lemma {:induction false} ScanIgnoresPins(p: Pool, q: Pool, start: nat, now: int, k: nat)
    requires Sound(p) && q == p.(sticky := q.sticky)
    ensures Sound(q) && Scan(q, start, now, k) == Scan(p, start, now, k)
    ensures BreakerOpen(q, now) == BreakerOpen(p, now) && PoolState.SharedReady(q, now) == PoolState.SharedReady(p, now)
  {
    if k > 0 {
      ScanIgnoresPins(p, q, start, now, k - 1);
      var i := (start + k - 1) % |p.slots|;
      assert PoolState.Available(q, i, now) == PoolState.Available(p, i, now);
    }
  }

  /** A pin that has expired, or whose account the pool no longer has, decides nothing: the account
      handed out is the one picked without it. */
  lemma DeadPinIgnored(p: Pool, id: string, now: int, o: Oracle)
    requires Sound(p) && id in p.sticky
    requires now >= p.sticky[id].expires
             || forall i :: 0 <= i < |p.slots| ==> !(p.slots[i].acct.name == p.sticky[id].name && p.slots[i].acct.key == p.sticky[id].key)
    ensures Sound(p.(sticky := p.sticky - {id}))
    ensures NextAccount(p, id, now, o).slot == NextAccount(p.(sticky := p.sticky - {id}), id, now, o).slot
  {
    hide Scan, PoolState.Available, PoolState.SharedReady, BreakerOpen, PickSlot, PinUpdate, Grant, PinTTL, RefusalInstant;
    var q := p.(sticky := p.sticky - {id});
    ScanIgnoresPins(p, q, p.rr, now, |p.slots|);
    assert ConsultPin(p, id, now) == RotateFrom(p.rr) == ConsultPin(q, id, now);
    var open := Scan(p, p.rr, now, |p.slots|);
    if |open| > 0 {
      PickIgnoresPins(p, q, open, o);
      PickIgnoresPins(p, q.(sticky := q.sticky - {id}), open, o);
    }
  }

  /** An unpinned identity is picked for as if it had never been pinned; nothing else changes. */
  lemma UnpinForgets(p: Pool, id: string, now: int, o: Oracle)
    requires Sound(p) && id != ""
    ensures var q := Step(p, Event.Unpin(id));
            && q == p.(sticky := q.sticky)
            && id !in q.sticky && (forall k :: k in p.sticky && k != id ==> k in q.sticky && q.sticky[k] == p.sticky[k])
            && Sound(q) && !ConsultPin(q, id, now).Serve?
  {
  }

  /** Every candidate can be drawn by the random mode, and any two of them compared by p2c. */
  lemma DrawsReachAll(p: Pool, open: seq<nat>, o: Oracle, a: nat, b: nat) returns (d: Oracle)
    requires |open| > 1 && InRange(open, |p.slots|) && a < |open| && b < |open| && a != b
    ensures d == o.(pick1 := d.pick1, pick2 := d.pick2)
    ensures p.selection == Random ==> Choose(p, open, d).slot == open[a]
    ensures p.selection == P2C && |open| > 2 ==> Choose(p, open, d).slot == Cheaper(o, open[a], open[b])
  {
    d := o.(pick1 := a, pick2 := if b > a then b - 1 else b);
    SmallMod(a, |open|);
    SmallMod(d.pick2, |open| - 1);
  }
}
