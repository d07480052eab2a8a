/**
  The account pool as a value: its slots, the buckets they point at, the pins and the breaker, and
  one function per pool operation.  The class in PoolObject updates the same state in place.
 */
module PoolState {
  import opened Prelude
  import opened TokenBuckets

  datatype Account = Account(name: string, key: string, weight: int, rpm: int)

  predicate Same(a: Account, b: Account) {
    a.name == b.name && a.key == b.key
  }

  /** One weighted slot.  `bucket` is the address of its token bucket in the pool's heap; the slots
      of one account share it.  Instants are nanoseconds and 0 is Go's zero time. */
  datatype Slot = Slot(
    acct: Account,
    invalidated: bool, invalidatedAt: int,
    lastUsed: int,
    cooldown: int, benchedAt: int, strikes: nat,
    bucket: Option<nat>,
    live: nat)

  datatype Pin = Pin(name: string, key: string, expires: int)

  datatype Selection = Fastest | P2C | LeastUsed | StrictRandom | Random

  datatype Policy = Policy(coolBase: int, coolCap: int, flapThreshold: int, flapOpen: int, billingParole: int)

  const SECOND: int := 1_000_000_000
  const MAX_STICKY_PINS: nat := 4096
  const CONV_PIN_TTL: int := 900 * SECOND

  function LadderBase(y: Policy): int {
    if y.coolBase > 0 then y.coolBase else 10 * SECOND
  }

  function LadderCap(y: Policy): int {
    if y.coolCap > 0 then y.coolCap else 60 * SECOND
  }

  function FlapTrip(y: Policy): int {
    if y.flapThreshold > 0 then y.flapThreshold else 4
  }

  function FlapPark(y: Policy): int {
    if y.flapOpen > 0 then y.flapOpen else 15 * SECOND
  }

  function Parole(y: Policy): int {
    if y.billingParole > 0 then y.billingParole else 1800 * SECOND
  }

  datatype Pool = Pool(
    slots: seq<Slot>,
    heap: seq<Bucket>,
    shared: Option<nat>,
    rr: nat,
    ttl: int,
    sticky: map<string, Pin>,
    flapStrikes: nat, flapOpenUntil: int,
    policy: Policy,
    selection: Selection, deck: seq<nat>, deckPos: nat)

  /** Addresses and the cursor are in range. */
  predicate Sound(p: Pool) {
    && |p.slots| > 0
    && p.rr < |p.slots|
    && (forall i :: 0 <= i < |p.slots| && p.slots[i].bucket.Some? ==> p.slots[i].bucket.value < |p.heap|)
    && (p.shared.Some? ==> p.shared.value < |p.heap|)
    && (forall k :: 0 <= k < |p.heap| ==> p.heap[k].rpm > 0)
  }

  // ---- Gates -------------------------------------------------------------------------------------

  datatype Verdict = Open | Blocked(ready: int)

  function Gate(p: Pool, s: Slot): int {
    s.invalidatedAt + Parole(p.policy)
  }

  function Available(p: Pool, i: nat, now: int): Verdict
    requires Sound(p) && i < |p.slots|
  {
    var s := p.slots[i];
    if s.invalidated && s.invalidatedAt == 0 then Blocked(0)
    else if s.invalidated && now < Gate(p, s) then Blocked(Gate(p, s))
    else
      var cool := s.cooldown != 0 && now <= s.cooldown;
      if s.bucket.None? then
        if cool then Blocked(s.cooldown) else Open
      else
        var r := RefillAt(p.heap[s.bucket.value], now);
        if cool then Blocked(Max(s.cooldown, r))
        else if r > now then Blocked(r) else Open
  }

  function SharedReady(p: Pool, now: int): int
    requires Sound(p)
  {
    if p.shared.None? then 0
    else
      var r := RefillAt(p.heap[p.shared.value], now);
      if r > now then r else 0
  }

  predicate BreakerOpen(p: Pool, now: int) {
    p.flapOpenUntil != 0 && now < p.flapOpenUntil
  }

  function TakeFrom(heap: seq<Bucket>, k: Option<nat>, now: int): (r: seq<Bucket>)
    requires k.Some? ==> k.value < |heap|
    ensures |r| == |heap|
  {
    if k.None? then heap else heap[k.value := AfterTake(heap[k.value], now)]
  }

  function Grant(p: Pool, i: nat, now: int): Pool
    requires Sound(p) && i < |p.slots|
  {
    p.(slots := p.slots[i := p.slots[i].(lastUsed := now)],
       heap := TakeFrom(TakeFrom(p.heap, p.shared, now), p.slots[i].bucket, now))
  }

  // ---- Pins --------------------------------------------------------------------------------------

  function PinTTL(ttl: int, id: string): int {
    if id == "" then 0
    else if |id| >= 2 && (id[..2] == "s:" || id[..2] == "c:") then
      if ttl > 0 then ttl else CONV_PIN_TTL
    else ttl
  }

  function PinUpdate(sticky: map<string, Pin>, ttl: int, id: string, a: Account, now: int): map<string, Pin> {
    if PinTTL(ttl, id) <= 0 then sticky
    else
      var swept := if |sticky| >= MAX_STICKY_PINS
                   then map k | k in sticky && now <= sticky[k].expires :: sticky[k]
                   else sticky;
      var room := if |swept| >= MAX_STICKY_PINS then map[] else swept;
      room[id := Pin(a.name, a.key, now + PinTTL(ttl, id))]
  }

  function FirstSlot(slots: seq<Slot>, name: string, key: string, from: nat): (r: Option<nat>)
    requires from <= |slots|
    ensures r.Some? ==> from <= r.value < |slots| && slots[r.value].acct.name == name && slots[r.value].acct.key == key
    ensures r.Some? ==> forall j :: from <= j < r.value ==> !(slots[j].acct.name == name && slots[j].acct.key == key)
    ensures r.None? ==> forall j :: from <= j < |slots| ==> !(slots[j].acct.name == name && slots[j].acct.key == key)
    decreases |slots| - from
  {
    if from == |slots| then None
    else if slots[from].acct.name == name && slots[from].acct.key == key then Some(from)
    else FirstSlot(slots, name, key, from + 1)
  }

  /** What the pin lookup at the head of `next` decides. */
  datatype PinAdvice = Serve(slot: nat) | Spread | RotateFrom(start: nat)

  function ConsultPin(p: Pool, id: string, now: int): (r: PinAdvice)
    requires Sound(p)
    ensures r.Serve? ==> r.slot < |p.slots|
    ensures r.RotateFrom? ==> r.start <= |p.slots|
  {
    if PinTTL(p.ttl, id) > 0 && id in p.sticky && now < p.sticky[id].expires then
      match FirstSlot(p.slots, p.sticky[id].name, p.sticky[id].key, 0)
      case None => RotateFrom(p.rr)
      case Some(i) =>
        if Available(p, i, now).Open? && SharedReady(p, now) == 0 then
          if p.slots[i].live == 0 then Serve(i) else Spread
        else RotateFrom(i + 1)
    else RotateFrom(p.rr)
  }

  // ---- Selection among the open slots --------------------------------------------------------------

  /** What the selection reads besides the pool: measured decode speeds, p2c scores and the random
      draws. */
  datatype Oracle = Oracle(tps: seq<real>, scores: seq<real>, pick1: nat, pick2: nat, shuffle: seq<nat>)

  function At(xs: seq<real>, i: nat): real {
    if i < |xs| then xs[i] else 0.0
  }

  predicate InRange(open: seq<nat>, n: nat) {
    forall j :: 0 <= j < |open| ==> open[j] < n
  }

  function MinLive(slots: seq<Slot>, open: seq<nat>, k: nat): nat
    requires 1 <= k <= |open| && InRange(open, |slots|)
  {
    if k == 1 then slots[open[0]].live
    else
      var m := MinLive(slots, open, k - 1);
      if slots[open[k - 1]].live < m then slots[open[k - 1]].live else m
  }

  function Idle(slots: seq<Slot>, open: seq<nat>, m: nat, k: nat): (r: seq<nat>)
    requires k <= |open| && InRange(open, |slots|)
    ensures InRange(r, |slots|)
    ensures forall j :: 0 <= j < |r| ==> r[j] in open && slots[r[j]].live == m
    ensures forall j :: 0 <= j < k && slots[open[j]].live == m ==> open[j] in r
  {
    if k == 0 then []
    else Idle(slots, open, m, k - 1) + (if slots[open[k - 1]].live == m then [open[k - 1]] else [])
  }

  function LeastUsedFrom(slots: seq<Slot>, open: seq<nat>, j: nat, best: nat): nat
    requires j <= |open| && InRange(open, |slots|) && best < |slots|
    decreases |open| - j
  {
    if j == |open| then best
    else if slots[open[j]].lastUsed == 0 then open[j]
    else if slots[best].lastUsed == 0 then LeastUsedFrom(slots, open, j + 1, best)
    else LeastUsedFrom(slots, open, j + 1,
                       if slots[open[j]].lastUsed < slots[best].lastUsed then open[j] else best)
  }

  function FastestFrom(open: seq<nat>, o: Oracle, j: nat, best: nat): nat
    requires j <= |open|
    decreases |open| - j
  {
    if j == |open| then best
    else FastestFrom(open, o, j + 1, if At(o.tps, open[j]) > At(o.tps, best) then open[j] else best)
  }

  function Cheaper(o: Oracle, a: nat, b: nat): nat {
    if At(o.scores, b) < At(o.scores, a) then b else a
  }

  /** The index of the first deck entry from `pos` that is open now, or |deck|. */
  function DeckScan(deck: seq<nat>, pos: nat, open: seq<nat>): (j: nat)
    ensures pos <= |deck| ==> pos <= j <= |deck|
    ensures pos <= j < |deck| ==> deck[j] in open
    ensures pos <= j == |deck| ==> forall k :: pos <= k < |deck| ==> deck[k] !in open
    decreases |deck| - pos
  {
    if pos >= |deck| then pos
    else if deck[pos] in open then pos
    else DeckScan(deck, pos + 1, open)
  }

  predicate IsDeck(d: seq<nat>, n: nat) {
    |d| == n && forall i: nat :: i < n ==> i in d
  }

  function Count(n: nat): (d: seq<nat>)
    ensures IsDeck(d, n) && forall i :: 0 <= i < n ==> d[i] == i
  {
    if n == 0 then [] else Count(n - 1) + [n - 1]
  }

  /** Whatever permutation the shuffle draws. */
  function Shuffled(n: nat, s: seq<nat>): (d: seq<nat>)
    ensures IsDeck(d, n)
  {
    if IsDeck(s, n) then s
    else
      Count(n)
  }

  datatype Picked = Picked(slot: nat, deck: seq<nat>, deckPos: nat)

  function DeckPick(deck: seq<nat>, pos: nat, open: seq<nat>, n: nat, shuffle: seq<nat>): Picked
    requires |open| > 0
  {
    var j := DeckScan(deck, pos, open);
    if j < |deck| then Picked(deck[j], deck, j + 1)
    else
      var d := Shuffled(n, shuffle);
      var k := DeckScan(d, 0, open);
      if k < |d| then Picked(d[k], d, k + 1) else Picked(open[0], d, 0)
  }

  /** The two distinct candidates a p2c draw compares. */
  function SecondDraw(o: Oracle, len: nat): nat
    requires len > 2
  {
    var i := o.pick1 % len;
    var j := o.pick2 % (len - 1);
    if j >= i then j + 1 else j
  }

  function Choose(p: Pool, open: seq<nat>, o: Oracle): Picked
    requires |open| > 1 && InRange(open, |p.slots|)
  {
    match p.selection
    case LeastUsed => Picked(LeastUsedFrom(p.slots, open, 1, open[0]), p.deck, p.deckPos)
    case Random => Picked(open[o.pick1 % |open|], p.deck, p.deckPos)
    case StrictRandom => DeckPick(p.deck, p.deckPos, open, |p.slots|, o.shuffle)
    case P2C =>
      if |open| == 2 then Picked(Cheaper(o, open[0], open[1]), p.deck, p.deckPos)
      else Picked(Cheaper(o, open[o.pick1 % |open|], open[SecondDraw(o, |open|)]), p.deck, p.deckPos)
    case Fastest => Picked(FastestFrom(open, o, 1, open[0]), p.deck, p.deckPos)
  }

  function PickSlot(p: Pool, open: seq<nat>, o: Oracle): Picked
    requires |open| > 0 && InRange(open, |p.slots|)
  {
    if |open| == 1 then Picked(open[0], p.deck, p.deckPos)
    else
      var idle := Idle(p.slots, open, MinLive(p.slots, open, |open|), |open|);
      var narrowed := if |idle| > 0 then idle else open;
      if |narrowed| == 1 then Picked(narrowed[0], p.deck, p.deckPos) else Choose(p, narrowed, o)
  }

  // ---- next ----------------------------------------------------------------------------------------

  /** The open slots among the first k in rotation order from start. */
  function Scan(p: Pool, start: nat, now: int, k: nat): (r: seq<nat>)
    requires Sound(p)
    ensures InRange(r, |p.slots|)
    ensures forall j :: 0 <= j < |r| ==> Available(p, r[j], now).Open?
  {
    if k == 0 then []
    else
      var i := (start + k - 1) % |p.slots|;
      Scan(p, start, now, k - 1) + (if Available(p, i, now).Open? then [i] else [])
  }

  /** The soonest non-zero ready instant among the first k slots' refusals; 0 for none. */
  function Soonest(p: Pool, start: nat, now: int, k: nat): int
    requires Sound(p)
  {
    if k == 0 then 0
    else
      var r := Soonest(p, start, now, k - 1);
      var v := Available(p, (start + k - 1) % |p.slots|, now);
      if v.Blocked? && v.ready != 0 && (r == 0 || v.ready < r) then v.ready else r
  }

  /** The ready instant of a refusal: the shared refill when it is what binds, else the soonest own
      gate. */
  function RefusalInstant(p: Pool, start: nat, now: int): int
    requires Sound(p)
  {
    var soonest := Soonest(p, start, now, |p.slots|);
    var shared := SharedReady(p, now);
    if shared != 0 && (|Scan(p, start, now, |p.slots|)| > 0 || soonest == 0 || shared > soonest)
    then shared else soonest
  }

  datatype Offer = Offer(pool: Pool, slot: Option<nat>, ready: int)

  /** Grants the picked slot, advances the cursor past it and pins it unless the old pin is kept. */
  function Admit(p: Pool, id: string, now: int, keepPin: bool, open: seq<nat>, o: Oracle): (r: Offer)
    requires Sound(p) && |open| > 0 && InRange(open, |p.slots|)
    ensures r.slot.Some? && r.slot.value < |p.slots|
  {
    var pick := PickSlot(p, open, o);
    PickInOpen(p, open, o);
    var q := Grant(p, pick.slot, now);
    var pins := if keepPin then p.sticky else PinUpdate(p.sticky, p.ttl, id, p.slots[pick.slot].acct, now);
    Offer(q.(rr := (pick.slot + 1) % |p.slots|, sticky := pins, deck := pick.deck, deckPos := pick.deckPos),
          Some(pick.slot), 0)
  }

  function NextAccount(p: Pool, id: string, now: int, o: Oracle): (r: Offer)
    requires Sound(p)
    ensures r.slot.Some? ==> r.slot.value < |p.slots|
  {
    if BreakerOpen(p, now) then Offer(p, None, p.flapOpenUntil)
    else
      var advice := ConsultPin(p, id, now);
      if advice.Serve? then Offer(Grant(p, advice.slot, now), Some(advice.slot), 0)
      else
        var sticky := if PinTTL(p.ttl, id) > 0 && advice != Spread then p.sticky - {id} else p.sticky;
        var start := if advice.RotateFrom? then advice.start else p.rr;
        var n := |p.slots|;
        var open := Scan(p, start, now, n);
        if |open| > 0 && SharedReady(p, now) == 0 then
          Admit(p.(sticky := sticky), id, now, advice == Spread, open, o)
        else
          Offer(p.(sticky := sticky), None, RefusalInstant(p, start, now))
  }

  // ---- Selection never leaves the open, least busy slots --------------------------------------------

  lemma {:induction false} MinLiveIsLeast(slots: seq<Slot>, open: seq<nat>, k: nat)
    requires 1 <= k <= |open| && InRange(open, |slots|)
    ensures forall j :: 0 <= j < k ==> MinLive(slots, open, k) <= slots[open[j]].live
    ensures exists j :: 0 <= j < k && MinLive(slots, open, k) == slots[open[j]].live
  {
    if k == 1 {
      assert MinLive(slots, open, k) == slots[open[0]].live;
    } else {
      MinLiveIsLeast(slots, open, k - 1);
      var j :| 0 <= j < k - 1 && MinLive(slots, open, k - 1) == slots[open[j]].live;
      if slots[open[k - 1]].live < MinLive(slots, open, k - 1) {
        assert MinLive(slots, open, k) == slots[open[k - 1]].live;
      } else {
        assert MinLive(slots, open, k) == slots[open[j]].live;
      }
    }
  }

  lemma {:induction false} LeastUsedFromIsLeast(slots: seq<Slot>, open: seq<nat>, j: nat, best: nat)
    requires 1 <= j <= |open| && InRange(open, |slots|) && best in open
    requires forall i :: 0 <= i < |slots| ==> slots[i].lastUsed >= 0
    requires forall i :: 0 <= i < j ==> slots[best].lastUsed <= slots[open[i]].lastUsed
    ensures var r := LeastUsedFrom(slots, open, j, best);
            r in open && forall i :: 0 <= i < |open| ==> slots[r].lastUsed <= slots[open[i]].lastUsed
    decreases |open| - j
  {
    if j < |open| && slots[open[j]].lastUsed != 0 {
      if slots[best].lastUsed == 0 {
        LeastUsedFromIsLeast(slots, open, j + 1, best);
      } else {
        LeastUsedFromIsLeast(slots, open, j + 1, if slots[open[j]].lastUsed < slots[best].lastUsed then open[j] else best);
      }
    }
  }

  lemma {:induction false} LeastUsedFromInOpen(slots: seq<Slot>, open: seq<nat>, j: nat, best: nat)
    requires j <= |open| && InRange(open, |slots|) && best in open
    ensures LeastUsedFrom(slots, open, j, best) in open
    decreases |open| - j
  {
    if j < |open| {
      LeastUsedFromInOpen(slots, open, j + 1, best);
      LeastUsedFromInOpen(slots, open, j + 1, open[j]);
    }
  }

  lemma {:induction false} FastestFromIsFastest(open: seq<nat>, o: Oracle, j: nat, best: nat)
    requires 1 <= j <= |open| && best in open
    requires forall i :: 0 <= i < j ==> At(o.tps, open[i]) <= At(o.tps, best)
    ensures var r := FastestFrom(open, o, j, best);
            r in open && forall i :: 0 <= i < |open| ==> At(o.tps, open[i]) <= At(o.tps, r)
    decreases |open| - j
  {
    if j < |open| {
      FastestFromIsFastest(open, o, j + 1, if At(o.tps, open[j]) > At(o.tps, best) then open[j] else best);
    }
  }

  /** strict-random always finds its slot in the deck: the fallback to open[0] is unreachable. */
  lemma {:induction false} DeckAlwaysHits(deck: seq<nat>, pos: nat, open: seq<nat>, n: nat, shuffle: seq<nat>)
    requires |open| > 0 && InRange(open, n)
    ensures DeckScan(deck, pos, open) < |deck| || DeckScan(Shuffled(n, shuffle), 0, open) < n
    ensures DeckPick(deck, pos, open, n, shuffle).slot in open
    ensures DeckPick(deck, pos, open, n, shuffle).deckPos > 0
  {
    var d := Shuffled(n, shuffle);
    assert open[0] in d;
    var j := DeckScan(deck, pos, open);
    if j < |deck| {
      DeckScanFrom(deck, pos, open);
    }
  }

  lemma {:induction false} DeckScanFrom(deck: seq<nat>, pos: nat, open: seq<nat>)
    ensures DeckScan(deck, pos, open) >= pos
    decreases |deck| - pos
  {
    if pos < |deck| && deck[pos] !in open {
      DeckScanFrom(deck, pos + 1, open);
    }
  }

  lemma ChooseInOpen(p: Pool, open: seq<nat>, o: Oracle)
    requires |open| > 1 && InRange(open, |p.slots|)
    ensures Choose(p, open, o).slot in open
  {
    match p.selection {
      case LeastUsed => LeastUsedFromInOpen(p.slots, open, 1, open[0]);
      case StrictRandom => DeckAlwaysHits(p.deck, p.deckPos, open, |p.slots|, o.shuffle);
      case Fastest => FastestFromIsFastest(open, o, 1, open[0]);
      case Random =>
      case P2C =>
    }
  }

  /** Under every selection mode the slot picked is open and no open slot has fewer calls in
      flight. */
  lemma PickInOpen(p: Pool, open: seq<nat>, o: Oracle)
    requires |open| > 0 && InRange(open, |p.slots|)
    ensures PickSlot(p, open, o).slot in open
    ensures PickSlot(p, open, o).slot < |p.slots|
    ensures forall j :: 0 <= j < |open| ==> p.slots[PickSlot(p, open, o).slot].live <= p.slots[open[j]].live
  {
    if |open| > 1 {
      var m := MinLive(p.slots, open, |open|);
      MinLiveIsLeast(p.slots, open, |open|);
      var idle := Idle(p.slots, open, m, |open|);
      if |idle| > 1 {
        ChooseInOpen(p, idle, o);
      }
    }
  }

  /** The strategies do what they are named for, among the least busy open slots. */
  lemma StrategyMeaning(p: Pool, open: seq<nat>, o: Oracle)
    requires |open| > 1 && InRange(open, |p.slots|)
    requires forall i :: 0 <= i < |p.slots| ==> p.slots[i].lastUsed >= 0
    ensures var i := Choose(p, open, o).slot;
      && i < |p.slots|
      && (p.selection == LeastUsed ==> forall j :: 0 <= j < |open| ==> p.slots[i].lastUsed <= p.slots[open[j]].lastUsed)
      && (p.selection == Fastest ==> forall j :: 0 <= j < |open| ==> At(o.tps, open[j]) <= At(o.tps, i))
      && (p.selection == P2C ==>
            exists a, b :: 0 <= a < |open| && 0 <= b < |open| && a != b && i == Cheaper(o, open[a], open[b]))
  {
    ChooseInOpen(p, open, o);
    match p.selection {
      case LeastUsed => LeastUsedFromIsLeast(p.slots, open, 1, open[0]);
      case Fastest => FastestFromIsFastest(open, o, 1, open[0]);
      case P2C =>
        if |open| == 2 {
          assert Choose(p, open, o).slot == Cheaper(o, open[0], open[1]);
        } else {
          assert Choose(p, open, o).slot == Cheaper(o, open[o.pick1 % |open|], open[SecondDraw(o, |open|)]);
        }
      case Random =>
      case StrictRandom =>
    }
  }

  // ---- Faults and successes -------------------------------------------------------------------------

  /** What one operation does to every slot of its account. */
  datatype Mark =
    | Strike(strikes: nat, d: int, now: int)  // rateLimited
    | Park(d: int, now: int)                  // cool
    | Refuse(now: int)                        // invalidate
    | Served(since: int)                      // ok
    | Reset                                   // revalidate

  function Parked(s: Slot, d: int, now: int): Slot {
    var c := if s.cooldown < now then now else s.cooldown;
    if now + d > c then s.(cooldown := now + d, benchedAt := now) else s.(cooldown := c)
  }

  function Touch(s: Slot, m: Mark): (r: Slot)
    ensures r.acct == s.acct && r.bucket == s.bucket && r.live == s.live && r.lastUsed == s.lastUsed
  {
    match m
    case Strike(k, d, now) => Parked(s.(strikes := k), d, now)
    case Park(d, now) => Parked(s, d, now)
    case Refuse(now) => s.(invalidated := true, invalidatedAt := now)
    case Served(since) =>
      var a := s.(strikes := 0);
      var b := if a.invalidated && a.invalidatedAt < since then a.(invalidated := false, invalidatedAt := 0) else a;
      if b.cooldown != 0 && b.benchedAt < since then b.(cooldown := 0, benchedAt := 0) else b
    case Reset =>
      if s.invalidated
      then s.(invalidated := false, invalidatedAt := 0, strikes := 0, cooldown := 0, benchedAt := 0)
      else s
  }

  function OnAccount(slots: seq<Slot>, a: Account, m: Mark): (r: seq<Slot>)
    ensures |r| == |slots|
    ensures forall i :: 0 <= i < |r| ==> r[i] == if Same(slots[i].acct, a) then Touch(slots[i], m) else slots[i]
  {
    seq(|slots|, i requires 0 <= i < |slots| => if Same(slots[i].acct, a) then Touch(slots[i], m) else slots[i])
  }

  /** The ladder step of the k-th 429 in a row (k counted from 0): base doubled at most three times,
      under the cap. */
  function LadderStep(y: Policy, k: nat): int {
    Min(LadderCap(y), LadderBase(y) * Power2(if k < 3 then k else 3))
  }

  function Power2(k: nat): int {
    if k == 0 then 1 else 2 * Power2(k - 1)
  }

  function Bench(y: Policy, k: nat, retryAfter: int): int {
    if retryAfter > 0 then retryAfter else LadderStep(y, k)
  }

  function RateLimited(p: Pool, a: Account, retryAfter: int, now: int): Pool {
    match FirstSlot(p.slots, a.name, a.key, 0)
    case None => p
    case Some(i) =>
      var k := p.slots[i].strikes;
      p.(slots := OnAccount(p.slots, a, Strike(k + 1, Bench(p.policy, k, retryAfter), now)))
  }

  function FlapStrike(p: Pool, now: int): Pool {
    var k := p.flapStrikes + 1;
    var t := now + FlapPark(p.policy);
    p.(flapStrikes := k,
       flapOpenUntil := if k >= FlapTrip(p.policy) && t > p.flapOpenUntil then t else p.flapOpenUntil)
  }

  function Begin(p: Pool, a: Account): Pool {
    match FirstSlot(p.slots, a.name, a.key, 0)
    case None => p
    case Some(i) => p.(slots := p.slots[i := p.slots[i].(live := p.slots[i].live + 1)])
  }

  function End(p: Pool, a: Account): Pool {
    match FirstSlot(p.slots, a.name, a.key, 0)
    case None => p
    case Some(i) =>
      if p.slots[i].live > 0 then p.(slots := p.slots[i := p.slots[i].(live := p.slots[i].live - 1)]) else p
  }

  // ---- Construction -----------------------------------------------------------------------------------

  function FreshSlot(a: Account, bucket: Option<nat>): Slot {
    Slot(a, false, 0, 0, 0, 0, 0, bucket, 0)
  }

  function Copies(s: Slot, w: nat): (r: seq<Slot>)
    ensures |r| == w && forall i :: 0 <= i < w ==> r[i] == s
  {
    if w == 0 then [] else Copies(s, w - 1) + [s]
  }

  function Weight(a: Account): nat {
    if a.weight <= 0 then 1 else a.weight
  }

  datatype Layout = Layout(slots: seq<Slot>, heap: seq<Bucket>, byAccount: map<(string, string), nat>)

  function AddAccount(l: Layout, a: Account): Layout {
    var m := if a.rpm > 0
             then l.(heap := l.heap + [NewBucket(a.rpm)], byAccount := l.byAccount[(a.name, a.key) := |l.heap|])
             else l;
    var b := if (a.name, a.key) in m.byAccount then Some(m.byAccount[(a.name, a.key)]) else None;
    m.(slots := m.slots + Copies(FreshSlot(a, b), Weight(a)))
  }

  function Lay(l: Layout, accts: seq<Account>, k: nat): Layout
    requires k <= |accts|
  {
    if k == 0 then l else AddAccount(Lay(l, accts, k - 1), accts[k - 1])
  }

  function Configured(accts: seq<Account>): (r: seq<Account>)
    ensures |r| > 0
  {
    if |accts| == 0 then [Account("default", "", 0, 0)] else accts
  }

  function NewPool(accts: seq<Account>, ttl: int, sharedRPM: int, policy: Policy, selection: Selection): Pool {
    var base := Layout([], if sharedRPM > 0 then [NewBucket(sharedRPM)] else [], map[]);
    var l := Lay(base, Configured(accts), |Configured(accts)|);
    Pool(l.slots, l.heap, if sharedRPM > 0 then Some(0) else None, 0, ttl, map[], 0, 0, policy, selection, [], 0)
  }
}
