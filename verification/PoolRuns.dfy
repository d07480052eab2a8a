/**
  Runs of the account pool: every operation as a step, and what any sequence of steps preserves.
 */
module PoolRuns {
  import opened Prelude
  import opened TokenBuckets
  import opened PoolState
  import opened PoolAdmission

  /** One operation under the pool's mutex.  `now` is the reading the operation takes. */
  datatype Event =
    | NextCall(id: string, now: int, o: Oracle)
    | Hit429(a: Account, retryAfter: int, now: int)
    | Cool(a: Account, d: int, now: int)
    | Invalidate(a: Account, now: int)
    | Ok(a: Account, since: int)
    | Revalidate(a: Account)
    | BeginCall(a: Account)
    | EndCall(a: Account)
    | EdgeFault(now: int)
    | EdgeHeal
    | Unpin(id: string)

  function Step(p: Pool, e: Event): Pool
    requires Sound(p)
  {
    match e
    case NextCall(id, now, o) => NextAccount(p, id, now, o).pool
    case Hit429(a, ra, now) => RateLimited(p, a, ra, now)
    case Cool(a, d, now) => p.(slots := OnAccount(p.slots, a, Park(d, now)))
    case Invalidate(a, now) => p.(slots := OnAccount(p.slots, a, Refuse(now)))
    case Ok(a, since) => p.(slots := OnAccount(p.slots, a, Served(since)))
    case Revalidate(a) => p.(slots := OnAccount(p.slots, a, Reset))
    case BeginCall(a) => Begin(p, a)
    case EndCall(a) => End(p, a)
    case EdgeFault(now) => FlapStrike(p, now)
    case EdgeHeal => p.(flapStrikes := 0, flapOpenUntil := 0)
    case Unpin(id) => if id == "" then p else p.(sticky := p.sticky - {id})
  }

  /** The reading an event takes; one that takes none keeps the clock. */
  function Reading(e: Event, t: int): int {
    match e
    case NextCall(_, now, _) => now
    case Hit429(_, _, now) => now
    case Cool(_, _, now) => now
    case Invalidate(_, now) => now
    case EdgeFault(now) => now
    case _ => t
  }

  /** Readings never decrease, in lock order. */
  ghost predicate Clocked(es: seq<Event>, t: int) {
    |es| > 0 ==> Reading(es[0], t) >= t && Clocked(es[1..], Reading(es[0], t))
  }

  function After(t: int, es: seq<Event>): int
    decreases |es|
  {
    if |es| == 0 then t else After(Reading(es[0], t), es[1..])
  }

  lemma {:induction false} ClockRuns(es: seq<Event>, t: int)
    requires Clocked(es, t)
    ensures After(t, es) >= t
    decreases |es|
  {
    if |es| > 0 {
      ClockRuns(es[1..], Reading(es[0], t));
    }
  }

  // ---- The invariant -------------------------------------------------------------------------------

  datatype FaultState = FaultState(strikes: nat, cooldown: int, benchedAt: int, invalidated: bool, invalidatedAt: int)

  function Fault(s: Slot): FaultState {
    FaultState(s.strikes, s.cooldown, s.benchedAt, s.invalidated, s.invalidatedAt)
  }

  /** A weighted account benches, strikes and is refused as one. */
  ghost predicate InSync(slots: seq<Slot>) {
    forall i, j :: 0 <= i < |slots| && 0 <= j < |slots| && Same(slots[i].acct, slots[j].acct)
                   ==> Fault(slots[i]) == Fault(slots[j])
  }

  ghost predicate Stamped(slots: seq<Slot>, t: int) {
    forall i :: 0 <= i < |slots| ==>
                  && 0 <= slots[i].benchedAt <= t
                  && 0 <= slots[i].lastUsed <= t
                  && 0 <= slots[i].invalidatedAt <= t
                  && slots[i].cooldown >= 0
  }

  ghost predicate Inv(p: Pool, t: int) {
    && Reached(p, t)
    && InSync(p.slots)
    && Stamped(p.slots, t)
    && |p.sticky| <= MAX_STICKY_PINS
  }

  /** Whatever a run changes, the slots' accounts, their buckets, the policy and the bucket rates
      stay as built. */
  ghost predicate SameShape(p: Pool, q: Pool) {
    && |q.slots| == |p.slots|
    && (forall i :: 0 <= i < |p.slots| ==> q.slots[i].acct == p.slots[i].acct && q.slots[i].bucket == p.slots[i].bucket)
    && |q.heap| == |p.heap|
    && (forall k :: 0 <= k < |p.heap| ==> q.heap[k].rpm == p.heap[k].rpm)
    && q.shared == p.shared && q.policy == p.policy && q.ttl == p.ttl && q.selection == p.selection
  }

  lemma OnAccountKeepsSync(slots: seq<Slot>, a: Account, m: Mark)
    requires InSync(slots)
    ensures InSync(OnAccount(slots, a, m))
  {
    var r := OnAccount(slots, a, m);
    forall i, j | 0 <= i < |r| && 0 <= j < |r| && Same(r[i].acct, r[j].acct)
      ensures Fault(r[i]) == Fault(r[j])
    {
      assert Same(slots[i].acct, slots[j].acct);
      assert Fault(slots[i]) == Fault(slots[j]);
    }
  }

  lemma PinsStayBounded(sticky: map<string, Pin>, ttl: int, id: string, a: Account, now: int)
    requires |sticky| <= 4096
    ensures |PinUpdate(sticky, ttl, id, a, now)| <= 4096
  {
    hide PinTTL;
    if PinTTL(ttl, id) > 0 {
      var swept := if |sticky| >= MAX_STICKY_PINS
                   then map k | k in sticky && now <= sticky[k].expires :: sticky[k]
                   else sticky;
      var room: map<string, Pin> := if |swept| >= MAX_STICKY_PINS then map[] else swept;
      assert |room| < MAX_STICKY_PINS;
      var pin := Pin(a.name, a.key, now + PinTTL(ttl, id));
      AddGrowsByOne(room, id, pin);
    }
  }

  lemma AddGrowsByOne(room: map<string, Pin>, id: string, pin: Pin)
    ensures |room[id := pin]| <= |room| + 1
  {
    assert room[id := pin].Keys == room.Keys + {id};
    assert |room.Keys + {id}| <= |room.Keys| + 1;
  }

  lemma RemovalShrinks(sticky: map<string, Pin>, id: string)
    ensures |sticky - {id}| <= |sticky|
  {
    assert (sticky - {id}).Keys == sticky.Keys - {id};
    SubsetSize((sticky - {id}).Keys, sticky.Keys);
  }

  lemma TakeFromKeeps(heap: seq<Bucket>, k: Option<nat>, now: int)
    requires now > 0 && (k.Some? ==> k.value < |heap|)
    requires forall j :: 0 <= j < |heap| ==> WellFormed(heap[j], now)
    ensures var r := TakeFrom(heap, k, now);
            forall j :: 0 <= j < |r| ==> WellFormed(r[j], now) && r[j].rpm == heap[j].rpm
  {
    if k.Some? {
      TakeKeepsWellFormed(heap[k.value], now);
    }
  }

  lemma GrantKeepsInv(p: Pool, i: nat, now: int)
    requires Inv(p, now) && i < |p.slots|
    ensures Inv(Grant(p, i, now), now) && SameShape(p, Grant(p, i, now))
  {
    TakeFromKeeps(p.heap, p.shared, now);
    TakeFromKeeps(TakeFrom(p.heap, p.shared, now), p.slots[i].bucket, now);
  }

  lemma AdmitKeepsInv(p: Pool, id: string, now: int, keepPin: bool, open: seq<nat>, o: Oracle)
    requires Inv(p, now) && |open| > 0 && InRange(open, |p.slots|)
    ensures Inv(Admit(p, id, now, keepPin, open, o).pool, now)
    ensures SameShape(p, Admit(p, id, now, keepPin, open, o).pool)
  {
    hide PickSlot, PinUpdate, InSync, Stamped, WellFormed, Grant;
    PickInOpen(p, open, o);
    var i := PickSlot(p, open, o).slot;
    GrantKeepsInv(p, i, now);
    PinsStayBounded(p.sticky, p.ttl, id, p.slots[i].acct, now);
    GrantLeavesTheRest(p, i, now);
  }

  lemma GrantLeavesTheRest(p: Pool, i: nat, now: int)
    requires Sound(p) && i < |p.slots|
    ensures var q := Grant(p, i, now);
            && q == p.(slots := q.slots, heap := q.heap)
            && |q.slots| == |p.slots|
            && forall j :: 0 <= j < |p.slots| ==> q.slots[j] == p.slots[j].(lastUsed := q.slots[j].lastUsed)
  {
  }

  lemma NextKeepsInv(p: Pool, id: string, now: int, o: Oracle)
    requires Inv(p, now)
    ensures Inv(NextAccount(p, id, now, o).pool, now)
    ensures SameShape(p, NextAccount(p, id, now, o).pool)
  {
    hide ConsultPin, Scan, SharedReady, RefusalInstant, Admit, Grant, InSync, Stamped, WellFormed, SameShape;
    var advice := ConsultPin(p, id, now);
    RemovalShrinks(p.sticky, id);
    OtherKeepsInv(p, p, now, now);
    if advice.Serve? {
      GrantKeepsInv(p, advice.slot, now);
    } else {
      var sticky := if PinTTL(p.ttl, id) > 0 && advice != Spread then p.sticky - {id} else p.sticky;
      var q := p.(sticky := sticky);
      OtherKeepsInv(p, q, now, now);
      var start := if advice.RotateFrom? then advice.start else p.rr;
      var open := Scan(p, start, now, |p.slots|);
      if |open| > 0 && SharedReady(p, now) == 0 {
        AdmitKeepsInv(q, id, now, advice == Spread, open, o);
        SameShapeIgnoresPins(p, q, Admit(q, id, now, advice == Spread, open, o).pool);
      }
    }
  }

  lemma SameShapeIgnoresPins(p: Pool, q: Pool, r: Pool)
    requires q == p.(sticky := q.sticky) && SameShape(q, r)
    ensures SameShape(p, r)
  {
  }

  /** The reading a mark stamps, if any. */
  function StampOf(m: Mark, t: int): int {
    match m
    case Strike(_, _, now) => now
    case Park(_, now) => now
    case Refuse(now) => now
    case _ => t
  }

  lemma MarkKeepsInv(p: Pool, a: Account, m: Mark, t: int)
    requires Inv(p, t) && StampOf(m, t) >= t
    ensures var q := p.(slots := OnAccount(p.slots, a, m));
            Inv(q, StampOf(m, t)) && SameShape(p, q)
  {
    OnAccountKeepsSync(p.slots, a, m);
  }

  lemma LiveKeepsInv(p: Pool, i: nat, live: nat, t: int)
    requires Inv(p, t) && i < |p.slots|
    ensures var q := p.(slots := p.slots[i := p.slots[i].(live := live)]);
            Inv(q, t) && SameShape(p, q)
  {
  }

  lemma HitKeepsInv(p: Pool, a: Account, retryAfter: int, now: int, t: int)
    requires Inv(p, t) && now >= t
    ensures Inv(RateLimited(p, a, retryAfter, now), now) && SameShape(p, RateLimited(p, a, retryAfter, now))
  {
    hide Inv, SameShape;
    OtherKeepsInv(p, p, t, now);
    var f := FirstSlot(p.slots, a.name, a.key, 0);
    if f.Some? {
      var k := p.slots[f.value].strikes;
      MarkKeepsInv(p, a, Strike(k + 1, Bench(p.policy, k, retryAfter), now), t);
    }
  }

  lemma BeginKeepsInv(p: Pool, a: Account, t: int)
    requires Inv(p, t)
    ensures Inv(Begin(p, a), t) && SameShape(p, Begin(p, a))
  {
    hide Inv, SameShape;
    OtherKeepsInv(p, p, t, t);
    var f := FirstSlot(p.slots, a.name, a.key, 0);
    if f.Some? {
      LiveKeepsInv(p, f.value, p.slots[f.value].live + 1, t);
    }
  }

  lemma EndKeepsInv(p: Pool, a: Account, t: int)
    requires Inv(p, t)
    ensures Inv(End(p, a), t) && SameShape(p, End(p, a))
  {
    hide Inv, SameShape;
    OtherKeepsInv(p, p, t, t);
    var f := FirstSlot(p.slots, a.name, a.key, 0);
    if f.Some? && p.slots[f.value].live > 0 {
      LiveKeepsInv(p, f.value, p.slots[f.value].live - 1, t);
    }
  }

  lemma OtherKeepsInv(p: Pool, q: Pool, t: int, u: int)
    requires Inv(p, t) && u >= t && q.(flapStrikes := p.flapStrikes, flapOpenUntil := p.flapOpenUntil, sticky := p.sticky) == p
    requires |q.sticky| <= |p.sticky|
    ensures Inv(q, u) && SameShape(p, q)
  {
  }

  lemma StepKeepsInv(p: Pool, e: Event, t: int)
    requires Inv(p, t) && Reading(e, t) >= t
    ensures Inv(Step(p, e), Reading(e, t)) && SameShape(p, Step(p, e))
  {
    hide Inv, SameShape, NextAccount, RateLimited, Begin, End, OnAccount;
    match e {
      case NextCall(id, now, o) =>
        OtherKeepsInv(p, p, t, now);
        NextKeepsInv(p, id, now, o);
      case Hit429(a, ra, now) => HitKeepsInv(p, a, ra, now, t);
      case Cool(a, d, now) => MarkKeepsInv(p, a, Park(d, now), t);
      case Invalidate(a, now) => MarkKeepsInv(p, a, Refuse(now), t);
      case Ok(a, since) => MarkKeepsInv(p, a, Served(since), t);
      case Revalidate(a) => MarkKeepsInv(p, a, Reset, t);
      case BeginCall(a) => BeginKeepsInv(p, a, t);
      case EndCall(a) => EndKeepsInv(p, a, t);
      case EdgeFault(now) => OtherKeepsInv(p, FlapStrike(p, now), t, now);
      case EdgeHeal => OtherKeepsInv(p, p.(flapStrikes := 0, flapOpenUntil := 0), t, t);
      case Unpin(id) =>
        RemovalShrinks(p.sticky, id);
        OtherKeepsInv(p, if id == "" then p else p.(sticky := p.sticky - {id}), t, t);
    }
  }

  function Run(p: Pool, es: seq<Event>, t: int): (q: Pool)
    requires Inv(p, t) && Clocked(es, t)
    ensures Inv(q, After(t, es)) && SameShape(p, q)
    decreases |es|
  {
    if |es| == 0 then p
    else
      StepKeepsInv(p, es[0], t);
      Run(Step(p, es[0]), es[1..], Reading(es[0], t))
  }

  // ---- The pool as built -----------------------------------------------------------------------------

  ghost predicate LaidOut(l: Layout, own: nat, now: int) {
    && (forall k :: 0 <= k < |l.heap| ==> WellFormed(l.heap[k], now))
    && (forall a :: a in l.byAccount ==> own <= l.byAccount[a] < |l.heap|)
    && own <= |l.heap|
    && (forall i :: 0 <= i < |l.slots| ==>
                      && l.slots[i] == FreshSlot(l.slots[i].acct, l.slots[i].bucket)
                      && (l.slots[i].bucket.Some? ==> own <= l.slots[i].bucket.value < |l.heap|))
  }

  lemma {:induction false} LayIsLaidOut(l: Layout, accts: seq<Account>, k: nat, own: nat, now: int)
    requires now > 0 && k <= |accts| && LaidOut(l, own, now)
    ensures LaidOut(Lay(l, accts, k), own, now)
    ensures k > 0 ==> |Lay(l, accts, k).slots| > 0
  {
    if k > 0 {
      LayIsLaidOut(l, accts, k - 1, own, now);
    }
  }

  /** A new pool satisfies the invariant, whatever accounts it is built from. */
  lemma NewPoolInv(accts: seq<Account>, ttl: int, sharedRPM: int, policy: Policy, selection: Selection, now: int)
    requires now > 0
    ensures Inv(NewPool(accts, ttl, sharedRPM, policy, selection), now)
  {
    var base := Layout([], if sharedRPM > 0 then [NewBucket(sharedRPM)] else [], map[]);
    LayIsLaidOut(base, Configured(accts), |Configured(accts)|, |base.heap|, now);
  }

  // ---- What a step does to one slot --------------------------------------------------------------------

  predicate Marks(e: Event, s: Slot) {
    (e.Hit429? || e.Cool? || e.Invalidate? || e.Ok? || e.Revalidate?) && Same(s.acct, e.a)
  }

  function MarkFor(y: Policy, e: Event, s: Slot): Mark
    requires Marks(e, s)
  {
    match e
    case Hit429(_, ra, now) => Strike(s.strikes + 1, Bench(y, s.strikes, ra), now)
    case Cool(_, d, now) => Park(d, now)
    case Invalidate(_, now) => Refuse(now)
    case Ok(_, since) => Served(since)
    case Revalidate(_) => Reset
  }

  /** The fault state of each slot moves by the mark of its own account and nothing else. */
  lemma FaultAfterStep(p: Pool, e: Event, t: int, i: nat)
    requires Inv(p, t) && Reading(e, t) >= t && i < |p.slots|
    ensures |Step(p, e).slots| == |p.slots|
    ensures Fault(Step(p, e).slots[i])
         == Fault(if Marks(e, p.slots[i]) then Touch(p.slots[i], MarkFor(p.policy, e, p.slots[i])) else p.slots[i])
  {
    hide Touch;
    match e {
      case NextCall(id, now, o) => NextLeavesFaults(p, id, now, o);
      case Hit429(a, ra, now) =>
        if Same(p.slots[i].acct, a) {
          var f := FirstSlot(p.slots, a.name, a.key, 0);
          assert Fault(p.slots[f.value]) == Fault(p.slots[i]);
        }
      case _ =>
    }
  }

  lemma NextLeavesFaults(p: Pool, id: string, now: int, o: Oracle)
    requires Sound(p)
    ensures var q := NextAccount(p, id, now, o).pool;
            |q.slots| == |p.slots| &&
            forall i :: 0 <= i < |p.slots| ==> q.slots[i] == p.slots[i].(lastUsed := q.slots[i].lastUsed)
  {
    hide ConsultPin, Scan, SharedReady, RefusalInstant, Grant, PickSlot, PinUpdate;
    var r := NextAccount(p, id, now, o);
    var advice := ConsultPin(p, id, now);
    if !BreakerOpen(p, now) && r.slot.Some? {
      if advice.Serve? {
        GrantLeavesTheRest(p, advice.slot, now);
      } else {
        var sticky := if PinTTL(p.ttl, id) > 0 && advice != Spread then p.sticky - {id} else p.sticky;
        GrantLeavesTheRest(p.(sticky := sticky), r.slot.value, now);
      }
    }
  }

  // ---- Cooldowns, marks and the recency rule -----------------------------------------------------------

  /** Exactly which operations shorten a bench: a success that began after the stamp the slot
      carries, or an operator's reset of a terminal account.  429s, cools, billing refusals and
      everything else never do. */
  lemma BenchShortenedExactlyBy(p: Pool, e: Event, t: int, i: nat)
    requires Inv(p, t) && Reading(e, t) >= t && i < |p.slots|
    ensures Step(p, e).slots[i].cooldown < p.slots[i].cooldown <==>
            && p.slots[i].cooldown != 0
            && ((e.Ok? && Same(p.slots[i].acct, e.a) && p.slots[i].benchedAt < e.since)
                || (e.Revalidate? && Same(p.slots[i].acct, e.a) && p.slots[i].invalidated))
  {
    hide NextAccount, Step;
    FaultAfterStep(p, e, t, i);
  }

  /** Exactly which operations lift a billing mark. */
  lemma MarkLiftedExactlyBy(p: Pool, e: Event, t: int, i: nat)
    requires Inv(p, t) && Reading(e, t) >= t && i < |p.slots|
    ensures p.slots[i].invalidated && !Step(p, e).slots[i].invalidated <==>
            && p.slots[i].invalidated
            && ((e.Ok? && Same(p.slots[i].acct, e.a) && p.slots[i].invalidatedAt < e.since)
                || (e.Revalidate? && Same(p.slots[i].acct, e.a)))
  {
    hide NextAccount, Step;
    FaultAfterStep(p, e, t, i);
  }

  /** A step carries the stamps forward unless it clears them. */
  lemma StampsGrow(p: Pool, e: Event, t: int, i: nat)
    requires Inv(p, t) && Reading(e, t) >= t && i < |p.slots|
    requires Step(p, e).slots[i].cooldown >= p.slots[i].cooldown
    ensures p.slots[i].cooldown > 0 ==> Step(p, e).slots[i].benchedAt >= p.slots[i].benchedAt
  {
    hide NextAccount, Step;
    FaultAfterStep(p, e, t, i);
  }

  /** No success in the run began after `stamp`, and no operator reset the account. */
  ghost predicate OnlyStragglers(es: seq<Event>, a: Account, stamp: int) {
    forall k :: 0 <= k < |es| ==>
                  && (es[k].Ok? && Same(a, es[k].a) ==> es[k].since <= stamp)
                  && !(es[k].Revalidate? && Same(a, es[k].a))
  }

  /** A bench survives every straggler: however many overlapping calls of the account succeed, while
      none of them began after the bench was stamped, the cooldown at the end of the run is at least
      the one at its start. */
  lemma {:induction false} BenchOutlivesStragglers(p: Pool, es: seq<Event>, t: int, i: nat)
    requires Inv(p, t) && Clocked(es, t) && i < |p.slots|
    requires p.slots[i].cooldown > 0
    requires OnlyStragglers(es, p.slots[i].acct, p.slots[i].benchedAt)
    ensures Run(p, es, t).slots[i].cooldown >= p.slots[i].cooldown
    ensures Run(p, es, t).slots[i].benchedAt >= p.slots[i].benchedAt
    decreases |es|
  {
    hide NextAccount, Step, InSync, WellFormed;
    if |es| > 0 {
      var e := es[0];
      var q := Step(p, e);
      BenchShortenedExactlyBy(p, e, t, i);
      StampsGrow(p, e, t, i);
      StepKeepsInv(p, e, t);
      assert OnlyStragglers(es[1..], q.slots[i].acct, q.slots[i].benchedAt);
      BenchOutlivesStragglers(q, es[1..], Reading(e, t), i);
    }
  }

  /** The same for a billing mark: it outlives every success that began before the refusal. */
  lemma {:induction false} MarkOutlivesStragglers(p: Pool, es: seq<Event>, t: int, i: nat)
    requires Inv(p, t) && Clocked(es, t) && i < |p.slots|
    requires p.slots[i].invalidated
    requires OnlyStragglers(es, p.slots[i].acct, p.slots[i].invalidatedAt)
    ensures Run(p, es, t).slots[i].invalidated
    ensures Run(p, es, t).slots[i].invalidatedAt >= p.slots[i].invalidatedAt
    decreases |es|
  {
    hide NextAccount, Step, InSync, WellFormed;
    if |es| > 0 {
      var e := es[0];
      var q := Step(p, e);
      MarkLiftedExactlyBy(p, e, t, i);
      MarkStampGrows(p, e, t, i);
      StepKeepsInv(p, e, t);
      assert OnlyStragglers(es[1..], q.slots[i].acct, q.slots[i].invalidatedAt);
      MarkOutlivesStragglers(q, es[1..], Reading(e, t), i);
    }
  }

  lemma MarkStampGrows(p: Pool, e: Event, t: int, i: nat)
    requires Inv(p, t) && Reading(e, t) >= t && i < |p.slots|
    requires p.slots[i].invalidated && Step(p, e).slots[i].invalidated
    ensures Step(p, e).slots[i].invalidatedAt >= p.slots[i].invalidatedAt
  {
    hide NextAccount, Step;
    FaultAfterStep(p, e, t, i);
  }

  // ---- The 429 ladder -----------------------------------------------------------------------------------

  function Hits(es: seq<Event>, a: Account): nat {
    if |es| == 0 then 0
    else (if es[0].Hit429? && Same(a, es[0].a) then 1 else 0) + Hits(es[1..], a)
  }

  /** No success and no operator reset of the account: its 429s are "in a row", whatever else
      happens between them. */
  ghost predicate NoReprieve(es: seq<Event>, a: Account) {
    forall k :: 0 <= k < |es| ==> !((es[k].Ok? || es[k].Revalidate?) && Same(a, es[k].a))
  }

  lemma StrikesStep(p: Pool, e: Event, t: int, i: nat)
    requires Inv(p, t) && Reading(e, t) >= t && i < |p.slots|
    requires !((e.Ok? || e.Revalidate?) && Same(p.slots[i].acct, e.a))
    ensures Step(p, e).slots[i].strikes
         == p.slots[i].strikes + if e.Hit429? && Same(p.slots[i].acct, e.a) then 1 else 0
  {
    hide NextAccount, Step;
    FaultAfterStep(p, e, t, i);
  }

  lemma {:induction false} StrikesCountHits(p: Pool, es: seq<Event>, t: int, i: nat)
    requires Inv(p, t) && Clocked(es, t) && i < |p.slots|
    requires NoReprieve(es, p.slots[i].acct)
    ensures Run(p, es, t).slots[i].strikes == p.slots[i].strikes + Hits(es, p.slots[i].acct)
    decreases |es|
  {
    hide NextAccount, Step, InSync, Stamped, WellFormed;
    if |es| > 0 {
      StrikesStep(p, es[0], t, i);
      StepKeepsInv(p, es[0], t);
      StrikesCountHits(Step(p, es[0]), es[1..], Reading(es[0], t), i);
    }
  }

  lemma BenchOfHit(p: Pool, t: int, i: nat, a: Account, retryAfter: int, now: int)
    requires Inv(p, t) && now >= t && i < |p.slots| && Same(p.slots[i].acct, a)
    ensures RateLimited(p, a, retryAfter, now).slots[i].cooldown
         == Max(p.slots[i].cooldown, Max(now, now + Bench(p.policy, p.slots[i].strikes, retryAfter)))
  {
    var f := FirstSlot(p.slots, a.name, a.key, 0);
    assert Fault(p.slots[f.value]) == Fault(p.slots[i]);
  }

  /** The ladder over any run: an unhinted 429 that follows k others in a row, on any slot of the
      account, benches every slot of it until at least now + min(cap, base * 2^min(k, 3)), and to
      exactly that instant unless a longer bench stands. */
  lemma {:induction false} LadderBench(p: Pool, es: seq<Event>, t: int, i: nat, a: Account, retryAfter: int, now: int)
    requires Inv(p, t) && Clocked(es, t) && i < |p.slots|
    requires NoReprieve(es, p.slots[i].acct) && p.slots[i].strikes == 0
    requires Same(p.slots[i].acct, a) && now >= After(t, es) && retryAfter <= 0
    ensures var q := Run(p, es, t);
            var k := Hits(es, a);
            var step := Min(LadderCap(p.policy), LadderBase(p.policy) * Power2(Min(k, 3)));
            Step(q, Hit429(a, retryAfter, now)).slots[i].cooldown == Max(q.slots[i].cooldown, now + step)
  {
    hide NextAccount, Step, InSync, Stamped, WellFormed, LadderBase, LadderCap, Hits, Power2, Run, Clocked;
    StrikesCountHits(p, es, t, i);
    HitsOfSame(es, p.slots[i].acct, a);
    UnhintedHit(Run(p, es, t), After(t, es), i, a, retryAfter, now);
  }

  lemma UnhintedHit(p: Pool, t: int, i: nat, a: Account, retryAfter: int, now: int)
    requires Inv(p, t) && now >= t && i < |p.slots| && Same(p.slots[i].acct, a) && retryAfter <= 0
    ensures i < |Step(p, Hit429(a, retryAfter, now)).slots|
    ensures var step := Min(LadderCap(p.policy), LadderBase(p.policy) * Power2(Min(p.slots[i].strikes, 3)));
            Step(p, Hit429(a, retryAfter, now)).slots[i].cooldown == Max(p.slots[i].cooldown, now + step)
  {
    hide RateLimited, InSync, Stamped, PoolState.Bench;
    StepOfHit(p, a, retryAfter, now);
    BenchOfHit(p, t, i, a, retryAfter, now);
    UnhintedBench(p.policy, p.slots[i].strikes, retryAfter);
  }

  lemma StepOfHit(p: Pool, a: Account, retryAfter: int, now: int)
    requires Sound(p)
    ensures Step(p, Hit429(a, retryAfter, now)) == RateLimited(p, a, retryAfter, now)
    ensures |RateLimited(p, a, retryAfter, now).slots| == |p.slots|
  {
  }

  lemma LadderStepPositive(y: Policy, k: nat)
    ensures LadderStep(y, k) > 0
  {
    Power2Positive(Min(k, 3));
    Product(LadderBase(y), Power2(Min(k, 3)));
  }

  lemma UnhintedBench(y: Policy, k: nat, retryAfter: int)
    requires retryAfter <= 0
    ensures Bench(y, k, retryAfter) == Min(LadderCap(y), LadderBase(y) * Power2(Min(k, 3)))
    ensures Bench(y, k, retryAfter) > 0
  {
    LadderStepPositive(y, k);
  }

  lemma {:induction false} HitsOfSame(es: seq<Event>, a: Account, b: Account)
    requires Same(a, b)
    ensures Hits(es, a) == Hits(es, b)
  {
    if |es| > 0 {
      HitsOfSame(es[1..], a, b);
    }
  }

  lemma {:induction false} Power2Positive(k: nat)
    ensures Power2(k) >= 1
  {
    if k > 0 {
      Power2Positive(k - 1);
    }
  }

  // ---- Token conservation ---------------------------------------------------------------------------------

  ghost predicate Charges(p: Pool, e: Event, k: nat)
    requires Sound(p)
  {
    && e.NextCall?
    && var r := NextAccount(p, e.id, e.now, e.o);
       r.slot.Some? && (p.shared == Some(k) || p.slots[r.slot.value].bucket == Some(k))
  }

  /** Grants that charged bucket k, over a run. */
  ghost function Grants(p: Pool, es: seq<Event>, t: int, k: nat): nat
    requires Inv(p, t) && Clocked(es, t)
    decreases |es|
  {
    if |es| == 0 then 0
    else
      StepKeepsInv(p, es[0], t);
      (if Charges(p, es[0], k) then 1 else 0) + Grants(Step(p, es[0]), es[1..], Reading(es[0], t), k)
  }

  /** Those of them that found the bucket a sub-nanosecond remainder short and were not charged. */
  ghost function FreeGrants(p: Pool, es: seq<Event>, t: int, k: nat): nat
    requires Inv(p, t) && Clocked(es, t) && k < |p.heap|
    decreases |es|
  {
    if |es| == 0 then 0
    else
      StepKeepsInv(p, es[0], t);
      (if Charges(p, es[0], k) && SubTick(p.heap[k], Reading(es[0], t)) then 1 else 0)
      + FreeGrants(Step(p, es[0]), es[1..], Reading(es[0], t), k)
  }

  /** The instant from which bucket k refills: its last take, or the first grant of the run. */
  ghost function Origin(p: Pool, es: seq<Event>, t: int, k: nat): int
    requires Inv(p, t) && Clocked(es, t) && k < |p.heap|
    decreases |es|
  {
    if p.heap[k].last != 0 || |es| == 0 then p.heap[k].last
    else if Charges(p, es[0], k) then Reading(es[0], t)
    else
      StepKeepsInv(p, es[0], t);
      Origin(Step(p, es[0]), es[1..], Reading(es[0], t), k)
  }

  lemma HeapStep(p: Pool, e: Event, t: int, k: nat)
    requires Inv(p, t) && Reading(e, t) >= t && k < |p.heap|
    ensures Step(p, e).heap[k] == if Charges(p, e, k) then AfterTake(p.heap[k], Reading(e, t)) else p.heap[k]
  {
    match e {
      case NextCall(id, now, o) =>
        var r := NextAccount(p, id, now, o);
        if r.slot.Some? {
          assert r.pool.heap == TakeFrom(TakeFrom(p.heap, p.shared, now), p.slots[r.slot.value].bucket, now);
        }
      case _ =>
    }
  }

  lemma ChargedTakeSucceeds(p: Pool, e: Event, t: int, k: nat)
    requires Inv(p, t) && Reading(e, t) >= t && k < |p.heap| && Charges(p, e, k)
    ensures Level(p.heap[k], e.now) >= TOKEN <==> !SubTick(p.heap[k], e.now)
  {
    GrantedTakesSucceed(p, e.id, e.now, e.o, k);
  }

  lemma ChargeLedger(b: Bucket, now: int, from: int)
    requires now > 0 && WellFormed(b, now)
    requires from == if b.last != 0 then b.last else now
    requires Level(b, now) >= TOKEN <==> !SubTick(b, now)
    ensures var c := AfterTake(b, now);
            c.last == now &&
            c.tokens + TOKEN * (if SubTick(b, now) then 0 else 1) == b.tokens + b.rpm * (now - from)
  {
  }

  /** Two ledgers that meet at b add up. */
  lemma Telescope(r: int, t0: int, t1: int, t2: int, g: int, g': int, a: int, b: int, c: int)
    requires b + TOKEN * g == a + r * (t1 - t0)
    requires c + TOKEN * g' == b + r * (t2 - t1)
    ensures c + TOKEN * (g + g') == a + r * (t2 - t0)
  {
    assert r * (t1 - t0) + r * (t2 - t1) == r * (t2 - t0);
  }

  ghost predicate Ledger(b0: Bucket, b1: Bucket, paid: int, origin: int) {
    b1.tokens + TOKEN * paid == b0.tokens + b0.rpm * (b1.last - origin)
  }

  lemma LedgerArithmetic(b: Bucket, now: int, b1: Bucket, paid: int)
    requires now > 0 && WellFormed(b, now)
    requires Level(b, now) >= TOKEN <==> !SubTick(b, now)
    requires Ledger(AfterTake(b, now), b1, paid, now)
    ensures Ledger(b, b1, paid + (if SubTick(b, now) then 0 else 1), if b.last != 0 then b.last else now)
  {
    var from := if b.last != 0 then b.last else now;
    var c := AfterTake(b, now);
    ChargeLedger(b, now, from);
    Telescope(b.rpm, from, now, b1.last, if SubTick(b, now) then 0 else 1, paid, b.tokens, c.tokens, b1.tokens);
  }

  lemma LedgerStep(p: Pool, e: Event, t: int, k: nat, b1: Bucket, paid: int)
    requires Inv(p, t) && Reading(e, t) >= t && k < |p.heap| && Charges(p, e, k)
    requires Ledger(AfterTake(p.heap[k], e.now), b1, paid, e.now)
    ensures var b := p.heap[k];
            Ledger(b, b1, paid + (if SubTick(b, e.now) then 0 else 1), if b.last != 0 then b.last else e.now)
  {
    hide NextAccount, Level, AfterTake, SubTick, Ledger, InSync, Stamped;
    ChargedTakeSucceeds(p, e, t, k);
    assert WellFormed(p.heap[k], e.now);
    LedgerArithmetic(p.heap[k], e.now, b1, paid);
  }

  lemma LedgerAcrossStep(p: Pool, e: Event, t: int, k: nat, b1: Bucket, paid: int, origin: int)
    requires Inv(p, t) && Reading(e, t) >= t && k < |p.heap|
    requires |Step(p, e).heap| == |p.heap| && Step(p, e).heap[k].rpm == p.heap[k].rpm
    requires Ledger(Step(p, e).heap[k], b1, paid, origin)
    requires Charges(p, e, k) ==> origin == Step(p, e).heap[k].last
    ensures var spent := if Charges(p, e, k) && !SubTick(p.heap[k], Reading(e, t)) then 1 else 0;
            Ledger(p.heap[k], b1, paid + spent,
                   if !Charges(p, e, k) then origin
                   else if p.heap[k].last != 0 then p.heap[k].last else Reading(e, t))
  {
    hide NextAccount, Step;
    HeapStep(p, e, t, k);
    if Charges(p, e, k) {
      LedgerStep(p, e, t, k, b1, paid);
    }
  }

  /** Conservation, over any run and for the shared bucket and every own bucket alike, however many
      weighted slots share it: what the bucket holds plus what its charged grants spent is what it
      held at the start plus what time refilled. */
  lemma {:induction false} TokensConserved(p: Pool, es: seq<Event>, t: int, k: nat)
    requires Inv(p, t) && Clocked(es, t) && k < |p.heap|
    ensures Ledger(p.heap[k], Run(p, es, t).heap[k],
                   Grants(p, es, t, k) - FreeGrants(p, es, t, k), Origin(p, es, t, k))
    decreases |es|
  {
    hide NextAccount, Step, Charges, Stamped, InSync, WellFormed, SubTick, Ledger;
    if |es| == 0 {
      LedgerStart(p.heap[k]);
    } else {
      var e := es[0];
      var u := Reading(e, t);
      StepKeepsInv(p, e, t);
      var q := Step(p, e);
      TokensConserved(q, es[1..], u, k);
      OriginAfterCharge(p, e, t, k);
      LedgerAcrossStep(p, e, t, k, Run(q, es[1..], u).heap[k],
                       Grants(q, es[1..], u, k) - FreeGrants(q, es[1..], u, k), Origin(q, es[1..], u, k));
    }
  }

  lemma LedgerStart(b: Bucket)
    ensures Ledger(b, b, 0, b.last)
  {
  }

  /** A charged bucket has been taken from, and only a charge changes it. */
  lemma OriginAfterCharge(p: Pool, e: Event, t: int, k: nat)
    requires Inv(p, t) && Reading(e, t) >= t && k < |p.heap|
    ensures Step(p, e).heap[k].last == if Charges(p, e, k) then Reading(e, t) else p.heap[k].last
    ensures Charges(p, e, k) ==> Reading(e, t) != 0
  {
    hide NextAccount, Step;
    HeapStep(p, e, t, k);
  }

  /** So a new pool never grants more than two tokens' worth plus the refill, uncharged
      sub-nanosecond grants apart. */
  lemma {:induction false} GrantBudget(p: Pool, es: seq<Event>, t: int, k: nat)
    requires Inv(p, t) && Clocked(es, t) && k < |p.heap|
    requires p.heap[k] == NewBucket(p.heap[k].rpm)
    ensures Run(p, es, t).heap[k].tokens >= 0
    ensures TOKEN * (Grants(p, es, t, k) - FreeGrants(p, es, t, k))
         <= 2 * TOKEN + p.heap[k].rpm * (After(t, es) - Origin(p, es, t, k))
  {
    hide NextAccount, Step, Run, Grants, FreeGrants, Origin, InSync, Stamped, Clocked;
    TokensConserved(p, es, t, k);
    var b := Run(p, es, t).heap[k];
    assert WellFormed(b, After(t, es));
    Budget(b.last - Origin(p, es, t, k), After(t, es) - Origin(p, es, t, k), p.heap[k].rpm);
  }

  lemma Budget(a: int, b: int, r: int)
    requires a <= b && r > 0
    ensures r * a <= r * b
  {
    Ordered(a, b, r);
  }

  /** Picks at strictly increasing readings are all charged. */
  ghost predicate Ticking(es: seq<Event>, t: int) {
    |es| > 0 ==> (es[0].NextCall? ==> es[0].now > t) && Ticking(es[1..], Reading(es[0], t))
  }

  lemma {:induction false} TickingGrantsAreCharged(p: Pool, es: seq<Event>, t: int, k: nat)
    requires Inv(p, t) && Clocked(es, t) && Ticking(es, t) && k < |p.heap|
    ensures FreeGrants(p, es, t, k) == 0
    decreases |es|
  {
    if |es| > 0 {
      StepKeepsInv(p, es[0], t);
      TickingGrantsAreCharged(Step(p, es[0]), es[1..], Reading(es[0], t), k);
    }
  }

  // ---- Calls in flight ---------------------------------------------------------------------------------------

  function Begun(es: seq<Event>, a: Account): nat {
    if |es| == 0 then 0 else (if es[0].BeginCall? && Same(a, es[0].a) then 1 else 0) + Begun(es[1..], a)
  }

  function Ended(es: seq<Event>, a: Account): nat {
    if |es| == 0 then 0 else (if es[0].EndCall? && Same(a, es[0].a) then 1 else 0) + Ended(es[1..], a)
  }

  /** Every end pairs with an earlier begin, given `open` calls already in flight. */
  ghost predicate Paired(es: seq<Event>, a: Account, open: nat) {
    |es| > 0 ==>
      if es[0].BeginCall? && Same(a, es[0].a) then Paired(es[1..], a, open + 1)
      else if es[0].EndCall? && Same(a, es[0].a) then open > 0 && Paired(es[1..], a, open - 1)
      else Paired(es[1..], a, open)
  }

  lemma LiveStep(p: Pool, e: Event, t: int, a: Account, i: nat)
    requires Inv(p, t) && Reading(e, t) >= t
    requires i < |p.slots| && Same(p.slots[i].acct, a)
    ensures Step(p, e).slots[i].live
         == if FirstSlot(p.slots, a.name, a.key, 0) != Some(i) then p.slots[i].live
            else if e.BeginCall? && Same(a, e.a) then p.slots[i].live + 1
            else if e.EndCall? && Same(a, e.a) && p.slots[i].live > 0 then p.slots[i].live - 1
            else p.slots[i].live
  {
    hide InSync, Stamped, WellFormed, Touch;
    match e {
      case NextCall(id, now, o) => NextLeavesFaults(p, id, now, o);
      case BeginCall(b) =>
      case EndCall(b) =>
      case _ =>
    }
  }

  lemma {:induction false} FirstSlotOfSameShape(p: Pool, q: Pool, a: Account, from: nat)
    requires SameShape(p, q) && from <= |p.slots|
    ensures FirstSlot(q.slots, a.name, a.key, from) == FirstSlot(p.slots, a.name, a.key, from)
    decreases |p.slots| - from
  {
    if from < |p.slots| {
      FirstSlotOfSameShape(p, q, a, from + 1);
    }
  }

  /** In-flight accounting under any interleaving: the first slot of an account counts the calls
      begun and not ended, and its other weighted slots never count any.  With weight 1 the first
      slot is the only one. */
  lemma {:induction false} LiveCountsCallsInFlight(p: Pool, es: seq<Event>, t: int, a: Account, i: nat)
    requires Inv(p, t) && Clocked(es, t)
    requires i < |p.slots| && Same(p.slots[i].acct, a)
    requires FirstSlot(p.slots, a.name, a.key, 0) == Some(i) ==> Paired(es, a, p.slots[i].live)
    ensures Run(p, es, t).slots[i].live
         == if FirstSlot(p.slots, a.name, a.key, 0) == Some(i)
            then p.slots[i].live + Begun(es, a) - Ended(es, a)
            else p.slots[i].live
    decreases |es|
  {
    hide NextAccount, Step, InSync, Stamped, WellFormed;
    if |es| > 0 {
      LiveStep(p, es[0], t, a, i);
      StepKeepsInv(p, es[0], t);
      FirstSlotOfSameShape(p, Step(p, es[0]), a, 0);
      LiveCountsCallsInFlight(Step(p, es[0]), es[1..], Reading(es[0], t), a, i);
    }
  }

  // ---- The edge breaker -----------------------------------------------------------------------------------------

  /** Edge faults since the last success. */
  function FaultsInARow(es: seq<Event>, k: nat): nat {
    if |es| == 0 then k
    else FaultsInARow(es[1..], if es[0].EdgeFault? then k + 1 else if es[0].EdgeHeal? then 0 else k)
  }

  lemma BreakerStep(p: Pool, e: Event, t: int)
    requires Inv(p, t) && Reading(e, t) >= t
    ensures Step(p, e).flapStrikes
         == if e.EdgeFault? then p.flapStrikes + 1 else if e.EdgeHeal? then 0 else p.flapStrikes
    ensures e.EdgeFault? ==> Step(p, e) == FlapStrike(p, e.now)
    ensures e.EdgeHeal? ==> Step(p, e).flapOpenUntil == 0
    ensures !e.EdgeFault? && !e.EdgeHeal? ==> Step(p, e).flapOpenUntil == p.flapOpenUntil
    ensures Step(p, e).policy == p.policy
  {
    match e {
      case NextCall(id, now, o) =>
      case BeginCall(a) =>
      case EndCall(a) =>
      case _ =>
    }
  }

  lemma {:induction false} BreakerCountsFaults(p: Pool, es: seq<Event>, t: int)
    requires Inv(p, t) && Clocked(es, t)
    requires p.flapOpenUntil != 0 ==> p.flapStrikes >= FlapTrip(p.policy)
    ensures var q := Run(p, es, t);
            && q.flapStrikes == FaultsInARow(es, p.flapStrikes)
            && (q.flapOpenUntil != 0 ==> q.flapStrikes >= FlapTrip(p.policy))
    decreases |es|
  {
    hide NextAccount, Step, InSync, Stamped, WellFormed;
    if |es| > 0 {
      StepKeepsInv(p, es[0], t);
      BreakerStep(p, es[0], t);
      BreakerCountsFaults(Step(p, es[0]), es[1..], Reading(es[0], t));
    }
  }

  /** The breaker never parks for longer than the window from the latest reading. */
  lemma {:induction false} ParksNoLonger(p: Pool, es: seq<Event>, t: int)
    requires Inv(p, t) && Clocked(es, t) && p.flapOpenUntil <= t + FlapPark(p.policy)
    ensures Run(p, es, t).flapOpenUntil <= After(t, es) + FlapPark(p.policy)
    decreases |es|
  {
    hide NextAccount, Step, InSync, Stamped, WellFormed;
    if |es| > 0 {
      StepKeepsInv(p, es[0], t);
      BreakerStep(p, es[0], t);
      ParksNoLonger(Step(p, es[0]), es[1..], Reading(es[0], t));
    }
  }

  /** The breaker is open exactly while a full row of edge faults stands: closed before the
      threshold-th, four unless configured; from it on parked for the whole window after the last fault,
      15 seconds unless configured, and no longer. */
  lemma {:induction false} BreakerTripsOnTheRow(p: Pool, es: seq<Event>, t: int, now: int)
    requires Inv(p, t) && Clocked(es, t) && now >= After(t, es)
    requires p.flapOpenUntil == 0 && p.flapStrikes == 0
    ensures var trip := if p.policy.flapThreshold > 0 then p.policy.flapThreshold else 4;
            var park := if p.policy.flapOpen > 0 then p.policy.flapOpen else 15_000_000_000;
            var q := Step(Run(p, es, t), EdgeFault(now));
            && (FaultsInARow(es, 0) < trip ==> !BreakerOpen(Run(p, es, t), now))
            && (FaultsInARow(es, 0) + 1 >= trip ==>
                  forall u :: u >= now ==> (BreakerOpen(q, u) <==> u < now + park))
  {
    hide NextAccount, Step, InSync, Stamped, WellFormed;
    BreakerCountsFaults(p, es, t);
    ParksNoLonger(p, es, t);
    BreakerStep(Run(p, es, t), EdgeFault(now), After(t, es));
  }
}
