/**
  Sticky round-robin over a combo's targets: the state that outlives a request, the rotation at its
  head and the bookkeeping after a success.
 */
module RoundRobin {
  import opened Prelude

  datatype Target = Target(provider: string, model: string)

  /** Indices are in the configured order; winner is -1 when no run is under way. */
  datatype RR = RR(counter: int, winner: int, run: int)

  const FRESH: RR := RR(0, -1, 0)

  function Limit(configured: int): (l: int)
    ensures 1 <= l <= 1000
  {
    if configured > 0 then Min(configured, 1000) else 3
  }

  function Lead(st: RR, limit: int, n: int): int
    requires n > 0
  {
    if st.winner >= 0 && st.run < limit && st.winner < n then st.winner else st.counter % n
  }

  function Rotate(targets: seq<Target>, lead: nat): (r: seq<Target>)
    requires lead <= |targets|
    ensures |r| == |targets|
  {
    targets[lead..] + targets[..lead]
  }

  /** A success of rotated index idx on a request that was led by `lead`. */
  function Record(st: RR, limit: int, n: int, lead: int, idx: int): RR
    requires n > 0
  {
    var orig := if lead > 0 then (idx + lead) % n else idx;
    var s := if idx == 0 && st.winner == orig then st.(run := st.run + 1) else st.(winner := orig, run := 1);
    if s.run >= limit then RR(orig + 1, -1, 0) else s
  }

  ghost predicate Inv(st: RR, limit: int, n: int) {
    && 0 <= st.counter <= n
    && ((st.winner == -1 && st.run == 0) || (0 <= st.winner < n && 1 <= st.run < limit))
  }

  // ---- Any overlap of requests ------------------------------------------------------------------------

  /** A request takes its lead when it starts and keeps it until one of its legs succeeds. */
  datatype Event = Start(req: nat) | Success(req: nat, idx: nat)

  datatype World = World(st: RR, leads: map<nat, nat>)

  ghost predicate WorldInv(w: World, limit: int, n: int) {
    Inv(w.st, limit, n) && forall r :: r in w.leads ==> w.leads[r] < n
  }

  lemma LeadInRange(st: RR, limit: int, n: int)
    requires n > 0 && Inv(st, limit, n)
    ensures 0 <= Lead(st, limit, n) < n
  {
  }

  lemma ModRange(x: int, n: int)
    requires n > 0
    ensures 0 <= x % n < n
  {
  }

  lemma RecordKeepsInv(st: RR, limit: int, n: int, lead: int, idx: int)
    requires n > 0 && limit >= 1 && 0 <= lead < n && 0 <= idx < n && Inv(st, limit, n)
    ensures Inv(Record(st, limit, n, lead, idx), limit, n)
  {
    ModRange(idx + lead, n);
  }

  function StepWorld(w: World, limit: int, n: int, e: Event): World
    requires n > 0 && limit >= 1 && WorldInv(w, limit, n)
    requires e.Success? ==> e.idx < n
    ensures WorldInv(StepWorld(w, limit, n, e), limit, n)
  {
    match e
    case Start(req) =>
      LeadInRange(w.st, limit, n);
      w.(leads := w.leads[req := Lead(w.st, limit, n)])
    case Success(req, idx) =>
      if req !in w.leads then w
      else
        RecordKeepsInv(w.st, limit, n, w.leads[req], idx);
        w.(st := Record(w.st, limit, n, w.leads[req], idx))
  }

  function RunWorld(w: World, limit: int, n: int, es: seq<Event>): (r: World)
    requires n > 0 && limit >= 1 && WorldInv(w, limit, n)
    requires forall j :: 0 <= j < |es| && es[j].Success? ==> es[j].idx < n
    ensures WorldInv(r, limit, n)
    decreases |es|
  {
    if |es| == 0 then w else RunWorld(StepWorld(w, limit, n, es[0]), limit, n, es[1..])
  }

  /** However requests overlap, no winner stands with a run of 0, no run reaches the limit and the
      winner is always a target. */
  lemma {:induction false} OverlapKeepsInv(limit: int, n: int, es: seq<Event>)
    requires n > 0 && limit >= 1
    requires forall j :: 0 <= j < |es| && es[j].Success? ==> es[j].idx < n
    ensures var st := RunWorld(World(FRESH, map[]), limit, n, es).st;
            && (st.winner == -1 <==> st.run == 0)
            && (st.winner != -1 ==> 0 <= st.winner < n && 1 <= st.run < limit)
            && 0 <= st.counter <= n
  {
    assert Inv(RunWorld(World(FRESH, map[]), limit, n, es).st, limit, n);
  }

  // ---- Serial requests -----------------------------------------------------------------------------------

  /** After a serial success on rotated leg idx, a fallback or not, the next request leads with the
      leg that served, or with its successor once that leg's run is spent. */
  lemma NextLeadsWithServer(st: RR, limit: int, n: int, idx: int)
    requires n > 0 && limit >= 1 && Inv(st, limit, n) && 0 <= idx < n
    ensures var lead := Lead(st, limit, n);
            var served := (idx + lead) % n;
            var spent := if idx == 0 && st.winner == served then st.run + 1 >= limit else limit == 1;
            Lead(Record(st, limit, n, lead, idx), limit, n) == if spent then (served + 1) % n else served
  {
    var lead := Lead(st, limit, n);
    LeadInRange(st, limit, n);
    ModRange(idx + lead, n);
    if lead == 0 {
      SmallMod(idx, n);
    }
    if idx == 0 {
      SmallMod(lead, n);
    }
  }

  /** The state after `done` serial requests that all succeeded on their leader. */
  function Serial(limit: int, n: int, done: nat): (st: RR)
    requires n > 0 && limit >= 1
  {
    if done == 0 then FRESH
    else
      var st := Serial(limit, n, done - 1);
      Record(st, limit, n, Lead(st, limit, n), 0)
  }

  function Canon(limit: int, n: int, done: nat): RR
    requires n > 0 && limit >= 1
  {
    var q, r := done / limit, done % limit;
    RR(if q == 0 then 0 else (q - 1) % n + 1, if r == 0 then -1 else q % n, r)
  }

  lemma DivStep(i: nat, d: int)
    requires d >= 1
    ensures i % d == d - 1 ==> (i + 1) / d == i / d + 1 && (i + 1) % d == 0
    ensures i % d < d - 1 ==> (i + 1) / d == i / d && (i + 1) % d == i % d + 1
  {
    var q, r := i / d, i % d;
    assert i == q * d + r;
    if r == d - 1 {
      Quotient(i + 1, d, q + 1, 0);
    } else {
      Quotient(i + 1, d, q, r + 1);
    }
  }

  lemma ModSucc(q: int, n: int)
    requires n > 0 && q >= 0
    ensures ((q % n) + 1) % n == (q + 1) % n
  {
    var k, r := q / n, q % n;
    assert q == k * n + r;
    if r == n - 1 {
      Quotient(q + 1, n, k + 1, 0);
      Quotient(r + 1, n, 1, 0);
    } else {
      Quotient(q + 1, n, k, r + 1);
      SmallMod(r + 1, n);
    }
  }

  lemma CanonLead(limit: int, n: int, done: nat)
    requires n > 0 && limit >= 1
    ensures Lead(Canon(limit, n, done), limit, n) == (done / limit) % n
    ensures 0 <= (done / limit) % n < n
  {
    var q, r := done / limit, done % limit;
    ModRange(q, n);
    if r == 0 {
      if q == 0 {
        SmallMod(0, n);
      } else {
        ModSucc(q - 1, n);
      }
    }
  }

  lemma {:induction false} SerialIsCanon(limit: int, n: int, done: nat)
    requires n > 0 && limit >= 1
    ensures Serial(limit, n, done) == Canon(limit, n, done)
  {
    if done == 0 {
      SmallMod(0, limit);
    } else {
      var i := done - 1;
      SerialIsCanon(limit, n, i);
      CanonLead(limit, n, i);
      DivStep(i, limit);
      SmallMod((i / limit) % n, n);
    }
  }

  /** Over serial all-success requests each target leads exactly `limit` times in a row: the k-th
      request, counted from 0, is led by target (k / limit) mod n. */
  lemma {:induction false} LimitTurnsEach(limit: int, n: int, k: nat)
    requires n > 0 && limit >= 1
    ensures Lead(Serial(limit, n, k), limit, n) == (k / limit) % n
  {
    SerialIsCanon(limit, n, k);
    CanonLead(limit, n, k);
  }

  /** In turns of three unless configured, and of the configured length up to 1000. */
  lemma {:induction false} ConfiguredTurnsEach(configured: int, n: int, k: nat)
    requires n > 0
    ensures var turn := if configured <= 0 then 3 else if configured < 1000 then configured else 1000;
            Lead(Serial(Limit(configured), n, k), Limit(configured), n) == (k / turn) % n
  {
    LimitTurnsEach(Limit(configured), n, k);
  }

  // ---- The rotation ------------------------------------------------------------------------------------------

  /** Rotated position j holds configured target (j + lead) mod n; nothing is lost. */
  lemma RotateIsOffset(targets: seq<Target>, lead: nat, j: nat)
    requires lead < |targets| && j < |targets|
    ensures Rotate(targets, lead)[j] == targets[(j + lead) % |targets|]
  {
    var n := |targets|;
    if j + lead < n {
      SmallMod(j + lead, n);
    } else {
      Quotient(j + lead, n, 1, j + lead - n);
    }
  }

  lemma RotateIsPermutation(targets: seq<Target>, lead: nat)
    requires lead <= |targets|
    ensures multiset(Rotate(targets, lead)) == multiset(targets)
  {
    assert targets == targets[..lead] + targets[lead..];
  }

  /** The position a success is recorded at: the first that equals the leg that served. */
  function FirstEqual(rotated: seq<Target>, served: Target): (j: nat)
    requires served in rotated
    ensures j < |rotated| && rotated[j] == served && served !in rotated[..j]
  {
    if rotated[0] == served then 0
    else
      var j := FirstEqual(rotated[1..], served);
      assert rotated[..j + 1] == [rotated[0]] + rotated[1..][..j];
      j + 1
  }

  predicate Spent(st: RR, limit: int, idx: int, at: int) {
    if idx == 0 && st.winner == at then st.run + 1 >= limit else limit == 1
  }

  /** Repeated targets and reordering between requests: unless its run is spent, the next request leads
      with the target that served exactly when the next order holds that target where this one did.
      In an unchanged order that is always so, repeated targets or not. */
  lemma {:induction false} NextLeadsWithServerExactlyWhen(st: RR, limit: int, order: seq<Target>, next: seq<Target>, served: Target)
    requires limit >= 1 && |order| > 0 && |next| == |order| && Inv(st, limit, |order|)
    requires served in Rotate(order, Lead(st, limit, |order|))
    ensures var n, lead := |order|, Lead(st, limit, |order|);
            var idx := FirstEqual(Rotate(order, lead), served);
            var at := (idx + lead) % n;
            var follow := Lead(Record(st, limit, n, lead, idx), limit, n);
            && order[at] == served
            && follow == (if Spent(st, limit, idx, at) then (at + 1) % n else at)
            && (!Spent(st, limit, idx, at) ==> (next[follow] == served <==> next[at] == order[at]))
  {
    var n, lead := |order|, Lead(st, limit, |order|);
    var idx := FirstEqual(Rotate(order, lead), served);
    LeadInRange(st, limit, n);
    RotateIsOffset(order, lead, idx);
    NextLeadsWithServer(st, limit, n, idx);
  }

  /** The combo's rotation state, updated in place. */
  class ComboRR {
    const configured: int
    var counter: int
    var winner: int
    var run: int

    constructor (configured: int)
      ensures View() == FRESH && this.configured == configured
    {
      this.configured := configured;
      counter, winner, run := 0, -1, 0;
    }

    ghost function View(): RR
      reads this
    {
      RR(counter, winner, run)
    }

    /** Puts the target that should lead first; `lead` is its configured index. */
    method RotateTargets(targets: seq<Target>) returns (rotated: seq<Target>, lead: nat)
      requires Inv(View(), Limit(configured), |targets|)
      ensures |targets| < 2 ==> rotated == targets && lead == 0
      ensures |targets| >= 2 ==>
        lead == Lead(View(), Limit(configured), |targets|) < |targets| && rotated == Rotate(targets, lead)
    {
      if |targets| < 2 {
        return targets, 0;
      }
      var limit := Limit(configured);
      var at := -1;
      if winner >= 0 && run < limit && winner < |targets| {
        at := winner;
      } else {
        at := counter % |targets|;
      }
      if at <= 0 {
        assert targets[0..] + targets[..0] == targets;
        return targets, at;
      }
      return targets[at..] + targets[..at], at;
    }

    /** Counts a success of `served` on a request led by `lead`. */
    method RecordSuccess(rotated: seq<Target>, lead: nat, served: Target)
      requires lead < |rotated|
      requires Inv(View(), Limit(configured), |rotated|)
      modifies this
      ensures Inv(View(), Limit(configured), |rotated|)
      ensures |rotated| < 2 || served !in rotated ==> View() == old(View())
      ensures |rotated| >= 2 ==>
        forall j :: 0 <= j < |rotated| && rotated[j] == served && served !in rotated[..j] ==>
          View() == Record(old(View()), Limit(configured), |rotated|, lead, j)
    {
      var limit := Limit(configured);
      if |rotated| < 2 {
        return;
      }
      var idx := 0;
      while idx < |rotated| && rotated[idx] != served
        invariant 0 <= idx <= |rotated| && served !in rotated[..idx]
      {
        idx := idx + 1;
      }
      if idx == |rotated| {
        return;
      }
      hide Inv;
      var n := |rotated|;
      ghost var after := Record(View(), limit, n, lead, idx);
      assert forall j :: 0 <= j < n && rotated[j] == served && served !in rotated[..j] ==> j == idx;
      RecordKeepsInv(View(), limit, n, lead, idx);
      var orig := idx;
      if lead > 0 {
        orig := (idx + lead) % n;
      }
      if idx == 0 && winner == orig {
        run := run + 1;
      } else {
        winner, run := orig, 1;
      }
      if run >= limit {
        counter := orig + 1;
        winner, run := -1, 0;
      }
      assert View() == after;
    }
  }
}
