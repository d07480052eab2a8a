/**
  How stale a token that `Get` returns can be.
 */
module TokenStaleness {
  import opened Prelude
  import opened TokenFileState

  /** No process puts its next look at the file off by more than a second from the clock. */
  ghost predicate LooksSoon(w: World, clock: int) {
    forall i :: 0 <= i < |w.procs| ==> w.procs[i].nextCheck <= clock + 1_000_000_000
  }

  /** A process that will not look again before a second after t0 has looked since, and holds every
      token there was at t0, or a newer one. */
  ghost predicate CaughtUp(s: Store, earlier: Tokens, t0: int) {
    s.nextCheck > t0 + 1_000_000_000 ==> Behind(earlier, s.toks)
  }

  lemma NewWorldLooksSoon(f: File, n: nat, clock: int)
    requires clock >= 0
    ensures LooksSoon(NewWorld(f, n), clock)
  {
    assert forall i :: 0 <= i < n ==> NewWorld(f, n).procs[i] == FRESH;
  }

  lemma StepLooksSoon(w: World, e: Event, clock: int)
    requires Allowed(w, e, clock) && LooksSoon(w, clock)
    ensures LooksSoon(Step(w, e), Reading(e, clock))
  {
  }

  /** A step keeps the disk ahead of what it was, and every process caught up. */
  lemma StepCatchesUp(w: World, e: Event, clock: int, earlier: Tokens, t0: int, i: nat)
    requires Inv(w, clock) && Allowed(w, e, clock) && clock >= t0 && i < |w.procs|
    requires Behind(earlier, Disk(w)) && CaughtUp(w.procs[i], earlier, t0)
    ensures Behind(earlier, Disk(Step(w, e))) && CaughtUp(Step(w, e).procs[i], earlier, t0)
  {
    hide MergeNewer;
    SyncMatchesFile(w, w.procs[i]);
    match e {
      case PutStep(j, key, value, now, stamp) => PutUpdatesDisk(w, clock, j, key, value, now, stamp);
      case SyncStep(j) =>
      case GetStep(j, key, now) =>
    }
  }

  lemma {:induction false} RunCatchesUp(w: World, es: seq<Event>, clock: int, earlier: Tokens, t0: int, i: nat)
    requires Inv(w, clock) && RunAllowed(w, es, clock) && clock >= t0 && i < |w.procs|
    requires Behind(earlier, Disk(w)) && CaughtUp(w.procs[i], earlier, t0)
    ensures var r := Run(w, es, clock);
            |r.procs| == |w.procs| && Behind(earlier, Disk(r)) && CaughtUp(r.procs[i], earlier, t0)
            && Inv(r, After(clock, es))
    decreases |es|
  {
    hide Step, Inv, CaughtUp, Behind;
    if |es| > 0 {
      var e := es[0];
      StepKeepsInv(w, e, clock);
      StepCatchesUp(w, e, clock, earlier, t0, i);
      RunCatchesUp(Step(w, e), es[1..], Reading(e, clock), earlier, t0, i);
    }
  }

  lemma {:induction false} RunLooksSoon(w: World, es: seq<Event>, clock: int)
    requires RunAllowed(w, es, clock) && LooksSoon(w, clock)
    ensures LooksSoon(Run(w, es, clock), After(clock, es))
    decreases |es|
  {
    hide Step, LooksSoon;
    if |es| > 0 {
      StepLooksSoon(w, es[0], clock);
      RunLooksSoon(Step(w, es[0]), es[1..], Reading(es[0], clock));
    }
  }

  /** Whatever was in the file more than a second before a Get, that Get returns, or a newer token of
      the same key: over any run of all processes in between. */
  lemma {:induction false} GetLagsByASecondAtMost(w: World, es: seq<Event>, clock: int, i: nat, now: int, k: string)
    requires Inv(w, clock) && LooksSoon(w, clock) && RunAllowed(w, es, clock) && i < |w.procs|
    requires now >= After(clock, es) && now > clock + 1_000_000_000 && k in Disk(w)
    ensures var r := Run(w, es, clock);
            |r.procs| == |w.procs|
            && var s := GetSync(r.procs[i], r.file, now);
               k in s.toks && s.toks[k].updatedAt >= Disk(w)[k].updatedAt
  {
    hide Step, Run, RunAllowed, MergeNewer;
    RunCatchesUp(w, es, clock, Disk(w), clock, i);
    var r := Run(w, es, clock);
    SyncMatchesFile(r, r.procs[i]);
  }
}
