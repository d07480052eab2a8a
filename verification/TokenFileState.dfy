/**
  The OAuth token store of several processes over one file, as values: the merge each process makes
  of the file and the steps it takes on it.
 */
module TokenFileState {
  import opened Prelude

  const SECOND: int := 1_000_000_000
  const HOT_RESYNC: int := SECOND

  datatype Token = Token(value: string, updatedAt: int)

  type Tokens = map<string, Token>

  /** The file's modification time and size, by which an external write is noticed. */
  datatype Stamp = Stamp(mtime: int, size: int)

  const NEVER: Stamp := Stamp(0, 0)

  datatype File = NoFile | File(toks: Tokens, stamp: Stamp)

  /** One process's resident copy. */
  datatype Store = Store(toks: Tokens, loaded: bool, seen: Stamp, nextCheck: int)

  const FRESH: Store := Store(map[], false, NEVER, 0)

  /** Every entry of src at least as new as the resident one replaces it. */
  function MergeNewer(dst: Tokens, src: Tokens): Tokens {
    map k | k in dst.Keys + src.Keys ::
      if k in src && (k !in dst || src[k].updatedAt >= dst[k].updatedAt) then src[k] else dst[k]
  }

  function Sync(s: Store, f: File): Store {
    if f.NoFile? then s.(loaded := true)
    else if s.loaded && f.stamp == s.seen then s
    else Store(if s.loaded then MergeNewer(s.toks, f.toks) else f.toks, true, f.stamp, s.nextCheck)
  }

  /** The write: a second sync, then the whole file is replaced. */
  function Persist(s: Store, f: File, stamp: Stamp): (Store, File) {
    var t := Sync(s, f);
    (t.(seen := stamp), File(t.toks, stamp))
  }

  function Put(s: Store, f: File, key: string, value: string, now: int, stamp: Stamp): (Store, File) {
    var t := Sync(s, f);
    Persist(t.(toks := t.toks[key := Token(value, now)]), f, stamp)
  }

  function GetSync(s: Store, f: File, now: int): Store {
    if now > s.nextCheck then Sync(s, f).(nextCheck := now + HOT_RESYNC) else s
  }

  // ---- The world ---------------------------------------------------------------------------------------

  /** `used` holds every stamp the file has had: each write changes modification time or size. */
  datatype World = World(file: File, procs: seq<Store>, used: set<Stamp>)

  datatype Event =
    | PutStep(i: nat, key: string, value: string, now: int, stamp: Stamp)
    | SyncStep(i: nat)
    | GetStep(i: nat, key: string, now: int)

  predicate Allowed(w: World, e: Event, clock: int) {
    && e.i < |w.procs|
    && (e.PutStep? ==> e.now >= clock && e.stamp !in w.used)
    && (e.GetStep? ==> e.now >= clock)
  }

  function Step(w: World, e: Event): World
    requires e.i < |w.procs|
  {
    match e
    case PutStep(i, key, value, now, stamp) =>
      var (s, f) := Put(w.procs[i], w.file, key, value, now, stamp);
      World(f, w.procs[i := s], w.used + {stamp})
    case SyncStep(i) => w.(procs := w.procs[i := Sync(w.procs[i], w.file)])
    case GetStep(i, key, now) => w.(procs := w.procs[i := GetSync(w.procs[i], w.file, now)])
  }

  function Reading(e: Event, clock: int): int {
    if e.SyncStep? then clock else e.now
  }

  function Disk(w: World): Tokens {
    if w.file.NoFile? then map[] else w.file.toks
  }

  // ---- The invariant --------------------------------------------------------------------------------------

  /** No resident stamp is ahead of the disk's. */
  ghost predicate Behind(toks: Tokens, disk: Tokens) {
    forall k :: k in toks ==> k in disk && toks[k].updatedAt <= disk[k].updatedAt
  }

  ghost predicate ProcInv(s: Store, w: World) {
    && Behind(s.toks, Disk(w))
    && (!s.loaded ==> s.toks == map[])
    && s.seen in w.used
    && (s.loaded && w.file.File? && s.seen == w.file.stamp ==> s.toks == w.file.toks)
  }

  ghost predicate Inv(w: World, clock: int) {
    && NEVER in w.used
    && (w.file.File? ==> w.file.stamp in w.used && w.file.stamp != NEVER)
    && (forall k :: k in Disk(w) ==> Disk(w)[k].updatedAt <= clock)
    && (forall i :: 0 <= i < |w.procs| ==> ProcInv(w.procs[i], w))
  }

  /** Merging a copy that is nowhere ahead yields the file. */
  lemma MergeIsFile(toks: Tokens, disk: Tokens)
    requires Behind(toks, disk)
    ensures MergeNewer(toks, disk) == disk
  {
    assert MergeNewer(toks, disk).Keys == disk.Keys;
  }

  /** A sync makes the resident map equal the file. */
  lemma SyncMatchesFile(w: World, s: Store)
    requires ProcInv(s, w)
    ensures Sync(s, w.file).toks == Disk(w)
    ensures w.file.File? ==> Sync(s, w.file).loaded && Sync(s, w.file).seen == w.file.stamp
  {
    if w.file.File? {
      MergeIsFile(s.toks, w.file.toks);
    } else {
      assert s.toks.Keys == {};
    }
  }

  /** An atomic Put is one update of the shared map, whoever makes it and however stale its copy. */
  lemma PutUpdatesDisk(w: World, clock: int, i: nat, key: string, value: string, now: int, stamp: Stamp)
    requires Inv(w, clock) && i < |w.procs| && now >= clock && stamp !in w.used
    ensures var (s, f) := Put(w.procs[i], w.file, key, value, now, stamp);
            && f == File(Disk(w)[key := Token(value, now)], stamp)
            && s.toks == f.toks && s.loaded && s.seen == stamp
  {
    SyncMatchesFile(w, w.procs[i]);
  }

  lemma StepKeepsInv(w: World, e: Event, clock: int)
    requires Inv(w, clock) && Allowed(w, e, clock)
    ensures Inv(Step(w, e), Reading(e, clock))
    ensures Disk(Step(w, e)) == if e.PutStep? then Disk(w)[e.key := Token(e.value, e.now)] else Disk(w)
    ensures |Step(w, e).procs| == |w.procs|
  {
    SyncMatchesFile(w, w.procs[e.i]);
    match e {
      case PutStep(i, key, value, now, stamp) =>
        PutUpdatesDisk(w, clock, i, key, value, now, stamp);
        var u := Step(w, e);
        forall j | 0 <= j < |u.procs|
          ensures ProcInv(u.procs[j], u)
        {
          if j != i {
            assert ProcInv(w.procs[j], w);
          }
        }
      case SyncStep(i) => SyncedInv(w, w.procs[i]);
      case GetStep(i, key, now) => SyncedInv(w, w.procs[i]);
    }
  }

  lemma SyncedInv(w: World, s: Store)
    requires ProcInv(s, w) && (w.file.File? ==> w.file.stamp in w.used)
    ensures ProcInv(Sync(s, w.file), w)
  {
    SyncMatchesFile(w, s);
  }

  // ---- Runs ---------------------------------------------------------------------------------------------------

  /** Every event is allowed where it happens: the shared clock does not run back and each write has
      a stamp of its own. */
  ghost predicate RunAllowed(w: World, es: seq<Event>, clock: int)
    decreases |es|
  {
    |es| > 0 ==>
      Allowed(w, es[0], clock) && RunAllowed(Step(w, es[0]), es[1..], Reading(es[0], clock))
  }

  ghost function Run(w: World, es: seq<Event>, clock: int): (r: World)
    requires RunAllowed(w, es, clock)
    decreases |es|
  {
    if |es| == 0 then w else Run(Step(w, es[0]), es[1..], Reading(es[0], clock))
  }

  /** Processes that have not read anything yet, over a file that is there already or not. */
  function NewWorld(f: File, n: nat): World {
    World(f, seq(n, i => FRESH), {NEVER} + if f.File? then {f.stamp} else {})
  }

  lemma NewWorldInv(f: File, n: nat, clock: int)
    requires f.File? ==> f.stamp != NEVER && forall k :: k in f.toks ==> f.toks[k].updatedAt <= clock
    ensures Inv(NewWorld(f, n), clock)
  {
    forall i | 0 <= i < n
      ensures ProcInv(NewWorld(f, n).procs[i], NewWorld(f, n))
    {
      assert NewWorld(f, n).procs[i] == FRESH;
    }
  }

  /** What a single map would hold after the puts of the run. */
  function Replay(disk: Tokens, es: seq<Event>): Tokens
    decreases |es|
  {
    if |es| == 0 then disk
    else
      var e := es[0];
      Replay(if e.PutStep? then disk[e.key := Token(e.value, e.now)] else disk, es[1..])
  }

  function After(clock: int, es: seq<Event>): int
    decreases |es|
  {
    if |es| == 0 then clock else After(Reading(es[0], clock), es[1..])
  }

  /** Any number of processes refine one shared map: over every run of puts, syncs and gets the file
      holds exactly what the puts, in order, leave in a map, and no resident copy is ever ahead. */
  lemma {:induction false} StoreRefinesMap(w: World, es: seq<Event>, clock: int)
    requires Inv(w, clock) && RunAllowed(w, es, clock)
    ensures Inv(Run(w, es, clock), After(clock, es))
    ensures Disk(Run(w, es, clock)) == Replay(Disk(w), es)
    decreases |es|
  {
    if |es| > 0 {
      StepKeepsInv(w, es[0], clock);
      StoreRefinesMap(Step(w, es[0]), es[1..], Reading(es[0], clock));
    }
  }

  /** So no key's stamp on disk ever decreases and no key is lost. */
  lemma {:induction false} DiskStampsNeverDecrease(w: World, es: seq<Event>, clock: int, k: string)
    requires Inv(w, clock) && RunAllowed(w, es, clock) && k in Disk(w)
    ensures k in Disk(Run(w, es, clock))
    ensures Disk(Run(w, es, clock))[k].updatedAt >= Disk(w)[k].updatedAt
    decreases |es|
  {
    if |es| > 0 {
      StepKeepsInv(w, es[0], clock);
      DiskStampsNeverDecrease(Step(w, es[0]), es[1..], Reading(es[0], clock), k);
    }
  }

  /** A Get that re-checks the file returns what is on disk; one within the second since the last
      check may be older but is never newer. */
  lemma GetIsBehindDisk(w: World, clock: int, i: nat, now: int, k: string)
    requires Inv(w, clock) && i < |w.procs| && now >= clock
    ensures var s := GetSync(w.procs[i], w.file, now);
            && (now > w.procs[i].nextCheck ==> s.toks == Disk(w))
            && (k in s.toks ==> k in Disk(w) && s.toks[k].updatedAt <= Disk(w)[k].updatedAt)
  {
    SyncMatchesFile(w, w.procs[i]);
  }

  // ---- Puts of others within one Put -------------------------------------------------------------------------

  /** Put up to the resident update: the first sync and the new token. */
  function BeginPut(s: Store, f: File, key: string, value: string, now: int): Store {
    var t := Sync(s, f);
    t.(toks := t.toks[key := Token(value, now)])
  }

  ghost predicate PutsSome(es: seq<Event>) {
    exists j :: 0 <= j < |es| && es[j].PutStep?
  }

  ghost predicate PutsKey(es: seq<Event>, key: string) {
    exists j :: 0 <= j < |es| && es[j].PutStep? && es[j].key == key
  }

  /** A run with a Put in it leaves a file that was never there before; one without leaves the file. */
  lemma {:induction false} RunStampIsNew(w: World, es: seq<Event>, clock: int)
    requires RunAllowed(w, es, clock)
    ensures var u := Run(w, es, clock);
            && w.used <= u.used
            && if PutsSome(es) then u.file.File? && u.file.stamp !in w.used else u.file == w.file
    decreases |es|
  {
    if |es| > 0 {
      var rest := es[1..];
      RunStampIsNew(Step(w, es[0]), rest, Reading(es[0], clock));
      assert forall j :: 0 <= j < |rest| ==> rest[j] == es[j + 1];
      if PutsSome(rest) {
        var j :| 0 <= j < |rest| && rest[j].PutStep?;
        assert es[j + 1].PutStep?;
      } else if PutsSome(es) {
        assert es[0].PutStep?;
      }
    }
  }

  lemma {:induction false} ReplayKeeps(disk: Tokens, es: seq<Event>, key: string)
    requires !PutsKey(es, key)
    ensures key in Replay(disk, es) <==> key in disk
    ensures key in disk ==> Replay(disk, es)[key] == disk[key]
    decreases |es|
  {
    if |es| > 0 {
      assert !(es[0].PutStep? && es[0].key == key);
      NoPutLater(es, key);
      ReplayKeeps(if es[0].PutStep? then disk[es[0].key := Token(es[0].value, es[0].now)] else disk, es[1..], key);
    }
  }

  lemma NoPutLater(es: seq<Event>, key: string)
    requires |es| > 0 && !PutsKey(es, key)
    ensures !PutsKey(es[1..], key)
  {
    assert forall j :: 0 <= j < |es[1..]| ==> es[1..][j] == es[j + 1];
  }

  /** A Put of the key hides what was there before. */
  lemma {:induction false} ReplayHides(disk: Tokens, es: seq<Event>, key: string, token: Token)
    requires PutsKey(es, key)
    ensures Replay(disk[key := token], es) == Replay(disk, es)
    decreases |es|
  {
    var e := es[0];
    if e.PutStep? && e.key == key {
      assert disk[key := token][key := Token(e.value, e.now)] == disk[key := Token(e.value, e.now)];
    } else {
      var j :| 0 <= j < |es| && es[j].PutStep? && es[j].key == key;
      assert es[1..][j - 1] == es[j];
      var next := if e.PutStep? then disk[e.key := Token(e.value, e.now)] else disk;
      ReplayHides(next, es[1..], key, token);
      assert (if e.PutStep? then disk[key := token][e.key := Token(e.value, e.now)] else disk[key := token])
          == next[key := token];
    }
  }

  lemma {:induction false} ReadingsFrom(w: World, es: seq<Event>, clock: int, j: nat)
    requires RunAllowed(w, es, clock) && j < |es| && es[j].PutStep?
    ensures es[j].now >= clock
    decreases |es|
  {
    if j > 0 {
      assert es[1..][j - 1] == es[j];
      ReadingsFrom(Step(w, es[0]), es[1..], Reading(es[0], clock), j - 1);
    }
  }

  /** The one case in which a Put disappears: the key's old token carries the very reading of the Put,
      and the gap changed the file without putting the key, so that the merge takes the old token back. */
  ghost predicate TieTakesBack(disk: Tokens, gap: seq<Event>, key: string, token: Token) {
    && PutsSome(gap) && !PutsKey(gap, key)
    && key in disk && disk[key].updatedAt == token.updatedAt && disk[key] != token
  }

  /** What the second sync of a Put leaves, if others put in between: their later Put of the same key
      wins, every other token of theirs is taken in. */
  lemma {:induction false} SecondSyncMerges(w: World, clock: int, i: nat, key: string, value: string, now: int, gap: seq<Event>)
    requires Inv(w, clock) && i < |w.procs| && now >= clock && RunAllowed(w, gap, now)
    ensures var disk, token := Disk(w), Token(value, now);
            var after := Replay(disk, gap);
            Sync(BeginPut(w.procs[i], w.file, key, value, now), Run(w, gap, now).file).toks
            == if !PutsSome(gap) then disk[key := token]
               else if key in after && after[key].updatedAt >= now then after else after[key := token]
  {
    StoreRefinesMap(w, gap, now);
    SyncMatchesFile(w, w.procs[i]);
    RunStampIsNew(w, gap, now);
    var disk, token := Disk(w), Token(value, now);
    var t := BeginPut(w.procs[i], w.file, key, value, now);
    assert t.toks == disk[key := token];
    if PutsSome(gap) {
      forall k | k in disk
        ensures k in Replay(disk, gap) && Replay(disk, gap)[k].updatedAt >= disk[k].updatedAt
      {
        DiskStampsNeverDecrease(w, gap, now, k);
      }
      MergeOfGap(disk, Replay(disk, gap), key, token);
    }
  }

  lemma MergeOfGap(disk: Tokens, after: Tokens, key: string, token: Token)
    requires forall k :: k in disk ==> k in after && after[k].updatedAt >= disk[k].updatedAt
    ensures MergeNewer(disk[key := token], after)
         == if key in after && after[key].updatedAt >= token.updatedAt then after else after[key := token]
  {
    var merged := MergeNewer(disk[key := token], after);
    assert merged.Keys == after.Keys + {key};
  }

  /** Puts of others between a Put's two syncs are absorbed: the process then holds what all the Puts
      leave in some serial order, except exactly in that tie. */
  lemma {:induction false} BetweenSyncsExactly(w: World, clock: int, i: nat, key: string, value: string, now: int, gap: seq<Event>)
    requires Inv(w, clock) && i < |w.procs| && now >= clock && RunAllowed(w, gap, now)
    ensures InSomeOrder(Disk(w), gap, key, Token(value, now),
                        Sync(BeginPut(w.procs[i], w.file, key, value, now), Run(w, gap, now).file).toks) <==>
            !TieTakesBack(Disk(w), gap, key, Token(value, now))
  {
    hide InSomeOrder, Replay, PutsSome, PutsKey;
    var disk, token := Disk(w), Token(value, now);
    SecondSyncMerges(w, clock, i, key, value, now, gap);
    if !PutsSome(gap) {
      NoPuts(disk, gap);
      LastInOrder(disk, gap, key, token);
    } else if PutsKey(gap, key) {
      KeyEndsLate(w, now, key, gap);
      ReplayHides(disk, gap, key, token);
      FirstInOrder(disk, gap, key, token);
    } else {
      ReplayKeeps(disk, gap, key);
      if key in disk && disk[key].updatedAt >= now {
        if disk[key] == token {
          LastInOrder(disk, gap, key, token);
          assert Replay(disk, gap)[key := token] == Replay(disk, gap);
        } else {
          TieIsNoOrder(disk, gap, key, token);
        }
      } else {
        LastInOrder(disk, gap, key, token);
      }
    }
  }

  lemma {:induction false} NoPuts(disk: Tokens, gap: seq<Event>)
    requires !PutsSome(gap)
    ensures Replay(disk, gap) == disk
    decreases |gap|
  {
    if |gap| > 0 {
      assert !gap[0].PutStep? && forall j :: 0 <= j < |gap[1..]| ==> gap[1..][j] == gap[j + 1];
      NoPuts(disk, gap[1..]);
    }
  }

  lemma {:induction false} LastInOrder(disk: Tokens, gap: seq<Event>, key: string, token: Token)
    ensures InSomeOrder(disk, gap, key, token, Replay(disk, gap)[key := token])
  {
    assert gap[..|gap|] == gap && gap[|gap|..] == [];
    assert Replay(Replay(disk, gap[..|gap|])[key := token], gap[|gap|..]) == Replay(disk, gap)[key := token];
  }

  lemma {:induction false} FirstInOrder(disk: Tokens, gap: seq<Event>, key: string, token: Token)
    ensures InSomeOrder(disk, gap, key, token, Replay(disk[key := token], gap))
  {
    assert gap[..0] == [] && gap[0..] == gap;
    assert Replay(Replay(disk, gap[..0])[key := token], gap[0..]) == Replay(disk[key := token], gap);
  }

  lemma {:induction false} KeyEndsLate(w: World, now: int, key: string, gap: seq<Event>)
    requires RunAllowed(w, gap, now) && PutsKey(gap, key)
    ensures key in Replay(Disk(w), gap) && Replay(Disk(w), gap)[key].updatedAt >= now
  {
    forall j | 0 <= j < |gap| && gap[j].PutStep?
      ensures gap[j].now > now - 1
    {
      ReadingsFrom(w, gap, now, j);
    }
    ReplayIsNewer(Disk(w), gap, now - 1, key);
  }

  lemma {:induction false} TieIsNoOrder(disk: Tokens, gap: seq<Event>, key: string, token: Token)
    requires !PutsKey(gap, key) && key in disk && disk[key] != token
    ensures !InSomeOrder(disk, gap, key, token, Replay(disk, gap))
  {
    ReplayKeeps(disk, gap, key);
    forall j | 0 <= j <= |gap|
      ensures Replay(disk, gap) != Replay(Replay(disk, gap[..j])[key := token], gap[j..])
    {
      assert forall i :: 0 <= i < |gap[j..]| ==> gap[j..][i] == gap[j + i];
      assert !PutsKey(gap[j..], key);
      ReplayKeeps(Replay(disk, gap[..j])[key := token], gap[j..], key);
    }
  }

  /** The tie at work: the disk's token of p/a and the Put of p/a carry the reading 5, another process
      puts p/b meanwhile, and the new value of p/a is gone after the second sync. */
  lemma TieLosesPut()
    ensures var w := NewWorld(File(map["p/a" := Token("0", 5)], Stamp(1, 10)), 2);
            var gap := [PutStep(1, "p/b", "2", 5, Stamp(2, 20))];
            && Inv(w, 5) && RunAllowed(w, gap, 5)
            && var toks := Sync(BeginPut(w.procs[0], w.file, "p/a", "1", 5), Run(w, gap, 5).file).toks;
               "p/a" in toks && toks["p/a"] == Token("0", 5)
  {
    var w := NewWorld(File(map["p/a" := Token("0", 5)], Stamp(1, 10)), 2);
    var gap := [PutStep(1, "p/b", "2", 5, Stamp(2, 20))];
    NewWorldInv(w.file, 2, 5);
    assert gap[1..] == [];
    assert RunAllowed(Step(w, gap[0]), [], 5);
    assert "p/b" != "p/a" by {
      assert "p/b"[2] != "p/a"[2];
    }
    assert gap[0].PutStep?;
    assert !PutsKey(gap, "p/a");
    ReplayKeeps(Disk(w), gap, "p/a");
    SecondSyncMerges(w, 5, 0, "p/a", "1", 5, gap);
  }

  // ---- The unlocked gap --------------------------------------------------------------------------------------------

  /** Put without its rename: what the process is about to write. */
  function PreparePut(s: Store, f: File, key: string, value: string, now: int): Store {
    var t := Sync(s, f);
    Sync(t.(toks := t.toks[key := Token(value, now)]), f)
  }

  /** The rename, onto whatever the file has become. */
  function Commit(s: Store, stamp: Stamp): File {
    File(s.toks, stamp)
  }

  /** If nothing was written between the second sync and the rename, the two halves are one Put. */
  lemma UndisturbedCommitIsPut(s: Store, f: File, key: string, value: string, now: int, stamp: Stamp)
    ensures Commit(PreparePut(s, f, key, value, now), stamp) == Put(s, f, key, value, now, stamp).1
  {
  }

  /** The maps agree on every key but one. */
  ghost predicate AgreeOff(key: string, a: Tokens, b: Tokens) {
    forall k :: k != key ==> (k in a <==> k in b) && (k in a ==> a[k] == b[k])
  }

  lemma {:induction false} ReplayAgrees(key: string, a: Tokens, b: Tokens, es: seq<Event>)
    requires AgreeOff(key, a, b)
    ensures AgreeOff(key, Replay(a, es), Replay(b, es))
    decreases |es|
  {
    if |es| > 0 {
      var e := es[0];
      ReplayAgrees(key, if e.PutStep? then a[e.key := Token(e.value, e.now)] else a,
                   if e.PutStep? then b[e.key := Token(e.value, e.now)] else b, es[1..]);
    }
  }

  lemma {:induction false} ReplaySplits(disk: Tokens, es: seq<Event>, j: nat)
    requires j <= |es|
    ensures Replay(disk, es) == Replay(Replay(disk, es[..j]), es[j..])
    decreases |es|
  {
    if j == 0 {
      assert es[..0] == [] && es[0..] == es;
    } else {
      assert es[..j][1..] == es[1..][..j - 1] && es[1..][j - 1..] == es[j..];
      ReplaySplits(if es[0].PutStep? then disk[es[0].key := Token(es[0].value, es[0].now)] else disk, es[1..], j - 1);
    }
  }

  /** The file is as if the Put had been made between two of the gap's events. */
  ghost predicate InSomeOrder(disk: Tokens, gap: seq<Event>, key: string, token: Token, result: Tokens) {
    exists j :: 0 <= j <= |gap| && result == Replay(Replay(disk, gap[..j])[key := token], gap[j..])
  }

  /** A process has prepared its write; then any number of Puts, syncs and gets of others happen; then
      it renames.  The file holds what all the Puts leave in some serial order exactly when the ones in
      the gap left every other key's token as it was. */
  lemma {:induction false} OvertakenCommitExactly(w: World, clock: int, i: nat, key: string, value: string, now: int, gap: seq<Event>)
    requires Inv(w, clock) && i < |w.procs| && now >= clock && RunAllowed(w, gap, now)
    ensures Disk(Run(w, gap, now)) == Replay(Disk(w), gap)
    ensures var mine := PreparePut(w.procs[i], w.file, key, value, now).toks;
            InSomeOrder(Disk(w), gap, key, Token(value, now), mine) <==>
            AgreeOff(key, Disk(w), Disk(Run(w, gap, now)))
  {
    hide Replay, InSomeOrder, AgreeOff;
    StoreRefinesMap(w, gap, now);
    SyncMatchesFile(w, w.procs[i]);
    assert PreparePut(w.procs[i], w.file, key, value, now).toks == Disk(w)[key := Token(value, now)];
    SerialExactlyWhen(Disk(w), gap, key, Token(value, now));
  }

  lemma {:induction false} SerialExactlyWhen(disk: Tokens, gap: seq<Event>, key: string, token: Token)
    ensures InSomeOrder(disk, gap, key, token, disk[key := token]) <==> AgreeOff(key, disk, Replay(disk, gap))
  {
    hide Replay;
    if AgreeOff(key, disk, Replay(disk, gap)) {
      PutLast(disk, gap, key, token);
    }
    forall j | 0 <= j <= |gap| && disk[key := token] == Replay(Replay(disk, gap[..j])[key := token], gap[j..])
      ensures AgreeOff(key, disk, Replay(disk, gap))
    {
      ReplaySplits(disk, gap, j);
      ReplayAgrees(key, Replay(disk, gap[..j])[key := token], Replay(disk, gap[..j]), gap[j..]);
    }
  }

  lemma {:induction false} PutLast(disk: Tokens, gap: seq<Event>, key: string, token: Token)
    requires AgreeOff(key, disk, Replay(disk, gap))
    ensures InSomeOrder(disk, gap, key, token, disk[key := token])
  {
    assert gap[..|gap|] == gap && gap[|gap|..] == [];
    var last := Replay(disk, gap)[key := token];
    assert Replay(last, []) == last;
    assert disk[key := token].Keys == last.Keys;
    assert disk[key := token] == last;
  }

  lemma {:induction false} ReplayOfOneKey(key: string, disk: Tokens, es: seq<Event>)
    requires forall j :: 0 <= j < |es| && es[j].PutStep? ==> es[j].key == key
    ensures AgreeOff(key, disk, Replay(disk, es))
    decreases |es|
  {
    if |es| > 0 {
      ReplayOfOneKey(key, if es[0].PutStep? then disk[es[0].key := Token(es[0].value, es[0].now)] else disk, es[1..]);
    }
  }

  /** A key put after clock, and already newer than clock or still to be put, ends newer than clock. */
  lemma {:induction false} ReplayIsNewer(disk: Tokens, es: seq<Event>, clock: int, k: string)
    requires forall j :: 0 <= j < |es| && es[j].PutStep? ==> es[j].now > clock
    requires (k in disk && disk[k].updatedAt > clock) || exists j :: 0 <= j < |es| && es[j].PutStep? && es[j].key == k
    ensures k in Replay(disk, es) && Replay(disk, es)[k].updatedAt > clock
    decreases |es|
  {
    if |es| > 0 {
      var next := if es[0].PutStep? then disk[es[0].key := Token(es[0].value, es[0].now)] else disk;
      if !(k in next && next[k].updatedAt > clock) {
        var j :| 0 <= j < |es| && es[j].PutStep? && es[j].key == k;
        assert es[1..][j - 1] == es[j];
      }
      ReplayIsNewer(next, es[1..], clock, k);
    }
  }

  /** When the clock has moved on since the last write, that is: exactly when every Put in the gap was
      for the same key. */
  lemma {:induction false} OvertakenLater(w: World, clock: int, i: nat, key: string, value: string, now: int, gap: seq<Event>)
    requires Inv(w, clock) && i < |w.procs| && now >= clock && RunAllowed(w, gap, now)
    requires forall j :: 0 <= j < |gap| && gap[j].PutStep? ==> gap[j].now > clock
    ensures InSomeOrder(Disk(w), gap, key, Token(value, now), PreparePut(w.procs[i], w.file, key, value, now).toks) <==>
            forall j :: 0 <= j < |gap| && gap[j].PutStep? ==> gap[j].key == key
  {
    OvertakenCommitExactly(w, clock, i, key, value, now, gap);
    if forall j :: 0 <= j < |gap| && gap[j].PutStep? ==> gap[j].key == key {
      ReplayOfOneKey(key, Disk(w), gap);
    } else {
      var j :| 0 <= j < |gap| && gap[j].PutStep? && gap[j].key != key;
      ReplayIsNewer(Disk(w), gap, clock, gap[j].key);
    }
  }

  /** For one overtaking Put, at any reading the clock allows: exactly when it was for the same key, or
      wrote the very token that was there. */
  lemma OvertakenByOne(w: World, clock: int, i: nat, key: string, value: string, now: int,
                       j: nat, key2: string, value2: string, now2: int, stamp2: Stamp)
    requires Inv(w, clock) && i < |w.procs| && j < |w.procs| && now2 >= now >= clock && stamp2 !in w.used
    ensures var mine := PreparePut(w.procs[i], w.file, key, value, now).toks;
            InSomeOrder(Disk(w), [PutStep(j, key2, value2, now2, stamp2)], key, Token(value, now), mine) <==>
            key2 == key || (key2 in Disk(w) && Disk(w)[key2] == Token(value2, now2))
  {
    var gap := [PutStep(j, key2, value2, now2, stamp2)];
    assert gap[1..] == [] && Replay(Disk(w), gap) == Replay(Disk(w)[key2 := Token(value2, now2)], []);
    assert RunAllowed(Step(w, gap[0]), [], now2);
    OvertakenCommitExactly(w, clock, i, key, value, now, gap);
  }

  /** The overtaken token is not lost for good: the process that still holds it writes it back with its
      next Put of another key. */
  lemma OvertakenTokenReturns(s: Store, f: File, k: string, key: string, value: string, now: int, stamp: Stamp)
    requires s.loaded && f.File? && f.stamp != s.seen && k != key && k in s.toks
    requires k in f.toks ==> f.toks[k].updatedAt < s.toks[k].updatedAt
    ensures k !in f.toks || f.toks[k] != s.toks[k]
    ensures var g := Put(s, f, key, value, now, stamp).1;
            k in g.toks && g.toks[k] == s.toks[k]
  {
  }

  /** No file lock covers that gap.  A process that has prepared its write and is overtaken by
      another's Put renames over it: the other key is gone from the disk. */
  lemma OvertakenCommitLosesUpdate()
    ensures var f := NoFile;
            var a := PreparePut(FRESH, f, "p/a", "1", 1);
            var g := Put(FRESH, f, "p/b", "2", 2, Stamp(2, 20)).1;
            "p/b" in g.toks && "p/b" !in Commit(a, Stamp(3, 20)).toks
  {
    var a := PreparePut(FRESH, NoFile, "p/a", "1", 1);
    assert a.toks.Keys == {"p/a"};
    var g := Put(FRESH, NoFile, "p/b", "2", 2, Stamp(2, 20)).1;
    assert g.toks.Keys == {"p/b"};
    assert "p/b" != "p/a" by {
      assert "p/b"[2] != "p/a"[2];
    }
    assert "p/b" in g.toks;
  }
}
