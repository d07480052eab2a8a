/**
  The orders a combo's targets can be put into before the fallback loop: by task fit, by verdict and
  by measured speed.  With the round-robin rotation these never lose or repeat a target.
 */
module Reorder {
  import opened Prelude
  import opened RoundRobin

  // ---- The stable sort ---------------------------------------------------------------------------------

  datatype Score = NegInf | Val(v: real)

  predicate Above(a: Score, b: Score) {
    a.Val? && (b.NegInf? || a.v > b.v)
  }

  /** Puts x before the first element that does not outscore it. */
  function Insert<T>(x: T, ys: seq<T>, key: T -> Score): seq<T> {
    if |ys| > 0 && Above(key(ys[0]), key(x)) then [ys[0]] + Insert(x, ys[1..], key) else [x] + ys
  }

  /** sort.SliceStable, highest score first. */
  function StableSort<T>(xs: seq<T>, key: T -> Score): seq<T> {
    if |xs| == 0 then [] else Insert(xs[0], StableSort(xs[1..], key), key)
  }

  ghost predicate Descending<T(!new)>(xs: seq<T>, key: T -> Score) {
    forall i, j :: 0 <= i < j < |xs| ==> !Above(key(xs[j]), key(xs[i]))
  }

  /** The elements of one score, in order. */
  function Level<T>(xs: seq<T>, key: T -> Score, s: Score): seq<T> {
    if |xs| == 0 then [] else (if key(xs[0]) == s then [xs[0]] else []) + Level(xs[1..], key, s)
  }

  lemma {:induction false} InsertMembers<T>(x: T, ys: seq<T>, key: T -> Score)
    ensures multiset(Insert(x, ys, key)) == multiset{x} + multiset(ys)
  {
    if |ys| > 0 && Above(key(ys[0]), key(x)) {
      InsertMembers(x, ys[1..], key);
      assert ys == [ys[0]] + ys[1..];
    }
  }

  lemma {:induction false} InsertDescends<T(!new)>(x: T, ys: seq<T>, key: T -> Score)
    requires Descending(ys, key)
    ensures Descending(Insert(x, ys, key), key)
  {
    if |ys| > 0 && Above(key(ys[0]), key(x)) {
      InsertDescends(x, ys[1..], key);
      InsertMembers(x, ys[1..], key);
      var r := Insert(x, ys[1..], key);
      forall j | 0 <= j < |r|
        ensures !Above(key(r[j]), key(ys[0]))
      {
        assert r[j] in multiset(r);
        assert r[j] == x || r[j] in ys[1..];
      }
    }
  }

  lemma {:induction false} InsertLevel<T>(x: T, ys: seq<T>, key: T -> Score, s: Score)
    ensures Level(Insert(x, ys, key), key, s) == (if key(x) == s then [x] else []) + Level(ys, key, s)
  {
    if |ys| > 0 && Above(key(ys[0]), key(x)) {
      InsertLevel(x, ys[1..], key, s);
      assert ([ys[0]] + Insert(x, ys[1..], key))[1..] == Insert(x, ys[1..], key);
    } else {
      assert ([x] + ys)[1..] == ys;
    }
  }

  /** The sort is a permutation in descending order of score, and equal scores keep their order. */
  lemma {:induction false} StableSortCorrect<T(!new)>(xs: seq<T>, key: T -> Score, s: Score)
    ensures multiset(StableSort(xs, key)) == multiset(xs)
    ensures |StableSort(xs, key)| == |xs|
    ensures Descending(StableSort(xs, key), key)
    ensures Level(StableSort(xs, key), key, s) == Level(xs, key, s)
  {
    if |xs| > 0 {
      StableSortCorrect(xs[1..], key, s);
      var r := StableSort(xs[1..], key);
      InsertMembers(xs[0], r, key);
      InsertDescends(xs[0], r, key);
      InsertLevel(xs[0], r, key, s);
      assert xs == [xs[0]] + xs[1..];
      hide Level, Descending, Insert;
      assert multiset(xs) == multiset{xs[0]} + multiset(xs[1..]);
    }
    assert |multiset(StableSort(xs, key))| == |multiset(xs)|;
  }

  lemma {:induction false} LevelOccurs<T>(xs: seq<T>, key: T -> Score, s: Score)
    requires |Level(xs, key, s)| > 0
    ensures exists i :: 0 <= i < |xs| && key(xs[i]) == s
  {
    if key(xs[0]) != s {
      LevelOccurs(xs[1..], key, s);
      var i :| 0 <= i < |xs[1..]| && key(xs[1..][i]) == s;
      assert key(xs[i + 1]) == s;
    }
  }

  lemma {:induction false} SameHead<T(!new)>(xs: seq<T>, ys: seq<T>, key: T -> Score)
    requires Descending(xs, key) && Descending(ys, key)
    requires |xs| > 0 && forall s :: Level(xs, key, s) == Level(ys, key, s)
    ensures |ys| > 0 && xs[0] == ys[0]
  {
    hide Level;
    HeadOfLevel(xs, key);
    LevelOccurs(ys, key, key(xs[0]));
    HeadOfLevel(ys, key);
    LevelOccurs(xs, key, key(ys[0]));
    assert key(xs[0]) == key(ys[0]);
  }

  lemma {:induction false} HeadOfLevel<T>(xs: seq<T>, key: T -> Score)
    requires |xs| > 0
    ensures |Level(xs, key, key(xs[0]))| > 0 && Level(xs, key, key(xs[0]))[0] == xs[0]
  {
  }

  /** Those properties leave no freedom: any sorted list that keeps each score's order is this one. */
  lemma {:induction false} StableOrderIsUnique<T(!new)>(xs: seq<T>, ys: seq<T>, key: T -> Score)
    requires Descending(xs, key) && Descending(ys, key)
    requires forall s :: Level(xs, key, s) == Level(ys, key, s)
    ensures xs == ys
    decreases |xs| + |ys|
  {
    if |xs| > 0 {
      SameHead(xs, ys, key);
      forall s
        ensures Level(xs[1..], key, s) == Level(ys[1..], key, s)
      {
        var head := if key(xs[0]) == s then [xs[0]] else [];
        assert Level(xs, key, s) == Level(ys, key, s);
        assert head + Level(xs[1..], key, s) == head + Level(ys[1..], key, s);
        assert (head + Level(xs[1..], key, s))[|head|..] == Level(xs[1..], key, s);
        assert (head + Level(ys[1..], key, s))[|head|..] == Level(ys[1..], key, s);
      }
      StableOrderIsUnique(xs[1..], ys[1..], key);
      assert xs == [xs[0]] + xs[1..] && ys == [ys[0]] + ys[1..];
    } else if |ys| > 0 {
      SameHead(ys, xs, key);
    }
  }

  /** What the code sorts: each target beside its score. */
  datatype Scored = Scored(t: Target, s: Score)

  const BY_SCORE: Scored -> Score := (x: Scored) => x.s

  function TargetsOf(xs: seq<Scored>): (r: seq<Target>)
    ensures |r| == |xs| && forall i :: 0 <= i < |r| ==> r[i] == xs[i].t
  {
    seq(|xs|, i requires 0 <= i < |xs| => xs[i].t)
  }

  function ScoreAll(targets: seq<Target>, key: Target -> Score): (r: seq<Scored>)
    ensures |r| == |targets| && forall i :: 0 <= i < |r| ==> r[i] == Scored(targets[i], key(targets[i]))
  {
    seq(|targets|, i requires 0 <= i < |targets| => Scored(targets[i], key(targets[i])))
  }

  ghost predicate HonestScores(xs: seq<Scored>, key: Target -> Score) {
    forall i :: 0 <= i < |xs| ==> xs[i].s == key(xs[i].t)
  }

  lemma {:induction false} InsertProjects(x: Scored, ys: seq<Scored>, key: Target -> Score)
    requires x.s == key(x.t) && HonestScores(ys, key)
    ensures TargetsOf(Insert(x, ys, BY_SCORE)) == Insert(x.t, TargetsOf(ys), key)
    ensures HonestScores(Insert(x, ys, BY_SCORE), key)
  {
    if |ys| > 0 && Above(ys[0].s, x.s) {
      InsertProjects(x, ys[1..], key);
      var r := Insert(x, ys[1..], BY_SCORE);
      assert Insert(x, ys, BY_SCORE) == [ys[0]] + r;
      assert TargetsOf([ys[0]] + r) == [ys[0].t] + TargetsOf(r);
      assert TargetsOf(ys)[1..] == TargetsOf(ys[1..]);
    } else {
      assert Insert(x, ys, BY_SCORE) == [x] + ys;
      assert TargetsOf([x] + ys) == [x.t] + TargetsOf(ys);
    }
  }

  lemma {:induction false} SortProjects(targets: seq<Target>, key: Target -> Score)
    ensures TargetsOf(StableSort(ScoreAll(targets, key), BY_SCORE)) == StableSort(targets, key)
    ensures HonestScores(StableSort(ScoreAll(targets, key), BY_SCORE), key)
  {
    if |targets| > 0 {
      SortProjects(targets[1..], key);
      assert ScoreAll(targets, key)[1..] == ScoreAll(targets[1..], key);
      InsertProjects(ScoreAll(targets, key)[0], StableSort(ScoreAll(targets[1..], key), BY_SCORE), key);
    }
  }

  /** The tail of both reorderings: sort the scored copy, then write the targets back. */
  method SortInPlace(a: array<Target>, order: seq<Scored>, key: Target -> Score)
    requires order == ScoreAll(a[..], key)
    modifies a
    ensures a[..] == StableSort(old(a[..]), key)
  {
    var sorted := StableSort(order, BY_SCORE);
    ghost var before := a[..];
    SortProjects(before, key);
    StableSortCorrect(before, key, NegInf);
    hide StableSort, Descending, HonestScores, ScoreAll;
    assert |sorted| == a.Length;
    var i := 0;
    while i < a.Length
      invariant 0 <= i <= a.Length
      invariant forall j :: 0 <= j < i ==> a[j] == sorted[j].t
    {
      a[i] := sorted[i].t;
      i := i + 1;
    }
    assert a[..] == TargetsOf(sorted);
  }

  // ---- Task classification ------------------------------------------------------------------------------------

  datatype TaskLevel = Light | Standard | Heavy | Critical

  datatype Signals = Signals(
    promptChars: nat, messages: nat, tools: nat, maxTokens: int, effort: string,
    hasImage: bool, lightKW: bool, heavyKW: bool, criticalKW: bool)

  function Rank(l: TaskLevel): int {
    match l
    case Light => 1
    case Standard => 2
    case Heavy => 3
    case Critical => 4
  }

  predicate HighEffort(e: string) {
    e in {"high", "xhigh", "max", "maximum", "hard", "deep"}
  }

  predicate LightEffort(e: string) {
    e in {"", "low", "minimal", "none", "off", "disabled"}
  }

  function Flag(b: bool): int {
    if b then 1 else 0
  }

  function HeavySignals(s: Signals): int {
    Flag(s.promptChars >= 50_000) + Flag(s.promptChars >= 24_000) + Flag(s.messages >= 16) + Flag(s.tools >= 4)
    + Flag(s.maxTokens >= 8192) + Flag(HighEffort(s.effort)) + Flag(s.criticalKW)
    + Flag(s.heavyKW && s.promptChars >= 4_000)
  }

  predicate IsCritical(s: Signals) {
    || s.promptChars >= 100_000
    || s.maxTokens >= 32768
    || (s.tools >= 8 && s.promptChars >= 16_000)
    || (s.criticalKW && (HighEffort(s.effort) || s.tools >= 3 || s.promptChars >= 8_000))
  }

  predicate IsLight(s: Signals) {
    || (s.promptChars <= 2_000 && s.messages <= 3 && s.tools == 0 && s.maxTokens <= 1500
        && LightEffort(s.effort) && !s.criticalKW && !s.heavyKW)
    || (s.lightKW && s.promptChars <= 4_000 && s.tools == 0 && LightEffort(s.effort) && !s.criticalKW)
  }

  function LevelOf(s: Signals): TaskLevel {
    if IsCritical(s) then Critical
    else if HeavySignals(s) >= 2 || s.promptChars >= 50_000 || HighEffort(s.effort) then Heavy
    else if IsLight(s) then Light
    else Standard
  }

  /** b asks at least as much as a on every signal. */
  predicate AtLeast(a: Signals, b: Signals) {
    && a.promptChars <= b.promptChars && a.messages <= b.messages && a.tools <= b.tools && a.maxTokens <= b.maxTokens
    && (HighEffort(a.effort) ==> HighEffort(b.effort)) && (LightEffort(b.effort) ==> LightEffort(a.effort))
    && (b.lightKW ==> a.lightKW) && (a.heavyKW ==> b.heavyKW) && (a.criticalKW ==> b.criticalKW)
  }

  /** Asking for more never lowers the level. */
  lemma ClassifyMonotone(a: Signals, b: Signals)
    requires AtLeast(a, b)
    ensures Rank(LevelOf(a)) <= Rank(LevelOf(b))
  {
  }

  /** A reason given when its signal holds. */
  function Note(holds: bool, reason: string): seq<string> {
    if holds then [reason] else []
  }

  function SizeReasons(s: Signals): seq<string> {
    Note(s.promptChars >= 50_000, "large-context") + Note(s.promptChars >= 24_000, "medium-large-context")
    + Note(s.messages >= 16, "long-conversation") + Note(s.tools >= 4, "many-tools")
  }

  function DemandReasons(s: Signals): seq<string> {
    Note(s.maxTokens >= 8192, "large-output") + Note(HighEffort(s.effort), "high-reasoning-effort")
    + Note(s.criticalKW, "security-sensitive") + Note(s.heavyKW && s.promptChars >= 4_000, "complex-task")
  }

  /** One reason for every heavy signal. */
  function HeavyReasons(s: Signals): seq<string> {
    SizeReasons(s) + DemandReasons(s)
  }

  /** As many reasons as signals; so a request below Heavy has at most one of them. */
  lemma OneReasonEach(s: Signals)
    ensures |HeavyReasons(s)| == HeavySignals(s)
    ensures Rank(LevelOf(s)) < Rank(Heavy) ==> |HeavyReasons(s)| <= 1
  {
  }

  /** Why a request is critical: the first of four tests that holds. */
  function CriticalReason(s: Signals): string {
    if s.promptChars >= 100_000 then "huge-context"
    else if s.maxTokens >= 32768 then "huge-output"
    else if s.tools >= 8 && s.promptChars >= 16_000 then "many-tools-large-context"
    else "critical-domain"
  }

  method Classify(s: Signals) returns (level: TaskLevel, reasons: seq<string>)
    ensures level == LevelOf(s)
    ensures level == Critical ==> reasons == [CriticalReason(s)]
    ensures level == Heavy ==> reasons == HeavyReasons(s)
    ensures level == Light ==> reasons == if HeavySignals(s) == 0 then ["small-simple-request"] else HeavyReasons(s)
    ensures level == Standard ==> reasons == if HeavySignals(s) == 0 then ["default"] else HeavyReasons(s)
  {
    OneReasonEach(s);
    hide HeavySignals;
    var high := HighEffort(s.effort);
    if s.promptChars >= 100_000 {
      return Critical, ["huge-context"];
    }
    if s.maxTokens >= 32768 {
      return Critical, ["huge-output"];
    }
    if s.tools >= 8 && s.promptChars >= 16_000 {
      return Critical, ["many-tools-large-context"];
    }
    if s.criticalKW && (high || s.tools >= 3 || s.promptChars >= 8_000) {
      return Critical, ["critical-domain"];
    }
    var heavySignals := 0;
    reasons, heavySignals := CollectReasons(s);
    if heavySignals >= 2 || s.promptChars >= 50_000 || high {
      return Heavy, reasons;
    }
    if IsLight(s) {
      if |reasons| == 0 {
        reasons := ["small-simple-request"];
      }
      return Light, reasons;
    }
    if |reasons| == 0 {
      reasons := ["default"];
    }
    return Standard, reasons;
  }

  /** Counts a signal and notes its reason, if it holds. */
  method Add(reasons: seq<string>, count: nat, holds: bool, reason: string) returns (r: seq<string>, n: nat)
    ensures r == reasons + Note(holds, reason) && n == count + Flag(holds)
  {
    r, n := reasons, count;
    if holds {
      r, n := r + [reason], n + 1;
    }
  }

  method CollectReasons(s: Signals) returns (reasons: seq<string>, heavySignals: nat)
    ensures reasons == HeavyReasons(s) && heavySignals == HeavySignals(s)
  {
    var size, n := CollectSize(s);
    var demand, m := CollectDemand(s);
    hide SizeReasons, DemandReasons;
    reasons, heavySignals := size + demand, n + m;
  }

  method CollectSize(s: Signals) returns (reasons: seq<string>, n: nat)
    ensures reasons == SizeReasons(s)
    ensures n == Flag(s.promptChars >= 50_000) + Flag(s.promptChars >= 24_000) + Flag(s.messages >= 16) + Flag(s.tools >= 4)
  {
    reasons, n := Add([], 0, s.promptChars >= 50_000, "large-context");
    reasons, n := Add(reasons, n, s.promptChars >= 24_000, "medium-large-context");
    reasons, n := Add(reasons, n, s.messages >= 16, "long-conversation");
    reasons, n := Add(reasons, n, s.tools >= 4, "many-tools");
  }

  method CollectDemand(s: Signals) returns (reasons: seq<string>, n: nat)
    ensures reasons == DemandReasons(s)
    ensures n == Flag(s.maxTokens >= 8192) + Flag(HighEffort(s.effort)) + Flag(s.criticalKW)
                 + Flag(s.heavyKW && s.promptChars >= 4_000)
  {
    hide HighEffort;
    reasons, n := Add([], 0, s.maxTokens >= 8192, "large-output");
    reasons, n := Add(reasons, n, HighEffort(s.effort), "high-reasoning-effort");
    reasons, n := Add(reasons, n, s.criticalKW, "security-sensitive");
    reasons, n := Add(reasons, n, s.heavyKW && s.promptChars >= 4_000, "complex-task");
  }

  // ---- Task order -----------------------------------------------------------------------------------------------

  datatype Tier = Tier(power: int, vision: bool, reasoning: bool, context: int, maxOut: int)

  datatype TierMeta = TierMeta(tier: Tier, declared: bool)

  const UNDECLARED: TierMeta := TierMeta(Tier(65, false, false, 0, 0), false)

  function TierFor(tiers: map<Target, Tier>, t: Target): TierMeta {
    if t in tiers then TierMeta(tiers[t], true) else UNDECLARED
  }

  function TargetPower(l: TaskLevel): int {
    match l
    case Light => 35
    case Standard => 65
    case Heavy => 95
    case Critical => 120
  }

  function Abs(n: int): int {
    if n < 0 then -n else n
  }

  function ScoreTarget(m: TierMeta, s: Signals): int {
    var level := LevelOf(s);
    var fit := 100 - Abs(m.tier.power - TargetPower(level));
    var hard :=
      if !m.declared then 0
      else
        (if s.hasImage && !m.tier.vision then 10000 else 0)
        + (if Rank(level) >= Rank(Heavy) && !m.tier.reasoning then 120 else 0)
        + (if m.tier.context > 0 && TruncDiv(s.promptChars, 4) > TruncDiv(m.tier.context * 85, 100) then 200 else 0)
        + (if m.tier.maxOut > 0 && s.maxTokens > 0 && s.maxTokens > m.tier.maxOut then 80 else 0);
    var soft :=
      match level
      case Light => if m.tier.power > 95 then 35 else 0
      case Standard => if m.tier.power > 125 then 10 else 0
      case Heavy => if m.tier.power < 65 then 60 else 0
      case Critical => if m.tier.power < 85 then 100 else 0;
    fit - hard - soft
  }

  function TaskScore(tiers: map<Target, Tier>, s: Signals): Target -> Score {
    t => Val(ScoreTarget(TierFor(tiers, t), s) as real)
  }

  function TaskOrder(targets: seq<Target>, tiers: map<Target, Tier>, s: Signals): seq<Target> {
    StableSort(targets, TaskScore(tiers, s))
  }

  /** A declared target that cannot see. */
  predicate Blind(tiers: map<Target, Tier>, t: Target) {
    t in tiers && !tiers[t].vision
  }

  ghost predicate PowersInRange(tiers: map<Target, Tier>) {
    forall t :: t in tiers ==> 0 <= tiers[t].power <= 150
  }

  lemma BlindScoresLow(tiers: map<Target, Tier>, s: Signals, t: Target, u: Target)
    requires s.hasImage && Blind(tiers, t) && !Blind(tiers, u) && PowersInRange(tiers)
    ensures ScoreTarget(TierFor(tiers, t), s) < -8000 < ScoreTarget(TierFor(tiers, u), s)
  {
  }

  /** The hard vision gate: with powers in the range configuration allows, on an image request every
      declared non-vision target comes after every other target. */
  lemma BlindTargetsComeLast(targets: seq<Target>, tiers: map<Target, Tier>, s: Signals, i: nat, j: nat)
    requires s.hasImage && PowersInRange(tiers) && i < |targets| && j < |targets|
    ensures |TaskOrder(targets, tiers, s)| == |targets|
    ensures var r := TaskOrder(targets, tiers, s);
            Blind(tiers, r[i]) && !Blind(tiers, r[j]) ==> j < i
  {
    var r := TaskOrder(targets, tiers, s);
    StableSortCorrect(targets, TaskScore(tiers, s), NegInf);
    if Blind(tiers, r[i]) && !Blind(tiers, r[j]) {
      BlindScoresLow(tiers, s, r[i], r[j]);
      assert Above(TaskScore(tiers, s)(r[j]), TaskScore(tiers, s)(r[i]));
    }
  }

  /** A target that nothing the request needs counts against, of a power its level does not call
      excessive or too small. */
  predicate Fits(m: TierMeta, s: Signals) {
    var t, level := m.tier, LevelOf(s);
    && (m.declared ==>
          && (s.hasImage ==> t.vision)
          && (level in {Heavy, Critical} ==> t.reasoning)
          && (t.context <= 0 || s.promptChars / 4 <= t.context * 85 / 100)
          && (t.maxOut <= 0 || s.maxTokens <= t.maxOut || s.maxTokens <= 0))
    && (level == Light ==> t.power <= 95)
    && (level == Standard ==> t.power <= 125)
    && (level == Heavy ==> t.power >= 65)
    && (level == Critical ==> t.power >= 85)
  }

  /** A fitting target precedes every target further from the level's power, and every misfit that is
      no closer. */
  lemma FittingTargetsByDistance(targets: seq<Target>, tiers: map<Target, Tier>, s: Signals, i: nat, j: nat)
    requires i < |targets| && j < |targets|
    ensures |TaskOrder(targets, tiers, s)| == |targets|
    ensures var r := TaskOrder(targets, tiers, s);
            var a, b := TierFor(tiers, r[i]), TierFor(tiers, r[j]);
            var goal := match LevelOf(s) case Light => 35 case Standard => 65 case Heavy => 95 case Critical => 120;
            var da, db := Abs(a.tier.power - goal), Abs(b.tier.power - goal);
            Fits(b, s) && (db < da || (db == da && !Fits(a, s))) ==> j < i
  {
    var r := TaskOrder(targets, tiers, s);
    StableSortCorrect(targets, TaskScore(tiers, s), NegInf);
    var a, b := TierFor(tiers, r[i]), TierFor(tiers, r[j]);
    FitScores(a, s);
    FitScores(b, s);
    hide LevelOf, ScoreTarget, Fits, StableSort;
    if ScoreTarget(b, s) > ScoreTarget(a, s) {
      assert Above(TaskScore(tiers, s)(r[j]), TaskScore(tiers, s)(r[i]));
    }
  }

  lemma FitScores(m: TierMeta, s: Signals)
    ensures var fit := 100 - Abs(m.tier.power - TargetPower(LevelOf(s)));
            if Fits(m, s) then ScoreTarget(m, s) == fit else ScoreTarget(m, s) < fit
  {
    hide LevelOf;
  }

  /** What a target costs a request: its distance from the level's power, and the price of everything it
      lacks; nothing is held against a target that declares nothing but its neutral power. */
  function Cost(m: TierMeta, s: Signals): int {
    var t, level := m.tier, LevelOf(s);
    var distance := match level
      case Light => Abs(t.power - 35)
      case Standard => Abs(t.power - 65)
      case Heavy => Abs(t.power - 95)
      case Critical => Abs(t.power - 120);
    distance
    + (if m.declared && s.hasImage && !t.vision then 10_000 else 0)
    + (if m.declared && t.context > 0 && s.promptChars / 4 > t.context * 85 / 100 then 200 else 0)
    + (if m.declared && (level == Heavy || level == Critical) && !t.reasoning then 120 else 0)
    + (if m.declared && 0 < t.maxOut < s.maxTokens then 80 else 0)
    + (if level == Critical && t.power < 85 then 100
       else if level == Heavy && t.power < 65 then 60
       else if level == Light && t.power > 95 then 35
       else if level == Standard && t.power > 125 then 10 else 0)
  }

  lemma ScoreIsCost(m: TierMeta, s: Signals)
    ensures ScoreTarget(m, s) == 100 - Cost(m, s)
  {
    hide LevelOf;
  }

  /** The task order is by cost, cheapest first. */
  lemma CheaperGoesFirst(targets: seq<Target>, tiers: map<Target, Tier>, s: Signals, i: nat, j: nat)
    requires i < |targets| && j < |targets|
    ensures |TaskOrder(targets, tiers, s)| == |targets|
    ensures var r := TaskOrder(targets, tiers, s);
            Cost(TierFor(tiers, r[j]), s) < Cost(TierFor(tiers, r[i]), s) ==> j < i
  {
    var r := TaskOrder(targets, tiers, s);
    StableSortCorrect(targets, TaskScore(tiers, s), NegInf);
    ScoreIsCost(TierFor(tiers, r[i]), s);
    ScoreIsCost(TierFor(tiers, r[j]), s);
    hide Cost, ScoreTarget, LevelOf, StableSort;
    if ScoreTarget(TierFor(tiers, r[j]), s) > ScoreTarget(TierFor(tiers, r[i]), s) {
      assert Above(TaskScore(tiers, s)(r[j]), TaskScore(tiers, s)(r[i]));
    }
  }

  method ReorderByTask(a: array<Target>, tiers: map<Target, Tier>, s: Signals)
    modifies a
    ensures a[..] == TaskOrder(old(a[..]), tiers, s)
  {
    var order := [];
    var i := 0;
    while i < a.Length
      invariant 0 <= i <= a.Length && a[..] == old(a[..])
      invariant order == ScoreAll(a[..], TaskScore(tiers, s))[..i]
    {
      order := order + [Scored(a[i], Val(ScoreTarget(TierFor(tiers, a[i]), s) as real))];
      i := i + 1;
    }
    SortInPlace(a, order, TaskScore(tiers, s));
  }

  // ---- Speed order ----------------------------------------------------------------------------------------------

  const PREFILL_MATTERS_AT: int := 32_000
  const MIN_PREFILL_SAMPLES: int := 3

  /** What has been measured of each target: decode speed, and for this request's size the number of
      prefill samples and the predicted seconds (0 without data). */
  datatype Speeds = Speeds(tps: map<Target, real>, samples: map<Target, int>, secs: map<Target, real>,
                           inTokens: int, prefillOnly: bool)

  predicate Sampled(m: Speeds, t: Target) {
    t in m.samples && m.samples[t] >= MIN_PREFILL_SAMPLES
  }

  predicate ByPrefill(targets: seq<Target>, m: Speeds) {
    m.inTokens >= PREFILL_MATTERS_AT && exists i :: 0 <= i < |targets| && Sampled(m, targets[i])
  }

  function NoData(byPrefill: bool): Score {
    if byPrefill then NegInf else Val(0.0)
  }

  function SpeedScore(m: Speeds, byPrefill: bool): Target -> Score {
    t =>
      if byPrefill then (if t in m.secs && m.secs[t] > 0.0 then Val(-m.secs[t]) else NegInf)
      else (if t in m.tps then Val(m.tps[t]) else Val(0.0))
  }

  function SpeedOrder(targets: seq<Target>, m: Speeds): seq<Target> {
    var byPrefill := ByPrefill(targets, m);
    if m.prefillOnly && !byPrefill then targets else StableSort(targets, SpeedScore(m, byPrefill))
  }

  predicate Measured(m: Speeds, byPrefill: bool, t: Target) {
    if byPrefill then t in m.secs && m.secs[t] > 0.0 else t in m.tps && m.tps[t] > 0.0
  }

  /** Whenever the chain is re-ranked, in either regime, every leg without data for the request stands
      behind every measured leg and the legs without data keep their configured order. */
  lemma {:induction false} UnmeasuredComeLast(targets: seq<Target>, m: Speeds, i: nat, j: nat)
    requires forall t :: t in m.tps ==> m.tps[t] >= 0.0
    requires !m.prefillOnly || ByPrefill(targets, m)
    requires i < |targets| && j < |targets|
    ensures |SpeedOrder(targets, m)| == |targets|
    ensures var r, p := SpeedOrder(targets, m), ByPrefill(targets, m);
            && (Measured(m, p, r[j]) && !Measured(m, p, r[i]) ==> j < i)
            && (Measured(m, p, r[i]) <==> SpeedScore(m, p)(r[i]) != NoData(p))
            && Level(r, SpeedScore(m, p), NoData(p)) == Level(targets, SpeedScore(m, p), NoData(p))
  {
    var p := ByPrefill(targets, m);
    var r := SpeedOrder(targets, m);
    StableSortCorrect(targets, SpeedScore(m, p), NoData(p));
    if Measured(m, p, r[j]) && !Measured(m, p, r[i]) {
      assert Above(SpeedScore(m, p)(r[j]), SpeedScore(m, p)(r[i]));
    }
  }

  /** Between measured legs the one expected to finish first stands first: fewer predicted seconds when
      prefill matters and has been sampled, otherwise the higher decode speed. */
  lemma FasterGoesFirst(targets: seq<Target>, m: Speeds, i: nat, j: nat)
    requires !m.prefillOnly || ByPrefill(targets, m)
    requires i < |targets| && j < |targets|
    ensures |SpeedOrder(targets, m)| == |targets|
    ensures var r := SpeedOrder(targets, m);
            if m.inTokens >= 32_000 && exists t :: t in targets && t in m.samples && m.samples[t] >= 3 then
              r[i] in m.secs && r[j] in m.secs && 0.0 < m.secs[r[j]] < m.secs[r[i]] ==> j < i
            else
              r[i] in m.tps && r[j] in m.tps && m.tps[r[j]] > m.tps[r[i]] ==> j < i
  {
    var p := ByPrefill(targets, m);
    var r := SpeedOrder(targets, m);
    StableSortCorrect(targets, SpeedScore(m, p), NoData(p));
    if exists t :: t in targets && Sampled(m, t) {
      var t :| t in targets && Sampled(m, t);
      var k :| 0 <= k < |targets| && targets[k] == t;
      assert Sampled(m, targets[k]);
    }
    if i <= j {
      assert i < j ==> !Above(SpeedScore(m, p)(r[j]), SpeedScore(m, p)(r[i]));
    }
  }

  /** The size-aware strategy never re-ranks on decode speed. */
  lemma SizeAwareKeepsSmallRequests(targets: seq<Target>, m: Speeds)
    requires m.prefillOnly && (m.inTokens < PREFILL_MATTERS_AT || forall t :: t in targets ==> !Sampled(m, t))
    ensures SpeedOrder(targets, m) == targets
  {
    assert !ByPrefill(targets, m);
  }

  method ReorderBySpeed(a: array<Target>, m: Speeds)
    modifies a
    ensures a[..] == SpeedOrder(old(a[..]), m)
  {
    var byPrefill := false;
    var i := 0;
    if m.inTokens >= PREFILL_MATTERS_AT {
      while i < a.Length && !byPrefill
        invariant 0 <= i <= a.Length
        invariant byPrefill ==> exists k :: 0 <= k < |a[..]| && Sampled(m, a[..][k])
        invariant !byPrefill ==> forall k :: 0 <= k < i ==> !Sampled(m, a[..][k])
        decreases a.Length - i, !byPrefill
      {
        if Sampled(m, a[i]) {
          assert Sampled(m, a[..][i]);
          byPrefill := true;
        } else {
          i := i + 1;
        }
      }
    }
    assert byPrefill == ByPrefill(a[..], m);
    if m.prefillOnly && !byPrefill {
      return;
    }
    var order := [];
    i := 0;
    while i < a.Length
      invariant 0 <= i <= a.Length && a[..] == old(a[..])
      invariant order == ScoreAll(a[..], SpeedScore(m, byPrefill))[..i]
    {
      var s := if byPrefill then NegInf else Val(0.0);
      if byPrefill {
        if a[i] in m.secs && m.secs[a[i]] > 0.0 {
          s := Val(-m.secs[a[i]]);
        }
      } else if a[i] in m.tps {
        s := Val(m.tps[a[i]]);
      }
      order := order + [Scored(a[i], s)];
      i := i + 1;
    }
    SortInPlace(a, order, SpeedScore(m, byPrefill));
  }

  // ---- The verdict ------------------------------------------------------------------------------------------------

  /** A score outranks a choice; neither is the neutral verdict.  The option is already trimmed and in
      lower case. */
  datatype Verdict = Verdict(score: Option<int>, choice: Option<string>)

  const MAX_INT: int := 0x7FFF_FFFF_FFFF_FFFF

  function VerdictPower(level: int): int {
    if level >= 4 then 120 else if level >= 3 then 95 else if level >= 2 then 65 else 35
  }

  function Distance(tiers: map<Target, Tier>, t: Target, power: int): int
    requires t in tiers
  {
    Abs(tiers[t].power - power)
  }

  /** Position k holds the first of the declared targets whose power is closest. */
  ghost predicate Closest(targets: seq<Target>, tiers: map<Target, Tier>, power: int, k: int) {
    && 0 <= k < |targets| && targets[k] in tiers
    && (forall j :: 0 <= j < |targets| && targets[j] in tiers ==>
          Distance(tiers, targets[k], power) <= Distance(tiers, targets[j], power))
    && (forall j :: 0 <= j < k && targets[j] in tiers ==>
          Distance(tiers, targets[k], power) < Distance(tiers, targets[j], power))
  }

  /** The first position whose provider or model is the option. */
  function FirstNamed(targets: seq<Target>, lower: string -> string, option: string): (k: nat)
    ensures k <= |targets|
  {
    if |targets| == 0 || lower(targets[0].provider) == option || lower(targets[0].model) == option then 0
    else 1 + FirstNamed(targets[1..], lower, option)
  }

  /** The closest of the first n targets and its distance; position 0 when none is declared. */
  function BestOf(targets: seq<Target>, tiers: map<Target, Tier>, power: int, n: nat): (r: (int, int))
    requires n <= |targets|
    ensures 0 <= r.0 && (r.0 < n || r.0 == 0)
  {
    if n == 0 then (0, MAX_INT)
    else
      var r := BestOf(targets, tiers, power, n - 1);
      var t := targets[n - 1];
      if t in tiers && Distance(tiers, t, power) < r.1 then (n - 1, Distance(tiers, t, power)) else r
  }

  /** The position the verdict puts first. */
  function Favoured(targets: seq<Target>, tiers: map<Target, Tier>, lower: string -> string, v: Verdict): (k: nat)
    ensures k < |targets| || k == 0
  {
    match v
    case Verdict(Some(level), _) => BestOf(targets, tiers, VerdictPower(level), |targets|).0
    case Verdict(None, Some(option)) =>
      var k := FirstNamed(targets, lower, option);
      if k < |targets| then k else 0
    case Verdict(None, None) => 0
  }

  function SwapFront(targets: seq<Target>, k: nat): (r: seq<Target>)
    requires k < |targets| || k == 0
    ensures |r| == |targets|
  {
    if k == 0 then targets else targets[0 := targets[k]][k := targets[0]]
  }

  function VerdictOrder(targets: seq<Target>, tiers: map<Target, Tier>, lower: string -> string, v: Verdict): seq<Target> {
    SwapFront(targets, Favoured(targets, tiers, lower, v))
  }

  lemma {:induction false} BestIsClosest(targets: seq<Target>, tiers: map<Target, Tier>, power: int, n: nat)
    requires PowersInRange(tiers) && 0 <= power <= 150 && n <= |targets|
    ensures var r := BestOf(targets, tiers, power, n);
            if exists j :: 0 <= j < n && targets[j] in tiers
            then Closest(targets[..n], tiers, power, r.0) && r.1 == Distance(tiers, targets[r.0], power)
            else r == (0, MAX_INT)
  {
    if n > 0 {
      BestIsClosest(targets, tiers, power, n - 1);
      assert forall j :: 0 <= j < n - 1 ==> targets[..n][j] == targets[..n - 1][j] == targets[j];
      assert targets[..n][n - 1] == targets[n - 1];
    }
  }

  /** A score verdict moves the first declared target of the closest power to the front and puts the
      old leader in its place; without a declared target nothing moves. */
  lemma ScoreVerdictPromotesClosest(targets: seq<Target>, tiers: map<Target, Tier>, lower: string -> string,
                                    level: int, choice: Option<string>, k: nat)
    requires PowersInRange(tiers)
    ensures var r := VerdictOrder(targets, tiers, lower, Verdict(Some(level), choice));
            var power := if level <= 1 then 35 else if level == 2 then 65 else if level == 3 then 95 else 120;
            && (Closest(targets, tiers, power, k) ==> r == SwapFront(targets, k))
            && ((forall t :: t in targets ==> t !in tiers) ==> r == targets)
  {
    BestIsClosest(targets, tiers, VerdictPower(level), |targets|);
    assert targets[..|targets|] == targets;
  }

  lemma {:induction false} FirstNamedMeans(targets: seq<Target>, lower: string -> string, option: string)
    ensures var k := FirstNamed(targets, lower, option);
            && (k < |targets| ==> lower(targets[k].provider) == option || lower(targets[k].model) == option)
            && forall j :: 0 <= j < k ==> lower(targets[j].provider) != option && lower(targets[j].model) != option
  {
    if |targets| > 0 && lower(targets[0].provider) != option && lower(targets[0].model) != option {
      FirstNamedMeans(targets[1..], lower, option);
      var k := FirstNamed(targets[1..], lower, option);
      assert forall j :: 1 <= j <= k ==> targets[j] == targets[1..][j - 1];
      assert 1 + k < |targets| ==> targets[1 + k] == targets[1..][k];
    }
  }

  /** A choice verdict swaps the first target whose provider or model is the option with the leader;
      without one, and on a neutral verdict, nothing moves. */
  lemma ChoiceVerdictPromotesNamed(targets: seq<Target>, tiers: map<Target, Tier>, lower: string -> string, option: string, k: nat)
    ensures var r := VerdictOrder(targets, tiers, lower, Verdict(None, Some(option)));
            && |r| == |targets|
            && (k < |targets| && (lower(targets[k].provider) == option || lower(targets[k].model) == option)
                && (forall j :: 0 <= j < k ==> lower(targets[j].provider) != option && lower(targets[j].model) != option)
                ==> r[0] == targets[k] && r[k] == targets[0]
                    && forall j :: 0 < j < |r| && j != k ==> r[j] == targets[j])
            && ((forall t :: t in targets ==> lower(t.provider) != option && lower(t.model) != option) ==> r == targets)
    ensures VerdictOrder(targets, tiers, lower, Verdict(None, None)) == targets
  {
    FirstNamedMeans(targets, lower, option);
    var n := FirstNamed(targets, lower, option);
    assert n < |targets| ==> targets[n] in targets;
  }

  method ApplyVerdict(a: array<Target>, tiers: map<Target, Tier>, lower: string -> string, v: Verdict)
    modifies a
    ensures a[..] == VerdictOrder(old(a[..]), tiers, lower, v)
  {
    match v
    case Verdict(Some(level), _) =>
      var power := VerdictPower(level);
      var best, bestDist, i := 0, MAX_INT, 0;
      while i < a.Length
        invariant 0 <= i <= a.Length
        invariant (best, bestDist) == BestOf(a[..], tiers, power, i)
      {
        if a[i] in tiers {
          var d := tiers[a[i]].power - power;
          if d < 0 {
            d := -d;
          }
          if d < bestDist {
            bestDist, best := d, i;
          }
        }
        i := i + 1;
      }
      if best > 0 {
        a[0], a[best] := a[best], a[0];
      }
    case Verdict(None, Some(option)) =>
      var i := 0;
      while i < a.Length && lower(a[i].provider) != option && lower(a[i].model) != option
        invariant 0 <= i <= a.Length
        invariant FirstNamed(a[..], lower, option) == i + FirstNamed(a[i..], lower, option)
      {
        assert a[i..][1..] == a[i + 1..];
        i := i + 1;
      }
      if 0 < i < a.Length {
        a[0], a[i] := a[i], a[0];
      }
    case Verdict(None, None) =>
  }

  // ---- All of them ---------------------------------------------------------------------------------------------------

  /** One reordering of the chain, in whatever state its inputs are. */
  datatype Pass =
    | ByTask(tiers: map<Target, Tier>, signals: Signals)
    | ByVerdict(declared: map<Target, Tier>, lower: string -> string, verdict: Verdict)
    | BySpeed(speeds: Speeds)
    | ByTurn(st: RR, limit: int)

  function Apply(targets: seq<Target>, p: Pass): seq<Target> {
    match p
    case ByTask(tiers, signals) => TaskOrder(targets, tiers, signals)
    case ByVerdict(declared, lower, verdict) => VerdictOrder(targets, declared, lower, verdict)
    case BySpeed(speeds) => SpeedOrder(targets, speeds)
    case ByTurn(st, limit) =>
      if |targets| < 2 then targets else Rotate(targets, Lead(st, limit, |targets|))
  }

  function ApplyAll(targets: seq<Target>, ps: seq<Pass>): seq<Target>
    decreases |ps|
  {
    if |ps| == 0 then targets else ApplyAll(Apply(targets, ps[0]), ps[1..])
  }

  lemma SwapPermutes(targets: seq<Target>, k: nat)
    requires k < |targets| || k == 0
    ensures multiset(SwapFront(targets, k)) == multiset(targets)
  {
  }

  lemma PassPermutes(targets: seq<Target>, p: Pass)
    ensures multiset(Apply(targets, p)) == multiset(targets)
  {
    hide StableSort, Level, Insert, Rotate, SwapFront;
    match p {
      case ByTask(tiers, signals) =>
        StableSortCorrect(targets, TaskScore(tiers, signals), NegInf);
      case ByVerdict(declared, lower, verdict) =>
        SwapPermutes(targets, Favoured(targets, declared, lower, verdict));
      case BySpeed(speeds) =>
        StableSortCorrect(targets, SpeedScore(speeds, ByPrefill(targets, speeds)), NegInf);
      case ByTurn(st, limit) =>
        if |targets| >= 2 {
          RotateIsPermutation(targets, Lead(st, limit, |targets|));
        }
    }
  }

  /** Whatever reorderings run, in whatever order and on whatever measurements, the chain stays a
      permutation of the configured targets: none is lost, none is tried twice. */
  lemma {:induction false} AnyReorderingPermutes(targets: seq<Target>, ps: seq<Pass>)
    ensures multiset(ApplyAll(targets, ps)) == multiset(targets)
    decreases |ps|
  {
    hide Apply;
    if |ps| > 0 {
      PassPermutes(targets, ps[0]);
      AnyReorderingPermutes(Apply(targets, ps[0]), ps[1..]);
    }
  }
}
