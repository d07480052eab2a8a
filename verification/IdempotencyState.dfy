/**
  The idempotency cache as a value: a bounded LRU of settled results with waiters coalesced onto
  requests still in flight, and one function per operation.
 */
module IdempotencyState {
  import opened Prelude

  const MAX_ENTRIES_HARD: nat := 1024
  const DEFAULT_ENTRIES: nat := 128
  const ENTRY_BODY_CAP: nat := 0x10_0000
  const TOTAL_BODY_BUDGET: nat := 0x40_0000

  /** The composite key; its SHA-256 digest is taken to be injective. */
  datatype Key = Key(scope: string, key: string, bodyHash: string)

  datatype Result = Result(status: int, contentType: string, body: seq<bv8>, stream: bool, gone: bool)

  const GONE: Result := Result(0, "", [], false, true)

  datatype Entry = Entry(created: int, complete: bool, res: Option<Result>, waiters: seq<nat>)

  /** A waiter's channel: the key it waits on and everything sent on it so far. */
  datatype Chan = Chan(of: Key, sent: seq<Result>)

  /** `lru` lists the keys, most recently used first; waiters are indices into `chans`. */
  datatype Cache = Cache(cap: nat, ttl: int, items: map<Key, Entry>, lru: seq<Key>, bytes: int, chans: seq<Chan>)

  datatype Decision = Miss | Replay(res: Result) | Conflict | Wait(waiter: nat)

  predicate Expired(c: Cache, e: Entry, now: int) {
    now - e.created > c.ttl
  }

  function Capacity(configured: int): nat {
    if configured <= 0 then DEFAULT_ENTRIES
    else if configured > MAX_ENTRIES_HARD then MAX_ENTRIES_HARD else configured
  }

  function NewCache(configured: int, ttl: int): Cache {
    Cache(Capacity(configured), ttl, map[], [], 0, [])
  }

  function Body(e: Entry): nat {
    if e.complete && e.res.Some? && !e.res.value.stream then |e.res.value.body| else 0
  }

  function BodySum(items: map<Key, Entry>, lru: seq<Key>): nat
    requires forall k :: k in lru ==> k in items
  {
    if |lru| == 0 then 0 else Body(items[lru[0]]) + BodySum(items, lru[1..])
  }

  function Without(lru: seq<Key>, k: Key): (r: seq<Key>)
    ensures k in lru || r == lru
    ensures forall x :: x in r ==> x in lru
    ensures |r| <= |lru| && (k in lru ==> |r| < |lru|)
    ensures forall x :: x in lru && x != k ==> x in r
  {
    if |lru| == 0 then []
    else if lru[0] == k then lru[1..]
    else [lru[0]] + Without(lru[1..], k)
  }

  /** Sends r to the first n waiters. */
  function Wake(chans: seq<Chan>, waiters: seq<nat>, r: Result, n: nat): (cs: seq<Chan>)
    requires n <= |waiters|
    ensures |cs| == |chans|
  {
    if n == 0 then chans
    else
      var cs := Wake(chans, waiters, r, n - 1);
      var w := waiters[n - 1];
      if w < |cs| then cs[w := Chan(cs[w].of, cs[w].sent + [r])] else cs
  }

  function Remove(c: Cache, k: Key): Cache
    requires k in c.items
  {
    var e := c.items[k];
    c.(items := c.items - {k}, lru := Without(c.lru, k), bytes := c.bytes - Body(e),
       chans := Wake(c.chans, e.waiters, GONE, |e.waiters|))
  }

  predicate MayEvict(c: Cache, k: Key, now: int)
    requires k in c.items
  {
    c.items[k].complete || Expired(c, c.items[k], now)
  }

  /** The least recently used of the first n keys that may be dropped. */
  function Evictable(c: Cache, now: int, n: nat): (r: Option<nat>)
    requires n <= |c.lru| && forall k :: k in c.lru ==> k in c.items
    ensures r.Some? ==> r.value < n && MayEvict(c, c.lru[r.value], now)
    ensures forall j :: (if r.Some? then r.value else -1) < j < n ==> !MayEvict(c, c.lru[j], now)
  {
    if n == 0 then None
    else if MayEvict(c, c.lru[n - 1], now) then Some(n - 1)
    else Evictable(c, now, n - 1)
  }

  predicate Overfull(c: Cache) {
    |c.items| > c.cap || c.bytes > TOTAL_BODY_BUDGET
  }

  ghost predicate Listed(c: Cache) {
    Distinct(c.lru) && forall k :: k in c.lru <==> k in c.items
  }

  function Enforce(c: Cache, now: int): Cache
    requires Listed(c)
    decreases |c.lru|
  {
    if !Overfull(c) then c
    else
      match Evictable(c, now, |c.lru|)
      case None => c
      case Some(j) =>
        RemoveKeepsListed(c, c.lru[j]);
        Enforce(Remove(c, c.lru[j]), now)
  }

  lemma {:induction false} WithoutIsDistinct(lru: seq<Key>, k: Key)
    requires Distinct(lru)
    ensures Distinct(Without(lru, k)) && k !in Without(lru, k)
  {
    if |lru| > 0 && lru[0] != k {
      var r := Without(lru[1..], k);
      WithoutIsDistinct(lru[1..], k);
      assert forall x :: x in r ==> x in lru[1..];
      assert lru[0] !in r;
    }
  }

  lemma RemoveKeepsListed(c: Cache, k: Key)
    requires Listed(c) && k in c.items
    ensures Listed(Remove(c, k))
  {
    WithoutIsDistinct(c.lru, k);
  }

  /** A new waiter on the record of k, which is still in flight. */
  function Coalesce(c: Cache, k: Key): Cache
    requires k in c.items
  {
    var e := c.items[k];
    c.(items := c.items[k := e.(waiters := e.waiters + [|c.chans|])], chans := c.chans + [Chan(k, [])])
  }

  function Promote(c: Cache, k: Key): Cache {
    c.(lru := [k] + Without(c.lru, k))
  }

  /** A fresh in-flight record, at the front of the list. */
  function OpenRecord(c: Cache, k: Key, now: int): Cache {
    c.(items := c.items[k := Entry(now, false, None, [])], lru := [k] + c.lru)
  }

  /** Registers interest in k: the cache after it and the outcome. */
  function Claim(c: Cache, k: Key, now: int): (Cache, Decision) {
    if k in c.items && !Expired(c, c.items[k], now) then
      var e := c.items[k];
      if !e.complete then (Coalesce(c, k), Wait(|c.chans|))
      else (Promote(c, k), if e.res.None? || e.res.value.stream then Conflict else Replay(e.res.value))
    else
      (OpenRecord(if k in c.items then Remove(c, k) else c, k, now), Miss)
  }

  /** The outcomes that leave no record: nothing written, or the origin's client hung up. */
  predicate Vanished(res: Option<Result>) {
    res.None? || res.value.gone || res.value.status == 0 || res.value.status == 499
  }

  /** What is recorded and fanned out: a stream or an oversized body keeps its status only. */
  function Stored(r: Result): Result {
    if r.stream || |r.body| > ENTRY_BODY_CAP then Result(r.status, "", [], true, false) else r
  }

  function Settle(c: Cache, k: Key, r: Result): Cache
    requires k in c.items
  {
    var e := c.items[k];
    var d := Entry(e.created, true, Some(Stored(r)), []);
    c.(items := c.items[k := d], bytes := c.bytes + Body(d),
       chans := Wake(c.chans, e.waiters, Stored(r), |e.waiters|))
  }

  lemma SettleKeepsListed(c: Cache, k: Key, r: Result)
    requires Listed(c) && k in c.items
    ensures Listed(Settle(c, k, r))
  {
  }

  function Finish(c: Cache, k: Key, res: Option<Result>, now: int): Cache
    requires Listed(c)
  {
    if k !in c.items || c.items[k].complete then c
    else if Vanished(res) then Remove(c, k)
    else
      SettleKeepsListed(c, k, res.value);
      Enforce(Settle(c, k, res.value), now)
  }
}
