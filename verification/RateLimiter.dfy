/**
  The per-key request and token limiter: a map of rings updated in place under the limiter's mutex.
  The ghost logs record what was admitted and observed, and every answer is stated about them.
 */
module RateLimiter {
  import opened Prelude
  import opened SlidingWindow

  /** Sums the ring and zeroes what has aged out of it, in one pass. */
  method SumAt(w: array<Cell>, now: int) returns (sum: int, oldest: int)
    modifies w
    ensures w[..] == Aged(old(w[..]), now)
    ensures sum == RingSum(old(w[..]), now, w.Length)
    ensures oldest == RingOldest(old(w[..]), now, w.Length)
  {
    sum, oldest := 0, 0;
    for i := 0 to w.Length
      invariant forall j :: 0 <= j < i ==> w[j] == Aged(old(w[..]), now)[j]
      invariant forall j :: i <= j < w.Length ==> w[j] == old(w[j])
      invariant sum == RingSum(old(w[..]), now, i)
      invariant oldest == RingOldest(old(w[..]), now, i)
    {
      var b := w[i];
      assert b == old(w[..])[i];
      if b.v == 0 {
        continue;
      }
      if now - b.sec >= WINDOW {
        w[i] := b.(v := 0);
        continue;
      }
      sum := sum + b.v;
      if oldest == 0 || b.sec < oldest {
        oldest := b.sec;
      }
    }
  }

  method Add(w: array<Cell>, now: int, v: int)
    requires w.Length == WINDOW && now > 0
    modifies w
    ensures w[..] == Added(old(w[..]), now, v)
  {
    var i := now % WINDOW;
    if w[i].sec != now {
      w[i] := Cell(now, 0);
    }
    w[i] := w[i].(v := w[i].v + v);
  }

  /** The array holds the log as of t. */
  ghost predicate Holds(w: array<Cell>, log: seq<Ev>, t: int)
    reads w
  {
    Represents(w[..], log, t)
  }

  /** The sum and oldest second of a ring, as facts about the log it represents. */
  method CountNow(w: array<Cell>, now: int, ghost log: seq<Ev>) returns (sum: int, oldest: int)
    requires Holds(w, log, now)
    modifies w
    ensures Holds(w, log, now)
    ensures sum == Count(log, now) && IsOldest(log, now, oldest)
  {
    ghost var was := w[..];
    RingSumIsCount(was, log, now, now);
    RingOldestIsOldest(was, log, now, now);
    AgingKeepsLog(was, log, now, now);
    sum, oldest := SumAt(w, now);
  }

  method Log(w: array<Cell>, now: int, v: int, ghost log: seq<Ev>)
    requires Holds(w, log, now) && now > 0 && v > 0
    modifies w
    ensures Holds(w, log + [Ev(now, v)], now)
  {
    AddingKeepsLog(w[..], log, now, now, v);
    Add(w, now, v);
  }

  /** One key's two rings and, as ghosts, what has been logged in each up to the last reading. */
  class Entry {
    const req: array<Cell>
    const tok: array<Cell>
    ghost var requests: seq<Ev>
    ghost var tokens: seq<Ev>
    ghost var clock: int

    ghost predicate Valid()
      reads this, req, tok
    {
      req != tok && clock >= 0 && Holds(req, requests, clock) && Holds(tok, tokens, clock)
    }

    constructor ()
      ensures Valid() && fresh(req) && fresh(tok)
      ensures requests == [] && tokens == [] && clock == 0
    {
      req := new Cell[WINDOW](i => Cell(0, 0));
      tok := new Cell[WINDOW](i => Cell(0, 0));
      requests, tokens, clock := [], [], 0;
      new;
      EmptyRing(req[..], 0);
      EmptyRing(tok[..], 0);
    }

    /** The clock moves to now; a ring that is not touched keeps its meaning. */
    ghost method Advance(now: int)
      requires Valid() && now >= clock
      modifies this`clock
      ensures Valid() && clock == now
    {
      RepresentsLater(req[..], requests, clock, now);
      RepresentsLater(tok[..], tokens, clock, now);
      clock := now;
    }

    /** Admits the request when fewer than rpm were admitted in the last 60 seconds; a refusal
        reports the seconds until the oldest of them leaves the window. */
    method Allow(rpm: int, now: int) returns (ok: bool, retry: int)
      requires Valid() && now >= clock && now > 0 && rpm > 0
      modifies this, req
      ensures Valid() && clock == now && tokens == old(tokens)
      ensures ok == (Count(old(requests), now) < rpm)
      ensures requests == Admit(old(requests), now, rpm)
      ensures ok ==> retry == 0
      ensures !ok ==> exists oldest :: IsOldest(requests, now, oldest) && retry == RetryAfter(oldest, now)
    {
      hide Represents, Count, IsOldest;
      Advance(now);
      var sum, oldest := CountNow(req, now, requests);
      if sum >= rpm {
        assert IsOldest(requests, now, oldest);
        var since := if oldest == 0 then now else oldest;
        return false, Max(1, since + WINDOW - now);
      }
      Log(req, now, 1, requests);
      requests := requests + [Ev(now, 1)];
      return true, 0;
    }

    /** Blocked exactly when the tokens observed in the last 60 seconds reach tpm. */
    method Blocked(tpm: int, now: int) returns (blocked: bool, retry: int)
      requires Valid() && now >= clock && now > 0
      modifies this, tok
      ensures Valid() && clock == now && tokens == old(tokens) && requests == old(requests)
      ensures blocked == (Count(tokens, now) >= tpm)
      ensures blocked ==> exists oldest :: IsOldest(tokens, now, oldest) && retry == RetryAfter(oldest, now)
    {
      hide Represents, Count, IsOldest;
      Advance(now);
      var sum, oldest := CountNow(tok, now, tokens);
      if sum < tpm {
        return false, 0;
      }
      assert IsOldest(tokens, now, oldest);
      var since := if oldest == 0 then now else oldest;
      return true, Max(1, since + WINDOW - now);
    }

    method Observe(count: int, now: int)
      requires Valid() && now >= clock && now > 0 && count > 0
      modifies this, tok
      ensures Valid() && clock == now && requests == old(requests)
      ensures tokens == old(tokens) + [Ev(now, count)]
    {
      hide Represents;
      Advance(now);
      Log(tok, now, count, tokens);
      tokens := tokens + [Ev(now, count)];
    }
  }

  /** The map from keys to entries.  An entry exists only for a key that has met a policy. */
  class Limiter {
    var m: map<string, Entry>

    constructor ()
      ensures m == map[]
    {
      m := map[];
    }

    method Get(key: string) returns (e: Entry)
      modifies this
      ensures key in m && m[key] == e
      ensures if key in old(m) then m == old(m)
              else m == old(m)[key := e] && fresh(e) && fresh(e.req) && fresh(e.tok)
                   && e.Valid() && e.clock == 0 && e.requests == [] && e.tokens == []
    {
      if key in m {
        return m[key];
      }
      e := new Entry();
      m := m[key := e];
    }

    /** What the key's entry says, an absent entry standing for an empty log. */
    ghost predicate Ready(key: string, now: int)
      reads this, if key in m then {m[key], m[key].req, m[key].tok} else {}
    {
      now > 0 && (key in m ==> m[key].Valid() && m[key].clock <= now)
    }

    method AllowRPM(key: string, rpm: int, now: int) returns (ok: bool, retry: int)
      requires Ready(key, now)
      modifies this, if key in m then {m[key], m[key].req} else {}
      ensures Ready(key, now)
      ensures rpm <= 0 ==> ok && retry == 0 && m == old(m)
      ensures rpm > 0 ==>
        && key in m && m.Keys == old(m).Keys + {key}
        && var log := if key in old(m) then old(m[key].requests) else [];
           && ok == (Count(log, now) < rpm)
           && m[key].requests == (if Count(log, now) < rpm then log + [Ev(now, 1)] else log)
           && (!ok ==> exists oldest :: IsOldest(log, now, oldest) && retry == RetryAfter(oldest, now))
    {
      if rpm <= 0 {
        return true, 0;
      }
      var e := Get(key);
      ok, retry := e.Allow(rpm, now);
    }

    method TPMBlocked(key: string, tpm: int, now: int) returns (blocked: bool, retry: int)
      requires Ready(key, now)
      modifies if key in m then {m[key], m[key].tok} else {}
      ensures Ready(key, now)
      ensures blocked == (tpm > 0 && key in m && Count(m[key].tokens, now) >= tpm)
      ensures blocked ==> exists oldest :: IsOldest(m[key].tokens, now, oldest) && retry == RetryAfter(oldest, now)
      ensures key in m ==> m[key].tokens == old(m[key].tokens) && m[key].requests == old(m[key].requests)
    {
      if tpm <= 0 || key !in m {
        return false, 0;
      }
      blocked, retry := m[key].Blocked(tpm, now);
    }

    method ObserveTPM(key: string, tpm: int, count: int, now: int)
      requires Ready(key, now)
      modifies this, if key in m then {m[key], m[key].tok} else {}
      ensures Ready(key, now)
      ensures tpm <= 0 || count <= 0 ==> m == old(m) && (key in m ==> m[key].tokens == old(m[key].tokens))
      ensures tpm > 0 && count > 0 ==>
        key in m && m[key].tokens == (if key in old(m) then old(m[key].tokens) else []) + [Ev(now, count)]
    {
      if tpm <= 0 || count <= 0 {
        return;
      }
      var e := Get(key);
      e.Observe(count, now);
    }
  }
}
