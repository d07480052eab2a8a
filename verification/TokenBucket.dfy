/**
  The refill bucket behind an account's and a provider's RPM budget.

  One token is TOKEN units and a bucket refills `rpm` units per nanosecond, which makes the
  source's "rpm/60 tokens per second" exact in integers.  Instants are nanoseconds; 0 is Go's zero
  time, "never".
 */
module TokenBuckets {
  import opened Prelude

  const TOKEN: int := 60_000_000_000

  datatype Bucket = Bucket(tokens: int, rpm: int, last: int)

  function NewBucket(rpm: int): Bucket {
    Bucket(2 * TOKEN, rpm, 0)
  }

  /** The tokens the bucket would hold at `now`. */
  function Level(b: Bucket, now: int): int {
    if b.last == 0 then b.tokens else b.tokens + (now - b.last) * b.rpm
  }

  function AfterTake(b: Bucket, now: int): Bucket {
    if Level(b, now) >= TOKEN then b.(tokens := Level(b, now) - TOKEN, last := now)
    else b.(tokens := Level(b, now), last := now)
  }

  /** The instant the bucket reports for its next token; the division truncates, as Go's does. */
  function RefillAt(b: Bucket, now: int): int
    requires b.rpm > 0
  {
    if b.last == 0 || Level(b, now) >= TOKEN then now else now + (TOKEN - b.tokens) / b.rpm
  }

  /** A bucket the clock has reached: read no earlier than it was last taken from. */
  predicate WellFormed(b: Bucket, now: int) {
    b.rpm > 0 && 0 <= b.tokens && 0 <= b.last <= now && (b.last == 0 ==> b.tokens >= TOKEN)
  }

  /** Within one nanosecond of a token at the instant of the previous take: the one case in which
      the truncated refill instant is `now` although no token is there. */
  predicate SubTick(b: Bucket, now: int) {
    b.last == now && TOKEN - b.rpm < b.tokens < TOKEN
  }

  /** The gate and the take agree except on a sub-nanosecond remainder. */
  lemma OpenGateHoldsToken(b: Bucket, now: int)
    requires now > 0 && WellFormed(b, now)
    ensures RefillAt(b, now) <= now <==> Level(b, now) >= TOKEN || SubTick(b, now)
  {
    if b.last != 0 && Level(b, now) < TOKEN {
      QuotientZero(TOKEN - b.tokens, b.rpm);
      Product(now - b.last, b.rpm);
    }
  }

  lemma QuotientZero(x: int, y: int)
    requires x >= 0 && y > 0
    ensures x / y <= 0 <==> x < y
  {
  }

  lemma Product(x: int, y: int)
    requires x >= 0 && y > 0
    ensures x * y >= 0
    ensures x > 0 ==> x * y >= y
  {
  }

  /** The first instant from which the gate is open for good. */
  function OpenFrom(b: Bucket): int
    requires b.rpm > 0
  {
    if b.last == 0 then 0
    else if TOKEN - b.tokens < b.rpm then b.last
    else b.last + (TOKEN - b.tokens + b.rpm - 1) / b.rpm
  }

  lemma OpenFromIsExact(b: Bucket, t: int)
    requires t > 0 && WellFormed(b, t)
    ensures RefillAt(b, t) <= t <==> t >= OpenFrom(b)
  {
    OpenGateHoldsToken(b, t);
    if b.last != 0 {
      var x := TOKEN - b.tokens;
      if x < b.rpm {
        if t > b.last {
          Ordered(1, t - b.last, b.rpm);
        }
      } else {
        var c := (x + b.rpm - 1) / b.rpm;
        assert c * b.rpm >= x > (c - 1) * b.rpm;
        if t - b.last >= c {
          Ordered(c, t - b.last, b.rpm);
        } else {
          Ordered(t - b.last, c - 1, b.rpm);
        }
      }
    }
  }

  /** The reported instant is honest: the gate is open strictly after it, and at it when it is
      `now`. */
  lemma RefillAtHonest(b: Bucket, now: int, t: int)
    requires now > 0 && WellFormed(b, now)
    requires t > RefillAt(b, now) || (t >= now && RefillAt(b, now) <= now)
    ensures t > 0 && RefillAt(b, t) <= t
  {
    hide Level, WellFormed;
    RefillBounds(b, now);
    OpenFromIsExact(b, now);
    WellFormedLater(b, now, t);
    OpenFromIsExact(b, t);
  }

  lemma WellFormedLater(b: Bucket, now: int, t: int)
    requires WellFormed(b, now) && t >= now
    ensures WellFormed(b, t)
  {
  }

  lemma RefillBounds(b: Bucket, now: int)
    requires now > 0 && WellFormed(b, now)
    ensures RefillAt(b, now) >= now
    ensures RefillAt(b, now) + 1 >= OpenFrom(b)
  {
    if b.last != 0 && Level(b, now) < TOKEN {
      Product(now - b.last, b.rpm);
      RoundUp(TOKEN - b.tokens, b.rpm);
    } else if b.last != 0 {
      OpenFromIsExact(b, now);
    }
  }

  lemma RoundUp(x: int, y: int)
    requires x >= 0 && y > 0
    ensures 0 <= x / y
    ensures (x + y - 1) / y <= x / y + 1
  {
    var q := x / y;
    assert x < (q + 1) * y;
    assert x + y - 1 < (q + 2) * y;
    QuotientBelow(x + y - 1, y, q + 2);
  }

  lemma QuotientBelow(x: int, y: int, k: int)
    requires y > 0 && x < k * y
    ensures x / y < k
  {
    if x / y >= k {
      Ordered(k, x / y, y);
    }
  }

  /** A take keeps the bucket sound and spends exactly one token when it succeeds. */
  lemma TakeKeepsWellFormed(b: Bucket, now: int)
    requires now > 0 && WellFormed(b, now)
    ensures WellFormed(AfterTake(b, now), now)
  {
    if b.last != 0 {
      Product(now - b.last, b.rpm);
    }
  }

  // ---- No cap ---------------------------------------------------------------------------------------

  /** The last instant at which a bucket that is not over two tokens is still not over them. */
  function FullUntil(b: Bucket): int
    requires b.rpm > 0
  {
    b.last + (2 * TOKEN - b.tokens) / b.rpm
  }

  /** The stated capacity of two tokens holds exactly until the bucket has idled long enough to
      refill past it: nothing caps the refill. */
  lemma CapacityKeptExactlyWhen(b: Bucket, now: int)
    requires now > 0 && WellFormed(b, now)
    ensures Level(b, now) <= 2 * TOKEN <==>
            b.tokens <= 2 * TOKEN && (b.last == 0 || now <= FullUntil(b))
    ensures b.last != 0 ==>
            (Level(b, now) <= 2 * TOKEN <==> b.tokens + (now - b.last) * b.rpm <= 2 * TOKEN)
  {
    if b.last != 0 && b.tokens <= 2 * TOKEN {
      FitsExactlyWhen(now - b.last, b.rpm, 2 * TOKEN - b.tokens);
    } else if b.last != 0 && now > b.last {
      Product(now - b.last, b.rpm);
    }
  }

  lemma FitsExactlyWhen(n: int, d: int, x: int)
    requires n >= 0 && d > 0 && x >= 0
    ensures n * d <= x <==> n <= x / d
  {
    var q := x / d;
    assert q * d <= x < (q + 1) * d;
    if n <= q {
      Ordered(n, q, d);
    } else {
      Ordered(q + 1, n, d);
    }
  }

  /** An hour idle at 60 rpm leaves 3601 tokens, not two. */
  lemma IdleHourPilesUp()
    ensures Level(AfterTake(NewBucket(60), 1), 1 + 3_600_000_000_000) == 3601 * TOKEN
  {
  }

  /** m takes at one instant all find a token. */
  predicate AllTaken(b: Bucket, now: int, m: nat)
    decreases m
  {
    m == 0 || (Level(b, now) >= TOKEN && AllTaken(AfterTake(b, now), now, m - 1))
  }

  /** The burst a bucket lets through at one instant is whatever it has piled up. */
  lemma {:induction false} BurstIsLevel(b: Bucket, now: int, m: nat)
    requires now > 0 && WellFormed(b, now)
    ensures AllTaken(b, now, m) <==> Level(b, now) >= m * TOKEN
    decreases m
  {
    TakeKeepsWellFormed(b, now);
    if m == 0 {
      LevelNonNegative(b, now);
    } else {
      BurstIsLevel(AfterTake(b, now), now, m - 1);
    }
  }

  lemma LevelNonNegative(b: Bucket, now: int)
    requires now > 0 && WellFormed(b, now)
    ensures Level(b, now) >= b.tokens >= 0
  {
    if b.last != 0 {
      Product(now - b.last, b.rpm);
    }
  }

  /** m picks at one instant all find the gate open. */
  predicate GateStays(b: Bucket, now: int, m: nat)
    requires b.rpm > 0
    decreases m
  {
    m == 0 || (RefillAt(b, now) <= now && GateStays(AfterTake(b, now), now, m - 1))
  }

  /** What is left once the whole tokens are gone is within a nanosecond of another. */
  predicate Leaks(b: Bucket, now: int) {
    (Level(b, now) >= TOKEN || b.last == now) && Level(b, now) % TOKEN > TOKEN - b.rpm
  }

  /** What a take does to the level and to the leak. */
  lemma LeaksAfterTake(b: Bucket, now: int)
    requires now > 0 && WellFormed(b, now)
    ensures Level(b, now) >= TOKEN ==>
              Level(AfterTake(b, now), now) == Level(b, now) - TOKEN && (Leaks(AfterTake(b, now), now) <==> Leaks(b, now))
    ensures Level(b, now) < TOKEN && SubTick(b, now) ==> Leaks(b, now) && Leaks(AfterTake(b, now), now)
    ensures Level(b, now) < TOKEN && !SubTick(b, now) ==> !Leaks(b, now)
  {
    LevelNonNegative(b, now);
    WholeTokens(Level(b, now));
  }

  /** The burst the gate lets through: the whole tokens, or without end when the remainder leaks. */
  lemma {:induction false} GateBurst(b: Bucket, now: int, m: nat)
    requires now > 0 && WellFormed(b, now)
    ensures GateStays(b, now, m) <==> Level(b, now) >= m * TOKEN || Leaks(b, now)
    decreases m
  {
    hide Level, AfterTake, Leaks, RefillAt, SubTick, WellFormed;
    LevelNonNegative(b, now);
    if m > 0 {
      OpenGateHoldsToken(b, now);
      TakeKeepsWellFormed(b, now);
      LeaksAfterTake(b, now);
      PositiveRate(b, now);
      GateBurst(AfterTake(b, now), now, m - 1);
    }
  }

  lemma PositiveRate(b: Bucket, now: int)
    requires WellFormed(b, now)
    ensures b.rpm > 0 && AfterTake(b, now).rpm == b.rpm
  {
  }

  lemma WholeTokens(x: int)
    requires x >= 0
    ensures x < TOKEN ==> x % TOKEN == x
    ensures x >= TOKEN ==> (x - TOKEN) % TOKEN == x % TOKEN
  {
  }

  /** The heap object of the source: `take` updates the fields in place. */
  class TokenBucket {
    var tokens: int
    const rpm: int
    var last: int

    constructor (rpm: int)
      ensures View() == NewBucket(rpm)
    {
      this.tokens := 2 * TOKEN;
      this.rpm := rpm;
      this.last := 0;
    }

    ghost function View(): Bucket
      reads this
    {
      Bucket(tokens, rpm, last)
    }

    method Take(now: int) returns (readyAt: int)
      requires rpm > 0
      modifies this
      ensures View() == AfterTake(old(View()), now)
      ensures readyAt == if Level(old(View()), now) >= TOKEN then 0
                         else now + (TOKEN - tokens) / rpm
    {
      if last == 0 {
        last := now;
      } else {
        tokens := tokens + (now - last) * rpm;
        last := now;
      }
      if tokens >= TOKEN {
        tokens := tokens - TOKEN;
        return 0;
      }
      return now + (TOKEN - tokens) / rpm;
    }

    method RefillInstant(now: int) returns (at: int)
      requires rpm > 0
      ensures at == RefillAt(View(), now)
    {
      if last == 0 {
        return now;
      }
      if tokens + (now - last) * rpm >= TOKEN {
        return now;
      }
      return now + (TOKEN - tokens) / rpm;
    }
  }
}
