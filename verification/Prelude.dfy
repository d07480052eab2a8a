/** The few general-purpose definitions the other modules share. */
module Prelude {

  datatype Option<+T> = None | Some(value: T)

  function Max(a: int, b: int): int {
    if a < b then b else a
  }

  function Min(a: int, b: int): int {
    if a < b then a else b
  }

  /** Go's `/` on signed integers: the quotient rounded toward zero. */
  function TruncDiv(a: int, b: int): int
    requires b > 0
  {
    if a >= 0 then a / b else -((-a) / b)
  }

  /** Go's `%` on signed integers: the remainder has the sign of the dividend. */
  function TruncMod(a: int, b: int): int
    requires b > 0
  {
    a - b * TruncDiv(a, b)
  }

  ghost predicate Distinct<T>(s: seq<T>) {
    forall i, j :: 0 <= i < j < |s| ==> s[i] != s[j]
  }

  ghost predicate NonDecreasing(s: seq<int>) {
    forall i, j :: 0 <= i < j < |s| ==> s[i] <= s[j]
  }

  lemma Ordered(a: int, b: int, y: int)
    requires a <= b && y >= 0
    ensures a * y <= b * y
  {
  }

  /** Quotient and remainder are what their defining equation says they are. */
  lemma Quotient(i: int, d: int, q: int, r: int)
    requires d >= 1 && 0 <= r < d && i == q * d + r
    ensures i / d == q && i % d == r
  {
    var q' := i / d;
    assert i == q' * d + i % d;
    if q' < q {
      Ordered(q' + 1, q, d);
    } else if q' > q {
      Ordered(q + 1, q', d);
    }
  }

  lemma SmallMod(x: int, n: int)
    requires 0 <= x < n
    ensures x % n == x
  {
  }

  lemma SubsetSize<T>(a: set<T>, b: set<T>)
    requires a <= b
    ensures |a| <= |b|
  {
    assert b == a + (b - a);
  }
}
