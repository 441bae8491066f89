/** Two's-complement 64-bit arithmetic, for the places where the program multiplies
    prices. Signed overflow is undefined in C++; the model takes the wrap-around. */
module Int64 {
  const MAX64 := 0x7fff_ffff_ffff_ffff
  const TWO64 := 0x1_0000_0000_0000_0000

  predicate IsInt64(x: int) {
    -MAX64 - 1 <= x <= MAX64
  }

  function Wrap64(x: int): (r: int)
    ensures -MAX64 - 1 <= r <= MAX64
    ensures -MAX64 - 1 <= x <= MAX64 ==> r == x
  {
    (x + MAX64 + 1) % TWO64 - MAX64 - 1
  }

  lemma WrapsOnce(x: int)
    requires MAX64 < x <= MAX64 + TWO64
    ensures Wrap64(x) == x - TWO64
  {
    var y := x + MAX64 + 1 - TWO64;
    assert 0 <= y < TWO64 && x + MAX64 + 1 == 1 * TWO64 + y;
  }

  lemma WrapsUpOnce(x: int)
    requires -MAX64 - 1 - TWO64 <= x < -MAX64 - 1
    ensures Wrap64(x) == x + TWO64
  {
    var y := x + MAX64 + 1 + TWO64;
    assert 0 <= y < TWO64 && x + MAX64 + 1 == -1 * TWO64 + y;
  }

  function Abs(x: int): nat {
    if x < 0 then -x else x
  }

  function Abs64(x: int): int {
    Wrap64(Abs(x))
  }

  /** Division rounding toward zero. */
  function Quot(a: int, b: int): int
    requires b != 0
  {
    if (a >= 0) == (b > 0) then Abs(a) / Abs(b) else -(Abs(a) / Abs(b))
  }

  /** Distance between two prices in basis points of the reference. */
  function Bps(price: int, reference: int): int
    requires reference != 0
  {
    Quot(Wrap64(Abs64(Wrap64(price - reference)) * 10000), reference)
  }

  /** The largest price distance of which ten thousand times still fits. */
  const MAX_DISTANCE := MAX64 / 10000

  lemma FloorAbove(a: int, b: int, n: int)
    requires b > 0
    ensures a / b > n <==> a >= (n + 1) * b
  {
    var q, r := a / b, a % b;
    assert a == q * b + r;
    if q > n {
      MulMonotone(n + 1, q, b);
    } else {
      MulMonotone(q, n, b);
      assert (n + 1) * b == n * b + b;
    }
  }

  lemma MulMonotone(x: int, y: int, b: int)
    requires x <= y && b >= 0
    ensures x * b <= y * b
  {
  }

  /** The move is less than the threshold plus one basis point. */
  predicate WithinBps(price: int, reference: int, limit: nat) {
    Abs(price - reference) * 10000 < (limit + 1) * reference
  }

  /** Rounding down makes the threshold one basis point later than its name says. */
  lemma BpsThreshold(price: int, reference: int, limit: nat)
    requires reference > 0 && Abs(price - reference) <= MAX_DISTANCE
    ensures Bps(price, reference) > limit <==> !WithinBps(price, reference, limit)
  {
    var d := Abs(price - reference);
    assert d * 10000 <= MAX64;
    FloorAbove(d * 10000, reference, limit);
  }

  /** One more, and the product wraps: the largest move there is goes unnoticed. */
  lemma BpsWraps(limit: nat)
    requires limit < MAX_DISTANCE
    ensures Bps(MAX_DISTANCE + 2, 1) < 0 && !WithinBps(MAX_DISTANCE + 2, 1, limit)
  {
    WrapsOnce((MAX_DISTANCE + 1) * 10000);
  }

  /** The threshold test is exact for all prices from one to `m`. */
  ghost predicate ThresholdExactUpTo(m: int, limit: nat) {
    forall price, reference | 0 < price <= m && 0 < reference <= m ::
      Bps(price, reference) > limit <==> !WithinBps(price, reference, limit)
  }

  lemma ThresholdExactly(m: int, limit: nat)
    requires limit < MAX_DISTANCE
    ensures ThresholdExactUpTo(m, limit) <==> m <= 922_337_203_685_478
  {
    if m <= MAX_DISTANCE + 1 {
      forall price, reference | 0 < price <= m && 0 < reference <= m
        ensures Bps(price, reference) > limit <==> !WithinBps(price, reference, limit)
      {
        BpsThreshold(price, reference, limit);
      }
    } else {
      BpsWraps(limit);
    }
  }
}
