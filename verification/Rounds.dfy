/** Which round a moment belongs to (consensus/round/round.go). Times are in nanoseconds. */
module Rounds {
  import opened Arithmetic

  const TWO_53: int := 0x20_0000_0000_0000
  const TWO_52: int := 0x10_0000_0000_0000

  predicate IsInteger(x: real) {
    x.Floor as real == x
  }

  function Abs(x: real): real {
    if x < 0.0 then -x else x
  }

  /** Rounding is off by at most the `t`-th part of the value. */
  ghost predicate ErrorWithin(fl: real -> real, t: int) {
    forall x :: Abs(fl(x) - x) * t as real <= Abs(x)
  }

  /** A floating-point rounding: monotone, exact on the integers a 64-bit float holds exactly, and
      off by at most the fraction `2^-53` of the value. */
  ghost predicate Rounding(fl: real -> real) {
    && (forall x, y :: x <= y ==> fl(x) <= fl(y))
    && (forall x :: IsInteger(x) && Abs(x) <= TWO_53 as real ==> fl(x) == x)
    && ErrorWithin(fl, TWO_53)
  }

  /** The index the code computes: convert the elapsed time, divide, take the floor. The duration is
      converted exactly. */
  function FloatIndex(fl: real -> real, delta: int, duration: int): int
    requires 0 < duration <= TWO_53
  {
    fl(fl(delta as real) / duration as real).Floor
  }

  // ---------------------------------------------------------------------------------------------
  // Products and quotients of reals
  // ---------------------------------------------------------------------------------------------

  lemma ProductNonNegative(x: real, d: real)
    requires x >= 0.0 && d >= 0.0
    ensures x * d >= 0.0
  {
  }

  lemma ProductPositive(x: real, d: real)
    requires x > 0.0 && d > 0.0
    ensures x * d > 0.0
  {
  }

  lemma ProductOfSum(x: real, y: real, d: real)
    ensures (x + y) * d == x * d + y * d
  {
  }

  /** The same, with the products given by name. */
  lemma SumOfProducts(x: real, y: real, d: real, xd: real, yd: real)
    requires xd == x * d && yd == y * d
    ensures xd + yd == (x + y) * d
  {
    ProductOfSum(x, y, d);
  }

  lemma ProductOfThree(x: real, y: real, z: real)
    ensures (x * y) * z == (x * z) * y
  {
  }

  lemma ScaleUp(a: real, b: real, d: real)
    requires d >= 0.0 && a <= b
    ensures a * d <= b * d
  {
    ProductNonNegative(b - a, d);
    ProductOfSum(b - a, a, d);
  }

  lemma ScaleUpStrict(a: real, b: real, d: real)
    requires d > 0.0 && a < b
    ensures a * d < b * d
  {
    ProductPositive(b - a, d);
    ProductOfSum(b - a, a, d);
  }

  lemma ScaleDown(a: real, b: real, d: real)
    requires d > 0.0 && a * d <= b * d
    ensures a <= b
  {
    if b < a {
      ScaleUpStrict(b, a, d);
    }
  }

  lemma ScaleDownVia(a: real, b: real, d: real, ad: real, bd: real)
    requires d > 0.0 && ad == a * d && bd == b * d && ad <= bd
    ensures a <= b
  {
    ScaleDown(a, b, d);
  }

  lemma ScaleDownStrict(a: real, b: real, d: real)
    requires d > 0.0 && a * d < b * d
    ensures a < b
  {
    if b <= a {
      ScaleUp(b, a, d);
    }
  }

  lemma Reciprocal(x: real, d: real)
    requires d > 0.0
    ensures (x / d) * d == x
  {
  }

  lemma DivideMonotone(x: real, y: real, d: real)
    requires d > 0.0 && x <= y
    ensures x / d <= y / d
  {
    Reciprocal(x, d);
    Reciprocal(y, d);
    ScaleDown(x / d, y / d, d);
  }

  lemma ProductAsReal(a: int, b: int)
    ensures (a * b) as real == a as real * b as real
  {
  }

  lemma FloorIs(x: real, k: int)
    requires k as real <= x < k as real + 1.0
    ensures x.Floor == k
  {
  }

  lemma FloorMonotone(x: real, y: real)
    requires x <= y
    ensures x.Floor <= y.Floor
  {
  }

  lemma AbsScale(q: real, d: real)
    requires d > 0.0
    ensures Abs(q * d) == Abs(q) * d
  {
    if q >= 0.0 {
      ProductNonNegative(q, d);
    } else {
      ProductPositive(-q, d);
      ProductOfSum(-q, q, d);
    }
  }

  // ---------------------------------------------------------------------------------------------
  // The floor of a rounded quotient
  // ---------------------------------------------------------------------------------------------

  lemma FloorDivision(delta: int, duration: int)
    requires duration > 0
    ensures delta / duration * duration <= delta <= delta / duration * duration + duration - 1
  {
  }

  /** `k` is the floor of `delta / d`, for whole numbers. */
  ghost predicate IsFloor(delta: real, k: real, d: real) {
    k * d <= delta <= k * d + d - 1.0
  }

  /** `q` is the quotient of `delta` and `d`, and `e` the reciprocal of `d`. */
  ghost predicate IsQuotient(delta: real, d: real, q: real, e: real) {
    q * d == delta && e * d == 1.0
  }

  lemma FloorAsReal(delta: int, duration: int)
    requires duration > 0
    ensures IsFloor(delta as real, (delta / duration) as real, duration as real)
  {
    FloorDivision(delta, duration);
    ProductAsReal(delta / duration, duration);
  }

  /** The exact quotient lies between its floor and the next integer, and keeps a distance of
      `1 / duration` from the latter. */
  lemma QuotientBounds(delta: real, k: real, d: real, q: real, e: real)
    requires d > 0.0 && IsQuotient(delta, d, q, e) && IsFloor(delta, k, d)
    ensures k <= q && q + e <= k + 1.0
  {
    ScaleDownVia(k, q, d, k * d, delta);
    SumOfProducts(q, e, d, delta, 1.0);
    SumOfProducts(k, 1.0, d, k * d, d);
    ScaleDownVia(q + e, k + 1.0, d, delta + 1.0, k * d + d);
  }

  lemma ExactQuotient(delta: real, k: real, d: real) returns (q: real, e: real)
    requires d > 0.0 && IsFloor(delta, k, d)
    ensures q == delta / d && IsQuotient(delta, d, q, e)
    ensures k <= q && q + e <= k + 1.0
  {
    q, e := delta / d, 1.0 / d;
    Reciprocal(delta, d);
    Reciprocal(1.0, d);
    hide IsFloor;
    QuotientBounds(delta, k, d, q, e);
  }

  /** An error of at most `2^-53` of the value is smaller than `1 / duration`. */
  lemma ErrorBelowGap(err: real, t: real, size: real, d: real, e: real)
    requires t > 0.0 && d > 0.0 && e * d == 1.0
    requires err * t <= size && size * d < t
    ensures err < e
  {
    ProductOfThree(e, t, d);
    ScaleUp(err * t, size, d);
    ScaleDownStrict(err * t, e * t, d);
    ScaleDownStrict(err, e, t);
  }

  lemma SmallQuotient(delta: int, duration: int)
    requires duration > 0 && -TWO_53 <= delta <= TWO_53
    ensures -TWO_53 <= delta / duration <= TWO_53
  {
    FloorDivision(delta, duration);
    var k := delta / duration;
    if k > 0 {
      MulAtLeast(duration, k);
    } else {
      MulAtLeast(duration, if k < 0 then -k - 1 else 0);
    }
  }

  lemma RoundedInteger(fl: real -> real, k: int)
    requires Rounding(fl) && -TWO_53 <= k <= TWO_53
    ensures fl(k as real) == k as real
  {
    assert IsInteger(k as real);
  }

  lemma RoundedLower(fl: real -> real, q: real, k: int)
    requires Rounding(fl) && -TWO_53 <= k <= TWO_53 && k as real <= q
    ensures k as real <= fl(q)
  {
    RoundedInteger(fl, k);
    assert fl(k as real) <= fl(q);
  }

  lemma RoundedUpper(fl: real -> real, t: int, q: real, e: real, d: real)
    requires t > 0 && ErrorWithin(fl, t) && d > 0.0 && e * d == 1.0 && Abs(q) * d < t as real
    ensures fl(q) < q + e
  {
    var err := Abs(fl(q) - q);
    assert err * t as real <= Abs(q);
    hide ErrorWithin;
    ErrorBelowGap(err, t as real, Abs(q), d, e);
  }

  lemma RoundedFloor(fl: real -> real, t: int, q: real, e: real, k: int, delta: int, d: real)
    requires Rounding(fl) && ErrorWithin(fl, t) && -t < delta < t
    requires d > 0.0 && IsQuotient(delta as real, d, q, e)
    requires -TWO_53 <= k <= TWO_53 && k as real <= q && q + e <= k as real + 1.0
    ensures fl(q).Floor == k
  {
    hide Rounding, ErrorWithin;
    AbsScale(q, d);
    RoundedLower(fl, q, k);
    RoundedUpper(fl, t, q, e, d);
    FloorIs(fl(q), k);
  }

  /** Rounding the quotient of two whole numbers, the dividend at most `2^53` and small for the
      rounding error, does not change its floor. */
  lemma QuotientFloorExact(fl: real -> real, t: int, delta: int, duration: int)
    requires Rounding(fl) && ErrorWithin(fl, t) && 0 < duration && -t < delta < t && -TWO_53 <= delta <= TWO_53
    ensures fl(delta as real / duration as real).Floor == delta / duration
  {
    hide Rounding, ErrorWithin, IsFloor, IsQuotient;
    FloorAsReal(delta, duration);
    var q, e := ExactQuotient(delta as real, (delta / duration) as real, duration as real);
    SmallQuotient(delta, duration);
    RoundedFloor(fl, t, q, e, delta / duration, delta, duration as real);
  }

  /** As long as the elapsed time is below `2^53` nanoseconds, rounding does not change the index. */
  lemma FloatIndexExact(fl: real -> real, delta: int, duration: int)
    requires Rounding(fl) && 0 < duration <= TWO_53 && -TWO_53 < delta < TWO_53
    ensures FloatIndex(fl, delta, duration) == delta / duration
  {
    RoundedInteger(fl, delta);
    assert ErrorWithin(fl, TWO_53);
    hide Rounding, ErrorWithin;
    QuotientFloorExact(fl, TWO_53, delta, duration);
  }

  lemma RoundingMonotone(fl: real -> real, x: real, y: real)
    requires Rounding(fl) && x <= y
    ensures fl(x) <= fl(y)
  {
  }

  /** A later moment never has a smaller index, at any distance from genesis. */
  lemma FloatIndexMonotone(fl: real -> real, delta1: int, delta2: int, duration: int)
    requires Rounding(fl) && 0 < duration <= TWO_53 && delta1 <= delta2
    ensures FloatIndex(fl, delta1, duration) <= FloatIndex(fl, delta2, duration)
  {
    RoundingMonotone(fl, delta1 as real, delta2 as real);
    var q1, q2 := fl(delta1 as real) / duration as real, fl(delta2 as real) / duration as real;
    DivideMonotone(fl(delta1 as real), fl(delta2 as real), duration as real);
    RoundingMonotone(fl, q1, q2);
    hide Rounding;
    FloorMonotone(fl(q1), fl(q2));
  }

  // ---------------------------------------------------------------------------------------------
  // Past 2^53 nanoseconds
  // ---------------------------------------------------------------------------------------------

  predicate IsNearest(x: int, w: int, m: int) {
    -w <= 2 * (w * m - x) <= w && (2 * (w * m - x) == w || 2 * (w * m - x) == -w ==> m % 2 == 0)
  }

  /** The whole numbers between `2^52 * w` and `2^53 * w` in size: there the values a 64-bit float can
      take are the multiples of `w`. */
  predicate InBinade(x: int, w: int) {
    TWO_52 * w <= x < TWO_53 * w || -TWO_53 * w < x <= -TWO_52 * w
  }

  /** Rounding to the nearest multiple of `w`, the even one of two equally near. Like every rounding
      to nearest it is off by at most the fraction `1 / (2^53 + 1)` of the value. */
  ghost predicate NearestEven(fl: real -> real, w: int) {
    && ErrorWithin(fl, TWO_53 + 1)
    && forall x: int, m: int | InBinade(x, w) && IsNearest(x, w, m) :: fl(x as real) == (w * m) as real
  }

  lemma NearestExists(x: int, w: int) returns (m: int)
    requires w > 0
    ensures IsNearest(x, w, m)
  {
    m := (2 * x + w) / (2 * w);
    FloorDivision(2 * x + w, 2 * w);
    assert m * (2 * w) == 2 * (w * m);
    if 2 * (w * m - x) == w && m % 2 != 0 {
      assert w * (m - 1) == w * m - w;
      m := m - 1;
    }
  }

  lemma QuotientIs(x: real, d: real, q: real)
    requires d > 0.0 && q * d == x
    ensures x / d == q
  {
    Reciprocal(x, d);
    if x / d < q {
      ScaleUpStrict(x / d, q, d);
    } else if q < x / d {
      ScaleUpStrict(q, x / d, d);
    }
  }

  lemma CancelFactor(w: int, m: int, u: int)
    requires w > 0 && u > 0
    ensures w * u > 0 && (w * m) as real / (w * u) as real == m as real / u as real
  {
    MulAtLeast(w, u);
    var q := m as real / u as real;
    Reciprocal(m as real, u as real);
    ProductAsReal(w, m);
    ProductAsReal(w, u);
    ProductOfThree(q, u as real, w as real);
    QuotientIs((w * m) as real, (w * u) as real, q);
  }

  lemma BelowMultiple(w: int, m: int, n: int)
    requires w > 0 && w * m < w * n
    ensures m < n
  {
    assert w * (m - n) == w * m - w * n;
    if m >= n {
      MulNonNegative(w, m - n);
    }
  }

  /** The computed index is that of the nearest multiple of `w`. */
  lemma LateIndex(fl: real -> real, w: int, delta: int, u: int, m: int)
    requires Rounding(fl) && NearestEven(fl, w) && w > 0 && u > 0 && w * u <= TWO_53
    requires InBinade(delta, w) && IsNearest(delta, w, m)
    ensures w * u > 0 && FloatIndex(fl, delta, w * u) == m / u
  {
    MulAtLeast(w, u);
    assert fl(delta as real) == (w * m) as real && ErrorWithin(fl, TWO_53 + 1);
    BelowMultiple(w, m, TWO_53 + 1);
    BelowMultiple(w, -TWO_53 - 1, m);
    CancelFactor(w, m, u);
    hide Rounding, NearestEven, IsNearest, ErrorWithin, InBinade;
    QuotientFloorExact(fl, TWO_53 + 1, m, u);
  }

  lemma SplitProduct(w: int, u: int, m: int)
    requires w > 0 && u > 0
    ensures w * m == (m / u) * (w * u) + w * (m % u)
    ensures 0 <= w * (m % u) <= w * u - w && (m % u > 0 ==> w * (m % u) >= w)
  {
    var k, j := m / u, m % u;
    assert m == u * k + j;
    assert w * (u * k) == k * (w * u);
    MulNonNegative(w, u - 1 - j);
    assert w * (u - 1 - j) == w * u - w - w * j;
    MulNonNegative(w, j);
    if j > 0 {
      MulAtLeast(j, w);
    }
  }

  /** A number near a multiple of the step, whose products are given by name. */
  lemma NearMultiple(delta: int, d: int, w: int, k: int, j: int, wm: int, wj: int, kd: int)
    requires 0 < w <= d && -w <= 2 * (wm - delta) <= w && kd == k * d
    requires wm == kd + wj && 0 <= wj <= d - w && (j > 0 ==> wj >= w) && (j == 0 ==> wj == 0) && j >= 0
    ensures k == delta / d + (if delta % d + (wm - delta) >= d then 1 else 0)
  {
    var x := wj + (delta - wm);
    if x >= 0 {
      DivModUnique(delta, d, k, x);
    } else {
      assert (k - 1) * d == kd - d;
      DivModUnique(delta, d, k - 1, d + x);
    }
  }

  /** Which round the nearest multiple is in. */
  lemma RoundOfNearest(delta: int, w: int, u: int, m: int)
    requires w > 0 && u > 0 && -w <= 2 * (w * m - delta) <= w
    ensures w * u > 0
    ensures m / u == delta / (w * u) + (if delta % (w * u) + (w * m - delta) >= w * u then 1 else 0)
  {
    MulAtLeast(w, u);
    var k, j := m / u, m % u;
    SplitProduct(w, u, m);
    NearMultiple(delta, w * u, w, k, j, w * m, w * j, k * (w * u));
  }

  /** A time less than half a step before the next round is rounded into it, and one exactly half a
      step before it if that is the even choice. */
  predicate RoundedAhead(delta: int, w: int, duration: int)
    requires w > 0 && duration > 0
  {
    var gap := duration - delta % duration;
    2 * gap < w || (2 * gap == w && (duration / w) * (delta / duration + 1) % 2 == 0)
  }

  /** The nearest multiple is at `top` or beyond exactly if `top` is near enough. */
  lemma NearTop(delta: int, w: int, m: int, top: int, gap: int)
    requires w > 0 && IsNearest(delta, w, m) && w * top == delta + gap && gap > 0
    ensures w * m - delta >= gap <==> 2 * gap < w || (2 * gap == w && top % 2 == 0)
  {
    var r := w * m - w * top;
    assert w * (m - top) == r;
    assert (m - top) * w == r;
    if m > top {
      MulAtLeast(m - top, w);
      assert false;
    } else if m < top {
      MulAtLeast(top - m, w);
      assert (top - m) * w == -r;
      if m < top - 1 {
        MulAtLeast(top - m - 1, w);
        assert (top - m - 1) * w == -r - w;
      }
    }
  }

  lemma NearestAhead(delta: int, w: int, u: int, m: int)
    requires w > 0 && u > 0 && IsNearest(delta, w, m) && w * u > 0
    ensures delta % (w * u) + (w * m - delta) >= w * u <==> RoundedAhead(delta, w, w * u)
  {
    var d := w * u;
    var k, gap := delta / d, d - delta % d;
    var top := u * (k + 1);
    assert w * top == delta + gap by {
      assert w * (u * (k + 1)) == d * k + d;
      assert delta == d * k + delta % d;
    }
    assert d / w == u by {
      assert u * w == d;
      DivModUnique(d, w, u, 0);
    }
    assert gap > 0;
    hide IsNearest;
    NearTop(delta, w, m, top, gap);
  }

  lemma Positive(w: int, u: int)
    requires w > 0 && w * u > 0
    ensures u > 0
  {
    assert w * -u == -(w * u);
    if u <= 0 {
      MulNonNegative(w, -u);
    }
  }

  /** At any distance from genesis, before or after it, with rounds that are a multiple of the float's
      step `w`: the index the code computes is the exact one, but for times that are rounded into the
      next round. */
  lemma LateIndexExact(fl: real -> real, w: int, delta: int, duration: int)
    requires Rounding(fl) && NearestEven(fl, w) && w > 0 && 0 < duration <= TWO_53 && duration % w == 0
    requires InBinade(delta, w)
    ensures FloatIndex(fl, delta, duration)
         == delta / duration + (if RoundedAhead(delta, w, duration) then 1 else 0)
  {
    var u := duration / w;
    assert duration == w * u;
    Positive(w, u);
    var m := NearestExists(delta, w);
    LateIndex(fl, w, delta, u, m);
    RoundOfNearest(delta, w, u, m);
    NearestAhead(delta, w, u, m);
  }

  /** So the index can be ahead of time: with rounds of six seconds, one nanosecond before round
      4194305 begins, where floats are multiples of four, the computed index is already that round. */
  lemma IndexAheadOfTime(fl: real -> real)
    requires Rounding(fl) && NearestEven(fl, 4)
    ensures var duration := 6_000_000_000;
            var delta := 4194305 * duration - 1;
            delta / duration == 4194304 && FloatIndex(fl, delta, duration) == 4194305
  {
    LateIndexExact(fl, 4, 4194305 * 6_000_000_000 - 1, 6_000_000_000);
  }

  /** Below `2^53` nanoseconds the elapsed time lies within the round of its index. */
  lemma InsideRound(fl: real -> real, delta: int, duration: int)
    requires Rounding(fl) && 0 < duration <= TWO_53
    ensures -TWO_53 < delta < TWO_53 ==>
              var start := FloatIndex(fl, delta, duration) * duration;
              start <= delta < start + duration
  {
    if -TWO_53 < delta < TWO_53 {
      FloatIndexExact(fl, delta, duration);
      FloorDivision(delta, duration);
    }
  }

  class Round {
    const timeDuration: int
    const fl: real -> real
    var index: int
    var timeStamp: int

    /** The time stamp is where the round of the current index begins. */
    ghost predicate Valid(genesis: int)
      reads this
    {
      Rounding(fl) && 0 < timeDuration <= TWO_53 && timeStamp == genesis + index * timeDuration
    }

    /** Moves to the round of the current time. Below `2^53` nanoseconds of elapsed time, before or
        after genesis, the current time lies within the round. */
    method UpdateRound(genesis: int, current: int)
      requires Valid(genesis)
      modifies this
      ensures Valid(genesis) && index == FloatIndex(fl, current - genesis, timeDuration)
      ensures -TWO_53 < current - genesis < TWO_53 ==> timeStamp <= current < timeStamp + timeDuration
      ensures old(index) == index ==> old(timeStamp) == timeStamp
    {
      var delta := current - genesis;
      var newIndex := FloatIndex(fl, delta, timeDuration);
      if index != newIndex {
        index := newIndex;
        timeStamp := genesis + newIndex * timeDuration;
      }
      InsideRound(fl, delta, timeDuration);
    }

    constructor (genesis: int, current: int, duration: int, fl: real -> real)
      requires Rounding(fl) && 0 < duration <= TWO_53
      ensures Valid(genesis) && timeDuration == duration && this.fl == fl
      ensures index == FloatIndex(fl, current - genesis, duration)
    {
      timeDuration := duration;
      this.fl := fl;
      index := 0;
      timeStamp := genesis;
      new;
      UpdateRound(genesis, current);
    }
  }
}
