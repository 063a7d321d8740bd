/** expBucketsToExplicit: an exponential histogram as explicit bounds and counts, over the reals.

    The base is 2^(2^-scale); bucket i of an exponential histogram holds the values in
    (base^(offset+i), base^(offset+i+1)] (OpenTelemetry Metrics Data Model, ExponentialHistogram).
  */
module ExpHistogram {

  // ---------------------------------------------------------------- integer powers

  function PowNat(base: real, n: nat): real {
    if n == 0 then 1.0 else base * PowNat(base, n - 1)
  }

  lemma {:induction false} PowNatPositive(base: real, n: nat)
    requires base > 0.0
    ensures PowNat(base, n) > 0.0
  {
    if n > 0 { PowNatPositive(base, n - 1); }
  }

  function Pow(base: real, n: int): real
    requires base > 1.0
  {
    PowNatPositive(base, if n >= 0 then n else -n);
    if n >= 0 then PowNat(base, n) else 1.0 / PowNat(base, -n)
  }

  lemma PowPositive(base: real, n: int)
    requires base > 1.0
    ensures Pow(base, n) > 0.0
  {
    PowNatPositive(base, if n >= 0 then n else -n);
  }

  lemma Inverse(x: real, base: real)
    requires x > 0.0 && base > 0.0
    ensures base * x > 0.0 && base * (1.0 / (base * x)) == 1.0 / x
  {
    var y := 1.0 / (base * x);
    assert (base * x) * y == 1.0;
    assert x * (base * y) == (base * x) * y;
    assert base * y == (x * (base * y)) / x;
  }

  lemma PowNext(base: real, n: int)
    requires base > 1.0
    ensures Pow(base, n + 1) == base * Pow(base, n)
  {
    if n < 0 {
      PowNatPositive(base, -n - 1);
      Inverse(PowNat(base, -n - 1), base);
    }
  }

  lemma PowStep(base: real, n: int)
    requires base > 1.0
    ensures Pow(base, n) < Pow(base, n + 1)
  {
    PowPositive(base, n);
    PowNext(base, n);
    Grows(base, Pow(base, n));
  }

  lemma Grows(base: real, x: real)
    requires base > 1.0 && x > 0.0
    ensures x < base * x
  {
    assert (base - 1.0) * x > 0.0;
    assert (base - 1.0) * x == base * x - x;
  }

  lemma {:induction false} PowIncreases(base: real, m: int, n: int)
    requires base > 1.0 && m < n
    ensures Pow(base, m) < Pow(base, n)
    decreases n - m
  {
    PowStep(base, n - 1);
    if m < n - 1 {
      PowIncreases(base, m, n - 1);
    }
  }

  // ---------------------------------------------------------------- scale and base

  function TwoTo(n: nat): (t: nat)
    ensures t >= 1
  {
    if n == 0 then 1 else 2 * TwoTo(n - 1)
  }

  /** base = 2^(2^-scale): its 2^scale-th power is 2, or it is the 2^-scale-th power of 2. */
  predicate IsBase(base: real, scale: int) {
    base > 1.0 && if scale >= 0 then PowNat(base, TwoTo(scale)) == 2.0 else base == PowNat(2.0, TwoTo(-scale))
  }

  lemma {:induction false} PowNatGrows(a: real, b: real, n: nat)
    requires 0.0 < a < b && n > 0
    ensures PowNat(a, n) < PowNat(b, n)
  {
    if n == 1 {
      assert PowNat(a, 0) == 1.0 && PowNat(b, 0) == 1.0;
    } else {
      PowNatGrows(a, b, n - 1);
      PowNatPositive(a, n - 1);
      ProductGrows(a, b, PowNat(a, n - 1), PowNat(b, n - 1));
    }
  }

  lemma ProductGrows(a: real, b: real, x: real, y: real)
    requires 0.0 < a < b && 0.0 < x < y
    ensures a * x < b * y
  {
    assert (b - a) * x > 0.0;
    assert b * (y - x) > 0.0;
    assert b * y - a * x == (b - a) * x + b * (y - x);
  }

  /** A scale has one base. */
  lemma BaseIsUnique(a: real, b: real, scale: int)
    requires IsBase(a, scale) && IsBase(b, scale)
    ensures a == b
  {
    if scale >= 0 && a < b {
      PowNatGrows(a, b, TwoTo(scale));
    } else if scale >= 0 && b < a {
      PowNatGrows(b, a, TwoTo(scale));
    }
  }

  lemma {:induction false} PowNatOfSum(x: real, m: nat, n: nat)
    ensures PowNat(x, m + n) == PowNat(x, m) * PowNat(x, n)
  {
    if m > 0 {
      PowNatOfSum(x, m - 1, n);
      ReorderProduct(x, PowNat(x, m - 1), PowNat(x, n));
    }
  }

  lemma ReorderProduct(x: real, y: real, z: real)
    ensures x * (y * z) == (x * y) * z
  {
  }

  function Times(n: nat, m: nat): (t: nat)
    ensures t == n * m
  {
    if n == 0 then 0 else m + Times(n - 1, m)
  }

  lemma {:induction false} PowNatOfProduct(x: real, m: nat, n: nat)
    ensures PowNat(x, Times(n, m)) == PowNat(PowNat(x, m), n)
  {
    if n > 0 {
      PowNatOfSum(x, m, Times(n - 1, m));
      PowNatOfProduct(x, m, n - 1);
    }
  }

  lemma NegativePow(x: real, n: nat)
    requires x > 1.0
    ensures PowNat(x, n) > 0.0 && Pow(x, -(n as int)) == 1.0 / PowNat(x, n)
  {
    PowNatPositive(x, n);
    if n == 0 {
      assert PowNat(x, n) == 1.0;
    }
  }

  /** Powers of a power, for exponents of either sign. */
  lemma PowOfProduct(x: real, m: nat, n: nat)
    requires x > 1.0 && PowNat(x, m) > 1.0
    ensures Pow(x, Times(n, m)) == Pow(PowNat(x, m), n)
    ensures Pow(x, -(Times(n, m) as int)) == Pow(PowNat(x, m), -(n as int))
  {
    PowNatOfProduct(x, m, n);
    NegativePow(x, Times(n, m));
    NegativePow(PowNat(x, m), n);
  }

  lemma PowOfAnyProduct(x: real, m: nat, j: int)
    requires x > 1.0 && PowNat(x, m) > 1.0
    ensures Pow(x, j * m) == Pow(PowNat(x, m), j)
  {
    if j >= 0 {
      PowOfProduct(x, m, j);
    } else {
      PowOfProduct(x, m, -j);
      assert j * m == -((-j) * m);
    }
  }

  lemma {:induction false} TwoPowers(n: nat)
    requires n > 0
    ensures PowNat(2.0, n) > 1.0
  {
    if n > 1 {
      TwoPowers(n - 1);
    } else {
      assert PowNat(2.0, 0) == 1.0;
    }
  }

  /** What the scale means for the bounds: 2^scale buckets double the value, or one bucket spans 2^-scale
      doublings. */
  lemma BoundsDouble(base: real, scale: int, j: int)
    requires IsBase(base, scale)
    ensures scale >= 0 ==> Pow(base, j * TwoTo(scale)) == Pow(2.0, j)
    ensures scale < 0 ==> Pow(base, j) == Pow(2.0, j * TwoTo(-scale))
  {
    if scale >= 0 {
      PowOfAnyProduct(base, TwoTo(scale), j);
    } else {
      TwoPowers(TwoTo(-scale));
      PowOfAnyProduct(2.0, TwoTo(-scale), j);
    }
  }

  // ---------------------------------------------------------------- the code

  /** A data point: the positive buckets, from `offset`, and the zero count; negative buckets are not read. `base`
      is the real number the code computes from the scale. */
  datatype Point = Point(scale: int, base: real, offset: int, counts: seq<nat>, zeroCount: nat)

  method ToExplicit(p: Point) returns (bounds: seq<real>, counts: seq<nat>)
    requires IsBase(p.base, p.scale)
    ensures p.counts == [] ==> bounds == [] && counts == []
    ensures p.counts != [] ==> bounds == Bounds(p) && counts == [p.zeroCount] + p.counts + [0]
  {
    if |p.counts| == 0 {
      return [], [];
    }
    bounds := [Pow(p.base, p.offset)];
    counts := [p.zeroCount];
    for i := 0 to |p.counts|
      invariant bounds == Bounds(p)[..i + 1]
      invariant counts == [p.zeroCount] + p.counts[..i]
    {
      bounds := bounds + [Pow(p.base, p.offset + i + 1)];
      counts := counts + [p.counts[i]];
    }
    counts := counts + [0];
  }

  function Bounds(p: Point): (b: seq<real>)
    requires p.base > 1.0
    ensures |b| == |p.counts| + 1
  {
    seq(|p.counts| + 1, i requires 0 <= i <= |p.counts| => Pow(p.base, p.offset + i))
  }

  function ExplicitCounts(p: Point): seq<nat> {
    [p.zeroCount] + p.counts + [0]
  }

  // ---------------------------------------------------------------- what it means

  function Sum(q: seq<nat>): nat {
    if q == [] then 0 else Sum(q[..|q| - 1]) + q[|q| - 1]
  }

  /** Observations known to be at most x: zeros and whole buckets (for x not below the zero bucket). */
  function ExponentialUpTo(p: Point, n: nat, x: real): nat
    requires p.base > 1.0 && n <= |p.counts|
  {
    if n == 0 then p.zeroCount
    else ExponentialUpTo(p, n - 1, x) + (if Pow(p.base, p.offset + n) <= x then p.counts[n - 1] else 0)
  }

  /** The same from explicit bounds: count i lies at or below bound i. */
  function ExplicitUpTo(bounds: seq<real>, counts: seq<nat>, n: nat, x: real): nat
    requires n <= |bounds| && n <= |counts|
  {
    if n == 0 then 0
    else ExplicitUpTo(bounds, counts, n - 1, x) + (if bounds[n - 1] <= x then counts[n - 1] else 0)
  }

  lemma {:induction false} SameCumulative(p: Point, n: nat, x: real)
    requires p.base > 1.0 && n <= |p.counts| && Pow(p.base, p.offset) <= x
    ensures ExplicitUpTo(Bounds(p), ExplicitCounts(p), n + 1, x) == ExponentialUpTo(p, n, x)
  {
    if n > 0 {
      SameCumulative(p, n - 1, x);
    }
  }

  lemma SumOneMore(q: seq<nat>, x: nat)
    ensures Sum(q + [x]) == Sum(q) + x
  {
    assert (q + [x])[..|q|] == q;
  }

  lemma {:induction false} SumCons(x: nat, q: seq<nat>)
    ensures Sum([x] + q) == x + Sum(q)
  {
    if q != [] {
      SumCons(x, q[..|q| - 1]);
      assert ([x] + q)[..|q|] == [x] + q[..|q| - 1];
    }
  }

  /** With a positive bucket: strictly increasing bounds, one more count than bounds (the shape the rollup
      asks for), the total of zeros and positive buckets, and at every x from the first bound on the
      cumulative count of the exponential form. */
  lemma ConversionIsFaithful(p: Point)
    requires IsBase(p.base, p.scale) && p.counts != []
    ensures |ExplicitCounts(p)| == |Bounds(p)| + 1
    ensures forall i, j :: 0 <= i < j < |Bounds(p)| ==> Bounds(p)[i] < Bounds(p)[j]
    ensures Sum(ExplicitCounts(p)) == p.zeroCount + Sum(p.counts)
    ensures forall x :: Bounds(p)[0] <= x ==>
              ExplicitUpTo(Bounds(p), ExplicitCounts(p), |Bounds(p)|, x) == ExponentialUpTo(p, |p.counts|, x)
  {
    forall i, j | 0 <= i < j < |Bounds(p)| ensures Bounds(p)[i] < Bounds(p)[j] {
      PowIncreases(p.base, p.offset + i, p.offset + j);
    }
    SumOneMore([p.zeroCount] + p.counts, 0);
    SumCons(p.zeroCount, p.counts);
    forall x | Bounds(p)[0] <= x
      ensures ExplicitUpTo(Bounds(p), ExplicitCounts(p), |Bounds(p)|, x) == ExponentialUpTo(p, |p.counts|, x)
    {
      SameCumulative(p, |p.counts|, x);
    }
  }

  /** The converted histogram, as the row carries it. */
  function Converted(p: Point): (seq<real>, seq<nat>)
    requires IsBase(p.base, p.scale)
  {
    if p.counts == [] then ([], []) else (Bounds(p), ExplicitCounts(p))
  }

  /** Without positive buckets both lists are empty and the zero count is gone: the total survives exactly
      when there is a positive bucket or nothing to lose, the rollup's shape exactly with a positive bucket. */
  lemma ZerosNeedAPositiveBucket(p: Point)
    requires IsBase(p.base, p.scale)
    ensures var (bounds, counts) := Converted(p);
            && (Sum(counts) == p.zeroCount + Sum(p.counts) <==> p.counts != [] || p.zeroCount == 0)
            && (|counts| == |bounds| + 1 <==> p.counts != [])
  {
    if p.counts != [] {
      ConversionIsFaithful(p);
    }
  }
}
