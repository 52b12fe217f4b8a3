/** The constant-product pool with a fee: a curve the search is good for. */
module SplitPools {
  import opened Common
  import opened SplitSearch
  import opened SplitConcave
  import opened SplitCurves

  /** A pool with something on both sides, and a fee of less than everything. */
  datatype Reserves = Reserves(amountIn: int, amountOut: int, feeBps: int)

  predicate Sound(p: Reserves) { p.amountIn > 0 && p.amountOut > 0 && 0 <= p.feeBps < 10000 }

  function AfterFee(p: Reserves, amount: int): int { amount - amount * p.feeBps / 10000 }

  /** The pool takes no more than its own input reserve, and never gives all it has. */
  function ConstantProduct(venue: nat, p: Reserves): Curve
    requires Sound(p)
  {
    Curve(venue, true, amount =>
      if amount <= 0 then Some(0)
      else
        var taken := AfterFee(p, amount);
        if taken > p.amountIn || p.amountIn + taken <= 0 then None
        else
          var out := p.amountOut * taken / (p.amountIn + taken);
          if out >= p.amountOut then None else Some(out))
  }

  function Capacity(p: Reserves): int
    requires Sound(p)
  {
    p.amountIn * 10000 / (10000 - p.feeBps)
  }

  // ---------- the fee, rounded in favour of the pool ----------

  lemma Rounded(n: int, k: int)
    requires k > 0
    ensures n / k * k <= n < n / k * k + k
  {
  }

  lemma FeeRounds(p: Reserves, x: int)
    requires Sound(p) && x >= 0
    ensures var kept := x * (10000 - p.feeBps); kept <= AfterFee(p, x) * 10000 < kept + 10000
    ensures AfterFee(p, x) >= 0
  {
    Rounded(x * p.feeBps, 10000);
    assert x * (10000 - p.feeBps) == x * 10000 - x * p.feeBps;
    Product(x, 10000 - p.feeBps);
  }

  lemma Product(x: int, y: int)
    requires x >= 0 && y >= 0
    ensures x * y >= 0
  {
  }

  lemma FitsIff(p: Reserves, x: int)
    requires Sound(p) && x >= 0
    ensures AfterFee(p, x) <= p.amountIn <==> x <= Capacity(p)
  {
    var k, n := 10000 - p.feeBps, p.amountIn * 10000;
    FeeRounds(p, x);
    Rounded(n, k);
    if x <= n / k {
      Product(n / k - x, k);
      assert x * k == n / k * k - (n / k - x) * k;
    } else {
      Product(x - n / k - 1, k);
      assert x * k == n / k * k + k + (x - n / k - 1) * k;
    }
  }

  /** What the pool answers, told by the amount left after the fee: it takes no more than its input reserve,
      the product of the reserves does not fall, and one unit more would make it fall. */
  lemma PoolIs(venue: nat, p: Reserves, amount: int, taken: int)
    requires Sound(p) && amount >= 0
    requires amount * (10000 - p.feeBps) <= taken * 10000 < amount * (10000 - p.feeBps) + 10000
    ensures var c := ConstantProduct(venue, p); c.venue == venue && c.available
    ensures var answer := ConstantProduct(venue, p).outputFor(amount);
            && (answer.Some? <==> taken <= p.amountIn)
            && (answer.Some? ==>
                  var after := p.amountIn + taken;
                  && 0 <= answer.value < p.amountOut
                  && after * (p.amountOut - answer.value) >= p.amountIn * p.amountOut
                  && after * (p.amountOut - answer.value - 1) < p.amountIn * p.amountOut)
  {
    FeeRounds(p, amount);
    assert taken == AfterFee(p, amount);
    if taken <= p.amountIn {
      OutputIs(p.amountIn, p.amountOut, taken);
    }
  }

  lemma OutputIs(r: int, o: int, taken: int)
    requires r > 0 && o > 0 && taken >= 0
    ensures var out := o * taken / (r + taken);
            && 0 <= out < o && (taken == 0 ==> out == 0)
            && (r + taken) * (o - out) >= r * o && (r + taken) * (o - out - 1) < r * o
  {
    var all, out := r + taken, o * taken / (r + taken);
    Product(o, taken);
    Rounded(o * taken, all);
    assert out * all <= o * taken < out * all + all;
    assert all * (o - out) == r * o + o * taken - out * all;
    assert all * (o - out - 1) == all * (o - out) - all;
    Factor(r, o);
    Factor(all, o - out);
  }

  lemma Factor(x: int, y: int)
    requires x > 0
    ensures y > 0 <==> x * y > 0
  {
  }

  // ---------- the curve through the reserves ----------

  /** What would come out if nothing were rounded. */
  function Unrounded(p: Reserves, t: real): real
    requires Sound(p) && t >= 0.0
  {
    p.amountOut as real - p.amountOut as real * p.amountIn as real * Inverse(p, t)
  }

  function Inverse(p: Reserves, t: real): (r: real)
    requires Sound(p) && t >= 0.0
    ensures r > 0.0 && r * (p.amountIn as real + t) == 1.0
  {
    Reciprocal(p.amountIn as real + t);
    1.0 / (p.amountIn as real + t)
  }

  lemma Reciprocal(x: real)
    requires x > 0.0
    ensures 1.0 / x > 0.0 && 1.0 / x * x == 1.0
  {
  }

  lemma Positive(x: real, y: real)
    requires x >= 0.0 && y >= 0.0
    ensures x * y >= 0.0
  {
  }

  lemma Larger(x: real, x': real, y: real, y': real)
    requires 0.0 <= x <= x' && 0.0 <= y <= y'
    ensures x * y <= x' * y'
  {
    Positive(x' - x, y');
    Positive(x, y' - y);
    assert x' * y' == x * y + x * (y' - y) + (x' - x) * y';
  }

  lemma Scaled(m: real, k: real, k': real, x: real, x': real, y: real, y': real)
    requires m >= 0.0 && 0.0 <= k <= k' && 0.0 <= x <= x' && 0.0 <= y <= y'
    ensures m * (k * (x * y)) <= m * (k' * (x' * y'))
  {
    Larger(x, x', y, y');
    Positive(x, y);
    Larger(k, k', x * y, x' * y');
    Positive(k, x * y);
    Larger(m, m, k * (x * y), k' * (x' * y'));
  }

  lemma InverseDrops(p: Reserves, t: real, k: real)
    requires Sound(p) && t >= 0.0 && k >= 0.0
    ensures Inverse(p, t) - Inverse(p, t + k) == k * (Inverse(p, t) * Inverse(p, t + k))
    ensures Inverse(p, t + k) <= Inverse(p, t)
  {
    var s, v, w := p.amountIn as real + t, Inverse(p, t), Inverse(p, t + k);
    assert v * s == 1.0 && w * (s + k) == 1.0;
    calc {
      v - w;
      v * (w * (s + k)) - w * (v * s);
      k * (v * w);
    }
    Positive(v, w);
    Positive(k, v * w);
  }

  function Share(p: Reserves): (r: real)
    requires Sound(p)
    ensures 0.0 < r <= 1.0
  {
    (10000 - p.feeBps) as real / 10000.0
  }

  /** What is kept of an amount, unrounded. */
  function Kept(p: Reserves, x: int): (r: real)
    requires Sound(p)
    ensures r >= 0.0
  {
    if x < 0 then 0.0 else
      Positive(Share(p), x as real);
      Share(p) * x as real
  }

  function UnitWorth(p: Reserves): real
    requires Sound(p)
  {
    p.amountOut as real / p.amountIn as real
  }

  /** The concave function the pool stays within a slack of: what comes out unrounded, and what a unit of
      input is worth at most, as the fee is rounded too. */
  function Bound(p: Reserves): int -> real
    requires Sound(p)
  {
    x => Unrounded(p, Kept(p, x)) + UnitWorth(p)
  }

  lemma BoundSlope(p: Reserves, x: int)
    requires Sound(p) && x >= 0
    ensures Slope(Bound(p), x) == p.amountOut as real * p.amountIn as real *
                (Share(p) * (Inverse(p, Kept(p, x)) * Inverse(p, Kept(p, x + 1))))
    ensures Inverse(p, Kept(p, x + 1)) <= Inverse(p, Kept(p, x))
  {
    hide Inverse;
    var t, k := Kept(p, x), Share(p);
    KeptNext(p, x);
    InverseDrops(p, t, k);
    Factored(p.amountOut as real * p.amountIn as real, Inverse(p, t), Inverse(p, t + k), k);
  }

  lemma KeptNext(p: Reserves, x: int)
    requires Sound(p) && x >= 0
    ensures Kept(p, x + 1) == Kept(p, x) + Share(p)
  {
  }

  lemma Factored(m: real, v: real, w: real, k: real)
    requires v - w == k * (v * w)
    ensures m * v - m * w == m * (k * (v * w))
  {
    assert m * v - m * w == m * (v - w);
  }

  lemma {:induction false} InverseFalls(p: Reserves, x: int, y: int)
    requires Sound(p) && 0 <= x <= y
    ensures Inverse(p, Kept(p, y)) <= Inverse(p, Kept(p, x))
    decreases y - x
  {
    hide Inverse, Kept;
    if x < y {
      InverseFalls(p, x, y - 1);
      BoundSlope(p, y - 1);
    }
  }

  lemma SlopeFalls(p: Reserves, x: int, y: int)
    requires Sound(p) && 0 <= x <= y
    ensures Slope(Bound(p), y) <= Slope(Bound(p), x)
  {
    hide Inverse, Kept, Share, Bound, Slope;
    BoundSlope(p, x);
    BoundSlope(p, y);
    InverseFalls(p, x, y);
    InverseFalls(p, x + 1, y + 1);
    Positive(p.amountOut as real, p.amountIn as real);
    Scaled(p.amountOut as real * p.amountIn as real, Share(p), Share(p), Inverse(p, Kept(p, y)),
           Inverse(p, Kept(p, x)), Inverse(p, Kept(p, y + 1)), Inverse(p, Kept(p, x + 1)));
  }

  lemma BoundConcave(p: Reserves, capacity: int)
    requires Sound(p)
    ensures Concave(Bound(p), 0, capacity)
  {
    hide Bound, Slope;
    forall x, y | 0 <= x <= y < capacity ensures Slope(Bound(p), y) <= Slope(Bound(p), x) {
      SlopeFalls(p, x, y);
    }
  }

  // ---------- how far the pool is from it ----------

  /** One unit more of input is worth at most what the first would be. */
  lemma UnitGains(p: Reserves, t: real, i: real)
    requires Sound(p) && 0.0 <= t <= i <= t + 1.0
    ensures Unrounded(p, t) <= Unrounded(p, i) <= Unrounded(p, t) + UnitWorth(p)
  {
    var m, k := p.amountOut as real * p.amountIn as real, i - t;
    var v, w, z := Inverse(p, t), Inverse(p, i), Inverse(p, 0.0);
    InverseDrops(p, t, k);
    InverseDrops(p, 0.0, t);
    Positive(p.amountOut as real, p.amountIn as real);
    assert Unrounded(p, i) - Unrounded(p, t) == m * (v - w);
    Positive(m, v - w);
    Scaled(m, k, 1.0, v, z, w, z);
    UnitWorthIs(p);
  }

  lemma UnitWorthIs(p: Reserves)
    requires Sound(p)
    ensures var z := Inverse(p, 0.0); p.amountOut as real * p.amountIn as real * (z * z) == UnitWorth(p)
  {
    var z, r, s := Inverse(p, 0.0), p.amountOut as real, p.amountIn as real;
    assert z * s == 1.0;
    assert r * s * (z * z) == r * (z * s) * z == r * z;
  }

  lemma Cancel(x: real, y: real, z: real)
    requires z > 0.0
    ensures x * z <= y * z ==> x <= y
    ensures x * z < y * z ==> x < y
  {
  }

  /** Rounding what comes out costs less than one. */
  lemma OutRounds(p: Reserves, i: int)
    requires Sound(p) && i >= 0
    ensures var out := p.amountOut * i / (p.amountIn + i);
            out < p.amountOut && out as real <= Unrounded(p, i as real) < out as real + 1.0
  {
    var r, z := p.amountOut, p.amountIn + i;
    var out := r * i / z;
    Rounded(r * i, z);
    var u := Unrounded(p, i as real);
    UnroundedTimes(p, i);
    assert (out * z) as real == out as real * z as real;
    assert out as real * z as real + z as real == (out as real + 1.0) * z as real;
    Cancel(out as real, u, z as real);
    Cancel(u, out as real + 1.0, z as real);
    BelowAll(r, i, p.amountIn);
    assert (r * z) as real == r as real * z as real;
    Cancel(out as real, r as real, z as real);
  }

  lemma BelowAll(r: int, i: int, s: int)
    requires r > 0 && s > 0
    ensures r * i < r * (s + i)
  {
    Product(r - 1, s);
    assert r * (s + i) == r * i + ((r - 1) * s + s);
  }

  lemma UnroundedTimes(p: Reserves, i: int)
    requires Sound(p) && i >= 0
    ensures Unrounded(p, i as real) * (p.amountIn + i) as real == (p.amountOut * i) as real
  {
    var r, s, t := p.amountOut as real, p.amountIn as real, i as real;
    var v, m := Inverse(p, t), r * s;
    assert (r - m * v) * (s + t) == r * (s + t) - m * (v * (s + t));
    assert r * (s + t) - m == r * t;
    assert (p.amountOut * i) as real == r * t && (p.amountIn + i) as real == s + t;
  }

  lemma FeeRoundsUp(p: Reserves, x: int)
    requires Sound(p) && x >= 0
    ensures Kept(p, x) <= AfterFee(p, x) as real <= Kept(p, x) + 1.0
  {
    FeeRounds(p, x);
    var kept := x * (10000 - p.feeBps);
    assert kept as real == x as real * (10000 - p.feeBps) as real;
    assert Kept(p, x) * 10000.0 == kept as real;
  }

  /** A constant-product pool stays within one unit out, and what one unit in is worth, of a concave
      function, up to its capacity. */
  lemma PoolWithin(venue: nat, p: Reserves)
    requires Sound(p)
    ensures Within(ConstantProduct(venue, p), Capacity(p), Bound(p), 1.0 + UnitWorth(p))
  {
    hide ConstantProduct, Bound, Concave, Capacity, UnitWorth;
    var c := ConstantProduct(venue, p);
    BoundConcave(p, Capacity(p));
    forall x | x >= 0
      ensures x > 0 ==> (c.outputFor(x).Some? <==> x <= Capacity(p))
      ensures x <= Capacity(p) ==>
                && Output(c, x).Some?
                && Bound(p)(x) - (1.0 + UnitWorth(p)) <= Output(c, x).value as real <= Bound(p)(x)
    {
      PoolOutput(venue, p, x);
    }
    CapacityIsNotNegative(p);
  }

  lemma CapacityIsNotNegative(p: Reserves)
    requires Sound(p)
    ensures Capacity(p) >= 0 && UnitWorth(p) >= 0.0
  {
    FitsIff(p, 0);
  }

  lemma PoolOutput(venue: nat, p: Reserves, x: int)
    requires Sound(p) && x >= 0
    ensures var c := ConstantProduct(venue, p);
            && (x > 0 ==> (c.outputFor(x).Some? <==> x <= Capacity(p)))
            && (x <= Capacity(p) ==>
                && Output(c, x).Some?
                && Bound(p)(x) - (1.0 + UnitWorth(p)) <= Output(c, x).value as real <= Bound(p)(x))
  {
    hide Unrounded, Kept, UnitWorth, Capacity;
    var i := AfterFee(p, x);
    FitsIff(p, x);
    FeeRounds(p, x);
    OutRounds(p, i);
    FeeRoundsUp(p, x);
    UnitGains(p, Kept(p, x), i as real);
  }

  /** Two pools: what the search finds is short of any allocation that leaves the second leg anything by at
      most twice what two units out and a unit in to each pool are worth. */
  lemma PoolsAreNearlyBest(v: nat, p: Reserves, w: nat, q: Reserves, total: int, steps: nat, x: int)
    requires Sound(p) && Sound(q) && 0 <= total <= Capacity(p) + Capacity(q)
    requires Closes(Max(0, total - Capacity(q)), Min(total, Capacity(p)), total, steps)
    requires Evaluate(ConstantProduct(v, p), ConstantProduct(w, q), total, x).Some? && (x < total || total <= 1)
    ensures Matches(ConstantProduct(v, p), ConstantProduct(w, q), total, x,
                    Refined(ConstantProduct(v, p), ConstantProduct(w, q), total, steps),
                    2.0 + UnitWorth(p) + UnitWorth(q))
  {
    hide ConstantProduct, Bound, UnitWorth, Evaluate, Within, Closes, Matches, Capacity;
    var a, b, ea, eb := ConstantProduct(v, p), ConstantProduct(w, q), 1.0 + UnitWorth(p), 1.0 + UnitWorth(q);
    var l, u := Max(0, total - Capacity(q)), Min(total, Capacity(p));
    PoolWithin(v, p);
    PoolWithin(w, q);
    PairIsNear(a, Capacity(p), Bound(p), ea, b, Capacity(q), Bound(q), eb, total);
    EvaluatesItself(a, b, total, x);
    NearlyBest(a, b, total, l, u, Both(Bound(p), Bound(q), total), ea + eb, steps, x);
  }

  const EVEN: Reserves := Reserves(1000, 1000, 0)

  lemma EvenPool(x: int)
    requires 0 < x <= 4
    ensures Output(ConstantProduct(0, EVEN), x) == Some(x - 1)
  {
    assert 1000 * x == (x - 1) * (1000 + x) + (1000 - x * (x - 1));
  }

  lemma EvenPair()
    ensures var c := ConstantProduct(0, EVEN);
            Worth(c, c, 4, 0) == 3 && Worth(c, c, 4, 1) == 2 && Worth(c, c, 4, 2) == 2
  {
    hide ConstantProduct;
    EvenPool(1);
    EvenPool(2);
    EvenPool(3);
    EvenPool(4);
  }

  /** No slack is not enough: two equal pools, each as good as the other, make 3 of 4 units given to the
      second, 2 with one of them given to the first, and 2 of an even split. */
  lemma RoundingIsNotConcave(g: int -> real)
    ensures !Near(ConstantProduct(0, EVEN), ConstantProduct(0, EVEN), 4, 0, 4, g, 0.0)
  {
    hide ConstantProduct, Worth, Spans;
    var c := ConstantProduct(0, EVEN);
    EvenPair();
    assert Concave(g, 0, 4) ==> Slope(g, 1) <= Slope(g, 0);
  }
}
