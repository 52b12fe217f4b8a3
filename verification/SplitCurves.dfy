/** Which curves the search is good for: those that fill up to a capacity and stay within a slack of a
    concave function, such as a concave function rounded down, or a constant product with its fee. */
module SplitCurves {
  import opened Common
  import opened SplitSearch
  import opened SplitConcave

  /** The curve fills exactly up to its capacity, and makes at most e less than the concave function. */
  ghost predicate Within(c: Curve, capacity: int, h: int -> real, e: real) {
    && capacity >= 0 && e >= 0.0 && Concave(h, 0, capacity)
    && (forall x :: x > 0 ==> (c.outputFor(x).Some? <==> x <= capacity))
    && forall x :: 0 <= x <= capacity ==> Output(c, x).Some? && h(x) - e <= Output(c, x).value as real <= h(x)
  }

  /** What both make of a total, the first leg given x of it. */
  function Both(ha: int -> real, hb: int -> real, total: int): int -> real { x => ha(x) + hb(total - x) }

  lemma BothConcave(ha: int -> real, capA: int, hb: int -> real, capB: int, total: int)
    requires Concave(ha, 0, capA) && Concave(hb, 0, capB) && 0 <= total
    ensures Concave(Both(ha, hb, total), Max(0, total - capB), Min(total, capA))
  {
    var g := Both(ha, hb, total);
    forall x, y | Max(0, total - capB) <= x <= y < Min(total, capA) ensures Slope(g, y) <= Slope(g, x) {
      assert Slope(ha, y) <= Slope(ha, x) && Slope(hb, total - x - 1) <= Slope(hb, total - y - 1);
      assert total - (y + 1) == total - y - 1 && total - (x + 1) == total - x - 1;
    }
  }

  /** Two such curves that can take the total between them are nearly concave together, with the slack of both. */
  lemma PairIsNear(a: Curve, capA: int, ha: int -> real, ea: real, b: Curve, capB: int, hb: int -> real, eb: real,
      total: int)
    requires Within(a, capA, ha, ea) && Within(b, capB, hb, eb) && 0 <= total <= capA + capB
    ensures Near(a, b, total, Max(0, total - capB), Min(total, capA), Both(ha, hb, total), ea + eb)
  {
    BothConcave(ha, capA, hb, capB, total);
    var l, u, g := Max(0, total - capB), Min(total, capA), Both(ha, hb, total);
    hide Concave;
    forall x | 0 <= x <= total ensures Evaluate(a, b, total, x).Some? <==> l <= x <= u {
      assert x > 0 ==> (a.outputFor(x).Some? <==> x <= capA);
      assert total - x > 0 ==> (b.outputFor(total - x).Some? <==> total - x <= capB);
    }
    forall x | l <= x <= u ensures g(x) - (ea + eb) <= Worth(a, b, total, x) as real <= g(x) {
      assert ha(x) - ea <= Output(a, x).value as real <= ha(x);
      assert hb(total - x) - eb <= Output(b, total - x).value as real <= hb(total - x);
    }
  }

  // ---------- rounding down ----------

  /** The curve rounds a function down, up to its capacity. */
  ghost predicate RoundsDown(c: Curve, capacity: int, h: int -> real) {
    && capacity >= 0 && Concave(h, 0, capacity)
    && (forall x :: x > 0 ==> (c.outputFor(x).Some? <==> x <= capacity))
    && forall x :: 0 <= x <= capacity ==> Output(c, x) == Some(h(x).Floor)
  }

  /** As there are finitely many amounts, some slack below one is enough. */
  lemma {:induction false} GapBelowOne(h: int -> real, n: int) returns (e: real)
    requires n >= 0
    ensures 0.0 <= e < 1.0 && forall x :: 0 <= x <= n ==> h(x) - e <= h(x).Floor as real
    decreases n
  {
    e := 0.0;
    if n > 0 {
      e := GapBelowOne(h, n - 1);
    }
    var gap := h(n) - h(n).Floor as real;
    if gap > e {
      e := gap;
    }
  }

  lemma RoundedWithin(c: Curve, capacity: int, h: int -> real) returns (e: real)
    requires RoundsDown(c, capacity, h)
    ensures e < 1.0 && Within(c, capacity, h, e)
  {
    hide Concave;
    e := GapBelowOne(h, capacity);
  }

  /** On two curves that round concave functions down, what is found is at most three units short of any
      allocation that leaves the second leg anything. */
  lemma RoundedPairIsNearlyBest(
    a: Curve, capA: int, ha: int -> real, b: Curve, capB: int, hb: int -> real, total: int, steps: nat, x: int)
    requires RoundsDown(a, capA, ha) && RoundsDown(b, capB, hb) && 0 <= total <= capA + capB
    requires Closes(Max(0, total - capB), Min(total, capA), total, steps)
    requires Evaluate(a, b, total, x).Some? && (x < total || total <= 1)
    ensures var best := Refined(a, b, total, steps);
            best.Some? && Evaluate(a, b, total, x).value.total <= best.value.total + 3
  {
    hide Concave, RoundsDown, Refined, Evaluate;
    var ea := RoundedWithin(a, capA, ha);
    var eb := RoundedWithin(b, capB, hb);
    PairIsNear(a, capA, ha, ea, b, capB, hb, eb, total);
    EvaluatesItself(a, b, total, x);
    hide Within, Both;
    NearlyBest(a, b, total, Max(0, total - capB), Min(total, capA), Both(ha, hb, total), ea + eb, steps, x);
  }

  // ---------- the second leg of a greedy allocation ----------

  /** What one curve gains by a chunk is more than the other's gain by d, if each unit is. */
  lemma {:induction false} GainsMore(ha: int -> real, x: int, hb: int -> real, y: int, c: nat, d: real)
    requires c > 0 && d >= 0.0
    requires forall p, q :: x <= p < x + c && y <= q < y + c ==> Slope(ha, p) > Slope(hb, q) + d
    ensures ha(x + c) - ha(x) > hb(y + c) - hb(y) + d
    decreases c
  {
    assert Slope(ha, x + (c - 1)) > Slope(hb, y + (c - 1)) + d;
    if c > 1 {
      GainsMore(ha, x, hb, y, c - 1, d);
    }
  }

  /** Once the second leg has won a chunk against the first, giving the first leg everything they are
      given is no better than leaving the second its last unit, but for the slack: the one allocation
      the search never looks at. */
  lemma EndIsNoBetter(a: Curve, capA: int, ha: int -> real, ea: real, b: Curve, capB: int, hb: int -> real, eb: real,
      x: int, y: int, c: nat, total: int)
    requires Within(a, capA, ha, ea) && Within(b, capB, hb, eb) && c > 0
    requires 0 <= x && 0 <= y && y + c <= capB && x + y + c <= total <= capA
    requires Output(a, x + c).value - Output(a, x).value <= Output(b, y + c).value - Output(b, y).value
    ensures Worth(a, b, total, total) as real <= Worth(a, b, total, total - 1) as real + 2.0 * (ea + eb)
  {
    var d := ea + eb;
    assert Output(a, x).Some? && Output(a, x + c).Some? && Output(b, y).Some? && Output(b, y + c).Some?;
    if Slope(ha, total - 1) > Slope(hb, 0) + d {
      forall p, q | x <= p < x + c && y <= q < y + c ensures Slope(ha, p) > Slope(hb, q) + d {
        assert Slope(ha, total - 1) <= Slope(ha, p) && Slope(hb, q) <= Slope(hb, 0);
      }
      GainsMore(ha, x, hb, y, c, d);
      assert false;
    }
    PairIsNear(a, capA, ha, ea, b, capB, hb, eb, total);
    var g := Both(ha, hb, total);
    assert g(total) == ha(total) + hb(0) && g(total - 1) == ha(total - 1) + hb(1);
    assert g(total) <= g(total - 1) + d;
  }
}
