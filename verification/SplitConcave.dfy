/** How good the boundary is that the search finds, for totals within a slack of a concave function.
    Outputs are whole numbers, so not even a constant-product curve is concave unit by unit. */
module SplitConcave {
  import opened Common
  import opened SplitSearch

  // ---------- concave functions ----------

  /** What one more unit adds. */
  function Slope(g: int -> real, x: int): real { g(x + 1) - g(x) }

  ghost predicate Concave(g: int -> real, l: int, u: int) {
    forall x, y :: l <= x <= y < u ==> Slope(g, y) <= Slope(g, x)
  }

  lemma {:induction false} Falls(g: int -> real, l: int, u: int, x: int, y: int)
    requires Concave(g, l, u) && l <= x <= y <= u && (x < u ==> Slope(g, x) <= 0.0)
    ensures g(y) <= g(x)
    decreases y - x
  {
    if x < y {
      Falls(g, l, u, x, y - 1);
      assert Slope(g, y - 1) <= Slope(g, x);
    }
  }

  lemma {:induction false} Rises(g: int -> real, l: int, u: int, x: int, y: int)
    requires Concave(g, l, u) && l <= x < y <= u && Slope(g, y - 1) > 0.0
    ensures g(x) < g(y)
    decreases y - x
  {
    assert Slope(g, y - 1) <= Slope(g, x);
    if x + 1 < y {
      Rises(g, l, u, x + 1, y);
    }
  }

  /** Between two points a concave function lies above the lower one. */
  lemma Between(g: int -> real, l: int, u: int, x: int, y: int, z: int)
    requires Concave(g, l, u) && l <= x <= y <= z <= u
    ensures g(x) <= g(y) || g(z) <= g(y)
  {
    if x < y < z {
      if Slope(g, y - 1) > 0.0 {
        Rises(g, l, u, x, y);
      } else {
        assert Slope(g, y) <= Slope(g, y - 1);
        Falls(g, l, u, y, z);
      }
    }
  }

  /** Going on does not gain more than having come gained. */
  lemma {:induction false} Mirrored(g: int -> real, l: int, u: int, y: int, k: nat)
    requires Concave(g, l, u) && l <= y - k && y + k <= u
    ensures g(y + k) - g(y) <= g(y) - g(y - k)
    decreases k
  {
    if k > 0 {
      Mirrored(g, l, u, y, k - 1);
      assert Slope(g, y + (k - 1)) <= Slope(g, y - k);
    }
  }

  /** The same stretch gains no more further on. */
  lemma {:induction false} Shifted(g: int -> real, l: int, u: int, x: int, y: int, k: nat)
    requires Concave(g, l, u) && l <= x <= y && y + k <= u
    ensures g(y + k) - g(y) <= g(x + k) - g(x)
    decreases k
  {
    if k > 0 {
      Shifted(g, l, u, x, y, k - 1);
      assert Slope(g, y + (k - 1)) <= Slope(g, x + (k - 1));
    }
  }

  /** Where a stretch gains at most d, the next one, if no longer, gains at most d. */
  lemma RightWithin(g: int -> real, l: int, u: int, m1: int, m2: int, x: int, d: real)
    requires Concave(g, l, u) && l <= m1 < m2 <= x <= u && x - m2 <= m2 - m1
    requires g(m2) <= g(m1) + d && d >= 0.0
    ensures g(x) <= g(m2) + d
  {
    hide Concave, Slope;
    Between(g, l, u, m1, m2 - (x - m2), m2);
    Mirrored(g, l, u, m2, x - m2);
  }

  /** And where it loses at most d, the one before it gained at most d. */
  lemma LeftWithin(g: int -> real, l: int, u: int, x: int, m1: int, m2: int, d: real)
    requires Concave(g, l, u) && l <= x <= m1 < m2 <= u && m1 - x <= m2 - m1
    requires g(m1) <= g(m2) + d && d >= 0.0
    ensures g(x) <= g(m1) + d
  {
    hide Concave, Slope;
    Between(g, l, u, m1, m1 + (m1 - x), m2);
    Mirrored(g, l, u, m1, m1 - x);
  }

  // ---------- nearly concave totals ----------

  /** The allocations of the pair that can be filled are exactly those between two bounds. */
  ghost predicate Spans(a: Curve, b: Curve, total: int, l: int, u: int) {
    && 0 <= l <= u <= total
    && forall x :: 0 <= x <= total ==> (Evaluate(a, b, total, x).Some? <==> l <= x <= u)
  }

  function Worth(a: Curve, b: Curve, total: int, x: int): int {
    var e := Evaluate(a, b, total, x);
    if e.Some? then e.value.total else 0
  }

  /** Between the bounds what the pair makes is at most d less than a concave function, and never more. */
  ghost predicate Near(a: Curve, b: Curve, total: int, l: int, u: int, g: int -> real, d: real) {
    && Spans(a, b, total, l, u) && Concave(g, l, u) && d >= 0.0
    && forall x :: l <= x <= u ==> g(x) - d <= Worth(a, b, total, x) as real <= g(x)
  }

  /** Worth no less than this allocation, but for the slack of both. */
  predicate Matches(a: Curve, b: Curve, total: int, x: int, best: Option<Allocation>, d: real) {
    best.Some? && Worth(a, b, total, x) as real <= best.value.total as real + 2.0 * d
  }

  // ---------- the search ----------

  /** The width left after some steps from a given one. */
  function Width(width: int, steps: nat): int {
    if steps == 0 || width <= 1 then width else Width(width - Third(width), steps - 1)
  }

  /** At least one of the thirds can be filled: what can be filled reaches a third from one of the
      bounds, or is longer than a third. */
  predicate Reaches(l: int, u: int, lo: int, hi: int) {
    var t := Third(hi - lo);
    || (l <= lo && lo + t <= u) || (hi <= u && l <= hi - t)
    || (lo <= l && u <= hi && t < u - l)
  }

  lemma Hits(l: int, u: int, lo: int, hi: int)
    requires l <= u && Reaches(l, u, lo, hi) && hi - lo > 1
    ensures lo < lo + Third(hi - lo) <= hi - Third(hi - lo) < hi
    ensures l <= lo + Third(hi - lo) <= u || l <= hi - Third(hi - lo) <= u
  {
  }

  /** Every allocation beyond the bounds, but that of everything, is matched; so is the upper bound. */
  ghost predicate Covered(
    a: Curve, b: Curve, total: int, l: int, u: int, d: real, lo: int, hi: int, best: Option<Allocation>)
  {
    && 0 <= lo <= hi <= total
    && (forall x :: l <= x <= u && x < total && (x < lo || hi < x) ==> Matches(a, b, total, x, best, d))
    && (l <= hi <= u && hi < total ==> Matches(a, b, total, hi, best, d))
  }

  lemma SeenIsNoWorse(a: Curve, b: Curve, total: int, m1: int, m2: int, best: Option<Allocation>, x: int, d: real)
    requires d >= 0.0
    ensures var seen := Seen(a, b, total, m1, m2, best);
            && (Matches(a, b, total, x, best, d) ==> Matches(a, b, total, x, seen, d))
            && (Evaluate(a, b, total, m1).Some? ==> seen.Some? && Worth(a, b, total, m1) <= seen.value.total)
            && (Evaluate(a, b, total, m2).Some? ==> seen.Some? && Worth(a, b, total, m2) <= seen.value.total)
  {
  }

  /** The lower third is not searched further: nothing in it is better than what was seen, but for the slack. */
  lemma LowerThird(a: Curve, b: Curve, total: int, l: int, u: int, g: int -> real, d: real,
      lo: int, m1: int, m2: int, best: Option<Allocation>, x: int)
    requires Near(a, b, total, l, u, g, d) && 0 <= lo <= x < m1 <= m2 <= total && m1 - lo <= Max(m2 - m1, 1) && l <= x
    requires l <= m1 <= u || l <= m2 <= u
    requires GoesRight(a, b, total, m1, m2)
    ensures x <= u ==> Matches(a, b, total, x, Seen(a, b, total, m1, m2, best), d)
  {
    hide Evaluate, Concave, Better, Worth, Seen;
    SeenIsNoWorse(a, b, total, m1, m2, best, m1, d);
    assert Evaluate(a, b, total, m1).Some? && Evaluate(a, b, total, m2).Some?;
    assert Worth(a, b, total, m1) < Worth(a, b, total, m2) by { WorthOf(a, b, total, m1); WorthOf(a, b, total, m2); }
    LeftWithin(g, l, u, x, m1, m2, d);
  }

  /** Nor is the upper third. */
  lemma UpperThird(a: Curve, b: Curve, total: int, l: int, u: int, g: int -> real, d: real,
      m1: int, m2: int, hi: int, best: Option<Allocation>, x: int)
    requires Near(a, b, total, l, u, g, d) && 0 <= m1 <= m2 < x <= hi <= total && hi - m2 <= Max(m2 - m1, 1) && x <= u
    requires l <= m1 <= u || l <= m2 <= u
    requires !GoesRight(a, b, total, m1, m2) && (m1 == m2 ==> x < hi)
    ensures l <= x ==> Matches(a, b, total, x, Seen(a, b, total, m1, m2, best), d)
  {
    hide Evaluate, Concave, Better, Worth, Seen;
    SeenIsNoWorse(a, b, total, m1, m2, best, m2, d);
    if m1 < m2 && l <= x {
      assert Evaluate(a, b, total, m1).Some? && Evaluate(a, b, total, m2).Some?;
      assert Worth(a, b, total, m1) >= Worth(a, b, total, m2) by { WorthOf(a, b, total, m1); WorthOf(a, b, total, m2); }
      RightWithin(g, l, u, m1, m2, x, d);
    }
  }

  lemma WorthOf(a: Curve, b: Curve, total: int, x: int)
    requires Evaluate(a, b, total, x).Some?
    ensures Worth(a, b, total, x) == Evaluate(a, b, total, x).value.total
  {
  }

  /** A step keeps what is beyond the bounds matched, and keeps within reach what can be filled. */
  lemma StepCovers(a: Curve, b: Curve, total: int, l: int, u: int, g: int -> real, d: real,
      lo: int, hi: int, best: Option<Allocation>)
    requires Near(a, b, total, l, u, g, d) && Reaches(l, u, lo, hi) && Covered(a, b, total, l, u, d, lo, hi, best)
    requires hi - lo > 1
    ensures var m1, m2 := lo + Third(hi - lo), hi - Third(hi - lo);
            var lo', hi' := if GoesRight(a, b, total, m1, m2) then m1 else lo,
                if GoesRight(a, b, total, m1, m2) then hi else m2;
            && (Evaluate(a, b, total, m1).Some? || Evaluate(a, b, total, m2).Some?)
            && Covered(a, b, total, l, u, d, lo', hi', Seen(a, b, total, m1, m2, best))
            && (hi' - lo' > 1 ==> Reaches(l, u, lo', hi'))
  {
    hide Evaluate, Concave, Worth, Seen, Matches;
    var m1, m2 := lo + Third(hi - lo), hi - Third(hi - lo);
    var seen := Seen(a, b, total, m1, m2, best);
    Hits(l, u, lo, hi);
    forall x ensures Matches(a, b, total, x, best, d) ==> Matches(a, b, total, x, seen, d) {
      SeenIsNoWorse(a, b, total, m1, m2, best, x, d);
    }
    if GoesRight(a, b, total, m1, m2) {
      forall x | l <= x <= u && lo <= x < m1 ensures Matches(a, b, total, x, seen, d) {
        LowerThird(a, b, total, l, u, g, d, lo, m1, m2, best, x);
      }
    } else {
      forall x | l <= x <= u && m2 < x <= hi && x < total ensures Matches(a, b, total, x, seen, d) {
        if x < hi || m1 < m2 {
          UpperThird(a, b, total, l, u, g, d, m1, m2, hi, best, x);
        }
      }
      if l <= m2 <= u {
        SeenIsNoWorse(a, b, total, m1, m2, best, m2, d);
        assert Matches(a, b, total, m2, seen, d) by { assert seen.Some?; SeenMatches(a, b, total, m2, seen, d); }
      }
    }
  }

  lemma SeenMatches(a: Curve, b: Curve, total: int, x: int, seen: Option<Allocation>, d: real)
    requires seen.Some? && Worth(a, b, total, x) <= seen.value.total && d >= 0.0
    ensures Matches(a, b, total, x, seen, d)
  {
  }

  lemma NearSpans(a: Curve, b: Curve, total: int, l: int, u: int, g: int -> real, d: real)
    requires Near(a, b, total, l, u, g, d)
    ensures Spans(a, b, total, l, u) && d >= 0.0
  {
  }

  lemma BoundsMatch(a: Curve, b: Curve, total: int, l: int, u: int, d: real,
      lo: int, hi: int, best: Option<Allocation>, x: int)
    requires Spans(a, b, total, l, u) && d >= 0.0 && Covered(a, b, total, l, u, d, lo, hi, best) && hi <= lo + 1
    requires l <= x <= u && (x < total || hi == total)
    ensures Matches(a, b, total, x, Seen(a, b, total, lo, hi, best), d)
  {
    hide Evaluate, Worth;
    SeenIsNoWorse(a, b, total, lo, hi, best, x, d);
  }

  lemma {:induction false} SearchMatches(a: Curve, b: Curve, total: int, l: int, u: int, g: int -> real, d: real,
      lo: int, hi: int, steps: nat, best: Option<Allocation>, x: int)
    requires Near(a, b, total, l, u, g, d) && Covered(a, b, total, l, u, d, lo, hi, best)
    requires Width(hi - lo, steps) <= 1 && (hi - lo > 1 ==> Reaches(l, u, lo, hi))
    requires l <= x <= u && (x < total || hi == total <= lo + 1)
    ensures Matches(a, b, total, x, Search(a, b, total, lo, hi, steps, best), d)
    decreases steps
  {
    hide Evaluate, Near, Spans, Worth, Reaches, Matches, Search, Seen, GoesRight;
    NearSpans(a, b, total, l, u, g, d);
    if steps == 0 || hi - lo <= 1 {
      SearchEnds(a, b, total, lo, hi, steps, best);
      BoundsMatch(a, b, total, l, u, d, lo, hi, best, x);
    } else {
      var m1, m2 := lo + Third(hi - lo), hi - Third(hi - lo);
      StepCovers(a, b, total, l, u, g, d, lo, hi, best);
      SearchStep(a, b, total, lo, hi, steps, best);
      var seen := Seen(a, b, total, m1, m2, best);
      if GoesRight(a, b, total, m1, m2) {
        SearchMatches(a, b, total, l, u, g, d, m1, hi, steps - 1, seen, x);
      } else {
        SearchMatches(a, b, total, l, u, g, d, lo, m2, steps - 1, seen, x);
      }
    }
  }

  /** Steps enough to close the interval, and a pair that can be filled over more than a third of it, or
      over a third at one of its ends. */
  predicate Closes(l: int, u: int, total: int, steps: nat) {
    Width(total, steps) <= 1 && (total > 1 ==> Reaches(l, u, 0, total))
  }

  /** When the interval closes, no allocation that leaves the second leg anything is
      better than the one found by more than twice the slack. */
  lemma NearlyBest(a: Curve, b: Curve, total: int, l: int, u: int, g: int -> real, d: real, steps: nat, x: int)
    requires Near(a, b, total, l, u, g, d) && Closes(l, u, total, steps) && l <= x <= u && (x < total || total <= 1)
    ensures Matches(a, b, total, x, Refined(a, b, total, steps), d)
  {
    SearchMatches(a, b, total, l, u, g, d, 0, total, steps, None, x);
  }

  /** A pair that can always be filled is within reach. */
  lemma FilledReaches(total: int)
    requires total > 1
    ensures Reaches(0, total, 0, total)
  {
  }

  /** A pair that can be filled is missed exactly when the allocations that fill it lie strictly between
      two neighbours of the four points 0, a third, two thirds and everything. */
  lemma MissedIff(a: Curve, b: Curve, total: int, l: int, u: int, steps: nat)
    requires Spans(a, b, total, l, u) && total > 1 && steps > 0
    ensures var m1, m2 := Third(total), total - Third(total);
            Refined(a, b, total, steps).None? <==>
              (0 < l && u < m1) || (m1 < l && u < m2) || (m2 < l && u < total)
  {
    hide Evaluate, Refined;
    FoundIff(a, b, total, steps);
  }

  // ---------- without slack ----------

  lemma {:induction false} NeverAll(
    a: Curve, b: Curve, total: int, lo: int, hi: int, steps: nat, best: Option<Allocation>)
    requires Spans(a, b, total, 0, total) && Width(hi - lo, steps) <= 1
    requires 0 <= lo <= hi <= total && (hi == total ==> hi - lo > 1) && (best.Some? ==> best.value.amountA < total)
    ensures var r := Search(a, b, total, lo, hi, steps, best); r.Some? ==> r.value.amountA < total
    decreases steps
  {
    hide Evaluate, Search;
    if steps > 0 && hi - lo > 1 {
      var m1, m2 := lo + Third(hi - lo), hi - Third(hi - lo);
      var seen := Seen(a, b, total, m1, m2, best);
      SeenIsShort(a, b, total, m1, m2, best);
      SearchStep(a, b, total, lo, hi, steps, best);
      hide Seen;
      if GoesRight(a, b, total, m1, m2) {
        NeverAll(a, b, total, m1, hi, steps - 1, seen);
      } else {
        NeverAll(a, b, total, lo, m2, steps - 1, seen);
      }
    } else {
      SearchEnds(a, b, total, lo, hi, steps, best);
      SeenIsShort(a, b, total, lo, hi, best);
    }
  }

  lemma SeenIsShort(a: Curve, b: Curve, total: int, m1: int, m2: int, best: Option<Allocation>)
    requires m1 < total && m2 < total && (best.Some? ==> best.value.amountA < total)
    ensures var seen := Seen(a, b, total, m1, m2, best); seen.Some? ==> seen.value.amountA < total
  {
  }

  /** On a total that is itself concave the search is exact but for the one allocation it never looks
      at: what it finds is the best of all exactly when the last unit gains the first leg nothing. */
  lemma BestOfAllIff(a: Curve, b: Curve, total: int, g: int -> real, steps: nat)
    requires Near(a, b, total, 0, total, g, 0.0) && Width(total, steps) <= 1 < total
    ensures var best := Refined(a, b, total, steps);
            && best.Some? && best.value.amountA < total
            && (forall x :: 0 <= x < total ==> Worth(a, b, total, x) <= best.value.total)
            && (Worth(a, b, total, total) <= best.value.total <==>
                Worth(a, b, total, total) <= Worth(a, b, total, total - 1))
  {
    hide Evaluate, Concave, Refined;
    var best := Refined(a, b, total, steps);
    FilledReaches(total);
    forall x | 0 <= x < total ensures best.Some? && Worth(a, b, total, x) <= best.value.total {
      NearlyBest(a, b, total, 0, total, g, 0.0, steps, x);
    }
    NearlyBest(a, b, total, 0, total, g, 0.0, steps, 0);
    FoundIff(a, b, total, steps);
    RefinedIsShort(a, b, total, steps);
    var y := best.value.amountA;
    EvaluatesItself(a, b, total, y);
    WorthOf(a, b, total, y);
    if Slope(g, total - 1) > 0.0 {
      Rises(g, 0, total, y, total);
    }
    assert Worth(a, b, total, total - 1) <= best.value.total;
  }

  lemma RefinedIsShort(a: Curve, b: Curve, total: int, steps: nat)
    requires Spans(a, b, total, 0, total) && Width(total, steps) <= 1 < total
    ensures Refined(a, b, total, steps).Some? ==> 0 <= Refined(a, b, total, steps).value.amountA < total
  {
    hide Search, Evaluate;
    NeverAll(a, b, total, 0, total, steps, None);
    SearchStands(a, b, total, 0, total, steps, None);
    var r := Refined(a, b, total, steps);
    if r.Some? {
      EvaluatesItself(a, b, total, r.value.amountA);
    }
  }
}
