/** Curves, allocations over them, and the search for the boundary between two legs.  A curve is any
    function from an input amount to an output amount, or to nothing when it cannot fill. */
module SplitSearch {
  import opened Common

  datatype Curve = Curve(venue: nat, available: bool, outputFor: int -> Option<int>)

  datatype Allocation = Allocation(amountA: int, outA: int, outB: int, total: int)

  /** Nothing in, nothing out. */
  function Output(c: Curve, amount: int): Option<int> { if amount == 0 then Some(0) else c.outputFor(amount) }

  function Evaluate(a: Curve, b: Curve, total: int, amountA: int): Option<Allocation> {
    if amountA < 0 || amountA > total then None
    else match (Output(a, amountA), Output(b, total - amountA))
      case (Some(outA), Some(outB)) => Some(Allocation(amountA, outA, outB, outA + outB))
      case _ => None
  }

  /** The better of two candidates, the earlier one on a tie. */
  function Better(best: Option<Allocation>, candidate: Option<Allocation>): Option<Allocation> {
    if candidate.Some? && (best.None? || candidate.value.total > best.value.total) then candidate else best
  }

  function Third(width: int): int { Max(width / 3, 1) }

  /** The best so far, or one of two more allocations. */
  function Seen(a: Curve, b: Curve, total: int, x: int, y: int, best: Option<Allocation>): Option<Allocation> {
    Better(Better(best, Evaluate(a, b, total, x)), Evaluate(a, b, total, y))
  }

  /** The lower third is given up when it cannot be filled, or when the upper one can and makes more. */
  predicate GoesRight(a: Curve, b: Curve, total: int, m1: int, m2: int) {
    var f1, f2 := Evaluate(a, b, total, m1), Evaluate(a, b, total, m2);
    f1.None? || (f2.Some? && f1.value.total < f2.value.total)
  }

  /** The search between two bounds, with the best so far. */
  function Search(
    a: Curve, b: Curve, total: int, lo: int, hi: int, steps: nat, best: Option<Allocation>): Option<Allocation>
    decreases steps
  {
    var m1, m2 := lo + Third(hi - lo), hi - Third(hi - lo);
    var seen := Seen(a, b, total, m1, m2, best);
    if steps == 0 || hi - lo <= 1 then Seen(a, b, total, lo, hi, best)
    else if Evaluate(a, b, total, m1).None? && Evaluate(a, b, total, m2).None? then Seen(a, b, total, lo, hi, seen)
    else if GoesRight(a, b, total, m1, m2) then Search(a, b, total, m1, hi, steps - 1, seen)
    else Search(a, b, total, lo, m2, steps - 1, seen)
  }

  lemma SearchStep(a: Curve, b: Curve, total: int, lo: int, hi: int, steps: nat, best: Option<Allocation>)
    requires steps > 0 && hi - lo > 1
    ensures var m1, m2 := lo + Third(hi - lo), hi - Third(hi - lo);
            Evaluate(a, b, total, m1).Some? || Evaluate(a, b, total, m2).Some? ==>
              Search(a, b, total, lo, hi, steps, best) ==
                if GoesRight(a, b, total, m1, m2)
                then Search(a, b, total, m1, hi, steps - 1, Seen(a, b, total, m1, m2, best))
                else Search(a, b, total, lo, m2, steps - 1, Seen(a, b, total, m1, m2, best))
  {
    hide Evaluate, Seen;
  }

  lemma SearchEnds(a: Curve, b: Curve, total: int, lo: int, hi: int, steps: nat, best: Option<Allocation>)
    requires steps == 0 || hi - lo <= 1
    ensures Search(a, b, total, lo, hi, steps, best) == Seen(a, b, total, lo, hi, best)
  {
  }

  function Refined(a: Curve, b: Curve, total: int, steps: nat): Option<Allocation> {
    Search(a, b, total, 0, total, steps, None)
  }

  /** The ternary search. */
  method RefineBoundary(a: Curve, b: Curve, total: int, steps: nat) returns (best: Option<Allocation>)
    ensures best == Refined(a, b, total, steps)
  {
    hide Evaluate, Better;
    var lo, hi := 0, total;
    best := None;
    var i := 0;
    while i < steps && hi - lo > 1
      invariant i <= steps
      invariant Search(a, b, total, lo, hi, steps - i, best) == Refined(a, b, total, steps)
      decreases steps - i
    {
      var third := (hi - lo) / 3;
      var m1 := lo + if third > 0 then third else 1;
      var m2 := hi - if third > 0 then third else 1;
      var f1, f2 := Evaluate(a, b, total, m1), Evaluate(a, b, total, m2);
      best := Better(best, f1);
      best := Better(best, f2);
      if f1.None? && f2.None? { break; }
      if f1.None? { lo := m1; }
      else if f2.None? { hi := m2; }
      else if f1.value.total < f2.value.total { lo := m1; }
      else { hi := m2; }
      i := i + 1;
    }
    best := Better(best, Evaluate(a, b, total, lo));
    best := Better(best, Evaluate(a, b, total, hi));
  }

  // ---------- what any curves give ----------

  lemma EvaluatesItself(a: Curve, b: Curve, total: int, x: int)
    ensures var e := Evaluate(a, b, total, x);
            e.Some? ==> Evaluate(a, b, total, e.value.amountA) == e && e.value.amountA == x && 0 <= x <= total
  {
  }

  /** An allocation the pair can be given as it stands. */
  predicate Stands(a: Curve, b: Curve, total: int, best: Option<Allocation>) {
    best.Some? ==> Evaluate(a, b, total, best.value.amountA) == best
  }

  /** Found, and worth no less than another one. */
  predicate AtLeast(best: Option<Allocation>, other: Option<Allocation>) {
    other.Some? ==> best.Some? && best.value.total >= other.value.total
  }

  lemma {:induction false} SearchStands(
    a: Curve, b: Curve, total: int, lo: int, hi: int, steps: nat, best: Option<Allocation>)
    requires Stands(a, b, total, best)
    ensures var r := Search(a, b, total, lo, hi, steps, best); Stands(a, b, total, r) && AtLeast(r, best)
    decreases steps
  {
    hide Evaluate;
    var m1, m2 := lo + Third(hi - lo), hi - Third(hi - lo);
    EvaluatesItself(a, b, total, m1);
    EvaluatesItself(a, b, total, m2);
    EvaluatesItself(a, b, total, lo);
    EvaluatesItself(a, b, total, hi);
    if steps > 0 && hi - lo > 1 {
      var seen := Seen(a, b, total, m1, m2, best);
      SearchStands(a, b, total, m1, hi, steps - 1, seen);
      SearchStands(a, b, total, lo, m2, steps - 1, seen);
    }
  }

  /** Whatever the curves: what is found can be given to the pair as it stands.  A boundary is found
      exactly when the pair can be filled at one of the ends or at one of the first two thirds, for
      the search stops as soon as neither third can be filled. */
  lemma FoundIff(a: Curve, b: Curve, total: int, steps: nat)
    ensures Stands(a, b, total, Refined(a, b, total, steps))
    ensures Refined(a, b, total, steps).Some? <==>
              || Evaluate(a, b, total, 0).Some? || Evaluate(a, b, total, total).Some?
              || (steps > 0 && total > 1 &&
                  (Evaluate(a, b, total, Third(total)).Some? || Evaluate(a, b, total, total - Third(total)).Some?))
  {
    hide Evaluate, Search;
    SearchStands(a, b, total, 0, total, steps, None);
    var m1, m2 := Third(total), total - Third(total);
    if steps == 0 || total <= 1 {
      SearchEnds(a, b, total, 0, total, steps, None);
    } else if Evaluate(a, b, total, m1).None? && Evaluate(a, b, total, m2).None? {
      SearchStops(a, b, total, 0, total, steps, None);
    } else {
      SearchStep(a, b, total, 0, total, steps, None);
      EvaluatesItself(a, b, total, m1);
      EvaluatesItself(a, b, total, m2);
      SearchStands(a, b, total, m1, total, steps - 1, Seen(a, b, total, m1, m2, None));
      SearchStands(a, b, total, 0, m2, steps - 1, Seen(a, b, total, m1, m2, None));
    }
  }

  lemma SearchStops(a: Curve, b: Curve, total: int, lo: int, hi: int, steps: nat, best: Option<Allocation>)
    requires steps > 0 && hi - lo > 1
    ensures var m1, m2 := lo + Third(hi - lo), hi - Third(hi - lo);
            Evaluate(a, b, total, m1).None? && Evaluate(a, b, total, m2).None? ==>
              Search(a, b, total, lo, hi, steps, best) == Seen(a, b, total, lo, hi, best)
  {
    hide Evaluate;
  }
}
