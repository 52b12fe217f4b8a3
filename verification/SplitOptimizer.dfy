/** The split-route optimizer: its result, with its displayed shares, and how good it is. */
module SplitOptimizer {
  import opened Common
  import opened SplitSearch
  import opened SplitConcave
  import opened SplitAllocation

  // ---------- the result ----------

  datatype Leg = Leg(curve: nat, amountIn: int, amountOut: int, share: int)

  datatype Kind = NONE | SINGLE | SPLIT

  datatype Result = Result(kind: Kind, legs: seq<Leg>, totalOut: int)

  /** Larger amounts first, equal ones by venue. */
  predicate Before(usable: seq<Curve>, given: seq<int>, a: nat, b: nat)
    requires a < |usable| == |given| && b < |usable|
  {
    given[a] > given[b] || (given[a] == given[b] && usable[a].venue <= usable[b].venue)
  }

  function Insert(usable: seq<Curve>, given: seq<int>, order: seq<nat>, k: nat): (r: seq<nat>)
    requires |given| == |usable| && k < |usable| && InRange(order, |usable|)
    ensures |r| == |order| + 1 && InRange(r, |usable|) && multiset(r) == multiset(order) + multiset{k}
  {
    if order == [] then [k]
    else
      var n := |order| - 1;
      assert order == order[..n] + [order[n]];
      if Before(usable, given, order[n], k) then order + [k] else Insert(usable, given, order[..n], k) + [order[n]]
  }

  function Ordered(usable: seq<Curve>, given: seq<int>, legs: seq<nat>): (r: seq<nat>)
    requires |given| == |usable| && InRange(legs, |usable|)
    ensures |r| == |legs| && InRange(r, |usable|) && multiset(r) == multiset(legs)
  {
    if legs == [] then []
    else
      var n := |legs| - 1;
      assert legs == legs[..n] + [legs[n]];
      Insert(usable, given, Ordered(usable, given, legs[..n]), legs[n])
  }

  ghost predicate Descends(usable: seq<Curve>, given: seq<int>, order: seq<nat>)
    requires |given| == |usable| && InRange(order, |usable|)
  {
    forall i, j :: 0 <= i < j < |order| ==> Before(usable, given, order[i], order[j])
  }

  lemma {:induction false} InsertDescends(usable: seq<Curve>, given: seq<int>, order: seq<nat>, k: nat)
    requires |given| == |usable| && k < |usable| && InRange(order, |usable|) && Descends(usable, given, order)
    ensures Descends(usable, given, Insert(usable, given, order, k))
    decreases |order|
  {
    if order != [] {
      var n := |order| - 1;
      var front := Insert(usable, given, order[..n], k);
      var before := order[..n];
      assert Descends(usable, given, before);
      InsertDescends(usable, given, before, k);
      if Before(usable, given, order[n], k) {
        LastDescends(usable, given, order, k);
      } else {
        InsertMembers(usable, given, before, k, front);
        forall i | 0 <= i < |front| ensures Before(usable, given, front[i], order[n]) {
          if front[i] != k {
            assert front[i] in front;
            var j :| 0 <= j < n && before[j] == front[i];
            assert Before(usable, given, order[j], order[n]);
          }
        }
        LastDescends(usable, given, front, order[n]);
      }
    }
  }

  lemma LastDescends(usable: seq<Curve>, given: seq<int>, order: seq<nat>, k: nat)
    requires |given| == |usable| && k < |usable| && InRange(order, |usable|) && Descends(usable, given, order)
    requires forall i :: 0 <= i < |order| ==> Before(usable, given, order[i], k)
    ensures Descends(usable, given, order + [k])
  {
    hide Before;
  }

  lemma InsertMembers(usable: seq<Curve>, given: seq<int>, order: seq<nat>, k: nat, r: seq<nat>)
    requires |given| == |usable| && k < |usable| && InRange(order, |usable|) && r == Insert(usable, given, order, k)
    ensures forall x :: x in r ==> x == k || x in order
  {
    hide Insert;
    forall x | x in r ensures x == k || x in order {
      assert x in multiset(r);
    }
  }

  /** Published legs come in descending amounts, venues in order where amounts are equal. */
  lemma {:induction false} OrderedDescends(usable: seq<Curve>, given: seq<int>, legs: seq<nat>)
    requires |given| == |usable| && InRange(legs, |usable|)
    ensures Descends(usable, given, Ordered(usable, given, legs))
    ensures var order := Ordered(usable, given, legs);
            forall i, j :: 0 <= i < j < |order| ==>
              || given[order[j]] < given[order[i]]
              || (given[order[j]] == given[order[i]] && usable[order[i]].venue <= usable[order[j]].venue)
    decreases |legs|
  {
    if legs != [] {
      OrderedDescends(usable, given, legs[..|legs| - 1]);
      InsertDescends(usable, given, Ordered(usable, given, legs[..|legs| - 1]), legs[|legs| - 1]);
    }
  }

  lemma {:induction false} TotalOfInsert(usable: seq<Curve>, given: seq<int>, order: seq<nat>, k: nat, xs: seq<int>)
    requires |given| == |usable| == |xs| && k < |usable| && InRange(order, |usable|)
    ensures TotalOf(Insert(usable, given, order, k), xs) == TotalOf(order, xs) + xs[k]
    decreases |order|
  {
    if order == [] {
      TotalOfSnoc([], k, xs);
      assert [] + [k] == [k];
    } else {
      var n := |order| - 1;
      if Before(usable, given, order[n], k) {
        TotalOfSnoc(order, k, xs);
      } else {
        TotalOfInsert(usable, given, order[..n], k, xs);
        TotalOfSnoc(Insert(usable, given, order[..n], k), order[n], xs);
      }
    }
  }

  lemma {:induction false} TotalOfOrdered(usable: seq<Curve>, given: seq<int>, legs: seq<nat>, xs: seq<int>)
    requires |given| == |usable| == |xs| && InRange(legs, |usable|)
    ensures TotalOf(Ordered(usable, given, legs), xs) == TotalOf(legs, xs)
    decreases |legs|
  {
    if legs != [] {
      var n := |legs| - 1;
      TotalOfOrdered(usable, given, legs[..n], xs);
      TotalOfInsert(usable, given, Ordered(usable, given, legs[..n]), legs[n], xs);
    }
  }

  function Ins(legs: seq<Leg>): int { if legs == [] then 0 else Ins(legs[..|legs| - 1]) + legs[|legs| - 1].amountIn }
  function Outs(legs: seq<Leg>): int { if legs == [] then 0 else Outs(legs[..|legs| - 1]) + legs[|legs| - 1].amountOut }
  function Shares(legs: seq<Leg>): int { if legs == [] then 0 else Shares(legs[..|legs| - 1]) + legs[|legs| - 1].share }

  lemma LegSnoc(legs: seq<Leg>, leg: Leg)
    ensures Ins(legs + [leg]) == Ins(legs) + leg.amountIn && Outs(legs + [leg]) == Outs(legs) + leg.amountOut
    ensures Shares(legs + [leg]) == Shares(legs) + leg.share
  {
    assert (legs + [leg])[..|legs|] == legs;
  }

  /** A construction that can be sent as it stands: different curves, each filled with what it is given,
      nothing of the amount left over, and shares that add up. */
  ghost predicate Fills(usable: seq<Curve>, amountIn: int, legs: seq<Leg>, totalOut: int) {
    && legs != [] && Ins(legs) == amountIn && Outs(legs) == totalOut && Shares(legs) == 10000
    && (forall i :: 0 <= i < |legs| ==>
          && legs[i].curve < |usable| && 0 < legs[i].amountIn && 0 <= legs[i].share
          && usable[legs[i].curve].outputFor(legs[i].amountIn) == Some(legs[i].amountOut))
    && forall i, j :: 0 <= i < j < |legs| ==> legs[i].curve != legs[j].curve
  }

  /** A displayed share is rounded down; the last carries the remainder, which is never less than its own. */
  predicate Fair(amountIn: int, leg: Leg, last: bool) {
    && 0 <= leg.share && leg.amountIn * 10000 < leg.share * amountIn + (if last then 1 else amountIn)
    && (!last ==> leg.share * amountIn <= leg.amountIn * 10000)
  }

  ghost predicate SharesFair(amountIn: int, legs: seq<Leg>) {
    forall i :: 0 <= i < |legs| ==> Fair(amountIn, legs[i], i == |legs| - 1)
  }

  /** What has been shared out is never more than what it was shared out for. */
  predicate Behind(shared: int, amount: int, amountIn: int) { shared * amountIn <= amount * 10000 }

  lemma ShareStep(shared: int, amount: int, v: int, amountIn: int, curve: nat, made: int)
    requires amountIn > 0 && v >= 0 && Behind(shared, amount, amountIn)
    ensures var share := v * 10000 / amountIn;
            Behind(shared + share, amount + v, amountIn) && Fair(amountIn, Leg(curve, v, made, share), false)
    ensures amount + v == amountIn ==> Fair(amountIn, Leg(curve, v, made, 10000 - shared), true)
  {
    var n, share := v * 10000, v * 10000 / amountIn;
    assert n == share * amountIn + n % amountIn;
    Distribute(shared, share, amountIn);
    Distribute(10000, shared, amountIn);
    if amount + v == amountIn {
      NotNegative(10000 - shared, amountIn, v);
    }
  }

  lemma Distribute(x: int, y: int, k: int)
    ensures (x + y) * k == x * k + y * k && (x - y) * k == x * k - y * k
  {
  }

  lemma NotNegative(share: int, amountIn: int, v: int)
    requires amountIn > 0 && v >= 0 && share * amountIn >= v * 10000
    ensures share >= 0
  {
  }

  /** The legs publish what the curves were given and made, in this order. */
  ghost predicate Publishes(legs: seq<Leg>, order: seq<nat>, given: seq<int>, made: seq<int>)
    requires |given| == |made| && InRange(order, |given|)
  {
    |legs| <= |order| && forall j :: 0 <= j < |legs| ==>
      legs[j].curve == order[j] && legs[j].amountIn == given[order[j]] && legs[j].amountOut == made[order[j]]
  }

  lemma {:induction false} PublishedTotals(legs: seq<Leg>, order: seq<nat>, given: seq<int>, made: seq<int>)
    requires |given| == |made| && InRange(order, |given|) && |legs| == |order| && Publishes(legs, order, given, made)
    ensures Ins(legs) == TotalOf(order, given) && Outs(legs) == TotalOf(order, made)
    decreases |legs|
  {
    if legs != [] {
      PublishedTotals(legs[..|legs| - 1], order[..|legs| - 1], given, made);
    }
  }

  lemma OrderIsDistinct(order: seq<nat>, legs: seq<nat>)
    requires multiset(order) == multiset(legs) && forall i, j :: 0 <= i < j < |legs| ==> legs[i] < legs[j]
    ensures forall i, j :: 0 <= i < j < |order| ==> order[i] != order[j]
    ensures forall k :: k in order <==> k in legs
  {
    forall k ensures k in order <==> k in legs {
      assert k in multiset(order) <==> k in multiset(legs);
    }
    forall i, j | 0 <= i < j < |order| ensures order[i] != order[j] {
      if order[i] == order[j] {
        TwiceCounts(order, i, j);
        OnceCounts(legs, order[i]);
      }
    }
  }

  lemma TwiceCounts(xs: seq<nat>, i: nat, j: nat)
    requires i < j < |xs| && xs[i] == xs[j]
    ensures multiset(xs)[xs[i]] >= 2
  {
    assert xs == xs[..j] + [xs[j]] + xs[j + 1..];
    assert xs[..j][i] == xs[i] && xs[i] in multiset(xs[..j]);
  }

  lemma {:induction false} OnceCounts(xs: seq<nat>, k: nat)
    requires forall i, j :: 0 <= i < j < |xs| ==> xs[i] < xs[j]
    ensures multiset(xs)[k] <= 1
    decreases |xs|
  {
    if xs != [] {
      var n := |xs| - 1;
      OnceCounts(xs[..n], k);
      assert xs == xs[..n] + [xs[n]];
      if k == xs[n] {
        assert k !in xs[..n];
      }
    }
  }

  /** An order of the legs: each once, larger amounts first. */
  ghost predicate Orders(given: seq<int>, order: seq<nat>)
    requires InRange(order, |given|)
  {
    && (forall i :: 0 <= i < |order| ==> given[order[i]] > 0)
    && (forall i, j :: 0 <= i < j < |order| ==> order[i] != order[j])
    && forall i, j :: 0 <= i < j < |order| ==> given[order[i]] >= given[order[j]]
  }

  lemma OrdersOnce(usable: seq<Curve>, given: seq<int>, legs: seq<nat>, order: seq<nat>)
    requires |given| == |usable| && InRange(legs, |given|) && InRange(order, |given|) &&
        multiset(order) == multiset(legs)
    requires forall i, j :: 0 <= i < j < |legs| ==> legs[i] < legs[j]
    requires forall i :: 0 <= i < |legs| ==> given[legs[i]] > 0
    requires Descends(usable, given, order)
    ensures Orders(given, order)
  {
    OrderIsDistinct(order, legs);
    forall i | 0 <= i < |order| ensures given[order[i]] > 0 {
      assert order[i] in order;
    }
  }

  lemma OrderIsRight(usable: seq<Curve>, given: seq<int>, order: seq<nat>)
    requires |given| == |usable| && order == Ordered(usable, given, Legs(given))
    ensures |order| == Used(given) && Orders(given, order)
  {
    hide Ordered, Legs, Used, Descends, Orders;
    LegsAre(given);
    OrderedDescends(usable, given, Legs(given));
    OrdersOnce(usable, given, Legs(given), order);
  }

  lemma OrderTotals(usable: seq<Curve>, given: seq<int>, made: seq<int>, order: seq<nat>)
    requires Filled(usable, given, made) && order == Ordered(usable, given, Legs(given))
    ensures TotalOf(order, given) == Total(given) && TotalOf(order, made) == Total(made)
  {
    hide TotalOf, Ordered, Total, Legs;
    LegsHoldAll(given, given);
    LegsHoldAll(given, made);
    TotalOfOrdered(usable, given, Legs(given), given);
    TotalOfOrdered(usable, given, Legs(given), made);
  }

  lemma PublishedFills(usable: seq<Curve>, given: seq<int>, made: seq<int>, order: seq<nat>, amountIn: int,
      legs: seq<Leg>)
    requires Filled(usable, given, made) && InRange(order, |given|) && Orders(given, order) && order != []
    requires |legs| == |order| && Publishes(legs, order, given, made) && Shares(legs) == 10000 &&
        SharesFair(amountIn, legs)
    requires TotalOf(order, given) == amountIn
    ensures Fills(usable, amountIn, legs, TotalOf(order, made))
    ensures forall i, j :: 0 <= i < j < |legs| ==> legs[i].amountIn >= legs[j].amountIn
  {
    PublishedTotals(legs, order, given, made);
    hide TotalOf, Ins, Outs, Shares;
  }

  method Publish(order: seq<nat>, given: seq<int>, made: seq<int>, amountIn: int) returns (legs: seq<Leg>)
    requires |given| == |made| && InRange(order, |given|) && order != [] && TotalOf(order, given) == amountIn > 0
    requires forall i :: 0 <= i < |order| ==> given[order[i]] > 0
    ensures |legs| == |order| && Publishes(legs, order, given, made) && Shares(legs) == 10000 &&
        SharesFair(amountIn, legs)
  {
    hide TotalOf, Fair, Behind;
    legs := [];
    var shared := 0;
    assert Behind(0, TotalOf(order[..0], given), amountIn) by { NothingShared(order, given, amountIn); }
    for i := 0 to |order|
      invariant |legs| == i && shared == Shares(legs) && Publishes(legs, order, given, made)
      invariant if i < |order| then Behind(shared, TotalOf(order[..i], given), amountIn) else shared == 10000
      invariant forall j :: 0 <= j < i ==> Fair(amountIn, legs[j], j == |order| - 1)
    {
      var k := order[i];
      assert order[..i + 1] == order[..i] + [k] && order[..|order|] == order;
      TotalOfSnoc(order[..i], k, given);
      ShareStep(shared, TotalOf(order[..i], given), given[k], amountIn, k, made[k]);
      var share := if i == |order| - 1 then 10000 - shared else given[k] * 10000 / amountIn;
      LegSnoc(legs, Leg(k, given[k], made[k], share));
      legs := legs + [Leg(k, given[k], made[k], share)];
      shared := shared + share;
    }
  }

  /** The legs as they are published. */
  method Finish(usable: seq<Curve>, given: seq<int>, made: seq<int>, amountIn: int) returns (legs: seq<Leg>)
    requires Filled(usable, given, made) && Total(given) == amountIn > 0
    ensures Fills(usable, amountIn, legs, Total(made)) && |legs| == Used(given) > 0 && SharesFair(amountIn, legs)
    ensures forall i, j :: 0 <= i < j < |legs| ==> legs[i].amountIn >= legs[j].amountIn
  {
    var order := Ordered(usable, given, Legs(given));
    OrderIsRight(usable, given, order);
    OrderTotals(usable, given, made, order);
    SomeUsed(given);
    hide Ordered, Legs, TotalOf, Total, Used, Filled, Orders, SharesFair, Publishes, Shares, Fills;
    assert forall i :: 0 <= i < |order| ==> given[order[i]] > 0 by { OrderIsPositive(given, order); }
    legs := Publish(order, given, made, amountIn);
    PublishedFills(usable, given, made, order, amountIn, legs);
  }

  lemma OrderIsPositive(given: seq<int>, order: seq<nat>)
    requires InRange(order, |given|) && Orders(given, order)
    ensures forall i :: 0 <= i < |order| ==> given[order[i]] > 0
  {
  }

  lemma NothingShared(order: seq<nat>, given: seq<int>, amountIn: int)
    requires InRange(order, |given|)
    ensures Behind(0, TotalOf(order[..0], given), amountIn)
  {
  }

  // ---------- the optimizer ----------

  ghost predicate SingleFills(usable: seq<Curve>, amountIn: int, k: nat, out: int) {
    k < |usable| && usable[k].outputFor(amountIn) == Some(out)
  }

  ghost predicate IsBestSingle(usable: seq<Curve>, amountIn: int, best: Option<(nat, int)>) {
    && (best.Some? ==> SingleFills(usable, amountIn, best.value.0, best.value.1) && best.value.1 > 0)
    && (forall k, out :: SingleFills(usable, amountIn, k, out) && out > 0 ==> best.Some? && out <= best.value.1)
    && (best.Some? ==> forall k: nat, out ::
          k < best.value.0 && SingleFills(usable, amountIn, k, out) ==> out < best.value.1)
  }

  /** The first of the best positive outputs. */
  method BestSingle(usable: seq<Curve>, amountIn: int) returns (best: Option<(nat, int)>)
    ensures IsBestSingle(usable, amountIn, best)
  {
    best := None;
    for i := 0 to |usable|
      invariant best.Some? ==> SingleFills(usable, amountIn, best.value.0, best.value.1) && best.value.1 > 0
      invariant forall k, out ::
          0 <= k < i && SingleFills(usable, amountIn, k, out) && out > 0 ==> best.Some? && out <= best.value.1
      invariant best.Some? ==> best.value.0 < i && forall k: nat, out ::
                  k < best.value.0 && SingleFills(usable, amountIn, k, out) ==> out < best.value.1
    {
      var out := usable[i].outputFor(amountIn);
      if out.Some? && out.value > 0 && (best.None? || out.value > best.value.1) { best := Some((i, out.value)); }
    }
  }

  function SingleResult(best: (nat, int), amountIn: int): Result {
    Result(SINGLE, [Leg(best.0, amountIn, best.1, 10000)], best.1)
  }

  /** A route fills the amount exactly with at most the permitted legs, larger ones first; its shares add
      up; it is worth at least every single venue that can take the whole amount, and a split is worth
      more than all of them and has at least two legs.  Without a route no venue alone makes anything. */
  ghost predicate Answers(usable: seq<Curve>, amountIn: int, maxLegs: int, r: Result) {
    && (r.kind == NONE ==> r.legs == [] && r.totalOut == 0)
    && (r.kind != NONE ==> Fills(usable, amountIn, r.legs, r.totalOut) && SharesFair(amountIn, r.legs))
    && (r.kind == SINGLE ==> |r.legs| == 1 && r.totalOut > 0)
    && (r.kind == SPLIT ==> 2 <= |r.legs| <= maxLegs)
    && (forall i, j :: 0 <= i < j < |r.legs| ==> r.legs[i].amountIn >= r.legs[j].amountIn)
    && forall k, out :: SingleFills(usable, amountIn, k, out) ==>
         out <= r.totalOut && (r.kind == SPLIT ==> out < r.totalOut)
  }

  /** The single venue or the split, whichever makes more. */
  method Choose(usable: seq<Curve>, amountIn: int, maxLegs: int, best: Option<(nat, int)>, given: seq<int>,
      made: seq<int>) returns (r: Result)
    requires Filled(usable, given, made) && Total(given) == amountIn > 0 && Used(given) <= maxLegs
    requires IsBestSingle(usable, amountIn, best)
    ensures Answers(usable, amountIn, maxLegs, r) && r.totalOut >= Total(made)
    ensures r.kind == SPLIT ==> r.totalOut == Total(made) && |r.legs| == Used(given)
    ensures r.kind == SINGLE ==> best.Some? && r == SingleResult(best.value, amountIn)
  {
    hide Filled, Used, Total, Fills, SharesFair;
    if best.Some? { SingleIsValid(usable, amountIn, best.value); }
    if best.None? && Total(made) <= 0 { return Result(NONE, [], 0); }
    var finished := Finish(usable, given, made, amountIn);
    if |finished| == 1 { LoneLeg(usable, amountIn, finished, Total(made)); }
    if best.Some? && (|finished| <= 1 || Total(made) <= best.value.1) { return SingleResult(best.value, amountIn); }
    return Result(SPLIT, finished, Total(made));
  }

  /** The chunks of the coarse phase, what was given and made after each, and what is published. */
  datatype Trace = Trace(chunks: seq<int>, path: Path, given: seq<int>, made: seq<int>)

  /** The result is that of the two phases: every chunk went where it gained most until one could not be
      placed, and the legs were then refined until no pair settles for more, or four times over. */
  ghost predicate Traced(usable: seq<Curve>, amountIn: int, g: int, maxLegs: int, steps: nat, legs: seq<nat>, r: Result,
      t: Trace)
  {
    && Cut(amountIn, g, t.chunks) && 0 < |t.path| <= |t.chunks| + 1
    && Greedy(usable, t.chunks[..|t.path| - 1], maxLegs, t.path)
    && var coarse := t.path[|t.path| - 1];
       if |t.path| <= |t.chunks| then
         legs == [] && r.kind != SPLIT && Stuck(usable, coarse.0, coarse.1, t.chunks[|t.path| - 1], maxLegs)
       else
         && legs == Legs(coarse.0) && Filled(usable, t.given, t.made) && Total(t.given) == amountIn
         && r.totalOut >= Total(t.made)
         && if |legs| < 2 then (t.given, t.made) == coarse
            else
              && InRange(legs, |usable|) && |usable| == |t.given| == |t.made| && Touches(coarse.0, t.given, legs)
              && Total(t.made) >= Total(coarse.1)
              && (Swept(usable, t.given, t.made, legs, steps, |legs|, 0) || Total(t.made) >= Total(coarse.1) + 4)
  }

  /** For arbitrary curves the result answers the request, and is that of the two phases.

      `coarseLegs` are the legs of the coarse phase, and `chunk` is the size of its last chunk.  When it
      opens two legs, and what they make is nearly concave, no allocation of the amount to the two is
      better by more than twice the slack, neither end excepted.  When it opens one, no allocation that
      gives another venue a chunk or more is better by more than the slack of every chunk, and one
      that gives it less gains at most what that venue makes of it. */
  method OptimizeSplit(curves: seq<Curve>, amountIn: int, granularity: int, maxLegs: int, refineSteps: nat)
    returns (r: Result, ghost coarseLegs: seq<nat>, ghost chunk: int, ghost t: Trace)
    ensures amountIn <= 0 ==> r == Result(NONE, [], 0)
    ensures amountIn > 0 ==> Answers(Usable(curves), amountIn, maxLegs, r)
    ensures amountIn > 0 && Usable(curves) != [] ==>
              Traced(Usable(curves), amountIn, Max(1, granularity), maxLegs, refineSteps, coarseLegs, r, t)
    ensures InRange(coarseLegs, |Usable(curves)|) && |coarseLegs| <= Max(0, maxLegs)
    ensures amountIn > 0 && maxLegs > 0 && Usable(curves) != [] && Ample(Usable(curves), amountIn) ==> coarseLegs != []
    ensures |coarseLegs| == 2 ==> forall l, u, g, d, x ::
              var a, b := Usable(curves)[coarseLegs[0]], Usable(curves)[coarseLegs[1]];
              Near(a, b, amountIn, l, u, g, d) && Closes(l, u, amountIn, refineSteps) && l <= x <= u ==>
                Worth(a, b, amountIn, x) as real <= r.totalOut as real + 2.0 * d
    ensures coarseLegs != [] ==> 0 < chunk < amountIn / Max(1, granularity) + Max(1, granularity)
    ensures coarseLegs != [] ==> amountIn <= Max(1, granularity) * chunk
    ensures |coarseLegs| == 1 && maxLegs >= 2 ==> forall k, l, g, d, x ::
              0 <= k < |Usable(curves)| && k != coarseLegs[0] ==>
                var a, b := Usable(curves)[coarseLegs[0]], Usable(curves)[k];
                Near(a, b, amountIn, l, amountIn, g, d) && l <= x <= amountIn ==>
                  Short(a, b, amountIn, chunk, Max(1, granularity), d, x, r.totalOut)
  {
    hide Filled, Used, Total, Usable, EndsWith, Ample, Swept, Near, Closes, Short, Worth, Answers, IsBestSingle, Greedy,
        Cut, Stuck, Touches;
    var usable := Usable(curves);
    coarseLegs, chunk, t := [], 0, Trace([], [], [], []);
    if amountIn <= 0 { r := Result(NONE, [], 0); return; }
    if |usable| == 0 {
      NoVenues(usable, amountIn, maxLegs);
      r := Result(NONE, [], 0);
      return;
    }
    var best := BestSingle(usable, amountIn);
    var placed, given, made;
    ghost var last, chunks, path;
    placed, given, made, last, chunks, path := Allocate(usable, amountIn, granularity, maxLegs);
    t := Trace(chunks, path, given, made);
    if !placed {
      SingleAnswers(usable, amountIn, maxLegs, best);
      r := if best.Some? then SingleResult(best.value, amountIn) else Result(NONE, [], 0);
      return;
    }
    assert chunks[..|path| - 1] == chunks;
    var legs := Legs(given);
    LegsAre(given);
    FilledLengths(usable, given, made);
    ghost var coarse, coarseMade := given, made;
    if |legs| >= 2 {
      ghost var settled;
      given, made, settled := Refine(usable, given, made, legs, refineSteps);
      FilledLengths(usable, given, made);
      UsedShrinksWith(coarse, given, legs);
    }
    r := Choose(usable, amountIn, maxLegs, best, given, made);
    coarseLegs, chunk, t := legs, last.chunk, Trace(chunks, path, given, made);
    if |coarseLegs| == 2 {
      TwoLegsSettled(usable, coarse, given, made, amountIn, refineSteps);
      TwoLegsAreNearlyBest(usable, coarseLegs[0], coarseLegs[1], amountIn, maxLegs, refineSteps, r);
    }
    assert chunk > 0 by { LastIsSome(usable, coarse, coarseMade, maxLegs, last); }
    if |coarseLegs| == 1 && maxLegs >= 2 {
      OneLegIsShort(usable, coarse, coarseMade, amountIn, maxLegs, last, Max(1, granularity), r);
    }
  }

  lemma UsedShrinksWith(coarse: seq<int>, given: seq<int>, legs: seq<nat>)
    requires Touches(coarse, given, legs) && legs == Legs(coarse) && forall k :: 0 <= k < |coarse| ==> coarse[k] >= 0
    ensures Used(given) <= Used(coarse)
  {
    LegsAre(coarse);
    UsedShrinks(coarse, given);
  }

  lemma NoVenues(usable: seq<Curve>, amountIn: int, maxLegs: int)
    requires usable == []
    ensures Answers(usable, amountIn, maxLegs, Result(NONE, [], 0))
  {
  }

  lemma SingleAnswers(usable: seq<Curve>, amountIn: int, maxLegs: int, best: Option<(nat, int)>)
    requires amountIn > 0 && IsBestSingle(usable, amountIn, best)
    ensures Answers(usable, amountIn, maxLegs,
                    if best.Some? then SingleResult(best.value, amountIn) else Result(NONE, [], 0))
  {
    hide Fills, SharesFair;
    if best.Some? { SingleIsValid(usable, amountIn, best.value); }
  }

  // ---------- two legs ----------

  lemma TwoLegTotal(coarse: seq<int>, xs: seq<int>)
    requires |Legs(coarse)| == 2 && |xs| == |coarse| && forall i :: 0 <= i < |coarse| && coarse[i] <= 0 ==> xs[i] == 0
    ensures Total(xs) == xs[Legs(coarse)[0]] + xs[Legs(coarse)[1]]
  {
    hide Total, Legs;
    LegsHoldAll(coarse, xs);
    TotalOfTwo(Legs(coarse), xs);
  }

  /** Two legs share everything, and settle on the best of what the search found. */
  lemma TwoLegsSettled(
    usable: seq<Curve>, coarse: seq<int>, given: seq<int>, made: seq<int>, amountIn: int, steps: nat)
    requires Filled(usable, given, made) && |coarse| == |given| == |made| == |usable|
    requires (forall i :: 0 <= i < |coarse| ==> coarse[i] >= 0) && |Legs(coarse)| == 2
    requires Total(coarse) == Total(given) == amountIn && Touches(coarse, given, Legs(coarse))
    requires Swept(usable, given, made, Legs(coarse), steps, 2, 0)
    ensures var best := Refined(usable[Legs(coarse)[0]], usable[Legs(coarse)[1]], amountIn, steps);
            amountIn > 1 && (best.Some? ==> best.value.total <= Total(made))
  {
    hide Refined, Total, Swept, Legs;
    var legs := Legs(coarse);
    LegsAre(coarse);
    TwoLegTotal(coarse, coarse);
    TwoLegTotal(coarse, given);
    TwoLegTotal(coarse, made);
    FirstPair(usable, given, made, legs, steps);
  }

  lemma FirstPair(usable: seq<Curve>, given: seq<int>, made: seq<int>, legs: seq<nat>, steps: nat)
    requires |usable| == |given| == |made| && InRange(legs, |usable|) && |legs| == 2
    requires Swept(usable, given, made, legs, steps, 2, 0)
    ensures Settled(usable, given, made, legs[0], legs[1], steps)
  {
  }

  lemma TotalOfTwo(legs: seq<nat>, xs: seq<int>)
    requires InRange(legs, |xs|) && |legs| == 2
    ensures TotalOf(legs, xs) == xs[legs[0]] + xs[legs[1]]
  {
    assert legs[..1][..0] == [];
    assert TotalOf(legs[..1], xs) == TotalOf(legs[..1][..0], xs) + xs[legs[0]];
  }

  /** The search is nearly best short of giving the second leg nothing, and that end is a single venue. */
  lemma TwoLegsAreNearlyBest(usable: seq<Curve>, i: nat, j: nat, amountIn: int, maxLegs: int, steps: nat, r: Result)
    requires i < |usable| && j < |usable| && amountIn > 1 && Answers(usable, amountIn, maxLegs, r)
    requires var best := Refined(usable[i], usable[j], amountIn, steps);
             best.Some? ==> best.value.total <= r.totalOut
    ensures forall l, u, g, d, x ::
              Near(usable[i], usable[j], amountIn, l, u, g, d) && Closes(l, u, amountIn, steps) && l <= x <= u ==>
                Worth(usable[i], usable[j], amountIn, x) as real <= r.totalOut as real + 2.0 * d
  {
    hide Refined, Closes, Concave;
    var a, b := usable[i], usable[j];
    forall l, u, g, d, x | Near(a, b, amountIn, l, u, g, d) && Closes(l, u, amountIn, steps) && l <= x <= u
      ensures Worth(a, b, amountIn, x) as real <= r.totalOut as real + 2.0 * d
    {
      if x < amountIn {
        NearlyBest(a, b, amountIn, l, u, g, d, steps, x);
      } else {
        assert SingleFills(usable, amountIn, i, Worth(a, b, amountIn, x));
      }
    }
  }

  /** However many legs: when a sweep finds nothing, no pair of them could share what it has much better,
      short of giving the second nothing. */
  lemma SweptIsNearlyBest(usable: seq<Curve>, given: seq<int>, made: seq<int>, legs: seq<nat>, steps: nat,
      i: nat, j: nat, l: int, u: int, g: int -> real, d: real, x: int)
    requires |usable| == |given| == |made| && InRange(legs, |usable|)
    requires Swept(usable, given, made, legs, steps, |legs|, 0) && i < j < |legs|
    requires var a, b, both := usable[legs[i]], usable[legs[j]], given[legs[i]] + given[legs[j]];
             both > 1 && Near(a, b, both, l, u, g, d) && Closes(l, u, both, steps) && l <= x <= u && x < both
    ensures var a, b, both := usable[legs[i]], usable[legs[j]], given[legs[i]] + given[legs[j]];
            Worth(a, b, both, x) as real <= (made[legs[i]] + made[legs[j]]) as real + 2.0 * d
  {
    hide Refined, Closes, Near, Worth;
    NearlyBest(usable[legs[i]], usable[legs[j]], given[legs[i]] + given[legs[j]], l, u, g, d, steps, x);
    assert Settled(usable, given, made, legs[i], legs[j], steps);
  }

  // ---------- one leg ----------

  /** An allocation that gives the venue b a chunk or more is at most n times the slack better than the
      result; one that gives it less, at most by what b makes of it, if a never makes more of less. */
  predicate Short(a: Curve, b: Curve, total: int, chunk: int, n: nat, d: real, x: int, result: int) {
    if x <= total - chunk then Worth(a, b, total, x) as real <= result as real + n as real * d
    else
      && Output(a, x).Some? && Output(b, total - x).Some? && Output(a, total).Some?
      && (Output(a, x).value <= Output(a, total).value ==>
          Worth(a, b, total, x) <= result + Output(b, total - x).value)
  }

  lemma LastIsSome(usable: seq<Curve>, given: seq<int>, made: seq<int>, maxLegs: int, last: Last)
    requires EndsWith(usable, given, made, maxLegs, last)
    ensures last.chunk > 0
  {
  }

  /** A lone leg has everything. */
  lemma LoneLegHasAll(given: seq<int>, i: nat)
    requires Legs(given) == [i] && i < |given| && forall k :: 0 <= k < |given| ==> given[k] >= 0
    ensures given[i] == Total(given) > 0 && Used(given) == 1
    ensures forall k :: 0 <= k < |given| && k != i ==> given[k] == 0
  {
    hide Total, Used;
    LegsAre(given);
    LegsHoldAll(given, given);
    assert TotalOf([i], given) == TotalOf([i][..0], given) + given[i];
  }

  /** Before the last chunk the lone leg had everything else, and the others nothing. */
  lemma WasAlone(usable: seq<Curve>, given: seq<int>, made: seq<int>, maxLegs: int, last: Last, i: nat, k: nat)
    requires Filled(usable, given, made) && EndsWith(usable, given, made, maxLegs, last) && k != i
    requires i < |usable| && k < |usable| && forall j :: 0 <= j < |usable| && j != i ==> given[j] == 0
    ensures |last.given| == |last.made| == |usable| && Used(last.given) <= Used(given)
    ensures Output(usable[i], given[i] - last.chunk) == Some(last.made[i])
    ensures Output(usable[i], given[i]) == Some(made[i])
    ensures last.given[k] == last.made[k] == 0 && last.chunk > 0
    ensures forall gain :: Offers(usable, last.given, last.made, last.chunk, maxLegs, k, gain) ==>
              gain <= made[i] - last.made[i]
  {
    hide Offers, Used;
    assert last.given[last.curve] >= 0 && last.given[last.curve] + last.chunk == given[last.curve];
    assert last.curve == i;
    UsedShrinks(given, last.given);
    assert Output(usable[k], last.given[k]) == Some(last.made[k]);
  }

  /** The last chunk went to the only leg although another could have taken it. */
  lemma LastIsFair(usable: seq<Curve>, given: seq<int>, made: seq<int>, maxLegs: int, last: Last, i: nat, k: nat)
    requires Filled(usable, given, made) && EndsWith(usable, given, made, maxLegs, last)
    requires |given| == |usable| && Legs(given) == [i] && i < |usable| && k < |usable| && k != i && maxLegs >= 2
    ensures var a, b, all := usable[i], usable[k], Total(given);
            && Evaluate(a, b, all, all).Some?
            && (Evaluate(a, b, all, all - last.chunk).Some? ==>
                Worth(a, b, all, all - last.chunk) <= Worth(a, b, all, all))
  {
    hide Total, Legs, Used, EndsWith;
    FilledLengths(usable, given, made);
    LoneLegHasAll(given, i);
    WasAlone(usable, given, made, maxLegs, last, i, k);
    hide Filled;
    var b, c := usable[k], last.chunk;
    if Output(b, c).Some? {
      assert Offers(usable, last.given, last.made, c, maxLegs, k, Output(b, c).value);
    }
  }

  lemma Multiple(n: nat, d: real)
    requires n > 0 && d >= 0.0
    ensures n as real * d == (n - 1) as real * d + d >= d
  {
    assert n as real == (n - 1) as real + 1.0;
  }

  lemma {:induction false} ChunkByChunk(g: int -> real, l: int, total: int, chunk: int, n: nat, d: real, x: int)
    requires Concave(g, l, total) && chunk > 0 && d >= 0.0 && g(total - chunk) <= g(total) + d
    requires l <= x <= total - chunk && total - x <= (n + 1) * chunk
    ensures g(x) <= g(total - chunk) + n as real * d
    decreases n
  {
    hide Concave;
    if n == 0 {
      assert x == total - chunk;
    } else if total - chunk - x <= chunk {
      LeftWithin(g, l, total, x, total - chunk, total, d);
      Multiple(n, d);
    } else {
      assert (n + 1) * chunk == n * chunk + chunk;
      ChunkByChunk(g, l, total, chunk, n - 1, d, x + chunk);
      Shifted(g, l, total, x, total - chunk, chunk);
      Multiple(n, d);
    }
  }

  /** A chunk or more for b. */
  lemma ChunkAway(a: Curve, b: Curve, total: int, chunk: int, n: nat, l: int, g: int -> real, d: real, x: int)
    requires Near(a, b, total, l, total, g, d) && chunk > 0 && n > 0 && total <= n * chunk
    requires l <= x <= total - chunk && Worth(a, b, total, total - chunk) <= Worth(a, b, total, total)
    ensures Worth(a, b, total, x) as real <= Worth(a, b, total, total) as real + n as real * d
  {
    hide Concave, Spans, Worth;
    var m := total - chunk;
    LowerIsWithin(a, b, total, l, total, g, d);
    var atX, atM := Worth(a, b, total, x) as real, Worth(a, b, total, m) as real;
    var atAll := Worth(a, b, total, total) as real;
    assert atX <= g(x) && g(m) - d <= atM && atAll <= g(total) && atM <= atAll;
    ChunkByChunk(g, l, total, chunk, n - 1, d, x);
    Multiple(n, d);
    assert atX <= atM + d + (n - 1) as real * d;
  }

  lemma LowerIsWithin(a: Curve, b: Curve, total: int, l: int, u: int, g: int -> real, d: real)
    requires Near(a, b, total, l, u, g, d)
    ensures 0 <= l <= u <= total && d >= 0.0
    ensures forall x :: l <= x <= u ==> Evaluate(a, b, total, x).Some?
  {
  }

  lemma LessThanAChunk(a: Curve, b: Curve, total: int, x: int)
    requires Evaluate(a, b, total, x).Some? && Evaluate(a, b, total, total).Some?
    ensures Output(a, x).Some? && Output(b, total - x).Some? && Output(a, total) == Some(Worth(a, b, total, total))
    ensures Worth(a, b, total, x) == Output(a, x).value + Output(b, total - x).value
  {
  }

  lemma EverythingIsAVenue(usable: seq<Curve>, i: nat, b: Curve, amountIn: int, maxLegs: int, r: Result)
    requires i < |usable| && amountIn > 0 && Answers(usable, amountIn, maxLegs, r)
    requires Evaluate(usable[i], b, amountIn, amountIn).Some?
    ensures Worth(usable[i], b, amountIn, amountIn) <= r.totalOut
  {
    assert SingleFills(usable, amountIn, i, Worth(usable[i], b, amountIn, amountIn));
  }

  lemma AllocationIsShort(usable: seq<Curve>, i: nat, b: Curve, amountIn: int, maxLegs: int, chunk: int, n: nat,
      r: Result, l: int, g: int -> real, d: real, x: int)
    requires i < |usable| && amountIn > 0 && Answers(usable, amountIn, maxLegs, r)
    requires chunk > 0 && n > 0 && amountIn <= n * chunk
    requires Evaluate(usable[i], b, amountIn, amountIn - chunk).Some? ==>
               Worth(usable[i], b, amountIn, amountIn - chunk) <= Worth(usable[i], b, amountIn, amountIn)
    requires Near(usable[i], b, amountIn, l, amountIn, g, d) && l <= x <= amountIn
    ensures Short(usable[i], b, amountIn, chunk, n, d, x, r.totalOut)
  {
    hide Near, Answers, Worth, Evaluate, Output;
    LowerIsWithin(usable[i], b, amountIn, l, amountIn, g, d);
    EverythingIsAVenue(usable, i, b, amountIn, maxLegs, r);
    if x <= amountIn - chunk {
      ChunkAway(usable[i], b, amountIn, chunk, n, l, g, d, x);
    } else {
      LessThanAChunk(usable[i], b, amountIn, x);
    }
  }

  /** One leg: any other venue has lost every chunk to it. */
  lemma OneLegIsShort(usable: seq<Curve>, given: seq<int>, made: seq<int>, amountIn: int, maxLegs: int, last: Last,
      n: nat, r: Result)
    requires Filled(usable, given, made) && EndsWith(usable, given, made, maxLegs, last) && maxLegs >= 2
    requires Total(given) == amountIn > 0 && |Legs(given)| == 1 && n > 0 && amountIn <= n * last.chunk
    requires Answers(usable, amountIn, maxLegs, r) && |given| == |usable|
    ensures forall k, l, g, d, x :: 0 <= k < |usable| && k != Legs(given)[0] ==>
              var a, b := usable[Legs(given)[0]], usable[k];
              Near(a, b, amountIn, l, amountIn, g, d) && l <= x <= amountIn ==>
                Short(a, b, amountIn, last.chunk, n, d, x, r.totalOut)
  {
    hide Near, Short, Worth, Evaluate, Answers, Filled, Placed, Total;
    var i := Legs(given)[0];
    assert Legs(given) == [i];
    forall k, l, g, d, x | 0 <= k < |usable| && k != i && l <= x <= amountIn
                           && Near(usable[i], usable[k], amountIn, l, amountIn, g, d)
      ensures Short(usable[i], usable[k], amountIn, last.chunk, n, d, x, r.totalOut)
    {
      LastIsFair(usable, given, made, maxLegs, last, i, k);
      AllocationIsShort(usable, i, usable[k], amountIn, maxLegs, last.chunk, n, r, l, g, d, x);
    }
  }

  lemma SingleIsValid(usable: seq<Curve>, amountIn: int, best: (nat, int))
    requires amountIn > 0 && SingleFills(usable, amountIn, best.0, best.1)
    ensures var r := SingleResult(best, amountIn);
        Fills(usable, amountIn, r.legs, best.1) && SharesFair(amountIn, r.legs)
  {
    var leg := Leg(best.0, amountIn, best.1, 10000);
    LegSnoc([], leg);
    assert [] + [leg] == [leg];
  }

  /** A lone leg takes the whole amount. */
  lemma LoneLeg(usable: seq<Curve>, amountIn: int, legs: seq<Leg>, totalOut: int)
    requires Fills(usable, amountIn, legs, totalOut) && |legs| == 1
    ensures SingleFills(usable, amountIn, legs[0].curve, totalOut)
  {
    assert legs[..0] == [];
    assert Ins(legs) == Ins(legs[..0]) + legs[0].amountIn && Outs(legs) == Outs(legs[..0]) + legs[0].amountOut;
  }

  /** Curves that had nothing still have nothing. */
  lemma {:induction false} UsedShrinks(given: seq<int>, given': seq<int>)
    requires |given| == |given'| && forall k :: 0 <= k < |given| && given[k] <= 0 ==> given'[k] <= 0
    ensures Used(given') <= Used(given)
    decreases |given|
  {
    if given != [] {
      UsedShrinks(given[..|given| - 1], given'[..|given| - 1]);
    }
  }
}
