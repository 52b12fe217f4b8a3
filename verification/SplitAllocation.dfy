/** The two phases of the split-route optimizer: coarse marginal allocation and pairwise refinement. */
module SplitAllocation {
  import opened Common
  import opened SplitSearch

  const MAX_REFINE_SWEEPS: nat := 4

  function Total(xs: seq<int>): int { if xs == [] then 0 else Total(xs[..|xs| - 1]) + xs[|xs| - 1] }

  lemma {:induction false} TotalUpdate(xs: seq<int>, k: nat, x: int)
    requires k < |xs|
    ensures Total(xs[k := x]) == Total(xs) - xs[k] + x
    decreases |xs|
  {
    var n := |xs| - 1;
    if k < n {
      assert xs[k := x][..n] == xs[..n][k := x];
      TotalUpdate(xs[..n], k, x);
    } else {
      assert xs[k := x][..n] == xs[..n];
    }
  }

  lemma TotalSnoc(xs: seq<int>, x: int)
    ensures Total(xs + [x]) == Total(xs) + x
  {
    assert (xs + [x])[..|xs|] == xs;
  }

  lemma {:induction false} TotalOfZeros(xs: seq<int>)
    requires forall i :: 0 <= i < |xs| ==> xs[i] == 0
    ensures Total(xs) == 0
    decreases |xs|
  {
    if xs != [] {
      TotalOfZeros(xs[..|xs| - 1]);
    }
  }

  function Usable(curves: seq<Curve>): seq<Curve> {
    if |curves| == 0 then []
    else
      var n := |curves| - 1;
      if curves[n].available then Usable(curves[..n]) + [curves[n]] else Usable(curves[..n])
  }

  /** The available curves and no others, in their order. */
  lemma {:induction false} UsableAre(curves: seq<Curve>)
    ensures forall c :: c in Usable(curves) <==> c in curves && c.available
    ensures (forall i :: 0 <= i < |curves| ==> curves[i].available) ==> Usable(curves) == curves
    decreases |curves|
  {
    if curves != [] {
      var n := |curves| - 1;
      UsableAre(curves[..n]);
      assert curves == curves[..n] + [curves[n]];
    }
  }

  lemma {:induction false} UsableConcat(xs: seq<Curve>, ys: seq<Curve>)
    ensures Usable(xs + ys) == Usable(xs) + Usable(ys)
    decreases |ys|
  {
    if ys == [] {
      assert xs + ys == xs;
    } else {
      var n := |ys| - 1;
      assert (xs + ys)[..|xs| + n] == xs + ys[..n];
      UsableConcat(xs, ys[..n]);
    }
  }

  /** What each curve is given, and what it makes of it. */
  ghost predicate Filled(usable: seq<Curve>, given: seq<int>, made: seq<int>) {
    && |given| == |made| == |usable|
    && forall i :: 0 <= i < |usable| ==> given[i] >= 0 && Output(usable[i], given[i]) == Some(made[i])
  }

  lemma FilledUpdate(usable: seq<Curve>, given: seq<int>, made: seq<int>, k: nat, amount: int, out: int)
    requires Filled(usable, given, made) && k < |usable| && amount >= 0 && Output(usable[k], amount) == Some(out)
    ensures Filled(usable, given[k := amount], made[k := out])
  {
  }

  /** How many curves are given anything. */
  function Used(given: seq<int>): nat {
    if given == [] then 0 else Used(given[..|given| - 1]) + if given[|given| - 1] > 0 then 1 else 0
  }

  lemma {:induction false} UsedUpdate(given: seq<int>, k: nat, x: int)
    requires k < |given|
    ensures Used(given[k := x]) == Used(given) - (if given[k] > 0 then 1 else 0) + if x > 0 then 1 else 0
    decreases |given|
  {
    var n := |given| - 1;
    if k < n {
      assert given[k := x][..n] == given[..n][k := x];
      UsedUpdate(given[..n], k, x);
    } else {
      assert given[k := x][..n] == given[..n];
    }
  }

  // ---------- the coarse phase ----------

  /** What the first chunks hold. */
  function FirstChunks(total: int, g: int, i: int): int
    requires g > 0
  {
    total / g * i
  }

  /** As many equal chunks as the granularity says, the last one with a remainder of less than one unit a
      chunk; an amount too small to be cut stays whole. */
  predicate Cut(total: int, g: int, chunks: seq<int>) {
    && Total(chunks) == total
    && if total < g then |chunks| == 1
       else
         && |chunks| == g > 0 && chunks[0] > 0 && chunks[0] <= chunks[g - 1] < chunks[0] + g
         && forall i :: 0 <= i < g - 1 ==> chunks[i] == chunks[0]
  }

  /** Equal chunks, the last one with the remainder; chunks of nothing are left out. */
  method Chunks(total: int, granularity: int) returns (out: seq<int>)
    requires total > 0
    ensures Cut(total, Max(1, granularity), out)
    ensures forall i :: 0 <= i < |out| ==> out[i] > 0
    ensures out != [] && total <= Max(1, granularity) * out[|out| - 1]
    ensures out[|out| - 1] < total / Max(1, granularity) + Max(1, granularity)
  {
    hide Total, FirstChunks;
    var g := Max(1, granularity);
    var base := total / g;
    out := [];
    NothingTotal();
    var placedSoFar := 0;
    ChunksFit(total, g, 0);
    for i := 0 to g
      invariant placedSoFar == Total(out) && |out| == (if base > 0 then i else if i < g then 0 else 1)
      invariant forall k :: 0 <= k < |out| && k < g - 1 && base > 0 ==> out[k] == base
      invariant placedSoFar == if i < g then FirstChunks(total, g, i) else total
      invariant i == g ==> out[|out| - 1] == total - FirstChunks(total, g, g - 1)
    {
      ChunksFit(total, g, i);
      var size := if i == g - 1 then total - placedSoFar else base;
      if size > 0 {
        TotalSnoc(out, size);
        out := out + [size];
      }
      placedSoFar := placedSoFar + size;
    }
    LastIsLargest(total, g);
  }

  lemma NothingTotal()
    ensures Total([]) == 0
  {
  }

  lemma LastIsLargest(total: int, g: int)
    requires total > 0 && g > 0
    ensures var last := total - FirstChunks(total, g, g - 1);
            0 < last && total <= g * last && total / g <= last < total / g + g
    ensures total < g <==> total / g == 0
  {
    var base, last := total / g, total - total / g * (g - 1);
    Quotient(total, g);
    Spread(base, g - 1, 1);
    assert base * g == base * (g - 1) + base;
    Product(last - base, g - 1);
    if base >= 1 {
      Product(base - 1, g);
      assert base * g == (base - 1) * g + g;
    }
    assert g * last == last + (g - 1) * last && (last - base) * (g - 1) == (g - 1) * last - base * (g - 1);
    if base == 0 {
      assert last == total;
    }
  }

  lemma ChunksFit(total: int, g: int, i: int)
    requires total > 0 && g > 0 && 0 <= i < g
    ensures 0 <= FirstChunks(total, g, i) <= total && FirstChunks(total, g, 0) == 0 && total / g >= 0
    ensures FirstChunks(total, g, i + 1) == FirstChunks(total, g, i) + total / g
    ensures i == g - 1 ==> FirstChunks(total, g, i) < total
  {
    var q := total / g;
    Quotient(total, g);
    Product(q, i);
    Product(q, g - i);
    Spread(q, i, g - i);
    Spread(q, i, 1);
    LastIsLargest(total, g);
  }

  lemma Quotient(total: int, g: int)
    requires total > 0 && g > 0
    ensures total / g >= 0 && total / g * g <= total < total / g * g + g
  {
  }

  lemma Product(x: int, y: int)
    requires x >= 0 && y >= 0
    ensures x * y >= 0
  {
  }

  lemma Spread(k: int, x: int, y: int)
    ensures k * (x + y) == k * x + k * y
  {
  }

  /** A curve may take more if it has some already, or if another leg may be opened. */
  predicate MayTake(given: seq<int>, maxLegs: int, k: nat)
    requires k < |given|
  {
    given[k] > 0 || Used(given) < maxLegs
  }

  datatype Pick = Pick(curve: nat, gain: int, made: int)

  ghost predicate Offers(usable: seq<Curve>, given: seq<int>, made: seq<int>, chunk: int, maxLegs: int, k: nat,
      gain: int)
    requires |given| == |made| == |usable| && k < |usable|
  {
    MayTake(given, maxLegs, k) && var more := usable[k].outputFor(given[k] + chunk);
        more.Some? && more.value - made[k] == gain
  }

  /** The first curve that gains most by the chunk, among those that may take it and can fill it. */
  method BestGain(usable: seq<Curve>, given: seq<int>, made: seq<int>, chunk: int,
      maxLegs: int) returns (best: Option<Pick>)
    requires |given| == |made| == |usable|
    ensures best.Some? ==>
      && best.value.curve < |usable| &&
          usable[best.value.curve].outputFor(given[best.value.curve] + chunk) == Some(best.value.made)
      && Offers(usable, given, made, chunk, maxLegs, best.value.curve, best.value.gain)
    ensures forall k, gain :: 0 <= k < |usable| && Offers(usable, given, made, chunk, maxLegs, k, gain) ==>
              best.Some? && gain <= best.value.gain
    ensures best.Some? ==> forall k, gain ::
              0 <= k < best.value.curve && Offers(usable, given, made, chunk, maxLegs, k, gain) ==>
                gain < best.value.gain
  {
    best := None;
    for k := 0 to |usable|
      invariant best.Some? ==>
        && best.value.curve < |usable| &&
            usable[best.value.curve].outputFor(given[best.value.curve] + chunk) == Some(best.value.made)
        && Offers(usable, given, made, chunk, maxLegs, best.value.curve, best.value.gain)
      invariant forall i, gain :: 0 <= i < k && Offers(usable, given, made, chunk, maxLegs, i, gain) ==>
                  best.Some? && gain <= best.value.gain
      invariant best.Some? ==> best.value.curve < k && forall i, gain ::
                  0 <= i < best.value.curve && Offers(usable, given, made, chunk, maxLegs, i, gain) ==>
                    gain < best.value.gain
    {
      if given[k] == 0 && Used(given) >= maxLegs { continue; }
      var more := usable[k].outputFor(given[k] + chunk);
      if more.None? || !MayTake(given, maxLegs, k) { continue; }
      var gain := more.value - made[k];
      if best.None? || gain > best.value.gain { best := Some(Pick(k, gain, more.value)); }
    }
  }

  /** The chunk went to this curve, the first that gains most among those that may take it. */
  ghost predicate Placed(usable: seq<Curve>, given: seq<int>, made: seq<int>, chunk: int, maxLegs: int, k: nat,
      given': seq<int>, made': seq<int>)
  {
    && |given| == |made| == |usable| == |made'| && k < |usable|
    && given' == given[k := given[k] + chunk] && made' == made[k := made'[k]]
    && Offers(usable, given, made, chunk, maxLegs, k, made'[k] - made[k])
    && forall i, gain :: 0 <= i < |usable| && Offers(usable, given, made, chunk, maxLegs, i, gain) ==>
         gain <= made'[k] - made[k] && (i < k ==> gain < made'[k] - made[k])
  }

  /** One chunk goes where it gains most; it goes nowhere when no curve that may take it can fill it. */
  method PlaceChunk(usable: seq<Curve>, given: seq<int>, made: seq<int>, chunk: int, maxLegs: int)
    returns (placed: bool, given': seq<int>, made': seq<int>, ghost k: nat)
    requires Filled(usable, given, made) && chunk > 0
    ensures placed ==> Placed(usable, given, made, chunk, maxLegs, k, given', made') && Filled(usable, given', made')
    ensures placed ==> Total(given') == Total(given) + chunk && Used(given') <= Max(Used(given), maxLegs)
    ensures !placed ==> Stuck(usable, given, made, chunk, maxLegs)
  {
    hide Used, Total;
    given', made', k := given, made, 0;
    var best := BestGain(usable, given, made, chunk, maxLegs);
    if best.None? { return false, given, made, 0; }
    k := best.value.curve;
    TotalUpdate(given, best.value.curve, given[best.value.curve] + chunk);
    UsedUpdate(given, best.value.curve, given[best.value.curve] + chunk);
    TakesMore(usable, given, made, best.value.curve, chunk, best.value.made);
    placed := true;
    given', made' := given[best.value.curve := given[best.value.curve] + chunk],
        made[best.value.curve := best.value.made];
  }

  /** The last chunk placed, and what was placed before it. */
  datatype Last = Last(given: seq<int>, made: seq<int>, chunk: int, curve: nat)

  ghost predicate EndsWith(usable: seq<Curve>, given: seq<int>, made: seq<int>, maxLegs: int, last: Last) {
    && last.chunk > 0 && Filled(usable, last.given, last.made)
    && Placed(usable, last.given, last.made, last.chunk, maxLegs, last.curve, given, made)
  }

  /** No curve that may take the chunk can fill it. */
  ghost predicate Stuck(usable: seq<Curve>, given: seq<int>, made: seq<int>, chunk: int, maxLegs: int) {
    |given| == |made| == |usable| && forall k, gain ::
      0 <= k < |usable| ==> !Offers(usable, given, made, chunk, maxLegs, k, gain)
  }

  type Path = seq<(seq<int>, seq<int>)>

  ghost predicate PlacesNext(usable: seq<Curve>, before: (seq<int>, seq<int>), chunk: int, maxLegs: int,
      after: (seq<int>, seq<int>))
  {
    exists k :: Placed(usable, before.0, before.1, chunk, maxLegs, k, after.0, after.1)
  }

  /** What has been given and made before and after each of these chunks. */
  ghost predicate Greedy(usable: seq<Curve>, chunks: seq<int>, maxLegs: int, path: Path) {
    && |path| == |chunks| + 1 && path[0] == (seq(|usable|, _ => 0), seq(|usable|, _ => 0))
    && forall i :: 0 <= i < |chunks| ==> PlacesNext(usable, path[i], chunks[i], maxLegs, path[i + 1])
  }

  lemma GreedyMore(usable: seq<Curve>, chunks: seq<int>, maxLegs: int, path: Path, chunk: int,
      k: nat, given: seq<int>, made: seq<int>)
    requires Greedy(usable, chunks, maxLegs, path)
    requires Placed(usable, path[|chunks|].0, path[|chunks|].1, chunk, maxLegs, k, given, made)
    ensures Greedy(usable, chunks + [chunk], maxLegs, path + [(given, made)])
  {
    assert PlacesNext(usable, path[|chunks|], chunk, maxLegs, (given, made));
    hide PlacesNext, Placed;
    assert (path + [(given, made)])[0] == path[0];
  }

  lemma Ends(usable: seq<Curve>, given: seq<int>, made: seq<int>, maxLegs: int, last: Last)
    requires last.chunk > 0 && Filled(usable, last.given, last.made)
    requires Placed(usable, last.given, last.made, last.chunk, maxLegs, last.curve, given, made)
    ensures EndsWith(usable, given, made, maxLegs, last)
  {
  }

  /** Every curve fills every amount up to this one. */
  ghost predicate Ample(usable: seq<Curve>, amountIn: int) {
    forall k, x :: 0 <= k < |usable| && 0 < x <= amountIn ==> usable[k].outputFor(x).Some?
  }

  /** Chunk by chunk to the best marginal output, opening no leg too many, until a chunk cannot be placed. */
  method Allocate(usable: seq<Curve>, amountIn: int, granularity: int, maxLegs: int)
    returns (placed: bool, given: seq<int>, made: seq<int>, ghost last: Last,
        ghost chunks: seq<int>, ghost path: Path)
    requires amountIn > 0
    ensures Cut(amountIn, Max(1, granularity), chunks) && 0 < |path| <= |chunks| + 1
    ensures Greedy(usable, chunks[..|path| - 1], maxLegs, path)
    ensures placed ==> |path| == |chunks| + 1 && path[|chunks|] == (given, made)
    ensures !placed ==> |path| <= |chunks|
    ensures !placed ==> Stuck(usable, path[|path| - 1].0, path[|path| - 1].1, chunks[|path| - 1], maxLegs)
    ensures placed ==> Filled(usable, given, made) && Total(given) == amountIn && 1 <= Used(given) <= maxLegs
    ensures placed ==> EndsWith(usable, given, made, maxLegs, last) && amountIn <= Max(1, granularity) * last.chunk
    ensures placed ==> last.chunk < amountIn / Max(1, granularity) + Max(1, granularity)
    ensures usable != [] && maxLegs > 0 && Ample(usable, amountIn) ==> placed
  {
    hide Filled, Used, Total, Placed, Ample, EndsWith, Offers, Cut, Greedy, Stuck;
    given, made := seq(|usable|, _ => 0), seq(|usable|, _ => 0);
    NothingGiven(usable, given);
    last := Last(given, made, 0, 0);
    var parts := Chunks(amountIn, granularity);
    chunks, path := parts, [(given, made)];
    GreedyStart(usable, maxLegs);
    placed := true;
    for i := 0 to |parts|
      invariant placed && Filled(usable, given, made) && Total(given) == Total(parts[..i])
      invariant Used(given) <= Max(0, maxLegs)
      invariant i > 0 ==> EndsWith(usable, given, made, maxLegs, last) && last.chunk == parts[i - 1]
      invariant |path| == i + 1 && path[i] == (given, made) && Greedy(usable, parts[..i], maxLegs, path)
    {
      assert parts[..i + 1] == parts[..i] + [parts[i]];
      TotalSnoc(parts[..i], parts[i]);
      CutPrefix(parts, i + 1, amountIn, Max(1, granularity));
      ghost var before, beforeMade := given, made;
      ghost var k: nat;
      placed, given, made, k := PlaceChunk(usable, given, made, parts[i], maxLegs);
      if !placed {
        if usable != [] && maxLegs > 0 && Ample(usable, amountIn) {
          SomeOffer(usable, before, beforeMade, parts[i], maxLegs, amountIn);
        }
        return;
      }
      last := Last(before, beforeMade, parts[i], k);
      Ends(usable, given, made, maxLegs, last);
      GreedyMore(usable, parts[..i], maxLegs, path, parts[i], k, given, made);
      path := path + [(given, made)];
    }
    assert parts[..|parts|] == parts;
    CutPrefix(parts, |parts|, amountIn, Max(1, granularity));
    SomeUsed(given);
  }

  lemma GreedyStart(usable: seq<Curve>, maxLegs: int)
    ensures Greedy(usable, [], maxLegs, [(seq(|usable|, _ => 0), seq(|usable|, _ => 0))])
  {
  }

  lemma CutPrefix(chunks: seq<int>, n: nat, total: int, g: int)
    requires Cut(total, g, chunks) && n <= |chunks| && forall i :: 0 <= i < |chunks| ==> chunks[i] > 0
    ensures Total(chunks[..n]) <= Total(chunks) == total
  {
    hide Total;
    PrefixTotal(chunks, n);
  }

  lemma {:induction false} PrefixTotal(xs: seq<int>, n: nat)
    requires n <= |xs| && forall i :: 0 <= i < |xs| ==> xs[i] >= 0
    ensures Total(xs[..n]) <= Total(xs)
    decreases |xs|
  {
    if n < |xs| {
      var front := xs[..|xs| - 1];
      assert front[..n] == xs[..n];
      PrefixTotal(front, n);
    } else {
      assert xs[..n] == xs;
    }
  }

  lemma {:induction false} PartOfTotal(xs: seq<int>, k: nat)
    requires k < |xs| && forall i :: 0 <= i < |xs| ==> xs[i] >= 0
    ensures 0 <= xs[k] <= Total(xs)
    decreases |xs|
  {
    var n := |xs| - 1;
    PrefixTotal(xs, n);
    if k < n {
      PartOfTotal(xs[..n], k);
    } else if n > 0 {
      PartOfTotal(xs[..n], 0);
    }
  }

  /** Curves that can fill everything leave no chunk unplaced. */
  lemma SomeOffer(usable: seq<Curve>, given: seq<int>, made: seq<int>, chunk: int, maxLegs: int, amountIn: int)
    requires Filled(usable, given, made) && usable != [] && maxLegs > 0 && Ample(usable, amountIn)
    requires chunk > 0 && Total(given) + chunk <= amountIn
    ensures !Stuck(usable, given, made, chunk, maxLegs)
  {
    hide Used, Total;
    LegsAre(given);
    var k := if Used(given) < maxLegs then 0 else Legs(given)[0];
    PartOfTotal(given, k);
    assert usable[k].outputFor(given[k] + chunk).Some?;
    assert Offers(usable, given, made, chunk, maxLegs, k, usable[k].outputFor(given[k] + chunk).value - made[k]);
  }

  lemma NothingGiven(usable: seq<Curve>, zeros: seq<int>)
    requires |zeros| == |usable| && forall i :: 0 <= i < |zeros| ==> zeros[i] == 0
    ensures Filled(usable, zeros, zeros) && Total(zeros) == Total([]) == 0 && Used(zeros) == 0
  {
    TotalOfZeros(zeros);
    NoneUsed(zeros);
  }

  lemma FilledLengths(usable: seq<Curve>, given: seq<int>, made: seq<int>)
    requires Filled(usable, given, made)
    ensures |given| == |made| == |usable| && forall i :: 0 <= i < |given| ==> given[i] >= 0
  {
  }

  lemma TakesMore(usable: seq<Curve>, given: seq<int>, made: seq<int>, k: nat, chunk: int, out: int)
    requires Filled(usable, given, made) && k < |usable| && chunk > 0 &&
        usable[k].outputFor(given[k] + chunk) == Some(out)
    ensures Filled(usable, given[k := given[k] + chunk], made[k := out])
  {
    FilledUpdate(usable, given, made, k, given[k] + chunk, out);
  }

  lemma {:induction false} NoneUsed(given: seq<int>)
    requires forall i :: 0 <= i < |given| ==> given[i] == 0
    ensures Used(given) == 0
    decreases |given|
  {
    if given != [] {
      NoneUsed(given[..|given| - 1]);
    }
  }

  lemma {:induction false} SomeUsed(given: seq<int>)
    requires Total(given) > 0
    ensures Used(given) > 0
    decreases |given|
  {
    if given[|given| - 1] <= 0 {
      SomeUsed(given[..|given| - 1]);
    }
  }

  // ---------- legs ----------

  predicate InRange(order: seq<nat>, n: nat) { forall i :: 0 <= i < |order| ==> order[i] < n }

  /** The curves that are given something, in order. */
  function Legs(given: seq<int>): (legs: seq<nat>)
    ensures InRange(legs, |given|)
  {
    if given == [] then []
    else
      var n := |given| - 1;
      if given[n] > 0 then Legs(given[..n]) + [n] else Legs(given[..n])
  }

  predicate Ascends(legs: seq<nat>) { forall i, j :: 0 <= i < j < |legs| ==> legs[i] < legs[j] }

  predicate AllGiven(given: seq<int>, legs: seq<nat>) {
    forall i :: 0 <= i < |legs| ==> legs[i] < |given| && given[legs[i]] > 0
  }

  predicate NoneMissed(given: seq<int>, legs: seq<nat>) {
    forall k :: 0 <= k < |given| && given[k] > 0 ==> k in legs
  }

  /** In ascending order, exactly the curves that are given something. */
  predicate AreLegs(given: seq<int>, legs: seq<nat>) {
    Ascends(legs) && AllGiven(given, legs) && NoneMissed(given, legs)
  }

  lemma {:induction false} LegsAre(given: seq<int>)
    ensures |Legs(given)| == Used(given) && AreLegs(given, Legs(given))
    decreases |given|
  {
    hide Ascends, AllGiven, NoneMissed;
    if given != [] {
      LegsAre(given[..|given| - 1]);
      OneMore(given, Legs(given[..|given| - 1]));
    } else {
      NoLegs(given);
    }
  }

  lemma NoLegs(given: seq<int>)
    requires given == []
    ensures AreLegs(given, [])
  {
  }

  lemma OneMore(given: seq<int>, front: seq<nat>)
    requires given != [] && AreLegs(given[..|given| - 1], front)
    ensures AreLegs(given, if given[|given| - 1] > 0 then front + [|given| - 1] else front)
  {
    hide Ascends, AllGiven, NoneMissed;
    var n := |given| - 1;
    FrontGiven(given, front, n);
    FrontComplete(given, front, n);
    if given[n] > 0 {
      LastAscends(front, n);
    }
  }

  lemma FrontGiven(given: seq<int>, front: seq<nat>, n: nat)
    requires n < |given| && AllGiven(given[..n], front)
    ensures AllGiven(given, front) && (given[n] > 0 ==> AllGiven(given, front + [n]))
    ensures forall i :: 0 <= i < |front| ==> front[i] < n
  {
    forall i | 0 <= i < |front| ensures front[i] < n && given[front[i]] > 0 {
      assert given[..n][front[i]] > 0;
    }
  }

  lemma FrontComplete(given: seq<int>, front: seq<nat>, n: nat)
    requires n + 1 == |given| && NoneMissed(given[..n], front)
    ensures if given[n] > 0 then NoneMissed(given, front + [n]) else NoneMissed(given, front)
  {
    forall k | 0 <= k < n && given[k] > 0 ensures k in front {
      assert given[..n][k] > 0;
    }
    assert n in front + [n];
  }

  lemma LastAscends(front: seq<nat>, n: nat)
    requires Ascends(front) && forall i :: 0 <= i < |front| ==> front[i] < n
    ensures Ascends(front + [n])
  {
  }

  function TotalOf(legs: seq<nat>, xs: seq<int>): int
    requires InRange(legs, |xs|)
  {
    if legs == [] then 0 else TotalOf(legs[..|legs| - 1], xs) + xs[legs[|legs| - 1]]
  }

  lemma TotalOfSnoc(legs: seq<nat>, k: nat, xs: seq<int>)
    requires InRange(legs, |xs|) && k < |xs|
    ensures TotalOf(legs + [k], xs) == TotalOf(legs, xs) + xs[k]
  {
    assert (legs + [k])[..|legs|] == legs;
  }

  lemma {:induction false} LegsHoldAll(given: seq<int>, xs: seq<int>)
    requires |xs| == |given| && forall i :: 0 <= i < |given| && given[i] <= 0 ==> xs[i] == 0
    ensures TotalOf(Legs(given), xs) == Total(xs)
    decreases |given|
  {
    if given != [] {
      var n := |given| - 1;
      LegsHoldAll(given[..n], xs[..n]);
      TotalOfPrefix(Legs(given[..n]), xs, n);
      if given[n] > 0 {
        TotalOfSnoc(Legs(given[..n]), n, xs);
      }
    }
  }

  lemma {:induction false} TotalOfPrefix(legs: seq<nat>, xs: seq<int>, n: nat)
    requires n <= |xs| && InRange(legs, n)
    ensures TotalOf(legs, xs[..n]) == TotalOf(legs, xs)
    decreases |legs|
  {
    if legs != [] {
      TotalOfPrefix(legs[..|legs| - 1], xs, n);
    }
  }

  // ---------- the refinement ----------

  /** The search finds nothing better for the two than what they make. */
  predicate Settled(usable: seq<Curve>, given: seq<int>, made: seq<int>, a: nat, b: nat, steps: nat)
    requires a < |usable| == |given| == |made| && b < |usable|
  {
    var best := Refined(usable[a], usable[b], given[a] + given[b], steps);
    given[a] + given[b] > 1 && best.Some? ==> best.value.total <= made[a] + made[b]
  }

  /** Two curves share what they had together between them, and make more of it. */
  method RefinePair(usable: seq<Curve>, given: seq<int>, made: seq<int>, a: nat, b: nat, steps: nat)
    returns (improved: bool, given': seq<int>, made': seq<int>)
    requires Filled(usable, given, made) && a < b < |usable|
    ensures Filled(usable, given', made') && Total(given') == Total(given)
    ensures Total(made') >= Total(made) && (improved <==> Total(made') > Total(made))
    ensures |given'| == |given| && forall i :: 0 <= i < |given| && i != a && i != b ==> given'[i] == given[i]
    ensures Settled(usable, given', made', a, b, steps) && (!improved ==> given' == given && made' == made)
  {
    hide Filled, Total, Stands, Refined, Evaluate;
    improved, given', made' := false, given, made;
    FilledLengths(usable, given, made);
    var pairTotal := given[a] + given[b];
    if pairTotal <= 1 { return; }
    var before := made[a] + made[b];
    var best := RefineBoundary(usable[a], usable[b], pairTotal, steps);
    FoundIff(usable[a], usable[b], pairTotal, steps);
    if best.None? || best.value.total <= before { return; }
    var amountB := pairTotal - best.value.amountA;
    PairShares(usable, given, made, a, b, best.value);
    improved := true;
    given', made' := given[a := best.value.amountA][b := amountB], made[a := best.value.outA][b := best.value.outB];
  }

  lemma PairShares(usable: seq<Curve>, given: seq<int>, made: seq<int>, a: nat, b: nat, best: Allocation)
    requires Filled(usable, given, made) && a < b < |usable|
    requires Stands(usable[a], usable[b], given[a] + given[b], Some(best))
    ensures |given| == |made| == |usable|
    ensures var given' := given[a := best.amountA][b := given[a] + given[b] - best.amountA];
            var made' := made[a := best.outA][b := best.outB];
            && Filled(usable, given', made') && Total(given') == Total(given)
            && Total(made') == Total(made) - made[a] - made[b] + best.total && best.total == best.outA + best.outB
  {
    hide Filled, Total, Output, Stands, Evaluate;
    FilledLengths(usable, given, made);
    var amountB := given[a] + given[b] - best.amountA;
    StandsFilled(usable[a], usable[b], given[a] + given[b], best);
    FilledUpdate(usable, given, made, a, best.amountA, best.outA);
    FilledUpdate(usable, given[a := best.amountA], made[a := best.outA], b, amountB, best.outB);
    TotalUpdate(given, a, best.amountA);
    TotalUpdate(given[a := best.amountA], b, amountB);
    TotalUpdate(made, a, best.outA);
    TotalUpdate(made[a := best.outA], b, best.outB);
  }

  lemma StandsFilled(a: Curve, b: Curve, total: int, best: Allocation)
    requires Stands(a, b, total, Some(best))
    ensures 0 <= best.amountA <= total && best.total == best.outA + best.outB
    ensures Output(a, best.amountA) == Some(best.outA) && Output(b, total - best.amountA) == Some(best.outB)
  {
  }

  /** Only these legs have been given something else. */
  predicate Touches(given: seq<int>, given': seq<int>, legs: seq<nat>) {
    |given'| == |given| && forall k :: 0 <= k < |given| && k !in legs ==> given'[k] == given[k]
  }

  /** The pairs of a sweep up to this one are settled. */
  predicate Swept(usable: seq<Curve>, given: seq<int>, made: seq<int>, legs: seq<nat>, steps: nat, i: nat, j: nat)
    requires |usable| == |given| == |made| && InRange(legs, |usable|)
  {
    forall p, q :: 0 <= p < q < |legs| && (p < i || (p == i && q < j)) ==>
      Settled(usable, given, made, legs[p], legs[q], steps)
  }

  /** Sweeps over all pairs of legs until one finds nothing.  No amount is lost, no total is lowered,
      and no new leg is opened.  A sweep that finds nothing leaves every pair settled, and only four
      that each find something are given up; with two legs the pair is settled in any case. */
  method Refine(usable: seq<Curve>, given: seq<int>, made: seq<int>, legs: seq<nat>, steps: nat)
    returns (given': seq<int>, made': seq<int>, ghost settled: bool)
    requires Filled(usable, given, made) && |given| == |made| == |usable| && InRange(legs, |usable|)
    requires forall i, j :: 0 <= i < j < |legs| ==> legs[i] < legs[j]
    ensures Filled(usable, given', made') && Total(given') == Total(given) && Total(made') >= Total(made)
    ensures Touches(given, given', legs) && |given'| == |made'| == |usable|
    ensures settled ==> Swept(usable, given', made', legs, steps, |legs|, 0)
    ensures |legs| == 2 ==> settled
    ensures !settled ==> Total(made') >= Total(made) + 4
  {
    hide Filled, Total, Settled;
    given', made' := given, made;
    var sweep, found := 0, true;
    while sweep < MAX_REFINE_SWEEPS && found
      invariant Filled(usable, given', made') && Total(given') == Total(given) && Total(made') >= Total(made)
      invariant Touches(given, given', legs) && |given'| == |made'| == |usable|
      invariant !found || (|legs| == 2 && sweep > 0) ==> Swept(usable, given', made', legs, steps, |legs|, 0)
      invariant sweep <= MAX_REFINE_SWEEPS && (found ==> Total(made') >= Total(made) + sweep)
      decreases MAX_REFINE_SWEEPS - sweep
    {
      found := false;
      for i := 0 to |legs|
        invariant Filled(usable, given', made') && Total(given') == Total(given) && Total(made') >= Total(made)
        invariant Touches(given, given', legs) && |given'| == |made'| == |usable|
        invariant !found || |legs| == 2 ==> Swept(usable, given', made', legs, steps, i, 0)
        invariant Total(made') >= Total(made) + sweep + if found then 1 else 0
      {
        for j := i + 1 to |legs|
          invariant Filled(usable, given', made') && Total(given') == Total(given) && Total(made') >= Total(made)
          invariant Touches(given, given', legs) && |given'| == |made'| == |usable|
          invariant !found || |legs| == 2 ==> Swept(usable, given', made', legs, steps, i, j)
          invariant Total(made') >= Total(made) + sweep + if found then 1 else 0
        {
          var improved: bool;
          assert legs[i] in legs && legs[j] in legs;
          improved, given', made' := RefinePair(usable, given', made', legs[i], legs[j], steps);
          FilledLengths(usable, given', made');
          found := found || improved;
        }
      }
      sweep := sweep + 1;
    }
    settled := !found || |legs| == 2;
  }
}
