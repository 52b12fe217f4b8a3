/** The size ladder that turns fills into a market's recorded depth. */
module DepthLadder {
  import opened Common
  import opened OrderBook

  const SIZES: seq<real> := [100.0, 1000.0, 5000.0, 10000.0, 25000.0, 50000.0]

  datatype SizeFill = SizeFill(sizeUsd: real, baseOut: Option<real>, avgPrice: Option<real>, filled: bool)

  function RowFor(asks: seq<Level>, sizeUsd: real, ceiling: Option<real>): SizeFill {
    match Quote(asks, sizeUsd, ceiling)
    case None => SizeFill(sizeUsd, None, None, false)
    case Some(fill) => SizeFill(sizeUsd, Some(fill.baseOut), Some(fill.avgPrice), true)
  }

  /** The last size of the list that fills, or zero. */
  function Depth(asks: seq<Level>, sizes: seq<real>, ceiling: Option<real>): real {
    if sizes == [] then 0.0
    else
      var last := sizes[|sizes| - 1];
      if Quote(asks, last, ceiling).Some? then last else Depth(asks, sizes[..|sizes| - 1], ceiling)
  }

  class Market {
    var depthUsd: real
    var quotes: seq<SizeFill>

    constructor ()
      ensures depthUsd == 0.0 && quotes == []
    {
      depthUsd, quotes := 0.0, [];
    }

    method Measure(asks: seq<Level>, ceiling: Option<real>)
      requires quotes == [] && depthUsd == 0.0
      modifies this
      ensures |quotes| == |SIZES| && forall i :: 0 <= i < |SIZES| ==> quotes[i] == RowFor(asks, SIZES[i], ceiling)
      ensures depthUsd == Depth(asks, SIZES, ceiling)
    {
      hide BaseFor;
      for k := 0 to |SIZES|
        invariant |quotes| == k && forall i :: 0 <= i < k ==> quotes[i] == RowFor(asks, SIZES[i], ceiling)
        invariant depthUsd == Depth(asks, SIZES[..k], ceiling)
      {
        assert SIZES[..k + 1][..k] == SIZES[..k];
        var sizeUsd := SIZES[k];
        var fill := FillFromAsks(asks, sizeUsd, ceiling);
        quotes := quotes + [SizeFill(sizeUsd, if fill.Some? then Some(fill.value.baseOut) else None,
                                     if fill.Some? then Some(fill.value.avgPrice) else None, fill.Some?)];
        if fill.Some? { depthUsd := sizeUsd; }
      }
      assert SIZES[..|SIZES|] == SIZES;
    }
  }

  predicate Rising(sizes: seq<real>) {
    && (forall i :: 0 <= i < |sizes| ==> sizes[i] > 0.0)
    && forall i, j :: 0 <= i < j < |sizes| ==> sizes[i] < sizes[j]
  }

  /** The ladder's sizes, and what its rows record. */
  lemma LadderIs(asks: seq<Level>, size: real, ceiling: Option<real>)
    ensures SIZES == [100.0, 1000.0, 5000.0, 10000.0, 25000.0, 50000.0] && Rising(SIZES)
    ensures var row, q := RowFor(asks, size, ceiling), Quote(asks, size, ceiling);
            && row.sizeUsd == size && (row.filled <==> q.Some?)
            && (row.baseOut.Some? <==> q.Some?) && (row.avgPrice.Some? <==> q.Some?)
            && (q.Some? ==> row.baseOut == Some(q.value.baseOut) && row.avgPrice == Some(q.value.avgPrice))
  {
    hide BaseFor;
  }

  /** On an ascending book the depth is the largest size that fills, every size up to it is
      recorded as filled and none above it, and the average prices rise along the ladder. */
  lemma {:induction false} DepthIsLargestFill(asks: seq<Level>, sizes: seq<real>, ceiling: Option<real>)
    requires Ascending(asks) && Rising(sizes)
    ensures Depth(asks, sizes, ceiling) == 0.0 || Depth(asks, sizes, ceiling) in sizes
    ensures forall i ::
        0 <= i < |sizes| ==> (RowFor(asks, sizes[i], ceiling).filled <==> sizes[i] <= Depth(asks, sizes, ceiling))
    ensures forall i, j :: 0 <= i < j < |sizes| && RowFor(asks, sizes[j], ceiling).filled ==>
              RowFor(asks, sizes[i], ceiling).avgPrice.value <= RowFor(asks, sizes[j], ceiling).avgPrice.value
    decreases |sizes|
  {
    hide BaseFor;
    forall i, j | 0 <= i < j < |sizes| && RowFor(asks, sizes[j], ceiling).filled
      ensures RowFor(asks, sizes[i], ceiling).filled
      ensures RowFor(asks, sizes[i], ceiling).avgPrice.value <= RowFor(asks, sizes[j], ceiling).avgPrice.value
    {
      SmallerFillsCheaper(asks, sizes[i], sizes[j], ceiling);
    }
    if sizes != [] {
      var n := |sizes| - 1;
      DepthIsLargestFill(asks, sizes[..n], ceiling);
      assert forall i :: 0 <= i < n ==> sizes[..n][i] == sizes[i];
    }
  }
}
