/** Pool records, and the registry's canonical order: representation, then TVL descending, by a
    stable sort. */
module PoolOrder {
  import opened Common

  type Mint = string
  type Address = string

  /** `venue:address`. */
  datatype Id = Id(venue: string, address: Address)

  /** A representation's id, by its rank in the locale order; distinct ids have distinct ranks.  An
      intermediate has an id of its own kind, made from its mint. */
  datatype RepId = Listed(rank: nat) | IntermediateOf(mint: Mint, rank: nat)

  datatype Eligibility = ROUTER_ELIGIBLE | STOCK_PAIRED_INFRASTRUCTURE | ROUTING_LEG | INTERMEDIATE_ROUTE

  datatype Lifecycle = BONDING | MIGRATING | GRADUATED | PAUSED | UNKNOWN

  datatype Successor = NOT_APPLICABLE | CONFIRMED | UNRESOLVED

  datatype Dbc = Dbc(
    configAddress: Address, lifecycle: Lifecycle, checkedAt: nat, slot: Option<nat>,
    successor: Successor, successorPool: Option<Address>, confirmedAt: Option<nat>)

  datatype Reason =
    | NoAdapter(poolType: string) | BelowFloor(tvl: Option<real>) | CensusError | FillsOnly(usd: real)
    | Blacklisted | UnknownLiquidity | NotUsdcRoute | LifecycleIs(lifecycle: Lifecycle)
    | NotSized | ForensicsOnly | VerificationFailed

  /** Which pass discovered the row. */
  datatype Origin = DUMP | LEGS | ROUTES | PRIVATE | FORENSICS

  datatype Verification = DISCOVERED | ONCHAIN_VERIFIED | VERIFICATION_FAILED

  datatype Pool = Pool(
    id: Id, representationId: RepId, mint: Mint, provider: string, address: Address, poolType: string,
    baseMint: Mint, quoteMint: Mint, tvlUsd: Option<real>, discoveredAt: nat, verifiedAt: nat,
    eligibility: Eligibility, dbc: Option<Dbc>, enabled: bool, disabledReason: Option<Reason>,
    origin: Origin, verification: Verification, onchainVerifiedAt: Option<nat>)

  // ---------- the comparator ----------

  datatype Key = Key(representation: nat, tvl: real)

  function Tvl(p: Pool): real { if p.tvlUsd.None? then 0.0 else p.tvlUsd.value }

  function KeyOf(p: Pool): Key { Key(p.representationId.rank, Tvl(p)) }

  /** The comparator is negative. */
  predicate Less(a: Key, b: Key) {
    if a.representation == b.representation then b.tvl - a.tvl < 0.0 else a.representation < b.representation
  }

  predicate Sorted(pools: seq<Pool>) {
    forall i, j :: 0 <= i < j < |pools| ==> !Less(KeyOf(pools[j]), KeyOf(pools[i]))
  }

  /** In order means: by representation, and within one by value held, the largest first, an unknown value
      counting as none. */
  lemma SortedIff(pools: seq<Pool>)
    ensures Sorted(pools) <==> forall i, j :: 0 <= i < j < |pools| ==>
              var p, q := pools[i], pools[j];
              || p.representationId.rank < q.representationId.rank
              || (p.representationId.rank == q.representationId.rank &&
                  (match p.tvlUsd case Some(x) => x case None => 0.0) >=
                  (match q.tvlUsd case Some(x) => x case None => 0.0))
  {
  }

  // ---------- a stable sort ----------

  function Insert(pools: seq<Pool>, p: Pool): (r: seq<Pool>)
    ensures |r| == |pools| + 1
    ensures forall x :: x in r <==> x in pools || x == p
  {
    if pools == [] then [p]
    else
      var n := |pools| - 1;
      assert pools == pools[..n] + [pools[n]];
      if Less(KeyOf(p), KeyOf(pools[n])) then Insert(pools[..n], p) + [pools[n]] else pools + [p]
  }

  function Sort(pools: seq<Pool>): (r: seq<Pool>)
    ensures |r| == |pools|
    ensures forall x :: x in r <==> x in pools
  {
    if pools == [] then []
    else
      var n := |pools| - 1;
      assert pools == pools[..n] + [pools[n]];
      Insert(Sort(pools[..n]), pools[n])
  }

  /** The rows with one key, in their order. */
  function Class(pools: seq<Pool>, k: Key): seq<Pool> {
    if pools == [] then []
    else
      var n := |pools| - 1;
      if KeyOf(pools[n]) == k then Class(pools[..n], k) + [pools[n]] else Class(pools[..n], k)
  }

  lemma {:induction false} InClass(pools: seq<Pool>, k: Key, p: Pool)
    ensures p in Class(pools, k) <==> p in pools && KeyOf(p) == k
    decreases |pools|
  {
    if pools != [] {
      var n := |pools| - 1;
      InClass(pools[..n], k, p);
      assert pools == pools[..n] + [pools[n]];
    }
  }

  lemma {:induction false} ClassConcat(xs: seq<Pool>, ys: seq<Pool>, k: Key)
    ensures Class(xs + ys, k) == Class(xs, k) + Class(ys, k)
    decreases |ys|
  {
    if ys == [] {
      assert xs + ys == xs;
    } else {
      var n := |ys| - 1;
      assert (xs + ys)[..|xs + ys| - 1] == xs + ys[..n];
      ClassConcat(xs, ys[..n], k);
    }
  }

  lemma {:induction false} InsertSorted(pools: seq<Pool>, p: Pool)
    requires Sorted(pools)
    ensures Sorted(Insert(pools, p))
    decreases |pools|
  {
    if pools != [] {
      var n := |pools| - 1;
      InsertSorted(pools[..n], p);
      var front := Insert(pools[..n], p);
      forall i | 0 <= i < |front| ensures !Less(KeyOf(pools[n]), KeyOf(front[i])) || !Less(KeyOf(p), KeyOf(pools[n])) {
        assert front[i] in pools[..n] || front[i] == p;
      }
    }
  }

  lemma ClassSnoc(pools: seq<Pool>, p: Pool, k: Key)
    ensures Class(pools + [p], k) == if KeyOf(p) == k then Class(pools, k) + [p] else Class(pools, k)
  {
  }

  lemma {:induction false} InsertClass(pools: seq<Pool>, p: Pool, k: Key)
    ensures Class(Insert(pools, p), k) == Class(pools + [p], k)
    decreases |pools|
  {
    if pools != [] {
      var n := |pools| - 1;
      var front, last := pools[..n], pools[n];
      if Less(KeyOf(p), KeyOf(last)) {
        InsertClass(front, p, k);
        assert pools == front + [last];
        ClassSnoc(Insert(front, p), last, k);
        ClassSnoc(front, p, k);
        ClassSnoc(front, last, k);
        ClassSnoc(pools, p, k);
      }
    }
  }

  lemma {:induction false} SortSorts(pools: seq<Pool>)
    ensures Sorted(Sort(pools))
    decreases |pools|
  {
    if pools != [] {
      SortSorts(pools[..|pools| - 1]);
      InsertSorted(Sort(pools[..|pools| - 1]), pools[|pools| - 1]);
    }
  }

  /** The sort is stable: rows with equal keys keep their order. */
  lemma {:induction false} SortIsStable(pools: seq<Pool>, k: Key)
    ensures Class(Sort(pools), k) == Class(pools, k)
    decreases |pools|
  {
    if pools != [] {
      var n := |pools| - 1;
      var front := pools[..n];
      SortIsStable(front, k);
      InsertClass(Sort(front), pools[n], k);
      ClassSnoc(Sort(front), pools[n], k);
      ClassSnoc(front, pools[n], k);
      assert pools == front + [pools[n]];
    }
  }

  lemma ClassCons(pools: seq<Pool>, k: Key)
    requires pools != []
    ensures Class(pools, k) == (if KeyOf(pools[0]) == k then [pools[0]] else []) + Class(pools[1..], k)
  {
    assert pools == [pools[0]] + pools[1..];
    ClassConcat([pools[0]], pools[1..], k);
    ClassSnoc([], pools[0], k);
    assert [] + [pools[0]] == [pools[0]];
  }

  ghost predicate SameClasses(xs: seq<Pool>, ys: seq<Pool>) {
    forall k :: Class(xs, k) == Class(ys, k)
  }

  lemma Shared(xs: seq<Pool>, ys: seq<Pool>, p: Pool)
    requires SameClasses(xs, ys) && p in xs
    ensures p in ys
  {
    var k := KeyOf(p);
    InClass(xs, k, p);
    InClass(ys, k, p);
    assert Class(xs, k) == Class(ys, k);
  }

  lemma FirstIsLeast(xs: seq<Pool>, p: Pool)
    requires Sorted(xs) && p in xs
    ensures !Less(KeyOf(p), KeyOf(xs[0]))
  {
  }

  lemma SameFirst(xs: seq<Pool>, ys: seq<Pool>)
    requires Sorted(xs) && Sorted(ys) && SameClasses(xs, ys) && xs != [] && ys != []
    ensures xs[0] == ys[0]
  {
    Shared(xs, ys, xs[0]);
    Shared(ys, xs, ys[0]);
    FirstIsLeast(ys, xs[0]);
    FirstIsLeast(xs, ys[0]);
    var k := KeyOf(xs[0]);
    ClassCons(xs, k);
    ClassCons(ys, k);
    assert Class(xs, k)[0] == xs[0] && Class(ys, k)[0] == ys[0];
  }

  lemma SameRest(xs: seq<Pool>, ys: seq<Pool>)
    requires SameClasses(xs, ys) && xs != [] && ys != [] && xs[0] == ys[0]
    ensures SameClasses(xs[1..], ys[1..])
  {
    forall k ensures Class(xs[1..], k) == Class(ys[1..], k) {
      ClassCons(xs, k);
      ClassCons(ys, k);
      var head := if KeyOf(xs[0]) == k then [xs[0]] else [];
      assert Class(xs, k)[|head|..] == Class(xs[1..], k) && Class(ys, k)[|head|..] == Class(ys[1..], k);
    }
  }

  /** A sorted list is fixed by its classes. */
  lemma {:induction false} SortedIsUnique(xs: seq<Pool>, ys: seq<Pool>)
    requires Sorted(xs) && Sorted(ys) && SameClasses(xs, ys)
    ensures xs == ys
    decreases |xs|
  {
    hide Class, Less;
    if xs != [] {
      Shared(xs, ys, xs[0]);
      SameFirst(xs, ys);
      SameRest(xs, ys);
      SortedIsUnique(xs[1..], ys[1..]);
      assert xs == [xs[0]] + xs[1..] && ys == [ys[0]] + ys[1..];
    } else if ys != [] {
      Shared(ys, xs, ys[0]);
    }
  }

  /** Sorting the tail of a list first makes no difference. */
  lemma SortAfterSorting(xs: seq<Pool>, ys: seq<Pool>)
    ensures Sort(xs + Sort(ys)) == Sort(xs + ys)
  {
    SortSorts(xs + Sort(ys));
    SortSorts(xs + ys);
    forall k ensures Class(Sort(xs + Sort(ys)), k) == Class(Sort(xs + ys), k) {
      SortIsStable(xs + Sort(ys), k);
      SortIsStable(xs + ys, k);
      SortIsStable(ys, k);
      ClassConcat(xs, Sort(ys), k);
      ClassConcat(xs, ys, k);
    }
    SortedIsUnique(Sort(xs + Sort(ys)), Sort(xs + ys));
  }

  /** Appending keeps the order exactly when both parts are in order and so is the seam. */
  lemma AppendSortedIff(xs: seq<Pool>, ys: seq<Pool>)
    ensures Sorted(xs + ys) <==>
              && Sorted(xs) && Sorted(ys)
              && (xs == [] || ys == [] || !Less(KeyOf(ys[0]), KeyOf(xs[|xs| - 1])))
  {
    var all, n := xs + ys, |xs|;
    if Sorted(all) {
      forall i, j | 0 <= i < j < |xs| ensures !Less(KeyOf(xs[j]), KeyOf(xs[i])) {
        assert all[i] == xs[i] && all[j] == xs[j];
      }
      forall i, j | 0 <= i < j < |ys| ensures !Less(KeyOf(ys[j]), KeyOf(ys[i])) {
        assert all[n + i] == ys[i] && all[n + j] == ys[j];
      }
      if xs != [] && ys != [] {
        assert all[n - 1] == xs[n - 1] && all[n] == ys[0];
      }
    }
  }

  lemma SameKeysSameOrder(xs: seq<Pool>, ys: seq<Pool>)
    requires |xs| == |ys| && forall i :: 0 <= i < |xs| ==> KeyOf(ys[i]) == KeyOf(xs[i])
    ensures Sorted(ys) <==> Sorted(xs)
  {
    hide Less;
  }

  // ---------- filters ----------

  function Filter(pools: seq<Pool>, keep: Pool -> bool): seq<Pool> {
    if pools == [] then []
    else
      var n := |pools| - 1;
      if keep(pools[n]) then Filter(pools[..n], keep) + [pools[n]] else Filter(pools[..n], keep)
  }

  lemma {:induction false} InFilter(pools: seq<Pool>, keep: Pool -> bool, p: Pool)
    ensures p in Filter(pools, keep) <==> p in pools && keep(p)
    decreases |pools|
  {
    if pools != [] {
      var n := |pools| - 1;
      InFilter(pools[..n], keep, p);
      assert pools == pools[..n] + [pools[n]];
    }
  }

  lemma {:induction false} FilterConcat(xs: seq<Pool>, ys: seq<Pool>, keep: Pool -> bool)
    ensures Filter(xs + ys, keep) == Filter(xs, keep) + Filter(ys, keep)
    decreases |ys|
  {
    if ys == [] {
      assert xs + ys == xs;
    } else {
      var n := |ys| - 1;
      assert (xs + ys)[..|xs + ys| - 1] == xs + ys[..n];
      FilterConcat(xs, ys[..n], keep);
    }
  }

  lemma {:induction false} FilterAll(pools: seq<Pool>, keep: Pool -> bool)
    requires forall p :: p in pools ==> keep(p)
    ensures Filter(pools, keep) == pools
    decreases |pools|
  {
    if pools != [] {
      FilterAll(pools[..|pools| - 1], keep);
      assert pools == pools[..|pools| - 1] + [pools[|pools| - 1]];
    }
  }

  lemma {:induction false} FilterNone(pools: seq<Pool>, keep: Pool -> bool)
    requires forall p :: p in pools ==> !keep(p)
    ensures Filter(pools, keep) == []
    decreases |pools|
  {
    if pools != [] {
      FilterNone(pools[..|pools| - 1], keep);
    }
  }

  lemma {:induction false} FilterKeepsSorted(pools: seq<Pool>, keep: Pool -> bool)
    requires Sorted(pools)
    ensures Sorted(Filter(pools, keep))
    decreases |pools|
  {
    hide Less;
    if pools != [] {
      var n := |pools| - 1;
      FilterKeepsSorted(pools[..n], keep);
      forall p | p in Filter(pools[..n], keep) ensures !Less(KeyOf(pools[n]), KeyOf(p)) {
        InFilter(pools[..n], keep, p);
      }
    }
  }

  lemma FilterSnoc(pools: seq<Pool>, p: Pool, keep: Pool -> bool)
    ensures Filter(pools + [p], keep) == if keep(p) then Filter(pools, keep) + [p] else Filter(pools, keep)
  {
  }

  lemma {:induction false} FilterOfClass(pools: seq<Pool>, keep: Pool -> bool, k: Key)
    ensures Class(Filter(pools, keep), k) == Filter(Class(pools, k), keep)
    decreases |pools|
  {
    if pools != [] {
      var n := |pools| - 1;
      FilterOfClass(pools[..n], keep, k);
      ClassSnoc(Filter(pools[..n], keep), pools[n], k);
      FilterSnoc(Class(pools[..n], k), pools[n], keep);
    }
  }

  /** Filtering a sorted list is sorting the filtered list. */
  lemma FilterOfSort(pools: seq<Pool>, keep: Pool -> bool)
    ensures Filter(Sort(pools), keep) == Sort(Filter(pools, keep))
  {
    SortSorts(pools);
    FilterKeepsSorted(Sort(pools), keep);
    SortSorts(Filter(pools, keep));
    forall k ensures Class(Filter(Sort(pools), keep), k) == Class(Sort(Filter(pools, keep)), k) {
      FilterOfClass(Sort(pools), keep, k);
      SortIsStable(pools, k);
      FilterOfClass(pools, keep, k);
      SortIsStable(Filter(pools, keep), k);
    }
    SortedIsUnique(Filter(Sort(pools), keep), Sort(Filter(pools, keep)));
  }
}
