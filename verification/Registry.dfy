/** The pool registry file: what the loader demands of it and what every writer keeps. */
module Registry {
  import opened Common
  import opened PoolOrder

  const USDC: Mint := "EPjFWdd5AufqSSqeM2qN1xzybapC8G4wEGGkZwyTDt1v"
  const MIN_TVL_USD: real := 1000.0

  /** Unordered: exactly the mint and USDC. */
  predicate ExactPair(a: Mint, b: Mint, mint: Mint) {
    (a == mint && b == USDC) || (a == USDC && b == mint)
  }

  // ---------- what the loader demands ----------

  predicate UsdcPair(p: Pool) { p.baseMint == USDC || p.quoteMint == USDC }

  /** The mint of the pair that is not the row's own. */
  function Counter(p: Pool): Mint { if p.baseMint == p.mint then p.quoteMint else p.baseMint }

  predicate OwnIntermediateId(p: Pool) { p.representationId.IntermediateOf? && p.representationId.mint == p.mint }

  /** The pair, and the eligibility it allows. */
  predicate PairLoads(qualified: set<Mint>, p: Pool) {
    && p.baseMint != p.quoteMint && (p.mint == p.baseMint || p.mint == p.quoteMint) && p.mint != USDC
    && (p.eligibility == ROUTER_ELIGIBLE ==> UsdcPair(p))
    && (p.eligibility == INTERMEDIATE_ROUTE ==> UsdcPair(p) && p.mint in qualified)
    && (p.eligibility == INTERMEDIATE_ROUTE <==> OwnIntermediateId(p))
    && (p.eligibility == ROUTING_LEG ==> !UsdcPair(p) && Counter(p) in qualified)
    && (p.eligibility == STOCK_PAIRED_INFRASTRUCTURE ==> !UsdcPair(p) && !p.enabled)
  }

  predicate SuccessorLoads(lifecycle: Lifecycle, successor: Successor, successorPool: Option<Address>) {
    && (successor == CONFIRMED <==> successorPool.Some?)
    && (lifecycle == GRADUATED ==> successor != NOT_APPLICABLE)
  }

  predicate DbcLoads(p: Pool) {
    && (p.poolType == "dbc" <==> p.dbc.Some?)
    && (p.dbc.Some? ==>
          && SuccessorLoads(p.dbc.value.lifecycle, p.dbc.value.successor, p.dbc.value.successorPool)
          && (p.dbc.value.lifecycle != BONDING ==> !p.enabled))
  }

  /** A row that failed its verification is enabled. */
  predicate Refused(p: Pool) { p.verification == VERIFICATION_FAILED && p.enabled }

  /** Everything the loader demands of a row but that it is not refused. */
  predicate Held(qualified: set<Mint>, p: Pool) {
    && PairLoads(qualified, p) && DbcLoads(p)
    && (p.enabled <==> p.disabledReason.None?)
    && (p.verification == ONCHAIN_VERIFIED <==> p.onchainVerifiedAt.Some?)
  }

  predicate Loads(qualified: set<Mint>, p: Pool) { Held(qualified, p) && !Refused(p) }

  /** An eligible row is exactly its mint and USDC. */
  lemma EligibleIsExactPair(qualified: set<Mint>, p: Pool)
    requires Held(qualified, p) && p.eligibility == ROUTER_ELIGIBLE
    ensures ExactPair(p.baseMint, p.quoteMint, p.mint)
  {
  }

  /** What the loader finds wrong with a row. */
  datatype Problem =
    | SAME_MINTS | NOT_ITS_PAIR | MINT_IS_USDC | ELIGIBLE_WITHOUT_USDC | INTERMEDIATE_WITHOUT_USDC
    | INTERMEDIATE_NOT_QUALIFIED | INTERMEDIATE_ID_MISSING | INTERMEDIATE_ID_TAKEN | LEG_WITH_USDC | LEG_NOT_QUALIFIED
    | INFRASTRUCTURE_WITH_USDC | INFRASTRUCTURE_ENABLED | DBC_MISSING | DBC_UNEXPECTED | SUCCESSOR_MISSING
    | SUCCESSOR_UNEXPECTED | SUCCESSOR_UNRESOLVED | CURVE_ENABLED | ENABLED_WITH_REASON | DISABLED_WITHOUT_REASON
    | VERIFIED_WITHOUT_TIME | UNVERIFIED_WITH_TIME | FAILED_ENABLED

  /** The tests of a row, one by one: of its pair, of its curve, and of its state. */
  method ValidatePool(qualified: set<Mint>, pool: Pool) returns (problems: seq<Problem>)
    ensures problems == [] <==> Loads(qualified, pool)
    ensures FAILED_ENABLED in problems <==> Refused(pool)
  {
    hide PairLoads, DbcLoads;
    problems := PairProblems(qualified, pool);
    var more := CurveProblems(pool);
    problems := problems + more;
    more := StateProblems(pool);
    problems := problems + more;
  }

  method PairProblems(qualified: set<Mint>, pool: Pool) returns (problems: seq<Problem>)
    ensures problems == [] <==> PairLoads(qualified, pool)
    ensures FAILED_ENABLED !in problems
  {
    problems := [];
    var pair := {pool.baseMint, pool.quoteMint};
    if pool.baseMint == pool.quoteMint { problems := problems + [SAME_MINTS]; }
    if pool.mint !in pair { problems := problems + [NOT_ITS_PAIR]; }
    if pool.mint == USDC { problems := problems + [MINT_IS_USDC]; }
    var usdcPair := USDC in pair;
    var routingAsset := exists m :: m in pair && m != pool.mint && m in qualified;
    if pool.eligibility == ROUTER_ELIGIBLE && !usdcPair { problems := problems + [ELIGIBLE_WITHOUT_USDC]; }
    if pool.eligibility == INTERMEDIATE_ROUTE {
      if !usdcPair { problems := problems + [INTERMEDIATE_WITHOUT_USDC]; }
      if pool.mint !in qualified { problems := problems + [INTERMEDIATE_NOT_QUALIFIED]; }
      if !OwnIntermediateId(pool) { problems := problems + [INTERMEDIATE_ID_MISSING]; }
    } else if OwnIntermediateId(pool) { problems := problems + [INTERMEDIATE_ID_TAKEN]; }
    if pool.eligibility == ROUTING_LEG && usdcPair { problems := problems + [LEG_WITH_USDC]; }
    if pool.eligibility == ROUTING_LEG && !routingAsset { problems := problems + [LEG_NOT_QUALIFIED]; }
    if pool.eligibility == STOCK_PAIRED_INFRASTRUCTURE && usdcPair {
      problems := problems + [INFRASTRUCTURE_WITH_USDC];
    }
    if pool.eligibility == STOCK_PAIRED_INFRASTRUCTURE && pool.enabled {
      problems := problems + [INFRASTRUCTURE_ENABLED];
    }
  }

  method StateProblems(pool: Pool) returns (problems: seq<Problem>)
    ensures problems == [] <==>
              && (pool.enabled <==> pool.disabledReason.None?)
              && (pool.verification == ONCHAIN_VERIFIED <==> pool.onchainVerifiedAt.Some?) && !Refused(pool)
    ensures FAILED_ENABLED in problems <==> Refused(pool)
  {
    problems := [];
    if pool.enabled && pool.disabledReason.Some? { problems := problems + [ENABLED_WITH_REASON]; }
    if !pool.enabled && pool.disabledReason.None? { problems := problems + [DISABLED_WITHOUT_REASON]; }
    if pool.verification == ONCHAIN_VERIFIED && pool.onchainVerifiedAt.None? {
      problems := problems + [VERIFIED_WITHOUT_TIME];
    }
    if pool.verification != ONCHAIN_VERIFIED && pool.onchainVerifiedAt.Some? {
      problems := problems + [UNVERIFIED_WITH_TIME];
    }
    if pool.verification == VERIFICATION_FAILED && pool.enabled { problems := problems + [FAILED_ENABLED]; }
  }

  method CurveProblems(pool: Pool) returns (problems: seq<Problem>)
    ensures problems == [] <==> DbcLoads(pool)
    ensures FAILED_ENABLED !in problems
  {
    problems := [];
    if pool.poolType == "dbc" && pool.dbc.None? { problems := problems + [DBC_MISSING]; }
    if pool.poolType != "dbc" && pool.dbc.Some? { problems := problems + [DBC_UNEXPECTED]; }
    if pool.dbc.Some? {
      var dbc := pool.dbc.value;
      if dbc.successor == CONFIRMED && dbc.successorPool.None? { problems := problems + [SUCCESSOR_MISSING]; }
      if dbc.successor != CONFIRMED && dbc.successorPool.Some? { problems := problems + [SUCCESSOR_UNEXPECTED]; }
      if dbc.lifecycle == GRADUATED && dbc.successor == NOT_APPLICABLE {
        problems := problems + [SUCCESSOR_UNRESOLVED];
      }
      if dbc.lifecycle != BONDING && pool.enabled { problems := problems + [CURVE_ENABLED]; }
    }
  }

  predicate Distinct(pools: seq<Pool>) {
    forall i, j :: 0 <= i < j < |pools| ==> pools[i].address != pools[j].address
  }

  predicate Loadable(qualified: set<Mint>, pools: seq<Pool>) {
    Distinct(pools) && forall p :: p in pools ==> Loads(qualified, p)
  }

  /** Every row, and nothing else, is found by its address. */
  predicate Indexes(index: map<Address, Pool>, entries: seq<Pool>) {
    && (forall address :: address in index ==> index[address] in entries && index[address].address == address)
    && forall p :: p in entries ==> p.address in index && index[p.address] == p
  }

  lemma IndexMore(index: map<Address, Pool>, entries: seq<Pool>, pool: Pool)
    requires Indexes(index, entries)
    ensures NewAddress(entries, pool) <==> pool.address !in index
    ensures NewAddress(entries, pool) ==> Indexes(index[pool.address := pool], entries + [pool])
  {
  }

  lemma LoadableMore(qualified: set<Mint>, entries: seq<Pool>, pool: Pool)
    ensures Loadable(qualified, entries + [pool]) <==>
              Loadable(qualified, entries) && Loads(qualified, pool) && NewAddress(entries, pool)
  {
    hide Loads;
    LastIsNew(entries, pool);
  }

  lemma PrefixLoads(qualified: set<Mint>, entries: seq<Pool>, n: nat)
    requires n <= |entries| && Loadable(qualified, entries)
    ensures Loadable(qualified, entries[..n])
  {
    hide Loads;
  }

  /** The loader: `None` is a thrown error. */
  method BuildPoolRegistry(qualified: set<Mint>, entries: seq<Pool>) returns (byAddress: Option<map<Address, Pool>>)
    ensures byAddress.Some? <==> Loadable(qualified, entries)
    ensures byAddress.Some? ==> forall p ::
        p in entries <==> p.address in byAddress.value && byAddress.value[p.address] == p
  {
    hide Loads, Loadable, Indexes, NewAddress;
    var index: map<Address, Pool> := map[];
    NothingLoads(qualified);
    for k := 0 to |entries|
      invariant Loadable(qualified, entries[..k]) && Indexes(index, entries[..k])
    {
      var pool := entries[k];
      assert entries[..k + 1] == entries[..k] + [pool];
      IndexMore(index, entries[..k], pool);
      LoadableMore(qualified, entries[..k], pool);
      var problems := ValidatePool(qualified, pool);
      if problems != [] || pool.address in index {
        if Loadable(qualified, entries) {
          PrefixLoads(qualified, entries, k + 1);
          assert false;
        }
        return None;
      }
      index := index[pool.address := pool];
    }
    assert entries[..|entries|] == entries;
    IndexFinds(index, entries);
    return Some(index);
  }

  lemma NothingLoads(qualified: set<Mint>)
    ensures Loadable(qualified, []) && Indexes(map[], [])
  {
  }

  lemma IndexFinds(index: map<Address, Pool>, entries: seq<Pool>)
    requires Indexes(index, entries)
    ensures forall p :: p in entries <==> p.address in index && index[p.address] == p
  {
  }

  // ---------- what every writer keeps ----------

  /** The venue of each address, and the qualified intermediates. */
  datatype Env = Env(home: Address -> string, qualified: set<Mint>)

  /** A row as some writer leaves it: its id is its venue and address, and a row known from
      forensics alone is not enabled. */
  predicate RowOk(env: Env, p: Pool) {
    && Held(env.qualified, p)
    && p.id == Id(env.home(p.address), p.address)
    && (p.origin == FORENSICS ==> !p.enabled && p.dbc.None?)
  }

  predicate AllOk(env: Env, pools: seq<Pool>) { forall p :: p in pools ==> RowOk(env, p) }

  /** The file between two writers, in whatever order. */
  predicate Kept(env: Env, pools: seq<Pool>) { Distinct(pools) && AllOk(env, pools) }

  predicate NoneRefused(pools: seq<Pool>) { forall p :: p in pools ==> !Refused(p) }

  /** What a writer leaves loads exactly when no failed row in it is enabled. */
  lemma KeptLoadsIff(env: Env, pools: seq<Pool>)
    requires Kept(env, pools)
    ensures Loadable(env.qualified, pools) <==> NoneRefused(pools)
  {
  }

  predicate UniqueIds(pools: seq<Pool>) {
    forall i, j :: 0 <= i < j < |pools| ==> pools[i].id != pools[j].id
  }

  lemma IdsAreUnique(env: Env, pools: seq<Pool>)
    requires Kept(env, pools)
    ensures UniqueIds(pools)
  {
    forall i, j | 0 <= i < j < |pools| ensures pools[i].id != pools[j].id {
      assert RowOk(env, pools[i]) && RowOk(env, pools[j]);
    }
  }

  predicate NewAddress(pools: seq<Pool>, p: Pool) {
    forall q :: q in pools ==> q.address != p.address
  }

  function Addresses(pools: seq<Pool>): set<Address> { set p | p in pools :: p.address }

  lemma AddressesSnoc(rows: seq<Pool>, p: Pool)
    ensures Addresses(rows + [p]) == Addresses(rows) + {p.address}
  {
  }

  lemma AddressesConcat(xs: seq<Pool>, ys: seq<Pool>)
    ensures Addresses(xs + ys) == Addresses(xs) + Addresses(ys)
  {
  }

  lemma {:induction false} InsertDistinct(pools: seq<Pool>, p: Pool)
    requires Distinct(pools) && NewAddress(pools, p)
    ensures Distinct(Insert(pools, p))
    decreases |pools|
  {
    if pools != [] {
      var n := |pools| - 1;
      var front := pools[..n];
      InsertDistinct(front, p);
      forall i | 0 <= i < |Insert(front, p)|
        ensures Insert(front, p)[i].address != pools[n].address || !Less(KeyOf(p), KeyOf(pools[n]))
      {
        assert Insert(front, p)[i] in Insert(front, p);
      }
    }
  }

  lemma {:induction false} SortDistinct(pools: seq<Pool>)
    requires Distinct(pools)
    ensures Distinct(Sort(pools))
    decreases |pools|
  {
    if pools != [] {
      var n := |pools| - 1;
      SortDistinct(pools[..n]);
      InsertDistinct(Sort(pools[..n]), pools[n]);
    }
  }

  lemma SortKeeps(env: Env, pools: seq<Pool>)
    requires Kept(env, pools)
    ensures Kept(env, Sort(pools)) && Sorted(Sort(pools))
  {
    SortSorts(pools);
    SortDistinct(pools);
  }

  lemma DistinctTogether(xs: seq<Pool>, ys: seq<Pool>)
    requires Distinct(xs) && Distinct(ys) && forall x, y :: x in xs && y in ys ==> x.address != y.address
    ensures Distinct(xs + ys)
  {
  }

  /** One more row keeps addresses distinct exactly when its own is new. */
  lemma LastIsNew(front: seq<Pool>, row: Pool)
    ensures Distinct(front + [row]) <==> Distinct(front) && NewAddress(front, row)
  {
    var rows := front + [row];
    if Distinct(rows) {
      forall i, j | 0 <= i < j < |front| ensures front[i].address != front[j].address {
        assert rows[i] == front[i] && rows[j] == front[j];
      }
      forall q | q in front ensures q.address != row.address {
        var i :| 0 <= i < |front| && front[i] == q;
        assert rows[i] == q && rows[|front|] == row;
      }
    }
  }

  lemma {:induction false} FilterDistinct(pools: seq<Pool>, keep: Pool -> bool)
    requires Distinct(pools)
    ensures Distinct(Filter(pools, keep))
    decreases |pools|
  {
    if pools != [] {
      var n := |pools| - 1;
      FilterDistinct(pools[..n], keep);
      forall p | p in Filter(pools[..n], keep) ensures p.address != pools[n].address {
        InFilter(pools[..n], keep, p);
      }
    }
  }
}
