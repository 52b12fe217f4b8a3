/** The writers that replace rows: private-market pools, upserted by address, and the refresh of
    bonding-curve rows in place. */
module RegistryUpserts {
  import opened Common
  import opened PoolOrder
  import opened Registry

  // ---------- an ordered dictionary keyed by address ----------

  function IndexOf(pools: seq<Pool>, address: Address): (i: nat)
    ensures i <= |pools|
    ensures i < |pools| ==> pools[i].address == address
    ensures forall j :: 0 <= j < i ==> pools[j].address != address
  {
    if pools == [] || pools[0].address == address then 0 else 1 + IndexOf(pools[1..], address)
  }

  /** `set` of an ordered dictionary. */
  function Upsert(pools: seq<Pool>, p: Pool): (r: seq<Pool>)
    ensures p in r && |r| <= |pools| + 1
    ensures forall x :: x in r ==> x == p || x in pools
    ensures forall x :: x in pools && x.address != p.address ==> x in r
  {
    var i := IndexOf(pools, p.address);
    if i < |pools| then
      assert pools[i := p][i] == p;
      assert forall j :: 0 <= j < |pools| && j != i ==> pools[i := p][j] == pools[j];
      pools[i := p]
    else pools + [p]
  }

  /** A key keeps its place when its value changes, and a new key goes last. */
  lemma UpsertInPlace(pools: seq<Pool>, p: Pool)
    ensures var r := Upsert(pools, p);
            && |r| == |pools| + (if NewAddress(pools, p) then 1 else 0)
            && (forall j :: 0 <= j < |pools| ==> r[j].address == pools[j].address)
            && (forall j :: 0 <= j < |pools| && pools[j].address != p.address ==> r[j] == pools[j])
            && (NewAddress(pools, p) ==> r[|pools|] == p)
  {
    assert forall j :: 0 <= j < |pools| ==> pools[j] in pools;
  }

  lemma UpsertDistinct(pools: seq<Pool>, p: Pool)
    requires Distinct(pools)
    ensures Distinct(Upsert(pools, p))
  {
  }

  lemma UpsertNew(pools: seq<Pool>, p: Pool)
    requires NewAddress(pools, p)
    ensures Upsert(pools, p) == pools + [p]
  {
  }

  /** The dictionary of a list of rows. */
  function FromRows(pools: seq<Pool>): seq<Pool> {
    if pools == [] then [] else Upsert(FromRows(pools[..|pools| - 1]), pools[|pools| - 1])
  }

  lemma {:induction false} FromDistinctRows(pools: seq<Pool>)
    requires Distinct(pools)
    ensures FromRows(pools) == pools
    decreases |pools|
  {
    hide Upsert;
    if pools != [] {
      var front, last := pools[..|pools| - 1], pools[|pools| - 1];
      FromDistinctRows(front);
      UpsertNew(front, last);
      assert pools == front + [last];
    }
  }

  // ---------- private markets ----------

  datatype Meta = Meta(x: Mint, y: Mint, blacklisted: bool, tvl: Option<real>)

  /** A pool the program scan found; nothing when the data API does not know it. */
  datatype Scanned = Scanned(address: Address, meta: Option<Meta>)

  /** A private product and its scan; nothing when the scan failed. */
  datatype Product = Product(mint: Mint, representationId: RepId, provider: string, scan: Option<seq<Scanned>>)

  /** The other mint of the pair, or nothing when both are the product's. */
  function Other(product: Product, meta: Meta): Option<Mint> {
    if meta.x != product.mint then Some(meta.x) else if meta.y != product.mint then Some(meta.y) else None
  }

  /** Only a pair of the product with USDC or a qualified intermediate reaches the registry. */
  predicate Routable(qualified: set<Mint>, product: Product, meta: Meta) {
    && !meta.blacklisted && (product.mint == meta.x || product.mint == meta.y)
    && Other(product, meta).Some? && (Other(product, meta).value == USDC || Other(product, meta).value in qualified)
  }

  function PrivateRow(now: nat, previous: Option<Pool>, product: Product, address: Address, meta: Meta): Pool {
    var shallow := meta.tvl.None? || meta.tvl.value < MIN_TVL_USD;
    Pool(Id("meteora", address), product.representationId, product.mint, product.provider, address, "dlmm",
         meta.x, meta.y, meta.tvl,
         if previous.Some? then previous.value.discoveredAt else now, now,
         if Other(product, meta) == Some(USDC) then ROUTER_ELIGIBLE else ROUTING_LEG, None,
         !shallow, if shallow then Some(BelowFloor(meta.tvl)) else None, PRIVATE, DISCOVERED, None)
  }

  /** Products are not USDC and have representation ids of their own kind. */
  predicate ProductOk(product: Product) { product.mint != USDC && product.representationId.Listed? }

  lemma PrivateRowIsOk(env: Env, now: nat, previous: Option<Pool>, product: Product, address: Address, meta: Meta)
    requires Routable(env.qualified, product, meta) && ProductOk(product) && env.home(address) == "meteora"
    ensures var row := PrivateRow(now, previous, product, address, meta);
            && RowOk(env, row) && row.verification == DISCOVERED
            && (row.eligibility == ROUTER_ELIGIBLE <==> ExactPair(meta.x, meta.y, product.mint))
            && (row.enabled <==> meta.tvl.Some? && meta.tvl.value >= MIN_TVL_USD)
            && row.discoveredAt == (if previous.Some? then previous.value.discoveredAt else now) &&
                row.verifiedAt == now
  {
  }

  /** Exactly which pools of a product reach the registry, and what their rows say. */
  lemma RoutableIff(qualified: set<Mint>, now: nat, previous: Option<Pool>, product: Product, address: Address,
      meta: Meta)
    ensures Routable(qualified, product, meta) <==>
              && !meta.blacklisted
              && ((meta.x == product.mint && meta.y != product.mint && meta.y in qualified + {USDC})
                  || (meta.y == product.mint && meta.x != product.mint && meta.x in qualified + {USDC}))
    ensures Routable(qualified, product, meta) ==>
              var p := PrivateRow(now, previous, product, address, meta);
              && p.id == Id("meteora", address) && p.address == address && p.mint == product.mint
              && p.representationId == product.representationId && p.provider == product.provider
              && p.poolType == "dlmm" && p.baseMint == meta.x && p.quoteMint == meta.y && p.tvlUsd == meta.tvl
              && p.dbc.None? && p.onchainVerifiedAt.None?
              && p.eligibility == (if USDC in {meta.x, meta.y} && product.mint != USDC then ROUTER_ELIGIBLE
                                   else if product.mint == USDC then p.eligibility else ROUTING_LEG)
              && p.disabledReason == if meta.tvl.Some? && meta.tvl.value >= 1000.0 then None
                                     else Some(BelowFloor(meta.tvl))
  {
  }

  function Lookup(pools: seq<Pool>, address: Address): Option<Pool> {
    var i := IndexOf(pools, address);
    if i < |pools| then Some(pools[i]) else None
  }

  function Scan(qualified: set<Mint>, now: nat, pools: seq<Pool>, product: Product, scan: seq<Scanned>): seq<Pool> {
    if scan == [] then pools
    else
      var n := |scan| - 1;
      var front, s := Scan(qualified, now, pools, product, scan[..n]), scan[n];
      if s.meta.None? || !Routable(qualified, product, s.meta.value) then front
      else Upsert(front, PrivateRow(now, Lookup(front, s.address), product, s.address, s.meta.value))
  }

  function ScanAll(qualified: set<Mint>, now: nat, pools: seq<Pool>, products: seq<Product>): seq<Pool> {
    if products == [] then pools
    else
      var n := |products| - 1;
      var front := ScanAll(qualified, now, pools, products[..n]);
      if products[n].scan.None? then front else Scan(qualified, now, front, products[n], products[n].scan.value)
  }

  function PrivateWritten(qualified: set<Mint>, now: nat, registry: seq<Pool>, products: seq<Product>): seq<Pool> {
    Sort(ScanAll(qualified, now, FromRows(registry), products))
  }

  method DiscoverPrivate(qualified: set<Mint>, now: nat, registry: seq<Pool>,
      products: seq<Product>) returns (sorted: seq<Pool>)
    ensures sorted == PrivateWritten(qualified, now, registry, products)
  {
    hide Upsert, PrivateRow, Lookup, Sort;
    var poolMap: seq<Pool> := [];
    for k := 0 to |registry|
      invariant poolMap == FromRows(registry[..k])
    {
      assert registry[..k + 1][..k] == registry[..k];
      poolMap := Upsert(poolMap, registry[k]);
    }
    assert registry[..|registry|] == registry;
    for k := 0 to |products|
      invariant poolMap == ScanAll(qualified, now, FromRows(registry), products[..k])
    {
      assert products[..k + 1][..k] == products[..k];
      if products[k].scan.None? { continue; }
      var product, scan := products[k], products[k].scan.value;
      ghost var before := poolMap;
      for j := 0 to |scan|
        invariant poolMap == Scan(qualified, now, before, product, scan[..j])
      {
        assert scan[..j + 1][..j] == scan[..j];
        if scan[j].meta.None? { continue; }
        var meta := scan[j].meta.value;
        if meta.blacklisted { continue; }
        if product.mint != meta.x && product.mint != meta.y { continue; }
        var other := Other(product, meta);
        if other != Some(USDC) && (other.None? || other.value !in qualified) { continue; }
        var previous := Lookup(poolMap, scan[j].address);
        poolMap := Upsert(poolMap, PrivateRow(now, previous, product, scan[j].address, meta));
      }
      assert scan[..|scan|] == scan;
    }
    assert products[..|products|] == products;
    sorted := Sort(poolMap);
  }

  predicate ScanHomed(env: Env, scan: seq<Scanned>) { forall s :: s in scan ==> env.home(s.address) == "meteora" }

  predicate ProductsOk(env: Env, products: seq<Product>) {
    forall product ::
        product in products ==> ProductOk(product) && (product.scan.Some? ==> ScanHomed(env, product.scan.value))
  }

  /** The pass refuses no row anew. */
  predicate Grows(registry: seq<Pool>, after: seq<Pool>) {
    forall p :: p in after ==> p in registry || (p.verification == DISCOVERED && p.origin == PRIVATE)
  }

  lemma UpsertKept(env: Env, pools: seq<Pool>, p: Pool)
    requires Kept(env, pools) && RowOk(env, p)
    ensures Kept(env, Upsert(pools, p))
  {
    UpsertDistinct(pools, p);
  }

  lemma {:induction false} ScanKept(env: Env, now: nat, pools: seq<Pool>, product: Product, scan: seq<Scanned>)
    requires Kept(env, pools) && ProductOk(product) && ScanHomed(env, scan)
    ensures Kept(env, Scan(env.qualified, now, pools, product, scan))
    ensures Grows(pools, Scan(env.qualified, now, pools, product, scan))
    decreases |scan|
  {
    hide Kept, Routable, RowOk;
    if scan != [] {
      var n := |scan| - 1;
      ScanKept(env, now, pools, product, scan[..n]);
      var front, s := Scan(env.qualified, now, pools, product, scan[..n]), scan[n];
      assert s in scan;
      if s.meta.Some? && Routable(env.qualified, product, s.meta.value) {
        PrivateRowIsOk(env, now, Lookup(front, s.address), product, s.address, s.meta.value);
        UpsertKept(env, front, PrivateRow(now, Lookup(front, s.address), product, s.address, s.meta.value));
      }
    }
  }

  lemma {:induction false} ScanAllKept(env: Env, now: nat, pools: seq<Pool>, products: seq<Product>)
    requires Kept(env, pools) && ProductsOk(env, products)
    ensures Kept(env, ScanAll(env.qualified, now, pools, products))
    ensures Grows(pools, ScanAll(env.qualified, now, pools, products))
    decreases |products|
  {
    hide Kept, Scan;
    if products != [] {
      var n := |products| - 1;
      assert products[n] in products;
      ScanAllKept(env, now, pools, products[..n]);
      if products[n].scan.Some? {
        ScanKept(env, now, ScanAll(env.qualified, now, pools, products[..n]), products[n], products[n].scan.value);
      }
    }
  }

  lemma PrivateKeeps(env: Env, now: nat, registry: seq<Pool>, products: seq<Product>)
    requires Kept(env, registry) && ProductsOk(env, products)
    ensures var after := PrivateWritten(env.qualified, now, registry, products);
            Kept(env, after) && Sorted(after) && forall p :: p in after && Refused(p) ==> p in registry
  {
    hide ScanAll, FromRows, RowOk;
    FromDistinctRows(registry);
    ScanAllKept(env, now, registry, products);
    SortKeeps(env, ScanAll(env.qualified, now, registry, products));
  }

  predicate Recorded(pools: seq<Pool>, address: Address) {
    exists p :: p in pools && p.address == address && p.id == Id("meteora", address)
  }

  lemma UpsertRecords(pools: seq<Pool>, p: Pool, address: Address)
    requires p.id == Id("meteora", p.address) && (p.address == address || Recorded(pools, address))
    ensures Recorded(Upsert(pools, p), address)
  {
    if p.address != address {
      var q :| q in pools && q.address == address && q.id == Id("meteora", address);
      assert q in Upsert(pools, p);
    }
  }

  lemma {:induction false} ScanRecords(qualified: set<Mint>, now: nat, pools: seq<Pool>, product: Product,
      scan: seq<Scanned>, address: Address)
    requires Recorded(pools, address)
          || exists s :: s in scan && s.address == address && s.meta.Some? && Routable(qualified, product, s.meta.value)
    ensures Recorded(Scan(qualified, now, pools, product, scan), address)
    decreases |scan|
  {
    hide Routable, Recorded, Upsert;
    if scan != [] {
      var n := |scan| - 1;
      var front, last := Scan(qualified, now, pools, product, scan[..n]), scan[n];
      assert scan == scan[..n] + [last];
      if last.address != address || last.meta.None? || !Routable(qualified, product, last.meta.value) {
        ScanRecords(qualified, now, pools, product, scan[..n], address);
      }
      if last.meta.Some? && Routable(qualified, product, last.meta.value) {
        UpsertRecords(front, PrivateRow(now, Lookup(front, last.address), product, last.address, last.meta.value),
            address);
      }
    }
  }

  lemma {:induction false} ScanAllRecords(
    qualified: set<Mint>, now: nat, pools: seq<Pool>, products: seq<Product>, product: Product, s: Scanned)
    requires product in products && product.scan.Some? && s in product.scan.value
    requires s.meta.Some? && Routable(qualified, product, s.meta.value)
    ensures Recorded(ScanAll(qualified, now, pools, products), s.address)
    decreases |products|
  {
    hide Routable, Recorded, Scan;
    var n := |products| - 1;
    var front := ScanAll(qualified, now, pools, products[..n]);
    if product != products[n] {
      assert product in products[..n];
      ScanAllRecords(qualified, now, pools, products[..n], product, s);
    }
    if products[n].scan.Some? {
      ScanRecords(qualified, now, front, products[n], products[n].scan.value, s.address);
    }
  }

  /** Every routable pool of a scan is in the written file under its own id. */
  lemma NoPoolIsDropped(qualified: set<Mint>, now: nat, registry: seq<Pool>, products: seq<Product>, product: Product,
      s: Scanned)
    requires product in products && product.scan.Some? && s in product.scan.value
    requires s.meta.Some? && Routable(qualified, product, s.meta.value)
    ensures Recorded(PrivateWritten(qualified, now, registry, products), s.address)
  {
    hide Routable, ScanAll, FromRows;
    ScanAllRecords(qualified, now, FromRows(registry), products, product, s);
    var p :| p in ScanAll(qualified, now, FromRows(registry), products) && p.address == s.address &&
        p.id == Id("meteora", s.address);
    assert p in PrivateWritten(qualified, now, registry, products);
  }

  /** The last report of a pool wins, and keeps only when its row was first discovered. */
  lemma {:induction false} LatestWins(qualified: set<Mint>, now: nat, pools: seq<Pool>, product: Product,
      scan: seq<Scanned>, i: nat)
    requires i < |scan| && scan[i].meta.Some? && Routable(qualified, product, scan[i].meta.value)
    requires forall j :: i < j < |scan| ==> scan[j].address != scan[i].address
    ensures var previous := Lookup(Scan(qualified, now, pools, product, scan[..i]), scan[i].address);
            PrivateRow(now, previous, product, scan[i].address, scan[i].meta.value) in
              Scan(qualified, now, pools, product, scan)
    decreases |scan|
  {
    hide Routable, PrivateRow, Lookup, Upsert;
    var n := |scan| - 1;
    if i < n {
      assert scan[..n][..i] == scan[..i];
      LatestWins(qualified, now, pools, product, scan[..n], i);
      var previous := Lookup(Scan(qualified, now, pools, product, scan[..i]), scan[i].address);
      PrivateAddress(now, previous, product, scan[i].address, scan[i].meta.value);
      UnscannedStays(qualified, now, Scan(qualified, now, pools, product, scan[..n]), product, [scan[n]],
                     PrivateRow(now, previous, product, scan[i].address, scan[i].meta.value));
      ScanOne(qualified, now, pools, product, scan);
    }
  }

  lemma ScanOne(qualified: set<Mint>, now: nat, pools: seq<Pool>, product: Product, scan: seq<Scanned>)
    requires scan != []
    ensures var n := |scan| - 1;
            Scan(qualified, now, pools, product, scan) ==
              Scan(qualified, now, Scan(qualified, now, pools, product, scan[..n]), product, [scan[n]])
  {
    hide Routable, PrivateRow, Lookup, Upsert;
    var n := |scan| - 1;
    var front := Scan(qualified, now, pools, product, scan[..n]);
    assert [scan[n]][..0] == [] && Scan(qualified, now, front, product, []) == front;
  }

  lemma PrivateAddress(now: nat, previous: Option<Pool>, product: Product, address: Address, meta: Meta)
    ensures PrivateRow(now, previous, product, address, meta).address == address
  {
  }

  /** Rows whose address no scan reports stay as they are. */
  lemma {:induction false} UnscannedStays(qualified: set<Mint>, now: nat, pools: seq<Pool>, product: Product,
      scan: seq<Scanned>, p: Pool)
    requires p in pools && forall s :: s in scan ==> s.address != p.address
    ensures p in Scan(qualified, now, pools, product, scan)
    decreases |scan|
  {
    hide Routable;
    if scan != [] {
      assert scan[|scan| - 1] in scan;
      UnscannedStays(qualified, now, pools, product, scan[..|scan| - 1], p);
    }
  }

  predicate Unscanned(products: seq<Product>, address: Address) {
    forall product :: product in products && product.scan.Some? ==> forall s ::
        s in product.scan.value ==> s.address != address
  }

  lemma {:induction false} UnscannedStaysInAll(qualified: set<Mint>, now: nat, pools: seq<Pool>,
      products: seq<Product>, p: Pool)
    requires p in pools && Unscanned(products, p.address)
    ensures p in ScanAll(qualified, now, pools, products)
    decreases |products|
  {
    hide Scan;
    if products != [] {
      var n := |products| - 1;
      assert products[n] in products;
      UnscannedStaysInAll(qualified, now, pools, products[..n], p);
      if products[n].scan.Some? {
        UnscannedStays(qualified, now, ScanAll(qualified, now, pools, products[..n]), products[n],
            products[n].scan.value, p);
      }
    }
  }

  // ---------- the refresh of bonding-curve rows ----------

  datatype Snapshot = Snapshot(
    configAddress: Address, lifecycle: Lifecycle, checkedAt: nat, slot: Option<nat>,
    successor: Successor, successorPool: Option<Address>)

  function Refresh(p: Pool, snap: Snapshot): Pool
    requires p.dbc.Some?
  {
    var confirmedAt := if snap.successor != CONFIRMED then None
                       else if p.dbc.value.confirmedAt.Some? then p.dbc.value.confirmedAt else Some(snap.checkedAt);
    var routable := p.eligibility == ROUTER_ELIGIBLE && snap.lifecycle == BONDING;
    p.(dbc := Some(Dbc(snap.configAddress, snap.lifecycle, snap.checkedAt, snap.slot, snap.successor,
        snap.successorPool, confirmedAt)),
       enabled := routable,
       disabledReason := if routable then None
                         else if p.eligibility != ROUTER_ELIGIBLE then Some(NotUsdcRoute)
                             else Some(LifecycleIs(snap.lifecycle)))
  }

  /** Rows without a snapshot, and rows of other kinds, stay as they are. */
  function RefreshRow(snaps: map<Address, Snapshot>, p: Pool): Pool {
    if p.poolType != "dbc" || p.dbc.None? || p.address !in snaps then p else Refresh(p, snaps[p.address])
  }

  function Refreshed(snaps: map<Address, Snapshot>, pools: seq<Pool>): seq<Pool> {
    seq(|pools|, i requires 0 <= i < |pools| => RefreshRow(snaps, pools[i]))
  }

  method RefreshLifecycle(snaps: map<Address, Snapshot>, pools: array<Pool>)
    modifies pools
    ensures pools[..] == Refreshed(snaps, old(pools[..]))
  {
    for k := 0 to pools.Length
      invariant forall i :: 0 <= i < k ==> pools[i] == RefreshRow(snaps, old(pools[i]))
      invariant forall i :: k <= i < pools.Length ==> pools[i] == old(pools[i])
    {
      var pool := pools[k];
      if pool.poolType != "dbc" || pool.dbc.None? { continue; }
      if pool.address !in snaps { continue; }
      pools[k] := Refresh(pool, snaps[pool.address]);
    }
  }

  predicate SnapsOk(snaps: map<Address, Snapshot>) {
    forall address :: address in snaps ==>
      SuccessorLoads(snaps[address].lifecycle, snaps[address].successor, snaps[address].successorPool)
  }

  lemma RefreshRowIsOk(env: Env, snaps: map<Address, Snapshot>, p: Pool)
    requires RowOk(env, p) && SnapsOk(snaps)
    ensures RowOk(env, RefreshRow(snaps, p)) && KeyOf(RefreshRow(snaps, p)) == KeyOf(p)
    ensures RefreshRow(snaps, p).id == p.id && RefreshRow(snaps, p).address == p.address
  {
  }

  /** The refresh finds the curve bonding, and enables it. */
  predicate Reenabled(snaps: map<Address, Snapshot>, p: Pool) {
    && p.verification == VERIFICATION_FAILED && p.eligibility == ROUTER_ELIGIBLE && p.dbc.Some?
    && p.address in snaps && snaps[p.address].lifecycle == BONDING
  }

  /** A refreshed row that was not refused before is refused exactly when it failed its
      verification, is eligible, and reads BONDING: it is enabled exactly when it is eligible and
      reads BONDING, and takes everything else from the reading. */
  lemma RefreshRefusesIff(env: Env, snaps: map<Address, Snapshot>, p: Pool)
    requires RowOk(env, p) && !Refused(p)
    ensures Refused(RefreshRow(snaps, p)) <==> Reenabled(snaps, p)
    ensures p.address !in snaps || p.dbc.None? ==> RefreshRow(snaps, p) == p
    ensures p.address in snaps && p.dbc.Some? ==>
              var q, snap := RefreshRow(snaps, p), snaps[p.address];
              && q == p.(dbc := q.dbc, enabled := q.enabled, disabledReason := q.disabledReason)
              && (q.enabled <==> p.eligibility == ROUTER_ELIGIBLE && snap.lifecycle == BONDING)
              && (p.eligibility == ROUTER_ELIGIBLE && snap.lifecycle != BONDING ==>
                  q.disabledReason == Some(LifecycleIs(snap.lifecycle)))
              && q.dbc.Some? && q.dbc.value.configAddress == snap.configAddress
              && q.dbc.value.lifecycle == snap.lifecycle && q.dbc.value.checkedAt == snap.checkedAt
              && q.dbc.value.slot == snap.slot && q.dbc.value.successor == snap.successor
              && q.dbc.value.successorPool == snap.successorPool
              && q.dbc.value.confirmedAt == if snap.successor != CONFIRMED then None
                                            else if p.dbc.value.confirmedAt.Some? then p.dbc.value.confirmedAt
                                            else Some(snap.checkedAt)
  {
  }

  /** Nothing but the flags and the curve block moves, so the order is what it was. */
  lemma RefreshKeeps(env: Env, snaps: map<Address, Snapshot>, pools: seq<Pool>)
    requires Kept(env, pools) && SnapsOk(snaps)
    ensures Kept(env, Refreshed(snaps, pools)) && (Sorted(Refreshed(snaps, pools)) <==> Sorted(pools))
  {
    hide RowOk, RefreshRow, KeyOf;
    var r := Refreshed(snaps, pools);
    forall i | 0 <= i < |r|
      ensures RowOk(env, r[i]) && KeyOf(r[i]) == KeyOf(pools[i]) && r[i].address == pools[i].address
    {
      assert pools[i] in pools;
      RefreshRowIsOk(env, snaps, pools[i]);
    }
    SameKeysSameOrder(pools, r);
  }

  /** The refreshed file loads exactly when none of its rows is enabled again after failing. */
  lemma RefreshLoadsIff(env: Env, snaps: map<Address, Snapshot>, pools: seq<Pool>)
    requires Kept(env, pools) && NoneRefused(pools) && SnapsOk(snaps)
    ensures Loadable(env.qualified, Refreshed(snaps, pools)) <==> forall p :: p in pools ==> !Reenabled(snaps, p)
  {
    hide RowOk, RefreshRow, Refused, Reenabled, SnapsOk, Held;
    var r := Refreshed(snaps, pools);
    RefreshKeeps(env, snaps, pools);
    KeptLoadsIff(env, r);
    if forall p :: p in pools ==> !Reenabled(snaps, p) {
      forall q | q in r ensures !Refused(q) {
        var i :| 0 <= i < |r| && r[i] == q;
        assert pools[i] in pools;
        RefreshRefusesIff(env, snaps, pools[i]);
      }
    } else {
      var p :| p in pools && Reenabled(snaps, p);
      var i :| 0 <= i < |pools| && pools[i] == p;
      RefreshRefusesIff(env, snaps, p);
      assert r[i] in r;
    }
  }

  /** Two refreshes from the same readings are one; and the time a successor was first confirmed
      outlives every later refresh that still finds it confirmed. */
  lemma RefreshTwice(before: map<Address, Snapshot>, after: map<Address, Snapshot>, pools: seq<Pool>, i: nat)
    requires i < |pools|
    ensures Refreshed(before, Refreshed(before, pools)) == Refreshed(before, pools)
    ensures var once, twice := Refreshed(before, pools)[i], Refreshed(after, Refreshed(before, pools))[i];
            once.poolType == "dbc" && once.dbc.Some? && once.dbc.value.confirmedAt.Some? ==>
              twice.dbc.Some? && twice.dbc.value.confirmedAt ==
                (if once.address in after && after[once.address].successor != CONFIRMED then None
                    else once.dbc.value.confirmedAt)
  {
  }
}
