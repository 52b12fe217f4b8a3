/** The discovery of the USDC pools of qualified intermediates. */
module RegistryRoutes {
  import opened Common
  import opened PoolOrder
  import opened Registry

  const RECORD_TVL_USD: real := 10000.0
  const PER_INTERMEDIATE: nat := 3

  /** A pool the API lists; `base58` says that its addresses are well-formed texts. */
  datatype Route = Route(address: Address, clmm: bool, mintA: Mint, mintB: Mint, tvl: real, base58: bool)

  /** A qualified intermediate and what the API said of it; nothing when it refused. */
  datatype Asset = Asset(mint: Mint, rank: nat, listed: Option<seq<Route>>)

  function RouteRow(now: nat, minTvl: real, asset: Asset, route: Route): Pool {
    var deep := route.tvl >= minTvl;
    Pool(Id("raydium", route.address), IntermediateOf(asset.mint, asset.rank), asset.mint, "xstocks",
         route.address, "clmm", route.mintA, route.mintB, Some(route.tvl), now, now, INTERMEDIATE_ROUTE, None, deep,
         if deep then None else Some(BelowFloor(Some(route.tvl))), ROUTES, DISCOVERED, None)
  }

  /** A deep enough pool of exactly the intermediate and USDC, not yet known, whose record the
      loader would take. */
  predicate Admissible(qualified: set<Mint>, now: nat, minTvl: real, asset: Asset, known: set<Address>, route: Route) {
    && route.clmm && {route.mintA, route.mintB} == {asset.mint, USDC} && route.mintA != route.mintB
    && route.address !in known && route.tvl >= RECORD_TVL_USD
    && route.base58 && Loads(qualified, RouteRow(now, minTvl, asset, route))
  }

  /** The first three admissible pools, none twice. */
  function AssetRoutes(qualified: set<Mint>, now: nat, minTvl: real, known: set<Address>, asset: Asset,
      routes: seq<Route>): (r: seq<Pool>)
    ensures |r| <= PER_INTERMEDIATE
  {
    if routes == [] then []
    else
      var n := |routes| - 1;
      var front := AssetRoutes(qualified, now, minTvl, known, asset, routes[..n]);
      if |front| < PER_INTERMEDIATE && Admissible(qualified, now, minTvl, asset, known + Addresses(front), routes[n])
      then front + [RouteRow(now, minTvl, asset, routes[n])] else front
  }

  /** What follows the third pool does not matter. */
  lemma {:induction false} FullIsFull(qualified: set<Mint>, now: nat, minTvl: real, known: set<Address>, asset: Asset,
      routes: seq<Route>, k: nat)
    requires k <= |routes| && |AssetRoutes(qualified, now, minTvl, known, asset, routes[..k])| == PER_INTERMEDIATE
    ensures AssetRoutes(qualified, now, minTvl, known, asset, routes) ==
        AssetRoutes(qualified, now, minTvl, known, asset, routes[..k])
    decreases |routes|
  {
    hide Admissible, RouteRow, Addresses;
    if k == |routes| {
      assert routes[..k] == routes;
    } else {
      var n := |routes| - 1;
      assert routes[..n][..k] == routes[..k];
      FullIsFull(qualified, now, minTvl, known, asset, routes[..n], k);
    }
  }

  function AllRoutes(qualified: set<Mint>, now: nat, minTvl: real, known: set<Address>, assets: seq<Asset>): seq<Pool> {
    if assets == [] then []
    else
      var n := |assets| - 1;
      var front := AllRoutes(qualified, now, minTvl, known, assets[..n]);
      if assets[n].listed.None? then front
      else front + AssetRoutes(qualified, now, minTvl, known + Addresses(front), assets[n], assets[n].listed.value)
  }

  function RoutesWritten(qualified: set<Mint>, now: nat, minTvl: real, registry: seq<Pool>,
      assets: seq<Asset>): seq<Pool> {
    Sort(registry + AllRoutes(qualified, now, minTvl, Addresses(registry), assets))
  }

  method AdmitAsset(qualified: set<Mint>, now: nat, minTvl: real, known: set<Address>, admitted: seq<Pool>,
      asset: Asset, routes: seq<Route>)
    returns (known': set<Address>, admitted': seq<Pool>)
    ensures admitted' == admitted + AssetRoutes(qualified, now, minTvl, known, asset, routes)
    ensures known' == known + Addresses(AssetRoutes(qualified, now, minTvl, known, asset, routes))
  {
    known', admitted' := known, admitted;
    var taken := 0;
    for k := 0 to |routes|
      invariant taken == |AssetRoutes(qualified, now, minTvl, known, asset, routes[..k])|
      invariant admitted' == admitted + AssetRoutes(qualified, now, minTvl, known, asset, routes[..k])
      invariant known' == known + Addresses(AssetRoutes(qualified, now, minTvl, known, asset, routes[..k]))
    {
      if taken >= PER_INTERMEDIATE {
        FullIsFull(qualified, now, minTvl, known, asset, routes, k);
        return;
      }
      assert routes[..k + 1][..k] == routes[..k];
      ghost var rows := AssetRoutes(qualified, now, minTvl, known, asset, routes[..k]);
      if !Admissible(qualified, now, minTvl, asset, known', routes[k]) { continue; }
      var row := RouteRow(now, minTvl, asset, routes[k]);
      admitted' := admitted' + [row];
      AddressesSnoc(rows, row);
      known' := known' + {routes[k].address};
      taken := taken + 1;
    }
    assert routes[..|routes|] == routes;
  }

  method AdmitRoutes(qualified: set<Mint>, now: nat, minTvl: real, registry: seq<Pool>,
      assets: seq<Asset>) returns (merged: seq<Pool>)
    ensures merged == RoutesWritten(qualified, now, minTvl, registry, assets)
  {
    var known := Addresses(registry);
    var admitted: seq<Pool> := [];
    for k := 0 to |assets|
      invariant admitted == AllRoutes(qualified, now, minTvl, Addresses(registry), assets[..k])
      invariant known == Addresses(registry) + Addresses(admitted)
    {
      assert assets[..k + 1][..k] == assets[..k];
      if assets[k].listed.None? { continue; }
      AddressesConcat(admitted, AssetRoutes(qualified, now, minTvl, known, assets[k], assets[k].listed.value));
      known, admitted := AdmitAsset(qualified, now, minTvl, known, admitted, assets[k], assets[k].listed.value);
    }
    assert assets[..|assets|] == assets;
    merged := Sort(registry + admitted);
  }

  /** Rows with new addresses of their own, as the loader demands them, above the record floor and
      enabled exactly from the enabling floor on. */
  predicate Fresh(env: Env, minTvl: real, known: set<Address>, rows: seq<Pool>) {
    && Distinct(rows) && AllOk(env, rows)
    && forall p :: p in rows ==>
         && p.address !in known && p.eligibility == INTERMEDIATE_ROUTE && ExactPair(p.baseMint, p.quoteMint, p.mint)
         && Tvl(p) >= RECORD_TVL_USD && (p.enabled <==> Tvl(p) >= minTvl) && p.verification == DISCOVERED
  }

  predicate RoutesHomed(env: Env, routes: seq<Route>) {
    forall route :: route in routes ==> env.home(route.address) == "raydium"
  }

  lemma RouteRowIsOk(env: Env, now: nat, minTvl: real, asset: Asset, known: set<Address>, route: Route)
    requires Admissible(env.qualified, now, minTvl, asset, known, route) && env.home(route.address) == "raydium"
    ensures var p := RouteRow(now, minTvl, asset, route);
            && RowOk(env, p) && p.address == route.address && p.address !in known && p.verification == DISCOVERED
            && p.eligibility == INTERMEDIATE_ROUTE && ExactPair(p.baseMint, p.quoteMint, p.mint)
            && Tvl(p) >= RECORD_TVL_USD && (p.enabled <==> Tvl(p) >= minTvl)
  {
    assert asset.mint in {route.mintA, route.mintB} && USDC in {route.mintA, route.mintB};
  }

  lemma {:induction false} AssetRoutesAreFresh(
    env: Env, now: nat, minTvl: real, known: set<Address>, asset: Asset, routes: seq<Route>)
    requires RoutesHomed(env, routes)
    ensures Fresh(env, minTvl, known, AssetRoutes(env.qualified, now, minTvl, known, asset, routes))
    decreases |routes|
  {
    hide RowOk, RouteRow, Admissible;
    if routes != [] {
      var n := |routes| - 1;
      var front := AssetRoutes(env.qualified, now, minTvl, known, asset, routes[..n]);
      AssetRoutesAreFresh(env, now, minTvl, known, asset, routes[..n]);
      assert routes[n] in routes;
      if Admissible(env.qualified, now, minTvl, asset, known + Addresses(front), routes[n]) {
        RouteRowIsOk(env, now, minTvl, asset, known + Addresses(front), routes[n]);
        LastIsNew(front, RouteRow(now, minTvl, asset, routes[n]));
      }
    }
  }

  /** An admissible pool is left out only when three have been taken. */
  lemma {:induction false} NoRouteIsDropped(qualified: set<Mint>, now: nat, minTvl: real, known: set<Address>,
      asset: Asset, routes: seq<Route>, route: Route)
    requires route in routes && Admissible(qualified, now, minTvl, asset, known, route)
    ensures var rows := AssetRoutes(qualified, now, minTvl, known, asset, routes);
        |rows| == PER_INTERMEDIATE || route.address in Addresses(rows)
    decreases |routes|
  {
    hide Admissible, RouteRow, Addresses;
    var n := |routes| - 1;
    var front := AssetRoutes(qualified, now, minTvl, known, asset, routes[..n]);
    AddressesSnoc(front, RouteRow(now, minTvl, asset, routes[n]));
    RouteRowAddress(now, minTvl, asset, routes[n]);
    if route in routes[..n] {
      NoRouteIsDropped(qualified, now, minTvl, known, asset, routes[..n], route);
    } else {
      assert route == routes[n];
      if route.address !in Addresses(front) {
        StillAdmissible(qualified, now, minTvl, asset, known, Addresses(front), route);
      }
    }
  }

  lemma RouteRowAddress(now: nat, minTvl: real, asset: Asset, route: Route)
    ensures RouteRow(now, minTvl, asset, route).address == route.address
  {
  }

  lemma StillAdmissible(qualified: set<Mint>, now: nat, minTvl: real, asset: Asset, known: set<Address>,
      more: set<Address>, route: Route)
    requires Admissible(qualified, now, minTvl, asset, known, route) && route.address !in more
    ensures Admissible(qualified, now, minTvl, asset, known + more, route)
  {
    hide Loads, RouteRow;
  }

  /** Exactly which listed pools are admissible. */
  lemma AdmissibleIff(qualified: set<Mint>, now: nat, minTvl: real, asset: Asset, known: set<Address>, route: Route)
    ensures Admissible(qualified, now, minTvl, asset, known, route) <==>
              && route.clmm && route.base58 && {route.mintA, route.mintB} == {asset.mint, USDC}
              && asset.mint != USDC && asset.mint in qualified && route.address !in known && route.tvl >= 10000.0
  {
    if {route.mintA, route.mintB} == {asset.mint, USDC} {
      assert asset.mint in {route.mintA, route.mintB} && USDC in {route.mintA, route.mintB};
      assert route.mintA in {asset.mint, USDC} && route.mintB in {asset.mint, USDC};
    }
  }

  /** And what their rows say. */
  lemma RouteRowIs(now: nat, minTvl: real, asset: Asset, route: Route)
    ensures var p := RouteRow(now, minTvl, asset, route);
            && p.id == Id("raydium", route.address) && p.address == route.address && p.mint == asset.mint
            && p.representationId == IntermediateOf(asset.mint, asset.rank) && p.poolType == "clmm"
            && p.baseMint == route.mintA && p.quoteMint == route.mintB && p.tvlUsd == Some(route.tvl)
            && p.discoveredAt == p.verifiedAt == now && p.eligibility == INTERMEDIATE_ROUTE && p.dbc.None?
            && p.verification == DISCOVERED && p.onchainVerifiedAt.None? && (p.enabled <==> route.tvl >= minTvl)
            && p.disabledReason == if route.tvl >= minTvl then None else Some(BelowFloor(Some(route.tvl)))
  {
  }

  predicate AssetsHomed(env: Env, assets: seq<Asset>) {
    forall asset :: asset in assets && asset.listed.Some? ==> RoutesHomed(env, asset.listed.value)
  }

  /** Whatever the API lists, and however often. */
  lemma {:induction false} AllRoutesAreFresh(env: Env, now: nat, minTvl: real, known: set<Address>, assets: seq<Asset>)
    requires AssetsHomed(env, assets)
    ensures Fresh(env, minTvl, known, AllRoutes(env.qualified, now, minTvl, known, assets))
    decreases |assets|
  {
    hide AssetRoutes, RowOk;
    if assets != [] {
      var n := |assets| - 1;
      AllRoutesAreFresh(env, now, minTvl, known, assets[..n]);
      var front := AllRoutes(env.qualified, now, minTvl, known, assets[..n]);
      assert assets[n] in assets;
      if assets[n].listed.Some? {
        AssetRoutesAreFresh(env, now, minTvl, known + Addresses(front), assets[n], assets[n].listed.value);
        DistinctTogether(front,
            AssetRoutes(env.qualified, now, minTvl, known + Addresses(front), assets[n], assets[n].listed.value));
      }
    }
  }

  /** The written file holds the old rows, unchanged, and the admitted ones; nothing else. */
  lemma RoutesContents(qualified: set<Mint>, now: nat, minTvl: real, registry: seq<Pool>, assets: seq<Asset>, p: Pool)
    ensures p in RoutesWritten(qualified, now, minTvl, registry, assets) <==>
              p in registry || p in AllRoutes(qualified, now, minTvl, Addresses(registry), assets)
  {
  }

  /** Of the intermediate of which nothing was known before, every admissible pool is in the written file, or
      three others are. */
  lemma {:induction false} RoutesOfAsset(qualified: set<Mint>, now: nat, minTvl: real, registry: seq<Pool>,
      assets: seq<Asset>, i: nat)
    requires i < |assets| && assets[i].listed.Some?
    ensures var known := Addresses(registry);
            var before := known + Addresses(AllRoutes(qualified, now, minTvl, known, assets[..i]));
            forall p :: p in AssetRoutes(qualified, now, minTvl, before, assets[i], assets[i].listed.value) ==>
              p in RoutesWritten(qualified, now, minTvl, registry, assets)
    decreases |assets|
  {
    hide AssetRoutes, Addresses;
    var n := |assets| - 1;
    if i < n {
      assert assets[..n][..i] == assets[..i];
      RoutesOfAsset(qualified, now, minTvl, registry, assets[..n], i);
    }
  }

  lemma RoutesKeep(env: Env, now: nat, minTvl: real, registry: seq<Pool>, assets: seq<Asset>)
    requires Kept(env, registry) && AssetsHomed(env, assets)
    ensures var after := RoutesWritten(env.qualified, now, minTvl, registry, assets);
            Kept(env, after) && Sorted(after) && forall p :: p in after && Refused(p) ==> p in registry
  {
    hide AllRoutes, RowOk;
    var rows := AllRoutes(env.qualified, now, minTvl, Addresses(registry), assets);
    AllRoutesAreFresh(env, now, minTvl, Addresses(registry), assets);
    DistinctTogether(registry, rows);
    SortKeeps(env, registry + rows);
  }
}
