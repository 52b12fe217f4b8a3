/** Any sequence of the seven writers over the one file. */
module RegistryRuns {
  import opened Common
  import opened PoolOrder
  import opened Registry
  import opened RegistryBuilder
  import opened RegistryLegs
  import opened RegistryRoutes
  import opened RegistryUpserts
  import opened RegistryForensics
  import opened RegistryVerification

  /** One run of a writer, with what it read from the dumps, the APIs and the chain. */
  datatype Write =
    | Building(verified: Verified, now: nat, dumps: seq<Found>)
    | AdmittingLegs(now: nat, minTvl: real, orca: seq<Leg>, raydium: seq<Leg>)
    | AddingRoutes(now: nat, minTvl: real, assets: seq<Asset>)
    | AddingPrivate(now: nat, products: seq<Product>)
    | Refreshing(snaps: map<Address, Snapshot>)
    | AddingForensics(now: nat, accounts: map<Address, Account>, hops: seq<Hop>)
    | Verifying(all: bool, outcomes: Address -> Verification, at: nat)

  function Written(qualified: set<Mint>, w: Write, registry: seq<Pool>): seq<Pool> {
    match w
    case Building(verified, now, dumps) => Rebuilt(verified, now, dumps, registry)
    case AdmittingLegs(now, minTvl, orca, raydium) => LegsWritten(qualified, now, minTvl, registry, orca, raydium)
    case AddingRoutes(now, minTvl, assets) => RoutesWritten(qualified, now, minTvl, registry, assets)
    case AddingPrivate(now, products) => PrivateWritten(qualified, now, registry, products)
    case Refreshing(snaps) => Refreshed(snaps, registry)
    case AddingForensics(now, accounts, hops) => ForensicsWritten(now, accounts, registry, hops)
    case Verifying(all, outcomes, at) => VerifiedFile(all, outcomes, at, registry)
  }

  function AllWritten(qualified: set<Mint>, ws: seq<Write>, registry: seq<Pool>): seq<Pool> {
    if ws == [] then registry else Written(qualified, ws[|ws| - 1], AllWritten(qualified, ws[..|ws| - 1], registry))
  }

  /** What the discovery passes owe: faithful dumps without repeats, and one venue an address. */
  predicate Sound(env: Env, w: Write) {
    match w
    case Building(verified, now, dumps) => DumpsOk(env, verified, now, dumps)
    case AdmittingLegs(now, minTvl, orca, raydium) =>
      NoRepeatedLegs(orca) && LegsApart(orca, raydium) && LegsFaithful(env, orca) && LegsFaithful(env, raydium)
    case AddingRoutes(now, minTvl, assets) => AssetsHomed(env, assets)
    case AddingPrivate(now, products) => ProductsOk(env, products)
    case Refreshing(snaps) => SnapsOk(snaps)
    case AddingForensics(now, accounts, hops) => HopsOk(env, accounts, hops)
    case Verifying(_, _, _) => true
  }

  ghost predicate AllSound(env: Env, ws: seq<Write>) { forall w :: w in ws ==> Sound(env, w) }

  // ---------- what every writer keeps, in any order ----------

  lemma WriteKeeps(env: Env, w: Write, registry: seq<Pool>)
    requires Kept(env, registry) && Sound(env, w)
    ensures Kept(env, Written(env.qualified, w, registry))
  {
    hide Kept, Rebuilt, LegsWritten, RoutesWritten, PrivateWritten, Refreshed, ForensicsWritten, VerifiedFile;
    match w
    case Building(verified, now, dumps) => RebuildKeeps(env, verified, now, dumps, registry);
    case AdmittingLegs(now, minTvl, orca, raydium) => LegsKeep(env, now, minTvl, registry, orca, raydium);
    case AddingRoutes(now, minTvl, assets) => RoutesKeep(env, now, minTvl, registry, assets);
    case AddingPrivate(now, products) => PrivateKeeps(env, now, registry, products);
    case Refreshing(snaps) => RefreshKeeps(env, snaps, registry);
    case AddingForensics(now, accounts, hops) => ForensicsKeep(env, now, accounts, registry, hops);
    case Verifying(all, outcomes, at) => VerifyingHeals(env, all, outcomes, at, registry);
  }

  /** Any writers, in any order: addresses and ids stay unique, a row is enabled exactly when it has no
      reason not to be, every ROUTER_ELIGIBLE row is its mint with USDC, a curve past bonding or a row
      known from forensics alone is never enabled, and whatever else the loader demands of a row holds,
      but for one thing. */
  lemma {:induction false} AnyOrderKeeps(env: Env, ws: seq<Write>, registry: seq<Pool>)
    requires Kept(env, registry) && AllSound(env, ws)
    ensures Kept(env, AllWritten(env.qualified, ws, registry)) && UniqueIds(AllWritten(env.qualified, ws, registry))
    decreases |ws|
  {
    hide Kept, Written, Sound;
    if ws != [] {
      var n := |ws| - 1;
      assert ws[n] in ws;
      AnyOrderKeeps(env, ws[..n], registry);
      WriteKeeps(env, ws[n], AllWritten(env.qualified, ws[..n], registry));
    }
    IdsAreUnique(env, AllWritten(env.qualified, ws, registry));
  }

  // ---------- the order ----------

  predicate Sorts(w: Write) { w.Building? || w.AdmittingLegs? || w.AddingRoutes? || w.AddingPrivate? }

  /** The appended rows are in order and continue the file's. */
  predicate Continues(now: nat, accounts: map<Address, Account>, hops: seq<Hop>, registry: seq<Pool>) {
    var rows := ForensicsAdded(now, accounts, registry, hops);
    Sorted(rows) && (registry == [] || rows == [] || !Less(KeyOf(rows[0]), KeyOf(registry[|registry| - 1])))
  }

  /** Exactly when a writer leaves the file in order. */
  lemma WriteSortsIff(env: Env, w: Write, registry: seq<Pool>)
    requires Kept(env, registry) && Sound(env, w)
    ensures Sorted(Written(env.qualified, w, registry)) <==>
              Sorts(w) || (Sorted(registry) && (w.AddingForensics? ==> Continues(w.now, w.accounts, w.hops, registry)))
  {
    hide Kept, Rebuilt, LegsWritten, RoutesWritten, PrivateWritten, Refreshed, ForensicsWritten, ForensicsAdded,
        VerifiedFile, Sorted, Less, KeyOf;
    match w
    case Building(verified, now, dumps) => RebuildKeeps(env, verified, now, dumps, registry);
    case AdmittingLegs(now, minTvl, orca, raydium) => LegsKeep(env, now, minTvl, registry, orca, raydium);
    case AddingRoutes(now, minTvl, assets) => RoutesKeep(env, now, minTvl, registry, assets);
    case AddingPrivate(now, products) => PrivateKeeps(env, now, registry, products);
    case Refreshing(snaps) => RefreshKeeps(env, snaps, registry);
    case AddingForensics(now, accounts, hops) => ForensicsKeep(env, now, accounts, registry, hops);
    case Verifying(all, outcomes, at) => VerifyingHeals(env, all, outcomes, at, registry);
  }

  /** Whatever the order before, a sorting writer restores it, and it lasts until forensics append. */
  lemma {:induction false} OrderIsRestored(env: Env, ws: seq<Write>, registry: seq<Pool>, k: nat)
    requires Kept(env, registry) && AllSound(env, ws) && k < |ws| && Sorts(ws[k])
    requires forall j :: k < j < |ws| ==> !ws[j].AddingForensics?
    ensures Sorted(AllWritten(env.qualified, ws, registry))
    decreases |ws|
  {
    hide Kept, Written, Sound, Sorted, Continues;
    var n := |ws| - 1;
    var front := AllWritten(env.qualified, ws[..n], registry);
    assert ws[n] in ws;
    AnyOrderKeeps(env, ws[..n], registry);
    WriteSortsIff(env, ws[n], front);
    if k < n {
      OrderIsRestored(env, ws[..n], registry, k);
    }
  }

  // ---------- whether the file loads ----------

  /** A refresh finds a curve bonding that has failed its verification. */
  predicate Reenables(w: Write, registry: seq<Pool>) {
    w.Refreshing? && exists p :: p in registry && Reenabled(w.snaps, p)
  }

  /** After any writer the loader takes the file, unless the writer was a refresh that enabled a failed
      row again; and then it does not. */
  lemma WriteLoadsIff(env: Env, w: Write, registry: seq<Pool>)
    requires Kept(env, registry) && NoneRefused(registry) && Sound(env, w)
    ensures Loadable(env.qualified, Written(env.qualified, w, registry)) <==> !Reenables(w, registry)
  {
    hide RowOk, Rebuilt, LegsWritten, RoutesWritten, PrivateWritten, Refreshed, ForensicsWritten, VerifiedFile,
        Sorted, Refused, Reenabled, Held;
    WriteKeeps(env, w, registry);
    KeptLoadsIff(env, Written(env.qualified, w, registry));
    match w
    case Building(verified, now, dumps) => RebuildKeeps(env, verified, now, dumps, registry);
    case AdmittingLegs(now, minTvl, orca, raydium) => LegsKeep(env, now, minTvl, registry, orca, raydium);
    case AddingRoutes(now, minTvl, assets) => RoutesKeep(env, now, minTvl, registry, assets);
    case AddingPrivate(now, products) => PrivateKeeps(env, now, registry, products);
    case Refreshing(snaps) => RefreshLoadsIff(env, snaps, registry);
    case AddingForensics(now, accounts, hops) => ForensicsKeep(env, now, accounts, registry, hops);
    case Verifying(all, outcomes, at) => VerifyingHeals(env, all, outcomes, at, registry);
  }

  /** So it loads at the end of every run in which no refresh did so. */
  lemma {:induction false} RunLoads(env: Env, ws: seq<Write>, registry: seq<Pool>)
    requires Kept(env, registry) && NoneRefused(registry) && AllSound(env, ws)
    requires forall k :: 0 <= k < |ws| ==> !Reenables(ws[k], AllWritten(env.qualified, ws[..k], registry))
    ensures Loadable(env.qualified, AllWritten(env.qualified, ws, registry))
    decreases |ws|
  {
    hide Written, Sound, Reenables, RowOk, Held, Refused;
    if ws == [] {
      KeptLoadsIff(env, registry);
    } else {
      var n := |ws| - 1;
      assert ws[n] in ws;
      assert forall k :: 0 <= k < n ==> ws[..n][..k] == ws[..k];
      RunLoads(env, ws[..n], registry);
      AnyOrderKeeps(env, ws[..n], registry);
      KeptLoadsIff(env, AllWritten(env.qualified, ws[..n], registry));
      WriteLoadsIff(env, ws[n], AllWritten(env.qualified, ws[..n], registry));
    }
  }

  /** And at the end of every run that ends with a verification, whatever came before. */
  lemma VerifiedRunLoads(env: Env, ws: seq<Write>, registry: seq<Pool>, all: bool, outcomes: Address -> Verification,
      at: nat)
    requires Kept(env, registry) && AllSound(env, ws)
    ensures Loadable(env.qualified, AllWritten(env.qualified, ws + [Verifying(all, outcomes, at)], registry))
  {
    hide Kept, Sound;
    AnyOrderKeeps(env, ws, registry);
    assert (ws + [Verifying(all, outcomes, at)])[..|ws|] == ws;
    VerifyingHeals(env, all, outcomes, at, AllWritten(env.qualified, ws, registry));
  }

  /** The failing run: any enabled, eligible curve that a verification contradicts and the next refresh
      still finds bonding makes the loader refuse the whole file. */
  lemma VerifyThenRefresh(
    env: Env, registry: seq<Pool>, p: Pool, outcomes: Address -> Verification, at: nat, snaps: map<Address, Snapshot>)
    requires Kept(env, registry) && SnapsOk(snaps) && p in registry
    requires p.enabled && p.dbc.Some? && p.eligibility == ROUTER_ELIGIBLE && outcomes(p.address) == VERIFICATION_FAILED
    requires p.address in snaps && snaps[p.address].lifecycle == BONDING
    ensures !Loadable(env.qualified,
        AllWritten(env.qualified, [Verifying(false, outcomes, at), Refreshing(snaps)], registry))
  {
    hide RowOk, Held, VerifiedRow, Refreshed, RefreshRow;
    var ws := [Verifying(false, outcomes, at), Refreshing(snaps)];
    var middle := VerifiedFile(false, outcomes, at, registry);
    assert ws[..1] == [Verifying(false, outcomes, at)] && ws[..1][..0] == [];
    assert AllWritten(env.qualified, ws[..1], registry) == middle;
    VerifyingHeals(env, false, outcomes, at, registry);
    var i :| 0 <= i < |registry| && registry[i] == p;
    RowByRow(false, outcomes, at, registry, i);
    assert middle[i] in middle && Reenabled(snaps, middle[i]);
    RefreshLoadsIff(env, snaps, middle);
  }

  // ---------- rows of other writers ----------

  /** A row the builder does not own, and not a bonding curve. */
  predicate Foreign(p: Pool) { !Mine(p) && p.dbc.None? }

  /** The run has its own, newer record of the row. */
  predicate Renews(w: Write, p: Pool) {
    match w
    case Building(verified, now, dumps) => HasId(Built(verified, now, dumps), p.id)
    case AddingPrivate(_, products) => !Unscanned(products, p.address)
    case Verifying(all, _, _) => Target(all, p)
    case _ => false
  }

  lemma StaysUnlessBuilt(qualified: set<Mint>, w: Write, registry: seq<Pool>, p: Pool)
    requires w.Building? && p in registry && !Mine(p) && !Renews(w, p)
    ensures p in Written(qualified, w, registry)
  {
    RebuildContents(w.verified, w.now, w.dumps, registry, p);
  }

  lemma ForeignRowStays(qualified: set<Mint>, w: Write, registry: seq<Pool>, p: Pool)
    requires Distinct(registry) && p in registry && Foreign(p) && !Renews(w, p)
    ensures p in Written(qualified, w, registry)
  {
    hide Built, Addresses, OrcaLegs, RaydiumLegs, AllRoutes, ScanAll, FromRows, Admit, RefreshRow, VerifiedRow;
    match w
    case Building(_, _, _) => StaysUnlessBuilt(qualified, w, registry, p);
    case AddingPrivate(now, products) =>
      FromDistinctRows(registry);
      UnscannedStaysInAll(qualified, now, registry, products, p);
    case Refreshing(snaps) =>
      var i :| 0 <= i < |registry| && registry[i] == p;
      RefreshRowOfForeign(snaps, p);
      assert Refreshed(snaps, registry)[i] == p;
    case Verifying(all, outcomes, at) =>
      var i :| 0 <= i < |registry| && registry[i] == p;
      RowByRow(all, outcomes, at, registry, i);
      assert VerifiedFile(all, outcomes, at, registry)[i] == p;
    case AdmittingLegs(_, _, _, _) =>
    case AddingRoutes(_, _, _) =>
    case AddingForensics(_, _, _) =>
  }

  lemma RefreshRowOfForeign(snaps: map<Address, Snapshot>, p: Pool)
    requires p.dbc.None?
    ensures RefreshRow(snaps, p) == p
  {
  }

  /** No foreign row is lost or changed by any sequence of writers that never records it anew. */
  lemma {:induction false} NoForeignRowIsLost(env: Env, ws: seq<Write>, registry: seq<Pool>, p: Pool)
    requires Kept(env, registry) && AllSound(env, ws)
    requires p in registry && Foreign(p) && forall w :: w in ws ==> !Renews(w, p)
    ensures p in AllWritten(env.qualified, ws, registry)
    decreases |ws|
  {
    hide Written, Sound, Renews, Foreign, RowOk;
    if ws != [] {
      var n := |ws| - 1;
      assert ws[n] in ws;
      NoForeignRowIsLost(env, ws[..n], registry, p);
      AnyOrderKeeps(env, ws[..n], registry);
      ForeignRowStays(env.qualified, ws[n], AllWritten(env.qualified, ws[..n], registry), p);
    }
  }

  // ---------- and their pools ----------

  /** A row of this id that is not the builder's. */
  predicate HeldElsewhere(registry: seq<Pool>, id: Id) { exists p :: p in registry && p.id == id && !Mine(p) }

  /** Private issuers are not among the public ones. */
  predicate PrivateIsPrivate(w: Write) {
    w.AddingPrivate? ==> forall product :: product in w.products ==> product.provider !in PUBLIC_PROVIDERS
  }

  lemma {:induction false} ScanHolds(qualified: set<Mint>, now: nat, pools: seq<Pool>, product: Product,
      scan: seq<Scanned>, id: Id)
    requires product.provider !in PUBLIC_PROVIDERS && HeldElsewhere(pools, id)
    requires forall p :: p in pools ==> p.id.address == p.address
    requires forall s :: s in scan && s.address == id.address ==> id.venue == "meteora"
    ensures var after := Scan(qualified, now, pools, product, scan);
            HeldElsewhere(after, id) && forall p :: p in after ==> p.id.address == p.address
    decreases |scan|
  {
    hide Routable;
    if scan != [] {
      var n := |scan| - 1;
      var front, s := Scan(qualified, now, pools, product, scan[..n]), scan[n];
      ScanHolds(qualified, now, pools, product, scan[..n], id);
      assert s in scan;
      if s.meta.Some? && Routable(qualified, product, s.meta.value) {
        var row := PrivateRow(now, Lookup(front, s.address), product, s.address, s.meta.value);
        var p :| p in front && p.id == id && !Mine(p);
        assert p.address != row.address ==> p in Upsert(front, row);
      }
    }
  }

  lemma {:induction false} ScanAllHolds(env: Env, now: nat, pools: seq<Pool>, products: seq<Product>, id: Id)
    requires ProductsOk(env, products) && id.venue == env.home(id.address) && HeldElsewhere(pools, id)
    requires forall product :: product in products ==> product.provider !in PUBLIC_PROVIDERS
    requires forall p :: p in pools ==> p.id.address == p.address
    ensures var after := ScanAll(env.qualified, now, pools, products);
            HeldElsewhere(after, id) && forall p :: p in after ==> p.id.address == p.address
    decreases |products|
  {
    hide Scan, HeldElsewhere;
    if products != [] {
      var n := |products| - 1;
      assert products[n] in products;
      ScanAllHolds(env, now, pools, products[..n], id);
      if products[n].scan.Some? {
        var scan := products[n].scan.value;
        forall s | s in scan && s.address == id.address ensures id.venue == "meteora" {}
        ScanHolds(env.qualified, now, ScanAll(env.qualified, now, pools, products[..n]), products[n], scan, id);
      }
    }
  }

  lemma HeldAfter(env: Env, w: Write, registry: seq<Pool>, id: Id)
    requires Kept(env, registry) && Sound(env, w) && PrivateIsPrivate(w) && HeldElsewhere(registry, id)
    requires w.Building? ==> !HasId(Built(w.verified, w.now, w.dumps), id)
    ensures HeldElsewhere(Written(env.qualified, w, registry), id)
  {
    hide Built, Addresses, OrcaLegs, RaydiumLegs, AllRoutes, ScanAll, FromRows, Admit, VerifiedRow, Held, Candidates,
        Added;
    var p :| p in registry && p.id == id && !Mine(p);
    var i :| 0 <= i < |registry| && registry[i] == p;
    match w
    case Building(verified, now, dumps) => RebuildContents(verified, now, dumps, registry, p);
    case AddingPrivate(now, products) =>
      FromDistinctRows(registry);
      assert RowOk(env, p);
      ScanAllHolds(env, now, registry, products, id);
      var q :| q in ScanAll(env.qualified, now, registry, products) && q.id == id && !Mine(q);
      assert q in PrivateWritten(env.qualified, now, registry, products);
    case Refreshing(snaps) => assert Refreshed(snaps, registry)[i] in Refreshed(snaps, registry);
    case Verifying(all, outcomes, at) =>
      RowByRow(all, outcomes, at, registry, i);
      assert VerifiedFile(all, outcomes, at, registry)[i] in VerifiedFile(all, outcomes, at, registry);
    case AdmittingLegs(now, minTvl, orca, raydium) =>
      assert p in LegsWritten(env.qualified, now, minTvl, registry, orca, raydium);
    case AddingRoutes(now, minTvl, assets) => assert p in RoutesWritten(env.qualified, now, minTvl, registry, assets);
    case AddingForensics(now, accounts, hops) => assert p in ForensicsWritten(now, accounts, registry, hops);
  }

  /** No pool of another writer leaves the file, whatever its row goes through, as long as no rebuild
      makes it the builder's own. */
  lemma {:induction false} NoForeignPoolIsLost(env: Env, ws: seq<Write>, registry: seq<Pool>, id: Id)
    requires Kept(env, registry) && AllSound(env, ws) && HeldElsewhere(registry, id)
    requires forall w ::
        w in ws ==> PrivateIsPrivate(w) && (w.Building? ==> !HasId(Built(w.verified, w.now, w.dumps), id))
    ensures HeldElsewhere(AllWritten(env.qualified, ws, registry), id)
    decreases |ws|
  {
    hide Written, Sound, PrivateIsPrivate, HasId, Built, HeldElsewhere, Kept;
    if ws != [] {
      var n := |ws| - 1;
      assert ws[n] in ws;
      NoForeignPoolIsLost(env, ws[..n], registry, id);
      AnyOrderKeeps(env, ws[..n], registry);
      HeldAfter(env, ws[n], AllWritten(env.qualified, ws[..n], registry), id);
    }
  }

  /** What the builder does not own it never takes back, not even what it wrote itself: a
      paired-infrastructure row is carried through every later rebuild whose dumps no longer hold
      the pool. */
  lemma {:induction false} StaleInfrastructureStays(qualified: set<Mint>, ws: seq<Write>, registry: seq<Pool>, p: Pool)
    requires p in registry && p.eligibility == STOCK_PAIRED_INFRASTRUCTURE
    requires forall w :: w in ws ==> w.Building? && !Renews(w, p)
    ensures p in AllWritten(qualified, ws, registry)
    decreases |ws|
  {
    hide Renews, Rebuilt;
    if ws != [] {
      var n := |ws| - 1;
      assert ws[n] in ws;
      StaleInfrastructureStays(qualified, ws[..n], registry, p);
      StaysUnlessBuilt(qualified, ws[n], AllWritten(qualified, ws[..n], registry), p);
    }
  }
}
