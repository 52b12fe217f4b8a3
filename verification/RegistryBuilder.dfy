/** The builder: admission of the discovery dumps, and the rebuild that carries over every row it
    does not own. */
module RegistryBuilder {
  import opened Common
  import opened PoolOrder
  import opened Registry

  datatype Representation = Representation(id: RepId, provider: string)

  type Verified = map<Mint, Representation>

  /** One row of a discovery dump, venue by venue. */
  datatype Found =
    | RaydiumPool(
        mint: Mint, address: Address, mintA: Mint, mintB: Mint, program: Option<Program>, tvl: Option<real>,
            fetchedAt: nat)
    | OrcaPool(
        address: Address, whirlpool: bool, stockMint: Mint, counterMint: Mint, baseMint: Mint, quoteMint: Mint,
        tvl: Option<real>, fetchedAt: nat)
    | ByrealPool(
        mint: Mint, address: Address, baseMint: Mint, quoteMint: Mint, depthUsd: real, error: bool, fetchedAt: nat)
    | MeteoraPair(
        mint: Mint, address: Address, x: Mint, y: Mint, blacklisted: bool, tvl: Option<real>, fetchedAt: nat)
    | DbcPool(
        address: Address, config: Address, baseMint: Mint, quoteMint: Mint, lifecycle: Lifecycle, slot: Option<nat>,
        successor: Successor, successorPool: Option<Address>, fetchedAt: nat)
    | DammPool(address: Address, a: Mint, b: Mint, fetchedAt: nat)

  /** The Raydium programs that are known. */
  datatype Program = CLMM | CPMM | AMM_V4

  function PoolTypeOf(program: Program): string {
    match program
    case CLMM => "clmm"
    case CPMM => "cpmm"
    case AMM_V4 => "amm_v4"
  }

  datatype Classified = Classified(mint: Mint, rep: Representation, eligibility: Eligibility)

  /** The pair decides: with USDC a route, with anything else infrastructure, the quote side first. */
  function Classify(verified: Verified, a: Mint, b: Mint): Option<Classified> {
    if ExactPair(a, b, a) && a in verified then Some(Classified(a, verified[a], ROUTER_ELIGIBLE))
    else if ExactPair(a, b, b) && b in verified then Some(Classified(b, verified[b], ROUTER_ELIGIBLE))
    else if b in verified then Some(Classified(b, verified[b], STOCK_PAIRED_INFRASTRUCTURE))
    else if a in verified then Some(Classified(a, verified[a], STOCK_PAIRED_INFRASTRUCTURE))
    else None
  }

  predicate Shallow(tvl: Option<real>) { tvl.None? || tvl.value < MIN_TVL_USD }

  /** A row as the builder writes it: enabled unless there is a reason not to, and not yet verified. */
  function NewRow(
    venue: string, rep: Representation, mint: Mint, address: Address, poolType: string, base: Mint, quote: Mint,
    tvl: Option<real>, discoveredAt: nat, now: nat, eligibility: Eligibility, dbc: Option<Dbc>,
        reason: Option<Reason>): Pool
  {
    Pool(Id(venue, address), rep.id, mint, rep.provider, address, poolType, base, quote, tvl, discoveredAt, now,
         eligibility, dbc, reason.None?, reason, DUMP, DISCOVERED, None)
  }

  /** The row a dump entry becomes, or nothing when it is rejected. */
  function Admit(verified: Verified, now: nat, f: Found): Option<Pool> {
    match f
    case RaydiumPool(mint, address, a, b, program, tvl, at) =>
      if mint !in verified || !ExactPair(a, b, mint) || program.None? then None
      else
        var poolType := PoolTypeOf(program.value);
        var reason := if program.value == AMM_V4 then Some(NoAdapter(poolType))
                      else if Shallow(tvl) then Some(BelowFloor(tvl)) else None;
        Some(NewRow("raydium", verified[mint], mint, address, poolType, a, b, tvl, at, now,
                    ROUTER_ELIGIBLE, None, reason))
    case OrcaPool(address, whirlpool, stock, counter, base, quote, tvl, at) =>
      if stock !in verified || !whirlpool || counter != USDC then None
      else
        var reason := if Shallow(tvl) then Some(BelowFloor(tvl)) else None;
        Some(NewRow("orca", verified[stock], stock, address, "whirlpool", base, quote, tvl, at, now, ROUTER_ELIGIBLE,
            None, reason))
    case ByrealPool(mint, address, base, quote, depth, error, at) =>
      if mint !in verified || !ExactPair(base, quote, mint) then None
      else
        var reason := if error then Some(CensusError) else if depth < MIN_TVL_USD then Some(FillsOnly(depth)) else None;
        Some(NewRow("byreal", verified[mint], mint, address, "byreal_clmm", base, quote, Some(depth), at, now,
                    ROUTER_ELIGIBLE, None, reason))
    case MeteoraPair(mint, address, x, y, blacklisted, tvl, at) =>
      if mint !in verified || !ExactPair(x, y, mint) then None
      else
        var reason := if blacklisted then Some(Blacklisted) else if tvl.None? then Some(UnknownLiquidity)
                      else if tvl.value < MIN_TVL_USD then Some(BelowFloor(tvl)) else None;
        Some(NewRow("meteora", verified[mint], mint, address, "dlmm", x, y, tvl, at, now,
                    ROUTER_ELIGIBLE, None, reason))
    case DbcPool(address, config, base, quote, lifecycle, slot, successor, successorPool, at) =>
      var c := Classify(verified, base, quote);
      if c.None? then None
      else
        var confirmedAt := if successor == CONFIRMED then Some(at) else None;
        var dbc := Dbc(config, lifecycle, at, slot, successor, successorPool, confirmedAt);
        var reason := if c.value.eligibility != ROUTER_ELIGIBLE then Some(NotUsdcRoute)
                      else if lifecycle != BONDING then Some(LifecycleIs(lifecycle)) else None;
        Some(NewRow("meteora-dbc", c.value.rep, c.value.mint, address, "dbc", base, quote, None, at, now,
                    c.value.eligibility, Some(dbc), reason))
    case DammPool(address, a, b, at) =>
      var c := Classify(verified, a, b);
      if c.None? then None
      else
        var reason := if c.value.eligibility != ROUTER_ELIGIBLE then Some(NotUsdcRoute) else None;
        Some(NewRow("meteora-damm-v2", c.value.rep, c.value.mint, address, "damm_v2", a, b, None, at, now,
                    c.value.eligibility, None, reason))
  }

  function Built(verified: Verified, now: nat, dumps: seq<Found>): seq<Pool> {
    if dumps == [] then []
    else
      var n := |dumps| - 1;
      var row := Admit(verified, now, dumps[n]);
      if row.None? then Built(verified, now, dumps[..n]) else Built(verified, now, dumps[..n]) + [row.value]
  }

  const PUBLIC_PROVIDERS: set<string> := {"xstocks", "backpack", "ondo"}

  /** Rows the builder owns: direct routes of the public issuers. */
  predicate Mine(p: Pool) { p.provider in PUBLIC_PROVIDERS && p.eligibility == ROUTER_ELIGIBLE }

  predicate HasId(pools: seq<Pool>, id: Id) { exists i :: 0 <= i < |pools| && pools[i].id == id }

  predicate Carried(built: seq<Pool>, p: Pool) { !Mine(p) && !HasId(built, p.id) }

  /** The file after a rebuild. */
  function Rebuilt(verified: Verified, now: nat, dumps: seq<Found>, existing: seq<Pool>): seq<Pool> {
    var built := Built(verified, now, dumps);
    Sort(built + Filter(existing, p => Carried(built, p)))
  }

  method Rebuild(verified: Verified, now: nat, dumps: seq<Found>, existing: seq<Pool>) returns (pools: seq<Pool>)
    ensures pools == Rebuilt(verified, now, dumps, existing)
  {
    pools := [];
    for k := 0 to |dumps|
      invariant pools == Built(verified, now, dumps[..k])
    {
      assert dumps[..k + 1][..k] == dumps[..k];
      var row := Admit(verified, now, dumps[k]);
      if row.Some? { pools := pools + [row.value]; }
    }
    assert dumps[..|dumps|] == dumps;
    ghost var keep := (p: Pool) => Carried(Built(verified, now, dumps), p);
    var built := pools;
    var carried: seq<Pool> := [];
    for k := 0 to |existing|
      invariant carried == Filter(existing[..k], keep)
    {
      assert existing[..k + 1][..k] == existing[..k];
      if Carried(built, existing[k]) { carried := carried + [existing[k]]; }
    }
    assert existing[..|existing|] == existing;
    pools := pools + carried;
    pools := Sort(pools);
  }

  // ---------- rebuilding twice ----------

  /** Building over its own output changes nothing, down to the order of the rows. */
  lemma RebuildIsIdempotent(verified: Verified, now: nat, dumps: seq<Found>, existing: seq<Pool>)
    ensures var once := Rebuilt(verified, now, dumps, existing); Rebuilt(verified, now, dumps, once) == once
  {
    var built := Built(verified, now, dumps);
    var keep := (p: Pool) => Carried(built, p);
    var carried := Filter(existing, keep);
    var once := Sort(built + carried);
    FilterOfSort(built + carried, keep);
    FilterConcat(built, carried, keep);
    FilterNone(built, keep);
    forall p | p in carried ensures keep(p) { InFilter(existing, keep, p); }
    FilterAll(carried, keep);
    assert Filter(once, keep) == Sort([] + carried);
    assert [] + carried == carried;
    SortAfterSorting(built, carried);
  }

  /** The output holds the rows built from the dumps and, unchanged, every other row it does not
      own; nothing else. */
  lemma RebuildContents(verified: Verified, now: nat, dumps: seq<Found>, existing: seq<Pool>, p: Pool)
    ensures var built := Built(verified, now, dumps);
            p in Rebuilt(verified, now, dumps, existing) <==>
                p in built || (p in existing && !Mine(p) && !HasId(built, p.id))
    ensures Mine(p) <==> p.eligibility == ROUTER_ELIGIBLE && p.provider in {"xstocks", "backpack", "ondo"}
    ensures HasId(Built(verified, now, dumps), p.id) <==> exists q :: q in Built(verified, now, dumps) && q.id == p.id
  {
    var built := Built(verified, now, dumps);
    InFilter(existing, q => Carried(built, q), p);
    if q :| q in built && q.id == p.id {
      var i :| 0 <= i < |built| && built[i] == q;
    }
  }

  // ---------- what the dumps must be ----------

  /** Representations are of stocks, not of USDC, and have ids of their own kind. */
  predicate VerifiedOk(verified: Verified) {
    USDC !in verified && forall m :: m in verified ==> verified[m].id.Listed?
  }

  /** What the builder takes from an admitted entry without testing it: the Orca census names the
      pool's two mints and the stock's counterpart consistently, a pool pairs two mints, and the
      lifecycle reading names a successor exactly when it is confirmed. */
  predicate Faithful(f: Found) {
    match f
    case OrcaPool(_, _, stock, _, base, quote, _, _) => ExactPair(base, quote, stock)
    case DbcPool(_, _, base, quote, lifecycle, _, successor, successorPool, _) =>
      base != quote && SuccessorLoads(lifecycle, successor, successorPool)
    case DammPool(_, a, b, _) => a != b
    case _ => true
  }

  lemma {:induction false} BuiltRow(verified: Verified, now: nat, dumps: seq<Found>, p: Pool)
    ensures p in Built(verified, now, dumps) <==> exists f :: f in dumps && Admit(verified, now, f) == Some(p)
    decreases |dumps|
  {
    hide Admit;
    if dumps != [] {
      var n := |dumps| - 1;
      BuiltRow(verified, now, dumps[..n], p);
      assert dumps == dumps[..n] + [dumps[n]];
    }
  }

  /** Every admitted row describes a verified mint under its representation, states its address and
      its state truthfully, and is what the loader demands exactly when the entry is faithful. */
  lemma AdmittedRow(qualified: set<Mint>, verified: Verified, now: nat, f: Found)
    requires VerifiedOk(verified)
    ensures var r := Admit(verified, now, f);
            r.Some? ==>
              && r.value.mint in verified &&
                  verified[r.value.mint] == Representation(r.value.representationId, r.value.provider)
              && r.value.id.address == r.value.address == f.address
              && r.value.origin == DUMP && r.value.verification == DISCOVERED
              && (Held(qualified, r.value) <==> Faithful(f))
  {
  }

  /** Which entries are admitted: those of a verified mint with exactly USDC, on a known program; and of
      the curves and their successors those with a verified mint on either side. */
  predicate Admits(verified: Verified, f: Found) {
    match f
    case RaydiumPool(mint, _, a, b, program, _, _) => mint in verified && {a, b} == {mint, USDC} && program.Some?
    case OrcaPool(_, whirlpool, stock, counter, _, _, _, _) => stock in verified && whirlpool && counter == USDC
    case ByrealPool(mint, _, base, quote, _, _, _) => mint in verified && {base, quote} == {mint, USDC}
    case MeteoraPair(mint, _, x, y, _, _, _) => mint in verified && {x, y} == {mint, USDC}
    case DbcPool(_, _, base, quote, _, _, _, _, _) => base in verified || quote in verified
    case DammPool(_, a, b, _) => a in verified || b in verified
  }

  predicate WithUsdc(verified: Verified, a: Mint, b: Mint) {
    (a == USDC && b in verified) || (b == USDC && a in verified)
  }

  predicate AtLeast1000(tvl: Option<real>) { tvl.Some? && tvl.value >= 1000.0 }

  /** Which of them are enabled, from the entry alone. */
  predicate Usable(verified: Verified, f: Found) {
    match f
    case RaydiumPool(_, _, _, _, program, tvl, _) => program in {Some(CLMM), Some(CPMM)} && AtLeast1000(tvl)
    case OrcaPool(_, _, _, _, _, _, tvl, _) => AtLeast1000(tvl)
    case ByrealPool(_, _, _, _, depth, error, _) => !error && depth >= 1000.0
    case MeteoraPair(_, _, _, _, blacklisted, tvl, _) => !blacklisted && AtLeast1000(tvl)
    case DbcPool(_, _, base, quote, lifecycle, _, _, _, _) => WithUsdc(verified, base, quote) && lifecycle == BONDING
    case DammPool(_, a, b, _) => WithUsdc(verified, a, b)
  }

  /** The row states its venue, its pair and its size as the entry does, and why it is disabled. */
  predicate Describes(verified: Verified, now: nat, f: Found, p: Pool) {
    && p.id.address == p.address == f.address && p.discoveredAt == f.fetchedAt && p.verifiedAt == now
    && match f
       case RaydiumPool(mint, _, a, b, program, tvl, _) =>
         && p.id.venue == "raydium" && p.mint == mint && p.baseMint == a && p.quoteMint == b && p.tvlUsd == tvl
         && p.eligibility == ROUTER_ELIGIBLE && p.dbc.None?
         && program.Some?
         && p.poolType == (match program.value case CLMM => "clmm" case CPMM => "cpmm" case AMM_V4 => "amm_v4")
         && (p.disabledReason == Some(NoAdapter("amm_v4")) <==> program == Some(AMM_V4))
       case OrcaPool(_, _, stock, _, base, quote, tvl, _) =>
         && p.id.venue == "orca" && p.poolType == "whirlpool" && p.mint == stock && p.tvlUsd == tvl && p.dbc.None?
         && p.baseMint == base && p.quoteMint == quote && p.eligibility == ROUTER_ELIGIBLE
       case ByrealPool(mint, _, base, quote, depth, error, _) =>
         && p.id.venue == "byreal" && p.poolType == "byreal_clmm" && p.mint == mint && p.tvlUsd == Some(depth)
         && p.baseMint == base && p.quoteMint == quote && p.eligibility == ROUTER_ELIGIBLE && p.dbc.None?
         && (p.disabledReason == Some(CensusError) <==> error)
       case MeteoraPair(mint, _, x, y, blacklisted, tvl, _) =>
         && p.id.venue == "meteora" && p.poolType == "dlmm" && p.mint == mint && p.tvlUsd == tvl && p.dbc.None?
         && p.baseMint == x && p.quoteMint == y && p.eligibility == ROUTER_ELIGIBLE
         && (p.disabledReason == Some(Blacklisted) <==> blacklisted)
       case DbcPool(_, config, base, quote, lifecycle, slot, successor, successorPool, at) =>
         && p.id.venue == "meteora-dbc" && p.poolType == "dbc" && p.tvlUsd.None?
         && p.baseMint == base && p.quoteMint == quote && p.mint in {base, quote}
         && p.eligibility == (if WithUsdc(verified, base, quote) then ROUTER_ELIGIBLE else STOCK_PAIRED_INFRASTRUCTURE)
         && p.dbc == Some(Dbc(config, lifecycle, at, slot, successor, successorPool,
                              if successor == CONFIRMED then Some(at) else None))
         && (p.disabledReason == Some(LifecycleIs(lifecycle)) <==>
             WithUsdc(verified, base, quote) && lifecycle != BONDING)
       case DammPool(_, a, b, _) =>
         && p.id.venue == "meteora-damm-v2" && p.poolType == "damm_v2" && p.tvlUsd.None? && p.dbc.None?
         && p.baseMint == a && p.quoteMint == b && p.mint in {a, b}
         && p.eligibility == if WithUsdc(verified, a, b) then ROUTER_ELIGIBLE else STOCK_PAIRED_INFRASTRUCTURE
  }

  lemma Pairs(a: Mint, b: Mint, mint: Mint)
    ensures ExactPair(a, b, mint) <==> {a, b} == {mint, USDC}
  {
    if {a, b} == {mint, USDC} {
      assert a in {mint, USDC} && b in {mint, USDC} && mint in {a, b} && USDC in {a, b};
    }
  }

  /** Exactly which entries become rows, what the rows say, and which are enabled. */
  lemma AdmittedIff(verified: Verified, now: nat, f: Found)
    ensures var r := Admit(verified, now, f);
            && (r.Some? <==> Admits(verified, f))
            && (r.Some? ==> Describes(verified, now, f, r.value) && (r.value.enabled <==> Usable(verified, f)))
  {
    match f
    case RaydiumPool(mint, _, a, b, _, _, _) => Pairs(a, b, mint);
    case ByrealPool(mint, _, base, quote, _, _, _) => Pairs(base, quote, mint);
    case MeteoraPair(mint, _, x, y, _, _, _) => Pairs(x, y, mint);
    case _ =>
  }

  /** Every admitted entry has its row in the written file, enabled exactly when the entry is usable. */
  lemma EntryIsWritten(verified: Verified, now: nat, dumps: seq<Found>, existing: seq<Pool>, f: Found)
    requires f in dumps && Admits(verified, f)
    ensures exists p :: p in Rebuilt(verified, now, dumps, existing) && Describes(verified, now, f, p) &&
                        (p.enabled <==> Usable(verified, f))
  {
    hide Admit, Built, Describes, Usable, Admits, Rebuilt;
    AdmittedIff(verified, now, f);
    var p := Admit(verified, now, f).value;
    BuiltRow(verified, now, dumps, p);
    RebuildContents(verified, now, dumps, existing, p);
  }

  /** Why a venue's pool may be unusable whatever it holds. */
  predicate VenueReason(reason: Option<Reason>) {
    reason.Some? && (reason.value.NoAdapter? || reason.value == CensusError || reason.value == Blacklisted)
  }

  /** A USDC route whose own figures are good enough: a curve still bonding, a pool known to hold the
      minimum, or a successor pool, which nobody has sized. */
  predicate Deep(p: Pool) {
    && p.eligibility == ROUTER_ELIGIBLE
    && if p.dbc.Some? then p.dbc.value.lifecycle == BONDING
       else p.poolType == "damm_v2" || (p.tvlUsd.Some? && p.tvlUsd.value >= MIN_TVL_USD)
  }

  lemma AdmittedEnabled(verified: Verified, now: nat, f: Found)
    ensures var r := Admit(verified, now, f);
        r.Some? ==> (r.value.enabled <==> Deep(r.value) && !VenueReason(r.value.disabledReason))
  {
  }

  /** Whatever the file said before, of the rows the builder owns or builds exactly the deep ones are
      enabled afterwards that no venue reason speaks against. */
  lemma EnabledIff(verified: Verified, now: nat, dumps: seq<Found>, existing: seq<Pool>, p: Pool)
    requires p in Rebuilt(verified, now, dumps, existing)
    requires Mine(p) || HasId(Built(verified, now, dumps), p.id)
    ensures p.enabled <==> Deep(p) && !VenueReason(p.disabledReason)
    ensures exists f :: f in dumps && Admits(verified, f) && Describes(verified, now, f, p) &&
                        (p.enabled <==> Usable(verified, f))
  {
    hide Admit, Built, Describes, Usable, Admits;
    RebuildContents(verified, now, dumps, existing, p);
    BuiltRow(verified, now, dumps, p);
    var f :| f in dumps && Admit(verified, now, f) == Some(p);
    AdmittedEnabled(verified, now, f);
    AdmittedIff(verified, now, f);
  }

  /** The pair alone decides the eligibility, whichever of its mints is verified. */
  lemma ClassifiedIff(verified: Verified, a: Mint, b: Mint)
    requires USDC !in verified
    ensures var c := Classify(verified, a, b);
            && (c.None? <==> a !in verified && b !in verified)
            && (c.Some? ==> c.value.mint in {a, b} && c.value.mint in verified
                            && (c.value.eligibility == ROUTER_ELIGIBLE <==> a == USDC || b == USDC)
                            && (a in verified && b in verified ==> c.value.mint == b))
  {
  }

  /** The loader would take the built rows exactly when the admitted entries are faithful. */
  lemma BuiltIsOkIff(qualified: set<Mint>, verified: Verified, now: nat, dumps: seq<Found>)
    requires VerifiedOk(verified)
    ensures (forall p :: p in Built(verified, now, dumps) ==> Held(qualified, p)) <==>
              forall f :: f in dumps && Admit(verified, now, f).Some? ==> Faithful(f)
  {
    hide Admit, Built, Held, Faithful;
    var built := Built(verified, now, dumps);
    forall f | f in dumps && Admit(verified, now, f).Some?
      ensures Admit(verified, now, f).value in built &&
          (Held(qualified, Admit(verified, now, f).value) <==> Faithful(f))
    {
      BuiltRow(verified, now, dumps, Admit(verified, now, f).value);
      AdmittedRow(qualified, verified, now, f);
    }
    forall p | p in built ensures exists f :: f in dumps && Admit(verified, now, f) == Some(p) {
      BuiltRow(verified, now, dumps, p);
    }
  }

  predicate NoRepeats(verified: Verified, now: nat, dumps: seq<Found>) {
    forall i, j ::
        0 <= i < j < |dumps| && Admit(verified, now, dumps[i]).Some? && Admit(verified, now, dumps[j]).Some? ==>
      dumps[i].address != dumps[j].address
  }

  /** The built rows repeat no address exactly when no two admitted entries share one. */
  lemma {:induction false} BuiltDistinctIff(verified: Verified, now: nat, dumps: seq<Found>)
    ensures Distinct(Built(verified, now, dumps)) <==> NoRepeats(verified, now, dumps)
    decreases |dumps|
  {
    hide Admit;
    if dumps != [] {
      var n := |dumps| - 1;
      var row := Admit(verified, now, dumps[n]);
      BuiltDistinctIff(verified, now, dumps[..n]);
      if row.Some? {
        LastIsNew(Built(verified, now, dumps[..n]), row.value);
        NewAmongAdmitted(verified, now, dumps[..n], dumps[n]);
        LastAdmitted(verified, now, dumps);
      }
    }
  }

  lemma AdmittedAddress(verified: Verified, now: nat, f: Found)
    ensures Admit(verified, now, f).Some? ==> Admit(verified, now, f).value.address == f.address
  {
  }

  lemma NewAmongAdmitted(verified: Verified, now: nat, dumps: seq<Found>, last: Found)
    requires Admit(verified, now, last).Some?
    ensures NewAddress(Built(verified, now, dumps), Admit(verified, now, last).value) <==>
              forall f :: f in dumps && Admit(verified, now, f).Some? ==> f.address != last.address
  {
    hide Admit;
    var built := Built(verified, now, dumps);
    AdmittedAddress(verified, now, last);
    forall q | q in built
      ensures exists f :: f in dumps && Admit(verified, now, f) == Some(q) && f.address == q.address
    {
      BuiltRow(verified, now, dumps, q);
      var f :| f in dumps && Admit(verified, now, f) == Some(q);
      AdmittedAddress(verified, now, f);
    }
    forall f | f in dumps && Admit(verified, now, f).Some?
      ensures Admit(verified, now, f).value in built && Admit(verified, now, f).value.address == f.address
    {
      BuiltRow(verified, now, dumps, Admit(verified, now, f).value);
      AdmittedAddress(verified, now, f);
    }
  }

  lemma LastAdmitted(verified: Verified, now: nat, dumps: seq<Found>)
    requires dumps != [] && Admit(verified, now, dumps[|dumps| - 1]).Some?
    ensures var n := |dumps| - 1;
            NoRepeats(verified, now, dumps) <==>
              && NoRepeats(verified, now, dumps[..n])
              && forall f :: f in dumps[..n] && Admit(verified, now, f).Some? ==> f.address != dumps[n].address
  {
    hide Admit;
    var n := |dumps| - 1;
    if NoRepeats(verified, now, dumps) {
      forall f | f in dumps[..n] && Admit(verified, now, f).Some? ensures f.address != dumps[n].address {
        var i :| 0 <= i < n && dumps[i] == f;
      }
    }
  }

  /** The dumps as the discovery passes write them: faithful, without repeats, one venue an address. */
  predicate DumpsOk(env: Env, verified: Verified, now: nat, dumps: seq<Found>) {
    && VerifiedOk(verified) && NoRepeats(verified, now, dumps)
    && (forall f :: f in dumps && Admit(verified, now, f).Some? ==> Faithful(f))
    && forall p :: p in Built(verified, now, dumps) ==> p.id.venue == env.home(p.address)
  }

  lemma BuiltKept(env: Env, verified: Verified, now: nat, dumps: seq<Found>)
    requires DumpsOk(env, verified, now, dumps)
    ensures Kept(env, Built(verified, now, dumps))
    ensures forall p :: p in Built(verified, now, dumps) ==> p.origin == DUMP && p.verification == DISCOVERED
  {
    hide Admit, Built, Held, Faithful;
    BuiltDistinctIff(verified, now, dumps);
    BuiltIsOkIff(env.qualified, verified, now, dumps);
    forall p | p in Built(verified, now, dumps)
      ensures p.origin == DUMP && p.verification == DISCOVERED && p.id.address == p.address
    {
      BuiltRow(verified, now, dumps, p);
      var f :| f in dumps && Admit(verified, now, f) == Some(p);
      AdmittedRow(env.qualified, verified, now, f);
    }
  }

  /** A rebuild needs no order of the file it reads; it restores the order and refuses no row anew. */
  lemma RebuildKeeps(env: Env, verified: Verified, now: nat, dumps: seq<Found>, existing: seq<Pool>)
    requires Kept(env, existing) && DumpsOk(env, verified, now, dumps)
    ensures Kept(env, Rebuilt(verified, now, dumps, existing)) && Sorted(Rebuilt(verified, now, dumps, existing))
    ensures forall p :: p in Rebuilt(verified, now, dumps, existing) && Refused(p) ==> p in existing
  {
    hide Built, Held, DumpsOk;
    var built := Built(verified, now, dumps);
    var keep := (p: Pool) => Carried(built, p);
    var carried := Filter(existing, keep);
    BuiltKept(env, verified, now, dumps);
    FilterDistinct(existing, keep);
    forall p | p in carried ensures p in existing && Carried(built, p) { InFilter(existing, keep, p); }
    forall x, y | x in built && y in carried ensures x.address != y.address {
      assert RowOk(env, x) && RowOk(env, y);
      var i :| 0 <= i < |built| && built[i] == x;
    }
    DistinctTogether(built, carried);
    SortKeeps(env, built + carried);
  }
}
