/** The pools an aggregator routed through, appended to the file unsorted and never enabled. */
module RegistryForensics {
  import opened Common
  import opened PoolOrder
  import opened Registry
  import opened RegistryBuilder

  datatype Family = RAYDIUM | DLMM | DAMM_V2 | WHIRLPOOL

  function VenueOf(family: Family): string {
    match family
    case RAYDIUM => "raydium"
    case DLMM => "meteora"
    case DAMM_V2 => "meteora-damm-v2"
    case WHIRLPOOL => "orca"
  }

  function TypeOf(family: Family): string {
    match family
    case RAYDIUM => "clmm"
    case DLMM => "dlmm"
    case DAMM_V2 => "damm_v2"
    case WHIRLPOOL => "whirlpool"
  }

  datatype Stock = Stock(representationId: RepId, mint: Mint, provider: string)

  /** A pool of a route plan for a stock, on a venue there is an adapter for. */
  datatype Hop = Hop(pool: Address, family: Family, stock: Stock)

  /** A pool account that could be decoded: its program, its mints, and the USDC in its vault in
      dollars, when that could be read. */
  datatype Account = Account(owner: Option<Family>, mintA: Mint, mintB: Mint, usdc: Option<real>)

  /** The row as it is first written down. */
  function Unsized(now: nat, hop: Hop, account: Account): Pool {
    Pool(Id(VenueOf(hop.family), hop.pool), hop.stock.representationId, hop.stock.mint, hop.stock.provider, hop.pool,
         TypeOf(hop.family), account.mintA, account.mintB, None, now, now, ROUTER_ELIGIBLE, None,
         false, Some(NotSized), FORENSICS, DISCOVERED, None)
  }

  /** Sized by twice the USDC side, when the vault could be read. */
  function Sized(p: Pool, usdc: Option<real>): Pool {
    if usdc.None? then p
    else
      var tvl := usdc.value * 2.0;
      p.(tvlUsd := Some(tvl), enabled := false,
         disabledReason := Some(if tvl >= MIN_TVL_USD then ForensicsOnly else BelowFloor(Some(tvl))))
  }

  function ForensicRow(now: nat, hop: Hop, account: Account): Pool { Sized(Unsized(now, hop, account), account.usdc) }

  function Pools(hops: seq<Hop>): set<Address> { set hop | hop in hops :: hop.pool }

  /** The first hop of every pool not yet known. */
  function Candidates(known: set<Address>, hops: seq<Hop>): seq<Hop> {
    if hops == [] then []
    else
      var n := |hops| - 1;
      var front := Candidates(known, hops[..n]);
      if hops[n].pool in known || hops[n].pool in Pools(front) then front else front + [hops[n]]
  }

  /** The account belongs to the venue's program and pairs exactly the stock with USDC. */
  predicate Confirmed(accounts: map<Address, Account>, hop: Hop) {
    && hop.pool in accounts && accounts[hop.pool].owner == Some(hop.family)
    && {accounts[hop.pool].mintA, accounts[hop.pool].mintB} == {hop.stock.mint, USDC}
    && accounts[hop.pool].mintA != accounts[hop.pool].mintB
  }

  function Added(now: nat, accounts: map<Address, Account>, candidates: seq<Hop>): seq<Pool> {
    if candidates == [] then []
    else
      var n := |candidates| - 1;
      var front, hop := Added(now, accounts, candidates[..n]), candidates[n];
      if Confirmed(accounts, hop) then front + [ForensicRow(now, hop, accounts[hop.pool])] else front
  }

  function ForensicsAdded(now: nat, accounts: map<Address, Account>, registry: seq<Pool>, hops: seq<Hop>): seq<Pool> {
    Added(now, accounts, Candidates(Addresses(registry), hops))
  }

  function ForensicsWritten(now: nat, accounts: map<Address, Account>, registry: seq<Pool>, hops: seq<Hop>): seq<Pool> {
    registry + ForensicsAdded(now, accounts, registry, hops)
  }

  method CollectCandidates(known: set<Address>, hops: seq<Hop>) returns (candidates: seq<Hop>)
    ensures candidates == Candidates(known, hops)
  {
    candidates := [];
    var seen: set<Address> := {};
    for k := 0 to |hops|
      invariant candidates == Candidates(known, hops[..k]) && seen == Pools(candidates)
    {
      assert hops[..k + 1][..k] == hops[..k];
      if hops[k].pool !in known && hops[k].pool !in seen {
        assert Pools(candidates + [hops[k]]) == Pools(candidates) + {hops[k].pool};
        candidates := candidates + [hops[k]];
        seen := seen + {hops[k].pool};
      }
    }
    assert hops[..|hops|] == hops;
  }

  /** Rows are pushed unsized, sized in a second pass, and appended. */
  method DiscoverFromJupiter(now: nat, accounts: map<Address, Account>, registry: seq<Pool>, hops: seq<Hop>)
    returns (merged: seq<Pool>)
    ensures merged == ForensicsWritten(now, accounts, registry, hops)
  {
    hide Unsized, Candidates, Addresses;
    var candidates := CollectCandidates(Addresses(registry), hops);
    if candidates == [] { return registry; }
    var added: seq<Pool>, vaults: seq<Option<real>> := [], [];
    for k := 0 to |candidates|
      invariant |added| == |vaults| == |Added(now, accounts, candidates[..k])|
      invariant forall i :: 0 <= i < |added| ==> Sized(added[i], vaults[i]) == Added(now, accounts, candidates[..k])[i]
    {
      assert candidates[..k + 1][..k] == candidates[..k];
      if !Confirmed(accounts, candidates[k]) { continue; }
      var account := accounts[candidates[k].pool];
      added, vaults := added + [Unsized(now, candidates[k], account)], vaults + [account.usdc];
    }
    assert candidates[..|candidates|] == candidates;
    for k := 0 to |added|
      invariant |added| == |vaults| == |Added(now, accounts, candidates)|
      invariant forall i :: 0 <= i < |added| ==>
                  (if i < k then added[i] else Sized(added[i], vaults[i])) == Added(now, accounts, candidates)[i]
    {
      if vaults[k].None? { continue; }
      added := added[k := Sized(added[k], vaults[k])];
    }
    assert added == Added(now, accounts, candidates);
    merged := registry + added;
  }

  // ---------- what the append keeps ----------

  /** Stocks are not USDC, their ids are listed ones, and a program's accounts are its venue's pools. */
  predicate HopsOk(env: Env, accounts: map<Address, Account>, hops: seq<Hop>) {
    forall hop :: hop in hops ==>
      && hop.stock.mint != USDC && hop.stock.representationId.Listed?
      && (hop.pool in accounts && accounts[hop.pool].owner == Some(hop.family) ==>
          env.home(hop.pool) == VenueOf(hop.family))
  }

  /** A row known from forensics alone: a USDC pair of its stock, not enabled and not verified. */
  predicate IsForensic(p: Pool) {
    && p.origin == FORENSICS && p.verification == DISCOVERED && !p.enabled
    && p.eligibility == ROUTER_ELIGIBLE && ExactPair(p.baseMint, p.quoteMint, p.mint)
  }

  lemma ForensicRowIsOk(env: Env, now: nat, accounts: map<Address, Account>, hops: seq<Hop>, hop: Hop)
    requires HopsOk(env, accounts, hops) && hop in hops && Confirmed(accounts, hop)
    ensures var p := ForensicRow(now, hop, accounts[hop.pool]); RowOk(env, p) && IsForensic(p) && p.address == hop.pool
  {
    var account := accounts[hop.pool];
    assert hop.stock.mint in {account.mintA, account.mintB} && USDC in {account.mintA, account.mintB};
  }

  lemma {:induction false} CandidatesAreNew(known: set<Address>, hops: seq<Hop>)
    ensures var c := Candidates(known, hops);
            && (forall i, j :: 0 <= i < j < |c| ==> c[i].pool != c[j].pool)
            && (forall hop :: hop in c ==> hop in hops && hop.pool !in known)
            && forall hop :: hop in hops && hop.pool !in known ==> hop.pool in Pools(c)
    decreases |hops|
  {
    if hops != [] {
      var n := |hops| - 1;
      CandidatesAreNew(known, hops[..n]);
      assert Pools(Candidates(known, hops[..n])) <= Pools(Candidates(known, hops));
      assert hops == hops[..n] + [hops[n]];
      assert forall i ::
          0 <= i < |Candidates(known, hops[..n])| ==>
          Candidates(known, hops[..n])[i].pool in Pools(Candidates(known, hops[..n]));
    }
  }

  /** The rows are those of the confirmed candidates: on the venue's own program, and with exactly the stock
      and USDC. */
  lemma {:induction false} AddedAre(now: nat, accounts: map<Address, Account>, candidates: seq<Hop>, p: Pool)
    ensures p in Added(now, accounts, candidates) <==> exists hop :: hop in candidates && Confirmed(accounts, hop) &&
                                                         p == ForensicRow(now, hop, accounts[hop.pool])
    decreases |candidates|
  {
    hide Confirmed, ForensicRow;
    if candidates != [] {
      var n := |candidates| - 1;
      AddedAre(now, accounts, candidates[..n], p);
      assert candidates == candidates[..n] + [candidates[n]];
    }
  }

  lemma ForensicRowIs(now: nat, accounts: map<Address, Account>, hop: Hop)
    ensures Confirmed(accounts, hop) <==>
              && hop.pool in accounts && accounts[hop.pool].owner == Some(hop.family)
              && hop.stock.mint != USDC && var account := accounts[hop.pool];
                 ((account.mintA == hop.stock.mint && account.mintB == USDC)
                  || (account.mintB == hop.stock.mint && account.mintA == USDC))
    ensures Confirmed(accounts, hop) ==>
              var account := accounts[hop.pool];
              var p := ForensicRow(now, hop, account);
              && p.address == p.id.address == hop.pool && p.mint == hop.stock.mint && p.provider == hop.stock.provider
              && p.id.venue == (match hop.family case RAYDIUM => "raydium" case DLMM => "meteora"
                                                 case DAMM_V2 => "meteora-damm-v2" case WHIRLPOOL => "orca")
              && p.poolType == (match hop.family case RAYDIUM => "clmm" case DLMM => "dlmm"
                                                 case DAMM_V2 => "damm_v2" case WHIRLPOOL => "whirlpool")
              && p.representationId == hop.stock.representationId && p.baseMint == account.mintA
              && p.quoteMint == account.mintB && p.discoveredAt == p.verifiedAt == now && p.dbc.None? && !p.enabled
              && match account.usdc
                 case None => p.tvlUsd.None? && p.disabledReason == Some(NotSized)
                 case Some(usdc) =>
                   && p.tvlUsd == Some(usdc + usdc)
                   && p.disabledReason == Some(if usdc >= 500.0 then ForensicsOnly else BelowFloor(p.tvlUsd))
  {
    if hop.pool in accounts {
      var account := accounts[hop.pool];
      if {account.mintA, account.mintB} == {hop.stock.mint, USDC} {
        assert account.mintA in {hop.stock.mint, USDC} && account.mintB in {hop.stock.mint, USDC};
        assert hop.stock.mint in {account.mintA, account.mintB} && USDC in {account.mintA, account.mintB};
      }
    }
  }

  lemma {:induction false} AddedIsOk(
    env: Env, now: nat, accounts: map<Address, Account>, hops: seq<Hop>, candidates: seq<Hop>)
    requires HopsOk(env, accounts, hops) && forall hop :: hop in candidates ==> hop in hops
    requires forall i, j :: 0 <= i < j < |candidates| ==> candidates[i].pool != candidates[j].pool
    ensures var rows := Added(now, accounts, candidates);
            && Kept(env, rows)
            && forall p :: p in rows ==> IsForensic(p) && exists hop :: hop in candidates && hop.pool == p.address
    decreases |candidates|
  {
    hide RowOk, IsForensic, ForensicRow, HopsOk;
    if candidates != [] {
      var n := |candidates| - 1;
      var front, hop := Added(now, accounts, candidates[..n]), candidates[n];
      AddedIsOk(env, now, accounts, hops, candidates[..n]);
      if Confirmed(accounts, hop) {
        ForensicRowIsOk(env, now, accounts, hops, hop);
        LastIsNew(front, ForensicRow(now, hop, accounts[hop.pool]));
      }
    }
  }

  /** Everything but the order survives the append; the order does exactly when the appended rows are
      in order and continue it. */
  lemma ForensicsKeep(env: Env, now: nat, accounts: map<Address, Account>, registry: seq<Pool>, hops: seq<Hop>)
    requires Kept(env, registry) && HopsOk(env, accounts, hops)
    ensures var rows, after := ForensicsAdded(now, accounts, registry, hops),
        ForensicsWritten(now, accounts, registry, hops);
            && Kept(env, after) && (forall p :: p in rows ==> IsForensic(p))
            && (forall p :: p in after && Refused(p) ==> p in registry)
            && (Sorted(after) <==>
                  && Sorted(registry) && Sorted(rows)
                  && (registry == [] || rows == [] || !Less(KeyOf(rows[0]), KeyOf(registry[|registry| - 1]))))
  {
    hide RowOk, Less, KeyOf, Candidates, Added, HopsOk;
    var candidates := Candidates(Addresses(registry), hops);
    CandidatesAreNew(Addresses(registry), hops);
    AddedIsOk(env, now, accounts, hops, candidates);
    DistinctTogether(registry, Added(now, accounts, candidates));
    AppendSortedIff(registry, Added(now, accounts, candidates));
  }

  /** One new pool of a representation that comes before the file's last one is enough to break it. */
  lemma ForensicsBreakOrder(now: nat, accounts: map<Address, Account>, registry: seq<Pool>, hop: Hop)
    requires registry != [] && hop.pool !in Addresses(registry) && Confirmed(accounts, hop)
    requires hop.stock.representationId.rank < registry[|registry| - 1].representationId.rank
    ensures !Sorted(ForensicsWritten(now, accounts, registry, [hop]))
  {
    var row := ForensicRow(now, hop, accounts[hop.pool]);
    assert [hop][..0] == [] && Candidates(Addresses(registry), [hop]) == [hop];
    assert Added(now, accounts, []) == [] && Added(now, accounts, [hop]) == [] + [row] == [row];
    AppendSortedIff(registry, [row]);
  }

  // ---------- and what a rebuild does to it ----------

  /** A rebuild drops every forensic row of a public provider; of the others it drops those that it
      builds itself.  The pool stays in the file exactly when a row of its id is built or carried. */
  lemma ForensicRowSurvivesIff(env: Env, verified: Verified, now: nat, dumps: seq<Found>, existing: seq<Pool>, p: Pool)
    requires Kept(env, existing) && DumpsOk(env, verified, now, dumps) && p in existing && p.origin == FORENSICS
    requires p.eligibility == ROUTER_ELIGIBLE
    ensures var built, after := Built(verified, now, dumps), Rebuilt(verified, now, dumps, existing);
            && (p in after <==> p.provider !in PUBLIC_PROVIDERS && !HasId(built, p.id))
            && (HasId(after, p.id) <==> HasId(built, p.id) || p.provider !in PUBLIC_PROVIDERS)
  {
    hide Built, RowOk, DumpsOk, Rebuilt;
    var built, after := Built(verified, now, dumps), Rebuilt(verified, now, dumps, existing);
    BuiltKept(env, verified, now, dumps);
    RebuildContents(verified, now, dumps, existing, p);
    IdsAreUnique(env, existing);
    if HasId(after, p.id) {
      var i :| 0 <= i < |after| && after[i].id == p.id;
      RebuildContents(verified, now, dumps, existing, after[i]);
      if after[i] in built {
        var j :| 0 <= j < |built| && built[j] == after[i];
      } else {
        var j :| 0 <= j < |existing| && existing[j] == after[i];
        var k :| 0 <= k < |existing| && existing[k] == p;
        assert j == k;
      }
    }
    if HasId(built, p.id) {
      var i :| 0 <= i < |built| && built[i].id == p.id;
      RebuildContents(verified, now, dumps, existing, built[i]);
      var j :| 0 <= j < |after| && after[j] == built[i];
    } else if p in after {
      var j :| 0 <= j < |after| && after[j] == p;
    }
  }
}
