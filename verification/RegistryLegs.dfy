/** The admission of routing legs: pools of a stock with a qualified intermediate. */
module RegistryLegs {
  import opened Common
  import opened PoolOrder
  import opened Registry

  /** A pool of a dump.  `tvl` is its valuation, `usable` says that mint facts and balances are there. */
  datatype Leg = Leg(
    venue: string, address: Address, representationId: RepId, mint: Mint, provider: string, poolType: string,
    baseMint: Mint, quoteMint: Mint, usable: bool, tvl: Option<real>, fetchedAt: nat)

  function OtherSide(leg: Leg): Mint { if leg.baseMint == leg.mint then leg.quoteMint else leg.baseMint }

  /** A qualified intermediate on the other side, and everything needed to value the pool. */
  predicate Admissible(qualified: set<Mint>, leg: Leg) {
    OtherSide(leg) != USDC && OtherSide(leg) in qualified && leg.usable && leg.tvl.Some?
  }

  function LegRow(now: nat, minTvl: real, leg: Leg): Pool
    requires leg.tvl.Some?
  {
    var quotable := leg.poolType == "whirlpool" || leg.poolType == "clmm";
    var deep := leg.tvl.value >= minTvl && quotable;
    Pool(Id(leg.venue, leg.address), leg.representationId, leg.mint, leg.provider, leg.address, leg.poolType,
         leg.baseMint, leg.quoteMint, leg.tvl, leg.fetchedAt, now, ROUTING_LEG, None, deep,
         if deep then None else if quotable then Some(BelowFloor(leg.tvl)) else Some(NoAdapter(leg.poolType)),
         LEGS, DISCOVERED, None)
  }

  /** The Orca loop tests `known` but never adds to it. */
  function OrcaLegs(qualified: set<Mint>, now: nat, minTvl: real, known: set<Address>, legs: seq<Leg>): seq<Pool> {
    if legs == [] then []
    else
      var n := |legs| - 1;
      var front := OrcaLegs(qualified, now, minTvl, known, legs[..n]);
      if legs[n].address in known || !Admissible(qualified, legs[n]) then front
      else front + [LegRow(now, minTvl, legs[n])]
  }

  /** The Raydium loop adds what it admits. */
  function RaydiumLegs(qualified: set<Mint>, now: nat, minTvl: real, known: set<Address>, legs: seq<Leg>): seq<Pool> {
    if legs == [] then []
    else
      var n := |legs| - 1;
      var front := RaydiumLegs(qualified, now, minTvl, known, legs[..n]);
      if legs[n].address in known + Addresses(front) || !Admissible(qualified, legs[n]) then front
      else front + [LegRow(now, minTvl, legs[n])]
  }

  function LegsWritten(qualified: set<Mint>, now: nat, minTvl: real, registry: seq<Pool>, orca: seq<Leg>,
      raydium: seq<Leg>): seq<Pool> {
    var known := Addresses(registry);
    Sort(registry + (OrcaLegs(qualified, now, minTvl, known, orca) +
                     RaydiumLegs(qualified, now, minTvl, known, raydium)))
  }

  method AdmitLegs(qualified: set<Mint>, now: nat, minTvl: real, registry: seq<Pool>, orca: seq<Leg>,
      raydium: seq<Leg>) returns (merged: seq<Pool>)
    ensures merged == LegsWritten(qualified, now, minTvl, registry, orca, raydium)
  {
    var known := Addresses(registry);
    var admitted: seq<Pool> := [];
    for k := 0 to |orca|
      invariant admitted == OrcaLegs(qualified, now, minTvl, known, orca[..k])
    {
      assert orca[..k + 1][..k] == orca[..k];
      if orca[k].address in known { continue; }
      if !Admissible(qualified, orca[k]) { continue; }
      admitted := admitted + [LegRow(now, minTvl, orca[k])];
    }
    assert orca[..|orca|] == orca;
    ghost var first, before := admitted, known;
    for k := 0 to |raydium|
      invariant admitted == first + RaydiumLegs(qualified, now, minTvl, before, raydium[..k])
      invariant known == before + Addresses(RaydiumLegs(qualified, now, minTvl, before, raydium[..k]))
    {
      assert raydium[..k + 1][..k] == raydium[..k];
      ghost var rows := RaydiumLegs(qualified, now, minTvl, before, raydium[..k]);
      if raydium[k].address in known || !Admissible(qualified, raydium[k]) { continue; }
      known := known + {raydium[k].address};
      admitted := admitted + [LegRow(now, minTvl, raydium[k])];
      assert Addresses(rows + [LegRow(now, minTvl, raydium[k])]) == Addresses(rows) + {raydium[k].address};
    }
    assert raydium[..|raydium|] == raydium;
    merged := Sort(registry + admitted);
  }

  // ---------- what the legs keep ----------

  /** What neither loop tests: the leg is of a stock, its mint is in the pair it takes the other side
      of, the pair has two mints, and the id is not that of an intermediate's own pool. */
  predicate LegSound(leg: Leg) {
    && leg.mint != USDC && (leg.mint == leg.baseMint || leg.mint == leg.quoteMint) && leg.baseMint != leg.quoteMint
    && !(leg.representationId.IntermediateOf? && leg.representationId.mint == leg.mint) && leg.poolType != "dbc"
  }

  /** And its venue is that of its address. */
  predicate LegFaithful(env: Env, leg: Leg) { LegSound(leg) && leg.venue == env.home(leg.address) }

  /** An admitted leg's row is what the loader demands exactly when the leg is sound, and right exactly
      when it is faithful; it is enabled exactly from the floor on, on the quotable pool types. */
  lemma LegRowIsOkIff(env: Env, now: nat, minTvl: real, leg: Leg)
    requires Admissible(env.qualified, leg)
    ensures Held(env.qualified, LegRow(now, minTvl, leg)) <==> LegSound(leg)
    ensures RowOk(env, LegRow(now, minTvl, leg)) <==> LegFaithful(env, leg)
    ensures LegRow(now, minTvl, leg).enabled <==> leg.tvl.value >= minTvl && leg.poolType in {"whirlpool", "clmm"}
  {
  }

  predicate Candidate(qualified: set<Mint>, known: set<Address>, leg: Leg) {
    leg.address !in known && Admissible(qualified, leg)
  }

  /** The row of some candidate. */
  predicate RowOf(qualified: set<Mint>, now: nat, minTvl: real, known: set<Address>, legs: seq<Leg>, p: Pool) {
    exists leg :: leg in legs && Candidate(qualified, known, leg) && p == LegRow(now, minTvl, leg)
  }

  /** The Orca rows are exactly those of the candidates. */
  lemma {:induction false} OrcaLegsAre(qualified: set<Mint>, now: nat, minTvl: real, known: set<Address>,
      legs: seq<Leg>, p: Pool)
    ensures p in OrcaLegs(qualified, now, minTvl, known, legs) <==> RowOf(qualified, now, minTvl, known, legs, p)
    decreases |legs|
  {
    hide LegRow, Admissible;
    if legs != [] {
      var n := |legs| - 1;
      OrcaLegsAre(qualified, now, minTvl, known, legs[..n], p);
      assert legs == legs[..n] + [legs[n]];
    }
  }

  predicate NoRepeatedCandidates(qualified: set<Mint>, known: set<Address>, legs: seq<Leg>) {
    forall i, j ::
        0 <= i < j < |legs| && Candidate(qualified, known, legs[i]) && Candidate(qualified, known, legs[j]) ==>
      legs[i].address != legs[j].address
  }

  /** They repeat no address exactly when no two candidates of the dump share one. */
  lemma {:induction false} OrcaLegsDistinctIff(qualified: set<Mint>, now: nat, minTvl: real, known: set<Address>,
      legs: seq<Leg>)
    ensures Distinct(OrcaLegs(qualified, now, minTvl, known, legs)) <==> NoRepeatedCandidates(qualified, known, legs)
    decreases |legs|
  {
    if legs != [] {
      var n := |legs| - 1;
      var front := OrcaLegs(qualified, now, minTvl, known, legs[..n]);
      OrcaLegsDistinctIff(qualified, now, minTvl, known, legs[..n]);
      if Candidate(qualified, known, legs[n]) {
        LastIsNew(front, LegRow(now, minTvl, legs[n]));
        NewAmongCandidates(qualified, now, minTvl, known, legs[..n], legs[n]);
        LastCandidate(qualified, known, legs);
      }
    }
  }

  lemma NewAmongCandidates(qualified: set<Mint>, now: nat, minTvl: real, known: set<Address>, legs: seq<Leg>, last: Leg)
    requires Candidate(qualified, known, last)
    ensures NewAddress(OrcaLegs(qualified, now, minTvl, known, legs), LegRow(now, minTvl, last)) <==>
              forall leg :: leg in legs && Candidate(qualified, known, leg) ==> leg.address != last.address
  {
    var rows := OrcaLegs(qualified, now, minTvl, known, legs);
    forall q | q in rows ensures RowOf(qualified, now, minTvl, known, legs, q) {
      OrcaLegsAre(qualified, now, minTvl, known, legs, q);
    }
    forall leg | leg in legs && Candidate(qualified, known, leg) ensures LegRow(now, minTvl, leg) in rows {
      OrcaLegsAre(qualified, now, minTvl, known, legs, LegRow(now, minTvl, leg));
    }
  }

  lemma LastCandidate(qualified: set<Mint>, known: set<Address>, legs: seq<Leg>)
    requires legs != [] && Candidate(qualified, known, legs[|legs| - 1])
    ensures var n := |legs| - 1;
            NoRepeatedCandidates(qualified, known, legs) <==>
              && NoRepeatedCandidates(qualified, known, legs[..n])
              && forall leg :: leg in legs[..n] && Candidate(qualified, known, leg) ==> leg.address != legs[n].address
  {
    hide Admissible;
    var n := |legs| - 1;
    if NoRepeatedCandidates(qualified, known, legs) {
      forall leg | leg in legs[..n] && Candidate(qualified, known, leg) ensures leg.address != legs[n].address {
        var i :| 0 <= i < n && legs[i] == leg;
      }
    }
  }

  /** The Raydium rows are distinct whatever the dump repeats, and each is that of a candidate. */
  lemma {:induction false} RaydiumLegsAreNew(qualified: set<Mint>, now: nat, minTvl: real, known: set<Address>,
      legs: seq<Leg>)
    ensures var rows := RaydiumLegs(qualified, now, minTvl, known, legs);
            Distinct(rows) && forall p :: p in rows ==> RowOf(qualified, now, minTvl, known, legs, p)
    decreases |legs|
  {
    hide Admissible;
    if legs != [] {
      var n := |legs| - 1;
      RaydiumLegsAreNew(qualified, now, minTvl, known, legs[..n]);
      forall p | RowOf(qualified, now, minTvl, known, legs[..n], p)
        ensures RowOf(qualified, now, minTvl, known, legs, p)
      {
      }
      if legs[n].tvl.Some? {
        LastIsNew(RaydiumLegs(qualified, now, minTvl, known, legs[..n]), LegRow(now, minTvl, legs[n]));
      }
    }
  }

  /** The Raydium loop gives every candidate a row, that of the first leg with its address. */
  lemma {:induction false} NoLegIsDropped(qualified: set<Mint>, now: nat, minTvl: real, known: set<Address>,
      legs: seq<Leg>, leg: Leg)
    requires leg in legs && Candidate(qualified, known, leg)
    ensures leg.address in Addresses(RaydiumLegs(qualified, now, minTvl, known, legs))
    decreases |legs|
  {
    hide LegRow;
    var n := |legs| - 1;
    var front, rows := RaydiumLegs(qualified, now, minTvl, known, legs[..n]),
        RaydiumLegs(qualified, now, minTvl, known, legs);
    assert Addresses(front) <= Addresses(rows);
    if leg in legs[..n] {
      NoLegIsDropped(qualified, now, minTvl, known, legs[..n], leg);
    } else {
      assert leg == legs[n];
      if leg.address !in Addresses(front) {
        AddressesSnoc(front, LegRow(now, minTvl, leg));
        LegRowAddress(now, minTvl, leg);
      }
    }
  }

  lemma LegRowAddress(now: nat, minTvl: real, leg: Leg)
    requires leg.tvl.Some?
    ensures LegRow(now, minTvl, leg).address == leg.address
  {
  }

  /** The first candidate of its address. */
  predicate FirstCandidate(qualified: set<Mint>, known: set<Address>, legs: seq<Leg>, i: nat) {
    && i < |legs| && Candidate(qualified, known, legs[i])
    && forall j :: 0 <= j < i && Candidate(qualified, known, legs[j]) ==> legs[j].address != legs[i].address
  }

  predicate RowOfFirst(qualified: set<Mint>, now: nat, minTvl: real, known: set<Address>, legs: seq<Leg>, p: Pool) {
    exists i :: 0 <= i < |legs| && FirstCandidate(qualified, known, legs, i) && p == LegRow(now, minTvl, legs[i])
  }

  lemma FirstInFront(qualified: set<Mint>, known: set<Address>, legs: seq<Leg>, i: nat)
    requires i < |legs| - 1
    ensures FirstCandidate(qualified, known, legs, i) <==> FirstCandidate(qualified, known, legs[..|legs| - 1], i)
  {
  }

  predicate HasCandidate(qualified: set<Mint>, known: set<Address>, legs: seq<Leg>, address: Address) {
    exists leg :: leg in legs && leg.address == address && Candidate(qualified, known, leg)
  }

  /** The Raydium loop takes every address of a candidate, and no other. */
  lemma RaydiumAddresses(qualified: set<Mint>, now: nat, minTvl: real, known: set<Address>, legs: seq<Leg>,
      address: Address)
    ensures address in Addresses(RaydiumLegs(qualified, now, minTvl, known, legs)) <==>
              HasCandidate(qualified, known, legs, address)
  {
    hide RaydiumLegs, Candidate, LegRow, RowOf;
    if HasCandidate(qualified, known, legs, address) {
      var leg :| leg in legs && leg.address == address && Candidate(qualified, known, leg);
      NoLegIsDropped(qualified, now, minTvl, known, legs, leg);
    }
    if address in Addresses(RaydiumLegs(qualified, now, minTvl, known, legs)) {
      var p :| p in RaydiumLegs(qualified, now, minTvl, known, legs) && p.address == address;
      RaydiumLegsAreNew(qualified, now, minTvl, known, legs);
      RowHasCandidate(qualified, now, minTvl, known, legs, p);
    }
  }

  lemma RowHasCandidate(qualified: set<Mint>, now: nat, minTvl: real, known: set<Address>, legs: seq<Leg>, p: Pool)
    requires RowOf(qualified, now, minTvl, known, legs, p)
    ensures HasCandidate(qualified, known, legs, p.address)
  {
    var leg :| leg in legs && Candidate(qualified, known, leg) && p == LegRow(now, minTvl, leg);
    LegRowAddress(now, minTvl, leg);
  }

  /** The last leg is a first candidate exactly when the Raydium loop admits it. */
  lemma LastIsFirst(qualified: set<Mint>, now: nat, minTvl: real, known: set<Address>, legs: seq<Leg>)
    requires legs != []
    ensures var n := |legs| - 1;
            FirstCandidate(qualified, known, legs, n) <==>
              Candidate(qualified, known, legs[n])
              && legs[n].address !in Addresses(RaydiumLegs(qualified, now, minTvl, known, legs[..n]))
  {
    hide RaydiumLegs, Addresses, Candidate;
    var n := |legs| - 1;
    RaydiumAddresses(qualified, now, minTvl, known, legs[..n], legs[n].address);
    if HasCandidate(qualified, known, legs[..n], legs[n].address) {
      var leg :| leg in legs[..n] && leg.address == legs[n].address && Candidate(qualified, known, leg);
      var j :| 0 <= j < n && legs[..n][j] == leg;
    } else {
      forall j | 0 <= j < n && Candidate(qualified, known, legs[j]) ensures legs[j].address != legs[n].address {
        assert legs[..n][j] in legs[..n];
      }
    }
  }

  /** The Raydium rows are exactly those of the first candidates. */
  lemma {:induction false} RaydiumLegsAre(qualified: set<Mint>, now: nat, minTvl: real, known: set<Address>,
      legs: seq<Leg>, p: Pool)
    ensures p in RaydiumLegs(qualified, now, minTvl, known, legs) <==>
              RowOfFirst(qualified, now, minTvl, known, legs, p)
    decreases |legs|
  {
    hide LegRow, Admissible, FirstCandidate, Addresses;
    if legs != [] {
      var n := |legs| - 1;
      RaydiumLegsAre(qualified, now, minTvl, known, legs[..n], p);
      LastIsFirst(qualified, now, minTvl, known, legs);
      forall i: nat | i < n
        ensures FirstCandidate(qualified, known, legs, i) <==> FirstCandidate(qualified, known, legs[..n], i)
      {
        FirstInFront(qualified, known, legs, i);
      }
      FirstIsInRange(qualified, known, legs);
      FirstIsInRange(qualified, known, legs[..n]);
    } else {
      FirstIsInRange(qualified, known, legs);
    }
  }

  lemma FirstIsInRange(qualified: set<Mint>, known: set<Address>, legs: seq<Leg>)
    ensures forall i: nat :: FirstCandidate(qualified, known, legs, i) ==>
              i < |legs| && Candidate(qualified, known, legs[i])
  {
  }

  /** The loader would take the rows of either dump exactly when the legs written are sound: all
      candidates of the Orca dump, and the first of each address of the Raydium dump. */
  lemma LegsHeldIff(env: Env, now: nat, minTvl: real, known: set<Address>, legs: seq<Leg>)
    ensures (forall p :: p in OrcaLegs(env.qualified, now, minTvl, known, legs) ==> Held(env.qualified, p)) <==>
              forall leg :: leg in legs && Candidate(env.qualified, known, leg) ==> LegSound(leg)
    ensures (forall p :: p in RaydiumLegs(env.qualified, now, minTvl, known, legs) ==> Held(env.qualified, p)) <==>
              forall i: nat :: FirstCandidate(env.qualified, known, legs, i) ==> LegSound(legs[i])
  {
    hide Held, LegSound, LegRow, OrcaLegs, RaydiumLegs, RowOk, FirstCandidate;
    var qualified := env.qualified;
    FirstIsInRange(qualified, known, legs);
    forall leg | leg in legs && Candidate(qualified, known, leg)
      ensures LegRow(now, minTvl, leg) in OrcaLegs(qualified, now, minTvl, known, legs)
      ensures Held(qualified, LegRow(now, minTvl, leg)) <==> LegSound(leg)
    {
      OrcaLegsAre(qualified, now, minTvl, known, legs, LegRow(now, minTvl, leg));
      LegRowIsOkIff(env, now, minTvl, leg);
    }
    forall p | p in OrcaLegs(qualified, now, minTvl, known, legs)
      ensures RowOf(qualified, now, minTvl, known, legs, p)
    {
      OrcaLegsAre(qualified, now, minTvl, known, legs, p);
    }
    forall i: nat | FirstCandidate(qualified, known, legs, i)
      ensures LegRow(now, minTvl, legs[i]) in RaydiumLegs(qualified, now, minTvl, known, legs)
      ensures Held(qualified, LegRow(now, minTvl, legs[i])) <==> LegSound(legs[i])
    {
      RaydiumLegsAre(qualified, now, minTvl, known, legs, LegRow(now, minTvl, legs[i]));
      LegRowIsOkIff(env, now, minTvl, legs[i]);
    }
    forall p | p in RaydiumLegs(qualified, now, minTvl, known, legs)
      ensures RowOfFirst(qualified, now, minTvl, known, legs, p)
    {
      RaydiumLegsAre(qualified, now, minTvl, known, legs, p);
    }
  }

  /** No address is in both dumps, as no address has two venues. */
  predicate LegsApart(orca: seq<Leg>, raydium: seq<Leg>) {
    forall x, y :: x in orca && y in raydium ==> x.address != y.address
  }

  predicate LegsFaithful(env: Env, legs: seq<Leg>) { forall leg :: leg in legs ==> LegFaithful(env, leg) }

  predicate NoRepeatedLegs(legs: seq<Leg>) {
    forall i, j :: 0 <= i < j < |legs| ==> legs[i].address != legs[j].address
  }

  lemma RowOfIsOk(env: Env, now: nat, minTvl: real, known: set<Address>, legs: seq<Leg>, p: Pool)
    requires LegsFaithful(env, legs) && RowOf(env.qualified, now, minTvl, known, legs, p)
    ensures RowOk(env, p) && p.address !in known && p.origin == LEGS && p.verification == DISCOVERED
    ensures exists leg :: leg in legs && leg.address == p.address
  {
    var leg :| leg in legs && Candidate(env.qualified, known, leg) && p == LegRow(now, minTvl, leg);
    LegRowIsOkIff(env, now, minTvl, leg);
  }

  lemma LegsKeep(env: Env, now: nat, minTvl: real, registry: seq<Pool>, orca: seq<Leg>, raydium: seq<Leg>)
    requires Kept(env, registry) && NoRepeatedLegs(orca) && LegsApart(orca, raydium)
    requires LegsFaithful(env, orca) && LegsFaithful(env, raydium)
    ensures var after := LegsWritten(env.qualified, now, minTvl, registry, orca, raydium);
            Kept(env, after) && Sorted(after) && forall p :: p in after && Refused(p) ==> p in registry
  {
    hide OrcaLegs, RaydiumLegs, RowOf, RowOk;
    var known, qualified := Addresses(registry), env.qualified;
    var first, second := OrcaLegs(qualified, now, minTvl, known, orca),
        RaydiumLegs(qualified, now, minTvl, known, raydium);
    OrcaLegsDistinctIff(qualified, now, minTvl, known, orca);
    RaydiumLegsAreNew(qualified, now, minTvl, known, raydium);
    forall p | p in first
      ensures RowOk(env, p) && p.address !in known && p.verification == DISCOVERED && exists leg ::
          leg in orca && leg.address == p.address
    {
      OrcaLegsAre(qualified, now, minTvl, known, orca, p);
      RowOfIsOk(env, now, minTvl, known, orca, p);
    }
    forall p | p in second
      ensures RowOk(env, p) && p.address !in known && p.verification == DISCOVERED && exists leg ::
          leg in raydium && leg.address == p.address
    {
      RowOfIsOk(env, now, minTvl, known, raydium, p);
    }
    DistinctTogether(first, second);
    DistinctTogether(registry, first + second);
    SortKeeps(env, registry + (first + second));
  }

  /** The written file holds the old rows, unchanged, and the admitted ones; nothing else. */
  lemma LegsContents(qualified: set<Mint>, now: nat, minTvl: real, registry: seq<Pool>, orca: seq<Leg>,
      raydium: seq<Leg>, p: Pool)
    ensures var known := Addresses(registry);
            p in LegsWritten(qualified, now, minTvl, registry, orca, raydium) <==>
              || p in registry || RowOf(qualified, now, minTvl, known, orca, p)
              || RowOfFirst(qualified, now, minTvl, known, raydium, p)
  {
    hide OrcaLegs, RaydiumLegs, RowOf, RowOfFirst, Addresses;
    OrcaLegsAre(qualified, now, minTvl, Addresses(registry), orca, p);
    RaydiumLegsAre(qualified, now, minTvl, Addresses(registry), raydium, p);
  }

  /** What makes a leg admissible: an intermediate that is qualified, and not USDC, opposite the stock. */
  lemma AdmissibleLegIff(qualified: set<Mint>, leg: Leg)
    ensures leg.baseMint == leg.mint ==> (Admissible(qualified, leg) <==>
              leg.quoteMint in qualified && leg.quoteMint != USDC && leg.usable && leg.tvl.Some?)
    ensures leg.baseMint != leg.mint ==> (Admissible(qualified, leg) <==>
              leg.baseMint in qualified && leg.baseMint != USDC && leg.usable && leg.tvl.Some?)
  {
  }

  /** The row of a leg states its pair, its depth and its reason. */
  lemma LegRowIs(now: nat, minTvl: real, leg: Leg)
    requires leg.tvl.Some?
    ensures var p := LegRow(now, minTvl, leg);
            && p.id == Id(leg.venue, leg.address) && p.address == leg.address && p.mint == leg.mint
            && p.representationId == leg.representationId && p.provider == leg.provider
            && p.poolType == leg.poolType && p.baseMint == leg.baseMint && p.quoteMint == leg.quoteMint
            && p.tvlUsd == leg.tvl && p.discoveredAt == leg.fetchedAt && p.verifiedAt == now
            && p.eligibility == ROUTING_LEG && p.dbc.None? && p.verification == DISCOVERED && p.onchainVerifiedAt.None?
            && p.disabledReason == if leg.poolType !in {"whirlpool", "clmm"} then Some(NoAdapter(leg.poolType))
                                   else if leg.tvl.value < minTvl then Some(BelowFloor(leg.tvl)) else None
  {
  }

  /** Without the assumption the Orca loop does write an address twice: a leg it admits is admitted
      again when the dump repeats it. */
  lemma RepeatedOrcaLegIsWrittenTwice(qualified: set<Mint>, now: nat, minTvl: real, known: set<Address>, leg: Leg)
    requires Candidate(qualified, known, leg)
    ensures !Distinct(OrcaLegs(qualified, now, minTvl, known, [leg, leg]))
    ensures |RaydiumLegs(qualified, now, minTvl, known, [leg, leg])| == 1
  {
    var row := LegRow(now, minTvl, leg);
    assert [leg, leg][..1] == [leg] && [leg][..0] == [];
    assert OrcaLegs(qualified, now, minTvl, known, [leg]) == [row];
    var rows := OrcaLegs(qualified, now, minTvl, known, [leg, leg]);
    assert rows == [row, row];
    assert rows[0].address == rows[1].address;
    assert RaydiumLegs(qualified, now, minTvl, known, [leg]) == [row];
  }
}
