/** The on-chain verification pass over the file. */
module RegistryVerification {
  import opened Common
  import opened PoolOrder
  import opened Registry

  /** All rows, or the enabled ones. */
  predicate Target(all: bool, p: Pool) { all || p.enabled }

  /** A contradicted row is disabled; any other keeps its state. */
  function Applied(p: Pool, outcome: Verification, at: nat): Pool {
    var failed := outcome == VERIFICATION_FAILED;
    p.(verification := outcome, onchainVerifiedAt := if outcome == ONCHAIN_VERIFIED then Some(at) else None,
       enabled := if failed then false else p.enabled,
       disabledReason := if failed then Some(VerificationFailed) else p.disabledReason)
  }

  /** The last target with this address: what a dictionary of the targets holds. */
  function LastTarget(all: bool, pools: seq<Pool>, address: Address): Option<Pool> {
    if pools == [] then None
    else
      var n := |pools| - 1;
      if Target(all, pools[n]) && pools[n].address == address then Some(pools[n])
          else LastTarget(all, pools[..n], address)
  }

  function VerifiedRow(all: bool, outcomes: Address -> Verification, at: nat, pools: seq<Pool>, p: Pool): Pool {
    match LastTarget(all, pools, p.address)
    case None => p
    case Some(target) => Applied(target, outcomes(target.address), at)
  }

  function VerifiedFile(all: bool, outcomes: Address -> Verification, at: nat, pools: seq<Pool>): seq<Pool> {
    seq(|pools|, i requires 0 <= i < |pools| => VerifiedRow(all, outcomes, at, pools, pools[i]))
  }

  /** `outcomes` is what the chain says of each address. */
  method VerifyPools(all: bool, outcomes: Address -> Verification, at: nat,
      pools: seq<Pool>) returns (merged: seq<Pool>)
    ensures merged == VerifiedFile(all, outcomes, at, pools)
  {
    hide Applied, Target;
    var byAddress: map<Address, Pool> := map[];
    for k := 0 to |pools|
      invariant forall a :: a in byAddress <==> LastTarget(all, pools[..k], a).Some?
      invariant forall a ::
          a in byAddress ==> byAddress[a] == Applied(LastTarget(all, pools[..k], a).value, outcomes(a), at)
    {
      assert pools[..k + 1][..k] == pools[..k];
      if Target(all, pools[k]) {
        byAddress := byAddress[pools[k].address := Applied(pools[k], outcomes(pools[k].address), at)];
      }
    }
    assert pools[..|pools|] == pools;
    merged := [];
    for k := 0 to |pools|
      invariant |merged| == k && forall i :: 0 <= i < k ==> merged[i] == VerifiedRow(all, outcomes, at, pools, pools[i])
    {
      TargetHasAddress(all, pools, pools[k].address);
      merged := merged + [if pools[k].address in byAddress then byAddress[pools[k].address] else pools[k]];
    }
  }

  lemma {:induction false} TargetHasAddress(all: bool, pools: seq<Pool>, address: Address)
    ensures var t := LastTarget(all, pools, address);
        t.Some? ==> t.value in pools && t.value.address == address && Target(all, t.value)
    ensures LastTarget(all, pools, address).None? ==> forall p :: p in pools && p.address == address ==> !Target(all, p)
    decreases |pools|
  {
    if pools != [] {
      TargetHasAddress(all, pools[..|pools| - 1], address);
      assert pools == pools[..|pools| - 1] + [pools[|pools| - 1]];
    }
  }

  /** In a file of distinct addresses every target gets its own outcome. */
  lemma RowByRow(all: bool, outcomes: Address -> Verification, at: nat, pools: seq<Pool>, i: nat)
    requires Distinct(pools) && i < |pools|
    ensures VerifiedFile(all, outcomes, at, pools)[i] ==
              if all || pools[i].enabled then Applied(pools[i], outcomes(pools[i].address), at) else pools[i]
  {
    TargetHasAddress(all, pools, pools[i].address);
    var t := LastTarget(all, pools, pools[i].address);
    if t.Some? {
      var j :| 0 <= j < |pools| && pools[j] == t.value;
      assert i == j;
    }
  }

  lemma AppliedIsOk(env: Env, p: Pool, outcome: Verification, at: nat)
    requires RowOk(env, p)
    ensures RowOk(env, Applied(p, outcome, at)) && KeyOf(Applied(p, outcome, at)) == KeyOf(p)
    ensures Applied(p, outcome, at).address == p.address && !Refused(Applied(p, outcome, at))
    ensures var q := Applied(p, outcome, at);
            && q == p.(verification := outcome, onchainVerifiedAt := q.onchainVerifiedAt, enabled := q.enabled,
                       disabledReason := q.disabledReason)
            && q.onchainVerifiedAt == (match outcome case ONCHAIN_VERIFIED => Some(at) case _ => None)
            && if outcome == VERIFICATION_FAILED then !q.enabled && q.disabledReason == Some(VerificationFailed)
               else q.enabled == p.enabled && q.disabledReason == p.disabledReason
  {
  }

  /** The pass leaves a file the loader takes, whatever it was given and whatever the chain says, and
      moves no row. */
  lemma VerifyingHeals(env: Env, all: bool, outcomes: Address -> Verification, at: nat, pools: seq<Pool>)
    requires Kept(env, pools)
    ensures var after := VerifiedFile(all, outcomes, at, pools);
            && Kept(env, after) && NoneRefused(after) && Loadable(env.qualified, after) &&
                (Sorted(after) <==> Sorted(pools))
  {
    hide RowOk, Applied, KeyOf, VerifiedRow;
    var after := VerifiedFile(all, outcomes, at, pools);
    forall i | 0 <= i < |after|
      ensures RowOk(env, after[i]) && KeyOf(after[i]) == KeyOf(pools[i]) && after[i].address == pools[i].address &&
          !Refused(after[i])
    {
      assert pools[i] in pools;
      RowByRow(all, outcomes, at, pools, i);
      AppliedIsOk(env, pools[i], outcomes(pools[i].address), at);
    }
    SameKeysSameOrder(pools, after);
    KeptLoadsIff(env, after);
  }
}
