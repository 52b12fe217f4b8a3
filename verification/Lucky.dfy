/** Lucky opening: the payout table, the reserve test, and the accounting of reserve, escrow, fees
    and payouts over any interleaving of purchases and rolls.  Amounts are USDC base units. */
module Lucky {
  import opened Common

  const U64_MAX: nat := 0xFFFF_FFFF_FFFF_FFFF
  const STAKE: nat := 9_800_000
  const FEE: nat := 200_000
  const PRICE: nat := 10_000_000
  const MAX_STAKE: nat := 20_000_000

  datatype Outcome = Outcome(quarters: nat, probability: nat)

  const OUTCOMES: seq<Outcome> := [Outcome(1, 4), Outcome(2, 20), Outcome(4, 64), Outcome(6, 8), Outcome(8, 4)]

  /** The multiple of a quarter stake that a bucket below 100 pays. */
  function Quarters(bucket: nat): nat {
    if bucket < 4 then 1 else if bucket < 24 then 2 else if bucket < 88 then 4 else if bucket < 96 then 6 else 8
  }

  /** `None` is a thrown error. */
  function Payout(stake: int, bucket: int): Option<nat> {
    if stake <= 0 || stake > U64_MAX || bucket < 0 || bucket >= 100 then None
    else
      var reward := stake * Quarters(bucket) / 4;
      if reward > U64_MAX then None else Some(reward)
  }

  method LuckyPayout(stake: int, bucket: int) returns (r: Option<nat>)
    ensures r == Payout(stake, bucket)
  {
    if stake <= 0 || stake > U64_MAX || bucket < 0 || bucket >= 100 { return None; }
    var threshold := 0;
    for k := 0 to |OUTCOMES|
      invariant threshold == [0, 4, 24, 88, 96, 100][k] && threshold <= bucket
    {
      threshold := threshold + OUTCOMES[k].probability;
      if bucket < threshold {
        var result := stake * OUTCOMES[k].quarters / 4;
        if result > U64_MAX { return None; }
        return Some(result);
      }
    }
  }

  predicate CanReserve(stake: int, reserve: int, maxStake: int) {
    stake > 0 && stake <= maxStake && stake <= U64_MAX / 2 && reserve >= stake
  }

  /** A stake that was reserved always pays something between nothing and the whole escrow, which
      is twice the stake, and some bucket pays exactly that. */
  lemma EscrowCoversReward(stake: int, reserve: int, maxStake: int, bucket: nat)
    requires CanReserve(stake, reserve, maxStake) && bucket < 100
    ensures Payout(stake, bucket).Some? && Payout(stake, bucket).value <= 2 * stake
    ensures Payout(stake, 96) == Some(2 * stake)
  {
  }

  /** The table: 4 buckets of a hundred pay a quarter, 20 a half, 64 the stake, 8 one and a half times and 4
      twice the stake, rounded down, and nothing beyond 64 bits; and the price is the stake and its fee. */
  lemma PayoutTable(stake: nat, bucket: nat)
    requires 0 < stake <= 0xFFFF_FFFF_FFFF_FFFF && bucket < 100
    ensures var reward := if bucket < 4 then stake / 4 else if bucket < 24 then stake / 2
                          else if bucket < 88 then stake else if bucket < 96 then stake + stake / 2 else 2 * stake;
            Payout(stake, bucket) == if reward <= 0xFFFF_FFFF_FFFF_FFFF then Some(reward) else None
    ensures forall x, b :: x <= 0 || x > 0xFFFF_FFFF_FFFF_FFFF || b < 0 || b >= 100 ==> Payout(x, b).None?
    ensures STAKE == 9_800_000 && PRICE == STAKE + FEE == 10_000_000 && MAX_STAKE == 20_000_000
  {
    PartsOf(stake);
  }

  lemma PartsOf(stake: nat)
    ensures stake * 1 / 4 == stake / 4 && stake * 2 / 4 == stake / 2 && stake * 4 / 4 == stake
    ensures stake * 6 / 4 == stake + stake / 2 && stake * 8 / 4 == 2 * stake
  {
  }

  // ---------- the average return ----------

  /** What all buckets below `n` pay together. */
  function TotalPayout(stake: int, n: nat): nat
    requires 0 < stake <= U64_MAX / 2 && n <= 100
  {
    if n == 0 then 0
    else
      EscrowCoversReward(stake, stake, stake, n - 1);
      TotalPayout(stake, n - 1) + Payout(stake, n - 1).value
  }

  function Part(stake: int, quarters: nat): int { stake * quarters / 4 }

  lemma PayoutOfPart(stake: int, bucket: nat)
    requires 0 < stake <= U64_MAX / 2 && bucket < 100
    ensures Payout(stake, bucket) == Some(Part(stake, Quarters(bucket)))
  {
    PartFits(stake, Quarters(bucket));
  }

  lemma PartFits(stake: int, quarters: nat)
    requires 0 < stake && quarters in {1, 2, 4, 6, 8}
    ensures 0 <= stake * quarters / 4 <= 2 * stake
  {
  }

  /** A range of buckets that pay the same. */
  lemma {:induction false} PayoutRange(stake: int, lo: nat, hi: nat, quarters: nat)
    requires 0 < stake <= U64_MAX / 2 && lo <= hi <= 100
    requires forall b: nat :: lo <= b < hi ==> Quarters(b) == quarters
    ensures TotalPayout(stake, hi) == TotalPayout(stake, lo) + (hi - lo) * Part(stake, quarters)
    decreases hi
  {
    hide Payout, Part, Quarters;
    if lo < hi {
      PayoutRange(stake, lo, hi - 1, quarters);
      PayoutOfPart(stake, hi - 1);
      assert (hi - lo) * Part(stake, quarters) == (hi - 1 - lo) * Part(stake, quarters) + Part(stake, quarters);
    }
  }

  lemma TotalOfParts(stake: int)
    requires 0 < stake <= U64_MAX / 2
    ensures TotalPayout(stake, 100) ==
              4 * Part(stake, 1) + 20 * Part(stake, 2) + 64 * Part(stake, 4) + 8 * Part(stake, 6) + 4 * Part(stake, 8)
  {
    hide *;
    NothingPaid(stake);
    QuartersAre();
    PayoutRange(stake, 0, 4, 1);
    PayoutRange(stake, 4, 24, 2);
    PayoutRange(stake, 24, 88, 4);
    PayoutRange(stake, 88, 96, 6);
    PayoutRange(stake, 96, 100, 8);
  }

  lemma NothingPaid(stake: int)
    requires 0 < stake <= U64_MAX / 2
    ensures TotalPayout(stake, 0) == 0
  {
  }

  lemma QuartersAre()
    ensures forall b: nat :: (b < 4 ==> Quarters(b) == 1) && (4 <= b < 24 ==> Quarters(b) == 2)
              && (24 <= b < 88 ==> Quarters(b) == 4) && (88 <= b < 96 ==> Quarters(b) == 6)
              && (96 <= b ==> Quarters(b) == 8)
  {
  }

  /** Over the hundred equally likely buckets a stake returns 95 percent exactly when it is a
      multiple of four, and less otherwise: rounding is always in favour of the reserve. */
  lemma ReturnIs95PercentIff(stake: int)
    requires 0 < stake <= U64_MAX / 2
    ensures TotalPayout(stake, 100) == 95 * stake <==> stake % 4 == 0
    ensures TotalPayout(stake, 100) <= 95 * stake
  {
    hide Payout, TotalPayout, Part;
    TotalOfParts(stake);
    Quartered(stake, stake / 4, stake % 4);
  }

  lemma Quartered(stake: int, k: int, r: int)
    requires stake == 4 * k + r && 0 <= r < 4
    ensures Part(stake, 1) == k && Part(stake, 2) == 2 * k + r / 2 && Part(stake, 4) == stake
    ensures Part(stake, 6) == 6 * k + 3 * r / 2 && Part(stake, 8) == 2 * stake && stake % 4 == r
  {
  }

  // ---------- the reserve as a machine ----------

  /** A roll in progress holds an escrow of twice its amount. */
  datatype Roll = Roll(amount: int, round: nat)

  datatype State = State(reserve: int, fees: int, paid: int, accepted: nat, open: seq<Roll>)

  datatype Action =
    | Buy
    | Settle(i: nat, bucket: nat, again: bool)  // `again`: the owner asks for a second roll

  function Initial(reserve: nat): State { State(reserve, 0, 0, 0, []) }

  predicate Enabled(s: State, a: Action) {
    match a
    case Buy => CanReserve(STAKE, s.reserve, MAX_STAKE)
    case Settle(i, bucket, _) => i < |s.open| && bucket < 100 && Payout(s.open[i].amount, bucket).Some?
  }

  function Without(rolls: seq<Roll>, i: nat): seq<Roll>
    requires i < |rolls|
  {
    rolls[..i] + rolls[i + 1..]
  }

  function Apply(s: State, a: Action): State
    requires Enabled(s, a)
  {
    match a
    case Buy => State(s.reserve - STAKE, s.fees + FEE, s.paid, s.accepted + 1, s.open + [Roll(STAKE, 1)])
    case Settle(i, bucket, again) =>
      var roll := s.open[i];
      var reward := Payout(roll.amount, bucket).value;
      var reserve, rest := s.reserve + 2 * roll.amount - reward, Without(s.open, i);
      if again && roll.round == 1 && CanReserve(reward, reserve, MAX_STAKE)
      then s.(reserve := reserve - reward, open := rest + [Roll(reward, 2)])
      else s.(reserve := reserve, paid := s.paid + reward, open := rest)
  }

  predicate CanRun(s: State, actions: seq<Action>)
    decreases |actions|
  {
    actions == [] || (Enabled(s, actions[0]) && CanRun(Apply(s, actions[0]), actions[1..]))
  }

  function Run(s: State, actions: seq<Action>): State
    requires CanRun(s, actions)
    decreases |actions|
  {
    if actions == [] then s else Run(Apply(s, actions[0]), actions[1..])
  }

  function Staked(rolls: seq<Roll>): int {
    if rolls == [] then 0 else rolls[0].amount + Staked(rolls[1..])
  }

  /** Everything the pool has seen is somewhere, nothing is owed twice, and the reserve is not
      overdrawn. */
  predicate Solvent(s: State, initial: nat) {
    && s.reserve >= 0
    && s.reserve + s.paid + s.fees + 2 * Staked(s.open) == initial + PRICE * s.accepted
    && forall i :: 0 <= i < |s.open| ==> 0 < s.open[i].amount <= MAX_STAKE && 1 <= s.open[i].round <= 2
  }

  lemma {:induction false} StakedConcat(xs: seq<Roll>, ys: seq<Roll>)
    ensures Staked(xs + ys) == Staked(xs) + Staked(ys)
    decreases |xs|
  {
    if xs == [] {
      assert xs + ys == ys;
    } else {
      assert (xs + ys)[1..] == xs[1..] + ys;
      StakedConcat(xs[1..], ys);
    }
  }

  lemma StakedWithout(rolls: seq<Roll>, i: nat)
    requires i < |rolls|
    ensures Staked(Without(rolls, i)) == Staked(rolls) - rolls[i].amount
  {
    StakedConcat(rolls[..i], rolls[i + 1..]);
    StakedConcat(rolls[..i], rolls[i..]);
    assert rolls[..i] + rolls[i..] == rolls;
  }

  lemma StepKeepsSolvent(s: State, a: Action, initial: nat)
    requires Solvent(s, initial) && Enabled(s, a)
    ensures Solvent(Apply(s, a), initial)
  {
    match a
    case Buy =>
      StakedConcat(s.open, [Roll(STAKE, 1)]);
    case Settle(i, bucket, again) =>
      var roll := s.open[i];
      EscrowCoversReward(roll.amount, roll.amount, MAX_STAKE, bucket);
      StakedWithout(s.open, i);
      StakedConcat(Without(s.open, i), [Roll(Payout(roll.amount, bucket).value, 2)]);
  }

  lemma {:induction false} RunKeepsSolvent(s: State, actions: seq<Action>, initial: nat)
    requires Solvent(s, initial) && CanRun(s, actions)
    ensures Solvent(Run(s, actions), initial)
    decreases |actions|
  {
    if actions != [] {
      StepKeepsSolvent(s, actions[0], initial);
      RunKeepsSolvent(Apply(s, actions[0]), actions[1..], initial);
    }
  }

  /** In every interleaving: reserve, payouts, fees and twice the open stakes add up to the initial
      reserve and 10 USDC a pack; the reserve is never negative; and every open roll can be settled
      with any bucket, within its escrow. */
  lemma AlwaysSolvent(initial: nat, actions: seq<Action>)
    requires CanRun(Initial(initial), actions)
    ensures var s := Run(Initial(initial), actions);
            && s.reserve >= 0
            && s.reserve + s.paid + s.fees + 2 * Staked(s.open) == initial + PRICE * s.accepted
            && forall i, bucket, again :: 0 <= i < |s.open| && 0 <= bucket < 100 ==>
                 Enabled(s, Settle(i, bucket, again)) && Payout(s.open[i].amount, bucket).value <= 2 * s.open[i].amount
  {
    RunKeepsSolvent(Initial(initial), actions, initial);
    var s := Run(Initial(initial), actions);
    forall i, bucket: nat, again: bool | 0 <= i < |s.open| && bucket < 100
      ensures Enabled(s, Settle(i, bucket, again)) && Payout(s.open[i].amount, bucket).value <= 2 * s.open[i].amount
    {
      EscrowCoversReward(s.open[i].amount, s.open[i].amount, MAX_STAKE, bucket);
    }
  }

  /** Of a run that has come to this state. */
  lemma CanSettle(initial: nat, actions: seq<Action>, s: State, i: nat, bucket: nat, again: bool)
    requires CanRun(Initial(initial), actions) && Run(Initial(initial), actions) == s
    requires i < |s.open| && bucket < 100
    ensures Enabled(s, Settle(i, bucket, again)) && Payout(s.open[i].amount, bucket).Some?
  {
    hide Enabled, Payout, CanRun, Run, Staked;
    AlwaysSolvent(initial, actions);
    EnabledPays(s, i, bucket, again);
  }

  lemma EnabledPays(s: State, i: nat, bucket: nat, again: bool)
    requires Enabled(s, Settle(i, bucket, again)) && i < |s.open|
    ensures Payout(s.open[i].amount, bucket).Some?
  {
  }

  lemma Balances(initial: nat, actions: seq<Action>, s: State)
    requires CanRun(Initial(initial), actions) && Run(Initial(initial), actions) == s && s.open == []
    ensures s.reserve >= 0 && s.reserve + s.paid + s.fees == initial + PRICE * s.accepted
  {
    hide Enabled, Payout, CanRun, Run;
    AlwaysSolvent(initial, actions);
  }

  /** Rolls a purchase still has ahead of it. */
  function Ahead(rolls: seq<Roll>): int {
    if rolls == [] then 0 else 3 - rolls[0].round + Ahead(rolls[1..])
  }

  function Settlements(actions: seq<Action>): nat {
    if actions == [] then 0 else (if actions[0].Settle? then 1 else 0) + Settlements(actions[1..])
  }

  lemma {:induction false} AheadConcat(xs: seq<Roll>, ys: seq<Roll>)
    ensures Ahead(xs + ys) == Ahead(xs) + Ahead(ys)
    decreases |xs|
  {
    if xs == [] {
      assert xs + ys == ys;
    } else {
      assert (xs + ys)[1..] == xs[1..] + ys;
      AheadConcat(xs[1..], ys);
    }
  }

  lemma AheadWithout(rolls: seq<Roll>, i: nat)
    requires i < |rolls|
    ensures Ahead(Without(rolls, i)) == Ahead(rolls) - (3 - rolls[i].round)
  {
    AheadConcat(rolls[..i], rolls[i + 1..]);
    AheadConcat(rolls[..i], rolls[i..]);
    assert rolls[..i] + rolls[i..] == rolls;
  }

  /** No purchase is rolled more than twice: settlements made and settlements still possible never
      exceed two for each accepted pack. */
  lemma {:induction false} AtMostTwoRolls(s: State, actions: seq<Action>, initial: nat)
    requires Solvent(s, initial) && CanRun(s, actions)
    ensures Settlements(actions) + Ahead(Run(s, actions).open) <= Ahead(s.open) +
              2 * (Run(s, actions).accepted - s.accepted)
    decreases |actions|
  {
    if actions != [] {
      var a, s' := actions[0], Apply(s, actions[0]);
      StepKeepsSolvent(s, a, initial);
      match a {
        case Buy => AheadConcat(s.open, [Roll(STAKE, 1)]);
        case Settle(i, bucket, _) =>
          AheadWithout(s.open, i);
          AheadConcat(Without(s.open, i), [Roll(Payout(s.open[i].amount, bucket).value, 2)]);
      }
      AtMostTwoRolls(s', actions[1..], initial);
    }
  }

  lemma {:induction false} RunAppend(s: State, actions: seq<Action>, a: Action)
    requires CanRun(s, actions) && Enabled(Run(s, actions), a)
    ensures CanRun(s, actions + [a]) && Run(s, actions + [a]) == Apply(Run(s, actions), a)
    decreases |actions|
  {
    if actions == [] {
      assert [] + [a] == [a] && [a][1..] == [];
    } else {
      RunAppend(Apply(s, actions[0]), actions[1..], a);
      assert (actions + [a])[1..] == actions[1..] + [a];
    }
  }
}
