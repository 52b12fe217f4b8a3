/** Instalment budgets of DCA and limit positions, the size of one swap, and the value of a
    position in the vault.  Amounts are base units; bigint division truncates toward zero. */
module Installments {
  import opened Common
  import opened Numerals

  datatype Position = Position(
    principalBasis: nat, investedFeeBasis: nat, claimable: nat, feeCarry: nat,
    yieldShareBps: nat, tradeFeeBps: nat, stepsRemaining: nat)

  datatype Installment = Installment(budget: int, remaining: int, fee: int)

  function Gross(state: Position, nav: nat): nat {
    var basis := state.principalBasis + state.investedFeeBasis;
    if nav > basis then nav - basis else 0
  }

  function InstallmentBudget(state: Position, nav: nat): Installment {
    var principal := Min(nav, state.principalBasis);
    var gross := Gross(state, nav);
    var fee := Quot(gross * state.yieldShareBps + state.feeCarry, 10000);
    var steps := state.stepsRemaining;
    if steps == 0 then Installment(0, 0, 0)
    else
      var raw := Quot(principal, steps) + Quot(state.claimable + gross - fee, steps);
      var tradeFee := Quot(raw * state.tradeFeeBps, 10000);
      Installment(raw - tradeFee, principal - Quot(principal, steps), tradeFee)
  }

  lemma FloorWithin(a: nat, b: nat)
    requires b > 0
    ensures 0 <= a / b <= a
  {
    var q, r := a / b, a % b;
    assert a == q * b + r;
    if q >= 1 {
      ProductGrows(q, b);
    } else if q <= -1 {
      ProductGrows(-q, b);
      NegatedProduct(q, b);
    }
  }

  lemma ProductGrows(x: int, y: int)
    requires x >= 1 && y >= 1
    ensures x * y >= x && x * y >= y
  {
  }

  lemma NegatedProduct(x: int, y: int)
    ensures (-x) * y == -(x * y)
  {
  }

  lemma QuotBounds(a: int, b: int)
    requires b > 0
    ensures a >= 0 ==> 0 <= Quot(a, b) <= a
    ensures a <= 0 ==> Quot(a, b) <= 0
  {
    if a >= 0 {
      FloorWithin(a, b);
    } else {
      FloorWithin(-a, b);
    }
  }

  lemma ShareOf(x: nat, bps: nat, carry: nat)
    requires bps <= 10000 && carry < 10000
    ensures 0 <= (x * bps + carry) / 10000 <= x
  {
    assert x * bps <= x * 10000;
  }

  /** A step never commits more than the position is worth: what is spent, what is charged and
      what stays invested fit in its value and its claimable yield. */
  lemma StepIsCovered(state: Position, nav: nat)
    ensures var i := InstallmentBudget(state, nav); i.budget + i.fee + i.remaining <= nav + state.claimable
    ensures 0 <= InstallmentBudget(state, nav).remaining <= nav
  {
    var principal, gross, steps := Min(nav, state.principalBasis), Gross(state, nav), state.stepsRemaining;
    assert gross * state.yieldShareBps >= 0;
    var fee := Quot(gross * state.yieldShareBps + state.feeCarry, 10000);
    if steps > 0 {
      QuotBounds(principal, steps);
      QuotBounds(state.claimable + gross - fee, steps);
    }
  }

  /** With shares and carry below their denominators no part of it is negative. */
  lemma StepIsNonNegative(state: Position, nav: nat)
    requires state.yieldShareBps <= 10000 && state.feeCarry < 10000 && state.tradeFeeBps <= 10000
    ensures var i := InstallmentBudget(state, nav); i.budget >= 0 && i.fee >= 0
  {
    hide Quot;
    var principal, gross, steps := Min(nav, state.principalBasis), Gross(state, nav), state.stepsRemaining;
    PartOf(gross, state.yieldShareBps, state.feeCarry);
    if steps > 0 {
      var fee := Quot(gross * state.yieldShareBps + state.feeCarry, 10000);
      QuotBounds(principal, steps);
      QuotBounds(state.claimable + gross - fee, steps);
      PartOf(Quot(principal, steps) + Quot(state.claimable + gross - fee, steps), state.tradeFeeBps, 0);
    }
  }

  lemma PartOf(x: nat, bps: nat, carry: nat)
    requires bps <= 10000 && carry < 10000
    ensures 0 <= Quot(x * bps + carry, 10000) <= x
  {
    ShareOf(x, bps, carry);
    assert x * bps >= 0;
  }

  /** Whole parts: `part` of `whole` in `n` equal parts, rounded down. */
  predicate FloorOf(part: int, whole: int, n: int) { part * n <= whole < part * n + n }

  lemma QuotIsFloor(a: nat, b: nat)
    requires b > 0
    ensures FloorOf(Quot(a, b), a, b)
  {
    LastDigit(a, b);
  }

  /** A step spends one equal share of the principal and one of the claimable yield after the yield
      fee, keeps the rest of the principal, and charges the trade fee on the sum; every division
      rounds down. */
  lemma StepIsEqualShare(state: Position, nav: nat) returns (share: int, earned: int, yieldFee: int)
    requires state.yieldShareBps <= 10000 && state.feeCarry < 10000 && state.stepsRemaining > 0
    ensures var i := InstallmentBudget(state, nav);
            var principal := if nav < state.principalBasis then nav else state.principalBasis;
            var invested := state.principalBasis + state.investedFeeBasis;
            var gross := if nav > invested then nav - invested else 0;
            && FloorOf(share, principal, state.stepsRemaining) && i.remaining == principal - share
            && FloorOf(yieldFee, gross * state.yieldShareBps + state.feeCarry, 10000)
            && FloorOf(earned, state.claimable + gross - yieldFee, state.stepsRemaining)
            && i.budget + i.fee == share + earned && FloorOf(i.fee, (share + earned) * state.tradeFeeBps, 10000)
  {
    hide Quot, FloorOf;
    var principal, gross, steps := Min(nav, state.principalBasis), Gross(state, nav), state.stepsRemaining;
    Product(gross, state.yieldShareBps);
    yieldFee := Quot(gross * state.yieldShareBps + state.feeCarry, 10000);
    QuotIsFloor(gross * state.yieldShareBps + state.feeCarry, 10000);
    PartOf(gross, state.yieldShareBps, state.feeCarry);
    share, earned := Quot(principal, steps), Quot(state.claimable + gross - yieldFee, steps);
    QuotIsFloor(principal, steps);
    QuotIsFloor(state.claimable + gross - yieldFee, steps);
    QuotBounds(principal, steps);
    QuotBounds(state.claimable + gross - yieldFee, steps);
    Product(share + earned, state.tradeFeeBps);
    QuotIsFloor((share + earned) * state.tradeFeeBps, 10000);
  }

  /** After the last step there is nothing more to spend. */
  lemma NothingAfterTheLastStep(state: Position, nav: nat)
    requires state.stepsRemaining == 0
    ensures InstallmentBudget(state, nav) == Installment(0, 0, 0)
  {
  }

  lemma Product(x: nat, y: nat)
    ensures x * y >= 0
  {
  }

  // ---------- one swap ----------

  datatype Decision = Refused | Nothing | Swap(input: nat)

  /** The amounts part of executePositionSwap: `earn` positions spend their claimable yield, the
      others one instalment, less a margin for vault rounding. */
  method SwapInput(earn: bool, state: Position, nav: nat, maxUSDC: nat, policyMax: nat,
      slippageBps: nat) returns (d: Decision)
    ensures d.Swap? ==>
      && 0 < d.input <= Min(maxUSDC, policyMax)
      && if earn then d.input == Min(state.claimable, Min(maxUSDC, policyMax))
         else var budget := InstallmentBudget(state, nav).budget;
              budget <= Min(maxUSDC, policyMax) && d.input == budget * (10000 - Min(20, slippageBps)) / 10000
    ensures d.Refused? <==>
      var available := if earn then Min(state.claimable, Min(maxUSDC, policyMax))
          else InstallmentBudget(state, nav).budget;
      available <= 0 || available > Min(maxUSDC, policyMax)
    ensures d.Nothing? <==>
      !earn && var budget := InstallmentBudget(state, nav).budget;
               0 < budget <= Min(maxUSDC, policyMax) && budget * (10000 - Min(20, slippageBps)) / 10000 == 0
  {
    var installment := InstallmentBudget(state, if earn then 0 else nav);
    var cap := if maxUSDC < policyMax then maxUSDC else policyMax;
    var available := if earn then (if state.claimable < cap then state.claimable else cap) else installment.budget;
    if available <= 0 || available > cap {
      return Refused;
    }
    var kept := 10000 - Min(20, slippageBps);
    ShareOf(available, kept, 0);
    var input := if earn then available else available * kept / 10000;
    return if input == 0 then Nothing else Swap(input);
  }

  // ---------- a whole schedule in a flat vault ----------

  /** What a flat position spends at each remaining step: the value is the principal, there is no
      yield, and the next step starts from what the last one left. */
  function Schedule(state: Position, nav: nat): seq<int>
    decreases state.stepsRemaining
  {
    if state.stepsRemaining == 0 then []
    else
      StepIsCovered(state, nav);
      var i := InstallmentBudget(state, nav);
      [i.budget + i.fee] + Schedule(state.(principalBasis := i.remaining, stepsRemaining := state.stepsRemaining - 1),
          i.remaining)
  }

  function Sum(xs: seq<int>): int { if xs == [] then 0 else xs[0] + Sum(xs[1..]) }

  predicate Flat(state: Position, nav: nat) {
    nav == state.principalBasis && state.claimable == 0 && state.feeCarry < 10000
  }

  lemma FlatStep(state: Position, nav: nat)
    requires Flat(state, nav) && state.stepsRemaining > 0
    ensures var i := InstallmentBudget(state, nav);
            i.budget + i.fee == nav / state.stepsRemaining && i.remaining == nav - nav / state.stepsRemaining
  {
  }

  lemma ShareBack(q: nat, m: nat, k: nat)
    requires 0 < k && m <= k
    ensures (q * k + m) / k == (if m == k then q + 1 else q)
    ensures (q * k + m) % k == (if m == k then 0 else m)
  {
    if m == k {
      Spread(q, 1, k);
      DivideBack(q + 1, 0, k);
    } else {
      DivideBack(q, m, k);
    }
  }

  lemma TakeOne(q: nat, steps: nat)
    requires steps > 0
    ensures q * steps == q * (steps - 1) + q && q * (steps - 1) >= 0
  {
  }

  /** Taking the floor of the share away leaves shares at least as large, and at most the ceiling. */
  lemma NextShare(total: nat, q: nat, m: nat, steps: nat)
    requires steps > 1 && total == q * steps + m && m < steps
    ensures var rest := total - q;
            && 0 <= q <= total
            && rest / (steps - 1) == (if m == steps - 1 then q + 1 else q)
            && rest % (steps - 1) == (if m == steps - 1 then 0 else m)
  {
    TakeOne(q, steps);
    ShareBack(q, m, steps - 1);
    assert total - q == q * (steps - 1) + m;
  }

  /** A flat schedule spends the principal exactly, in parts that never decrease and are each the
      floor or the ceiling of an equal share. */
  lemma {:induction false} ScheduleSpendsPrincipal(state: Position, nav: nat)
    requires Flat(state, nav) && state.stepsRemaining > 0
    ensures var parts := Schedule(state, nav); var q, m := nav / state.stepsRemaining, nav % state.stepsRemaining;
            && |parts| == state.stepsRemaining && Sum(parts) == nav
            && (forall i :: 0 <= i < |parts| ==> parts[i] == q || (parts[i] == q + 1 && m > 0))
            && forall i, j :: 0 <= i < j < |parts| ==> parts[i] <= parts[j]
    decreases state.stepsRemaining
  {
    FlatStep(state, nav);
    StepIsCovered(state, nav);
    var steps := state.stepsRemaining;
    var i := InstallmentBudget(state, nav);
    var next := state.(principalBasis := i.remaining, stepsRemaining := steps - 1);
    assert Schedule(state, nav)[1..] == Schedule(next, i.remaining);
    if steps > 1 {
      LastDigit(nav, steps);
      NextShare(nav, nav / steps, nav % steps, steps);
      ScheduleSpendsPrincipal(next, i.remaining);
    } else {
      assert Schedule(next, i.remaining) == [];
      assert nav / 1 == nav && nav % 1 == 0;
    }
  }

  // ---------- the value of positions ----------

  /** `shares * assets / issued`, and nothing while no shares are issued. */
  function Nav(shares: nat, assets: nat, issued: nat): nat {
    if issued == 0 then 0 else shares * assets / issued
  }

  /** A position's value is its share of the vault's assets, rounded down. */
  lemma NavIs(shares: nat, assets: nat, issued: nat)
    requires issued > 0
    ensures FloorOf(Nav(shares, assets, issued), shares * assets, issued) && Nav(shares, assets, 0) == 0
  {
    assert shares * assets >= 0;
    LastDigit(shares * assets, issued);
  }

  function Total(xs: seq<nat>): nat { if xs == [] then 0 else xs[0] + Total(xs[1..]) }

  function Navs(shares: seq<nat>, assets: nat, issued: nat): nat {
    if shares == [] then 0 else Nav(shares[0], assets, issued) + Navs(shares[1..], assets, issued)
  }

  lemma FloorTimes(a: nat, b: nat)
    requires b > 0
    ensures a / b * b <= a
  {
  }

  lemma Spread(x: nat, y: nat, k: nat)
    ensures (x + y) * k == x * k + y * k
  {
  }

  lemma {:induction false} NavsScaled(shares: seq<nat>, assets: nat, issued: nat)
    requires issued > 0
    ensures Navs(shares, assets, issued) * issued <= Total(shares) * assets
    decreases |shares|
  {
    if shares != [] {
      NavsScaled(shares[1..], assets, issued);
      FloorTimes(shares[0] * assets, issued);
      Spread(shares[0], Total(shares[1..]), assets);
      Spread(Nav(shares[0], assets, issued), Navs(shares[1..], assets, issued), issued);
    }
  }

  /** Positions whose shares are among the issued ones are never worth more than the vault holds. */
  lemma NavsWithinAssets(shares: seq<nat>, assets: nat, issued: nat)
    requires Total(shares) <= issued
    ensures Navs(shares, assets, issued) <= assets
  {
    hide Navs, Total;
    if issued == 0 {
      NoShares(shares, assets);
    } else {
      NavsScaled(shares, assets, issued);
      Cancel(Navs(shares, assets, issued), assets, Total(shares), issued);
    }
  }

  lemma Cancel(value: nat, assets: nat, shares: nat, issued: nat)
    requires issued > 0 && shares <= issued && value * issued <= shares * assets
    ensures value <= assets
  {
  }

  lemma {:induction false} NoShares(shares: seq<nat>, assets: nat)
    ensures Navs(shares, assets, 0) == 0
    decreases |shares|
  {
    if shares != [] {
      NoShares(shares[1..], assets);
    }
  }
}
