/** Walking the ask side of an order book, and the depth ladder built on it.  Prices and
    quantities are reals: rounding is not part of this model. */
module OrderBook {
  import opened Common

  datatype Level = Level(price: real, qty: real)

  datatype Fill = Fill(baseOut: real, avgPrice: real)

  function Times(a: real, b: real): real { a * b }

  function Cost(l: Level): real { Times(l.price, l.qty) }

  /** The base quantity that `spend` buys at the level's price. */
  function Bought(l: Level, spend: real): real {
    if l.price <= 0.0 then 0.0 else spend / l.price
  }

  predicate Dud(l: Level) { l.price <= 0.0 || l.qty <= 0.0 }

  predicate Above(l: Level, ceiling: Option<real>) { ceiling.Some? && l.price > ceiling.value }

  predicate Crossable(l: Level, ceiling: Option<real>) { !Dud(l) && !Above(l, ceiling) }

  predicate Ascending(asks: seq<Level>) {
    forall i, j :: 0 <= i < j < |asks| ==> asks[i].price <= asks[j].price
  }

  /** What the walk obtains for `usd`, and nothing when it cannot spend all of it. */
  function BaseFor(asks: seq<Level>, usd: real, ceiling: Option<real>): Option<real> {
    if asks == [] then None
    else if Dud(asks[0]) then BaseFor(asks[1..], usd, ceiling)
    else if Above(asks[0], ceiling) then None
    else if Cost(asks[0]) >= usd then Some(Bought(asks[0], usd))
    else match BaseFor(asks[1..], usd - Cost(asks[0]), ceiling)
      case None => None
      case Some(base) => Some(asks[0].qty + base)
  }

  function Quote(asks: seq<Level>, usd: real, ceiling: Option<real>): Option<Fill> {
    match BaseFor(asks, usd, ceiling)
    case None => None
    case Some(base) => Some(Fill(base, usd / if base == 0.0 then 1.0 else base))
  }

  method FillFromAsks(asks: seq<Level>, usd: real, ceiling: Option<real>) returns (r: Option<Fill>)
    ensures r == Quote(asks, usd, ceiling)
  {
    hide Cost, Bought;
    var remaining, base := usd, 0.0;
    for i := 0 to |asks|
      invariant BaseFor(asks, usd, ceiling) == match BaseFor(asks[i..], remaining, ceiling)
                                               case None => None
                                               case Some(rest) => Some(base + rest)
    {
      var level := asks[i];
      assert asks[i..][0] == level && asks[i..][1..] == asks[i + 1..];
      if level.price <= 0.0 || level.qty <= 0.0 { continue; }
      if ceiling.Some? && level.price > ceiling.value { break; }
      var cost := Cost(level);
      if cost >= remaining {
        base := base + Bought(level, remaining);
        return Some(Fill(base, usd / if base == 0.0 then 1.0 else base));
      }
      remaining := remaining - cost;
      base := base + level.qty;
    }
    return None;
  }

  /** A fill is what was bought, at the price that makes it cost the amount. */
  lemma QuoteIs(asks: seq<Level>, usd: real, ceiling: Option<real>)
    ensures Quote(asks, usd, ceiling).Some? <==> BaseFor(asks, usd, ceiling).Some?
    ensures var q := Quote(asks, usd, ceiling);
            q.Some? ==> q.value.baseOut == BaseFor(asks, usd, ceiling).value &&
                        if q.value.baseOut == 0.0 then q.value.avgPrice == usd
                        else q.value.avgPrice * q.value.baseOut == usd
  {
    hide BaseFor;
  }

  /** What a level sells at its price, and when it sells. */
  lemma LevelIs(l: Level, spend: real, ceiling: Option<real>)
    ensures Cost(l) == l.price * l.qty && (l.price > 0.0 ==> Bought(l, spend) * l.price == spend)
    ensures Crossable(l, ceiling) <==> l.price > 0.0 && l.qty > 0.0 && (ceiling.Some? ==> l.price <= ceiling.value)
  {
  }

  // ---------- spending plans ----------

  /** How much is spent on each level. */
  predicate Plan(asks: seq<Level>, ceiling: Option<real>, spend: seq<real>) {
    && |spend| == |asks|
    && forall i :: 0 <= i < |asks| ==>
         0.0 <= spend[i] && if Crossable(asks[i], ceiling) then spend[i] <= Cost(asks[i]) else spend[i] == 0.0
  }

  function Spent(spend: seq<real>): real {
    if spend == [] then 0.0 else spend[0] + Spent(spend[1..])
  }

  function Base(asks: seq<Level>, spend: seq<real>): real
    requires |asks| == |spend|
  {
    if asks == [] then 0.0 else Bought(asks[0], spend[0]) + Base(asks[1..], spend[1..])
  }

  function Zeros(n: nat): seq<real> { seq(n, _ => 0.0) }

  /** The plan the walk carries out. */
  function Greedy(asks: seq<Level>, usd: real, ceiling: Option<real>): seq<real> {
    if asks == [] then []
    else if Dud(asks[0]) then [0.0] + Greedy(asks[1..], usd, ceiling)
    else if Above(asks[0], ceiling) then Zeros(|asks|)
    else if Cost(asks[0]) >= usd then [usd] + Zeros(|asks| - 1)
    else [Cost(asks[0])] + Greedy(asks[1..], usd - Cost(asks[0]), ceiling)
  }

  lemma LevelFacts(l: Level)
    requires !Dud(l)
    ensures Cost(l) > 0.0 && Bought(l, Cost(l)) == l.qty && Bought(l, 0.0) == 0.0
  {
  }

  lemma {:induction false} NothingSpent(asks: seq<Level>, ceiling: Option<real>)
    ensures Plan(asks, ceiling, Zeros(|asks|)) && Spent(Zeros(|asks|)) == 0.0 && Base(asks, Zeros(|asks|)) == 0.0
    decreases |asks|
  {
    hide Cost;
    if asks != [] {
      assert Zeros(|asks|)[1..] == Zeros(|asks[1..]|);
      NothingSpent(asks[1..], ceiling);
      if !Dud(asks[0]) { LevelFacts(asks[0]); }
    }
  }

  lemma {:induction false} GreedySpendsAll(asks: seq<Level>, usd: real, ceiling: Option<real>)
    requires usd >= 0.0 && BaseFor(asks, usd, ceiling).Some?
    ensures var plan := Greedy(asks, usd, ceiling);
            Plan(asks, ceiling, plan) && Spent(plan) == usd && Base(asks, plan) == BaseFor(asks, usd, ceiling).value
    decreases |asks|
  {
    hide Cost;
    var l, plan := asks[0], Greedy(asks, usd, ceiling);
    if Dud(l) {
      GreedySpendsAll(asks[1..], usd, ceiling);
      assert plan[1..] == Greedy(asks[1..], usd, ceiling);
    } else {
      LevelFacts(l);
      if Cost(l) >= usd {
        NothingSpent(asks[1..], ceiling);
        assert plan[1..] == Zeros(|asks[1..]|);
      } else {
        GreedySpendsAll(asks[1..], usd - Cost(l), ceiling);
        assert plan[1..] == Greedy(asks[1..], usd - Cost(l), ceiling);
      }
    }
  }

  // ---------- the walk is optimal ----------

  /** The price of the level on which the walk ends. */
  function Marginal(asks: seq<Level>, usd: real, ceiling: Option<real>): real
    requires BaseFor(asks, usd, ceiling).Some?
  {
    if Dud(asks[0]) then Marginal(asks[1..], usd, ceiling)
    else if Cost(asks[0]) >= usd then asks[0].price
    else Marginal(asks[1..], usd - Cost(asks[0]), ceiling)
  }

  lemma {:induction false} MarginalIsAPrice(asks: seq<Level>, usd: real, ceiling: Option<real>) returns (i: nat)
    requires BaseFor(asks, usd, ceiling).Some?
    ensures i < |asks| && Marginal(asks, usd, ceiling) == asks[i].price && Crossable(asks[i], ceiling)
    decreases |asks|
  {
    hide Cost, Bought;
    if Dud(asks[0]) {
      i := MarginalIsAPrice(asks[1..], usd, ceiling);
      i := i + 1;
    } else if Cost(asks[0]) >= usd {
      i := 0;
    } else {
      i := MarginalIsAPrice(asks[1..], usd - Cost(asks[0]), ceiling);
      i := i + 1;
    }
  }

  lemma Distribute(p: real, a: real, b: real)
    ensures Times(p, a - b) == Times(p, a) - Times(p, b) && Times(p, a + b) == Times(p, a) + Times(p, b)
  {
  }

  lemma CheapBuys(l: Level, spend: real, p: real)
    requires 0.0 < l.price <= p && spend >= 0.0
    ensures Times(p, Bought(l, spend)) >= spend
  {
  }

  lemma DearBuys(l: Level, spend: real, p: real)
    requires 0.0 < p && spend >= 0.0 && (l.price >= p || spend == 0.0)
    ensures Times(p, Bought(l, spend)) <= spend
  {
  }

  /** Above a price, money buys at most what it would at that price. */
  lemma {:induction false} DearLevels(asks: seq<Level>, ceiling: Option<real>, spend: seq<real>, p: real)
    requires Plan(asks, ceiling, spend) && 0.0 < p
    requires forall i :: 0 <= i < |asks| ==> asks[i].price >= p
    ensures Times(p, Base(asks, spend)) <= Spent(spend)
    decreases |asks|
  {
    if asks == [] {
    } else {
      hide Cost, Bought, Times;
      DearBuys(asks[0], spend[0], p);
      DearLevels(asks[1..], ceiling, spend[1..], p);
      Distribute(p, Bought(asks[0], spend[0]), Base(asks[1..], spend[1..]));
    }
  }

  lemma BoughtSplits(l: Level, a: real, b: real)
    ensures Bought(l, a) - Bought(l, b) == Bought(l, a - b) && Bought(l, 0.0) == 0.0
  {
  }

  /** Moving money from a plan to the walk's plan gains at least as much base as it would buy at
      the marginal price. */
  lemma {:induction false} Exchange(asks: seq<Level>, usd: real, ceiling: Option<real>, spend: seq<real>)
    requires Ascending(asks) && usd >= 0.0 && Plan(asks, ceiling, spend)
    requires BaseFor(asks, usd, ceiling).Some?
    ensures Marginal(asks, usd, ceiling) > 0.0
    ensures var more := BaseFor(asks, usd, ceiling).value - Base(asks, spend);
            Times(Marginal(asks, usd, ceiling), more) >= usd - Spent(spend)
    decreases |asks|
  {
    hide Cost, Bought, Times;
    var p, l := Marginal(asks, usd, ceiling), asks[0];
    var i := MarginalIsAPrice(asks, usd, ceiling);
    var tail := Base(asks[1..], spend[1..]);
    BoughtSplits(l, usd, spend[0]);
    if Dud(l) {
      Exchange(asks[1..], usd, ceiling, spend[1..]);
    } else if Cost(l) >= usd {
      DearLevels(asks, ceiling, spend, p);
      CheapBuys(l, usd, p);
      Distribute(p, Bought(l, usd), Base(asks, spend));
    } else {
      Exchange(asks[1..], usd - Cost(l), ceiling, spend[1..]);
      LevelFacts(l);
      BoughtSplits(l, Cost(l), spend[0]);
      CheapBuys(l, Cost(l) - spend[0], p);
      Distribute(p, l.qty - Bought(l, spend[0]), BaseFor(asks[1..], usd - Cost(l), ceiling).value - tail);
    }
  }

  lemma SignOf(p: real, x: real)
    requires p > 0.0 && Times(p, x) >= 0.0
    ensures x >= 0.0
  {
  }

  /** A completed fill spends exactly the amount, crosses no level above the ceiling, and no plan
      spending as much or less within the ceiling obtains more. */
  lemma GreedyIsOptimal(asks: seq<Level>, usd: real, ceiling: Option<real>)
    requires Ascending(asks) && usd >= 0.0 && Quote(asks, usd, ceiling).Some?
    ensures var plan := Greedy(asks, usd, ceiling);
            Plan(asks, ceiling, plan) && Spent(plan) == usd &&
                Base(asks, plan) == Quote(asks, usd, ceiling).value.baseOut
    ensures forall spend ::
        Plan(asks, ceiling, spend) && Spent(spend) <= usd ==>
        Base(asks, spend) <= Quote(asks, usd, ceiling).value.baseOut
  {
    hide Cost, Bought, Times;
    GreedySpendsAll(asks, usd, ceiling);
    forall spend | Plan(asks, ceiling, spend) && Spent(spend) <= usd
      ensures Base(asks, spend) <= BaseFor(asks, usd, ceiling).value
    {
      Exchange(asks, usd, ceiling, spend);
      SignOf(Marginal(asks, usd, ceiling), BaseFor(asks, usd, ceiling).value - Base(asks, spend));
    }
  }

  // ---------- which amounts fill ----------

  function Capacity(asks: seq<Level>, ceiling: Option<real>): real {
    if asks == [] then 0.0
    else (if Crossable(asks[0], ceiling) then Cost(asks[0]) else 0.0) + Capacity(asks[1..], ceiling)
  }

  lemma {:induction false} CapacityOfDear(asks: seq<Level>, ceiling: Option<real>)
    requires forall i :: 0 <= i < |asks| ==> Above(asks[i], ceiling)
    ensures Capacity(asks, ceiling) == 0.0
    decreases |asks|
  {
    if asks != [] {
      CapacityOfDear(asks[1..], ceiling);
    }
  }

  lemma {:induction false} CapacityIsPositive(asks: seq<Level>, ceiling: Option<real>)
    ensures Capacity(asks, ceiling) >= 0.0
    decreases |asks|
  {
    hide Cost;
    if asks != [] {
      CapacityIsPositive(asks[1..], ceiling);
      if !Dud(asks[0]) { LevelFacts(asks[0]); }
    }
  }

  /** An amount fills exactly when the levels within the ceiling can absorb it. */
  lemma {:induction false} FillsIff(asks: seq<Level>, usd: real, ceiling: Option<real>)
    requires Ascending(asks) && usd > 0.0
    ensures Quote(asks, usd, ceiling).Some? <==> usd <= Capacity(asks, ceiling)
    decreases |asks|
  {
    hide Cost, Bought;
    if asks != [] {
      var l := asks[0];
      CapacityIsPositive(asks[1..], ceiling);
      if Dud(l) {
        FillsIff(asks[1..], usd, ceiling);
      } else if Above(l, ceiling) {
        CapacityOfDear(asks, ceiling);
      } else if Cost(l) < usd {
        FillsIff(asks[1..], usd - Cost(l), ceiling);
      }
    }
  }

  // ---------- larger amounts cost more on average ----------

  function Scale(spend: seq<real>, t: real): seq<real> {
    if spend == [] then [] else [Times(t, spend[0])] + Scale(spend[1..], t)
  }

  lemma Shrunk(t: real, x: real, bound: real)
    requires 0.0 <= t <= 1.0 && 0.0 <= x <= bound
    ensures 0.0 <= Times(t, x) <= bound && Times(t, 0.0) == 0.0
  {
    assert t * x <= 1.0 * x;
  }

  lemma BoughtScales(l: Level, t: real, x: real)
    ensures Bought(l, Times(t, x)) == Times(t, Bought(l, x))
  {
  }

  lemma {:induction false} ScaledPlan(asks: seq<Level>, ceiling: Option<real>, spend: seq<real>, t: real)
    requires Plan(asks, ceiling, spend) && 0.0 <= t <= 1.0
    ensures Plan(asks, ceiling, Scale(spend, t))
    ensures Spent(Scale(spend, t)) == Times(t, Spent(spend)) &&
        Base(asks, Scale(spend, t)) == Times(t, Base(asks, spend))
    decreases |asks|
  {
    hide Cost, Bought, Times, Crossable;
    if asks == [] {
      Shrunk(t, 0.0, 0.0);
    } else {
      var scaled := Scale(spend, t);
      ScaledPlan(asks[1..], ceiling, spend[1..], t);
      assert scaled[1..] == Scale(spend[1..], t);
      Shrunk(t, spend[0], if Crossable(asks[0], ceiling) then Cost(asks[0]) else spend[0]);
      BoughtScales(asks[0], t, spend[0]);
      Distribute(t, spend[0], Spent(spend[1..]));
      Distribute(t, Bought(asks[0], spend[0]), Base(asks[1..], spend[1..]));
    }
  }

  lemma {:induction false} FillIsPositive(asks: seq<Level>, usd: real, ceiling: Option<real>)
    requires usd > 0.0 && BaseFor(asks, usd, ceiling).Some?
    ensures BaseFor(asks, usd, ceiling).value > 0.0
    decreases |asks|
  {
    hide Cost;
    if Dud(asks[0]) {
      FillIsPositive(asks[1..], usd, ceiling);
    } else if Cost(asks[0]) < usd {
      FillIsPositive(asks[1..], usd - Cost(asks[0]), ceiling);
    }
  }

  lemma CrossMultiply(u: real, b: real, v: real, c: real)
    requires b > 0.0 && c > 0.0 && v > 0.0 && u > 0.0 && Times(u / v, c) <= b
    ensures u / b <= v / c
  {
  }

  lemma Fraction(small: real, large: real)
    requires 0.0 < small <= large
    ensures 0.0 <= small / large <= 1.0 && Times(small / large, large) == small
  {
  }

  /** If a larger amount fills, a smaller one fills too, at an average price no higher. */
  lemma SmallerFillsCheaper(asks: seq<Level>, small: real, large: real, ceiling: Option<real>)
    requires Ascending(asks) && 0.0 < small <= large && Quote(asks, large, ceiling).Some?
    ensures Quote(asks, small, ceiling).Some?
    ensures Quote(asks, small, ceiling).value.avgPrice <= Quote(asks, large, ceiling).value.avgPrice
  {
    hide Cost, Bought, Times, Greedy, Plan, Spent, Base;
    FillsIff(asks, large, ceiling);
    FillsIff(asks, small, ceiling);
    FillIsPositive(asks, small, ceiling);
    FillIsPositive(asks, large, ceiling);
    var t, plan := small / large, Greedy(asks, large, ceiling);
    Fraction(small, large);
    GreedySpendsAll(asks, large, ceiling);
    ScaledPlan(asks, ceiling, plan, t);
    GreedyIsOptimal(asks, small, ceiling);
    CrossMultiply(small, BaseFor(asks, small, ceiling).value, large, BaseFor(asks, large, ceiling).value);
  }

  /** The average price of a fill never exceeds the ceiling. */
  lemma AverageWithinCeiling(asks: seq<Level>, usd: real, ceiling: Option<real>)
    requires Ascending(asks) && usd > 0.0 && ceiling.Some? && Quote(asks, usd, ceiling).Some?
    ensures Quote(asks, usd, ceiling).value.avgPrice <= ceiling.value
  {
    hide Cost, Bought;
    FillIsPositive(asks, usd, ceiling);
    NothingSpent(asks, ceiling);
    Exchange(asks, usd, ceiling, Zeros(|asks|));
    var i := MarginalIsAPrice(asks, usd, ceiling);
    var p, base := Marginal(asks, usd, ceiling), BaseFor(asks, usd, ceiling).value;
    assert p * base <= ceiling.value * base by { assert (ceiling.value - p) * base >= 0.0; }
    assert usd <= ceiling.value * base;
    assert usd / base <= ceiling.value by { assert usd / base * base == usd; }
  }
}
