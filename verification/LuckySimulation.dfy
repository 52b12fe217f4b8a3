/** The offline stress simulation: batches of purchases, their first rolls, and optional second
    rolls.  Its accounting is one run of the machine in module Lucky, so its solvency check never
    fires, whatever the generator draws. */
module LuckySimulation {
  import opened Common
  import opened Lucky

  /** The three xorshift steps on the 32-bit seed. */
  function Xorshift(seed: bv32): bv32 {
    var a := seed ^ (seed << 13);
    var b := a ^ (a >> 17);
    b ^ (b << 5)
  }

  function Unsigned(seed: bv32): (n: nat)
    ensures n < 0x1_0000_0000
  {
    seed as nat
  }

  /** The bucket a seed falls into: its hundredth part of the 32-bit range. */
  function BucketOf(seed: bv32): (bucket: nat)
    ensures bucket < 100
  {
    Unsigned(seed) * 100 / 0x1_0000_0000
  }

  /** The hundredth part is rounded down; the first draw of the known seed. */
  lemma BucketIs(seed: bv32)
    ensures var n, b := Unsigned(seed), BucketOf(seed);
            b * 0x1_0000_0000 <= n * 100 < b * 0x1_0000_0000 + 0x1_0000_0000
    ensures Xorshift(1) == 270369 && Xorshift(0x4b414e49) == FIRST
  {
  }

  const FIRST: bv32 := 864272045

  class Generator {
    var seed: bv32

    constructor ()
      ensures seed == 0x4b414e49
    {
      seed := 0x4b414e49;
    }

    method Bucket() returns (bucket: nat)
      modifies this
      ensures bucket < 100 && seed == Xorshift(old(seed)) && bucket == BucketOf(seed)
    {
      hide Xorshift, BucketOf;
      seed := Xorshift(seed);
      bucket := BucketOf(seed);
    }
  }

  class Simulation {
    var reserve: int
    var fees: int
    var paid: int
    var accepted: nat
    var blocked: nat
    var rollBlocked: nat
    const generator: Generator
    const initial: nat
    ghost var s: State
    ghost var run: seq<Action>

    ghost predicate Valid()
      reads this
    {
      && CanRun(Initial(initial), run) && Run(Initial(initial), run) == s
      && s.reserve == reserve && s.fees == fees && s.paid == paid && s.accepted == accepted
    }

    constructor (initial: nat, generator: Generator)
      ensures Valid() && this.initial == initial && this.generator == generator
      ensures s.open == [] && blocked == rollBlocked == 0
    {
      reserve, fees, paid, accepted, blocked, rollBlocked := initial, 0, 0, 0, 0, 0;
      this.generator, this.initial := generator, initial;
      s, run := Initial(initial), [];
    }

    ghost method Step(a: Action)
      requires CanRun(Initial(initial), run) && Run(Initial(initial), run) == s && Enabled(s, a)
      modifies this`s, this`run
      ensures CanRun(Initial(initial), run) && Run(Initial(initial), run) == s
      ensures s == Apply(old(s), a) && run == old(run) + [a]
    {
      RunAppend(Initial(initial), run, a);
      s, run := Apply(s, a), run + [a];
    }

    method Purchases(attempts: nat) returns (pending: seq<int>)
      requires Valid() && s.open == []
      modifies this
      ensures Valid() && s.open == seq(|pending|, i => Roll(STAKE, 1)) && forall i ::
          0 <= i < |pending| ==> pending[i] == STAKE
      ensures accepted == old(accepted) + |pending| && blocked == old(blocked) + attempts - |pending|
      ensures reserve == old(reserve) - 9_800_000 * |pending| && fees == old(fees) + 200_000 * |pending|
      ensures |pending| <= attempts && (|pending| < attempts ==> reserve < 9_800_000)
      ensures rollBlocked == old(rollBlocked) && |run| == |old(run)| + |pending|
    {
      hide CanRun, Run, Initial;
      pending := [];
      for i := 0 to attempts
        invariant Valid() && |s.open| == |pending| <= i
        invariant forall k :: 0 <= k < |pending| ==> s.open[k] == Roll(STAKE, 1) && pending[k] == STAKE
        invariant accepted == old(accepted) + |pending| && blocked == old(blocked) + i - |pending|
        invariant reserve == old(reserve) - STAKE * |pending| && fees == old(fees) + FEE * |pending|
        invariant (|pending| < i ==> reserve < STAKE) && rollBlocked == old(rollBlocked)
        invariant |run| == |old(run)| + |pending|
      {
        if !CanReserve(STAKE, reserve, MAX_STAKE) {
          blocked := blocked + 1;
          continue;
        }
        Step(Buy);
        reserve := reserve - STAKE;
        fees := fees + FEE;
        accepted := accepted + 1;
        pending := pending + [STAKE];
      }
    }

    /** What the next bucket of the generator pays. */
    ghost predicate Pays(seed: bv32, amount: int, reward: int) {
      Payout(amount, BucketOf(Xorshift(seed))) == Some(reward)
    }

    /** One first roll: paid out, or put into a second roll exactly when the policy and the reserve allow. */
    method FirstRoll(amount: int, rollOnce: bool) returns (again: Option<int>, ghost reward: int)
      requires Valid() && s.open != [] && s.open[0] == Roll(amount, 1)
      modifies this, generator
      ensures Valid() && Pays(old(generator.seed), amount, reward)
      ensures var rest := old(reserve) + 2 * amount - reward;
              var rolls := rollOnce && 0 < reward <= 20_000_000 && rest >= reward;
              && again == (if rolls then Some(reward) else None)
              && reserve == (if rolls then rest - reward else rest)
              && paid == old(paid) + (if rolls then 0 else reward)
      ensures s.open == old(s.open[1..]) + if again.Some? then [Roll(again.value, 2)] else []
      ensures rollBlocked == old(rollBlocked) + if rollOnce && again.None? then 1 else 0
      ensures blocked == old(blocked) && accepted == old(accepted) && |run| == |old(run)| + 1
    {
      hide CanRun, Run, Initial, Enabled, Payout, Xorshift, BucketOf;
      var bucket := generator.Bucket();
      CanSettle(initial, run, s, 0, bucket, rollOnce);
      assert Without(s.open, 0) == s.open[1..];
      Step(Settle(0, bucket, rollOnce));
      var value := Payout(amount, bucket).value;
      reward := value;
      reserve := reserve + 2 * amount - value;
      if rollOnce && CanReserve(value, reserve, MAX_STAKE) {
        reserve := reserve - value;
        return Some(value), value;
      }
      paid := paid + value;
      if rollOnce { rollBlocked := rollBlocked + 1; }
      return None, value;
    }

    method SecondRoll(amount: int) returns (ghost reward: int)
      requires Valid() && s.open != [] && s.open[0] == Roll(amount, 2)
      modifies this, generator
      ensures Valid() && s.open == old(s.open[1..]) && Pays(old(generator.seed), amount, reward)
      ensures reserve == old(reserve) + 2 * amount - reward && paid == old(paid) + reward
      ensures blocked == old(blocked) && rollBlocked == old(rollBlocked) && accepted == old(accepted)
      ensures |run| == |old(run)| + 1
    {
      hide CanRun, Run, Initial, Enabled, Payout, Xorshift, BucketOf;
      var bucket := generator.Bucket();
      CanSettle(initial, run, s, 0, bucket, false);
      assert Without(s.open, 0) == s.open[1..];
      Step(Settle(0, bucket, false));
      var value := Payout(amount, bucket).value;
      reward := value;
      reserve := reserve + 2 * amount - value;
      paid := paid + value;
    }

    /** A batch leaves no roll open, and the check at its end holds. */
    method Batch(attempts: nat, rollOnce: bool) returns (violated: bool)
      requires Valid() && s.open == []
      modifies this, generator
      ensures Valid() && s.open == [] && !violated
      ensures reserve >= 0 && reserve + paid + fees == initial + accepted * PRICE
      ensures accepted + blocked == old(accepted + blocked) + attempts && old(accepted) <= accepted
      ensures rollBlocked >= old(rollBlocked) && (!rollOnce ==> rollBlocked == old(rollBlocked))
      ensures var first := accepted - old(accepted);
              var second := if rollOnce then first - (rollBlocked - old(rollBlocked)) else 0;
              |run| == |old(run)| + 2 * first + second
    {
      hide CanRun, Run, Initial;
      var pending := Purchases(attempts);
      var second: seq<int> := [];
      for k := 0 to |pending|
        invariant Valid() && |s.open| == |pending| - k + |second| &&
            accepted + blocked == old(accepted + blocked) + attempts && accepted == old(accepted) + |pending|
        invariant rollBlocked == old(rollBlocked) + (if rollOnce then k - |second| else 0)
        invariant (!rollOnce ==> second == []) && |second| <= k && |run| == |old(run)| + |pending| + k
        invariant forall i :: 0 <= i < |pending| - k ==> s.open[i] == Roll(pending[k + i], 1)
        invariant forall i :: 0 <= i < |second| ==> s.open[|pending| - k + i] == Roll(second[i], 2)
      {
        var again: Option<int>;
        ghost var reward;
        again, reward := FirstRoll(pending[k], rollOnce);
        if again.Some? { second := second + [again.value]; }
      }
      for k := 0 to |second|
        invariant Valid() && |s.open| == |second| - k && accepted + blocked == old(accepted + blocked) + attempts
        invariant rollBlocked == old(rollBlocked) + (if rollOnce then |pending| - |second| else 0)
        invariant accepted == old(accepted) + |pending| && |run| == |old(run)| + 2 * |pending| + k
        invariant forall i :: 0 <= i < |second| - k ==> s.open[i] == Roll(second[k + i], 2)
      {
        ghost var reward := SecondRoll(second[k]);
      }
      Balances(initial, run, s);
      violated := reserve < 0 || reserve + paid + fees != initial + accepted * PRICE;
    }

    /** One run of the stress test: fifty batches of twenty attempts.  Its solvency error is never
        thrown, and every attempt was either accepted or blocked. */
    method Stress(rollOnce: bool) returns (violated: bool)
      requires Valid() && s.open == [] && accepted == blocked == 0
      modifies this, generator
      ensures Valid() && s.open == [] && !violated
      ensures reserve >= 0 && reserve + paid + fees == initial + accepted * PRICE && accepted + blocked == 1000
      ensures !rollOnce ==> rollBlocked == old(rollBlocked)
      ensures |run| == |old(run)| + 2 * accepted + if rollOnce then accepted - (rollBlocked - old(rollBlocked)) else 0
    {
      violated := false;
      hide CanRun, Run, Initial;
      Balances(initial, run, s);
      for batch := 0 to 50
        invariant Valid() && s.open == [] && !violated && accepted + blocked == 20 * batch
        invariant reserve >= 0 && reserve + paid + fees == initial + accepted * PRICE
        invariant !rollOnce ==> rollBlocked == old(rollBlocked)
        invariant |run| == |old(run)| + 2 * accepted +
                             if rollOnce then accepted - (rollBlocked - old(rollBlocked)) else 0
      {
        violated := Batch(20, rollOnce);
        if violated { return; }
      }
    }
  }
}
