/** One bootstrap run: fetch, compare with the plan, upload the rest in chunks of four, check the
    length, activate.  Other runs and late transactions act between any two of its awaits. */
module Bootstrap {
  import opened Common
  import opened ManifestMachine

  class Bootstrapper {
    const p: nat
    const plan: seq<Stock>
    var world: State
    ghost const before: Option<Manifest>
    ghost var run: seq<Action>
    ghost var failures: nat  // calls that have thrown, and chunks that have not landed

    ghost predicate Valid()
      reads this
    {
      CanRun(plan, Initial(before), run) && Run(plan, Initial(before), run) == world
    }

    ghost predicate In(phase: Phase)
      reads this
    {
      Valid() && p in world.runs && world.runs[p] == phase
    }

    constructor (p: nat, plan: seq<Stock>, world: State, ghost before: Option<Manifest>, ghost run: seq<Action>)
      requires CanRun(plan, Initial(before), run) && Run(plan, Initial(before), run) == world
      ensures Valid() && this.p == p && this.plan == plan && this.world == world
    {
      this.p, this.plan, this.world := p, plan, world;
      this.before, this.run, this.failures := before, run, 0;
    }

    method Step(a: Action)
      requires Valid() && Enabled(plan, world, a)
      modifies this`world, this`run
      ensures Valid() && world == Apply(plan, old(world), a)
    {
      RunAppend(plan, Initial(before), run, a);
      world, run := Apply(plan, world, a), run + [a];
    }

    predicate Mine(a: Action) {
      match a
      case Land(_) => false
      case Lost(_) => false
      case _ => a.p == p
    }

    /** Transactions land or are lost, and other runs proceed. */
    method Others()
      requires Valid() && p in world.runs
      modifies this`world, this`run
      ensures In(old(world).runs[p])
    {
      var n := 0;
      n := *;
      for i := 0 to if n < 0 then 0 else n
        invariant In(old(world).runs[p])
      {
        var a := Join(0);
        a := *;
        if Enabled(plan, world, a) && !Mine(a) {
          Step(a);
        }
      }
    }

    /** `throw`: this run is over. */
    method Throw()
      requires Valid() && p in world.runs
      modifies this`world, this`run
      ensures Valid() && p !in world.runs && world.account == old(world.account)
    {
      Step(Quit(p));
    }

    /** Dispatcher.instructions throws, or the transaction has landed. */
    method Await(id: nat) returns (ok: bool)
      modifies this`failures
      ensures (ok ==> id in world.landed) && failures == old(failures) + if ok then 0 else 1
    {
      ok := *;
      ok := ok && id in world.landed;
      if !ok {
        failures := failures + 1;
      }
    }

    /** Dispatcher.instructions for the chunk from `start`: sent, then awaited. */
    method SendChunk(start: nat) returns (ok: bool)
      requires In(Ready(start)) && start < |plan|
      modifies this`world, this`run, this`failures
      ensures failures == old(failures) + if ok then 0 else 1
      ensures if ok then In(Ready(start + 4)) else Valid() && p in world.runs
    {
      Step(Send(p));
      Others();
      ok := Await(world.runs[p].id);
      if ok {
        Step(Confirmed(p));
      }
    }

    method SendActivation() returns (ok: bool)
      requires In(Complete)
      modifies this`world, this`run, this`failures
      ensures failures == old(failures) + if ok then 0 else 1
      ensures if ok then In(Done) else Valid() && p in world.runs
    {
      Step(SendActivate(p));
      Others();
      ok := Await(world.runs[p].id);
      if ok {
        Step(Confirmed(p));
      }
    }

    /** The comparison loop over what is already uploaded. */
    method IsPrefix(uploaded: seq<Stock>) returns (same: bool)
      ensures same <==> uploaded <= plan
    {
      for i := 0 to |uploaded|
        invariant i <= |plan| && uploaded[..i] == plan[..i]
      {
        if i >= |plan| || uploaded[i] != plan[i] {
          return false;
        }
      }
      return true;
    }

    /** A run that returns without throwing leaves the plan, and nothing else, in a sealed manifest; one that
        throws has had a call fail, or has found something else uploaded, or nothing to upload. */
    method Upload() returns (ok: bool)
      requires Valid() && p !in world.runs
      modifies this`world, this`run, this`failures
      ensures Valid() && failures >= old(failures)
      ensures ok ==> failures == old(failures)
      ensures !ok && failures == old(failures) ==> !OnPlan(plan, world) || plan == []
      ensures ok ==> world.account.Some? && world.account.value.stocks == plan && world.account.value.sealed
      ensures !ok ==> p !in world.runs
    {
      hide CanRun, Run;
      Step(Join(p));
      Others();
      var uploaded := world.account;
      var start := 0;
      if uploaded.Some? {
        var same := IsPrefix(uploaded.value.stocks);
        if !same { Throw(); return false; }
        start := |uploaded.value.stocks|;
      }
      Step(Action.Fetch(p));
      while start < |plan|
        invariant In(Ready(start)) && failures == old(failures)
      {
        ok := SendChunk(start);
        if !ok { Throw(); return; }
        start := start + 4;
      }
      Others();
      if plan != [] { UploadedAll(plan, before, run, p, start); }
      if world.account.None? || |world.account.value.stocks| != |plan| { Throw(); return false; }
      Step(Action.Verify(p));
      ok := SendActivation();
      if !ok { Throw(); return; }
      ActivatedIsThePlan(plan, before, run);
    }
  }
}
