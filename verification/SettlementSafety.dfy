/** What every run of the settlement system keeps, whatever crashes, restarts, lagging
    status reads and chain events it contains. */
module SettlementSafety {
  import opened Common
  import opened SettlementMachine

  lemma {:induction false} RunAppend(s: System, actions: seq<Action>, a: Action)
    requires CanRun(s, actions) && Enabled(Run(s, actions), a)
    ensures CanRun(s, actions + [a])
    ensures Run(s, actions + [a]) == Apply(Run(s, actions), a)
    decreases |actions|
  {
    if actions == [] {
      assert [] + [a] == [a];
      assert [a][1..] == [];
    } else {
      RunAppend(Apply(s, actions[0]), actions[1..], a);
      assert (actions + [a])[1..] == actions[1..] + [a];
    }
  }

  lemma Reachable(actions: seq<Action>)
    requires CanRun(Initial, actions)
    ensures Inv(Run(Initial, actions))
  {
    RunKeepsInv(Initial, actions);
  }

  /** The journal on disk names, under its job, every transaction that can still land; a job
      never has two of them; and one process at most works on the state directory. */
  lemma EveryRunIsSafe(actions: seq<Action>)
    requires CanRun(Initial, actions)
    ensures var s := Run(Initial, actions);
            forall sig ::
                Able(s.chain, sig) ==> Listed(s.disk, s.chain.txs[sig].job, Pending(sig, s.chain.txs[sig].blockhash))
    ensures var c := Run(Initial, actions).chain;
            forall x, y :: Able(c, x) && Able(c, y) && c.txs[x].job == c.txs[y].job ==> x == y
    ensures var s := Run(Initial, actions);
            forall p, q :: p in s.procs && q in s.procs ==> p == q
  {
    Reachable(actions);
  }

  /** A transaction reaches the network only after its signature is on disk, and only when every
      earlier transaction of its job is confirmed or has an expired blockhash. */
  lemma RecordedBeforeSent(actions: seq<Action>, p: Pid)
    requires CanRun(Initial, actions) && Enabled(Run(Initial, actions), Broadcast(p))
    ensures var s := Run(Initial, actions);
            var job, tx := s.procs[p].phase.job, s.procs[p].phase.tx;
            && Listed(s.disk, job, tx)
            && tx.signature !in s.chain.txs
            && forall sig :: sig in s.chain.txs && s.chain.txs[sig].job == job
                 ==> s.chain.txs[sig].status == Confirmed || s.chain.txs[sig].blockhash in s.chain.expired
  {
    Reachable(actions);
    var s := Run(Initial, actions);
    var job := s.procs[p].phase.job;
    forall sig | sig in s.chain.txs && s.chain.txs[sig].job == job
      ensures s.chain.txs[sig].status == Confirmed || s.chain.txs[sig].blockhash in s.chain.expired
    {
      assert !Able(s.chain, sig);
    }
  }

  /** An entry leaves the journal on disk only once it can no longer land. */
  lemma ForgottenOnlyWhenDead(actions: seq<Action>, a: Action, sig: Signature)
    requires CanRun(Initial, actions) && Enabled(Run(Initial, actions), a)
    requires sig in Run(Initial, actions).chain.txs
    requires var s := Run(Initial, actions);
             !Listed(Apply(s, a).disk, s.chain.txs[sig].job, Pending(sig, s.chain.txs[sig].blockhash))
    ensures var c := Run(Initial, actions).chain;
            c.txs[sig].status == Confirmed || c.txs[sig].blockhash in c.expired
  {
    Reachable(actions);
    var s := Run(Initial, actions);
    StepKeepsInv(s, a);
    if a.RenameTemp? {
      assert Apply(s, a).chain == s.chain;
    } else {
      assert Apply(s, a).disk == s.disk;
    }
  }

  /** Kill the worker after any action at all, clear its lock and start another: the new process
      knows every transaction that can still land. */
  lemma RestartKnowsEverything(actions: seq<Action>, p: Pid, q: Pid)
    requires CanRun(Initial, actions) && p in Run(Initial, actions).procs
    ensures var s, more := Run(Initial, actions), actions + [Crash(p)] + [ClearLock] + [Start(q)] + [Action.Load(q)];
            && CanRun(Initial, more)
            && var s' := Run(Initial, more);
            && s'.chain == s.chain && s'.procs == map[q := Proc(Idle, s.disk)]
            && forall sig ::
                Able(s.chain, sig) ==>
                Listed(s'.procs[q].memory, s.chain.txs[sig].job, Pending(sig, s.chain.txs[sig].blockhash))
  {
    hide CanRun, Run;
    Reachable(actions);
    var s := Run(Initial, actions);
    assert s.procs - {p} == map[];
    RunAppend(Initial, actions, Crash(p));
    RunAppend(Initial, actions + [Crash(p)], ClearLock);
    RunAppend(Initial, actions + [Crash(p)] + [ClearLock], Start(q));
    RunAppend(Initial, actions + [Crash(p)] + [ClearLock] + [Start(q)], Action.Load(q));
  }

  // ---------- "cannot land any more" against "never landed" ----------

  predicate Gone(s: System, sig: Signature) {
    sig in s.chain.txs && s.chain.txs[sig].status == Absent && s.chain.txs[sig].blockhash in s.chain.expired
  }

  lemma SentIsNew(s: System, a: Action)
    requires Inv(s) && Enabled(s, a)
    ensures s.chain.live !! s.chain.expired
    ensures a.Broadcast? ==> PhaseOf(s, a.p).tx.signature !in s.chain.txs
  {
  }

  lemma ChainOfStep(s: System, a: Action)
    requires Enabled(s, a) && !IsChain(a)
    ensures var c := Apply(s, a).chain;
            && c.live == s.chain.live && c.expired == s.chain.expired
            && c.txs == if a.Broadcast? then Handed(s.chain, PhaseOf(s, a.p).job, PhaseOf(s, a.p).tx).txs
                else s.chain.txs
  {
  }

  lemma StepKeepsGone(s: System, a: Action, sig: Signature)
    requires Inv(s) && Gone(s, sig) && Enabled(s, a)
    ensures Gone(Apply(s, a), sig)
  {
    SentIsNew(s, a);
    hide Inv, Record, Delay, JobOf;
    if !IsChain(a) {
      ChainOfStep(s, a);
      hide Apply, Enabled;
    }
  }

  lemma {:induction false} GoneForever(s: System, actions: seq<Action>, sig: Signature)
    requires Inv(s) && Gone(s, sig) && CanRun(s, actions)
    ensures Gone(Run(s, actions), sig)
    decreases |actions|
  {
    hide Inv, Gone, Apply, Enabled;
    if actions != [] {
      StepKeepsInv(s, actions[0]);
      StepKeepsGone(s, actions[0], sig);
      GoneForever(Apply(s, actions[0]), actions[1..], sig);
    }
  }

  predicate IsConfirmed(c: Chain, tx: Pending) {
    tx.signature in c.txs && c.txs[tx.signature].status == Confirmed
  }

  lemma StepKeepsConfirmed(s: System, a: Action, tx: Pending)
    requires Inv(s) && IsConfirmed(s.chain, tx) && Enabled(s, a)
    ensures IsConfirmed(Apply(s, a).chain, tx)
  {
    SentIsNew(s, a);
    hide Inv, Record, Delay, JobOf;
    if !IsChain(a) {
      ChainOfStep(s, a);
      hide Apply, Enabled;
    }
  }

  lemma {:induction false} ConfirmedForever(s: System, actions: seq<Action>, tx: Pending)
    requires Inv(s) && CanRun(s, actions) && IsConfirmed(s.chain, tx)
    ensures IsConfirmed(Run(s, actions).chain, tx)
    decreases |actions|
  {
    hide Inv, IsConfirmed, Apply, Enabled;
    if actions != [] {
      StepKeepsInv(s, actions[0]);
      StepKeepsConfirmed(s, actions[0], tx);
      ConfirmedForever(Apply(s, actions[0]), actions[1..], tx);
    }
  }

  lemma {:induction false} RunSplit(s: System, xs: seq<Action>, ys: seq<Action>)
    requires CanRun(s, xs + ys)
    ensures CanRun(s, xs) && CanRun(Run(s, xs), ys) && Run(s, xs + ys) == Run(Run(s, xs), ys)
    decreases |xs|
  {
    if xs == [] {
      assert xs + ys == ys;
    } else {
      assert (xs + ys)[1..] == xs[1..] + ys;
      RunSplit(Apply(s, xs[0]), xs[1..], ys);
    }
  }

  lemma ConfirmedStays(earlier: seq<Action>, later: seq<Action>, tx: Pending)
    requires CanRun(Initial, later) && earlier <= later && CanRun(Initial, earlier)
    requires IsConfirmed(Run(Initial, earlier).chain, tx)
    ensures IsConfirmed(Run(Initial, later).chain, tx)
  {
    var rest := later[|earlier|..];
    assert later == earlier + rest;
    RunSplit(Initial, earlier, rest);
    Reachable(earlier);
    ConfirmedForever(Run(Initial, earlier), rest, tx);
  }

  lemma {:induction false} ExpiredForever(s: System, actions: seq<Action>)
    requires CanRun(s, actions)
    ensures s.chain.expired <= Run(s, actions).chain.expired
    decreases |actions|
  {
    if actions != [] {
      ExpiredForever(Apply(s, actions[0]), actions[1..]);
    }
  }

  /** What reconciliation concludes about an entry stays true. */
  lemma DeadStays(earlier: seq<Action>, later: seq<Action>, tx: Pending)
    requires CanRun(Initial, later) && earlier <= later && CanRun(Initial, earlier)
    requires Dead(Run(Initial, earlier).chain, tx)
    ensures Dead(Run(Initial, later).chain, tx)
  {
    var rest := later[|earlier|..];
    assert later == earlier + rest;
    RunSplit(Initial, earlier, rest);
    ExpiredForever(Run(Initial, earlier), rest);
    if IsConfirmed(Run(Initial, earlier).chain, tx) {
      ConfirmedStays(earlier, later, tx);
    }
  }

  lemma {:induction false} ClockGrows(s: System, actions: seq<Action>)
    requires CanRun(s, actions)
    ensures s.clock <= Run(s, actions).clock
    decreases |actions|
  {
    if actions != [] {
      ClockGrows(Apply(s, actions[0]), actions[1..]);
    }
  }

  lemma ClockStays(earlier: seq<Action>, later: seq<Action>)
    requires CanRun(Initial, later) && earlier <= later && CanRun(Initial, earlier)
    ensures Run(Initial, earlier).clock <= Run(Initial, later).clock
  {
    var rest := later[|earlier|..];
    assert later == earlier + rest;
    RunSplit(Initial, earlier, rest);
    ClockGrows(Run(Initial, earlier), rest);
  }

  ghost predicate CanConfirm(s: System, sig: Signature) {
    exists more :: CanRun(s, more) && sig in Run(s, more).chain.txs && Run(s, more).chain.txs[sig].status == Confirmed
  }

  /** What the expired verdict of reconciliation is worth: the transaction may still take effect
      exactly when some block held it at that moment. */
  lemma ExpiredConfirmsIffProcessed(actions: seq<Action>, sig: Signature)
    requires CanRun(Initial, actions)
    requires var c := Run(Initial, actions).chain; sig in c.txs && c.txs[sig].blockhash in c.expired
    ensures CanConfirm(Run(Initial, actions), sig) <==> Run(Initial, actions).chain.txs[sig].status != Absent
  {
    Reachable(actions);
    var s := Run(Initial, actions);
    match s.chain.txs[sig].status
    case Absent =>
      forall more | CanRun(s, more) ensures Gone(Run(s, more), sig) { GoneForever(s, more, sig); }
    case Processed =>
      RunAppend(s, [], Confirm(sig));
    case Confirmed =>
      assert CanRun(s, []) && Run(s, []) == s;
  }

  // ---------- a run in which the verdict was not the whole story ----------

  ghost predicate Reaches(s: System, t: System) {
    exists actions :: CanRun(s, actions) && Run(s, actions) == t
  }

  lemma Then(s: System, t: System, a: Action, u: System)
    requires Reaches(s, t) && Enabled(t, a) && Apply(t, a) == u
    ensures Reaches(s, u)
  {
    var actions :| CanRun(s, actions) && Run(s, actions) == t;
    RunAppend(s, actions, a);
  }

  lemma Overwrites()
    ensures forall k: Pid, a: Proc, b: Proc :: map[k := a][k := b] == map[k := b]
    ensures forall k: Job, a: JobState, b: JobState :: map[k := a][k := b] == map[k := b]
  {
  }

  /** Process 0 alone, holding the lock, with no temporary file. */
  function Alone(phase: Phase, memory: Journal, disk: Journal, c: Chain, clock: nat): System {
    System(map[0 := Proc(phase, memory)], Some(0), disk, None, c, clock)
  }

  lemma PersistSteps(s: System, next: Phase, memory: Journal, disk: Journal, c: Chain, clock: nat)
    requires Reaches(s, Alone(Write(next), memory, disk, c, clock))
    ensures Reaches(s, Alone(next, memory, memory, c, clock))
  {
    Overwrites();
    var t := Alone(Rename(next), memory, disk, c, clock).(temp := Some(memory));
    Then(s, Alone(Write(next), memory, disk, c, clock), WriteTemp(0), t);
    Then(s, t, RenameTemp(0), Alone(next, memory, memory, c, clock));
  }

  lemma AttemptSteps(s: System, record: JobState, disk: Journal, c: Chain, clock: nat, tx: Pending)
    requires Reaches(s, Alone(Executing("j"), map["j" := record], disk, c, clock))
    requires tx.signature !in c.signed && tx.blockhash in c.live
    ensures var memory := map["j" := record.(pending := record.pending + [tx])];
            Reaches(s, Alone(Awaiting("j", tx), memory, memory,
                Handed(c.(signed := c.signed + {tx.signature}), "j", tx), clock))
  {
    Overwrites();
    var memory := map["j" := record.(pending := record.pending + [tx])];
    var c' := c.(signed := c.signed + {tx.signature});
    Then(s, Alone(Executing("j"), map["j" := record], disk, c, clock), Sign(0, tx.signature, tx.blockhash),
         Alone(Write(Sending("j", tx)), memory, disk, c', clock));
    PersistSteps(s, Sending("j", tx), memory, disk, c', clock);
    Then(s, Alone(Sending("j", tx), memory, memory, c', clock), Broadcast(0),
         Alone(Awaiting("j", tx), memory, memory, Handed(c', "j", tx), clock));
  }

  const Old := Pending(10, 1)

  lemma Started()
    ensures Reaches(Initial, Alone(Idle, map[], map[], Chain(map[], {}, {1}, {}), 0))
  {
    Overwrites();
    assert CanRun(Initial, []) && Run(Initial, []) == Initial;
    var c := Initial.chain;
    Then(Initial, Initial, Start(0), Alone(Loading, map[], map[], c, 0));
    Then(Initial, Alone(Loading, map[], map[], c, 0), Load(0), Alone(Idle, map[], map[], c, 0));
    Then(Initial, Alone(Idle, map[], map[], c, 0), NewHash(1), Alone(Idle, map[], map[], Chain(map[], {}, {1}, {}), 0));
  }

  lemma FirstAttempt()
    ensures var journal := map["j" := JobState(0, 0, [Old], false)];
            Reaches(Initial,
                Alone(Awaiting("j", Old), journal, journal, Chain(map[10 := Tx("j", 1, Absent)], {10}, {1}, {}), 0))
  {
    Overwrites();
    Started();
    var c, record := Chain(map[], {}, {1}, {}), JobState(0, 0, [], false);
    Then(Initial, Alone(Idle, map[], map[], c, 0), Begin(0, "j"),
        Alone(Statuses("j", 0, false), map["j" := record], map[], c, 0));
    Then(Initial, Alone(Statuses("j", 0, false), map["j" := record], map[], c, 0), Resolve(0),
        Alone(Executing("j"), map["j" := record], map[], c, 0));
    AttemptSteps(Initial, record, map[], c, 0, Old);
    assert [] + [Old] == [Old] && {} + {10} == {10} && map[][10 := Tx("j", 1, Absent)] == map[10 := Tx("j", 1, Absent)];
  }

  lemma GivenUp()
    ensures var journal := map["j" := JobState(1, 10000, [Old], true)];
            Reaches(Initial, Alone(Idle, journal, journal, Chain(map[10 := Tx("j", 1, Absent)], {10}, {1}, {}), 20000))
  {
    Overwrites();
    FirstAttempt();
    var c := Chain(map[10 := Tx("j", 1, Absent)], {10}, {1}, {});
    var before, journal := map["j" := JobState(0, 0, [Old], false)], map["j" := JobState(1, 10000, [Old], true)];
    Then(Initial, Alone(Awaiting("j", Old), before, before, c, 0), Fail(0), Alone(Write(Idle), journal, before, c, 0));
    PersistSteps(Initial, Idle, journal, before, c, 0);
    Then(Initial, Alone(Idle, journal, journal, c, 0), Tick(20000), Alone(Idle, journal, journal, c, 20000));
  }

  lemma Doubted()
    ensures var m := map["j" := JobState(1, 10000, [Old], true)];
            Reaches(Initial,
                Alone(Hash("j", 0, false), m, m, Chain(map[10 := Tx("j", 1, Absent)], {10}, {1}, {}), 20000))
  {
    Overwrites();
    GivenUp();
    var m := map["j" := JobState(1, 10000, [Old], true)];
    var c := Chain(map[10 := Tx("j", 1, Absent)], {10}, {1}, {});
    Then(Initial, Alone(Idle, m, m, c, 20000), Begin(0, "j"), Alone(Statuses("j", 0, false), m, m, c, 20000));
    Then(Initial, Alone(Statuses("j", 0, false), m, m, c, 20000), ReadStatus(0, Absent),
        Alone(Hash("j", 0, false), m, m, c, 20000));
  }

  lemma Landed()
    ensures var m := map["j" := JobState(1, 10000, [Old], true)];
            Reaches(Initial,
                Alone(Hash("j", 0, false), m, m, Chain(map[10 := Tx("j", 1, Processed)], {10}, {}, {1}), 20000))
  {
    Doubted();
    var m := map["j" := JobState(1, 10000, [Old], true)];
    var c0 := Chain(map[10 := Tx("j", 1, Absent)], {10}, {1}, {});
    var c1 := Chain(map[10 := Tx("j", 1, Processed)], {10}, {1}, {});
    assert c0.txs[10 := Tx("j", 1, Processed)] == c1.txs;
    Then(Initial, Alone(Hash("j", 0, false), m, m, c0, 20000), Process(10),
        Alone(Hash("j", 0, false), m, m, c1, 20000));
    Then(Initial, Alone(Hash("j", 0, false), m, m, c1, 20000), Expire(1),
        Alone(Hash("j", 0, false), m, m, c1.(live := {}, expired := {1}), 20000));
  }

  lemma Judged()
    ensures var record := JobState(1, 10000, [Old], true);
            Reaches(Initial, Alone(Executing("j"), map["j" := record.(pending := [])], map["j" := record],
                                   Chain(map[10 := Tx("j", 1, Processed)], {10}, {}, {1}), 20000))
  {
    Overwrites();
    Landed();
    var record := JobState(1, 10000, [Old], true);
    var m := map["j" := record];
    var c := Chain(map[10 := Tx("j", 1, Processed)], {10}, {}, {1});
    Then(Initial, Alone(Hash("j", 0, false), m, m, c, 20000), ReadHash(0, false),
        Alone(Statuses("j", 1, false), m, m, c, 20000));
    Then(Initial, Alone(Statuses("j", 1, false), m, m, c, 20000), Resolve(0),
        Alone(Executing("j"), map["j" := record.(pending := [])], m, c, 20000));
  }

  /** Status and blockhash are read at two moments.  In some run the transaction enters a block
      between them, a replacement is sent while it is unconfirmed, and it is confirmed later. */
  lemma ReplacementIsNotAlwaysAlone()
    ensures exists s ::
      && Reaches(Initial, s)
      && s.chain.txs == map[10 := Tx("j", 1, Processed), 11 := Tx("j", 2, Absent)]
      && CanConfirm(s, 10)
  {
    Judged();
    var record := JobState(1, 10000, [], true);
    var disk := map["j" := record.(pending := [Old])];
    var c := Chain(map[10 := Tx("j", 1, Processed)], {10}, {}, {1});
    var c' := c.(live := {2});
    Then(Initial, Alone(Executing("j"), map["j" := record], disk, c, 20000), NewHash(2),
        Alone(Executing("j"), map["j" := record], disk, c', 20000));
    AttemptSteps(Initial, record, disk, c', 20000, Pending(11, 2));
    var memory := map["j" := record.(pending := [] + [Pending(11, 2)])];
    var s := Alone(Awaiting("j", Pending(11, 2)), memory, memory,
        Handed(c'.(signed := {10} + {11}), "j", Pending(11, 2)), 20000);
    RunAppend(s, [], Confirm(10));
  }

  // ---------- what the blockhash reading is trusted with ----------

  /** A negative blockhash reading is believed, so a node that gives one for a blockhash it has merely
      not seen yet undoes the guarantee: from a reachable state in which the entry can still land, the
      step after such an answer is the start of a run with two transactions of one job able to land. */
  lemma SafetyNeedsTrueExpiry()
    ensures exists s, t ::
      && Reaches(Initial, s) && 0 in s.procs && s.procs[0].phase == Hash("j", 0, false) && Able(s.chain, 10)
      && Reaches(Go(s, 0, Statuses("j", 1, false)), t)
      && Able(t.chain, 10) && Able(t.chain, 11) && t.chain.txs[10].job == t.chain.txs[11].job
  {
    Overwrites();
    Doubted();
    var record := JobState(1, 10000, [Old], true);
    var m := map["j" := record];
    var c := Chain(map[10 := Tx("j", 1, Absent)], {10}, {1}, {});
    var s := Alone(Hash("j", 0, false), m, m, c, 20000);
    var misled := Alone(Statuses("j", 1, false), m, m, c, 20000);
    assert misled == Go(s, 0, Statuses("j", 1, false));
    assert CanRun(misled, []) && Run(misled, []) == misled;
    Then(misled, misled, Resolve(0), Alone(Executing("j"), map["j" := record.(pending := [])], m, c, 20000));
    AttemptSteps(misled, record.(pending := []), m, c, 20000, Pending(11, 1));
    var memory := map["j" := record.(pending := [] + [Pending(11, 1)])];
    var t := Alone(Awaiting("j", Pending(11, 1)), memory, memory,
        Handed(c.(signed := c.signed + {11}), "j", Pending(11, 1)), 20000);
    assert Able(t.chain, 10) && Able(t.chain, 11);
  }
}
