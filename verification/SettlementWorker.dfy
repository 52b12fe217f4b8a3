/** The worker itself: the job loop, `persist`, reconciliation and the dispatcher, step by step.

    `world` is the system of SettlementMachine as calls into it see it; `run` is the list of actions
    that led there.  Between any two awaits `Others` lets the chain and the clock do what they
    like.  Every method keeps `Valid`, so what SettlementSafety proves of runs holds at every
    point of this code, including the points where a crash cuts it short. */
module SettlementWorker {
  import opened Common
  import opened SettlementMachine
  import opened SettlementSafety
  import opened SettlementJobs

  /** How a turn of the job loop ends. */
  datatype Ending = SKIPPED | DEFERRED | EXECUTED | FAILED

  ghost predicate AllDead(c: Chain, txs: seq<Pending>) { forall tx :: tx in txs ==> Dead(c, tx) }

  ghost predicate AllConfirmed(c: Chain, txs: seq<Pending>) { forall tx :: tx in txs ==> IsConfirmed(c, tx) }

  /** What a turn leaves of the job's record.  An executed job has dispatched all that its accounts ask
      for, and all of it is confirmed; a failed one has dispatched no more than that. */
  ghost predicate Outcome(was: JobState, now: JobState, w: Work, ending: Ending, c: Chain) {
    match ending
    case SKIPPED => now == was
    case DEFERRED => was.pending != [] && now == was.(nextAttempt := now.nextAttempt)
    case EXECUTED =>
      && AllDead(c, was.pending) && AllConfirmed(c, now.pending) && |now.pending| == Dispatches(w)
      && now.attempts == 0 && !now.error
    case FAILED =>
      && (now.pending == was.pending || (AllDead(c, was.pending) && |now.pending| <= Dispatches(w)))
      && now.attempts == was.attempts + 1 && now.error
  }

  /** Exactly the jobs that are not due are skipped; any other comes back after its pause. */
  predicate Timed(was: JobState, now: JobState, ending: Ending, start: nat, end: nat) {
    if ending == SKIPPED then start < was.nextAttempt
    else
      var pause := if ending == FAILED then Delay(now.attempts) else 20000;
      was.nextAttempt <= start <= end && start + pause <= now.nextAttempt <= end + pause
  }

  lemma OutcomeStays(earlier: seq<Action>, later: seq<Action>, was: JobState, now: JobState, w: Work, ending: Ending)
    requires CanRun(Initial, later) && earlier <= later && CanRun(Initial, earlier)
    requires Outcome(was, now, w, ending, Run(Initial, earlier).chain)
    ensures Outcome(was, now, w, ending, Run(Initial, later).chain)
  {
    DeadListStays(earlier, later, was.pending);
    ConfirmedListStays(earlier, later, now.pending);
  }

  lemma DeadListStays(earlier: seq<Action>, later: seq<Action>, txs: seq<Pending>)
    requires CanRun(Initial, later) && earlier <= later && CanRun(Initial, earlier)
    ensures AllDead(Run(Initial, earlier).chain, txs) ==> AllDead(Run(Initial, later).chain, txs)
  {
    var c, c' := Run(Initial, earlier).chain, Run(Initial, later).chain;
    forall tx | Dead(c, tx) ensures Dead(c', tx) { DeadStays(earlier, later, tx); }
  }

  lemma ConfirmedListStays(earlier: seq<Action>, later: seq<Action>, txs: seq<Pending>)
    requires CanRun(Initial, later) && earlier <= later && CanRun(Initial, earlier)
    ensures AllConfirmed(Run(Initial, earlier).chain, txs) ==> AllConfirmed(Run(Initial, later).chain, txs)
  {
    var c, c' := Run(Initial, earlier).chain, Run(Initial, later).chain;
    forall tx | IsConfirmed(c, tx) ensures IsConfirmed(c', tx) { ConfirmedStays(earlier, later, tx); }
  }

  class Worker {
    const pid: Pid
    var state: Journal
    var world: System
    ghost var run: seq<Action>
    ghost var failures: nat  // outside calls that have thrown, simulations and transactions refused, waits given up

    ghost predicate Traced()
      reads this
    {
      CanRun(Initial, run) && Run(Initial, run) == world
    }

    ghost predicate Valid()
      reads this
    {
      Traced() && pid in world.procs && world.procs[pid].memory == state
    }

    ghost predicate In(phase: Phase)
      reads this
    {
      Valid() && world.procs[pid].phase == phase
    }

    /** An exception has been thrown inside the try block of this job's turn. */
    ghost predicate Thrown(job: Job)
      reads this
    {
      Valid() && JobOf(world.procs[pid].phase) == Some(job)
    }

    /** A reachable world without a lock file: the process creates the lock and is loading. */
    constructor (pid: Pid, world: System, ghost run: seq<Action>)
      requires CanRun(Initial, run) && Run(Initial, run) == world
      requires world.lock == None && pid !in world.procs
      ensures this.pid == pid && In(Loading) && this.run == run + [Start(pid)]
      ensures this.world == Apply(world, Start(pid))
    {
      RunAppend(Initial, run, Start(pid));
      this.pid, this.state, this.failures := pid, map[], 0;
      this.world := Apply(world, Start(pid));
      this.run := run + [Start(pid)];
    }

    method Step(a: Action)
      requires Traced() && Enabled(world, a)
      modifies this`world, this`run
      ensures Traced() && world == old(Apply(world, a)) && run == old(run) + [a]
    {
      RunAppend(Initial, run, a);
      world, run := Apply(world, a), run + [a];
    }

    /** Whatever chain and clock do while the worker waits. */
    method Others()
      requires Traced()
      modifies this`world, this`run
      ensures Traced() && old(run) <= run
      ensures world == old(world).(chain := world.chain, clock := world.clock)
      ensures world.chain.signed == old(world.chain.signed) && world.clock >= old(world.clock)
    {
      var n := 0;
      n := *;
      for i := 0 to if n < 0 then 0 else n
        invariant Traced() && old(run) <= run
        invariant world == old(world).(chain := world.chain, clock := world.clock)
        invariant world.chain.signed == old(world.chain.signed) && world.clock >= old(world.clock)
      {
        var a := ClearLock;
        a := *;
        if IsChain(a) && Enabled(world, a) {
          Step(a);
        }
      }
    }

    method Load()
      requires In(Loading)
      modifies this`state, this`world, this`run
      ensures In(Idle) && old(run) <= run
      ensures state == old(world.disk) == world.disk
    {
      Others();
      state := world.disk;
      Step(Action.Load(pid));
    }

    /** A call to the outside, which may throw. */
    method Outside() returns (threw: bool)
      modifies this`failures
      ensures failures == old(failures) + One(threw)
    {
      threw := *;
      if threw {
        failures := failures + 1;
      }
    }

    /** Write the temporary file, then rename it over the journal; either call may throw. */
    method Persist(ghost next: Phase) returns (ok: bool)
      requires In(Write(next))
      modifies this`world, this`run, this`failures
      ensures Valid() && old(run) <= run && failures == old(failures) + One(!ok)
      ensures ok ==> In(next) && world.disk == state
      ensures !ok ==> (In(Write(next)) || In(Rename(next))) && world.disk == old(world.disk)
    {
      Others();
      var threw := Outside();
      if threw { return false; }
      Step(WriteTemp(pid));
      Others();
      threw := Outside();
      if threw { return false; }
      Step(RenameTemp(pid));
      return true;
    }

    /** The dispatcher's `record` callback. */
    method RecordPending(job: Job, sig: Signature, hash: Blockhash) returns (ok: bool)
      requires In(Executing(job)) && job in state
      requires sig !in world.chain.signed && (hash in world.chain.live || hash in world.chain.expired)
      modifies this`state, this`world, this`run, this`failures
      ensures Valid() && old(run) <= run && failures == old(failures) + One(!ok)
      ensures state == old(state)[job := old(state[job]).(pending := old(state[job].pending) + [Pending(sig, hash)])]
      ensures ok ==> In(Sending(job, Pending(sig, hash))) && Listed(world.disk, job, Pending(sig, hash))
      ensures !ok ==> Thrown(job)
    {
      hide CanRun, Run;
      AppendPending(job, sig, hash);
      ok := Persist(Sending(job, Pending(sig, hash)));
    }

    method AppendPending(job: Job, sig: Signature, hash: Blockhash)
      requires In(Executing(job)) && job in state
      requires sig !in world.chain.signed && (hash in world.chain.live || hash in world.chain.expired)
      modifies this`state, this`world, this`run
      ensures In(Write(Sending(job, Pending(sig, hash)))) && old(run) <= run
      ensures state == old(state)[job := old(state[job]).(pending := old(state[job].pending) + [Pending(sig, hash)])]
    {
      var record := state[job];
      state := state[job := record.(pending := record.pending + [Pending(sig, hash)])];
      Step(Sign(pid, sig, hash));
    }

    /** The network may have the transaction even when the call throws. */
    method Send(job: Job, ghost tx: Pending) returns (ok: bool)
      requires In(Sending(job, tx))
      modifies this`world, this`run, this`failures
      ensures Valid() && old(run) <= run && failures == old(failures) + One(!ok)
      ensures ok ==> In(Awaiting(job, tx))
      ensures !ok ==> Thrown(job)
    {
      Others();
      var threw := Outside();
      if threw { return false; }
      Step(Broadcast(pid));
      Others();
      threw := Outside();
      ok := !threw;
    }

    /** Polls until the status is confirmed without error, an error is seen, or time is up: after
        sixty seconds, and so after forty polls at the latest. */
    method AwaitConfirmation(job: Job, ghost tx: Pending) returns (ok: bool, late: bool, ghost polls: nat)
      requires In(Awaiting(job, tx))
      modifies this`world, this`run, this`failures
      ensures Valid() && old(run) <= run && failures == old(failures) + One(!ok)
      ensures ok ==> In(Executing(job)) && IsConfirmed(world.chain, tx)
      ensures !ok ==> In(Awaiting(job, tx))
      ensures late ==> !ok && world.clock >= old(world.clock) + 60000
      ensures polls <= 40
    {
      late, polls := false, 0;
      Reachable(run);
      var sig := world.procs[pid].phase.tx.signature;
      var deadline := world.clock + 60000;
      while world.clock < deadline
        invariant In(Awaiting(job, tx)) && old(run) <= run && sig == tx.signature && failures == old(failures)
        invariant old(world.clock) + 1500 * polls <= world.clock && polls <= 40
        decreases deadline - world.clock
      {
        polls := polls + 1;
        Others();
        Reachable(run);
        var threw := Outside();
        if threw { return false, false, polls; }  // the call failed, or the transaction failed on chain
        var seen: Status;
        seen := *;
        if seen == Confirmed && world.chain.txs[sig].status == Confirmed {
          Step(Settled(pid));
          return true, false, polls;
        }
        Step(Tick(1500));
      }
      failures := failures + 1;
      return false, true, polls;
    }

    /** What an attempt may do to the journal in memory: append entries to the job's record. */
    ghost predicate OnlyAppends(before: Journal, job: Job)
      reads this
    {
      && job in before && job in state && before[job].pending <= state[job].pending
      && state == before[job := before[job].(pending := state[job].pending)]
    }

    /** Dispatcher.signed: simulate, record, send, wait. */
    method Signed(job: Job, sig: Signature, hash: Blockhash) returns (ok: bool)
      requires In(Executing(job)) && job in state
      requires sig !in world.chain.signed && (hash in world.chain.live || hash in world.chain.expired)
      modifies this`state, this`world, this`run, this`failures
      ensures Valid() && old(run) <= run && failures == old(failures) + One(!ok)
      ensures OnlyAppends(old(state), job) && |state[job].pending| <= |old(state)[job].pending| + 1
      ensures ok ==> In(Executing(job)) && state[job].pending == old(state[job].pending) + [Pending(sig, hash)]
      ensures ok ==> IsConfirmed(world.chain, Pending(sig, hash))
      ensures !ok ==> Thrown(job)
    {
      var threw := Outside();
      if threw { return false; }  // limits exceeded or simulation rejected
      ok := RecordPending(job, sig, hash);
      if !ok { return; }
      ok := Send(job, Pending(sig, hash));
      if !ok { return; }
      var late: bool;
      ghost var polls;
      ok, late, polls := AwaitConfirmation(job, Pending(sig, hash));
    }

    /** Dispatcher.instructions: fetch a blockhash, simulate a probe, build and sign. */
    method Instructions(job: Job) returns (ok: bool)
      requires In(Executing(job)) && job in state
      modifies this`state, this`world, this`run, this`failures
      ensures Valid() && old(run) <= run && failures == old(failures) + One(!ok)
      ensures OnlyAppends(old(state), job) && |state[job].pending| <= |old(state)[job].pending| + 1
      ensures ok ==> In(Executing(job)) && |state[job].pending| == |old(state)[job].pending| + 1
      ensures ok ==> IsConfirmed(world.chain, state[job].pending[|old(state)[job].pending|])
      ensures !ok ==> Thrown(job)
    {
      Others();
      var threw := Outside();
      if threw { return false; }  // the latest blockhash could not be read, or the probe was rejected
      var hash: Blockhash, sig: Signature;
      hash, sig := *, *;
      // the blockhash is one the chain has had; a signature never repeats
      if sig in world.chain.signed || !(hash in world.chain.live || hash in world.chain.expired) {
        failures := failures + 1;
        return false;
      }
      ok := Signed(job, sig, hash);
    }

    /** What an execution has dispatched so far. */
    ghost predicate Sent(before: Journal, job: Job, n: nat)
      reads this
    {
      && In(Executing(job)) && OnlyAppends(before, job) && |state[job].pending| == n
      && AllConfirmed(world.chain, state[job].pending)
    }

    /** One more dispatch, awaited, after earlier ones. */
    method Dispatch(ghost before: Journal, job: Job, ghost n: nat) returns (ok: bool)
      requires Sent(before, job, n)
      modifies this`state, this`world, this`run, this`failures
      ensures Valid() && old(run) <= run && failures == old(failures) + One(!ok)
      ensures OnlyAppends(before, job) && |state[job].pending| <= n + 1
      ensures ok ==> Sent(before, job, n + 1)
      ensures !ok ==> Thrown(job)
    {
      hide CanRun, Run, IsConfirmed;
      ghost var past, first := run, state[job].pending;
      ok := Instructions(job);
      if ok {
        ConfirmedListStays(past, run, first);
        assert state[job].pending == first + [state[job].pending[n]];
      }
    }

    /** Something other than a dispatch in between. */
    method Between(ghost before: Journal, job: Job, ghost n: nat) returns (threw: bool)
      requires Sent(before, job, n)
      modifies this`world, this`run, this`failures
      ensures Sent(before, job, n) && old(run) <= run && failures == old(failures) + One(threw)
    {
      hide CanRun, Run, IsConfirmed;
      ghost var past := run;
      Others();
      threw := Outside();
      ConfirmedListStays(past, run, state[job].pending);
    }

    /** A pack that waits is resolved once its number is there, and swapped once it is selected.  Each
        dispatch is awaited before the next, and the first exception ends the attempt. */
    method ExecutePack(job: Job, w: Work) returns (ok: bool)
      requires In(Executing(job)) && job in state && state[job].pending == [] && w.OnPack?
      modifies this`state, this`world, this`run, this`failures
      ensures Valid() && old(run) <= run && failures == old(failures) + One(!ok)
      ensures OnlyAppends(old(state), job) && |state[job].pending| <= Dispatches(w)
      ensures ok ==> Sent(old(state), job, Dispatches(w))
      ensures !ok ==> Thrown(job)
    {
      hide CanRun, Run, IsConfirmed;
      ghost var before := state;
      var threw := Between(before, job, 0);
      if threw { return false; }
      var status := w.first.status;
      if w.first.expiresAt <= w.now && !(w.first.lucky && status == PENDING) { return true; }
      ghost var n := 0;
      if status == PENDING {
        ok := ResolvePack(before, job, w.fulfilled);
        if !ok || !w.fulfilled { return; }
        n, status := 1, w.second;
      }
      if status != SELECTED { return true; }
      ok := PackSwap(before, job, w.third, n);
    }

    /** Resolve a pack whose number is there, and fetch it again. */
    method ResolvePack(ghost before: Journal, job: Job, fulfilled: bool) returns (ok: bool)
      requires Sent(before, job, 0)
      modifies this`state, this`world, this`run, this`failures
      ensures Valid() && old(run) <= run && failures == old(failures) + One(!ok)
      ensures OnlyAppends(before, job) && |state[job].pending| <= One(fulfilled)
      ensures ok ==> Sent(before, job, One(fulfilled))
      ensures !ok ==> Thrown(job)
    {
      var threw := Between(before, job, 0);
      if threw { return false; }
      if !fulfilled { return true; }
      ok := Dispatch(before, job, 0);
      if !ok { return; }
      threw := Between(before, job, 1);
      ok := !threw;
    }

    /** executePackSwap: look again, check policy and budget, find a route, dispatch. */
    method PackSwap(ghost before: Journal, job: Job, status: PackStatus, ghost n: nat) returns (ok: bool)
      requires Sent(before, job, n)
      modifies this`state, this`world, this`run, this`failures
      ensures Valid() && old(run) <= run && failures == old(failures) + One(!ok)
      ensures OnlyAppends(before, job) && |state[job].pending| <= n + One(status == SELECTED)
      ensures ok ==> Sent(before, job, n + One(status == SELECTED))
      ensures !ok ==> Thrown(job)
    {
      var threw := Between(before, job, n);
      if threw { return false; }
      if status != SELECTED { return true; }
      threw := Between(before, job, n);
      if threw { return false; }
      ok := Dispatch(before, job, n);
    }

    /** A position is dispatched at most once: auto packs, harvest or swap. */
    method ExecutePosition(job: Job, w: Work) returns (ok: bool)
      requires In(Executing(job)) && job in state && state[job].pending == [] && w.OnPosition?
      modifies this`state, this`world, this`run, this`failures
      ensures Valid() && old(run) <= run && failures == old(failures) + One(!ok)
      ensures OnlyAppends(old(state), job) && |state[job].pending| <= Dispatches(w)
      ensures ok ==> Sent(old(state), job, Dispatches(w))
      ensures !ok ==> Thrown(job)
    {
      hide CanRun, Run, IsConfirmed;
      ghost var before := state;
      var threw := Between(before, job, 0);
      if threw { return false; }
      var p := w.before;
      if !p.active { return true; }
      if p.kind == EARN && p.destination == PACKS && p.autoPacks && p.claimable >= MIN_BATCH {
        ok := Dispatch(before, job, 0);
        return;
      }
      threw := Between(before, job, 0);
      if threw { return false; }
      if p.kind == EARN && p.shares > 0 && w.now >= p.updatedAt + 3600 && w.gross >= MIN_HARVEST {
        ok := Dispatch(before, job, 0);
        return;
      }
      ok := PositionSwap(before, job, w);
    }

    /** executePositionSwap: look again, check policy and budget, find a route that fits, dispatch. */
    method PositionSwap(ghost before: Journal, job: Job, w: Work) returns (ok: bool)
      requires Sent(before, job, 0) && w.OnPosition?
      modifies this`state, this`world, this`run, this`failures
      ensures Valid() && old(run) <= run && failures == old(failures) + One(!ok)
      ensures var due := Fills(w.now, w.later) && !w.nothing && !(w.before.kind == LIMIT && w.tooDear);
              && OnlyAppends(before, job) && |state[job].pending| <= One(due)
              && (ok ==> Sent(before, job, One(due)))
      ensures !ok ==> Thrown(job)
    {
      hide CanRun, Run, IsConfirmed;
      var threw := Between(before, job, 0);
      if threw { return false; }
      var p := w.later;
      if !p.active { return true; }
      if (if p.kind == EARN then p.destination != STOCKS || p.claimable < MIN_EARNED
          else w.now < p.nextFillAt || w.now >= p.expiresAt || p.stepsRemaining == 0) { return true; }
      threw := Between(before, job, 0);
      if threw { return false; }
      if w.nothing { return true; }
      threw := Between(before, job, 0);
      if threw { return false; }
      if w.before.kind == LIMIT && w.tooDear { return true; }
      threw := Between(before, job, 0);
      if threw { return false; }
      ok := Dispatch(before, job, 0);
    }

    method GetSignatureStatus(job: Job, i: nat, unresolved: bool) returns (ok: bool, seen: Status)
      requires In(Statuses(job, i, unresolved)) && job in state && i < |state[job].pending|
      modifies this`world, this`run, this`failures
      ensures Valid() && old(run) <= run && failures == old(failures) + One(!ok)
      ensures ok ==> In(match seen
                        case Absent => Hash(job, i, unresolved)
                        case Processed => Statuses(job, i + 1, true)
                        case Confirmed => Statuses(job, i + 1, unresolved))
      ensures ok && seen == Confirmed ==> IsConfirmed(world.chain, state[job].pending[i])
      ensures !ok ==> Thrown(job)
    {
      var entry := state[job].pending[i];
      Others();
      var threw := Outside();
      if threw { return false, Absent; }
      seen := *;
      if seen == Confirmed && !IsConfirmed(world.chain, entry) { seen := Absent; }  // nodes lag, they do not invent
      Step(ReadStatus(pid, seen));
      ok := true;
    }

    method BlockhashValid(job: Job, i: nat, unresolved: bool) returns (ok: bool, valid: bool)
      requires In(Hash(job, i, unresolved)) && job in state && i < |state[job].pending|
      modifies this`world, this`run, this`failures
      ensures Valid() && old(run) <= run && failures == old(failures) + One(!ok)
      ensures ok ==> In(Statuses(job, i + 1, unresolved || valid))
      ensures ok && !valid ==> state[job].pending[i].blockhash in world.chain.expired
      ensures !ok ==> Thrown(job)
    {
      var entry := state[job].pending[i];
      Others();
      var threw := Outside();
      if threw { return false, false; }
      valid := *;
      valid := valid || entry.blockhash !in world.chain.expired;
      Step(ReadHash(pid, valid));
      ok := true;
    }

    /** Asks for the status of pending[i], and for its blockhash when there is none: the entry is left
        unresolved exactly when it is seen unconfirmed, or not seen while its blockhash is valid. */
    method CheckEntry(job: Job, i: nat, unresolved: bool)
      returns (ok: bool, unresolved': bool, ghost seen: Status, ghost valid: bool)
      requires In(Statuses(job, i, unresolved)) && job in state && i < |state[job].pending|
      modifies this`world, this`run, this`failures
      ensures Valid() && old(run) <= run && failures == old(failures) + One(!ok)
      ensures ok ==> In(Statuses(job, i + 1, unresolved'))
      ensures ok ==> (unresolved' <==> unresolved || seen == Processed || (seen == Absent && valid))
      ensures ok && !unresolved' ==> Dead(world.chain, state[job].pending[i])
      ensures !ok ==> Thrown(job)
    {
      var status: Status;
      ok, status := GetSignatureStatus(job, i, unresolved);
      unresolved', seen, valid := unresolved, status, false;
      if !ok { return; }
      match status {
        case Absent =>
          var answer: bool;
          ok, answer := BlockhashValid(job, i, unresolved);
          unresolved', valid := unresolved || answer, answer;
        case Processed => unresolved' := true;
        case Confirmed =>
      }
    }

    method Reconcile(job: Job) returns (ok: bool, unresolved: bool)
      requires In(Statuses(job, 0, false)) && job in state
      modifies this`world, this`run, this`failures
      ensures Valid() && old(run) <= run && failures == old(failures) + One(!ok)
      ensures ok ==> In(Statuses(job, |state[job].pending|, unresolved))
      ensures ok && !unresolved ==> AllDead(world.chain, state[job].pending)
      ensures ok && unresolved ==> state[job].pending != []
      ensures !ok ==> Thrown(job)
    {
      unresolved, ok := false, true;
      for i := 0 to |state[job].pending|
        invariant In(Statuses(job, i, unresolved)) && old(run) <= run && failures == old(failures)
        invariant unresolved ==> i > 0
      {
        ghost var seen, valid;
        ok, unresolved, seen, valid := CheckEntry(job, i, unresolved);
        if !ok { return; }
      }
      Reachable(run);
      assert PhaseInv(world, world.procs[pid]);
      ok := true;
    }

    /** Something is unresolved: come back in twenty seconds. */
    method Defer(job: Job) returns (ok: bool)
      requires job in state && In(Statuses(job, |state[job].pending|, true))
      modifies this`state, this`world, this`run, this`failures
      ensures Valid() && old(run) <= run && failures == old(failures) + One(!ok)
      ensures state == old(state)[job := old(state)[job].(nextAttempt := old(world.clock) + 20000)]
      ensures ok ==> In(Idle) && world.disk == state
      ensures !ok ==> Thrown(job)
    {
      hide CanRun, Run;
      Postpone(job);
      ok := Persist(Deferred(job));
      if ok {
        Step(Continue(pid));
      }
    }

    method Postpone(job: Job)
      requires job in state && In(Statuses(job, |state[job].pending|, true))
      modifies this`state, this`world, this`run
      ensures In(Write(Deferred(job))) && old(run) <= run
      ensures state == old(state)[job := old(state)[job].(nextAttempt := old(world.clock) + 20000)]
    {
      state := state[job := state[job].(nextAttempt := world.clock + 20000)];
      Step(Resolve(pid));
    }

    method Forget(job: Job)
      requires job in state && In(Statuses(job, |state[job].pending|, false))
      modifies this`state, this`world, this`run
      ensures In(Executing(job)) && old(run) <= run
      ensures state == old(state)[job := old(state)[job].(pending := [])]
    {
      state := state[job := state[job].(pending := [])];
      Step(Resolve(pid));
    }

    method Complete(job: Job)
      requires job in state && In(Executing(job))
      modifies this`state, this`world, this`run
      ensures In(Write(Idle)) && old(run) <= run && world.chain == old(world.chain) && world.clock == old(world.clock)
      ensures state == old(state)[job := JobState(0, world.clock + 20000, old(state)[job].pending, false)]
    {
      state := state[job := state[job].(attempts := 0, error := false, nextAttempt := world.clock + 20000)];
      Step(Finish(pid));
    }

    /** Everything is resolved: forget the entries and execute the job. */
    method Attempt(job: Job, w: Work) returns (ok: bool)
      requires job in state && In(Statuses(job, |state[job].pending|, false))
      modifies this`state, this`world, this`run, this`failures
      ensures Valid() && old(run) <= run && failures == old(failures) + One(!ok)
      ensures job in state && |state[job].pending| <= Dispatches(w)
      ensures !ok ==> state == old(state)[job := old(state)[job].(pending := state[job].pending)]
      ensures ok ==> state == old(state)[job := JobState(0, world.clock + 20000, state[job].pending, false)]
      ensures ok ==> In(Write(Idle)) && |state[job].pending| == Dispatches(w)
      ensures ok ==> AllConfirmed(world.chain, state[job].pending)
      ensures !ok ==> Thrown(job)
    {
      hide CanRun, Run, IsConfirmed, Dispatches;
      Forget(job);
      if w.OnPack? { ok := ExecutePack(job, w); } else { ok := ExecutePosition(job, w); }
      if ok {
        Complete(job);
      }
    }

    /** The catch block: count the failure and back off. */
    method Catch(job: Job)
      requires job in state && Thrown(job)
      modifies this`state, this`world, this`run
      ensures In(Write(Idle)) && old(run) <= run
      ensures var n := old(state)[job].attempts + 1;
              state == old(state)[job :=
                  old(state)[job].(attempts := n, error := true, nextAttempt := world.clock + Delay(n))]
    {
      var n := state[job].attempts + 1;
      state := state[job := state[job].(attempts := n, error := true, nextAttempt := world.clock + Delay(n))];
      Step(Action.Fail(pid));
    }

    method Take(job: Job)
      requires In(Idle) && Record(state, job).nextAttempt <= world.clock
      modifies this`state, this`world, this`run
      ensures In(Statuses(job, 0, false)) && old(run) <= run
      ensures world.chain == old(world.chain) && world.clock == old(world.clock)
      ensures state == old(state)[job := Record(old(state), job)]
    {
      state := state[job := Record(state, job)];
      Step(Begin(pid, job));
    }

    /** Execution of a reconciled job, with its catch block. */
    method Execute(job: Job, w: Work) returns (ghost ending: Ending)
      requires job in state && In(Statuses(job, |state[job].pending|, false))
      requires AllDead(world.chain, state[job].pending)
      modifies this`state, this`world, this`run, this`failures
      ensures In(Write(Idle)) && old(run) <= run
      ensures job in state && state == old(state)[job := state[job]]
      ensures ending in {EXECUTED, FAILED} && failures == old(failures) + One(ending == FAILED)
      ensures Outcome(old(state)[job], state[job], w, ending, world.chain)
      ensures state[job].nextAttempt == world.clock + if ending == FAILED then Delay(state[job].attempts) else 20000
    {
      hide CanRun, Run, IsConfirmed, Dispatches, Delay, Dead;
      ghost var past, entries := run, state[job].pending;
      var ok := Attempt(job, w);
      ending := EXECUTED;
      if !ok {
        Catch(job);
        ending := FAILED;
      }
      DeadListStays(past, run, entries);
    }

    /** The try and catch of one turn, once the record is taken; the final persist is left unless the
        job was deferred. */
    method Turn(job: Job, w: Work) returns (deferred: bool, ghost ending: Ending)
      requires In(Statuses(job, 0, false)) && job in state && state[job].nextAttempt <= world.clock
      modifies this`state, this`world, this`run, this`failures
      ensures Valid() && old(run) <= run
      ensures job in state && state == old(state)[job := state[job]]
      ensures ending != SKIPPED && (deferred <==> ending == DEFERRED)
      ensures failures == old(failures) + One(ending == FAILED)
      ensures Outcome(old(state)[job], state[job], w, ending, world.chain)
      ensures Timed(old(state)[job], state[job], ending, old(world.clock), world.clock)
      ensures if deferred then In(Idle) && world.disk == state else In(Write(Idle))
    {
      hide CanRun, Run, Enabled, Apply, Dead, IsConfirmed, Dispatches, Delay;
      ghost var past := run;
      var ok, unresolved := Reconcile(job);
      ClockStays(past, run);
      deferred, ending := false, FAILED;
      if ok && !unresolved {
        ghost var middle := run;
        ending := Execute(job, w);
        ClockStays(middle, run);
        ghost var was, now := old(state)[job], state[job];
      } else {
        ghost var middle := run;
        if ok {
          deferred := Defer(job);
        }
        if deferred {
          ending := DEFERRED;
        } else {
          Catch(job);
        }
        ClockStays(middle, run);
      }
    }

    /** One turn of the job loop: backoff, reconciliation, execution, final persist. */
    method RunJob(job: Job, w: Work) returns (ok: bool, ghost ending: Ending)
      requires In(Idle)
      modifies this`state, this`world, this`run, this`failures
      ensures Valid() && old(run) <= run
      ensures state == if ending == SKIPPED then old(state) else old(state)[job := Record(state, job)]
      ensures Outcome(Record(old(state), job), Record(state, job), w, ending, world.chain)
      ensures Timed(Record(old(state), job), Record(state, job), ending, old(world.clock), world.clock)
      ensures failures == old(failures) + One(ending == FAILED) + One(!ok)
      ensures ok ==> In(Idle) && if ending == SKIPPED then world == old(world) else world.disk == state
      ensures !ok ==> In(Write(Idle)) || In(Rename(Idle))
    {
      hide CanRun, Run, Enabled, Apply, Dead, IsConfirmed, Dispatches, Delay, Outcome;
      var was := Record(state, job);
      if was.nextAttempt > world.clock {
        ending := SKIPPED;
        assert Outcome(was, was, w, SKIPPED, world.chain) by { Skipped(was, w, world.chain); }
        return true, SKIPPED;
      }
      ghost var start := run;
      Take(job);
      var deferred: bool;
      deferred, ending := Turn(job, w);
      if deferred { return true, ending; }
      ghost var past := run;
      ok := Persist(Idle);
      ClockStays(past, run);
      OutcomeStays(past, run, was, state[job], w, ending);
    }

    /** What the turns so far have left. */
    ghost predicate History(before: Journal, jobs: seq<(Job, Work)>, turns: seq<Taken>, from: nat)
      reads this
    {
      && Valid() && from <= world.clock && state == Journaled(before, turns)
      && Follows(turns, jobs, from, world.clock, world.chain) && Continues(before, turns)
    }

    /** The turn of the next job of the list. */
    method NextTurn(ghost before: Journal, ghost jobs: seq<(Job, Work)>, ghost turns: seq<Taken>, ghost from: nat,
        job: Job, w: Work) returns (ok: bool, ghost turns': seq<Taken>)
      requires In(Idle) && world.disk == state && History(before, jobs, turns, from)
      modifies this`state, this`world, this`run, this`failures
      ensures History(before, jobs + [(job, w)], turns', from) && old(run) <= run
      ensures if ok then In(Idle) && world.disk == state else In(Write(Idle)) || In(Rename(Idle))
      ensures failures >= old(failures) + One(!ok)
    {
      hide CanRun, Run, Outcome, Timed, Follows, Journaled, Continues;
      ghost var past, was, start := run, Record(state, job), world.clock;
      ghost var ending;
      ok, ending := RunJob(job, w);
      ClockStays(past, run);
      TurnsStay(past, run, turns, jobs, from);
      ghost var taken := Taken(job, w, was, Record(state, job), ending, start, world.clock);
      turns' := turns + [taken];
      TurnJournals(before, turns, taken);
      TurnFollows(turns, jobs, from, start, world.clock, world.chain, taken);
    }

    /** The passes over the job lists, until a persist of the journal fails or the list of passes
        ends; then the lock is removed. */
    method Loop(passes: seq<seq<(Job, Work)>>) returns (ok: bool, ghost turns: seq<Taken>)
      requires In(Idle) && world.disk == state
      modifies this`state, this`world, this`run, this`failures
      ensures Traced() && old(run) <= run
      ensures pid !in world.procs && world.lock == None
      ensures |turns| <= |Flat(passes)| && Continues(old(state), turns)
      ensures Follows(turns, Flat(passes)[..|turns|], old(world.clock), world.clock, world.chain)
      ensures if ok then |turns| == |Flat(passes)| && world.disk == Journaled(old(state), turns)
              else failures > old(failures)
    {
      hide CanRun, Run, Follows, Journaled, Continues, Flat;
      ok, turns := true, [];
      ghost var jobs: seq<(Job, Work)> := [];
      NoTurns(state, world.clock, world.chain);
      FlatNone();
      for i := 0 to |passes|
        invariant Valid() && old(run) <= run && jobs <= Flat(passes) && |turns| == |jobs| && failures >= old(failures)
        invariant History(old(state), jobs, turns, old(world.clock))
        invariant if ok then In(Idle) && world.disk == state && jobs == Flat(passes[..i])
                  else (In(Write(Idle)) || In(Rename(Idle))) && failures > old(failures)
      {
        FlatMore(passes, i);
        for k := 0 to |passes[i]|
          invariant Valid() && old(run) <= run && jobs <= Flat(passes) && |turns| == |jobs| && failures >= old(failures)
          invariant History(old(state), jobs, turns, old(world.clock))
          invariant if ok then In(Idle) && world.disk == state && jobs == Flat(passes[..i]) + passes[i][..k]
                    else (In(Write(Idle)) || In(Rename(Idle))) && failures > old(failures)
        {
          if ok {
            assert passes[i][..k + 1] == passes[i][..k] + [passes[i][k]];
            ghost var before := jobs;
            jobs := jobs + [(passes[i][k].0, passes[i][k].1)];
            assert jobs == Flat(passes[..i]) + passes[i][..k + 1] <= Flat(passes[..i]) + passes[i];
            ok, turns := NextTurn(old(state), before, turns, old(world.clock), passes[i][k].0, passes[i][k].1);
            SameLength(turns, jobs, old(world.clock), world.clock, world.chain);
          }
        }
        assert passes[i][..|passes[i]|] == passes[i];
      }
      assert passes[..|passes|] == passes;
      assert jobs == Flat(passes)[..|turns|];
      Step(Exit(pid));
    }
  }

  // ---------- a whole service ----------

  /** A turn that was taken: its job, what the record was and is, how it ended, and when. */
  datatype Taken = Taken(job: Job, work: Work, was: JobState, now: JobState, ending: Ending, start: nat, end: nat)

  /** The journal the turns leave, one after the other. */
  function Journaled(journal: Journal, turns: seq<Taken>): Journal {
    if turns == [] then journal
    else
      var n := |turns| - 1;
      var before := Journaled(journal, turns[..n]);
      if turns[n].ending == SKIPPED then before else before[turns[n].job := turns[n].now]
  }

  /** Every turn starts from what the turns before it left. */
  predicate Continues(journal: Journal, turns: seq<Taken>) {
    forall k :: 0 <= k < |turns| ==> turns[k].was == Record(Journaled(journal, turns[..k]), turns[k].job)
  }

  ghost predicate Right(t: Taken, from: nat, to: nat, c: Chain) {
    && from <= t.start <= t.end <= to
    && Outcome(t.was, t.now, t.work, t.ending, c) && Timed(t.was, t.now, t.ending, t.start, t.end)
  }

  /** The turns are those of the listed jobs, in order, and each has ended as it should. */
  ghost predicate Follows(turns: seq<Taken>, jobs: seq<(Job, Work)>, from: nat, to: nat, c: Chain) {
    && |turns| == |jobs|
    && forall k :: 0 <= k < |turns| ==> (turns[k].job, turns[k].work) == jobs[k] && Right(turns[k], from, to, c)
  }

  function Flat(passes: seq<seq<(Job, Work)>>): seq<(Job, Work)> {
    if passes == [] then [] else Flat(passes[..|passes| - 1]) + passes[|passes| - 1]
  }

  lemma FlatNone()
    ensures Flat([]) == []
  {
  }

  lemma {:induction false} FlatMore(passes: seq<seq<(Job, Work)>>, i: nat)
    requires i < |passes|
    ensures Flat(passes[..i + 1]) == Flat(passes[..i]) + passes[i] <= Flat(passes)
    decreases |passes|
  {
    var n := |passes| - 1;
    assert passes[..i + 1][..i] == passes[..i];
    if i < n {
      assert passes[..n][..i + 1] == passes[..i + 1] && passes[..n][..i] == passes[..i];
      FlatMore(passes[..n], i);
    } else {
      assert passes[..i + 1] == passes;
    }
  }

  lemma NoTurns(journal: Journal, clock: nat, c: Chain)
    ensures Journaled(journal, []) == journal && Continues(journal, []) && Follows([], [], clock, clock, c)
  {
  }

  lemma SameLength(turns: seq<Taken>, jobs: seq<(Job, Work)>, from: nat, to: nat, c: Chain)
    requires Follows(turns, jobs, from, to, c)
    ensures |turns| == |jobs|
  {
  }

  lemma TurnJournals(journal: Journal, turns: seq<Taken>, t: Taken)
    requires Continues(journal, turns) && t.was == Record(Journaled(journal, turns), t.job)
    ensures Continues(journal, turns + [t])
    ensures Journaled(journal, turns + [t]) ==
              if t.ending == SKIPPED then Journaled(journal, turns) else Journaled(journal, turns)[t.job := t.now]
  {
    assert (turns + [t])[..|turns|] == turns;
    assert forall k :: 0 <= k < |turns| ==> (turns + [t])[..k] == turns[..k];
  }

  lemma TurnsStay(earlier: seq<Action>, later: seq<Action>, turns: seq<Taken>, jobs: seq<(Job, Work)>, from: nat)
    requires CanRun(Initial, later) && earlier <= later && CanRun(Initial, earlier)
    requires Follows(turns, jobs, from, Run(Initial, earlier).clock, Run(Initial, earlier).chain)
    ensures Follows(turns, jobs, from, Run(Initial, later).clock, Run(Initial, later).chain)
  {
    hide CanRun, Run, Outcome, Timed;
    ClockStays(earlier, later);
    forall k | 0 <= k < |turns|
      ensures Right(turns[k], from, Run(Initial, later).clock, Run(Initial, later).chain)
    {
      OutcomeStays(earlier, later, turns[k].was, turns[k].now, turns[k].work, turns[k].ending);
    }
  }

  lemma TurnFollows(turns: seq<Taken>, jobs: seq<(Job, Work)>, from: nat, start: nat, to: nat, c: Chain, t: Taken)
    requires Follows(turns, jobs, from, to, c) && from <= start && t.start == start && Right(t, start, to, c)
    ensures Follows(turns + [t], jobs + [(t.job, t.work)], from, to, c)
  {
    hide Outcome, Timed;
  }

  /** `main`: a second worker is refused while the lock file exists; the one that gets the lock
      only ever extends the run, and so never leaves the states SettlementSafety describes.  Unless an
      outside call fails it takes a turn of every job of every pass, and leaves on disk what they left. */
  method Serve(pid: Pid, world: System, ghost run: seq<Action>, passes: seq<seq<(Job, Work)>>)
    returns (world': System, ghost run': seq<Action>, ghost turns: seq<Taken>, ghost failures: nat)
    requires CanRun(Initial, run) && Run(Initial, run) == world
    ensures CanRun(Initial, run') && Run(Initial, run') == world' && run <= run'
    ensures world.lock.Some? ==> world' == world
    ensures forall sig :: Able(world'.chain, sig) ==>
              Listed(world'.disk, world'.chain.txs[sig].job, Pending(sig, world'.chain.txs[sig].blockhash))
    ensures |turns| <= |Flat(passes)| && Continues(world.disk, turns)
    ensures Follows(turns, Flat(passes)[..|turns|], world.clock, world'.clock, world'.chain)
    ensures world.lock == None && failures == 0 ==>
              |turns| == |Flat(passes)| && world'.disk == Journaled(world.disk, turns)
  {
    hide Follows, Journaled, Continues;
    Reachable(run);
    turns, failures := [], 0;
    NoTurns(world.disk, world.clock, world.chain);
    if world.lock.Some? {
      return world, run, [], 0;
    }
    var worker := new Worker(pid, world, run);
    ghost var start := worker.run;
    worker.Load();
    ClockStays(start, worker.run);
    ghost var before := worker.world.clock;
    var ok: bool;
    ok, turns := worker.Loop(passes);
    Earlier(turns, Flat(passes)[..|turns|], world.clock, before, worker.world.clock, worker.world.chain);
    world', run', failures := worker.world, worker.run, worker.failures;
    EveryRunIsSafe(run');
  }

  lemma Earlier(turns: seq<Taken>, jobs: seq<(Job, Work)>, from: nat, start: nat, to: nat, c: Chain)
    requires Follows(turns, jobs, start, to, c) && from <= start
    ensures Follows(turns, jobs, from, to, c)
  {
    hide Outcome, Timed;
  }

  lemma Skipped(was: JobState, w: Work, c: Chain)
    ensures Outcome(was, was, w, SKIPPED, c)
  {
  }
}
