/** The settlement worker, its state directory and the chain, as one transition system.

    Every await of the worker is a separate action, so a crash, another process or a chain
    event may fall between any two of them.  The journal is the map written by `persist`;
    a missing journal file is the empty map. */
module SettlementMachine {
  import opened Common

  type Job = string
  type Pid = nat
  type Signature = nat
  type Blockhash = nat

  // ---------- what the worker keeps ----------

  datatype Pending = Pending(signature: Signature, blockhash: Blockhash)

  datatype JobState = JobState(attempts: nat, nextAttempt: nat, pending: seq<Pending>, error: bool)

  type Journal = map<Job, JobState>

  function Record(journal: Journal, job: Job): JobState {
    if job in journal then journal[job] else JobState(0, 0, [], false)
  }

  // ---------- what the chain keeps ----------

  datatype Status = Absent | Processed | Confirmed

  datatype Tx = Tx(job: Job, blockhash: Blockhash, status: Status)

  /** `txs` holds every transaction handed to the network, `signed` every signature ever made. */
  datatype Chain = Chain(txs: map<Signature, Tx>, signed: set<Signature>, live: set<Blockhash>, expired: set<Blockhash>)

  /** Broadcast, not confirmed, and its blockhash is still accepted. */
  predicate Able(c: Chain, sig: Signature) {
    sig in c.txs && !c.txs[sig].status.Confirmed? && c.txs[sig].blockhash in c.live
  }

  // ---------- the worker process ----------

  datatype Phase =
    | Loading
    | Idle
    | Statuses(job: Job, i: nat, unresolved: bool)  // next: the status of pending[i]
    | Hash(job: Job, i: nat, unresolved: bool)      // no status for pending[i]; next: its blockhash
    | Executing(job: Job)                           // inside executeJob, nothing in flight
    | Deferred(job: Job)                            // unresolved entries were found and that is on disk
    | Write(next: Phase)                            // persist: temporary file not written yet
    | Rename(next: Phase)                           // persist: temporary file written, not renamed
    | Sending(job: Job, tx: Pending)                // recorded, not yet handed to the network
    | Awaiting(job: Job, tx: Pending)               // handed to the network, confirmation not seen

  datatype Proc = Proc(phase: Phase, memory: Journal)

  datatype System = System(
    procs: map<Pid, Proc>, lock: Option<Pid>,
    disk: Journal, temp: Option<Journal>,
    chain: Chain, clock: nat)

  datatype Action =
    // chain and clock
    | Tick(ms: nat) | NewHash(hash: Blockhash) | Expire(hash: Blockhash)
    | Process(sig: Signature) | Drop(sig: Signature) | Confirm(sig: Signature)
    // operator
    | ClearLock
    // worker
    | Start(p: Pid) | Load(p: Pid) | Begin(p: Pid, job: Job)
    | ReadStatus(p: Pid, seen: Status) | ReadHash(p: Pid, valid: bool) | Resolve(p: Pid)
    | Sign(p: Pid, sig: Signature, hash: Blockhash) | WriteTemp(p: Pid) | RenameTemp(p: Pid)
    | Broadcast(p: Pid) | Settled(p: Pid) | Finish(p: Pid) | Continue(p: Pid) | Fail(p: Pid)
    | Exit(p: Pid) | Crash(p: Pid)

  const Initial := System(map[], None, map[], None, Chain(map[], {}, {}, {}), 0)

  function Delay(attempts: nat): nat { Min(300000, 5000 * Pow2(Min(attempts, 6))) }

  /** Ten seconds after the first failure, twice as long after every further one, five minutes at most; and a
      job that was never seen is due at once. */
  lemma PausesAre(n: nat, job: Job)
    ensures Delay(1) == 10000 && (n <= 4 ==> Delay(n + 1) == 2 * Delay(n)) && (n >= 6 ==> Delay(n) == 300000)
    ensures Record(map[], job) == JobState(0, 0, [], false)
  {
    assert Pow2(6) == 64 && Pow2(5) == 32 && Pow2(4) == 16;
  }

  predicate At(s: System, p: Pid) { p in s.procs }

  function PhaseOf(s: System, p: Pid): Phase requires At(s, p) { s.procs[p].phase }

  function JobOf(ph: Phase): Option<Job> {
    match ph
    case Statuses(job, _, _) => Some(job)
    case Hash(job, _, _) => Some(job)
    case Executing(job) => Some(job)
    case Sending(job, _) => Some(job)
    case Awaiting(job, _) => Some(job)
    case Write(Sending(job, _)) => Some(job)
    case Rename(Sending(job, _)) => Some(job)
    case Write(Deferred(job)) => Some(job)
    case Rename(Deferred(job)) => Some(job)
    case _ => None
  }

  predicate Enabled(s: System, a: Action) {
    match a
    case Tick(_) => true
    case NewHash(b) => b !in s.chain.live && b !in s.chain.expired
    case Expire(b) => b in s.chain.live
    case Process(sig) => Able(s.chain, sig) && s.chain.txs[sig].status == Absent
    case Drop(sig) => sig in s.chain.txs && s.chain.txs[sig].status == Processed
    case Confirm(sig) => sig in s.chain.txs && s.chain.txs[sig].status == Processed
    case ClearLock => s.lock.Some? && s.lock.value !in s.procs
    case Start(p) => p !in s.procs && s.lock == None
    case Load(p) => At(s, p) && PhaseOf(s, p) == Loading
    case Begin(p, job) => At(s, p) && PhaseOf(s, p) == Idle && Record(s.procs[p].memory, job).nextAttempt <= s.clock
    case ReadStatus(p, seen) =>
      && At(s, p) && PhaseOf(s, p).Statuses?
      && var ph := PhaseOf(s, p);
      && var pending := Record(s.procs[p].memory, ph.job).pending;
      && ph.i < |pending|
      // a node may lag, but reports "confirmed" only for a confirmed transaction
      && (seen == Confirmed ==>
          pending[ph.i].signature in s.chain.txs && s.chain.txs[pending[ph.i].signature].status == Confirmed)
    case ReadHash(p, valid) =>
      && At(s, p) && PhaseOf(s, p).Hash?
      && var ph := PhaseOf(s, p);
      && var pending := Record(s.procs[p].memory, ph.job).pending;
      && ph.i < |pending|
      && (valid || pending[ph.i].blockhash in s.chain.expired)
    case Resolve(p) =>
      && At(s, p) && PhaseOf(s, p).Statuses?
      && var ph := PhaseOf(s, p);
      && ph.i == |Record(s.procs[p].memory, ph.job).pending|
    case Sign(p, sig, b) =>
      && At(s, p) && PhaseOf(s, p).Executing?
      && sig !in s.chain.signed && (b in s.chain.live || b in s.chain.expired)
    case WriteTemp(p) => At(s, p) && PhaseOf(s, p).Write?
    case RenameTemp(p) => At(s, p) && PhaseOf(s, p).Rename? && s.temp.Some?
    case Broadcast(p) => At(s, p) && PhaseOf(s, p).Sending?
    case Settled(p) =>
      && At(s, p) && PhaseOf(s, p).Awaiting?
      && var sig := PhaseOf(s, p).tx.signature;
      && sig in s.chain.txs && s.chain.txs[sig].status == Confirmed
    case Finish(p) => At(s, p) && PhaseOf(s, p).Executing?
    case Continue(p) => At(s, p) && PhaseOf(s, p).Deferred?
    case Fail(p) => At(s, p) && JobOf(PhaseOf(s, p)).Some?
    case Exit(p) => At(s, p) && PhaseOf(s, p) in {Loading, Idle, Write(Idle), Rename(Idle)}
    case Crash(p) => At(s, p)
  }

  function SetStatus(c: Chain, sig: Signature, status: Status): Chain
    requires sig in c.txs
  {
    c.(txs := c.txs[sig := c.txs[sig].(status := status)])
  }

  function Handed(c: Chain, job: Job, tx: Pending): Chain {
    c.(txs := c.txs[tx.signature := Tx(job, tx.blockhash, Absent)])
  }

  function Go(s: System, p: Pid, phase: Phase): System
    requires At(s, p)
  {
    s.(procs := s.procs[p := s.procs[p].(phase := phase)])
  }

  function Update(s: System, p: Pid, phase: Phase, job: Job, record: JobState): System
    requires At(s, p)
  {
    s.(procs := s.procs[p := Proc(phase, s.procs[p].memory[job := record])])
  }

  function Apply(s: System, a: Action): System
    requires Enabled(s, a)
  {
    match a
    case Tick(ms) => s.(clock := s.clock + ms)
    case NewHash(b) => s.(chain := s.chain.(live := s.chain.live + {b}))
    case Expire(b) => s.(chain := s.chain.(live := s.chain.live - {b}, expired := s.chain.expired + {b}))
    case Process(sig) => s.(chain := SetStatus(s.chain, sig, Processed))
    case Drop(sig) => s.(chain := SetStatus(s.chain, sig, Absent))
    case Confirm(sig) => s.(chain := SetStatus(s.chain, sig, Confirmed))
    case ClearLock => s.(lock := None)
    case Start(p) => s.(procs := s.procs[p := Proc(Loading, map[])], lock := Some(p))
    case Load(p) => s.(procs := s.procs[p := Proc(Idle, s.disk)])
    case Begin(p, job) => Update(s, p, Statuses(job, 0, false), job, Record(s.procs[p].memory, job))
    case ReadStatus(p, seen) =>
      var ph := PhaseOf(s, p);
      Go(s, p, match seen
               case Absent => Hash(ph.job, ph.i, ph.unresolved)
               case Processed => Statuses(ph.job, ph.i + 1, true)
               case Confirmed => Statuses(ph.job, ph.i + 1, ph.unresolved))
    case ReadHash(p, valid) =>
      var ph := PhaseOf(s, p);
      Go(s, p, Statuses(ph.job, ph.i + 1, ph.unresolved || valid))
    case Resolve(p) =>
      var ph := PhaseOf(s, p);
      var record := Record(s.procs[p].memory, ph.job);
      if ph.unresolved
      then Update(s, p, Write(Deferred(ph.job)), ph.job, record.(nextAttempt := s.clock + 20000))
      else Update(s, p, Executing(ph.job), ph.job, record.(pending := []))
    case Sign(p, sig, b) =>
      var job := PhaseOf(s, p).job;
      var record := Record(s.procs[p].memory, job);
      var tx := Pending(sig, b);
      var s' := s.(chain := s.chain.(signed := s.chain.signed + {sig}));
      Update(s', p, Write(Sending(job, tx)), job, record.(pending := record.pending + [tx]))
    case WriteTemp(p) => Go(s.(temp := Some(s.procs[p].memory)), p, Rename(PhaseOf(s, p).next))
    case RenameTemp(p) => Go(s.(disk := s.temp.value, temp := None), p, PhaseOf(s, p).next)
    case Broadcast(p) =>
      var ph := PhaseOf(s, p);
      Go(s.(chain := Handed(s.chain, ph.job, ph.tx)), p, Awaiting(ph.job, ph.tx))
    case Settled(p) => Go(s, p, Executing(PhaseOf(s, p).job))
    case Finish(p) =>
      var job := PhaseOf(s, p).job;
      var record := Record(s.procs[p].memory, job);
      Update(s, p, Write(Idle), job, record.(attempts := 0, error := false, nextAttempt := s.clock + 20000))
    case Continue(p) => Go(s, p, Idle)
    case Fail(p) =>
      var job := JobOf(PhaseOf(s, p)).value;
      var record := Record(s.procs[p].memory, job);
      var n := record.attempts + 1;
      Update(s, p, Write(Idle), job, record.(attempts := n, error := true, nextAttempt := s.clock + Delay(n)))
    case Exit(p) => s.(procs := s.procs - {p}, lock := None)
    case Crash(p) => s.(procs := s.procs - {p})
  }

  // ---------- runs ----------

  /** Every action of the list is enabled when its turn comes. */
  predicate CanRun(s: System, actions: seq<Action>)
    decreases |actions|
  {
    actions == [] || (Enabled(s, actions[0]) && CanRun(Apply(s, actions[0]), actions[1..]))
  }

  function Run(s: System, actions: seq<Action>): System
    requires CanRun(s, actions)
    decreases |actions|
  {
    if actions == [] then s else Run(Apply(s, actions[0]), actions[1..])
  }

  // ---------- the invariant ----------

  predicate Listed(journal: Journal, job: Job, tx: Pending) {
    job in journal && tx in journal[job].pending
  }

  ghost predicate Covers(journal: Journal, c: Chain) {
    forall sig :: Able(c, sig) ==> Listed(journal, c.txs[sig].job, Pending(sig, c.txs[sig].blockhash))
  }

  ghost predicate Quiet(c: Chain, job: Job) {
    forall sig :: Able(c, sig) ==> c.txs[sig].job != job
  }

  /** Confirmed, or unable to land because its blockhash has expired. */
  predicate Dead(c: Chain, tx: Pending) {
    (tx.signature in c.txs && c.txs[tx.signature].status == Confirmed) || tx.blockhash in c.expired
  }

  ghost predicate Readying(c: Chain, memory: Journal, job: Job, tx: Pending) {
    && Listed(memory, job, tx) && Quiet(c, job)
    && tx.signature !in c.txs && tx.signature in c.signed
    && (tx.blockhash in c.live || tx.blockhash in c.expired)
  }

  ghost predicate PersistInv(c: Chain, memory: Journal, next: Phase) {
    next == Idle || next.Deferred? || (next.Sending? && Readying(c, memory, next.job, next.tx))
  }

  ghost predicate PhaseInv(s: System, proc: Proc) {
    var memory, c := proc.memory, s.chain;
    match proc.phase
    case Loading => true
    case Idle => true
    case Deferred(_) => true
    case Statuses(job, i, unresolved) =>
      && job in memory && i <= |memory[job].pending|
      && (!unresolved ==> forall k :: 0 <= k < i ==> Dead(c, memory[job].pending[k]))
    case Hash(job, i, unresolved) =>
      && job in memory && i < |memory[job].pending|
      && (!unresolved ==> forall k :: 0 <= k < i ==> Dead(c, memory[job].pending[k]))
    case Executing(job) => job in memory && Quiet(c, job)
    case Write(next) => PersistInv(c, memory, next)
    case Rename(next) => PersistInv(c, memory, next) && s.temp == Some(memory)
    case Sending(job, tx) => Readying(c, memory, job, tx) && Listed(s.disk, job, tx)
    case Awaiting(job, tx) =>
      && job in memory
      && tx.signature in c.txs && c.txs[tx.signature].job == job && c.txs[tx.signature].blockhash == tx.blockhash
      && forall sig :: Able(c, sig) && c.txs[sig].job == job ==> sig == tx.signature
  }

  ghost predicate ChainInv(c: Chain) {
    && c.live !! c.expired
    && (forall sig ::
        sig in c.txs ==> sig in c.signed && (c.txs[sig].blockhash in c.live || c.txs[sig].blockhash in c.expired))
    && forall x, y :: Able(c, x) && Able(c, y) && c.txs[x].job == c.txs[y].job ==> x == y
  }

  ghost predicate Inv(s: System) {
    && ChainInv(s.chain)
    && Covers(s.disk, s.chain)
    && (forall p :: p in s.procs ==> s.lock == Some(p))
    && (forall p :: p in s.procs && s.procs[p].phase != Loading ==> Covers(s.procs[p].memory, s.chain))
    && forall p :: p in s.procs ==> PhaseInv(s, s.procs[p])
  }

  /** Nothing the chain does makes a transaction able to land that was not able before. */
  ghost predicate Shrinks(c: Chain, c': Chain) {
    && c'.txs.Keys == c.txs.Keys && c.signed == c'.signed && c.expired <= c'.expired
    && c.live + c.expired <= c'.live + c'.expired
    && (forall sig :: sig in c.txs ==>
        c'.txs[sig].job == c.txs[sig].job && c'.txs[sig].blockhash == c.txs[sig].blockhash
        && (c.txs[sig].status == Confirmed ==> c'.txs[sig].status == Confirmed))
    && forall sig :: Able(c', sig) ==> Able(c, sig)
  }

  lemma ShrinkKeepsPhase(s: System, s': System, proc: Proc)
    requires Shrinks(s.chain, s'.chain) && s'.disk == s.disk && s'.temp == s.temp
    requires PhaseInv(s, proc)
    ensures PhaseInv(s', proc)
  {
  }

  lemma ShrinkKeepsInv(s: System, c': Chain)
    requires Inv(s) && Shrinks(s.chain, c') && ChainInv(c')
    ensures Inv(s.(chain := c'))
  {
    var s' := s.(chain := c');
    forall p | p in s'.procs
      ensures PhaseInv(s', s'.procs[p])
    {
      ShrinkKeepsPhase(s, s', s.procs[p]);
    }
  }

  predicate IsChain(a: Action) {
    a.Tick? || a.NewHash? || a.Expire? || a.Process? || a.Drop? || a.Confirm?
  }

  lemma StatusShrinks(c: Chain, sig: Signature, status: Status)
    requires ChainInv(c) && sig in c.txs && c.txs[sig].status != Confirmed
    ensures Shrinks(c, SetStatus(c, sig, status)) && ChainInv(SetStatus(c, sig, status))
  {
  }

  lemma ChainKeepsInv(s: System, a: Action)
    requires Inv(s) && Enabled(s, a) && IsChain(a)
    ensures Inv(Apply(s, a))
  {
    var c' := Apply(s, a).chain;
    if a.Tick? {
      ShrinkKeepsInv(s, c');
      var t := s.(chain := c');
      assert forall p :: p in s.procs ==> PhaseInv(t, s.procs[p]) ==> PhaseInv(Apply(s, a), s.procs[p]);
    } else {
      if a.Process? || a.Drop? || a.Confirm? {
        StatusShrinks(s.chain, a.sig, c'.txs[a.sig].status);
      } else {
        assert forall x :: Able(c', x) ==> Able(s.chain, x);
      }
      ShrinkKeepsInv(s, c');
    }
  }

  /** Once every pending entry is dead, no transaction of the job can still land. */
  lemma AllDeadIsQuiet(c: Chain, memory: Journal, job: Job)
    requires ChainInv(c) && Covers(memory, c) && job in memory
    requires forall k :: 0 <= k < |memory[job].pending| ==> Dead(c, memory[job].pending[k])
    ensures Quiet(c, job)
  {
  }

  /** Steps of the one running process that leave disk and chain alone. */
  lemma LocalStep(s: System, p: Pid, proc': Proc)
    requires Inv(s) && p in s.procs
    requires Covers(proc'.memory, s.chain)
    requires PhaseInv(s.(procs := s.procs[p := proc']), proc')
    ensures Inv(s.(procs := s.procs[p := proc']))
  {
  }

  predicate IsLocal(a: Action) {
    a.Begin? || a.ReadStatus? || a.ReadHash? || a.Resolve? || a.Settled? || a.Finish? || a.Continue? || a.Fail?
  }

  lemma CoversAfterUpdate(memory: Journal, c: Chain, job: Job, record: JobState)
    requires Covers(memory, c)
    requires Quiet(c, job) || (forall tx :: tx in Record(memory, job).pending ==> tx in record.pending)
    ensures Covers(memory[job := record], c)
  {
  }

  /** The process after a local step, and the invariant of its new phase. */
  lemma LocalPhase(s: System, a: Action)
    requires Inv(s) && Enabled(s, a) && IsLocal(a)
    ensures PhaseInv(Apply(s, a), Apply(s, a).procs[a.p])
  {
    var proc := s.procs[a.p];
    if a.Resolve? && !proc.phase.unresolved {
      AllDeadIsQuiet(s.chain, proc.memory, proc.phase.job);
    }
  }

  lemma LocalCovers(s: System, a: Action)
    requires Inv(s) && Enabled(s, a) && IsLocal(a)
    ensures Covers(Apply(s, a).procs[a.p].memory, s.chain)
  {
    var proc, memory' := s.procs[a.p], Apply(s, a).procs[a.p].memory;
    if memory' != proc.memory {
      var job := if a.Begin? then a.job else JobOf(proc.phase).value;
      if a.Resolve? && !proc.phase.unresolved {
        AllDeadIsQuiet(s.chain, proc.memory, job);
      }
      CoversAfterUpdate(proc.memory, s.chain, job, memory'[job]);
    }
  }

  lemma LocalKeepsInv(s: System, a: Action)
    requires Inv(s) && Enabled(s, a) && IsLocal(a)
    ensures Inv(Apply(s, a))
  {
    var proc' := Apply(s, a).procs[a.p];
    LocalPhase(s, a);
    LocalCovers(s, a);
    assert Apply(s, a) == s.(procs := s.procs[a.p := proc']);
    LocalStep(s, a.p, proc');
  }

  lemma SignKeepsInv(s: System, a: Action)
    requires Inv(s) && Enabled(s, a) && a.Sign?
    ensures Inv(Apply(s, a))
  {
    var s', p := Apply(s, a), a.p;
    var proc, proc' := s.procs[p], s'.procs[p];
    var job := proc.phase.job;
    CoversAfterUpdate(proc.memory, s.chain, job, proc'.memory[job]);
    assert s'.chain.txs == s.chain.txs && s'.chain.live == s.chain.live;
    assert forall sig :: Able(s'.chain, sig) <==> Able(s.chain, sig);
    assert Pending(a.sig, a.hash) in proc'.memory[job].pending;
    assert PhaseInv(s', proc');
  }

  lemma PersistKeepsInv(s: System, a: Action)
    requires Inv(s) && Enabled(s, a) && (a.WriteTemp? || a.RenameTemp?)
    ensures Inv(Apply(s, a))
  {
    var s', p := Apply(s, a), a.p;
    assert s'.procs.Keys == s.procs.Keys;
    assert PhaseInv(s', s'.procs[p]);
  }

  lemma BroadcastChain(c: Chain, memory: Journal, job: Job, tx: Pending)
    requires ChainInv(c) && Readying(c, memory, job, tx)
    ensures var c' := Handed(c, job, tx);
            && ChainInv(c')
            && forall sig :: Able(c', sig) ==> sig == tx.signature || (Able(c, sig) && c.txs[sig].job != job)
  {
  }

  lemma BroadcastKeepsInv(s: System, a: Action)
    requires Inv(s) && Enabled(s, a) && a.Broadcast?
    ensures Inv(Apply(s, a))
  {
    var s', proc := Apply(s, a), s.procs[a.p];
    BroadcastChain(s.chain, proc.memory, proc.phase.job, proc.phase.tx);
    assert Covers(s'.disk, s'.chain);
    assert Covers(proc.memory, s'.chain);
  }

  lemma LifecycleKeepsInv(s: System, a: Action)
    requires Inv(s) && Enabled(s, a)
    requires a.Start? || a.Load? || a.Exit? || a.Crash? || a.ClearLock?
    ensures Inv(Apply(s, a))
  {
  }

  lemma StepKeepsInv(s: System, a: Action)
    requires Inv(s) && Enabled(s, a)
    ensures Inv(Apply(s, a))
  {
    if IsLocal(a) {
      LocalKeepsInv(s, a);
    } else if a.Sign? {
      SignKeepsInv(s, a);
    } else if a.WriteTemp? || a.RenameTemp? {
      PersistKeepsInv(s, a);
    } else if a.Broadcast? {
      BroadcastKeepsInv(s, a);
    } else if a.Start? || a.Load? || a.Exit? || a.Crash? || a.ClearLock? {
      LifecycleKeepsInv(s, a);
    } else {
      ChainKeepsInv(s, a);
    }
  }

  lemma {:induction false} RunKeepsInv(s: System, actions: seq<Action>)
    requires Inv(s) && CanRun(s, actions)
    ensures Inv(Run(s, actions))
    decreases |actions|
  {
    if actions != [] {
      StepKeepsInv(s, actions[0]);
      RunKeepsInv(Apply(s, actions[0]), actions[1..]);
    }
  }
}
