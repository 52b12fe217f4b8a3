/** Uploading the manifest in chunks of four, by runs that may crash anywhere and whose
    transactions may land late: the runs, the transactions in flight and the account they write. */
module ManifestMachine {
  import opened Common

  datatype Stock = Stock(mint: nat, terms: nat)

  datatype Manifest = Manifest(stocks: seq<Stock>, sealed: bool)

  datatype Tx = Create(chunk: seq<Stock>) | Append(chunk: seq<Stock>) | Activate

  datatype Phase =
    | Fetching
    | Ready(start: nat)             // the loop is about to test `start`
    | Sent(start: nat, id: nat)     // waiting for the chunk from `start`
    | Complete                      // the length has been checked
    | Activating(id: nat)
    | Done

  /** `flight` holds what was sent and may still land, `landed` what took effect. */
  datatype State = State(
    account: Option<Manifest>, flight: map<nat, Tx>, landed: set<nat>, nextId: nat,
    runs: map<nat, Phase>, activated: bool)

  datatype Action =
    | Join(p: nat) | Fetch(p: nat) | Send(p: nat) | Confirmed(p: nat) | Verify(p: nat) | SendActivate(p: nat)
    | Quit(p: nat)                  // any throw, or a crash
    | Land(id: nat) | Lost(id: nat) // a transaction takes effect, or never will

  function Chunk(plan: seq<Stock>, start: nat): seq<Stock>
    requires start <= |plan|
  {
    plan[start..Min(start + 4, |plan|)]
  }

  function ChunkTx(plan: seq<Stock>, start: nat): Tx
    requires start <= |plan|
  {
    if start == 0 then Create(Chunk(plan, 0)) else Append(Chunk(plan, start))
  }

  /** No mint twice, neither among the new stocks nor among those already there. */
  predicate FreshMints(stocks: seq<Stock>, existing: seq<Stock>) {
    && (forall i, j :: 0 <= i < j < |stocks| ==> stocks[i].mint != stocks[j].mint)
    && forall i, j :: 0 <= i < |stocks| && 0 <= j < |existing| ==> stocks[i].mint != existing[j].mint
  }

  /** What the program demands; further checks of each stock may refuse more. */
  predicate Accepts(account: Option<Manifest>, tx: Tx) {
    match tx
    case Create(chunk) => account.None? && chunk != [] && |chunk| <= 64 && FreshMints(chunk, [])
    case Append(chunk) =>
      && account.Some? && !account.value.sealed && chunk != []
      && |account.value.stocks| + |chunk| <= 64 && FreshMints(chunk, account.value.stocks)
    case Activate => account.Some? && account.value.stocks != []
  }

  function Effect(account: Option<Manifest>, tx: Tx): Option<Manifest>
    requires Accepts(account, tx)
  {
    match tx
    case Create(chunk) => Some(Manifest(chunk, false))
    case Append(chunk) => Some(account.value.(stocks := account.value.stocks + chunk))
    case Activate => Some(account.value.(sealed := true))
  }

  predicate Enabled(plan: seq<Stock>, s: State, a: Action) {
    match a
    case Join(p) => p !in s.runs
    case Fetch(p) => p in s.runs && s.runs[p] == Fetching && (s.account.None? || s.account.value.stocks <= plan)
    case Send(p) => p in s.runs && s.runs[p].Ready? && s.runs[p].start < |plan|
    case Confirmed(p) => p in s.runs && (s.runs[p].Sent? || s.runs[p].Activating?) && s.runs[p].id in s.landed
    case Verify(p) =>
      && p in s.runs && s.runs[p].Ready? && s.runs[p].start >= |plan|
      && s.account.Some? && |s.account.value.stocks| == |plan|
    case SendActivate(p) => p in s.runs && s.runs[p] == Complete
    case Quit(p) => p in s.runs
    case Land(id) => id in s.flight && Accepts(s.account, s.flight[id])
    case Lost(id) => id in s.flight
  }

  function Apply(plan: seq<Stock>, s: State, a: Action): State
    requires Enabled(plan, s, a)
  {
    match a
    case Join(p) => s.(runs := s.runs[p := Fetching])
    case Fetch(p) => s.(runs := s.runs[p := Ready(if s.account.None? then 0 else |s.account.value.stocks|)])
    case Send(p) =>
      var start := s.runs[p].start;
      s.(flight := s.flight[s.nextId := ChunkTx(plan, start)], nextId := s.nextId + 1,
          runs := s.runs[p := Sent(start, s.nextId)])
    case Confirmed(p) =>
      s.(runs := s.runs[p := if s.runs[p].Sent? then Ready(s.runs[p].start + 4) else Done])
    case Verify(p) => s.(runs := s.runs[p := Complete])
    case SendActivate(p) =>
      s.(flight := s.flight[s.nextId := Activate], nextId := s.nextId + 1, runs := s.runs[p := Activating(s.nextId)])
    case Quit(p) => s.(runs := s.runs - {p})
    case Land(id) =>
      s.(account := Effect(s.account, s.flight[id]), flight := s.flight - {id}, landed := s.landed + {id},
         activated := s.activated || s.flight[id].Activate?)
    case Lost(id) => s.(flight := s.flight - {id})
  }

  predicate CanRun(plan: seq<Stock>, s: State, actions: seq<Action>)
    decreases |actions|
  {
    actions == [] || (Enabled(plan, s, actions[0]) && CanRun(plan, Apply(plan, s, actions[0]), actions[1..]))
  }

  function Run(plan: seq<Stock>, s: State, actions: seq<Action>): State
    requires CanRun(plan, s, actions)
    decreases |actions|
  {
    if actions == [] then s else Run(plan, Apply(plan, s, actions[0]), actions[1..])
  }

  /** Before the first run: whatever account is there, nothing of ours in flight. */
  function Initial(account: Option<Manifest>): State {
    State(account, map[], {}, 0, map[], false)
  }

  // ---------- the invariant ----------

  /** How many stocks of the plan the account holds, provided it holds nothing else. */
  function Uploaded(s: State): nat { if s.account.None? then 0 else |s.account.value.stocks| }

  predicate OnPlan(plan: seq<Stock>, s: State) { s.account.None? || s.account.value.stocks <= plan }

  predicate Full(plan: seq<Stock>, s: State) { s.account.Some? && s.account.value.stocks == plan }

  /** The loop has come to `start` because at least that much had been uploaded. */
  predicate Reached(plan: seq<Stock>, s: State, start: nat) {
    start > 0 ==> s.account.Some? && Min(start, |plan|) <= Uploaded(s)
  }

  ghost predicate FlightInv(plan: seq<Stock>, s: State, tx: Tx) {
    if tx.Activate? then Full(plan, s)
    else exists start :: 0 <= start < |plan| && Reached(plan, s, start) && tx == ChunkTx(plan, start)
  }

  predicate RunInv(plan: seq<Stock>, s: State, phase: Phase) {
    match phase
    case Fetching => true
    case Ready(start) => Reached(plan, s, start)
    case Sent(start, id) =>
      && id < s.nextId && start < |plan| && Reached(plan, s, start)
      && (id in s.flight ==> s.flight[id] == ChunkTx(plan, start))
      && (id in s.landed ==> id !in s.flight && Reached(plan, s, start + 4))
    case Complete => Full(plan, s)
    case Activating(id) =>
      && Full(plan, s) && id < s.nextId
      && (id in s.flight ==> s.flight[id] == Activate)
      && (id in s.landed ==> id !in s.flight && s.account.value.sealed)
    case Done => Full(plan, s) && s.account.value.sealed
  }

  ghost predicate Inv(plan: seq<Stock>, s: State) {
    && (forall id :: id in s.flight ==> id < s.nextId && id !in s.landed)
    && (forall id :: id in s.landed ==> id < s.nextId)
    && (s.activated ==> Full(plan, s))
    && if OnPlan(plan, s)
       then (forall id :: id in s.flight ==> FlightInv(plan, s, s.flight[id])) &&
           (forall p :: p in s.runs ==> RunInv(plan, s, s.runs[p]))
       else s.flight == map[] && !s.activated && (forall p :: p in s.runs ==> s.runs[p] == Fetching)
  }

  /** A chunk of the plan that is accepted continues the plan exactly where the account ends: an
      earlier chunk repeats a mint, and a later one was never sent. */
  lemma AcceptedChunkContinues(plan: seq<Stock>, s: State, start: nat)
    requires OnPlan(plan, s) && start < |plan| && Reached(plan, s, start)
    requires Accepts(s.account, ChunkTx(plan, start))
    ensures start == Uploaded(s)
    ensures var after := Effect(s.account, ChunkTx(plan, start)).value;
            after.stocks <= plan && |after.stocks| == Min(start + 4, |plan|)
  {
    var chunk := Chunk(plan, start);
    assert chunk[0] == plan[start];
  }

  lemma LandKeepsInv(plan: seq<Stock>, s: State, id: nat)
    requires Inv(plan, s) && Enabled(plan, s, Land(id))
    ensures Inv(plan, Apply(plan, s, Land(id)))
  {
    var s', tx := Apply(plan, s, Land(id)), s.flight[id];
    if !tx.Activate? {
      var start :| 0 <= start < |plan| && Reached(plan, s, start) && tx == ChunkTx(plan, start);
      AcceptedChunkContinues(plan, s, start);
      assert !Full(plan, s);
    }
    assert forall x: nat :: Reached(plan, s, x) ==> Reached(plan, s', x);
    forall p | p in s'.runs
      ensures RunInv(plan, s', s'.runs[p])
    {
      assert RunInv(plan, s, s.runs[p]);
    }
  }

  lemma FlightCarries(plan: seq<Stock>, s: State, s': State, tx: Tx)
    requires s'.account == s.account && FlightInv(plan, s, tx)
    ensures FlightInv(plan, s', tx)
  {
  }

  /** A run is as before while the account is, and no number is used again. */
  lemma RunCarries(plan: seq<Stock>, s: State, s': State, phase: Phase)
    requires s'.account == s.account && s'.landed == s.landed && s.nextId <= s'.nextId
    requires forall id :: id in s'.flight && id < s.nextId ==> id in s.flight && s'.flight[id] == s.flight[id]
    requires RunInv(plan, s, phase)
    ensures RunInv(plan, s', phase)
  {
  }

  /** Sending puts one more transaction into flight, under a number not used before. */
  lemma SendingKeepsInv(plan: seq<Stock>, s: State, a: Action)
    requires Inv(plan, s) && Enabled(plan, s, a) && (a.Send? || a.SendActivate?)
    ensures Inv(plan, Apply(plan, s, a))
  {
    var s', tx := Apply(plan, s, a), if a.Send? then ChunkTx(plan, s.runs[a.p].start) else Activate;
    assert RunInv(plan, s, s.runs[a.p]);
    assert FlightInv(plan, s, tx);
    assert RunInv(plan, s', s'.runs[a.p]);
    hide FlightInv, RunInv, Accepts, Effect;
    forall id | id in s'.flight
      ensures FlightInv(plan, s', s'.flight[id])
    {
      FlightCarries(plan, s, s', s'.flight[id]);
    }
    forall p | p in s'.runs
      ensures RunInv(plan, s', s'.runs[p])
    {
      if p != a.p { RunCarries(plan, s, s', s.runs[p]); }
    }
  }

  lemma QuietStepKeepsInv(plan: seq<Stock>, s: State, a: Action)
    requires Inv(plan, s) && Enabled(plan, s, a) && !a.Send? && !a.SendActivate? && !a.Land?
    ensures Inv(plan, Apply(plan, s, a))
  {
    hide Accepts, Effect, ChunkTx;
    var s' := Apply(plan, s, a);
    if OnPlan(plan, s) {
      if !a.Lost? && !a.Quit? {
        assert a.p in s.runs ==> RunInv(plan, s, s.runs[a.p]);
        assert RunInv(plan, s', s'.runs[a.p]);
      }
      hide FlightInv, RunInv;
      forall id | id in s'.flight
        ensures FlightInv(plan, s', s'.flight[id])
      {
        FlightCarries(plan, s, s', s'.flight[id]);
      }
      forall p | p in s'.runs
        ensures RunInv(plan, s', s'.runs[p])
      {
        if a.Lost? || a.Quit? || p != a.p { RunCarries(plan, s, s', s.runs[p]); }
      }
    }
  }

  lemma StepKeepsInv(plan: seq<Stock>, s: State, a: Action)
    requires Inv(plan, s) && Enabled(plan, s, a)
    ensures Inv(plan, Apply(plan, s, a))
  {
    if a.Land? {
      LandKeepsInv(plan, s, a.id);
    } else if a.Send? || a.SendActivate? {
      SendingKeepsInv(plan, s, a);
    } else {
      QuietStepKeepsInv(plan, s, a);
    }
  }

  lemma {:induction false} RunKeepsInv(plan: seq<Stock>, s: State, actions: seq<Action>)
    requires Inv(plan, s) && CanRun(plan, s, actions)
    ensures Inv(plan, Run(plan, s, actions))
    decreases |actions|
  {
    if actions != [] {
      StepKeepsInv(plan, s, actions[0]);
      RunKeepsInv(plan, Apply(plan, s, actions[0]), actions[1..]);
    }
  }

  /** A run that has come to the end of a plan has uploaded all of it. */
  lemma UploadedAll(plan: seq<Stock>, account: Option<Manifest>, actions: seq<Action>, p: nat, start: nat)
    requires CanRun(plan, Initial(account), actions) && start >= |plan| > 0
    requires var s := Run(plan, Initial(account), actions); p in s.runs && s.runs[p] == Ready(start)
    ensures Full(plan, Run(plan, Initial(account), actions))
  {
    RunKeepsInv(plan, Initial(account), actions);
    var s := Run(plan, Initial(account), actions);
    if OnPlan(plan, s) {
      assert RunInv(plan, s, s.runs[p]);
    }
  }

  /** Once a run has activated the manifest, it holds exactly the plan: whatever prefix earlier
      crashed runs left, and whichever of their appends land late, before or after the last check. */
  lemma ActivatedIsThePlan(plan: seq<Stock>, account: Option<Manifest>, actions: seq<Action>)
    requires CanRun(plan, Initial(account), actions)
    ensures var s := Run(plan, Initial(account), actions);
            s.activated || (exists p :: p in s.runs && s.runs[p] == Done) ==>
                s.account.Some? && s.account.value.stocks == plan
    ensures var s := Run(plan, Initial(account), actions);
            forall p :: p in s.runs && s.runs[p] == Done ==> s.account.value.sealed
  {
    RunKeepsInv(plan, Initial(account), actions);
  }

  /** Every step leaves the list as it is or extends a prefix of the plan to a longer one; a list
      that is not a prefix of the plan is never touched. */
  lemma OnlyExtendsAPrefix(plan: seq<Stock>, account: Option<Manifest>, actions: seq<Action>, a: Action)
    requires CanRun(plan, Initial(account), actions)
    requires Enabled(plan, Run(plan, Initial(account), actions), a)
    ensures var s := Run(plan, Initial(account), actions);
            var s' := Apply(plan, s, a);
            || s'.account == s.account
            || (OnPlan(plan, s) && s'.account.Some? && s'.account.value.stocks <= plan
                && (s.account.Some? ==> s.account.value.stocks <= s'.account.value.stocks))
  {
    RunKeepsInv(plan, Initial(account), actions);
    var s := Run(plan, Initial(account), actions);
    if a.Land? && !s.flight[a.id].Activate? {
      var start :| 0 <= start < |plan| && Reached(plan, s, start) && s.flight[a.id] == ChunkTx(plan, start);
      AcceptedChunkContinues(plan, s, start);
    }
  }

  lemma {:induction false} RunAppend(plan: seq<Stock>, s: State, actions: seq<Action>, a: Action)
    requires CanRun(plan, s, actions) && Enabled(plan, Run(plan, s, actions), a)
    ensures CanRun(plan, s, actions + [a]) && Run(plan, s, actions + [a]) == Apply(plan, Run(plan, s, actions), a)
    decreases |actions|
  {
    if actions == [] {
      assert [] + [a] == [a] && [a][1..] == [];
    } else {
      RunAppend(plan, Apply(plan, s, actions[0]), actions[1..], a);
      assert (actions + [a])[1..] == actions[1..] + [a];
    }
  }
}
