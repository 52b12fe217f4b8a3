/** Which plans can be uploaded at all, and from where. */
module ManifestProgress {
  import opened Common
  import opened ManifestMachine

  /** What the program ever lets an account hold: 64 stocks at most, each mint once. */
  predicate Fits(stocks: seq<Stock>) {
    && |stocks| <= 64
    && forall i, j :: 0 <= i < |stocks| && 0 <= j < |stocks| && i != j ==> stocks[i].mint != stocks[j].mint
  }

  /** The program takes new stocks exactly when the list they make fits, and never into a sealed manifest. */
  lemma AcceptsIff(account: Option<Manifest>, tx: Tx)
    requires account.Some? ==> Fits(account.value.stocks)
    ensures tx.Create? ==> (Accepts(account, tx) <==> account.None? && 0 < |tx.chunk| && Fits(tx.chunk))
    ensures tx.Append? ==>
              (Accepts(account, tx) <==>
               account.Some? && !account.value.sealed && 0 < |tx.chunk| && Fits(account.value.stocks + tx.chunk))
    ensures tx.Activate? ==> (Accepts(account, tx) <==> account.Some? && 0 < |account.value.stocks|)
    ensures Accepts(account, tx) ==> Effect(account, tx).Some? && Fits(Effect(account, tx).value.stocks)
  {
    if tx.Create? {
      assert [] + tx.chunk == tx.chunk;
      TakenIff([], tx.chunk);
    }
    if tx.Append? && account.Some? {
      TakenIff(account.value.stocks, tx.chunk);
    }
  }

  /** New stocks are fresh for a list that fits exactly when the two together fit. */
  lemma TakenIff(held: seq<Stock>, chunk: seq<Stock>)
    requires Fits(held)
    ensures |held| + |chunk| <= 64 && FreshMints(chunk, held) <==> Fits(held + chunk)
  {
    var all := held + chunk;
    assert forall i :: 0 <= i < |held| ==> all[i] == held[i];
    assert forall i :: 0 <= i < |chunk| ==> all[|held| + i] == chunk[i];
  }

  /** The account after the first `k` stocks of the plan. */
  function Holding(plan: seq<Stock>, k: nat): Option<Manifest> {
    if k == 0 then None else Some(Manifest(plan[..Min(k, |plan|)], false))
  }

  /** The next chunk is taken, and leaves four more stocks of the plan, or all of it. */
  lemma NextChunkIsTaken(plan: seq<Stock>, k: nat)
    requires Fits(plan) && k < |plan|
    ensures Accepts(Holding(plan, k), ChunkTx(plan, k))
    ensures Effect(Holding(plan, k), ChunkTx(plan, k)) == Holding(plan, k + 4)
  {
    var held, chunk, next := plan[..k], Chunk(plan, k), plan[..Min(k + 4, |plan|)];
    assert held + chunk == next;
    assert Fits(next);
    assert Fits(held) && chunk != [];
    TakenIff(held, chunk);
    hide Fits, FreshMints;
    if k == 0 {
      assert chunk == next;
    }
  }

  /** What a caller can check before the first run: the plan is one the program can hold, and the account, if
      there is one, holds a first part of it and has not been sealed too early. */
  predicate Uploadable(plan: seq<Stock>, account: Option<Manifest>) {
    && plan != [] && Fits(plan)
    && (account.Some? ==>
          var held := account.value.stocks;
          held != [] && held <= plan && (account.value.sealed ==> held == plan))
  }

  // ---------- what some run reaches ----------

  lemma {:induction false} RunConcat(plan: seq<Stock>, s: State, xs: seq<Action>, ys: seq<Action>)
    requires CanRun(plan, s, xs) && CanRun(plan, Run(plan, s, xs), ys)
    ensures CanRun(plan, s, xs + ys) && Run(plan, s, xs + ys) == Run(plan, Run(plan, s, xs), ys)
    decreases |xs|
  {
    if xs == [] {
      assert xs + ys == ys;
    } else {
      RunConcat(plan, Apply(plan, s, xs[0]), xs[1..], ys);
      assert (xs + ys)[1..] == xs[1..] + ys;
    }
  }

  lemma RunThree(plan: seq<Stock>, s: State, a: Action, b: Action, c: Action)
    requires Enabled(plan, s, a) && Enabled(plan, Apply(plan, s, a), b)
    requires Enabled(plan, Apply(plan, Apply(plan, s, a), b), c)
    ensures CanRun(plan, s, [a, b, c])
    ensures Run(plan, s, [a, b, c]) == Apply(plan, Apply(plan, Apply(plan, s, a), b), c)
  {
    hide Enabled, Apply;
    assert [a, b, c][1..] == [b, c] && [b, c][1..] == [c] && [c][1..] == [];
    var s1 := Apply(plan, s, a);
    var s2 := Apply(plan, s1, b);
    assert CanRun(plan, s2, [c]) && Run(plan, s2, [c]) == Apply(plan, s2, c);
    assert CanRun(plan, s1, [b, c]) && Run(plan, s1, [b, c]) == Apply(plan, s2, c);
  }

  predicate Alone(s: State, phase: Phase) { s.runs == map[0 := phase] && s.flight == map[] }

  /** One turn of the loop: send, land, confirm. */
  lemma ChunkTurn(plan: seq<Stock>, s: State, k: nat) returns (actions: seq<Action>)
    requires Fits(plan) && k < |plan| && Alone(s, Ready(k)) && s.account == Holding(plan, k)
    ensures CanRun(plan, s, actions)
    ensures var s' := Run(plan, s, actions); Alone(s', Ready(k + 4)) && s'.account == Holding(plan, k + 4)
  {
    NextChunkIsTaken(plan, k);
    hide Accepts, Effect, Holding, ChunkTx, Fits;
    actions := [Send(0), Land(s.nextId), ManifestMachine.Confirmed(0)];
    RunThree(plan, s, Send(0), Land(s.nextId), ManifestMachine.Confirmed(0));
  }

  lemma {:induction false} Chunks(plan: seq<Stock>, s: State, k: nat) returns (actions: seq<Action>, last: nat)
    requires Fits(plan) && Alone(s, Ready(k)) && s.account == Holding(plan, k)
    ensures CanRun(plan, s, actions) && last >= |plan|
    ensures var s' := Run(plan, s, actions); Alone(s', Ready(last)) && s'.account == Holding(plan, last)
    decreases if k < |plan| then |plan| - k else 0
  {
    if k >= |plan| {
      actions, last := [], k;
    } else {
      var turn := ChunkTurn(plan, s, k);
      var rest, end := Chunks(plan, Run(plan, s, turn), k + 4);
      RunConcat(plan, s, turn, rest);
      actions, last := turn + rest, end;
    }
  }

  /** The end of a run: check the length, send the activation; it lands and is confirmed. */
  lemma Activation(plan: seq<Stock>, s: State, k: nat) returns (actions: seq<Action>)
    requires k >= |plan| > 0 && Alone(s, Ready(k)) && s.account.Some? && s.account.value.stocks == plan
    ensures CanRun(plan, s, actions)
    ensures var s' := Run(plan, s, actions);
            Alone(s', Done) && s'.activated && s'.account == Some(Manifest(plan, true))
  {
    var sent, last := [Verify(0), SendActivate(0), Land(s.nextId)], [ManifestMachine.Confirmed(0)];
    RunThree(plan, s, Verify(0), SendActivate(0), Land(s.nextId));
    assert last[1..] == [];
    RunConcat(plan, s, sent, last);
    actions := sent + last;
  }

  /** From every account a caller would accept, one undisturbed run completes the upload. */
  lemma Completes(plan: seq<Stock>, account: Option<Manifest>) returns (actions: seq<Action>)
    requires Uploadable(plan, account)
    ensures CanRun(plan, Initial(account), actions)
    ensures var s := Run(plan, Initial(account), actions);
            Alone(s, Done) && s.activated && s.account == Some(Manifest(plan, true))
  {
    var s := Initial(account);
    var begin := [Join(0), Fetch(0)];
    assert begin[1..] == [Fetch(0)] && [Fetch(0)][1..] == [];
    assert CanRun(plan, Apply(plan, s, Join(0)), [Fetch(0)]);
    var k := if account.None? then 0 else |account.value.stocks|;
    var fetched := Run(plan, s, begin);
    assert Alone(fetched, Ready(k));
    var middle, last := [], k;
    if k < |plan| {
      assert account.Some? ==> account.value.stocks == plan[..k];
      middle, last := Chunks(plan, fetched, k);
    }
    var end := Activation(plan, Run(plan, fetched, middle), last);
    RunConcat(plan, fetched, middle, end);
    RunConcat(plan, s, begin, middle + end);
    actions := begin + (middle + end);
  }

  // ---------- what every run keeps ----------

  predicate HoldsNothing(account: Option<Manifest>) { account.Some? && account.value.stocks == [] }

  ghost predicate Keeps(plan: seq<Stock>, account: Option<Manifest>, s: State) {
    && Inv(plan, s)
    && (s.account.Some? ==> Fits(s.account.value.stocks))
    && (s.landed != {} ==> s.account.Some? && s.account.value.stocks != [])
    && (forall p :: p in s.runs && s.runs[p] == Done ==> s.landed != {})
    && (HoldsNothing(account) ==> HoldsNothing(s.account))
    && (account.Some? && account.value.sealed ==>
          s.account.Some? && s.account.value.sealed && s.account.value.stocks == account.value.stocks)
  }

  lemma StepKeeps(plan: seq<Stock>, account: Option<Manifest>, s: State, a: Action)
    requires Keeps(plan, account, s) && Enabled(plan, s, a)
    ensures Keeps(plan, account, Apply(plan, s, a))
  {
    StepKeepsInv(plan, s, a);
    if a.Land? {
      var tx := s.flight[a.id];
      AcceptsIff(s.account, tx);
      if !tx.Activate? {
        var start :| 0 <= start < |plan| && Reached(plan, s, start) && tx == ChunkTx(plan, start);
        AcceptedChunkContinues(plan, s, start);
      }
    }
    hide Inv, Fits;
  }

  lemma {:induction false} RunKeeps(plan: seq<Stock>, account: Option<Manifest>, s: State, actions: seq<Action>)
    requires Keeps(plan, account, s) && CanRun(plan, s, actions)
    ensures Keeps(plan, account, Run(plan, s, actions))
    decreases |actions|
  {
    if actions != [] {
      StepKeeps(plan, account, s, actions[0]);
      RunKeeps(plan, account, Apply(plan, s, actions[0]), actions[1..]);
    }
  }

  ghost predicate SomeRunCompletes(plan: seq<Stock>, account: Option<Manifest>) {
    exists actions, p ::
      && CanRun(plan, Initial(account), actions)
      && p in Run(plan, Initial(account), actions).runs && Run(plan, Initial(account), actions).runs[p] == Done
  }

  /** Whatever runs are started, however they crash and whichever transactions are lost or late: some run can
      complete exactly when the plan fits and the account holds a first part of it, not sealed too early. */
  lemma CompletesIff(plan: seq<Stock>, account: Option<Manifest>)
    requires account.Some? ==> Fits(account.value.stocks)
    ensures SomeRunCompletes(plan, account) <==> Uploadable(plan, account)
  {
    if Uploadable(plan, account) {
      var actions := Completes(plan, account);
      assert 0 in Run(plan, Initial(account), actions).runs;
    }
    if SomeRunCompletes(plan, account) {
      var actions, p :|
        && CanRun(plan, Initial(account), actions)
        && p in Run(plan, Initial(account), actions).runs && Run(plan, Initial(account), actions).runs[p] == Done;
      RunKeeps(plan, account, Initial(account), actions);
      ActivatedIsThePlan(plan, account, actions);
      if account.Some? && !(account.value.stocks <= plan) {
        NeverTouched(plan, account, Initial(account), actions);
      }
    }
  }

  /** A list that is not a first part of the plan stays. */
  lemma {:induction false} NeverTouched(plan: seq<Stock>, account: Option<Manifest>, s: State, actions: seq<Action>)
    requires Keeps(plan, account, s) && CanRun(plan, s, actions) && account.Some?
    requires !(account.value.stocks <= plan) && s.account == account
    ensures Run(plan, s, actions).account == account
    decreases |actions|
  {
    if actions != [] {
      StepKeeps(plan, account, s, actions[0]);
      NeverTouched(plan, account, Apply(plan, s, actions[0]), actions[1..]);
    }
  }
}
