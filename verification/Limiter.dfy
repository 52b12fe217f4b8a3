/** The adaptive serialising limiter: a promise chain of calls, an interval that widens and
    narrows, bounded retries and server-ordered waits.  Times are whole milliseconds of a clock
    that never runs backwards. */
module LimiterMachine {
  import opened Common

  datatype Config = Config(minInterval: nat, maxInterval: nat, retries: nat)

  /** How one execution of the work ends; `retryAfter` is what the thrown error carries. */
  datatype Reply = Success | RateLimited(retryAfter: Option<int>) | OtherError

  function ServerWait(reply: Reply): nat {
    if reply.RateLimited? && reply.retryAfter.Some? && reply.retryAfter.value >= 0 then reply.retryAfter.value else 0
  }

  datatype Call =
    | Waiting                          // its predecessor in the chain has not settled
    | Pausing(attempt: nat, end: nat)  // sleeping until the interval has passed
    | Working(attempt: nat)            // the work runs; it started at `last`
    | Backoff(attempt: nat, end: nat)  // sleeping after a rate limit
    | Settled(reply: Reply)

  /** A finished attempt; `after` is the interval once its reply has been taken into account. */
  datatype Attempt = Attempt(call: nat, number: nat, start: nat, finish: nat, reply: Reply, after: nat)

  datatype State = State(now: nat, interval: nat, last: nat, calls: seq<Call>, log: seq<Attempt>)

  datatype Action =
    | Advance(ms: nat)
    | Submit                          // a top-level call joins the chain
    | Begin(call: nat)                // its predecessor has settled, either way
    | Start(call: nat)                // the pause is over
    | Replied(call: nat, reply: Reply) // the work ends
    | Wake(call: nat)                 // the backoff is over

  function Initial(cfg: Config, now: nat): State {
    State(now, cfg.minInterval, 0, [], [])
  }

  predicate Retried(cfg: Config, number: nat, reply: Reply) {
    reply.RateLimited? && number < cfg.retries
  }

  function NextInterval(cfg: Config, interval: nat, number: nat, reply: Reply): nat {
    if reply.Success? then Max(cfg.minInterval, interval * 9 / 10)
    else if Retried(cfg, number, reply) then Min(cfg.maxInterval, Max(interval * 2, cfg.minInterval))
    else interval
  }

  predicate Enabled(s: State, a: Action) {
    match a
    case Advance(_) => true
    case Submit => true
    case Begin(k) => k < |s.calls| && s.calls[k].Waiting? && (k == 0 || s.calls[k - 1].Settled?)
    case Start(k) => k < |s.calls| && s.calls[k].Pausing? && s.calls[k].end <= s.now
    case Replied(k, _) => k < |s.calls| && s.calls[k].Working?
    case Wake(k) => k < |s.calls| && s.calls[k].Backoff? && s.calls[k].end <= s.now
  }

  function Apply(cfg: Config, s: State, a: Action): State
    requires Enabled(s, a)
  {
    match a
    case Advance(ms) => s.(now := s.now + ms)
    case Submit => s.(calls := s.calls + [Waiting])
    case Begin(k) => s.(calls := s.calls[k := Pausing(0, Max(s.now, s.last + s.interval))])
    case Start(k) => s.(calls := s.calls[k := Working(s.calls[k].attempt)], last := s.now)
    case Replied(k, reply) =>
      var number := s.calls[k].attempt;
      var interval := NextInterval(cfg, s.interval, number, reply);
      var call := if Retried(cfg, number, reply)
                  then Backoff(number, s.now + Max(interval, ServerWait(reply)))
                  else Settled(reply);
      s.(interval := interval, calls := s.calls[k := call],
         log := s.log + [Attempt(k, number, s.last, s.now, reply, interval)])
    case Wake(k) => s.(calls := s.calls[k := Pausing(s.calls[k].attempt + 1, Max(s.now, s.last + s.interval))])
  }

  predicate CanRun(cfg: Config, s: State, actions: seq<Action>)
    decreases |actions|
  {
    actions == [] || (Enabled(s, actions[0]) && CanRun(cfg, Apply(cfg, s, actions[0]), actions[1..]))
  }

  function Run(cfg: Config, s: State, actions: seq<Action>): State
    requires CanRun(cfg, s, actions)
    decreases |actions|
  {
    if actions == [] then s else Run(cfg, Apply(cfg, s, actions[0]), actions[1..])
  }

  // ---------- the invariant ----------

  /** What must lie between an attempt and the next one in the log. */
  predicate Follows(cfg: Config, a: Attempt, call: nat, number: nat, start: nat) {
    && a.finish <= start
    && a.start + a.after <= start
    && if Retried(cfg, a.number, a.reply)
       then call == a.call && number == a.number + 1 && a.finish + Max(a.after, ServerWait(a.reply)) <= start
       else call == a.call + 1 && number == 0
  }

  predicate Chained(cfg: Config, log: seq<Attempt>) {
    && (log != [] ==> log[0].call == 0 && log[0].number == 0)
    && (forall i :: 0 <= i < |log| ==> log[i].start <= log[i].finish && log[i].number <= cfg.retries)
    && forall i :: 0 <= i < |log| - 1 ==> Follows(cfg, log[i], log[i + 1].call, log[i + 1].number, log[i + 1].start)
  }

  /** Attempt `number` of call `call`, started at `start`, would be next in the log. */
  predicate Next(cfg: Config, s: State, call: nat, number: nat, start: nat) {
    if s.log == [] then call == 0 && number == 0
    else Follows(cfg, s.log[|s.log| - 1], call, number, start)
  }

  ghost predicate SettledBy(cfg: Config, log: seq<Attempt>, k: nat, reply: Reply) {
    exists i :: 0 <= i < |log| && log[i].call == k && log[i].reply == reply && !Retried(cfg, log[i].number, reply)
  }

  /** Calls before `h` have settled, calls after it wait, and call `h` may be under way. */
  ghost predicate At(cfg: Config, s: State, h: nat) {
    && h <= |s.calls|
    && (forall k :: 0 <= k < h ==> s.calls[k].Settled? && SettledBy(cfg, s.log, k, s.calls[k].reply))
    && (forall k :: h < k < |s.calls| ==> s.calls[k].Waiting?)
    && (h < |s.calls| ==> !s.calls[h].Settled?)
    && (s.log != [] && (h == |s.calls| || !s.calls[h].Working?) ==> s.last == s.log[|s.log| - 1].start)
    && if h == |s.calls| || s.calls[h].Waiting? then
         s.log != [] ==> var a := s.log[|s.log| - 1]; a.call + 1 == h && !Retried(cfg, a.number, a.reply)
       else match s.calls[h]
         case Pausing(n, end) => n <= cfg.retries && s.last + s.interval <= end && Next(cfg, s, h, n, end)
         case Working(n) => n <= cfg.retries && Next(cfg, s, h, n, s.last)
         case Backoff(n, end) =>
           && s.log != []
           && var a := s.log[|s.log| - 1];
              a.call == h && a.number == n && Retried(cfg, n, a.reply) &&
                  a.finish + Max(a.after, ServerWait(a.reply)) <= end
  }

  ghost predicate Inv(cfg: Config, s: State) {
    && s.last <= s.now
    && Chained(cfg, s.log)
    && (s.log == [] ==> s.interval == cfg.minInterval)
    && (s.log != [] ==> s.log[|s.log| - 1].finish <= s.now && s.interval == s.log[|s.log| - 1].after)
    && exists h :: At(cfg, s, h)
  }

  lemma ReplyKeepsInv(cfg: Config, s: State, a: Action, h: nat)
    requires Inv(cfg, s) && At(cfg, s, h) && Enabled(s, a) && a.Replied?
    ensures Inv(cfg, Apply(cfg, s, a))
  {
    var s' := Apply(cfg, s, a);
    var entry := s'.log[|s.log|];
    assert a.call == h;
    assert Chained(cfg, s'.log) by {
      assert forall i :: 0 <= i < |s.log| ==> s'.log[i] == s.log[i];
    }
    hide SettledBy, Chained;
    forall k | 0 <= k < h ensures SettledBy(cfg, s'.log, k, s.calls[k].reply) {
      StillSettled(cfg, s.log, entry, k, s.calls[k].reply);
    }
    if Retried(cfg, entry.number, entry.reply) {
      assert At(cfg, s', h);
    } else {
      NowSettled(cfg, s.log, entry);
      assert At(cfg, s', h + 1);
    }
  }

  lemma StillSettled(cfg: Config, log: seq<Attempt>, entry: Attempt, k: nat, reply: Reply)
    requires SettledBy(cfg, log, k, reply)
    ensures SettledBy(cfg, log + [entry], k, reply)
  {
    var i :| 0 <= i < |log| && log[i].call == k && log[i].reply == reply && !Retried(cfg, log[i].number, reply);
    assert (log + [entry])[i] == log[i];
  }

  lemma NowSettled(cfg: Config, log: seq<Attempt>, entry: Attempt)
    requires !Retried(cfg, entry.number, entry.reply)
    ensures SettledBy(cfg, log + [entry], entry.call, entry.reply)
  {
    assert (log + [entry])[|log|] == entry;
  }

  lemma SleepKeepsInv(cfg: Config, s: State, a: Action, h: nat)
    requires Inv(cfg, s) && At(cfg, s, h) && Enabled(s, a) && (a.Start? || a.Wake?)
    ensures Inv(cfg, Apply(cfg, s, a))
  {
    hide SettledBy, Chained;
    assert At(cfg, Apply(cfg, s, a), h);
  }

  lemma QueueKeepsInv(cfg: Config, s: State, a: Action, h: nat)
    requires Inv(cfg, s) && At(cfg, s, h) && Enabled(s, a) && (a.Advance? || a.Submit? || a.Begin?)
    ensures Inv(cfg, Apply(cfg, s, a))
  {
    assert At(cfg, Apply(cfg, s, a), h);
  }

  lemma StepKeepsInv(cfg: Config, s: State, a: Action)
    requires Inv(cfg, s) && Enabled(s, a)
    ensures Inv(cfg, Apply(cfg, s, a))
  {
    hide At;
    var h: nat :| At(cfg, s, h);
    match a
    case Replied(_, _) => ReplyKeepsInv(cfg, s, a, h);
    case Start(_) => SleepKeepsInv(cfg, s, a, h);
    case Wake(_) => SleepKeepsInv(cfg, s, a, h);
    case _ => QueueKeepsInv(cfg, s, a, h);
  }

  lemma {:induction false} RunKeepsInv(cfg: Config, s: State, actions: seq<Action>)
    requires Inv(cfg, s) && CanRun(cfg, s, actions)
    ensures Inv(cfg, Run(cfg, s, actions))
    decreases |actions|
  {
    if actions != [] {
      StepKeepsInv(cfg, s, actions[0]);
      RunKeepsInv(cfg, Apply(cfg, s, actions[0]), actions[1..]);
    }
  }

  lemma Reachable(cfg: Config, now: nat, actions: seq<Action>)
    requires CanRun(cfg, Initial(cfg, now), actions)
    ensures Inv(cfg, Run(cfg, Initial(cfg, now), actions))
  {
    assert At(cfg, Initial(cfg, now), 0);
    RunKeepsInv(cfg, Initial(cfg, now), actions);
  }

  lemma {:induction false} RunAppend(cfg: Config, s: State, actions: seq<Action>, a: Action)
    requires CanRun(cfg, s, actions) && Enabled(Run(cfg, s, actions), a)
    ensures CanRun(cfg, s, actions + [a])
    ensures Run(cfg, s, actions + [a]) == Apply(cfg, Run(cfg, s, actions), a)
    decreases |actions|
  {
    if actions == [] {
      assert [] + [a] == [a] && [a][1..] == [];
    } else {
      RunAppend(cfg, Apply(cfg, s, actions[0]), actions[1..], a);
      assert (actions + [a])[1..] == actions[1..] + [a];
    }
  }
}
