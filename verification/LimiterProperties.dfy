/** Safety and liveness of the limiter, over every sequence of calls, replies and delays. */
module LimiterProperties {
  import opened Common
  import opened LimiterMachine

  function LogOf(cfg: Config, now: nat, actions: seq<Action>): seq<Attempt>
    requires CanRun(cfg, Initial(cfg, now), actions)
  {
    Run(cfg, Initial(cfg, now), actions).log
  }

  // ---------- order and spacing ----------

  lemma {:induction false} Apart(cfg: Config, log: seq<Attempt>, i: nat, j: nat)
    requires Chained(cfg, log) && i < j < |log|
    ensures log[i].finish <= log[j].start && log[i].start + log[i].after <= log[j].start
    ensures Retried(cfg, log[i].number, log[i].reply) ==>
        log[i].finish + Max(log[i].after, ServerWait(log[i].reply)) <= log[j].start
    ensures log[i].call < log[j].call || (log[i].call == log[j].call && log[i].number < log[j].number)
    decreases j - i
  {
    assert Follows(cfg, log[i], log[i + 1].call, log[i + 1].number, log[i + 1].start);
    if i + 1 < j {
      Apart(cfg, log, i + 1, j);
    }
  }

  /** Works never overlap, attempts start in call order, and nothing at all starts during a
      retried backoff: not before the larger of the widened interval and the server's wait. */
  lemma Serialised(cfg: Config, now: nat, actions: seq<Action>, i: nat, j: nat)
    requires CanRun(cfg, Initial(cfg, now), actions)
    requires i < j < |LogOf(cfg, now, actions)|
    ensures var a, b := LogOf(cfg, now, actions)[i], LogOf(cfg, now, actions)[j];
            && a.start <= a.finish <= b.start
            && (a.call < b.call || (a.call == b.call && a.number < b.number))
            && (Retried(cfg, a.number, a.reply) ==> a.finish + Max(a.after, ServerWait(a.reply)) <= b.start)
  {
    Reachable(cfg, now, actions);
    Apart(cfg, LogOf(cfg, now, actions), i, j);
  }

  /** The attempt in flight, if any, is alone and began after every finished one. */
  lemma OneInFlight(cfg: Config, now: nat, actions: seq<Action>)
    requires CanRun(cfg, Initial(cfg, now), actions)
    ensures var s := Run(cfg, Initial(cfg, now), actions);
            && (forall j, k ::
                0 <= j < |s.calls| && 0 <= k < |s.calls| && s.calls[j].Working? && s.calls[k].Working? ==> j == k)
            && forall k, i ::
                0 <= k < |s.calls| && s.calls[k].Working? && 0 <= i < |s.log| ==> s.log[i].finish <= s.last
  {
    Reachable(cfg, now, actions);
    var s := Run(cfg, Initial(cfg, now), actions);
    forall k, i | 0 <= k < |s.calls| && s.calls[k].Working? && 0 <= i < |s.log|
      ensures s.log[i].finish <= s.last
    {
      if i < |s.log| - 1 {
        Apart(cfg, s.log, i, |s.log| - 1);
      }
    }
  }

  // ---------- the interval ----------

  predicate Wide(cfg: Config, s: State) {
    cfg.minInterval <= s.interval && forall i :: 0 <= i < |s.log| ==> cfg.minInterval <= s.log[i].after
  }

  lemma {:induction false} StaysWide(cfg: Config, s: State, actions: seq<Action>)
    requires cfg.minInterval <= cfg.maxInterval || cfg.retries == 0
    requires Wide(cfg, s) && CanRun(cfg, s, actions)
    ensures Wide(cfg, Run(cfg, s, actions))
    decreases |actions|
  {
    if actions != [] {
      StaysWide(cfg, Apply(cfg, s, actions[0]), actions[1..]);
    }
  }

  lemma {:induction false} StaysNarrow(cfg: Config, s: State, actions: seq<Action>)
    requires s.interval <= cfg.maxInterval && cfg.minInterval <= cfg.maxInterval && CanRun(cfg, s, actions)
    ensures Run(cfg, s, actions).interval <= cfg.maxInterval
    decreases |actions|
  {
    if actions != [] {
      StaysNarrow(cfg, Apply(cfg, s, actions[0]), actions[1..]);
    }
  }

  /** The interval keeps its bounds in every run exactly for options whose minimum does not
      exceed their maximum. */
  lemma IntervalBoundsIff(cfg: Config, now: nat)
    ensures cfg.minInterval <= cfg.maxInterval
       <==> forall actions :: CanRun(cfg, Initial(cfg, now), actions) ==>
              cfg.minInterval <= Run(cfg, Initial(cfg, now), actions).interval <= cfg.maxInterval
  {
    if cfg.minInterval <= cfg.maxInterval {
      forall actions | CanRun(cfg, Initial(cfg, now), actions)
        ensures cfg.minInterval <= Run(cfg, Initial(cfg, now), actions).interval <= cfg.maxInterval
      {
        StaysWide(cfg, Initial(cfg, now), actions);
        StaysNarrow(cfg, Initial(cfg, now), actions);
      }
    } else {
      assert CanRun(cfg, Initial(cfg, now), []) && Run(cfg, Initial(cfg, now), []) == Initial(cfg, now);
    }
  }

  /** The interval after a row of like replies, each to an attempt that may be retried. */
  function After(cfg: Config, interval: nat, reply: Reply, n: nat): nat {
    if n == 0 then interval else NextInterval(cfg, After(cfg, interval, reply, n - 1), 0, reply)
  }

  /** Rate limits in a row double the interval up to the maximum. */
  lemma {:induction false} WidensByDoubling(cfg: Config, interval: nat, wait: Option<int>, n: nat)
    requires cfg.minInterval <= interval <= cfg.maxInterval && cfg.retries > 0
    ensures After(cfg, interval, RateLimited(wait), n) == Min(cfg.maxInterval, interval * Pow2(n))
    decreases n
  {
    if n > 0 {
      hide Pow2;
      WidensByDoubling(cfg, interval, wait, n - 1);
      Doubling(interval, n);
      AtLeast(interval, n - 1);
    }
  }

  lemma Doubling(x: nat, n: nat)
    requires n > 0
    ensures x * Pow2(n) == 2 * (x * Pow2(n - 1))
  {
  }

  lemma {:induction false} AtLeast(interval: nat, n: nat)
    ensures interval * Pow2(n) >= interval
    decreases n
  {
    if n > 0 {
      hide Pow2;
      AtLeast(interval, n - 1);
      Doubling(interval, n);
    }
  }

  /** Successes in a row bring the interval back to its minimum, never below it and never up, in at
      most as many steps as it lies above. */
  lemma {:induction false} NarrowsToMinimum(cfg: Config, interval: nat, n: nat)
    requires cfg.minInterval <= interval
    ensures cfg.minInterval <= After(cfg, interval, Success, n) <= Max(cfg.minInterval, interval - n)
    decreases n
  {
    if n > 0 {
      NarrowsToMinimum(cfg, interval, n - 1);
    }
  }

  predicate Spaced(cfg: Config, log: seq<Attempt>) {
    forall i, j :: 0 <= i < j < |log| ==> log[i].start + cfg.minInterval <= log[j].start
  }

  lemma SpacedWhenWide(cfg: Config, now: nat, actions: seq<Action>)
    requires cfg.minInterval <= cfg.maxInterval || cfg.retries == 0
    requires CanRun(cfg, Initial(cfg, now), actions)
    ensures Spaced(cfg, LogOf(cfg, now, actions))
  {
    Reachable(cfg, now, actions);
    StaysWide(cfg, Initial(cfg, now), actions);
    var log := LogOf(cfg, now, actions);
    forall i, j | 0 <= i < j < |log|
      ensures log[i].start + cfg.minInterval <= log[j].start
    {
      Apart(cfg, log, i, j);
    }
  }

  lemma Then(cfg: Config, s0: State, s: State, actions: seq<Action>, a: Action)
    returns (s': State, actions': seq<Action>)
    requires CanRun(cfg, s0, actions) && Run(cfg, s0, actions) == s && Enabled(s, a)
    ensures CanRun(cfg, s0, actions') && Run(cfg, s0, actions') == s' == Apply(cfg, s, a)
  {
    RunAppend(cfg, s0, actions, a);
    s', actions' := Apply(cfg, s, a), actions + [a];
  }

  /** With a maximum below the minimum, a rate-limited attempt is repeated too early. */
  lemma TooSoon(cfg: Config, now: nat) returns (actions: seq<Action>)
    requires cfg.maxInterval < cfg.minInterval && cfg.retries > 0
    ensures CanRun(cfg, Initial(cfg, now), actions) && !Spaced(cfg, LogOf(cfg, now, actions))
  {
    var s0 := Initial(cfg, now);
    var s := s0;
    actions := [];
    s, actions := Then(cfg, s0, s, actions, Submit);
    s, actions := Then(cfg, s0, s, actions, Begin(0));
    s, actions := Then(cfg, s0, s, actions, Advance(cfg.minInterval));
    s, actions := Then(cfg, s0, s, actions, Start(0));
    s, actions := Then(cfg, s0, s, actions, Replied(0, RateLimited(None)));
    s, actions := Then(cfg, s0, s, actions, Advance(cfg.maxInterval));
    s, actions := Then(cfg, s0, s, actions, Wake(0));
    s, actions := Then(cfg, s0, s, actions, Start(0));
    s, actions := Then(cfg, s0, s, actions, Replied(0, Success));
    assert s.log[1].start == s.log[0].start + cfg.maxInterval;
  }

  /** Attempts start at least the minimum interval apart in every run exactly when the options
      are consistent, or when nothing is ever retried. */
  lemma SpacingIff(cfg: Config, now: nat)
    ensures (cfg.minInterval <= cfg.maxInterval || cfg.retries == 0)
       <==> forall actions :: CanRun(cfg, Initial(cfg, now), actions) ==> Spaced(cfg, LogOf(cfg, now, actions))
  {
    if cfg.minInterval <= cfg.maxInterval || cfg.retries == 0 {
      forall actions | CanRun(cfg, Initial(cfg, now), actions)
        ensures Spaced(cfg, LogOf(cfg, now, actions))
      {
        SpacedWhenWide(cfg, now, actions);
      }
    } else {
      var _ := TooSoon(cfg, now);
    }
  }

  // ---------- every call settles ----------

  function Count(log: seq<Attempt>, k: nat): nat {
    if log == [] then 0 else Count(log[..|log| - 1], k) + if log[|log| - 1].call == k then 1 else 0
  }

  /** The attempts of one call are numbered 0, 1, 2, ... without a gap. */
  lemma {:induction false} CountIsNumber(cfg: Config, log: seq<Attempt>, k: nat)
    requires Chained(cfg, log)
    ensures Count(log, k) <= cfg.retries + 1
    ensures log != [] && log[|log| - 1].call == k ==> Count(log, k) == log[|log| - 1].number + 1
    ensures log != [] && log[|log| - 1].call < k ==> Count(log, k) == 0
    decreases |log|
  {
    if log != [] {
      var n := |log| - 1;
      CountIsNumber(cfg, log[..n], k);
      if n > 0 {
        assert Follows(cfg, log[n - 1], log[n].call, log[n].number, log[n].start);
      }
    }
  }

  lemma AfterLast(cfg: Config, log: seq<Attempt>, i: nat)
    requires Chained(cfg, log) && i < |log| && !Retried(cfg, log[i].number, log[i].reply)
    ensures forall j :: i < j < |log| ==> log[j].call > log[i].call
  {
    forall j | i < j < |log|
      ensures log[j].call > log[i].call
    {
      assert Follows(cfg, log[i], log[i + 1].call, log[i + 1].number, log[i + 1].start);
      if i + 1 < j { Apart(cfg, log, i + 1, j); }
    }
  }

  /** A call makes at most `retries + 1` attempts, and settles with the reply of its last one,
      which was not a rate limit it could still retry. */
  lemma SettlesWithItsLastReply(cfg: Config, now: nat, actions: seq<Action>, k: nat)
    requires CanRun(cfg, Initial(cfg, now), actions)
    ensures Count(LogOf(cfg, now, actions), k) <= cfg.retries + 1
    ensures var s := Run(cfg, Initial(cfg, now), actions);
            k < |s.calls| && s.calls[k].Settled? ==>
              exists i :: 0 <= i < |s.log| && s.log[i].call == k && s.log[i].reply == s.calls[k].reply
                && (forall j :: i < j < |s.log| ==> s.log[j].call > k)
                && (s.log[i].reply.RateLimited? ==> s.log[i].number == cfg.retries)
  {
    hide CanRun, Run, Follows;
    Reachable(cfg, now, actions);
    var s := Run(cfg, Initial(cfg, now), actions);
    CountIsNumber(cfg, s.log, k);
    if k < |s.calls| && s.calls[k].Settled? {
      hide At, SettledBy, Chained;
      var h: nat :| At(cfg, s, h);
      SettledAt(cfg, s, h, k);
      LastOf(cfg, s.log, k, s.calls[k].reply);
    }
  }

  lemma SettledAt(cfg: Config, s: State, h: nat, k: nat)
    requires At(cfg, s, h) && k < |s.calls| && s.calls[k].Settled?
    ensures SettledBy(cfg, s.log, k, s.calls[k].reply)
  {
    hide SettledBy, Next;
  }

  lemma LastOf(cfg: Config, log: seq<Attempt>, k: nat, reply: Reply)
    requires Chained(cfg, log) && SettledBy(cfg, log, k, reply)
    ensures exists i :: 0 <= i < |log| && log[i].call == k && log[i].reply == reply
              && (forall j :: i < j < |log| ==> log[j].call > k)
              && (log[i].reply.RateLimited? ==> log[i].number == cfg.retries)
  {
    hide Follows;
    var i :| 0 <= i < |log| && log[i].call == k && log[i].reply == reply && !Retried(cfg, log[i].number, reply);
    AfterLast(cfg, log, i);
  }

  lemma SettledBefore(cfg: Config, s: State, h: nat, i: nat)
    requires Inv(cfg, s) && At(cfg, s, h) && i < |s.log|
    ensures s.log[i].call <= h && (!Retried(cfg, s.log[i].number, s.log[i].reply) ==> s.log[i].call < h)
    ensures s.log[i].call < |s.calls|
  {
    hide SettledBy;
    var n := |s.log| - 1;
    if i < n {
      Apart(cfg, s.log, i, n);
      if !Retried(cfg, s.log[i].number, s.log[i].reply) {
        AfterLast(cfg, s.log, i);
      }
    }
  }

  /** What the reply to an attempt means, in every run: a rate limit that may still be retried leaves the
      call unsettled, and the next attempt anywhere is its own, after the interval and after what the
      server asked for; with any other reply the call is settled, and makes no further attempt. */
  lemma OnlyRateLimitsRepeat(cfg: Config, now: nat, actions: seq<Action>, i: nat)
    requires CanRun(cfg, Initial(cfg, now), actions) && i < |LogOf(cfg, now, actions)|
    ensures var s := Run(cfg, Initial(cfg, now), actions);
            var a := s.log[i];
            && a.call < |s.calls|
            && if a.reply.RateLimited? && a.number < cfg.retries then
                 && (i + 1 == |s.log| ==> !s.calls[a.call].Settled?)
                 && (i + 1 < |s.log| ==>
                       var b := s.log[i + 1];
                       && b.call == a.call && b.number == a.number + 1 && a.finish + a.after <= b.start
                       && (a.reply.retryAfter.Some? ==> a.finish + a.reply.retryAfter.value <= b.start))
               else
                 && s.calls[a.call] == Settled(a.reply)
                 && forall j :: i < j < |s.log| ==> s.log[j].call > a.call
  {
    hide CanRun, Run, At, SettledBy;
    Reachable(cfg, now, actions);
    var s := Run(cfg, Initial(cfg, now), actions);
    var h: nat :| At(cfg, s, h);
    SettledBefore(cfg, s, h, i);
    var a := s.log[i];
    if Retried(cfg, a.number, a.reply) {
      if i + 1 < |s.log| {
        assert Follows(cfg, a, s.log[i + 1].call, s.log[i + 1].number, s.log[i + 1].start);
      } else {
        RetriedIsOpen(cfg, s, h);
      }
    } else {
      AfterLast(cfg, s.log, i);
      SettledWith(cfg, s, h, i);
    }
  }

  lemma RetriedIsOpen(cfg: Config, s: State, h: nat)
    requires Inv(cfg, s) && At(cfg, s, h) && s.log != []
    requires var a := s.log[|s.log| - 1]; a.call < |s.calls| && Retried(cfg, a.number, a.reply)
    ensures !s.calls[s.log[|s.log| - 1].call].Settled?
  {
    hide SettledBy;
  }

  lemma SettledWith(cfg: Config, s: State, h: nat, i: nat)
    requires Inv(cfg, s) && At(cfg, s, h) && i < |s.log| && s.log[i].call < h
    requires !Retried(cfg, s.log[i].number, s.log[i].reply)
    ensures s.calls[s.log[i].call] == Settled(s.log[i].reply)
  {
    hide Chained, Follows;
    var k := s.log[i].call;
    var reply := s.calls[k].reply;
    var j :| 0 <= j < |s.log| && s.log[j].call == k && s.log[j].reply == reply && !Retried(cfg, s.log[j].number, reply);
    AfterLast(cfg, s.log, i);
    AfterLast(cfg, s.log, j);
  }

  /** Twice the interval, but no less than the minimum, and above all no more than the maximum. */
  predicate Doubled(cfg: Config, before: nat, after: nat) {
    || (after == cfg.maxInterval && (after <= 2 * before || after <= cfg.minInterval))
    || (after <= cfg.maxInterval && 2 * before <= after && cfg.minInterval <= after
        && (after == 2 * before || after == cfg.minInterval))
  }

  /** What one reply changes: the call's next state, exactly the wait the server asked for where that is
      longer than the interval, and the interval itself. */
  lemma ReplyIs(cfg: Config, s: State, k: nat, reply: Reply)
    requires Enabled(s, Replied(k, reply))
    ensures var s', n := Apply(cfg, s, Replied(k, reply)), s.calls[k].attempt;
            && s' == s.(interval := s'.interval, calls := s.calls[k := s'.calls[k]],
                        log := s.log + [Attempt(k, n, s.last, s.now, reply, s'.interval)])
            && match reply
               case Success => s'.calls[k] == Settled(Success) && 9 * s.interval < 10 * s'.interval + 10
                               && (s'.interval > cfg.minInterval ==> 10 * s'.interval <= 9 * s.interval)
                               && s'.interval >= cfg.minInterval
               case OtherError => s'.calls[k] == Settled(OtherError) && s'.interval == s.interval
               case RateLimited(None) =>
                 if n >= cfg.retries then s'.calls[k] == Settled(reply) && s'.interval == s.interval
                 else s'.calls[k] == Backoff(n, s.now + s'.interval) && Doubled(cfg, s.interval, s'.interval)
               case RateLimited(Some(wait)) =>
                 if n >= cfg.retries then s'.calls[k] == Settled(reply) && s'.interval == s.interval
                 else s'.calls[k] == Backoff(n, s.now + if wait > s'.interval then wait else s'.interval)
                      && Doubled(cfg, s.interval, s'.interval)
  {
  }

  /** An attempt waits for the interval since the last one started, and no longer. */
  lemma PauseIs(cfg: Config, s: State, a: Action)
    requires Enabled(s, a) && (a.Begin? || a.Wake?)
    ensures var s' := Apply(cfg, s, a);
            && s'.calls[a.call].Pausing? && s' == s.(calls := s.calls[a.call := s'.calls[a.call]])
            && s'.calls[a.call].attempt == (if a.Begin? then 0 else s.calls[a.call].attempt + 1)
            && var end := s'.calls[a.call].end;
               end >= s.now && end >= s.last + s.interval && (end == s.now || end == s.last + s.interval)
  {
  }

  function Weight(cfg: Config, call: Call): int {
    match call
    case Waiting => 3 * cfg.retries + 3
    case Pausing(n, _) => 3 * (cfg.retries - n) + 2
    case Working(n) => 3 * (cfg.retries - n) + 1
    case Backoff(n, _) => 3 * (cfg.retries - n)
    case Settled(_) => 0
  }

  function Measure(cfg: Config, calls: seq<Call>): int {
    if calls == [] then 0 else Weight(cfg, calls[0]) + Measure(cfg, calls[1..])
  }

  lemma {:induction false} MeasureUpdate(cfg: Config, calls: seq<Call>, k: nat, call: Call)
    requires k < |calls|
    ensures Measure(cfg, calls[k := call]) == Measure(cfg, calls) - Weight(cfg, calls[k]) + Weight(cfg, call)
    decreases |calls|
  {
    if k == 0 {
      assert calls[0 := call][1..] == calls[1..];
    } else {
      assert calls[k := call][1..] == calls[1..][k - 1 := call];
      MeasureUpdate(cfg, calls[1..], k - 1, call);
    }
  }

  predicate Moves(a: Action) { !a.Advance? && !a.Submit? }

  function MovesIn(actions: seq<Action>): nat {
    if actions == [] then 0 else (if Moves(actions[0]) then 1 else 0) + MovesIn(actions[1..])
  }

  lemma MoveLowersMeasure(cfg: Config, s: State, a: Action)
    requires Inv(cfg, s) && Enabled(s, a) && Moves(a)
    ensures Measure(cfg, Apply(cfg, s, a).calls) < Measure(cfg, s.calls)
  {
    var s' := Apply(cfg, s, a);
    var h: nat :| At(cfg, s, h);
    assert a.call == h;
    MeasureUpdate(cfg, s.calls, h, s'.calls[h]);
  }

  /** Once no more calls join, every move of the queue uses up some of its measure. */
  lemma {:induction false} MovesAreBounded(cfg: Config, s: State, actions: seq<Action>)
    requires Inv(cfg, s) && CanRun(cfg, s, actions)
    requires forall i :: 0 <= i < |actions| ==> !actions[i].Submit?
    ensures MovesIn(actions) + Measure(cfg, Run(cfg, s, actions).calls) <= Measure(cfg, s.calls)
    decreases |actions|
  {
    if actions != [] {
      var a := actions[0];
      if Moves(a) {
        MoveLowersMeasure(cfg, s, a);
      }
      StepKeepsInv(cfg, s, a);
      MovesAreBounded(cfg, Apply(cfg, s, a), actions[1..]);
    }
  }

  /** While a call is unsettled the queue can move, after a finite wait, whatever became of the
      calls before it: nothing waits for anything but its predecessor and the clock. */
  lemma NeverStuck(cfg: Config, now: nat, actions: seq<Action>) returns (ms: nat, a: Action)
    requires CanRun(cfg, Initial(cfg, now), actions)
    requires exists k ::
        0 <= k < |Run(cfg, Initial(cfg, now), actions).calls| && !Run(cfg, Initial(cfg, now), actions).calls[k].Settled?
    ensures Moves(a) && Enabled(Apply(cfg, Run(cfg, Initial(cfg, now), actions), Advance(ms)), a)
  {
    Reachable(cfg, now, actions);
    var s := Run(cfg, Initial(cfg, now), actions);
    var h: nat :| At(cfg, s, h);
    match s.calls[h]
    case Waiting => ms, a := 0, Begin(h);
    case Pausing(_, end) => ms, a := Max(0, end - s.now), Start(h);
    case Working(_) => ms, a := 0, Replied(h, Success);
    case Backoff(_, end) => ms, a := Max(0, end - s.now), Wake(h);
  }

  /** A call queued while call `k` is under way cannot make an attempt before `k` settles.  Had a
      nested call been queued, it and its caller would have waited for each other for ever. */
  lemma {:induction false} QueuedBehindCaller(cfg: Config, s: State, k: nat, m: nat, actions: seq<Action>)
    requires Inv(cfg, s) && CanRun(cfg, s, actions)
    requires k < m < |s.calls| && s.calls[k].Working? && s.calls[m].Waiting?
    requires forall i :: 0 <= i < |actions| ==> !(actions[i].Replied? && actions[i].call == k)
    ensures var t := Run(cfg, s, actions); m < |t.calls| && t.calls[k].Working? && t.calls[m].Waiting? && t.log == s.log
    decreases |actions|
  {
    if actions != [] {
      var h: nat :| At(cfg, s, h);
      StepKeepsInv(cfg, s, actions[0]);
      QueuedBehindCaller(cfg, Apply(cfg, s, actions[0]), k, m, actions[1..]);
    }
  }
}
