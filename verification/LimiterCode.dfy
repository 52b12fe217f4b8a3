/** The limiter's closure: its variables `interval` and `last`, and the function `run` that the
    promise chain executes for one call after another.

    `s` is the state of LimiterMachine, `run` the actions that led to it; every method keeps
    `Valid`, so LimiterProperties speaks of this code too. */
module LimiterCode {
  import opened Common
  import opened LimiterMachine

  class Limiter {
    const cfg: Config
    var interval: nat
    var last: nat
    var now: nat
    var chain: nat  // how many calls have joined the promise chain
    ghost const born: nat
    ghost var s: State
    ghost var run: seq<Action>

    ghost predicate Valid()
      reads this
    {
      && CanRun(cfg, Initial(cfg, born), run) && Run(cfg, Initial(cfg, born), run) == s
      && s.interval == interval && s.last == last && s.now == now && |s.calls| == chain
    }

    ghost predicate Has(k: nat, call: Call)
      reads this
    {
      Valid() && k < |s.calls| && s.calls[k] == call
    }

    constructor (minIntervalMs: nat, maxIntervalMs: Option<nat>, retries: Option<nat>, now: nat)
      ensures Valid() && s.calls == [] && s.log == []
      ensures cfg.minInterval == minIntervalMs
      ensures cfg.maxInterval == if maxIntervalMs.Some? then maxIntervalMs.value else minIntervalMs * 16
      ensures cfg.retries == if retries.Some? then retries.value else 5
    {
      var options := Config(minIntervalMs, if maxIntervalMs.Some? then maxIntervalMs.value else minIntervalMs * 16,
                            if retries.Some? then retries.value else 5);
      cfg, interval, last, this.now, chain := options, minIntervalMs, 0, now, 0;
      born, s, run := now, Initial(options, now), [];
    }

    ghost method Step(a: Action)
      requires Valid() && Enabled(s, a)
      modifies this`s, this`run
      ensures CanRun(cfg, Initial(cfg, born), run) && Run(cfg, Initial(cfg, born), run) == s
      ensures s == Apply(cfg, old(s), a) && run == old(run) + [a]
    {
      RunAppend(cfg, Initial(cfg, born), run, a);
      s, run := Apply(cfg, s, a), run + [a];
    }

    /** A top-level call joins the chain. */
    method Submit() returns (ghost k: nat)
      requires Valid()
      modifies this`chain, this`s, this`run
      ensures Has(k, Waiting) && s == old(s).(calls := old(s.calls) + [Waiting]) && k == |old(s.calls)|
      ensures old(run) <= run
    {
      k := |s.calls|;
      Step(Action.Submit);
      chain := chain + 1;
    }

    method Tick(ms: nat)
      requires Valid()
      modifies this`now, this`s, this`run
      ensures Valid() && s == old(s).(now := old(s.now) + ms) && old(run) <= run
    {
      Step(Advance(ms));
      now := now + ms;
    }

    /** At least `ms` pass; meanwhile any number of further calls may join the chain. */
    method Sleep(ms: nat)
      requires Valid()
      modifies this`now, this`chain, this`s, this`run
      ensures Valid() && old(run) <= run
      ensures s == old(s).(now := s.now, calls := s.calls) && s.now >= old(s.now) + ms
      ensures old(s.calls) <= s.calls && forall k :: |old(s.calls)| <= k < |s.calls| ==> s.calls[k] == Waiting
    {
      Tick(ms);
      var more := 0;
      more := *;
      for i := 0 to if more < 0 then 0 else more
        invariant Valid() && old(run) <= run
        invariant s == old(s).(now := s.now, calls := s.calls) && s.now >= old(s.now) + ms
        invariant old(s.calls) <= s.calls && forall k :: |old(s.calls)| <= k < |s.calls| ==> s.calls[k] == Waiting
      {
        ghost var k := Submit();
        var late := 0;
        late := *;
        Tick(if late < 0 then 0 else late);
      }
    }

    /** The work itself: it takes some time and ends in some way. */
    method Work() returns (reply: Reply)
      requires Valid()
      modifies this`now, this`chain, this`s, this`run
      ensures Valid() && old(run) <= run
      ensures s == old(s).(now := s.now, calls := s.calls)
      ensures old(s.calls) <= s.calls && forall k :: |old(s.calls)| <= k < |s.calls| ==> s.calls[k] == Waiting
    {
      Sleep(0);
      reply := *;
    }

    /** What performing call `k` leaves of the queue and the log. */
    twostate predicate OnlyCall(k: nat)
      reads this
    {
      && |old(s.calls)| <= |s.calls| && k < |old(s.calls)| && old(s.log) <= s.log && old(run) <= run
      && (forall i :: 0 <= i < |old(s.calls)| && i != k ==> s.calls[i] == old(s.calls[i]))
      && (forall i :: |old(s.calls)| <= i < |s.calls| ==> s.calls[i] == Waiting)
      && forall i :: |old(s.log)| <= i < |s.log| ==> s.log[i].call == k
    }

    /** One execution of the work: pause, start, and take the reply into account. */
    method Try(ghost k: nat, attempt: nat) returns (reply: Reply)
      requires k < |s.calls| && Has(k, Pausing(attempt, Max(s.now, s.last + s.interval)))
      modifies this
      ensures Valid() && OnlyCall(k) && |s.log| == |old(s.log)| + 1
      ensures s.log[|s.log| - 1].reply == reply && s.log[|s.log| - 1].number == attempt
      ensures s.log[|s.log| - 1].start >= old(s.last) + old(s.interval)
      ensures s.calls[k] == if Retried(cfg, attempt, reply)
                            then Backoff(attempt, s.now + Max(interval, ServerWait(reply)))
                            else Settled(reply)
    {
      hide CanRun, Run, Initial;
      var wait := Max(0, last + interval - now);
      if wait > 0 {
        Sleep(wait);
      }
      Step(Start(k));
      last := now;
      reply := Work();
      Step(Replied(k, reply));
      if reply.Success? {
        interval := Max(cfg.minInterval, interval * 9 / 10);
      } else if reply.RateLimited? && attempt < cfg.retries {
        interval := Min(cfg.maxInterval, Max(interval * 2, cfg.minInterval));
      }
    }

    /** `run`: executes the work until it succeeds, fails otherwise, or is out of retries. */
    method Perform(ghost k: nat) returns (reply: Reply)
      requires Has(k, Waiting) && (k == 0 || s.calls[k - 1].Settled?)
      modifies this
      ensures Has(k, Settled(reply)) && OnlyCall(k)
      ensures |old(s.log)| < |s.log| <= |old(s.log)| + cfg.retries + 1
      ensures forall i :: |old(s.log)| <= i < |s.log| - 1 ==> s.log[i].reply.RateLimited?
      ensures s.log[|s.log| - 1].reply == reply
      ensures reply.RateLimited? ==> |s.log| == |old(s.log)| + cfg.retries + 1
    {
      hide CanRun, Run, Initial;
      Step(Begin(k));
      var attempt := 0;
      while true
        invariant Valid() && OnlyCall(k) && attempt <= cfg.retries && |s.log| == |old(s.log)| + attempt
        invariant Has(k, Pausing(attempt, Max(s.now, s.last + s.interval)))
        invariant forall i :: |old(s.log)| <= i < |s.log| ==> s.log[i].reply.RateLimited?
        decreases cfg.retries - attempt
      {
        reply := Try(k, attempt);
        if !(reply.RateLimited? && attempt < cfg.retries) {
          return;
        }
        Sleep(Max(interval, ServerWait(reply)));
        Step(Wake(k));
        attempt := attempt + 1;
      }
    }

    /** The function handed out.  A call made from inside a running work goes straight through; any
        other call joins the chain behind all earlier ones. */
    method Limit(inside: bool) returns (direct: Option<Reply>, ghost k: nat)
      requires Valid()
      modifies this
      ensures Valid() && old(run) <= run && k == |old(s.calls)|
      ensures s.log == old(s.log) && interval == old(interval) && last == old(last) && old(s.calls) <= s.calls
      ensures inside <==> direct.Some?
      ensures !inside ==> s == old(s).(calls := old(s.calls) + [Waiting])
    {
      k := |s.calls|;
      direct := None;
      if inside {
        var reply := Work();
        direct := Some(reply);
      } else {
        k := Submit();
      }
    }

    /** The chain: each call is performed when its predecessor has settled, whatever its reply. */
    method Drain() returns (replies: seq<Reply>)
      requires Valid() && forall k :: 0 <= k < |s.calls| ==> s.calls[k] == Waiting
      modifies this
      ensures Valid() && old(run) <= run && |replies| == |old(s.calls)| <= |s.calls|
      ensures forall k :: 0 <= k < |replies| ==> s.calls[k] == Settled(replies[k])
    {
      replies := [];
      for k := 0 to chain
        invariant Valid() && old(run) <= run && |replies| == k && |old(s.calls)| <= |s.calls|
        invariant forall i :: 0 <= i < k ==> s.calls[i] == Settled(replies[i])
        invariant forall i :: k <= i < |s.calls| ==> s.calls[i] == Waiting
      {
        var reply := Perform(k);
        replies := replies + [reply];
      }
    }
  }
}
