/** Route selection with its native preference, and the loop that withdraws native candidates the
    execution gate refuses. */
module RouteGate {
  import opened Common

  /** A guard verdict.  `id` is the object's identity. */
  datatype Verdict = Verdict(id: nat, venue: string, netOutput: int, approved: bool, execute: bool, legacyPath: bool)

  datatype Capability = HENAR_NATIVE | EXTERNAL_EXECUTABLE | QUOTE_ONLY

  function CapabilityOf(v: Verdict): Capability {
    if !v.approved then QUOTE_ONLY
    else if v.execute then HENAR_NATIVE
    else if v.legacyPath then EXTERNAL_EXECUTABLE
    else QUOTE_ONLY
  }

  predicate Native(v: Verdict) { CapabilityOf(v) == HENAR_NATIVE }

  predicate Executable(v: Verdict) { CapabilityOf(v) != QUOTE_ONLY }

  predicate Approved(v: Verdict) { v.approved }

  function Filter(vs: seq<Verdict>, keep: Verdict -> bool): (r: seq<Verdict>)
    ensures forall v :: v in r <==> v in vs && keep(v)
    ensures |r| <= |vs|
  {
    if vs == [] then [] else (if keep(vs[0]) then [vs[0]] else []) + Filter(vs[1..], keep)
  }

  /** `reduce` with a strict comparison: the first of the highest net outputs. */
  function Best(vs: seq<Verdict>): (r: Verdict)
    requires vs != []
    ensures r in vs && forall v :: v in vs ==> v.netOutput <= r.netOutput
    ensures exists i :: 0 <= i < |vs| && vs[i] == r && forall j :: 0 <= j < i ==> vs[j].netOutput < r.netOutput
  {
    if |vs| == 1 then vs[0]
    else
      var front := Best(vs[..|vs| - 1]);
      if vs[|vs| - 1].netOutput > front.netOutput then vs[|vs| - 1] else front
  }

  /** How much worse `native` is than `best`, in whole basis points of `best`. */
  function GapBps(best: int, native: int): int
    requires best > 0 && native <= best
  {
    (best - native) * 10000 / best
  }

  function SelectRoute(verdicts: seq<Verdict>, nativePreferenceBps: int): Option<Verdict> {
    var executable := Filter(verdicts, Executable);
    if executable == [] then None
    else
      var best := Best(executable);
      if best.netOutput <= 0 then Some(best)
      else
        var natives := Filter(executable, Native);
        if natives == [] then Some(best)
        else
          var bestNative := Best(natives);
          if bestNative == best then Some(best)
          else if GapBps(best.netOutput, bestNative.netOutput) <= Max(0, nativePreferenceBps) then Some(bestNative)
          else Some(best)
  }

  ghost predicate IsBestOf(best: Verdict, verdicts: seq<Verdict>) {
    best in verdicts && Executable(best) && forall v :: v in verdicts && Executable(v) ==> v.netOutput <= best.netOutput
  }

  /** Nothing is selected exactly when nothing is executable.  A selected route is at least as good
      as every native one, and as good as the best executable one unless it is itself native and
      within the preference of that best one. */
  lemma SelectionIsBest(verdicts: seq<Verdict>, bps: int)
    ensures SelectRoute(verdicts, bps).None? <==> forall v :: v in verdicts ==> !Executable(v)
    ensures var r := SelectRoute(verdicts, bps);
            r.Some? ==>
              && r.value in verdicts && Executable(r.value)
              && (forall v :: v in verdicts && Native(v) ==> v.netOutput <= r.value.netOutput)
              && exists best :: IsBestOf(best, verdicts) &&
                   (best.netOutput == r.value.netOutput
                    || (Native(r.value) && best.netOutput > 0 &&
                        GapBps(best.netOutput, r.value.netOutput) <= Max(0, bps)))
  {
  }

  /** The native route is so little worse that it is preferred, in whole basis points rounded down. */
  predicate Preferred(best: int, native: int, bps: int) {
    best > 0 && (best - native) * 10000 < ((if bps > 0 then bps else 0) + 1) * best
  }

  lemma GapIs(best: int, native: int, bps: int)
    requires best > 0 && native <= best
    ensures GapBps(best, native) <= Max(0, bps) <==> Preferred(best, native, bps)
  {
    var n, q, p := (best - native) * 10000, GapBps(best, native), Max(0, bps);
    assert n == q * best + n % best && 0 <= n % best < best;
    if q <= p {
      Grows(q + 1, p + 1, best);
    } else {
      Grows(p + 1, q, best);
    }
  }

  lemma Grows(x: int, y: int, k: int)
    requires x <= y && k >= 0
    ensures x * k <= y * k
  {
  }

  /** The preference decides: while anything of worth is executable, a native route is selected exactly when
      some native route is preferred to the best, and then it is the best native one. */
  lemma NativeIsSelectedIff(verdicts: seq<Verdict>, bps: int, best: Verdict)
    requires IsBestOf(best, verdicts) && best.netOutput > 0
    ensures var r := SelectRoute(verdicts, bps);
            && r.Some?
            && (Native(r.value) <==>
                exists v :: v in verdicts && Native(v) && Preferred(best.netOutput, v.netOutput, bps))
            && (!Native(r.value) ==> r.value.netOutput == best.netOutput)
            && (Native(r.value) ==> forall v :: v in verdicts && Native(v) ==> v.netOutput <= r.value.netOutput)
  {
    hide *;
    var executable := Filter(verdicts, Executable);
    BestIsIn(best, verdicts);
    var first, natives := Best(executable), Filter(executable, Native);
    SelectIs(verdicts, bps);
    ExecutableNatives(verdicts);
    if natives == [] {
      assert forall v :: v in natives <==> v in executable && Native(v);
    } else {
      var n := Best(natives);
      GapIs(best.netOutput, n.netOutput, bps);
      forall v | v in natives ensures Preferred(best.netOutput, v.netOutput, bps) ==>
                                        Preferred(best.netOutput, n.netOutput, bps) {
        PreferredGrows(best.netOutput, v.netOutput, n.netOutput, bps);
      }
      PreferredItself(best.netOutput, bps);
    }
  }

  lemma BestIsIn(best: Verdict, verdicts: seq<Verdict>)
    requires IsBestOf(best, verdicts)
    ensures best in Filter(verdicts, Executable) && Filter(verdicts, Executable) != []
    ensures Best(Filter(verdicts, Executable)).netOutput == best.netOutput
    ensures Best(Filter(verdicts, Executable)) in verdicts
  {
    assert best in Filter(verdicts, Executable);
  }

  lemma ExecutableNatives(verdicts: seq<Verdict>)
    ensures forall v :: v in Filter(Filter(verdicts, Executable), Native) <==> v in verdicts && Native(v)
  {
  }

  lemma SelectIs(verdicts: seq<Verdict>, bps: int)
    requires Filter(verdicts, Executable) != [] && Best(Filter(verdicts, Executable)).netOutput > 0
    ensures var first, natives := Best(Filter(verdicts, Executable)), Filter(Filter(verdicts, Executable), Native);
            && (natives == [] ==> SelectRoute(verdicts, bps) == Some(first))
            && (natives != [] ==>
                && Best(natives).netOutput <= first.netOutput
                && SelectRoute(verdicts, bps) ==
                     if Best(natives) == first || GapBps(first.netOutput, Best(natives).netOutput) <= Max(0, bps)
                     then Some(Best(natives)) else Some(first))
  {
  }

  lemma NativeIsExecutable()
    ensures forall v :: Native(v) <==> v.approved && v.execute
    ensures forall v :: Executable(v) <==> v.approved && (v.execute || v.legacyPath)
  {
  }

  lemma PreferredGrows(best: int, x: int, y: int, bps: int)
    requires x <= y
    ensures Preferred(best, x, bps) ==> Preferred(best, y, bps)
  {
  }

  lemma PreferredItself(best: int, bps: int)
    requires best > 0
    ensures Preferred(best, best, bps)
  {
    Grows(1, (if bps > 0 then bps else 0) + 1, best);
  }

  // ---------- the gate loop ----------

  datatype GateEntry = GateEntry(verdict: Verdict, passed: bool)

  /** The verdicts not withdrawn so far. */
  function Without(vs: seq<Verdict>, withdrawn: Verdict): (r: seq<Verdict>)
    ensures forall v :: v in r <==> v in vs && v != withdrawn
  {
    Filter(vs, v => v != withdrawn)
  }

  lemma {:induction false} WithdrawalShortens(vs: seq<Verdict>, withdrawn: Verdict)
    requires withdrawn in vs
    ensures |Without(vs, withdrawn)| < |vs|
    decreases |vs|
  {
    if vs[0] != withdrawn {
      WithdrawalShortens(vs[1..], withdrawn);
    }
  }

  /** What the gate has seen: a run of native candidates, all of them refused but perhaps the last. */
  ghost predicate GateLog(log: seq<GateEntry>, gate: Verdict -> bool) {
    && (forall i :: 0 <= i < |log| ==> Native(log[i].verdict) && log[i].passed == gate(log[i].verdict))
    && forall i :: 0 <= i < |log| - 1 ==> !log[i].passed
  }

  ghost predicate Refused(v: Verdict, log: seq<GateEntry>) {
    exists i :: 0 <= i < |log| && log[i].verdict == v && !log[i].passed
  }

  lemma NothingRefused()
    ensures forall v :: !Refused(v, [])
  {
  }

  lemma RefusedExtends(log: seq<GateEntry>, entry: GateEntry)
    ensures forall v :: Refused(v, log + [entry]) <==> Refused(v, log) || (v == entry.verdict && !entry.passed)
  {
    var longer := log + [entry];
    forall v | Refused(v, log) ensures Refused(v, longer) {
      var i :| 0 <= i < |log| && log[i].verdict == v && !log[i].passed;
      assert longer[i] == log[i];
    }
    assert longer[|log|] == entry;
  }

  /** Select, gate, withdraw, select again.  Ends with nothing, with a route that makes no claim to
      be native, or with a native route that passed the gate; everything withdrawn was native and
      refused, and nothing else is missing from the last selection. */
  method SelectThroughGate(verdicts: seq<Verdict>, bps: int, gate: Verdict -> bool)
    returns (selectable: Option<Verdict>, nativeGate: seq<GateEntry>, nativeDemoted: seq<string>,
        ghost candidates: seq<Verdict>)
    ensures selectable == SelectRoute(candidates, bps)
    ensures forall v :: v in candidates <==> v in verdicts && !Refused(v, nativeGate)
    ensures selectable.Some? && Native(selectable.value) ==>
      gate(selectable.value) && nativeGate != [] && nativeGate[|nativeGate| - 1] == GateEntry(selectable.value, true)
    ensures GateLog(nativeGate, gate)
    ensures |nativeDemoted| == |nativeGate| - if selectable.Some? && Native(selectable.value) then 1 else 0
    ensures forall i :: 0 <= i < |nativeDemoted| ==> nativeDemoted[i] == nativeGate[i].verdict.venue
  {
    hide SelectRoute, GapBps, IsBestOf, Refused;
    assert forall v :: !Refused(v, []) by { NothingRefused(); }
    nativeGate, nativeDemoted := [], [];
    var pool := verdicts;
    selectable := SelectRoute(pool, bps);
    SelectionIsBest(pool, bps);
    while selectable.Some? && Native(selectable.value)
      invariant selectable == SelectRoute(pool, bps) && (selectable.Some? ==> selectable.value in pool)
      invariant forall v :: v in pool <==> v in verdicts && !Refused(v, nativeGate)
      invariant GateLog(nativeGate, gate) && (forall i :: 0 <= i < |nativeGate| ==> !nativeGate[i].passed)
      invariant |nativeDemoted| == |nativeGate| && forall i ::
          0 <= i < |nativeGate| ==> nativeDemoted[i] == nativeGate[i].verdict.venue
      decreases |pool|
    {
      var passed := gate(selectable.value);
      RefusedExtends(nativeGate, GateEntry(selectable.value, passed));
      nativeGate := nativeGate + [GateEntry(selectable.value, passed)];
      if passed {
        candidates := pool;
        return;
      }
      nativeDemoted := nativeDemoted + [selectable.value.venue];
      var withdrawn := selectable.value;
      WithdrawalShortens(pool, withdrawn);
      pool := Without(pool, withdrawn);
      selectable := SelectRoute(pool, bps);
      SelectionIsBest(pool, bps);
    }
    candidates := pool;
  }

  // ---------- what the benchmark reports ----------

  /** The best approved price, executable or not. */
  function Observed(verdicts: seq<Verdict>): Option<Verdict> {
    var approved := Filter(verdicts, Approved);
    if approved == [] then None else Some(Best(approved))
  }

  /** The gap field: hundredths of a basis point, as an integer before its division by a hundred. */
  function ReportedGap(observed: Option<Verdict>, selectable: Option<Verdict>): Option<int> {
    if observed.Some? && selectable.Some? && observed.value.netOutput > 0
    then Some(Quot((observed.value.netOutput - selectable.value.netOutput) * 1000000, observed.value.netOutput))
    else None
  }

  lemma QuotOfGap(gap: int, best: int)
    requires gap >= 0 && best > 0
    ensures Quot(gap * 1000000, best) >= 0
  {
    var n := gap * 1000000;
    assert n == (n / best) * best + n % best;
  }

  /** The reported gap is the shortfall in hundredths of a basis point, rounded down, of what was seen. */
  lemma ReportedGapIs(observed: Verdict, selectable: Verdict)
    requires selectable.netOutput <= observed.netOutput
    ensures var gap, best := ReportedGap(Some(observed), Some(selectable)), observed.netOutput;
            && (gap.Some? <==> best > 0)
            && (gap.Some? ==> gap.value * best <= (best - selectable.netOutput) * 1000000 < gap.value * best + best)
  {
    var best := observed.netOutput;
    if best > 0 {
      var n := (best - selectable.netOutput) * 1000000;
      assert n == (n / best) * best + n % best;
    }
  }

  /** The outcome of the loop, for any gate: whatever was left standing beats every native route
      that was not refused, and nothing is left exactly when every executable route was refused. */
  lemma GatedSelection(verdicts: seq<Verdict>, bps: int, candidates: seq<Verdict>, log: seq<GateEntry>)
    requires forall v :: v in candidates <==> v in verdicts && !Refused(v, log)
    ensures var r := SelectRoute(candidates, bps);
            && (r.None? <==> forall v :: v in verdicts && Executable(v) ==> Refused(v, log))
            && (r.Some? ==> forall v ::
                v in verdicts && Native(v) && v.netOutput > r.value.netOutput ==> Refused(v, log))
  {
  }

  /** The best price seen is at least the price of any route left standing, so the reported gap is
      never negative. */
  lemma GapIsNotNegative(verdicts: seq<Verdict>, bps: int, candidates: seq<Verdict>)
    requires forall v :: v in candidates ==> v in verdicts
    ensures var r := SelectRoute(candidates, bps);
            r.Some? ==> Observed(verdicts).Some? && Observed(verdicts).value.netOutput >= r.value.netOutput
    ensures var gap := ReportedGap(Observed(verdicts), SelectRoute(candidates, bps)); gap.Some? ==> gap.value >= 0
  {
    hide SelectRoute, Quot, GapBps, IsBestOf;
    SelectionIsBest(candidates, bps);
    var r := SelectRoute(candidates, bps);
    if r.Some? {
      assert r.value in Filter(verdicts, Approved);
      var observed := Observed(verdicts).value.netOutput;
      if observed > 0 {
        QuotOfGap(observed - r.value.netOutput, observed);
      }
    }
  }

  /** What was seen is the best approved price. */
  lemma ObservedIsBest(verdicts: seq<Verdict>)
    ensures Observed(verdicts).Some? <==> exists v :: v in verdicts && v.approved
    ensures var o := Observed(verdicts);
            o.Some? ==> o.value in verdicts && o.value.approved &&
                        forall v :: v in verdicts && v.approved ==> v.netOutput <= o.value.netOutput
  {
    var approved := Filter(verdicts, Approved);
    forall v | v in verdicts && v.approved ensures v in approved {}
    if approved != [] {
      assert approved[0] in approved;
    }
  }
}
