/**
 What the reported coverage means: the state, by the first interval that stops the chain, and the energy, by the kWh of
 the intervals in it.
 */
module CoverageStates {
  import opened Common
  import opened Coverage
  import opened CoverageOrder

  // ----- The state -----

  /** Another interval of the device with the same boot, but not the next sequence. */
  predicate SequenceGap(chain: seq<Evidence>, x: Evidence) {
    && chain != [] && x.device == Last(chain).device && x.boot == Last(chain).boot
    && x.sequence != Last(chain).sequence + 1
  }

  /** The device went back to an earlier boot, or a later boot does not begin at sequence 0. */
  predicate BootDisorder(chain: seq<Evidence>, x: Evidence) {
    && chain != [] && x.device == Last(chain).device
    && (x.boot < Last(chain).boot || (x.boot > Last(chain).boot && x.sequence != 0))
  }

  /** Each reported state, by the interval that stopped the chain; a barrier reports its own state. */
  ghost predicate StoppedAs(periodStart: int, snapshot: int, chain: seq<Evidence>, x: Evidence, state: State) {
    var frontier := if chain == [] then periodStart else Last(chain).end;
    var timely := periodStart <= x.start && x.end <= snapshot;
    var next := timely && x.barrier.None? && x.start == frontier;
    && (!timely ==> state == Unknown)
    && (timely && x.barrier.Some? ==> state == x.barrier.value)
    && (timely && x.barrier.None? ==>
          && state != Unknown && state != Proven
          && (state == Gap <==>
                || x.start > frontier
                || (next && !x.conflict && x.attributable
                    && (SequenceGap(chain, x) || (x.end <= x.start && !BootDisorder(chain, x)))))
          && (state == Unattributable <==> next && !x.conflict && !x.attributable)
          && (state == Ambiguous <==>
                x.start < frontier || (next && (x.conflict || (x.attributable && BootDisorder(chain, x))))))
  }

  lemma JudgeStops(periodStart: int, snapshot: int, chain: seq<Evidence>, x: Evidence)
    requires !Skippable(periodStart, x) && !Extends(periodStart, snapshot, chain, x)
    requires periodStart <= Frontier(periodStart, chain)
    ensures var v := Judge(periodStart, snapshot, chain, x);
            v.Stop? && StoppedAs(periodStart, snapshot, chain, x, v.state)
  {
    TakesExactlyExtensions(periodStart, snapshot, chain, x);
  }

  /**
   For every evidence list: if every relevant interval extends the chain, the state is Proven, or Unknown without any;
   otherwise the first interval that does not extend it decides, as described.
   */
  lemma StateMeans(periodStart: int, snapshot: int, evidence: seq<Evidence>)
    ensures var s := Relevant(periodStart, StableSort(evidence));
            var n := ProvenLength(periodStart, snapshot, s, 0);
            var state := Proved(periodStart, snapshot, evidence).1;
            if n == |s| then state == (if n == 0 then Unknown else Proven)
            else StoppedAs(periodStart, snapshot, s[..n], s[n], state)
  {
    hide Scan, StableSort, Relevant, Chain, Ordered, Extends, ProvenLength, Judge, StoppedAs, Frontier;
    var sorted := StableSort(evidence);
    var s := Relevant(periodStart, sorted);
    StableSortSorts(evidence);
    RelevantOrdered(periodStart, sorted);
    EmptyChain(periodStart);
    assert s[..0] == [] && s[0..] == s;
    ProvenLengthIsChain(periodStart, snapshot, s, 0);
    var n := ProvenLength(periodStart, snapshot, s, 0);
    StateOfRelevant(periodStart, snapshot, sorted, [], Unknown);
    ScanTakesPrefix(periodStart, snapshot, s, 0, n, Unknown);
    FrontierNotEarlier(periodStart, s[..n]);
    var state := if 0 < n then Proven else Unknown;
    if n < |s| {
      JudgeStops(periodStart, snapshot, s[..n], s[n]);
      ScanStep(periodStart, snapshot, s, n, s[..n], state);
    } else {
      ScanEnds(periodStart, snapshot, s, s[..n], state);
    }
  }

  /** What is passed over and what extends a chain, said of the interval itself. */
  lemma JudgementsMean(periodStart: int, snapshot: int, chain: seq<Evidence>, x: Evidence)
    requires periodStart <= Frontier(periodStart, chain)
    ensures var v := Judge(periodStart, snapshot, chain, x);
            && (v.Skip? <==> (x.barrier.None? && x.end <= periodStart) || (x.barrier.Some? && x.start < periodStart))
            && (v.Take? <==>
                  && x.barrier.None? && !x.conflict && x.attributable
                  && x.start == (if chain == [] then periodStart else Last(chain).end) && x.start < x.end <= snapshot
                  && !SequenceGap(chain, x) && !BootDisorder(chain, x))
            && (v.Skip? <==> Skippable(periodStart, x)) && (v.Take? <==> Extends(periodStart, snapshot, chain, x))
  {
  }

  /** A lone interval that starts after the period began leaves a gap. */
  lemma LateIntervalIsGap(periodStart: int, snapshot: int, x: Evidence)
    requires x.barrier.None? && periodStart < x.start && periodStart < x.end <= snapshot
    ensures Proved(periodStart, snapshot, [x]) == ([], Gap)
  {
    assert [x][1..] == [] && StableSort([x][1..]) == [];
    assert StableSort([x]) == [x];
  }

  // ----- The energy -----

  /** Negative energy counts as none. */
  function SumKwh(chain: seq<Evidence>): real {
    if chain == [] then 0.0
    else SumKwh(chain[..|chain| - 1]) + if Last(chain).energyKwh < 0.0 then 0.0 else Last(chain).energyKwh
  }

  lemma CanonicalIsNearest(kwh: real)
    requires kwh >= 0.0
    ensures kwh * 1000000.0 - 0.5 < CanonicalEnergyMicros(kwh) as real <= kwh * 1000000.0 + 0.5
  {
  }

  lemma {:induction false} TotalIsNear(chain: seq<Evidence>)
    ensures var (total, exact) := (TotalMicros(chain) as real, SumKwh(chain) * 1000000.0);
            exact - 0.5 * |chain| as real <= total <= exact + 0.5 * |chain| as real
  {
    if chain != [] {
      TotalIsNear(chain[..|chain| - 1]);
      if Last(chain).energyKwh >= 0.0 { CanonicalIsNearest(Last(chain).energyKwh); }
      hide CanonicalEnergyMicros;
    }
  }

  /** The reported energy is the sum of the kWh in the chain, up to half a millionth for each interval. */
  lemma ReportedEnergyIsSum(periodStart: int, snapshot: int, evidence: seq<Evidence>)
    ensures var (chain, state) := Proved(periodStart, snapshot, evidence);
            var r := Report(periodStart, chain, state);
            && (r.kwh.Some? <==> chain != []) && r.state == state
            && (r.kwh.Some? ==>
                  SumKwh(chain) - 0.0000005 * |chain| as real <= r.kwh.value
                    <= SumKwh(chain) + 0.0000005 * |chain| as real)
  {
    hide Proved, Chain, TotalMicros, SumKwh;
    ReportedEnergyIsAChain(periodStart, snapshot, evidence);
    TotalIsNear(Proved(periodStart, snapshot, evidence).0);
  }
}
