/**
 From stored readings and device assignments to the energy facts of a shop: which readings may count
 for a measurement point, and the completeness ratio of each point and of the shop.
 */
module BillingEnergyQuery {
  import opened Common
  import opened BillingEnergy

  const PROFILE_VERSION := 1
  const DIGEST_LENGTH := 32
  const MAX_INT64 := 0x7fff_ffff_ffff_ffff

  datatype Period = Period(start: int, cutoff: int)

  datatype Assignment = Assignment(device: nat, interval: Interval)

  datatype Candidate = Candidate(device: nat, boot: int, sequence: int, start: int, end: int, energyKwh: Option<real>,
                                 coverage: Option<int>, protocol: int, recordedAt: int,
                                 provenance: bool, conflict: bool, digestLength: nat)

  /** Everything stored about one measurement point. */
  datatype PointInput = PointInput(assignments: seq<Assignment>, candidates: seq<Candidate>)

  datatype Key = Key(device: nat, boot: int, sequence: int)

  datatype Judgement = Accept(item: Observed) | Refuse(warning: Warning)

  // ----- One identity's readings -----

  predicate Profiled(c: Candidate) { c.coverage == Some(PROFILE_VERSION) && c.protocol == PROFILE_VERSION }

  function KeyOf(c: Candidate): Key { Key(c.device, c.boot, c.sequence) }

  function Group(candidates: seq<Candidate>, key: Key): seq<Candidate> {
    if candidates == [] then []
    else
      var before, c := candidates[..|candidates| - 1], Last(candidates);
      Group(before, key) + if Profiled(c) && KeyOf(c) == key then [c] else []
  }

  ghost function Keys(candidates: seq<Candidate>): set<Key> {
    set c | c in candidates && Profiled(c) :: KeyOf(c)
  }

  predicate Agrees(group: seq<Candidate>) {
    && group != []
    && forall c <- group ::
         c.start == group[0].start && c.end == group[0].end && c.energyKwh == group[0].energyKwh
  }

  function ParseEnergyMicros(kwh: Option<real>): Option<int> {
    match kwh
    case None => None
    case Some(v) =>
      var scaled := v * 1000000.0;
      if v < 0.0 || scaled.Floor as real != scaled || scaled.Floor > MAX_INT64 then None else Some(scaled.Floor)
  }

  predicate Contains(a: Assignment, c: Candidate) {
    a.interval.start <= c.start && c.end <= a.interval.end
  }

  function Covering(assignments: seq<Assignment>, c: Candidate): nat {
    if assignments == [] then 0
    else Covering(assignments[..|assignments| - 1], c) + if Contains(Last(assignments), c) then 1 else 0
  }

  function CoveringByDevice(assignments: seq<Assignment>, c: Candidate): nat {
    if assignments == [] then 0
    else CoveringByDevice(assignments[..|assignments| - 1], c) +
         if Contains(Last(assignments), c) && Last(assignments).device == c.device then 1 else 0
  }

  /**
   A reading counts only if it is unambiguous, proven, inside the period and inside exactly one assignment, of its
   device.
   */
  function JudgeGroup(group: seq<Candidate>, assignments: seq<Assignment>, period: Period): (j: Judgement)
    ensures j.Accept? ==>
              && Agrees(group) && j.item.span == Interval(group[0].start, group[0].end)
              && Covering(assignments, group[0]) == 1
    ensures j.Accept? ==> Usable(j.item) && period.start <= j.item.span.start && j.item.span.end <= period.cutoff
    ensures j.Refuse? ==> j.warning !in {PartialMonitoringData, NoExpectedMonitoringWindow, OverlappingEvidence}
  {
    if !Agrees(group) || group[0].conflict then Refuse(ConflictingTelemetry)
    else
      var c := group[0];
      if !c.provenance || c.digestLength != DIGEST_LENGTH then Refuse(LegacyEvidence)
      else if c.start >= c.end || c.start < period.start || c.end > period.cutoff || c.recordedAt != c.start
      then Refuse(LegacyEvidence)
      else match ParseEnergyMicros(c.energyKwh)
        case None => Refuse(LegacyEvidence)
        case Some(micros) =>
          if Covering(assignments, c) == 1 && CoveringByDevice(assignments, c) == 1
          then Accept(Observed(Interval(c.start, c.end), micros))
          else if Covering(assignments, c) > 1 then Refuse(AmbiguousAssignment)
          else Refuse(UnattributableEvidence)
  }

  ghost function Accepted(candidates: seq<Candidate>, assignments: seq<Assignment>, period: Period): set<Observed> {
    set k | k in Keys(candidates) && JudgeGroup(Group(candidates, k), assignments, period).Accept?
      :: JudgeGroup(Group(candidates, k), assignments, period).item
  }

  ghost function Refused(candidates: seq<Candidate>, assignments: seq<Assignment>, period: Period): set<Warning> {
    (set k | k in Keys(candidates) && JudgeGroup(Group(candidates, k), assignments, period).Refuse?
       :: JudgeGroup(Group(candidates, k), assignments, period).warning)
    + (if exists c <- candidates :: !Profiled(c) then {LegacyEvidence} else {})
  }

  // ----- Evaluating one point -----

  function CanonicalCandidate(group: seq<Candidate>): Option<Candidate> {
    if Agrees(group) then Some(group[0]) else None
  }

  method CountCovering(assignments: seq<Assignment>, c: Candidate) returns (coverage: nat, deviceCoverage: nat)
    ensures coverage == Covering(assignments, c) && deviceCoverage == CoveringByDevice(assignments, c)
  {
    coverage, deviceCoverage := 0, 0;
    for i := 0 to |assignments|
      invariant coverage == Covering(assignments[..i], c) && deviceCoverage == CoveringByDevice(assignments[..i], c)
    {
      assert assignments[..i + 1][..i] == assignments[..i];
      if assignments[i].interval.start <= c.start && c.end <= assignments[i].interval.end {
        coverage := coverage + 1;
        if assignments[i].device == c.device {
          deviceCoverage := deviceCoverage + 1;
        }
      }
    }
    assert assignments[..|assignments|] == assignments;
  }

  method EvaluateGroup(group: seq<Candidate>, assignments: seq<Assignment>, period: Period) returns (j: Judgement)
    ensures j == JudgeGroup(group, assignments, period)
  {
    var canonical := CanonicalCandidate(group);
    if canonical.None? {
      return Refuse(ConflictingTelemetry);
    }
    var c := canonical.value;
    if c.conflict {
      return Refuse(ConflictingTelemetry);
    }
    if !c.provenance || c.digestLength != DIGEST_LENGTH {
      return Refuse(LegacyEvidence);
    }
    if c.start >= c.end || c.start < period.start || c.end > period.cutoff || c.recordedAt != c.start {
      return Refuse(LegacyEvidence);
    }
    var energy := ParseEnergyMicros(c.energyKwh);
    if energy.None? {
      return Refuse(LegacyEvidence);
    }
    var coverage, deviceCoverage := CountCovering(assignments, c);
    if coverage != 1 || deviceCoverage != 1 {
      if coverage > 1 {
        return Refuse(AmbiguousAssignment);
      }
      return Refuse(UnattributableEvidence);
    }
    return Accept(Observed(Interval(c.start, c.end), energy.value));
  }

  lemma GroupStep(candidates: seq<Candidate>, i: nat)
    requires i < |candidates|
    ensures var c := candidates[i];
            && Keys(candidates[..i + 1]) == Keys(candidates[..i]) + (if Profiled(c) then {KeyOf(c)} else {})
            && forall k ::
                 Group(candidates[..i + 1], k) == Group(candidates[..i], k) + if Profiled(c) && KeyOf(c) == k then [c]
                                                                              else []
  {
    var c := candidates[i];
    assert candidates[..i + 1] == candidates[..i] + [c] && candidates[..i + 1][..i] == candidates[..i];
    assert forall x :: x in candidates[..i + 1] <==> x in candidates[..i] || x == c;
  }

  method GroupCandidates(candidates: seq<Candidate>) returns (groups: map<Key, seq<Candidate>>, legacy: bool)
    ensures groups.Keys == Keys(candidates) && forall k <- groups :: groups[k] == Group(candidates, k)
    ensures legacy <==> exists c <- candidates :: !Profiled(c)
  {
    hide Keys, Group, Profiled;
    groups, legacy := map[], false;
    assert candidates[..0] == [];
    NoGroups();
    for i := 0 to |candidates|
      invariant groups.Keys == Keys(candidates[..i])
      invariant forall k :: Group(candidates[..i], k) == if k in groups then groups[k] else []
      invariant legacy <==> exists c <- candidates[..i] :: !Profiled(c)
    {
      var c := candidates[i];
      GroupStep(candidates, i);
      assert forall x :: x in candidates[..i + 1] <==> x in candidates[..i] || x == c;
      if Profiled(c) {
        var key := KeyOf(c);
        groups := groups[key := (if key in groups then groups[key] else []) + [c]];
      } else {
        legacy := true;
      }
    }
    assert candidates[..|candidates|] == candidates;
  }

  lemma NoGroups()
    ensures Keys([]) == {} && forall k :: Group([], k) == []
  {
  }

  /** Every group is visited once, in any order. */
  method JudgeGroups(groups: map<Key, seq<Candidate>>, assignments: seq<Assignment>,
      period: Period) returns (observed: seq<Observed>, warnings: set<Warning>)
    ensures forall x :: x in observed <==> exists k <- groups :: JudgeGroup(groups[k], assignments, period) == Accept(x)
    ensures forall w :: w in warnings <==> exists k <- groups :: JudgeGroup(groups[k], assignments, period) == Refuse(w)
  {
    hide JudgeGroup;
    observed, warnings := [], {};
    ghost var visited: set<Key> := {};
    var rest := groups.Keys;
    while rest != {}
      invariant rest <= groups.Keys && visited == groups.Keys - rest
      invariant forall x ::
                  x in observed <==> exists k <- visited :: JudgeGroup(groups[k], assignments, period) == Accept(x)
      invariant forall w ::
                  w in warnings <==> exists k <- visited :: JudgeGroup(groups[k], assignments, period) == Refuse(w)
      decreases rest
    {
      var k :| k in rest;
      rest := rest - {k};
      visited := visited + {k};
      var j := EvaluateGroup(groups[k], assignments, period);
      match j
      case Accept(item) => observed := observed + [item];
      case Refuse(w) => warnings := warnings + {w};
    }
  }

  lemma JudgementsOfGroups(candidates: seq<Candidate>, groups: map<Key, seq<Candidate>>, assignments: seq<Assignment>,
      period: Period)
    requires groups.Keys == Keys(candidates) && forall k <- groups :: groups[k] == Group(candidates, k)
    ensures forall x ::
              x in Accepted(candidates, assignments, period) <==>
              (exists k <- groups :: JudgeGroup(groups[k], assignments, period) == Accept(x))
    ensures forall w ::
              w in Refused(candidates, assignments, period) <==>
              || (w == LegacyEvidence && exists c <- candidates :: !Profiled(c))
              || (exists k <- groups :: JudgeGroup(groups[k], assignments, period) == Refuse(w))
  {
    hide JudgeGroup, Group;
  }

  /** The facts depend only on the set of accepted readings; every refusal is reported once, by kind. */
  method EvaluatePointCandidates(candidates: seq<Candidate>, assignments: seq<Assignment>,
      period: Period) returns (facts: Facts, warnings: set<Warning>)
    ensures var items := Isolated(Accepted(candidates, assignments, period));
            && facts.energyMicros == (if items == {} then None else Some(TotalMicros(items)))
            && facts.duration == |Observes(items, period.start, period.cutoff)|
    ensures PartialMonitoringData !in warnings && NoExpectedMonitoringWindow !in warnings
    ensures warnings == Refused(candidates, assignments, period) +
              if Isolated(Accepted(candidates, assignments, period)) == Accepted(candidates, assignments, period)
              then {} else {OverlappingEvidence}
  {
    hide Keys, Group, JudgeGroup, Accepted, Refused, Isolated, Observes, Clipped;
    var groups, legacy := GroupCandidates(candidates);
    var observed;
    observed, warnings := JudgeGroups(groups, assignments, period);
    if legacy {
      warnings := warnings + {LegacyEvidence};
    }
    JudgementsOfGroups(candidates, groups, assignments, period);
    assert warnings == Refused(candidates, assignments, period);
    RefusedKinds(candidates, assignments, period);
    AcceptedFit(candidates, assignments, period);
    ClippingKeeps(observed, Accepted(candidates, assignments, period), period);
    var overlaps;
    facts, overlaps := EvaluateObserved(observed, period.start, period.cutoff);
    if overlaps != [] {
      assert overlaps[0] in overlaps;
      warnings := warnings + {overlaps[0]};
    }
  }

  lemma RefusedKinds(candidates: seq<Candidate>, assignments: seq<Assignment>, period: Period)
    ensures forall w <- Refused(candidates, assignments, period) ::
              w !in {PartialMonitoringData, NoExpectedMonitoringWindow, OverlappingEvidence}
  {
    hide JudgeGroup, Group;
  }

  lemma AcceptedFit(candidates: seq<Candidate>, assignments: seq<Assignment>, period: Period)
    ensures forall x <- Accepted(candidates, assignments, period) ::
              Usable(x) && period.start <= x.span.start && x.span.end <= period.cutoff
  {
    hide JudgeGroup, Group;
  }

  lemma ClippingKeeps(observed: seq<Observed>, accepted: set<Observed>, period: Period)
    requires forall x :: x in observed <==> x in accepted
    requires forall x <- accepted :: Usable(x) && period.start <= x.span.start && x.span.end <= period.cutoff
    ensures Clipped(observed, period.start, period.cutoff) == accepted
  {
    forall x <- accepted ensures Clip(x, period.start, period.cutoff) == x { }
  }

  // ----- What is observed was expected -----

  function Spans(assignments: seq<Assignment>): seq<Interval> {
    seq(|assignments|, i requires 0 <= i < |assignments| => assignments[i].interval)
  }

  lemma {:induction false} CoveredBySome(assignments: seq<Assignment>, c: Candidate)
    requires Covering(assignments, c) > 0
    ensures exists a <- assignments :: Contains(a, c)
  {
    if Contains(Last(assignments), c) {
      assert Last(assignments) in assignments;
    } else {
      CoveredBySome(assignments[..|assignments| - 1], c);
    }
  }

  /** Accepted readings lie inside assignments, so no point is observed longer than it is expected. */
  lemma ObservedWithinExpected(candidates: seq<Candidate>, assignments: seq<Assignment>, period: Period)
    ensures var items := Isolated(Accepted(candidates, assignments, period));
            && Observes(items, period.start, period.cutoff) <= Instants(Spans(assignments), period.start, period.cutoff)
            && |Observes(items, period.start, period.cutoff)| <=
               |Instants(Spans(assignments), period.start, period.cutoff)|
  {
    hide JudgeGroup, Group, Covering;
    var items := Isolated(Accepted(candidates, assignments, period));
    var observed, expected := Observes(items, period.start, period.cutoff), Instants(Spans(assignments), period.start,
                                                                                     period.cutoff);
    forall t <- observed ensures t in expected {
      var x :| x in items && Has(x.span, t);
      var k :| k in Keys(candidates) && JudgeGroup(Group(candidates, k), assignments, period) == Accept(x);
      var c := Group(candidates, k)[0];
      CoveredBySome(assignments, c);
      var i :| 0 <= i < |assignments| && Contains(assignments[i], c);
      assert Spans(assignments)[i] in Spans(assignments) && Has(Spans(assignments)[i], t);
    }
    SubsetSize(observed, expected);
  }
}
