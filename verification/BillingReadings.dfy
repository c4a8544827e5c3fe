/**
 The billed energy in terms of the stored readings themselves: which reading counts, said of it alone and of what else
 is stored, and the energy of a point as the sum of the kWh of the readings that count and overlap no other.
 */
module BillingReadings {
  import opened Common
  import opened BillingEnergy
  import opened BillingEnergyQuery

  datatype Reading = Reading(span: Interval, kwh: real)

  // ----- Which readings count -----

  /** Both carry the current profile and the identity is the same. */
  predicate SameIdentity(c: Candidate, d: Candidate) {
    && c.coverage == Some(1) && c.protocol == 1 && d.coverage == Some(1) && d.protocol == 1
    && c.device == d.device && c.boot == d.boot && c.sequence == d.sequence
  }

  predicate WholeMicros(kwh: real, m: int) { 0 <= m <= 0x7fff_ffff_ffff_ffff && kwh == m as real / 1000000.0 }

  predicate Inside(c: Candidate, a: Assignment) { a.interval.start <= c.start && c.end <= a.interval.end }

  /** The k-th assignment is of the reading's device, contains it, and no other assignment contains it. */
  ghost predicate OnlyAssignment(assignments: seq<Assignment>, c: Candidate, k: int) {
    && 0 <= k < |assignments| && assignments[k].device == c.device && Inside(c, assignments[k])
    && (forall l :: 0 <= l < |assignments| && l != k ==> !Inside(c, assignments[l]))
  }

  ghost predicate TwoAssignments(assignments: seq<Assignment>, c: Candidate) {
    exists k, l :: 0 <= k < l < |assignments| && Inside(c, assignments[k]) && Inside(c, assignments[l])
  }

  /** The first profiled reading of its identity. */
  ghost predicate First(p: PointInput, i: int) {
    && 0 <= i < |p.candidates| && p.candidates[i].coverage == Some(1) && p.candidates[i].protocol == 1
    && (forall j {:trigger p.candidates[j]} :: 0 <= j < i ==> !SameIdentity(p.candidates[j], p.candidates[i]))
  }

  /** All readings of the identity have one span and one energy, and the first is marked as free of conflict. */
  ghost predicate Agreed(p: PointInput, i: int)
    requires 0 <= i < |p.candidates|
  {
    && (forall j {:trigger p.candidates[j]} ::
          0 <= j < |p.candidates| && SameIdentity(p.candidates[j], p.candidates[i]) ==>
            && p.candidates[j].start == p.candidates[i].start && p.candidates[j].end == p.candidates[i].end
            && p.candidates[j].energyKwh == p.candidates[i].energyKwh)
    && !p.candidates[i].conflict
  }

  /** Proven, inside the period, recorded at its start, and a whole number of millionths of a kWh. */
  ghost predicate Measured(c: Candidate, period: Period) {
    && c.provenance && c.digestLength == 32 && c.recordedAt == c.start
    && period.start <= c.start < c.end <= period.cutoff
    && c.energyKwh.Some? && (exists m :: WholeMicros(c.energyKwh.value, m))
  }

  ghost predicate Counts(p: PointInput, period: Period, i: int) {
    && First(p, i) && Agreed(p, i) && Measured(p.candidates[i], period)
    && (exists k :: OnlyAssignment(p.assignments, p.candidates[i], k))
  }

  /** The readings that count. Two of one span and one energy are one reading. */
  ghost function Counted(p: PointInput, period: Period): set<Reading> {
    set i | 0 <= i < |p.candidates| && Counts(p, period, i) ::
      Reading(Interval(p.candidates[i].start, p.candidates[i].end), p.candidates[i].energyKwh.value)
  }

  /** Those of them that share no instant with another. */
  ghost function Billed(p: PointInput, period: Period): set<Reading> {
    set r | r in Counted(p, period) && forall q <- Counted(p, period) :: q != r ==>
              q.span.end <= r.span.start || r.span.end <= q.span.start
  }

  ghost function SumKwh(readings: set<Reading>): real {
    if readings == {} then 0.0 else var r :| r in readings; r.kwh + SumKwh(readings - {r})
  }

  // ----- The unit of energy -----

  /** The stored decimal is read exactly: as whole millionths of a kWh that fit 64 bits, or not at all. */
  lemma ParseMeans(kwh: Option<real>, m: int)
    ensures ParseEnergyMicros(kwh) == Some(m) <==> kwh.Some? && WholeMicros(kwh.value, m)
  {
    if kwh.Some? && WholeMicros(kwh.value, m) {
      assert kwh.value * 1000000.0 == m as real;
      assert (m as real).Floor == m;
    }
  }

  // ----- Judging a group is judging its first reading -----

  lemma {:induction false} GroupMembers(candidates: seq<Candidate>, key: Key, d: Candidate)
    ensures d in Group(candidates, key) <==> d in candidates && Profiled(d) && KeyOf(d) == key
  {
    if candidates != [] {
      GroupMembers(candidates[..|candidates| - 1], key, d);
      assert candidates == candidates[..|candidates| - 1] + [Last(candidates)];
    }
  }

  lemma {:induction false} GroupFirst(candidates: seq<Candidate>, key: Key) returns (i: nat)
    requires Group(candidates, key) != []
    ensures i < |candidates| && candidates[i] == Group(candidates, key)[0] && Profiled(candidates[i])
    ensures KeyOf(candidates[i]) == key
    ensures forall j :: 0 <= j < i ==> !(Profiled(candidates[j]) && KeyOf(candidates[j]) == key)
  {
    var before := candidates[..|candidates| - 1];
    if Group(before, key) != [] {
      i := GroupFirst(before, key);
    } else {
      i := |candidates| - 1;
      forall j | 0 <= j < i ensures !(Profiled(candidates[j]) && KeyOf(candidates[j]) == key) {
        GroupMembers(before, key, candidates[j]);
        assert before[j] == candidates[j];
      }
    }
  }

  lemma {:induction false} CoveringNone(assignments: seq<Assignment>, c: Candidate)
    ensures Covering(assignments, c) == 0 <==> forall l :: 0 <= l < |assignments| ==> !Inside(c, assignments[l])
    ensures CoveringByDevice(assignments, c) <= Covering(assignments, c)
  {
    if assignments != [] {
      CoveringNone(assignments[..|assignments| - 1], c);
      assert assignments[|assignments| - 1] == Last(assignments);
    }
  }

  lemma {:induction false} CoveringOne(assignments: seq<Assignment>, c: Candidate)
    ensures Covering(assignments, c) == 1 && CoveringByDevice(assignments, c) == 1 <==>
            exists k :: OnlyAssignment(assignments, c, k)
  {
    if assignments != [] {
      var before, n := assignments[..|assignments| - 1], |assignments| - 1;
      CoveringOne(before, c);
      CoveringNone(before, c);
      if Inside(c, assignments[n]) {
        assert OnlyAssignment(assignments, c, n) <==>
               Covering(before, c) == 0 && assignments[n].device == c.device;
      } else {
        forall k ensures OnlyAssignment(assignments, c, k) <==> OnlyAssignment(before, c, k) {}
      }
    }
  }

  lemma {:induction false} CoveringTwo(assignments: seq<Assignment>, c: Candidate)
    ensures Covering(assignments, c) > 1 <==> TwoAssignments(assignments, c)
  {
    if assignments != [] {
      var before, n := assignments[..|assignments| - 1], |assignments| - 1;
      CoveringTwo(before, c);
      CoveringNone(before, c);
      if TwoAssignments(before, c) {
        var k, l :| 0 <= k < l < |before| && Inside(c, before[k]) && Inside(c, before[l]);
        assert Inside(c, assignments[k]) && Inside(c, assignments[l]);
      }
      if Inside(c, assignments[n]) && Covering(before, c) > 0 {
        var k :| 0 <= k < |before| && Inside(c, before[k]);
        assert Inside(c, assignments[k]);
      }
    }
  }

  /** Why an identity is refused, by its first reading and by what else is stored; nothing if it counts. */
  ghost function Cause(p: PointInput, period: Period, i: int): Option<Warning>
    requires First(p, i)
  {
    if !Agreed(p, i) then Some(ConflictingTelemetry)
    else if !Measured(p.candidates[i], period) then Some(LegacyEvidence)
    else if TwoAssignments(p.assignments, p.candidates[i]) then Some(AmbiguousAssignment)
    else if !Counts(p, period, i) then Some(UnattributableEvidence) else None
  }

  ghost predicate JudgedAs(p: PointInput, period: Period, i: int)
    requires First(p, i)
  {
    var j := JudgeGroup(Group(p.candidates, KeyOf(p.candidates[i])), p.assignments, period);
    match Cause(p, period, i)
    case None => j.Accept? && IsReading(p.candidates[i], j.item) && Counts(p, period, i)
    case Some(w) => j == Refuse(w) && !Counts(p, period, i)
  }

  lemma JudgementMeans(p: PointInput, period: Period, i: int)
    requires First(p, i)
    ensures KeyOf(p.candidates[i]) in Keys(p.candidates) && JudgedAs(p, period, i)
  {
    var c := p.candidates[i];
    FirstOfGroup(p, i);
    AgreedMeans(p, i);
    hide Group, Covering, CoveringByDevice, ParseEnergyMicros, Agrees, Agreed, First;
    forall m: int { ParseMeans(c.energyKwh, m); }
    CoveringOne(p.assignments, c);
    CoveringTwo(p.assignments, c);
    if k :| OnlyAssignment(p.assignments, c, k) { OnlyIsNotTwo(p.assignments, c); }
  }

  lemma OnlyIsNotTwo(assignments: seq<Assignment>, c: Candidate)
    requires exists k :: OnlyAssignment(assignments, c, k)
    ensures !TwoAssignments(assignments, c)
  {
  }

  lemma FirstOfGroup(p: PointInput, i: int)
    requires First(p, i)
    ensures var key := KeyOf(p.candidates[i]);
            && key in Keys(p.candidates) && Group(p.candidates, key) != []
            && Group(p.candidates, key)[0] == p.candidates[i]
  {
    var key := KeyOf(p.candidates[i]);
    GroupMembers(p.candidates, key, p.candidates[i]);
    var first := GroupFirst(p.candidates, key);
    assert first < i ==> SameIdentity(p.candidates[first], p.candidates[i]);
  }

  lemma AgreedMeans(p: PointInput, i: int)
    requires First(p, i)
    ensures Agreed(p, i) <==> Agrees(Group(p.candidates, KeyOf(p.candidates[i]))) && !p.candidates[i].conflict
  {
    var c := p.candidates[i];
    var group := Group(p.candidates, KeyOf(c));
    FirstOfGroup(p, i);
    forall j {:trigger p.candidates[j]} | 0 <= j < |p.candidates|
      ensures SameIdentity(p.candidates[j], c) <==> p.candidates[j] in group
    {
      GroupMembers(p.candidates, KeyOf(c), p.candidates[j]);
    }
    forall d <- group ensures d in p.candidates { GroupMembers(p.candidates, KeyOf(c), d); }
    hide Group;
  }

  /** The observation made of a reading: its span, and its energy in millionths. */
  predicate IsReading(c: Candidate, x: Observed) {
    && x.span == Interval(c.start, c.end) && c.energyKwh == Some(x.micros as real / 1000000.0)
  }

  lemma KeyHasFirst(p: PointInput, key: Key) returns (i: nat)
    requires key in Keys(p.candidates)
    ensures First(p, i) && KeyOf(p.candidates[i]) == key
  {
    var c :| c in p.candidates && Profiled(c) && KeyOf(c) == key;
    GroupMembers(p.candidates, key, c);
    i := GroupFirst(p.candidates, key);
  }

  /** Each refusal is reported exactly when some identity, or an unprofiled reading, gives cause for it. */
  lemma RefusalsMean(p: PointInput, period: Period, w: Warning)
    ensures w in Refused(p.candidates, p.assignments, period) <==>
            || (w == LegacyEvidence && exists c <- p.candidates :: c.coverage != Some(1) || c.protocol != 1)
            || (exists i :: First(p, i) && Cause(p, period, i) == Some(w))
  {
    hide JudgeGroup, Group, Cause;
    forall i | First(p, i)
      ensures KeyOf(p.candidates[i]) in Keys(p.candidates) && JudgedAs(p, period, i)
    {
      JudgementMeans(p, period, i);
    }
    forall key | key in Keys(p.candidates)
      ensures exists i :: First(p, i) && KeyOf(p.candidates[i]) == key
    {
      var i := KeyHasFirst(p, key);
    }
  }

  // ----- The energy is the sum -----

  function AsReading(x: Observed): Reading { Reading(x.span, x.micros as real / 1000000.0) }

  ghost function AsReadings(items: set<Observed>): set<Reading> { set x | x in items :: AsReading(x) }

  lemma CountedIsAccepted(p: PointInput, period: Period, i: int) returns (x: Observed)
    requires Counts(p, period, i)
    ensures x in Accepted(p.candidates, p.assignments, period) && IsReading(p.candidates[i], x)
  {
    hide JudgeGroup, Group;
    JudgementMeans(p, period, i);
    x := JudgeGroup(Group(p.candidates, KeyOf(p.candidates[i])), p.assignments, period).item;
  }

  lemma AcceptedIsCounted(p: PointInput, period: Period, x: Observed) returns (i: nat)
    requires x in Accepted(p.candidates, p.assignments, period)
    ensures Counts(p, period, i) && IsReading(p.candidates[i], x)
  {
    hide JudgeGroup, Group, Agreed, Measured;
    var key :| key in Keys(p.candidates) && JudgeGroup(Group(p.candidates, key), p.assignments, period) == Accept(x);
    i := KeyHasFirst(p, key);
    JudgementMeans(p, period, i);
  }

  lemma CountedIsAcceptedSet(p: PointInput, period: Period)
    ensures Counted(p, period) == AsReadings(Accepted(p.candidates, p.assignments, period))
  {
    hide Accepted, OnlyAssignment, Agreed;
    var accepted := Accepted(p.candidates, p.assignments, period);
    forall r | r in Counted(p, period) ensures r in AsReadings(accepted) {
      var i :| 0 <= i < |p.candidates| && Counts(p, period, i)
               && r == Reading(Interval(p.candidates[i].start, p.candidates[i].end), p.candidates[i].energyKwh.value);
      var x := CountedIsAccepted(p, period, i);
      assert r == AsReading(x);
    }
    forall x | x in accepted ensures AsReading(x) in Counted(p, period) { var i := AcceptedIsCounted(p, period, x); }
  }

  lemma BilledIsIsolated(p: PointInput, period: Period)
    ensures Billed(p, period) == AsReadings(Isolated(Accepted(p.candidates, p.assignments, period)))
  {
    hide Counted, Accepted;
    CountedIsAcceptedSet(p, period);
    var accepted := Accepted(p.candidates, p.assignments, period);
    forall x | x in accepted
      ensures x in Isolated(accepted) <==> AsReading(x) in Billed(p, period)
    {
      if AsReading(x) in Billed(p, period) {
        forall y <- accepted | y != x ensures !Overlap(x, y) { assert AsReading(y) in AsReadings(accepted); }
      }
    }
  }

  lemma {:induction false} SumKwhAdds(readings: set<Reading>, r: Reading)
    requires r !in readings
    ensures SumKwh(readings + {r}) == SumKwh(readings) + r.kwh
    decreases |readings|
  {
    var all := readings + {r};
    var q :| q in all && SumKwh(all) == q.kwh + SumKwh(all - {q});
    if q == r {
      assert all - {q} == readings;
    } else {
      assert all - {q} == (readings - {q}) + {r};
      SumKwhAdds(readings - {q}, r);
      SumKwhAdds(readings - {q}, q);
      assert (readings - {q}) + {q} == readings;
    }
  }

  lemma {:induction false} SumsAgree(items: set<Observed>)
    ensures SumKwh(AsReadings(items)) == TotalMicros(items) as real / 1000000.0
    decreases |items|
  {
    if items == {} {
      assert AsReadings(items) == {};
    } else {
      var x :| x in items;
      var rest := items - {x};
      SumsAgree(rest);
      TotalMicrosAdds(rest, x);
      assert rest + {x} == items;
      assert AsReadings(items) == AsReadings(rest) + {AsReading(x)};
      SumKwhAdds(AsReadings(rest), AsReading(x));
    }
  }

  /** The energy of a point, in millionths, is the sum of the kWh of its billed readings; without any it has none. */
  lemma EnergyIsSumOfReadings(p: PointInput, period: Period)
    ensures var items := Isolated(Accepted(p.candidates, p.assignments, period));
            && (items == {} <==> Billed(p, period) == {})
            && TotalMicros(items) as real / 1000000.0 == SumKwh(Billed(p, period))
  {
    hide Billed, Accepted, Isolated;
    BilledIsIsolated(p, period);
    var items := Isolated(Accepted(p.candidates, p.assignments, period));
    SumsAgree(items);
    if x :| x in items { assert AsReading(x) in AsReadings(items); }
  }

  /** The instants of the period that some assignment covers. */
  ghost function ExpectedInstants(p: PointInput, period: Period): set<int> {
    set t | period.start <= t < period.cutoff && ExpectedAt(p, t)
  }

  predicate ExpectedAt(p: PointInput, t: int) {
    exists a <- p.assignments :: a.interval.start <= t && t < a.interval.end
  }

  /** The instants of the period that some billed reading covers. */
  ghost function BilledInstants(p: PointInput, period: Period): set<int> {
    set t | period.start <= t < period.cutoff && BilledAt(p, period, t)
  }

  ghost predicate BilledAt(p: PointInput, period: Period, t: int) {
    exists r <- Billed(p, period) :: r.span.start <= t && t < r.span.end
  }

  lemma InstantsMean(p: PointInput, period: Period)
    ensures Instants(Spans(p.assignments), period.start, period.cutoff) == ExpectedInstants(p, period)
    ensures Observes(Isolated(Accepted(p.candidates, p.assignments, period)), period.start, period.cutoff) ==
            BilledInstants(p, period)
  {
    hide Billed, Accepted, Isolated;
    BilledIsIsolated(p, period);
    var items := Isolated(Accepted(p.candidates, p.assignments, period));
    var spans := Spans(p.assignments);
    forall t ensures Covers(spans, t) <==> ExpectedAt(p, t) {
      if a :| a in p.assignments && a.interval.start <= t && t < a.interval.end {
        var k :| 0 <= k < |p.assignments| && p.assignments[k] == a;
        assert spans[k] in spans && Has(spans[k], t);
      }
    }
    forall t ensures ObservedAt(items, t) <==> BilledAt(p, period, t) {
      if x :| x in items && Has(x.span, t) { assert AsReading(x) in AsReadings(items); }
    }
  }

  /** No two readings that count overlap exactly when all of them are billed. */
  lemma OverlapsMean(p: PointInput, period: Period)
    ensures var accepted := Accepted(p.candidates, p.assignments, period);
            Isolated(accepted) == accepted <==> Billed(p, period) == Counted(p, period)
  {
    hide Counted, Accepted;
    CountedIsAcceptedSet(p, period);
    BilledIsIsolated(p, period);
    var accepted := Accepted(p.candidates, p.assignments, period);
    if Billed(p, period) == Counted(p, period) {
      forall x | x in accepted ensures x in Isolated(accepted) {
        assert AsReading(x) in AsReadings(Isolated(accepted));
        var y :| y in Isolated(accepted) && AsReading(y) == AsReading(x);
        assert y == x;
      }
    }
  }
}
