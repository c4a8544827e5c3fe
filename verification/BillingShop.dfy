/** The energy facts of a shop: each of its points with its completeness ratio, and their sum. */
module BillingShop {
  import opened Common
  import opened BillingEnergy
  import opened BillingEnergyQuery
  import opened BillingReadings

  // ----- Points and shop -----

  datatype PointFacts = PointFacts(expected: int, observed: int, coverage: Option<real>, usage: Option<int>,
      warnings: set<Warning>)

  datatype ShopFacts = ShopFacts(points: seq<PointFacts>, usage: Option<int>, expected: int, observed: int,
                                 coverage: Option<real>, warnings: set<Warning>)

  function Ratio(observed: int, expected: int): real
    requires expected > 0
  {
    observed as real / expected as real
  }

  function SumOver(points: seq<PointFacts>, f: PointFacts -> int): int {
    if points == [] then 0 else SumOver(points[..|points| - 1], f) + f(Last(points))
  }

  function ExpectedOf(): PointFacts -> int { (p: PointFacts) => p.expected }

  function ObservedOf(): PointFacts -> int { (p: PointFacts) => p.observed }

  function UsageOf(): PointFacts -> int { (p: PointFacts) => if p.usage.Some? then p.usage.value else 0 }

  /** The defensive clamp of one point. */
  function Clamped(p: PointFacts): PointFacts {
    if p.expected <= 0 then p
    else
      var observed := if p.observed < 0 then 0 else Min(p.observed, p.expected);
      p.(observed := observed, coverage := Some(Ratio(observed, p.expected)))
  }

  function ClampAll(points: seq<PointFacts>): seq<PointFacts> {
    if points == [] then [] else ClampAll(points[..|points| - 1]) + [Clamped(Last(points))]
  }

  ghost function PointWarnings(points: seq<PointFacts>): set<Warning> {
    set p, w | p in points && w in p.warnings :: w
  }

  method Aggregate(points: seq<PointFacts>) returns (shop: ShopFacts)
    ensures shop.points == ClampAll(points)
    ensures shop.expected == SumOver(shop.points, ExpectedOf()) && shop.observed == SumOver(shop.points, ObservedOf())
    ensures shop.usage == if exists p <- points :: p.usage.Some? then Some(SumOver(points, UsageOf())) else None
    ensures shop.coverage == if shop.expected > 0 then Some(Ratio(shop.observed, shop.expected)) else None
    ensures shop.warnings == PointWarnings(points) +
              (if shop.expected <= 0 then {NoExpectedMonitoringWindow}
               else if shop.observed < shop.expected then {PartialMonitoringData} else {})
  {
    hide SumOver, ClampAll, PointWarnings, Ratio, UsageOf, ExpectedOf, ObservedOf;
    assert points[..0] == [];
    NoPoints();
    var clamped: seq<PointFacts>, warnings: set<Warning> := [], {};
    var expected, observed, usage, usagePresent := 0, 0, 0, false;
    for i := 0 to |points|
      invariant clamped == ClampAll(points[..i])
      invariant expected == SumOver(clamped, ExpectedOf()) && observed == SumOver(clamped, ObservedOf())
      invariant usage == SumOver(points[..i], UsageOf()) && (usagePresent <==> exists p <- points[..i] :: p.usage.Some?)
      invariant warnings == PointWarnings(points[..i])
    {
      var point := points[i];
      AggregateStep(points, i, clamped, Clamped(point));
      if point.expected > 0 {
        if point.observed < 0 {
          point := point.(observed := 0);
        } else if point.observed > point.expected {
          point := point.(observed := point.expected);
        }
        point := point.(coverage := Some(Ratio(point.observed, point.expected)));
      }
      expected := expected + point.expected;
      observed := observed + point.observed;
      if point.usage.Some? {
        usage := usage + point.usage.value;
        usagePresent := true;
      }
      warnings := warnings + point.warnings;
      clamped := clamped + [point];
    }
    assert points[..|points|] == points;
    var coverage := None;
    if expected > 0 {
      coverage := Some(Ratio(observed, expected));
      if observed < expected {
        warnings := warnings + {PartialMonitoringData};
      }
    } else {
      warnings := warnings + {NoExpectedMonitoringWindow};
    }
    shop := ShopFacts(clamped, if usagePresent then Some(usage) else None, expected, observed, coverage, warnings);
  }

  lemma NoPoints()
    ensures ClampAll([]) == [] && PointWarnings([]) == {}
    ensures SumOver([], ExpectedOf()) == 0 && SumOver([], ObservedOf()) == 0 && SumOver([], UsageOf()) == 0
  {
  }

  lemma AggregateStep(points: seq<PointFacts>, i: nat, clamped: seq<PointFacts>, p: PointFacts)
    requires i < |points|
    ensures clamped == ClampAll(points[..i]) && p == Clamped(points[i]) ==> ClampAll(points[..i + 1]) == clamped + [p]
    ensures SumOver(clamped + [p], ExpectedOf()) == SumOver(clamped, ExpectedOf()) + p.expected
    ensures SumOver(clamped + [p], ObservedOf()) == SumOver(clamped, ObservedOf()) + p.observed
    ensures SumOver(points[..i + 1], UsageOf()) ==
            SumOver(points[..i], UsageOf()) + if points[i].usage.Some? then points[i].usage.value else 0
    ensures PointWarnings(points[..i + 1]) == PointWarnings(points[..i]) + points[i].warnings
    ensures forall q :: q in points[..i + 1] <==> q in points[..i] || q == points[i]
  {
    assert points[..i + 1] == points[..i] + [points[i]] && points[..i + 1][..i] == points[..i];
    assert (clamped + [p])[..|clamped|] == clamped;
    assert forall q :: q in points[..i + 1] <==> q in points[..i] || q == points[i];
  }

  ghost predicate Bounded(p: PointFacts) { 0 <= p.observed <= p.expected && p.coverage.None? }

  /** On bounded points the clamp changes no duration and every ratio lies in [0, 1]. */
  lemma {:induction false} ClampNeverFires(points: seq<PointFacts>)
    requires forall p <- points :: Bounded(p)
    ensures var c := ClampAll(points);
            && |c| == |points| && (forall i :: 0 <= i < |c| ==> c[i] == points[i].(coverage := c[i].coverage))
            && (forall p <- c :: p.coverage.None? || 0.0 <= p.coverage.value <= 1.0)
            && 0 <= SumOver(c, ObservedOf()) <= SumOver(c, ExpectedOf())
  {
    hide Clamped;
    if points != [] {
      var before := points[..|points| - 1];
      var p := Last(points);
      assert p in points;
      ClampNeverFires(before);
      BoundedStays(p);
      var c := ClampAll(points);
      assert c == ClampAll(before) + [Clamped(p)] && c[..|c| - 1] == ClampAll(before);
      forall i | 0 <= i < |c| ensures c[i] == points[i].(coverage := c[i].coverage) {
        if i < |before| { assert c[i] == ClampAll(before)[i] && points[i] == before[i]; }
      }
      forall q | q in c ensures q.coverage.None? || 0.0 <= q.coverage.value <= 1.0 {
        if q != Clamped(p) { assert q in ClampAll(before); }
      }
    }
  }

  lemma BoundedStays(p: PointFacts)
    requires Bounded(p)
    ensures var q := Clamped(p);
            && q == p.(coverage := q.coverage) && 0 <= q.observed <= q.expected
            && (q.coverage.None? || 0.0 <= q.coverage.value <= 1.0)
  {
    hide Ratio;
    if p.expected > 0 { RatioBounded(p.observed, p.expected); }
  }

  lemma RatioBounded(observed: int, expected: int)
    requires 0 <= observed <= expected && expected > 0
    ensures 0.0 <= Ratio(observed, expected) <= 1.0
  {
  }

  ghost function ExpectedDuration(p: PointInput, period: Period): int {
    |Instants(Spans(p.assignments), period.start, period.cutoff)|
  }

  ghost function ObservedDuration(p: PointInput, period: Period): int {
    |Observes(Isolated(Accepted(p.candidates, p.assignments, period)), period.start, period.cutoff)|
  }

  /** Everything that is reported of one point: durations, exact ratio, energy, and each warning when it is due. */
  ghost function ReportedPoint(p: PointInput, period: Period): PointFacts {
    var expected, observed := ExpectedDuration(p, period), ObservedDuration(p, period);
    var accepted := Accepted(p.candidates, p.assignments, period);
    var items := Isolated(accepted);
    PointFacts(
      expected, observed,
      if expected > 0 then Some(Ratio(observed, expected)) else None,
      if items == {} then None else Some(TotalMicros(items)),
      Refused(p.candidates, p.assignments, period) + (if items == accepted then {} else {OverlappingEvidence}) +
      (if expected == 0 then {NoExpectedMonitoringWindow}
       else if observed < expected then {PartialMonitoringData} else {}))
  }

  lemma ClampedIs(p: PointFacts)
    requires Bounded(p)
    ensures Clamped(p) == p.(coverage := if p.expected > 0 then Some(Ratio(p.observed, p.expected)) else None)
  {
  }

  /** On bounded points the clamp keeps every usage and warning. */
  lemma {:induction false} ClampKeepsTheRest(points: seq<PointFacts>)
    requires forall p <- points :: Bounded(p)
    ensures var c := ClampAll(points);
            && |c| == |points| && (forall i :: 0 <= i < |c| ==> c[i] == Clamped(points[i]))
            && SumOver(c, UsageOf()) == SumOver(points, UsageOf())
  {
    hide Ratio;
    if points != [] {
      var before, p := points[..|points| - 1], Last(points);
      assert p in points;
      ClampKeepsTheRest(before);
      ClampedIs(p);
      var c := ClampAll(points);
      assert c[..|c| - 1] == ClampAll(before) && Last(c) == Clamped(p);
      forall i | 0 <= i < |c| ensures c[i] == Clamped(points[i]) {
        if i < |before| { assert c[i] == ClampAll(before)[i] && points[i] == before[i]; }
      }
    }
  }

  lemma SameWarnings(points: seq<PointFacts>, c: seq<PointFacts>)
    requires |c| == |points| && forall i :: 0 <= i < |c| ==> c[i] == points[i].(coverage := c[i].coverage)
    ensures PointWarnings(c) == PointWarnings(points)
    ensures (exists p <- c :: p.usage.Some?) <==> (exists p <- points :: p.usage.Some?)
  {
    forall w ensures w in PointWarnings(c) <==> w in PointWarnings(points) {
      if w in PointWarnings(c) {
        var p :| p in c && w in p.warnings;
        var i :| 0 <= i < |c| && c[i] == p;
        assert points[i] in points && w in points[i].warnings;
      }
      if w in PointWarnings(points) {
        var p :| p in points && w in p.warnings;
        var i :| 0 <= i < |c| && points[i] == p;
        assert c[i] in c && w in c[i].warnings;
      }
    }
    if p :| p in c && p.usage.Some? {
      var i :| 0 <= i < |c| && c[i] == p;
      assert points[i] in points && points[i].usage.Some?;
    }
    if p :| p in points && p.usage.Some? {
      var i :| 0 <= i < |c| && points[i] == p;
      assert c[i] in c && c[i].usage.Some?;
    }
  }

  /** The kWh of all points together. */
  ghost function ShopKwh(inputs: seq<PointInput>, period: Period): real {
    if inputs == [] then 0.0 else ShopKwh(inputs[..|inputs| - 1], period) + SumKwh(Billed(Last(inputs), period))
  }

  /** A usage in millionths of a kWh, and the exact ratio of two durations. */
  predicate IsKwh(usage: Option<int>, kwh: real) { usage.Some? ==> usage.value as real / 1000000.0 == kwh }

  predicate IsRatio(coverage: Option<real>, observed: int, expected: int) {
    if expected > 0 then coverage.Some? && coverage.value * expected as real == observed as real else coverage.None?
  }

  lemma RatioIs(observed: int, expected: int)
    requires expected > 0
    ensures IsRatio(Some(Ratio(observed, expected)), observed, expected)
  {
  }

  lemma NoRatio(observed: int, expected: int)
    ensures expected <= 0 ==> IsRatio(None, observed, expected)
  {
  }

  lemma KwhIs(usage: Option<int>, total: int, kwh: real)
    requires total as real / 1000000.0 == kwh && (usage.Some? ==> usage.value == total)
    ensures IsKwh(usage, kwh)
  {
  }

  /** When each warning of a point is due. */
  ghost predicate Due(p: PointInput, period: Period, w: Warning) {
    var (expected, observed) := (|ExpectedInstants(p, period)|, |BilledInstants(p, period)|);
    match w
    case NoExpectedMonitoringWindow => expected == 0
    case PartialMonitoringData => 0 < expected && observed < expected
    case OverlappingEvidence => Billed(p, period) != Counted(p, period)
    case _ =>
      || (w == LegacyEvidence && exists c <- p.candidates :: c.coverage != Some(1) || c.protocol != 1)
      || (exists i :: First(p, i) && Cause(p, period, i) == Some(w))
  }

  /**
   A point as it is reported: durations, exact ratio, the kWh of its billed readings, and the warnings that are due.
   */
  ghost predicate Means(p: PointInput, period: Period, facts: PointFacts) {
    && facts.expected == |ExpectedInstants(p, period)| && facts.observed == |BilledInstants(p, period)|
    && IsRatio(facts.coverage, facts.observed, facts.expected)
    && (facts.usage.Some? <==> Billed(p, period) != {}) && IsKwh(facts.usage, SumKwh(Billed(p, period)))
    && (facts.usage.None? ==> SumKwh(Billed(p, period)) == 0.0)
    && (forall w :: w in facts.warnings <==> Due(p, period, w))
  }

  lemma PointMeans(p: PointInput, period: Period)
    ensures Means(p, period, ReportedPoint(p, period))
  {
    hide Billed, Counted, Accepted, Refused, Isolated, TotalMicros, Instants, Observes, Ratio, Due, ExpectedInstants;
    hide BilledInstants, SumKwh;
    EnergyIsSumOfReadings(p, period);
    InstantsMean(p, period);
    NothingIsNoKwh();
    var facts := ReportedPoint(p, period);
    if facts.expected > 0 { RatioIs(facts.observed, facts.expected); }
    forall w ensures w in facts.warnings <==> Due(p, period, w) { WarningIsDue(p, period, w); }
  }

  lemma NothingIsNoKwh()
    ensures SumKwh({}) == 0.0
  {
  }

  lemma WarningIsDue(p: PointInput, period: Period, w: Warning)
    ensures w in ReportedPoint(p, period).warnings <==> Due(p, period, w)
  {
    InstantsMean(p, period);
    OverlapsMean(p, period);
    RefusalsMean(p, period, w);
    RefusedKinds(p.candidates, p.assignments, period);
    hide Billed, Counted, Accepted, Refused, Isolated, TotalMicros, Instants, Observes, Ratio, Cause, First;
    hide ExpectedInstants, BilledInstants;
  }

  lemma {:induction false} ShopMeans(inputs: seq<PointInput>, period: Period, points: seq<PointFacts>)
    requires |points| == |inputs| && forall i :: 0 <= i < |inputs| ==> points[i] == ReportedPoint(inputs[i], period)
    ensures SumOver(points, UsageOf()) as real / 1000000.0 == ShopKwh(inputs, period)
  {
    hide ReportedPoint, Billed, SumKwh, Due;
    if inputs != [] {
      var n := |inputs| - 1;
      ShopMeans(inputs[..n], period, points[..n]);
      PointMeans(inputs[n], period);
    }
  }

  /**
   For every stored state: each point as its evidence and assignments make it, the shop as the sum of its points,
   usage in millionths of the kWh of the billed readings, every ratio exact and in [0, 1], and no duration clamped.
   */
  method FindBillingEnergy(inputs: seq<PointInput>, period: Period) returns (shop: ShopFacts)
    ensures |shop.points| == |inputs|
    ensures forall i :: 0 <= i < |inputs| ==> shop.points[i] == ReportedPoint(inputs[i], period)
    ensures forall i :: 0 <= i < |inputs| ==> Means(inputs[i], period, shop.points[i])
    ensures IsKwh(shop.usage, ShopKwh(inputs, period)) && IsRatio(shop.coverage, shop.observed, shop.expected)
    ensures shop.expected == SumOver(shop.points, ExpectedOf()) && shop.observed == SumOver(shop.points, ObservedOf())
    ensures shop.usage == if exists p <- shop.points :: p.usage.Some?
                          then Some(SumOver(shop.points, UsageOf())) else None
    ensures shop.coverage == if shop.expected > 0 then Some(Ratio(shop.observed, shop.expected)) else None
    ensures shop.warnings == PointWarnings(shop.points) +
              (if shop.expected <= 0 then {NoExpectedMonitoringWindow}
               else if shop.observed < shop.expected then {PartialMonitoringData} else {})
    ensures forall p <- shop.points :: p.coverage.Some? ==> 0.0 <= p.coverage.value <= 1.0
    ensures shop.coverage.Some? ==> 0.0 <= shop.coverage.value <= 1.0
  {
    hide Instants, Observes, Isolated, Accepted, Refused, SumOver, ClampAll, PointWarnings, Ratio, Spans, TotalMicros;
    hide Clamped, Means, IsKwh, IsRatio;
    var points: seq<PointFacts> := [];
    for i := 0 to |inputs|
      invariant |points| == i && forall p <- points :: Bounded(p)
      invariant forall k :: 0 <= k < i ==> points[k] == ReportedPoint(inputs[k], period).(coverage := None)
    {
      var expected := UnionDuration(Spans(inputs[i].assignments), period.start, period.cutoff);
      var observed, warnings := EvaluatePointCandidates(inputs[i].candidates, inputs[i].assignments, period);
      ObservedWithinExpected(inputs[i].candidates, inputs[i].assignments, period);
      if expected == 0 {
        warnings := warnings + {NoExpectedMonitoringWindow};
      } else if observed.duration < expected {
        warnings := warnings + {PartialMonitoringData};
      }
      points := points + [PointFacts(expected, observed.duration, None, observed.energyMicros, warnings)];
    }
    ClampNeverFires(points);
    ClampKeepsTheRest(points);
    shop := Aggregate(points);
    SameWarnings(points, shop.points);
    forall i | 0 <= i < |inputs|
      ensures shop.points[i] == ReportedPoint(inputs[i], period)
      ensures Means(inputs[i], period, shop.points[i])
    {
      assert points[i] in points;
      ClampedIs(points[i]);
      PointMeans(inputs[i], period);
    }
    ShopMeans(inputs, period, shop.points);
    KwhIs(shop.usage, SumOver(shop.points, UsageOf()), ShopKwh(inputs, period));
    NoRatio(shop.observed, shop.expected);
    if shop.expected > 0 {
      RatioBounded(shop.observed, shop.expected);
      RatioIs(shop.observed, shop.expected);
    }
  }
}
