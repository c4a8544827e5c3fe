/**
 Monitored energy of a billing period: how long the assignments expect data, which observed intervals
 are accepted, and how the two combine into a completeness ratio.
 Instants and durations are integers; ratios are exact reals.
 */
module BillingEnergy {
  import opened Common

  datatype Interval = Interval(start: int, end: int)

  // ----- Measure of a union of intervals -----

  predicate Has(x: Interval, t: int) { x.start <= t < x.end }

  ghost predicate Covers(intervals: seq<Interval>, t: int) { exists x <- intervals :: Has(x, t) }

  /** The instants of [lower, upper) covered by at least one interval. */
  ghost function Instants(intervals: seq<Interval>, lower: int, upper: int): set<int> {
    set t | lower <= t < upper && Covers(intervals, t)
  }

  ghost function Range(x: Interval): set<int> {
    set t | x.start <= t < x.end && Has(x, t)
  }

  lemma {:induction false} RangeSize(x: Interval)
    requires x.start <= x.end
    ensures |Range(x)| == x.end - x.start
    decreases x.end - x.start
  {
    if x.start == x.end {
      assert Range(x) == {};
    } else {
      var y := Interval(x.start, x.end - 1);
      RangeSize(y);
      assert Has(x, x.end - 1);
      assert forall t :: Has(x, t) <==> Has(y, t) || t == x.end - 1;
      assert Range(x) == Range(y) + {x.end - 1};
    }
  }

  lemma InstantsExtend(s: seq<Interval>, x: Interval, lower: int, upper: int)
    requires lower <= x.start && x.end <= upper
    ensures Instants(s + [x], lower, upper) == Instants(s, lower, upper) + Range(x)
  {
    assert forall y :: y in s + [x] <==> y in s || y == x;
  }

  lemma InstantsPermute(a: seq<Interval>, b: seq<Interval>, lower: int, upper: int)
    requires multiset(a) == multiset(b)
    ensures Instants(a, lower, upper) == Instants(b, lower, upper)
  {
    assert forall x :: x in a <==> x in multiset(a);
    assert forall x :: x in b <==> x in multiset(b);
  }

  predicate ByStart(s: seq<Interval>) {
    forall i, j :: 0 <= i < j < |s| ==> s[i].start <= s[j].start
  }

  function InsertByStart(x: Interval, s: seq<Interval>): seq<Interval> {
    if s == [] || x.start <= s[0].start then [x] + s else [s[0]] + InsertByStart(x, s[1..])
  }

  lemma {:induction false} InsertByStartSorts(x: Interval, s: seq<Interval>)
    requires ByStart(s)
    ensures ByStart(InsertByStart(x, s)) && forall y <- InsertByStart(x, s) :: y == x || y in s
  {
    if s == [] || x.start <= s[0].start {
    } else {
      var r := InsertByStart(x, s[1..]);
      InsertByStartSorts(x, s[1..]);
      forall i | 0 <= i < |r| ensures s[0].start <= r[i].start { assert r[i] in r; }
    }
  }

  lemma {:induction false} InsertByStartPermutes(x: Interval, s: seq<Interval>)
    ensures multiset(InsertByStart(x, s)) == multiset{x} + multiset(s)
  {
    if s == [] || x.start <= s[0].start {
    } else {
      InsertByStartPermutes(x, s[1..]);
      assert s == [s[0]] + s[1..];
    }
  }

  /** An ordering by start; nothing below depends on how equal starts are ordered. */
  method SortByStart(s: seq<Interval>) returns (r: seq<Interval>)
    ensures ByStart(r) && multiset(r) == multiset(s)
  {
    r := [];
    for k := 0 to |s|
      invariant ByStart(r) && multiset(r) == multiset(s[..k])
    {
      InsertByStartSorts(s[k], r);
      InsertByStartPermutes(s[k], r);
      assert s[..k + 1] == s[..k] + [s[k]];
      r := InsertByStart(s[k], r);
    }
    assert s[..|s|] == s;
  }

  /** One pass over intervals ordered by start measures their union, whatever they overlap. */
  method MeasureSorted(s: seq<Interval>, ghost lower: int, ghost upper: int) returns (total: int)
    requires s != [] && ByStart(s) && forall i :: 0 <= i < |s| ==> lower <= s[i].start < s[i].end <= upper
    ensures total == |Instants(s, lower, upper)|
  {
    hide Instants, Range;
    var start, end := s[0].start, s[0].end;
    total := 0;
    ghost var done: set<int> := {};
    InstantsOfOne(s[0], lower, upper);
    assert s[..1] == [s[0]];
    var i := 1;
    while i < |s|
      invariant 1 <= i <= |s| && lower <= start < end <= upper && start <= s[i - 1].start
      invariant total == |done| && forall t <- done :: t < start
      invariant Instants(s[..i], lower, upper) == done + Range(Interval(start, end))
    {
      InstantsExtend(s[..i], s[i], lower, upper);
      assert s[..i + 1] == s[..i] + [s[i]];
      ghost var open := Interval(start, end);
      if s[i].start <= end {
        if s[i].end > end {
          end := s[i].end;
        }
        JoinRanges(open, s[i]);
      } else {
        CloseRun(done, open);
        total := total + (end - start);
        done := done + Range(open);
        start, end := s[i].start, s[i].end;
      }
      i := i + 1;
    }
    assert s[..|s|] == s;
    CloseRun(done, Interval(start, end));
    return total + (end - start);
  }

  lemma SameElements(s: seq<Interval>, t: seq<Interval>)
    requires multiset(s) == multiset(t)
    ensures |s| == |t| && forall i :: 0 <= i < |s| ==> s[i] in t
  {
    assert |multiset(s)| == |s| && |multiset(t)| == |t|;
    forall i | 0 <= i < |s| ensures s[i] in t { assert s[i] in multiset(s); }
  }

  method UnionSortedDuration(intervals: seq<Interval>, ghost lower: int, ghost upper: int) returns (total: int)
    requires forall x <- intervals :: lower <= x.start < x.end <= upper
    ensures total == |Instants(intervals, lower, upper)|
  {
    if |intervals| == 0 {
      assert Instants(intervals, lower, upper) == {};
      return 0;
    }
    var s := SortByStart(intervals);
    InstantsPermute(intervals, s, lower, upper);
    SameElements(s, intervals);
    total := MeasureSorted(s, lower, upper);
  }

  lemma InstantsOfOne(x: Interval, lower: int, upper: int)
    requires lower <= x.start && x.end <= upper
    ensures Instants([x], lower, upper) == {} + Range(x)
  {
    assert forall t :: Covers([x], t) <==> Has(x, t) by { assert x in [x]; }
  }

  lemma CloseRun(done: set<int>, x: Interval)
    requires x.start < x.end && forall t <- done :: t < x.start
    ensures |done + Range(x)| == |done| + (x.end - x.start)
    ensures forall t <- done + Range(x) :: t < x.end
  {
    RangeSize(x);
    assert done !! Range(x);
  }

  lemma JoinRanges(x: Interval, y: Interval)
    requires x.start <= y.start <= x.end
    ensures Range(x) + Range(y) == Range(Interval(x.start, Max(x.end, y.end)))
  {
    var z := Interval(x.start, Max(x.end, y.end));
    assert forall t :: Has(z, t) <==> Has(x, t) || Has(y, t);
  }

  method UnionDuration(intervals: seq<Interval>, lower: int, upper: int) returns (total: int)
    ensures total == |Instants(intervals, lower, upper)|
  {
    if lower >= upper {
      assert Instants(intervals, lower, upper) == {};
      return 0;
    }
    var clipped: seq<Interval> := [];
    for i := 0 to |intervals|
      invariant forall x <- clipped :: lower <= x.start < x.end <= upper
      invariant Instants(clipped, lower, upper) == Instants(intervals[..i], lower, upper)
    {
      var start, end := Max(intervals[i].start, lower), Min(intervals[i].end, upper);
      assert intervals[..i + 1] == intervals[..i] + [intervals[i]];
      InstantsClip(intervals[..i], intervals[i], Interval(start, end), lower, upper);
      if start < end {
        InstantsExtend(clipped, Interval(start, end), lower, upper);
        clipped := clipped + [Interval(start, end)];
      }
    }
    assert intervals[..|intervals|] == intervals;
    total := UnionSortedDuration(clipped, lower, upper);
  }

  lemma InstantsClip(s: seq<Interval>, x: Interval, y: Interval, lower: int, upper: int)
    requires y == Interval(Max(x.start, lower), Min(x.end, upper))
    ensures Instants(s + [x], lower, upper) == Instants(s, lower, upper) + Range(y)
  {
    assert forall z :: z in s + [x] <==> z in s || z == x;
    assert forall t :: Has(y, t) <==> Has(x, t) && lower <= t < upper;
  }

  // ----- Accepting observed intervals -----

  datatype Observed = Observed(span: Interval, micros: int)

  datatype Warning = PartialMonitoringData | NoExpectedMonitoringWindow | ConflictingTelemetry
                   | AmbiguousAssignment | LegacyEvidence | UnattributableEvidence | OverlappingEvidence

  datatype Facts = Facts(energyMicros: Option<int>, duration: int)

  predicate Overlap(x: Observed, y: Observed) {
    x.span.start < y.span.end && y.span.start < x.span.end
  }

  function Clip(x: Observed, lower: int, upper: int): Observed {
    Observed(Interval(Max(x.span.start, lower), Min(x.span.end, upper)), x.micros)
  }

  predicate Usable(x: Observed) { x.span.start < x.span.end && x.micros >= 0 }

  /** What the observations amount to inside [lower, upper): clipped, without empties and exact repeats. */
  ghost function Clipped(input: seq<Observed>, lower: int, upper: int): set<Observed> {
    set x | x in input && Usable(Clip(x, lower, upper)) :: Clip(x, lower, upper)
  }

  /** The observations that overlap no other one. */
  ghost function Isolated(items: set<Observed>): set<Observed> {
    set x | x in items && forall y <- items :: y != x ==> !Overlap(x, y)
  }

  ghost function TotalMicros(items: set<Observed>): int {
    if items == {} then 0 else var x :| x in items; x.micros + TotalMicros(items - {x})
  }

  ghost function Observes(items: set<Observed>, lower: int, upper: int): set<int> {
    set t | lower <= t < upper && ObservedAt(items, t)
  }

  ghost predicate ObservedAt(items: set<Observed>, t: int) { exists x <- items :: Has(x.span, t) }

  lemma {:induction false} TotalMicrosAdds(items: set<Observed>, x: Observed)
    requires x !in items
    ensures TotalMicros(items + {x}) == TotalMicros(items) + x.micros
    decreases |items|
  {
    var all := items + {x};
    var y :| y in all && TotalMicros(all) == y.micros + TotalMicros(all - {y});
    if y == x {
      assert all - {y} == items;
    } else {
      assert all - {y} == (items - {y}) + {x};
      TotalMicrosAdds(items - {y}, x);
      TotalMicrosAdds(items - {y}, y);
      assert (items - {y}) + {y} == items;
    }
  }

  predicate SpanBefore(x: Observed, y: Observed) {
    x.span.start < y.span.start || (x.span.start == y.span.start && x.span.end < y.span.end)
  }

  ghost predicate Sorted(items: seq<Observed>) {
    forall i, j :: 0 <= i < j < |items| ==> items[i] != items[j] && !SpanBefore(items[j], items[i])
  }

  function InsertItem(x: Observed, s: seq<Observed>): seq<Observed> {
    if s == [] || !SpanBefore(s[0], x) then [x] + s else [s[0]] + InsertItem(x, s[1..])
  }

  lemma {:induction false} InsertItemSorts(x: Observed, s: seq<Observed>)
    requires Sorted(s) && x !in s
    ensures Sorted(InsertItem(x, s)) && forall y :: y in InsertItem(x, s) <==> y == x || y in s
  {
    if s != [] && SpanBefore(s[0], x) {
      var r := InsertItem(x, s[1..]);
      InsertItemSorts(x, s[1..]);
      assert s == [s[0]] + s[1..];
      forall i | 0 <= i < |r| ensures s[0] != r[i] && !SpanBefore(r[i], s[0]) { assert r[i] in r; }
    } else if s != [] {
      forall j | 0 <= j < |s| ensures !SpanBefore(s[j], x) && s[j] in s { assert j == 0 || !SpanBefore(s[j], s[0]); }
    }
  }

  /** The deduplicating map is read back in whatever order it yields, then ordered by span. */
  method OrderItems(unique: set<Observed>) returns (items: seq<Observed>)
    ensures Sorted(items) && forall x :: x in items <==> x in unique
  {
    items := [];
    var rest := unique;
    while rest != {}
      invariant rest <= unique && Sorted(items) && forall x :: x in items <==> x in unique - rest
      decreases rest
    {
      var x :| x in rest;
      InsertItemSorts(x, items);
      items := InsertItem(x, items);
      rest := rest - {x};
    }
  }

  ghost predicate Alone(items: seq<Observed>, j: int)
    requires 0 <= j < |items|
  {
    forall k :: 0 <= k < |items| && k != j ==> !Overlap(items[j], items[k])
  }

  ghost predicate Separated(items: seq<Observed>, at: int) {
    forall j, k :: 0 <= j < at <= k < |items| ==> items[j].span.end <= items[k].span.start
  }

  ghost function AloneItems(items: seq<Observed>, n: nat): seq<Observed>
    requires n <= |items|
  {
    if n == 0 then [] else AloneItems(items, n - 1) + if Alone(items, n - 1) then [items[n - 1]] else []
  }

  lemma {:induction false} AloneItemsSorted(items: seq<Observed>, n: nat)
    requires n <= |items| && Sorted(items)
    ensures Sorted(AloneItems(items, n))
    ensures forall x :: x in AloneItems(items, n) <==> exists j :: 0 <= j < n && items[j] == x && Alone(items, j)
  {
    if n > 0 {
      AloneItemsSorted(items, n - 1);
      var r := AloneItems(items, n - 1);
      forall i | 0 <= i < |r| ensures r[i] != items[n - 1] && !SpanBefore(items[n - 1], r[i]) {
        assert r[i] in r;
        var j :| 0 <= j < n - 1 && items[j] == r[i];
      }
    }
  }

  lemma {:induction false} NoneAlone(items: seq<Observed>, m: nat, n: nat)
    requires m <= n <= |items| && forall j :: m <= j < n ==> !Alone(items, j)
    ensures AloneItems(items, n) == AloneItems(items, m)
    decreases n
  {
    if m < n { NoneAlone(items, m, n - 1); }
  }

  /** The end of the overlap group that starts at `index`; nobody in a longer group is alone. */
  method GroupEnd(items: seq<Observed>, index: nat) returns (groupEnd: nat)
    requires Sorted(items) && forall i :: 0 <= i < |items| ==> items[i].span.start < items[i].span.end
    requires index < |items| && Separated(items, index)
    ensures index < groupEnd <= |items| && Separated(items, groupEnd)
    ensures groupEnd > index + 1 ==> forall j :: index <= j < groupEnd ==> !Alone(items, j)
  {
    groupEnd := index + 1;
    var maxEnd := items[index].span.end;
    while groupEnd < |items| && items[groupEnd].span.start < maxEnd
      invariant index < groupEnd <= |items|
      invariant forall g :: index <= g < groupEnd ==> items[g].span.end <= maxEnd
      invariant exists g :: index <= g < groupEnd && items[g].span.end == maxEnd
      invariant forall g :: index < g < groupEnd ==> !Alone(items, g)
      invariant groupEnd > index + 1 ==> !Alone(items, index)
    {
      ghost var h :| index <= h < groupEnd && items[h].span.end == maxEnd;
      assert !SpanBefore(items[groupEnd], items[h]);
      assert Overlap(items[groupEnd], items[h]) && Overlap(items[h], items[groupEnd]);
      if items[groupEnd].span.end > maxEnd {
        maxEnd := items[groupEnd].span.end;
      }
      groupEnd := groupEnd + 1;
    }
    GroupCloses(items, index, groupEnd, maxEnd);
  }

  lemma GroupCloses(items: seq<Observed>, index: nat, groupEnd: nat, maxEnd: int)
    requires Sorted(items) && index < groupEnd <= |items| && Separated(items, index)
    requires forall g :: index <= g < groupEnd ==> items[g].span.end <= maxEnd
    requires groupEnd < |items| ==> maxEnd <= items[groupEnd].span.start
    ensures Separated(items, groupEnd)
  {
    forall j, k | 0 <= j < groupEnd <= k < |items| ensures items[j].span.end <= items[k].span.start {
      assert k == groupEnd || !SpanBefore(items[k], items[groupEnd]);
    }
  }

  /** The group sweep accepts exactly the items that overlap no other, and warns iff it drops any. */
  method SweepGroups(items: seq<Observed>) returns (accepted: seq<Observed>, warnings: seq<Warning>)
    requires Sorted(items) && forall i :: 0 <= i < |items| ==> items[i].span.start < items[i].span.end
    ensures accepted == AloneItems(items, |items|)
    ensures (forall w <- warnings :: w == OverlappingEvidence)
    ensures (warnings == [] <==> forall j :: 0 <= j < |items| ==> Alone(items, j))
  {
    hide Overlap, SpanBefore;
    accepted, warnings := [], [];
    var index := 0;
    while index < |items|
      invariant 0 <= index <= |items| && Separated(items, index)
      invariant accepted == AloneItems(items, index)
      invariant forall w <- warnings :: w == OverlappingEvidence
      invariant warnings == [] <==> forall j :: 0 <= j < index ==> Alone(items, j)
    {
      var groupEnd := GroupEnd(items, index);
      if groupEnd - index > 1 {
        assert !Alone(items, index);
        NoneAlone(items, index, groupEnd);
        warnings := warnings + [OverlappingEvidence];
      } else {
        BetweenGroups(items, index);
        accepted := accepted + [items[index]];
      }
      index := groupEnd;
    }
  }

  lemma BetweenGroups(items: seq<Observed>, index: nat)
    requires index < |items| && Separated(items, index) && Separated(items, index + 1)
    ensures Alone(items, index)
  {
  }

  lemma AloneMeansIsolated(items: seq<Observed>, all: set<Observed>)
    requires Sorted(items) && forall x :: x in items <==> x in all
    ensures forall x :: x in Isolated(all) <==> exists j :: 0 <= j < |items| && items[j] == x && Alone(items, j)
  {
    forall x ensures x in Isolated(all) <==> exists j :: 0 <= j < |items| && items[j] == x && Alone(items, j) {
      if x in Isolated(all) {
        var j :| 0 <= j < |items| && items[j] == x;
        assert Alone(items, j) by {
          forall k | 0 <= k < |items| && k != j ensures !Overlap(items[j], items[k]) {
            assert items[k] in items && (k < j ==> items[k] != items[j]);
          }
        }
      }
      if j :| 0 <= j < |items| && items[j] == x && Alone(items, j) {
        forall y <- all | y != x ensures !Overlap(x, y) {
          assert y in items;
          var k :| 0 <= k < |items| && items[k] == y;
        }
      }
    }
  }

  /** Energy and duration depend on the set of usable clipped observations only, never on any order. */
  method EvaluateObserved(input: seq<Observed>, lower: int, upper: int) returns (facts: Facts, warnings: seq<Warning>)
    ensures var accepted := Isolated(Clipped(input, lower, upper));
            && facts.energyMicros == (if accepted == {} then None else Some(TotalMicros(accepted)))
            && facts.duration == |Observes(accepted, lower, upper)|
    ensures forall w <- warnings :: w == OverlappingEvidence
    ensures warnings == [] <==> Isolated(Clipped(input, lower, upper)) == Clipped(input, lower, upper)
  {
    if lower >= upper {
      assert Clipped(input, lower, upper) == {};
      assert Observes({}, lower, upper) == {};
      return Facts(None, 0), [];
    }
    var unique: set<Observed> := {};
    for i := 0 to |input|
      invariant unique == Clipped(input[..i], lower, upper)
    {
      var item := Clip(input[i], lower, upper);
      ClippedExtends(input, i, lower, upper);
      if Usable(item) {
        unique := unique + {item};
      }
    }
    assert input[..|input|] == input;
    assert forall x <- unique :: Usable(x) && lower <= x.span.start && x.span.end <= upper;
    var items := OrderItems(unique);
    assert forall i :: 0 <= i < |items| ==> items[i] in items && items[i] in unique;
    var accepted;
    accepted, warnings := SweepGroups(items);
    AloneItemsSorted(items, |items|);
    AloneMeansIsolated(items, unique);
    assert warnings == [] <==> Isolated(unique) == unique by {
      assert forall j :: 0 <= j < |items| ==> items[j] in items;
    }
    facts := SumAccepted(accepted, Isolated(unique), lower, upper);
  }

  lemma ClippedExtends(input: seq<Observed>, i: nat, lower: int, upper: int)
    requires i < |input|
    ensures var item := Clip(input[i], lower, upper);
            Clipped(input[..i + 1], lower, upper) == Clipped(input[..i], lower, upper) + if Usable(item) then {item}
                                                                                         else {}
  {
    assert input[..i + 1] == input[..i] + [input[i]];
    assert forall x :: x in input[..i + 1] <==> x in input[..i] || x == input[i];
  }

  method SumAccepted(accepted: seq<Observed>, ghost all: set<Observed>, ghost lower: int,
      ghost upper: int) returns (facts: Facts)
    requires Sorted(accepted) && forall x :: x in accepted <==> x in all
    requires forall x <- all :: lower <= x.span.start < x.span.end <= upper
    ensures facts.energyMicros == if all == {} then None else Some(TotalMicros(all))
    ensures facts.duration == |Observes(all, lower, upper)|
  {
    if |accepted| == 0 {
      assert all == {};
      assert Observes({}, lower, upper) == {};
      return Facts(None, 0);
    }
    var total := 0;
    var intervals: seq<Interval> := [];
    ghost var seen: set<Observed> := {};
    for i := 0 to |accepted|
      invariant seen == set x | x in accepted[..i]
      invariant total == TotalMicros(seen)
      invariant |intervals| == i && forall k :: 0 <= k < i ==> intervals[k] == accepted[k].span
    {
      assert accepted[..i + 1] == accepted[..i] + [accepted[i]];
      TotalMicrosAdds(seen, accepted[i]);
      total := total + accepted[i].micros;
      intervals := intervals + [accepted[i].span];
      seen := seen + {accepted[i]};
    }
    assert accepted[..|accepted|] == accepted;
    assert seen == all;
    assert accepted[0] in all;
    var duration := UnionSortedDuration(intervals, lower, upper);
    SpansObserve(accepted, intervals, all, lower, upper);
    return Facts(Some(total), duration);
  }

  lemma SpansObserve(accepted: seq<Observed>, intervals: seq<Interval>, all: set<Observed>, lower: int, upper: int)
    requires forall x :: x in accepted <==> x in all
    requires |intervals| == |accepted| && forall k :: 0 <= k < |accepted| ==> intervals[k] == accepted[k].span
    ensures Instants(intervals, lower, upper) == Observes(all, lower, upper)
  {
    forall t ensures Covers(intervals, t) <==> ObservedAt(all, t) {
      if Covers(intervals, t) {
        var k :| 0 <= k < |intervals| && Has(intervals[k], t);
        assert accepted[k] in accepted;
      }
      if ObservedAt(all, t) {
        var x :| x in all && Has(x.span, t);
        assert x in accepted;
        var k :| 0 <= k < |accepted| && accepted[k] == x;
        assert intervals[k] in intervals;
      }
    }
  }
}
