/**
 When the state of a coverage evaluation depends on the order in which evidence arrives. The chain never does
 (`Coverage.ArrivalOrderIsIrrelevant`); the state does exactly when the scan reaches a tie whose members disagree.
 */
module CoverageOrder {
  import opened Common
  import opened Coverage

  // ----- Ties of the evidence -----

  /** Two relevant occurrences in the evidence with one and the same interval. */
  ghost predicate TiePair(periodStart: int, evidence: seq<Evidence>, x: Evidence, y: Evidence) {
    && x in evidence && y in evidence && SameKey(x, y) && !Skippable(periodStart, x) && !Skippable(periodStart, y)
    && (x == y ==> multiset(evidence)[x] >= 2)
  }

  /** The relevant evidence that comes before `x` in interval order. */
  function Earlier(periodStart: int, evidence: seq<Evidence>, x: Evidence): seq<Evidence> {
    if evidence == [] then []
    else (if !Skippable(periodStart, evidence[0]) && Before(evidence[0], x) then [evidence[0]]
      else []) + Earlier(periodStart, evidence[1..], x)
  }

  /** Everything relevant before `x` is proven, as the chain `c`: the evaluation gets as far as the interval of `x`. */
  ghost predicate Reaches(periodStart: int, snapshot: int, evidence: seq<Evidence>, c: seq<Evidence>, x: Evidence) {
    && Chain(periodStart, c) && (forall e <- c :: e.end <= snapshot)
    && multiset(c) == multiset(Earlier(periodStart, evidence, x))
  }

  /** The state when `x` is judged on the chain `c` and `y`, with the same interval, comes next. */
  function TieState(periodStart: int, snapshot: int, c: seq<Evidence>, x: Evidence, y: Evidence): State {
    var v := Judge(periodStart, snapshot, c, x);
    if v.Stop? then v.state else if y.barrier.Some? then y.barrier.value else Ambiguous
  }

  /** Every way to order the members of a tie that is reached yields the same state. */
  ghost predicate TiesAgree(periodStart: int, snapshot: int, evidence: seq<Evidence>) {
    forall c, x, y, z, w ::
      Reaches(periodStart, snapshot, evidence, c, x) && TiePair(periodStart, evidence, x, y)
      && TiePair(periodStart, evidence, z, w) && SameKey(x, z)
      ==> TieState(periodStart, snapshot, c, x, y) == TieState(periodStart, snapshot, c, z, w)
  }

  ghost predicate OrderFree(periodStart: int, snapshot: int, evidence: seq<Evidence>) {
    forall b ::
      multiset(b) == multiset(evidence) ==>
        Proved(periodStart, snapshot, b).1 == Proved(periodStart, snapshot, evidence).1
  }

  // ----- The state of a scan -----

  lemma {:induction false} StateOfRelevant(periodStart: int, snapshot: int, s: seq<Evidence>, chain: seq<Evidence>,
      state: State)
    ensures Scan(periodStart, snapshot, s, chain, state) ==
            Scan(periodStart, snapshot, Relevant(periodStart, s), chain, state)
  {
    if s != [] {
      var x, r := s[0], Relevant(periodStart, s[1..]);
      JudgeMeans(periodStart, snapshot, chain, x);
      hide Judge;
      if Skippable(periodStart, x) {
        StateOfRelevant(periodStart, snapshot, s[1..], chain, state);
        assert [] + r == r;
      } else {
        assert ([x] + r)[1..] == r;
        if Judge(periodStart, snapshot, chain, x).Take? {
          StateOfRelevant(periodStart, snapshot, s[1..], chain + [x], Proven);
        }
      }
    }
  }

  /** A tie decides the state by its first two members. */
  lemma {:induction false} TieDecides(periodStart: int, snapshot: int, s: seq<Evidence>, chain: seq<Evidence>,
      state: State)
    requires |s| >= 2 && SameKey(s[0], s[1]) && !Skippable(periodStart, s[0]) && !Skippable(periodStart, s[1])
    ensures Scan(periodStart, snapshot, s, chain, state).1 == TieState(periodStart, snapshot, chain, s[0], s[1])
  {
    if Judge(periodStart, snapshot, chain, s[0]).Take? {
      var c := chain + [s[0]];
      assert s[1..][0] == s[1];
      assert Frontier(periodStart, c) == s[0].end;
      assert Judge(periodStart, snapshot, c, s[1]).Stop?;
    }
  }

  lemma {:induction false} EarlierCount(periodStart: int, s: seq<Evidence>, x: Evidence, e: Evidence)
    ensures multiset(Earlier(periodStart, s, x))[e] == if !Skippable(periodStart, e) && Before(e, x) then multiset(s)[e]
                                                       else 0
  {
    if s != [] {
      EarlierCount(periodStart, s[1..], x, e);
      var r := Earlier(periodStart, s[1..], x);
      assert s == [s[0]] + s[1..];
      assert Earlier(periodStart, s, x) == if !Skippable(periodStart, s[0]) && Before(s[0], x) then [s[0]] + r else r;
    }
  }

  // ----- Agreeing ties make the state order-free -----

  /** What has been judged, and what is left, of the relevant evidence. */
  ghost predicate Split(periodStart: int, evidence: seq<Evidence>, chain: seq<Evidence>, rest: seq<Evidence>) {
    && (forall e :: multiset(chain)[e] + multiset(rest)[e] == if Skippable(periodStart, e) then 0
                                                              else multiset(evidence)[e])
    && (forall e, x :: e in chain && x in rest ==> Before(e, x))
  }

  lemma SplitReaches(periodStart: int, snapshot: int, evidence: seq<Evidence>, chain: seq<Evidence>,
      rest: seq<Evidence>)
    requires Split(periodStart, evidence, chain, rest) && rest != [] && Ordered(rest)
    requires Chain(periodStart, chain) && forall e <- chain :: e.end <= snapshot
    ensures Reaches(periodStart, snapshot, evidence, chain, rest[0])
  {
    hide Chain;
    var x := rest[0];
    var earlier := Earlier(periodStart, evidence, x);
    forall e ensures multiset(chain)[e] == multiset(earlier)[e] {
      EarlierCount(periodStart, evidence, x, e);
      if Before(e, x) {
        NotBeforeFirst(rest, e);
      } else {
        assert e in multiset(chain) ==> e in chain;
      }
    }
    assert multiset(chain) == multiset(earlier);
  }

  lemma NotBeforeFirst(s: seq<Evidence>, e: Evidence)
    requires Ordered(s) && s != [] && Before(e, s[0])
    ensures multiset(s)[e] == 0
  {
    forall j | 0 <= j < |s| ensures s[j] != e { assert j == 0 || !Before(s[j], s[0]); }
    assert e !in s;
  }

  lemma FirstPairIsTie(periodStart: int, evidence: seq<Evidence>, chain: seq<Evidence>, s: seq<Evidence>,
      rest: seq<Evidence>)
    requires Split(periodStart, evidence, chain, rest) && multiset(s) == multiset(rest) && |s| >= 2
    requires SameKey(s[0], s[1])
    ensures TiePair(periodStart, evidence, s[0], s[1])
  {
    assert s == [s[0], s[1]] + s[2..];
    assert multiset(s)[s[0]] >= 1 && multiset(s)[s[1]] >= 1;
    assert s[0] == s[1] ==> multiset(s)[s[0]] >= 2;
    CountsIn(periodStart, evidence, chain, rest, s[0]);
    CountsIn(periodStart, evidence, chain, rest, s[1]);
  }

  lemma CountsIn(periodStart: int, evidence: seq<Evidence>, chain: seq<Evidence>, rest: seq<Evidence>, e: Evidence)
    requires Split(periodStart, evidence, chain, rest) && multiset(rest)[e] >= 1
    ensures !Skippable(periodStart, e) && e in evidence && multiset(evidence)[e] >= multiset(rest)[e]
  {
    assert multiset(chain)[e] + multiset(rest)[e] == if Skippable(periodStart, e) then 0 else multiset(evidence)[e];
    assert e in multiset(evidence);
  }

  lemma SplitAdvances(periodStart: int, evidence: seq<Evidence>, chain: seq<Evidence>, rest: seq<Evidence>)
    requires Split(periodStart, evidence, chain, rest) && rest != [] && Ordered(rest)
    requires (|rest| >= 2 ==> !SameKey(rest[0], rest[1]))
    ensures Split(periodStart, evidence, chain + [rest[0]], rest[1..])
  {
    hide Before, SameKey, Ordered, Skippable;
    RestIsLater(rest);
    assert forall x <- rest[1..] :: x in rest;
    forall e ensures multiset(chain + [rest[0]])[e] + multiset(rest[1..])[e] == multiset(chain)[e] + multiset(rest)[e] {
      CountMoves(chain, rest, e);
    }
  }

  lemma RestIsLater(rest: seq<Evidence>)
    requires rest != [] && Ordered(rest) && (|rest| >= 2 ==> !SameKey(rest[0], rest[1]))
    ensures forall x <- rest[1..] :: Before(rest[0], x)
  {
    forall x | x in rest[1..] ensures Before(rest[0], x) {
      var j :| 0 <= j < |rest| - 1 && rest[1..][j] == x;
      assert !Before(rest[1], rest[0]);
      assert j == 0 || !Before(rest[j + 1], rest[1]);
    }
  }

  lemma CountMoves(chain: seq<Evidence>, rest: seq<Evidence>, e: Evidence)
    requires rest != []
    ensures multiset(chain + [rest[0]])[e] + multiset(rest[1..])[e] == multiset(chain)[e] + multiset(rest)[e]
  {
    assert rest == [rest[0]] + rest[1..];
  }

  lemma {:induction false} AgreeingScan(periodStart: int, snapshot: int, evidence: seq<Evidence>, a: seq<Evidence>,
      b: seq<Evidence>, chain: seq<Evidence>, state: State)
    requires TiesAgree(periodStart, snapshot, evidence) && Split(periodStart, evidence, chain, a)
    requires Ordered(a) && Ordered(b) && multiset(a) == multiset(b) && (forall x <- a :: !Skippable(periodStart, x))
    requires Chain(periodStart, chain) && forall e <- chain :: e.end <= snapshot
    ensures Scan(periodStart, snapshot, a, chain, state).1 == Scan(periodStart, snapshot, b, chain, state).1
    decreases |a|
  {
    hide Judge, Chain, Ordered, Split, TiesAgree, TieState, Reaches, TiePair;
    assert |multiset(a)| == |a| && |multiset(b)| == |b|;
    if a != [] {
      if |a| >= 2 && SameKey(a[0], a[1]) {
        AgreeingTie(periodStart, snapshot, evidence, a, b, chain, state);
      } else {
        if a[0] != b[0] { FirstDifferenceIsATie(a, b); }
        JudgeMeans(periodStart, snapshot, chain, a[0]);
        if Judge(periodStart, snapshot, chain, a[0]).Take? {
          TailsPermute(a, b);
          TailOrdered(a);
          TailOrdered(b);
          SplitAdvances(periodStart, evidence, chain, a);
          ChainExtends(periodStart, chain, a[0]);
          AgreeingScan(periodStart, snapshot, evidence, a[1..], b[1..], chain + [a[0]], Proven);
        }
      }
    }
  }

  lemma AgreeingTie(periodStart: int, snapshot: int, evidence: seq<Evidence>, a: seq<Evidence>, b: seq<Evidence>,
      chain: seq<Evidence>, state: State)
    requires TiesAgree(periodStart, snapshot, evidence) && Split(periodStart, evidence, chain, a)
    requires Ordered(a) && Ordered(b) && multiset(a) == multiset(b) && (forall x <- a :: !Skippable(periodStart, x))
    requires Chain(periodStart, chain) && (forall e <- chain :: e.end <= snapshot) && |a| >= 2 && SameKey(a[0], a[1])
    ensures Scan(periodStart, snapshot, a, chain, state).1 == Scan(periodStart, snapshot, b, chain, state).1
  {
    hide Chain, Split, TieState, Scan, Judge;
    TieShared(a, b);
    FirstPairIsTie(periodStart, evidence, chain, a, a);
    FirstPairIsTie(periodStart, evidence, chain, b, a);
    SplitReaches(periodStart, snapshot, evidence, chain, a);
    hide TiePair, Reaches, Ordered;
    NotSkippable(periodStart, a, b);
    TieDecides(periodStart, snapshot, a, chain, state);
    TieDecides(periodStart, snapshot, b, chain, state);
  }

  lemma NotSkippable(periodStart: int, a: seq<Evidence>, b: seq<Evidence>)
    requires multiset(a) == multiset(b) && (forall x <- a :: !Skippable(periodStart, x))
    ensures forall x <- b :: !Skippable(periodStart, x)
  {
    forall x <- b ensures !Skippable(periodStart, x) { assert x in multiset(b); assert x in multiset(a); }
  }

  /** A tie at the head of one ordering is at the head of every other. */
  lemma TieShared(a: seq<Evidence>, b: seq<Evidence>)
    requires Ordered(a) && Ordered(b) && multiset(a) == multiset(b) && |a| >= 2 && SameKey(a[0], a[1])
    ensures |b| >= 2 && SameKey(b[0], b[1]) && SameKey(a[0], b[0])
  {
    assert |multiset(a)| == |a| && |multiset(b)| == |b|;
    if a[0] != b[0] {
      FirstDifferenceIsATie(a, b);
      FirstDifferenceIsATie(b, a);
    } else if a[1] != b[1] {
      TailsPermute(a, b);
      TailOrdered(a);
      TailOrdered(b);
      FirstDifferenceIsATie(a[1..], b[1..]);
    }
  }

  // ----- Order-freedom makes ties agree -----

  /** Moving `x`, then `y`, to the front of the rest of the evidence puts them first in their tie. */
  lemma {:induction false} InsertSplits(x: Evidence, s: seq<Evidence>) returns (i: nat)
    requires Ordered(s)
    ensures i <= |s| && Insert(x, s) == s[..i] + [x] + s[i..]
    ensures (forall e <- s[..i] :: Before(e, x)) && (forall e <- s[i..] :: !Before(e, x))
  {
    if s == [] || !Before(s[0], x) {
      i := 0;
      forall e <- s ensures !Before(e, x) {
        var j :| 0 <= j < |s| && s[j] == e;
        assert j == 0 || !Before(s[j], s[0]);
      }
      assert s[..0] + [x] + s[0..] == [x] + s;
    } else {
      TailOrdered(s);
      var j := InsertSplits(x, s[1..]);
      i := j + 1;
      assert s[..i] == [s[0]] + s[1..][..j] && s[i..] == s[1..][j..];
      assert Insert(x, s) == [s[0]] + (s[1..][..j] + [x] + s[1..][j..]);
    }
  }

  lemma {:induction false} RelevantSplits(periodStart: int, a: seq<Evidence>, b: seq<Evidence>)
    ensures Relevant(periodStart, a + b) == Relevant(periodStart, a) + Relevant(periodStart, b)
  {
    hide Skippable;
    if a == [] {
      assert a + b == b;
    } else {
      RelevantSplits(periodStart, a[1..], b);
      assert (a + b)[1..] == a[1..] + b && (a + b)[0] == a[0];
      var ra, rb := Relevant(periodStart, a[1..]), Relevant(periodStart, b);
      assert [a[0]] + (ra + rb) == [a[0]] + ra + rb && [] + (ra + rb) == [] + ra + rb;
    }
  }

  lemma Removed(s: seq<Evidence>, x: Evidence) returns (r: seq<Evidence>)
    requires x in s
    ensures multiset([x] + r) == multiset(s)
  {
    var i :| 0 <= i < |s| && s[i] == x;
    r := s[..i] + s[i + 1..];
    assert s == s[..i] + [x] + s[i + 1..];
  }

  lemma PairInFront(periodStart: int, evidence: seq<Evidence>, x: Evidence, y: Evidence) returns (rest: seq<Evidence>)
    requires TiePair(periodStart, evidence, x, y)
    ensures multiset([x, y] + rest) == multiset(evidence)
  {
    var r := Removed(evidence, x);
    assert multiset([x] + r)[y] >= if x == y then 2 else 1;
    assert y in multiset(r);
    rest := Removed(r, y);
    assert [x, y] + rest == [x] + ([y] + rest);
    assert multiset([x] + ([y] + rest)) == multiset([x]) + multiset(r) == multiset([x] + r);
  }

  /** With `x` and `y` in front the sorted evidence has everything earlier, then `x`, then `y`. */
  lemma SortedPair(periodStart: int, x: Evidence, y: Evidence, rest: seq<Evidence>) returns (early: seq<Evidence>,
      late: seq<Evidence>)
    requires SameKey(x, y)
    ensures StableSort([x, y] + rest) == early + [x, y] + late && Ordered(early)
    ensures (forall e <- early :: Before(e, x)) && (forall e <- late :: !Before(e, x))
  {
    hide Insert, Ordered, Before, SameKey, StableSort;
    var q := StableSort(rest);
    StableSortSorts(rest);
    SortTwo(x, y, rest);
    var i := InsertSplits(y, q);
    var p := Insert(y, q);
    InsertKeepsOrder(y, q);
    var j := InsertSplits(x, p);
    early, late := q[..i], q[i..];
    TiedInsert(p, early, late, x, y, j);
    PrefixOrdered(q, i);
    Glued(early, late, x, y, p, j);
    SameBefore(x, y);
  }

  lemma Glued(early: seq<Evidence>, late: seq<Evidence>, x: Evidence, y: Evidence, p: seq<Evidence>, j: nat)
    requires p == early + [y] + late && j == |early|
    ensures p[..j] + [x] + p[j..] == early + [x, y] + late
  {
    assert p[..j] == early && p[j..] == [y] + late;
  }

  lemma SortTwo(x: Evidence, y: Evidence, rest: seq<Evidence>)
    ensures StableSort([x, y] + rest) == Insert(x, Insert(y, StableSort(rest)))
  {
    hide Insert;
    var b := [x, y] + rest;
    assert b[1..] == [y] + rest && b[1..][1..] == rest;
    assert StableSort([y] + rest) == Insert(y, StableSort(rest));
  }

  lemma PrefixOrdered(s: seq<Evidence>, i: nat)
    requires Ordered(s) && i <= |s|
    ensures Ordered(s[..i])
  {
  }

  lemma SameBefore(x: Evidence, y: Evidence)
    requires SameKey(x, y)
    ensures forall e :: Before(e, x) <==> Before(e, y)
  {
  }

  lemma TiedInsert(p: seq<Evidence>, early: seq<Evidence>, late: seq<Evidence>, x: Evidence, y: Evidence, j: nat)
    requires p == early + [y] + late && SameKey(x, y) && j <= |p|
    requires (forall e <- early :: Before(e, y)) && (forall e <- p[..j] :: Before(e, x))
    requires (forall e <- p[j..] :: !Before(e, x))
    ensures j == |early|
  {
    forall i | 0 <= i < j ensures Before(p[i], x) { assert p[i] in p[..j]; }
    forall i | j <= i < |p| ensures !Before(p[i], x) { assert p[j..][i - j] == p[i] && p[i] in p[j..]; }
    forall i | 0 <= i < |early| ensures Before(p[i], x) { assert p[i] == early[i] && early[i] in early; }
    assert p[|early|] == y && !Before(p[|early|], x);
    assert j < |p| ==> !Before(p[j], x);
  }

  lemma EarlyIsChain(periodStart: int, snapshot: int, evidence: seq<Evidence>, c: seq<Evidence>, x: Evidence,
      y: Evidence, early: seq<Evidence>, late: seq<Evidence>)
    requires Reaches(periodStart, snapshot, evidence, c, x) && SameKey(x, y) && Ordered(early)
    requires multiset(early + [x, y] + late) == multiset(evidence)
    requires (forall e <- early :: Before(e, x)) && (forall e <- late :: !Before(e, x))
    ensures Relevant(periodStart, early) == c
  {
    hide Ordered, Chain;
    var r := Relevant(periodStart, early);
    RelevantOrdered(periodStart, early);
    forall e ensures multiset(r)[e] == multiset(c)[e] {
      RelevantCount(periodStart, early, e);
      EarlierCount(periodStart, evidence, x, e);
      assert multiset(early + [x, y] + late)[e] == multiset(early)[e] + multiset([x, y])[e] + multiset(late)[e];
      if Before(e, x) {
        assert e !in multiset(late) && e != x && e != y;
      } else {
        assert e !in multiset(early);
      }
    }
    assert multiset(r) == multiset(c);
    ChainIsOrdered(periodStart, c);
    OrderedWithoutTiesIsUnique(c, r);
  }

  lemma ChainIsOrdered(periodStart: int, c: seq<Evidence>)
    requires Chain(periodStart, c)
    ensures Ordered(c) && forall i, j :: 0 <= i < j < |c| ==> !SameKey(c[i], c[j])
  {
    hide Chain;
    forall i, j | 0 <= i < j < |c| ensures c[i].start < c[j].start { LinksAscend(periodStart, c, i, j); }
  }

  lemma LinksAscend(periodStart: int, c: seq<Evidence>, i: nat, j: nat)
    requires Chain(periodStart, c) && i < j < |c|
    ensures c[i].start < c[j].start
  {
    assert Link(c[i]) && c[j].start == Frontier(periodStart, c[..j]);
    ChainPrefix(periodStart, c, j);
    hide Chain;
    ChainStartsInOrder(periodStart, c[..j]);
    assert c[..j][i] == c[i] && c[..j][i] in c[..j];
  }

  lemma {:induction false} ChainPrefix(periodStart: int, c: seq<Evidence>, n: nat)
    requires Chain(periodStart, c) && n <= |c|
    ensures Chain(periodStart, c[..n])
    decreases |c|
  {
    hide Chain;
    if n < |c| {
      ChainShrinks(periodStart, c);
      ChainPrefix(periodStart, c[..|c| - 1], n);
      assert c[..|c| - 1][..n] == c[..n];
    } else {
      assert c[..n] == c;
    }
  }

  /** Some arrival order realises each pair of a tie that is reached. */
  lemma PairIsRealised(periodStart: int, snapshot: int, evidence: seq<Evidence>, c: seq<Evidence>, x: Evidence,
      y: Evidence) returns (b: seq<Evidence>)
    requires Reaches(periodStart, snapshot, evidence, c, x) && TiePair(periodStart, evidence, x, y)
    ensures multiset(b) == multiset(evidence)
    ensures Proved(periodStart, snapshot, b).1 == TieState(periodStart, snapshot, c, x, y)
  {
    hide Scan, Judge, Chain, Ordered, StableSort, TieState;
    var rest := PairInFront(periodStart, evidence, x, y);
    b := [x, y] + rest;
    var early, late := SortedPair(periodStart, x, y, rest);
    StableSortSorts(b);
    EarlyIsChain(periodStart, snapshot, evidence, c, x, y, early, late);
    var s := early + [x, y] + late;
    StateOfRelevant(periodStart, snapshot, s, [], Unknown);
    var t := Relevant(periodStart, late);
    RelevantOfPair(periodStart, early, x, y, late);
    hide Reaches, Relevant;
    ScanReachesPair(periodStart, snapshot, c, x, y, t);
  }

  lemma RelevantOfPair(periodStart: int, early: seq<Evidence>, x: Evidence, y: Evidence, late: seq<Evidence>)
    requires !Skippable(periodStart, x) && !Skippable(periodStart, y)
    ensures Relevant(periodStart, early + [x, y] + late) ==
            Relevant(periodStart, early) + [x, y] + Relevant(periodStart, late)
  {
    RelevantSplits(periodStart, early + [x, y], late);
    RelevantSplits(periodStart, early, [x, y]);
    assert [x, y][1..] == [y] && [y][1..] == [];
    assert Relevant(periodStart, [y]) == [y] + [] == [y];
    assert Relevant(periodStart, [x, y]) == [x] + [y] == [x, y];
  }

  lemma ScanReachesPair(periodStart: int, snapshot: int, c: seq<Evidence>, x: Evidence, y: Evidence, t: seq<Evidence>)
    requires Chain(periodStart, c) && (forall e <- c :: e.end <= snapshot)
    requires SameKey(x, y) && !Skippable(periodStart, x) && !Skippable(periodStart, y)
    ensures Scan(periodStart, snapshot, c + [x, y] + t, [], Unknown).1 == TieState(periodStart, snapshot, c, x, y)
  {
    hide Scan, Judge, Chain, TieState;
    var s, n := c + [x, y] + t, |c|;
    assert s[..n] == c && s[n..] == [x, y] + t && s[0..] == s && s[..0] == [];
    ScanTakesPrefix(periodStart, snapshot, s, 0, n, Unknown);
    TieDecides(periodStart, snapshot, s[n..], c, if 0 < n then Proven else Unknown);
  }

  /**
   The state is the same for every arrival order of the evidence exactly when, at a tie that the evaluation
   reaches, every two members in either order yield one and the same state.
   */
  lemma StateOrderFreeIff(periodStart: int, snapshot: int, evidence: seq<Evidence>)
    ensures OrderFree(periodStart, snapshot, evidence) <==> TiesAgree(periodStart, snapshot, evidence)
  {
    if TiesAgree(periodStart, snapshot, evidence) {
      forall b | multiset(b) == multiset(evidence)
        ensures Proved(periodStart, snapshot, b).1 == Proved(periodStart, snapshot, evidence).1
      {
        AgreeingState(periodStart, snapshot, evidence, b);
      }
    }
    if OrderFree(periodStart, snapshot, evidence) { OrderFreeAgrees(periodStart, snapshot, evidence); }
  }

  lemma OrderFreeAgrees(periodStart: int, snapshot: int, evidence: seq<Evidence>)
    requires OrderFree(periodStart, snapshot, evidence)
    ensures TiesAgree(periodStart, snapshot, evidence)
  {
    hide TieState, Proved, Chain;
    forall c, x, y, z, w | Reaches(periodStart, snapshot, evidence, c, x) && TiePair(periodStart, evidence, x, y)
                           && TiePair(periodStart, evidence, z, w) && SameKey(x, z)
      ensures TieState(periodStart, snapshot, c, x, y) == TieState(periodStart, snapshot, c, z, w)
    {
      EarlierOfTie(periodStart, evidence, x, z);
      var a := PairIsRealised(periodStart, snapshot, evidence, c, x, y);
      var b := PairIsRealised(periodStart, snapshot, evidence, c, z, w);
    }
  }

  lemma {:induction false} EarlierOfTie(periodStart: int, evidence: seq<Evidence>, x: Evidence, z: Evidence)
    requires SameKey(x, z)
    ensures Earlier(periodStart, evidence, x) == Earlier(periodStart, evidence, z)
  {
    if evidence != [] { EarlierOfTie(periodStart, evidence[1..], x, z); }
  }

  lemma AgreeingState(periodStart: int, snapshot: int, evidence: seq<Evidence>, b: seq<Evidence>)
    requires TiesAgree(periodStart, snapshot, evidence) && multiset(b) == multiset(evidence)
    ensures Proved(periodStart, snapshot, b).1 == Proved(periodStart, snapshot, evidence).1
  {
    hide Scan, StableSort, Relevant, Chain, Ordered, TiesAgree;
    var sa, sb := StableSort(evidence), StableSort(b);
    StableSortSorts(evidence);
    StableSortSorts(b);
    var ra, rb := Relevant(periodStart, sa), Relevant(periodStart, sb);
    RelevantOrdered(periodStart, sa);
    RelevantOrdered(periodStart, sb);
    forall e
      ensures multiset(ra)[e] == multiset(rb)[e] && multiset(ra)[e] == if Skippable(periodStart, e) then 0
                                                                       else multiset(evidence)[e]
    {
      RelevantCount(periodStart, sa, e);
      RelevantCount(periodStart, sb, e);
    }
    assert multiset(ra) == multiset(rb);
    assert Split(periodStart, evidence, [], ra);
    EmptyChain(periodStart);
    StateOfRelevant(periodStart, snapshot, sa, [], Unknown);
    StateOfRelevant(periodStart, snapshot, sb, [], Unknown);
    AgreeingScan(periodStart, snapshot, evidence, ra, rb, [], Unknown);
  }

  /** Without ties chain and state are both order-free ... */
  lemma StateNeedsNoTies(periodStart: int, snapshot: int, a: seq<Evidence>, b: seq<Evidence>)
    requires multiset(a) == multiset(b) && forall i, j :: 0 <= i < j < |a| ==> !SameKey(a[i], a[j])
    ensures Proved(periodStart, snapshot, a) == Proved(periodStart, snapshot, b)
  {
    hide Proved, TieState, Chain, OrderFree;
    forall x, y ensures !TiePair(periodStart, a, x, y) {
      if TiePair(periodStart, a, x, y) { TieHasIndices(periodStart, a, x, y); }
    }
    StateOrderFreeIff(periodStart, snapshot, a);
    assert TiesAgree(periodStart, snapshot, a);
    OrderFreeMeans(periodStart, snapshot, a, b);
    ArrivalOrderIsIrrelevant(periodStart, snapshot, a, b);
  }

  lemma OrderFreeMeans(periodStart: int, snapshot: int, a: seq<Evidence>, b: seq<Evidence>)
    requires OrderFree(periodStart, snapshot, a) && multiset(a) == multiset(b)
    ensures Proved(periodStart, snapshot, b).1 == Proved(periodStart, snapshot, a).1
  {
  }

  lemma TieHasIndices(periodStart: int, a: seq<Evidence>, x: Evidence, y: Evidence)
    requires TiePair(periodStart, a, x, y)
    ensures exists i, j :: 0 <= i < j < |a| && SameKey(a[i], a[j])
  {
    var i :| 0 <= i < |a| && a[i] == x;
    if x != y {
      var j :| 0 <= j < |a| && a[j] == y;
      assert SameKey(a[i], a[j]) && SameKey(a[j], a[i]);
      assert i < j || j < i;
    } else {
      assert a == a[..i] + [x] + a[i + 1..];
      assert multiset(a) == multiset(a[..i]) + multiset{x} + multiset(a[i + 1..]);
      assert x in multiset(a[..i]) || x in multiset(a[i + 1..]);
      if x in a[..i] {
        var j :| 0 <= j < i && a[..i][j] == x;
        assert SameKey(a[j], a[i]);
      } else {
        var j :| 0 <= j < |a| - i - 1 && a[i + 1..][j] == x;
        assert SameKey(a[i], a[i + 1 + j]);
      }
    }
  }

  const CONFLICTING := Evidence(0, 5, 1, 0, 0, 0.0, true, true, None)
  const UNATTRIBUTABLE := Evidence(0, 5, 1, 0, 0, 0.0, false, false, None)

  /** ... and with a tie the state may not be: a conflicting and an unattributable interval race for it. */
  lemma StateDependsOnTieOrder()
    ensures Proved(0, 10, [CONFLICTING, UNATTRIBUTABLE]).1 == Ambiguous
    ensures Proved(0, 10, [UNATTRIBUTABLE, CONFLICTING]).1 == Unattributable
  {
    var x, y := CONFLICTING, UNATTRIBUTABLE;
    assert StableSort([x, y][1..]) == [y] by { assert [x, y][1..] == [y]; assert [y][1..] == []; }
    assert StableSort([y, x][1..]) == [x] by { assert [y, x][1..] == [x]; assert [x][1..] == []; }
    assert Proved(0, 10, [x, y]).1 == Ambiguous;
    assert Proved(0, 10, [y, x]).1 == Unattributable;
  }
}
