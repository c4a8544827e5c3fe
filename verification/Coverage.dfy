/**
 The continuously proven energy prefix of a period: evidence intervals are judged in interval order,
 and the answer is the longest chain that is proven from the period start, withdrawn by one interval
 when later evidence contradicts its last link.
 Instants are integers; energy in kWh is an exact real, rounded to micro-kWh where the program rounds.
 */
module Coverage {
  import opened Common

  datatype State = Proven | Gap | Unknown | Ambiguous | Unattributable

  datatype Evidence = Evidence(start: int, end: int, device: nat, boot: int, sequence: int,
                               energyKwh: real, conflict: bool, attributable: bool, barrier: Option<State>)

  datatype Result = Result(kwh: Option<real>, throughAt: Option<int>, state: State)

  // ----- Interval order -----

  predicate Before(a: Evidence, b: Evidence) {
    a.start < b.start || (a.start == b.start && a.end < b.end)
  }

  predicate SameKey(a: Evidence, b: Evidence) {
    a.start == b.start && a.end == b.end
  }

  ghost predicate Ordered(s: seq<Evidence>) {
    forall i, j :: 0 <= i < j < |s| ==> !Before(s[j], s[i])
  }

  lemma TailOrdered(s: seq<Evidence>)
    requires Ordered(s) && s != []
    ensures Ordered(s[1..]) && s == [s[0]] + s[1..]
    ensures forall y <- s[1..] :: !Before(y, s[0]) && s[0].start <= y.start
  {
    forall y <- s[1..] ensures !Before(y, s[0]) {
      var j :| 0 <= j < |s| - 1 && s[1..][j] == y;
      assert !Before(s[j + 1], s[0]);
    }
  }

  lemma TailsPermute(a: seq<Evidence>, b: seq<Evidence>)
    requires a != [] && b != [] && a[0] == b[0] && multiset(a) == multiset(b)
    ensures multiset(a[1..]) == multiset(b[1..])
  {
    assert a == [a[0]] + a[1..] && b == [b[0]] + b[1..];
    assert multiset(a[1..]) == multiset(a) - multiset{a[0]} == multiset(b[1..]);
  }

  function Tied(s: seq<Evidence>, k: Evidence): seq<Evidence> {
    if s == [] then [] else (if SameKey(s[0], k) then [s[0]] else []) + Tied(s[1..], k)
  }

  function Insert(x: Evidence, s: seq<Evidence>): seq<Evidence> {
    if s == [] || !Before(s[0], x) then [x] + s else [s[0]] + Insert(x, s[1..])
  }

  function StableSort(s: seq<Evidence>): seq<Evidence> {
    if s == [] then [] else Insert(s[0], StableSort(s[1..]))
  }

  lemma {:induction false} InsertKeepsOrder(x: Evidence, s: seq<Evidence>)
    requires Ordered(s)
    ensures Ordered(Insert(x, s))
    ensures multiset(Insert(x, s)) == multiset{x} + multiset(s)
  {
    if s == [] {
    } else if !Before(s[0], x) {
      forall j | 0 <= j < |s| ensures !Before(s[j], x) { assert j == 0 || !Before(s[j], s[0]); }
    } else {
      InsertKeepsOrder(x, s[1..]);
      var r := Insert(x, s[1..]);
      assert s == [s[0]] + s[1..];
      forall j | 0 <= j < |r| ensures !Before(r[j], s[0]) {
        assert r[j] in multiset(r);
        assert r[j] == x || r[j] in s[1..];
      }
    }
  }

  lemma {:induction false} InsertKeepsTies(x: Evidence, s: seq<Evidence>, k: Evidence)
    ensures Tied(Insert(x, s), k) == Tied([x] + s, k)
  {
    if s == [] || !Before(s[0], x) {
    } else {
      InsertKeepsTies(x, s[1..], k);
      assert ([x] + s)[1..] == s && ([x] + s[1..])[1..] == s[1..];
      assert ([s[0]] + Insert(x, s[1..]))[1..] == Insert(x, s[1..]);
    }
  }

  /** Ordered, a permutation, and (next lemma) stable: together these fix the sorted sequence uniquely. */
  lemma {:induction false} StableSortSorts(s: seq<Evidence>)
    ensures Ordered(StableSort(s)) && multiset(StableSort(s)) == multiset(s)
  {
    if s != [] {
      StableSortSorts(s[1..]);
      InsertKeepsOrder(s[0], StableSort(s[1..]));
      assert s == [s[0]] + s[1..];
    }
  }

  lemma {:induction false} StableSortIsStable(s: seq<Evidence>, k: Evidence)
    ensures Tied(StableSort(s), k) == Tied(s, k)
  {
    if s != [] {
      StableSortIsStable(s[1..], k);
      InsertKeepsTies(s[0], StableSort(s[1..]), k);
      assert ([s[0]] + StableSort(s[1..]))[1..] == StableSort(s[1..]);
    }
  }

  // ----- What a proven chain is -----

  function CanonicalEnergyMicros(kwh: real): int {
    if kwh < 0.0 then 0 else (kwh * 1000000.0 + 0.5).Floor
  }

  function TotalMicros(chain: seq<Evidence>): int {
    if chain == [] then 0 else TotalMicros(chain[..|chain| - 1]) + CanonicalEnergyMicros(Last(chain).energyKwh)
  }

  lemma TotalExtends(chain: seq<Evidence>, x: Evidence)
    ensures TotalMicros(chain + [x]) == TotalMicros(chain) + CanonicalEnergyMicros(x.energyKwh)
  {
    assert (chain + [x])[..|chain|] == chain;
  }

  function Frontier(periodStart: int, chain: seq<Evidence>): int {
    if chain == [] then periodStart else Last(chain).end
  }

  /** Same-device neighbours carry consecutive sequences, or a later boot restarting at sequence 0. */
  predicate Follows(previous: Evidence, current: Evidence) {
    || current.device != previous.device
    || (current.boot == previous.boot && current.sequence == previous.sequence + 1)
    || (current.boot > previous.boot && current.sequence == 0)
  }

  ghost predicate Link(x: Evidence) {
    x.start < x.end && x.attributable && !x.conflict && x.barrier.None?
  }

  /** Attributable, conflict-free intervals tiling the window from the period start without gap or overlap. */
  ghost predicate Chain(periodStart: int, chain: seq<Evidence>) {
    && (forall i :: 0 <= i < |chain| ==> Link(chain[i]))
    && (forall i :: 0 <= i < |chain| ==> chain[i].start == Frontier(periodStart, chain[..i]))
    && (forall i {:trigger chain[i]} :: 0 < i < |chain| ==> Follows(chain[i - 1], chain[i]))
  }

  // ----- One interval at a time -----

  datatype Verdict = Skip | Take | Stop(state: State, retreat: bool)

  function Judge(periodStart: int, snapshot: int, chain: seq<Evidence>, x: Evidence): (v: Verdict)
    ensures v.Stop? && v.retreat ==> chain != []
  {
    var frontier := Frontier(periodStart, chain);
    if x.barrier.None? && x.end <= periodStart then Skip
    else if x.start < periodStart then
      if x.barrier.Some? then Skip else Stop(Unknown, false)
    else if x.end > snapshot then Stop(Unknown, false)
    else if x.barrier.Some? then Stop(x.barrier.value, x.start < frontier)
    else if x.start < frontier then Stop(Ambiguous, true)
    else if x.start > frontier then Stop(Gap, false)
    else if x.conflict then Stop(Ambiguous, false)
    else if !x.attributable then Stop(Unattributable, false)
    else if chain != [] && !Follows(Last(chain), x) then
      Stop(if x.boot == Last(chain).boot then Gap else Ambiguous, false)
    else if x.end <= x.start then Stop(Gap, false)
    else Take
  }

  predicate Skippable(periodStart: int, x: Evidence) {
    if x.barrier.None? then x.end <= periodStart else x.start < periodStart
  }

  lemma JudgeMeans(periodStart: int, snapshot: int, chain: seq<Evidence>, x: Evidence)
    ensures var v, frontier := Judge(periodStart, snapshot, chain, x), Frontier(periodStart, chain);
            && (v.Skip? <==> Skippable(periodStart, x))
            && (v.Take? ==>
                  && Link(x) && periodStart <= x.start == frontier && x.end <= snapshot
                  && (chain != [] ==> Follows(Last(chain), x)))
            && (v.Stop? && v.retreat ==> chain != [] && periodStart <= x.start < frontier && x.end <= snapshot)
            && (v.Stop? && !v.retreat && x.end <= snapshot ==> x.start < periodStart || frontier <= x.start)
  {
  }

  /** The chain and state reached from `chain` after judging the intervals of `s` in turn. */
  function Scan(periodStart: int, snapshot: int, s: seq<Evidence>, chain: seq<Evidence>, state: State): (seq<Evidence>,
      State) {
    if s == [] then (chain, state)
    else match Judge(periodStart, snapshot, chain, s[0])
      case Skip => Scan(periodStart, snapshot, s[1..], chain, state)
      case Take => Scan(periodStart, snapshot, s[1..], chain + [s[0]], Proven)
      case Stop(l, retreat) => (if retreat then chain[..|chain| - 1] else chain, l)
  }

  lemma {:induction false} ScanStep(periodStart: int, snapshot: int, s: seq<Evidence>, i: nat, chain: seq<Evidence>,
      state: State)
    requires i < |s|
    ensures Scan(periodStart, snapshot, s[i..], chain, state) ==
            match Judge(periodStart, snapshot, chain, s[i])
            case Skip => Scan(periodStart, snapshot, s[i + 1..], chain, state)
            case Take => Scan(periodStart, snapshot, s[i + 1..], chain + [s[i]], Proven)
            case Stop(l, retreat) => (if retreat then chain[..|chain| - 1] else chain, l)
  {
    assert s[i..][1..] == s[i + 1..];
  }

  lemma ScanEnds(periodStart: int, snapshot: int, s: seq<Evidence>, chain: seq<Evidence>, state: State)
    ensures Scan(periodStart, snapshot, s[|s|..], chain, state) == (chain, state)
  {
  }

  function Proved(periodStart: int, snapshot: int, evidence: seq<Evidence>): (seq<Evidence>, State) {
    Scan(periodStart, snapshot, StableSort(evidence), [], Unknown)
  }

  function Report(periodStart: int, chain: seq<Evidence>, state: State): Result {
    if Frontier(periodStart, chain) == periodStart then Result(None, None, state)
    else Result(Some(TotalMicros(chain) as real / 1000000.0), Some(Frontier(periodStart, chain)), state)
  }

  // ----- The reported energy is the energy of a chain -----

  lemma EmptyChain(periodStart: int)
    ensures Chain(periodStart, []) && TotalMicros([]) == 0
  {
  }

  lemma ChainExtends(periodStart: int, chain: seq<Evidence>, x: Evidence)
    requires Chain(periodStart, chain) && Link(x) && x.start == Frontier(periodStart, chain)
    requires chain != [] ==> Follows(Last(chain), x)
    ensures Chain(periodStart, chain + [x])
  {
    hide Link, Follows, Frontier;
    var c := chain + [x];
    forall i | 0 <= i < |c| ensures Link(c[i]) && c[i].start == Frontier(periodStart, c[..i]) {
      if i < |chain| {
        assert c[..i] == chain[..i] && c[i] == chain[i];
      } else {
        assert c[..i] == chain;
      }
    }
    forall i {:trigger c[i]} | 0 < i < |c| ensures Follows(c[i - 1], c[i]) {
      if i < |chain| { assert Follows(chain[i - 1], chain[i]); }
    }
  }

  lemma ChainShrinks(periodStart: int, chain: seq<Evidence>)
    requires Chain(periodStart, chain) && chain != []
    ensures Chain(periodStart, chain[..|chain| - 1])
    ensures Frontier(periodStart, chain[..|chain| - 1]) == Last(chain).start
  {
    var c := chain[..|chain| - 1];
    forall i | 0 <= i < |c| ensures c[i].start == Frontier(periodStart, c[..i]) {
      assert c[..i] == chain[..i];
    }
  }

  /** A chain covers every instant of its window, so a point inside it always lies in some link. */
  lemma {:induction false} ChainCovers(periodStart: int, chain: seq<Evidence>, point: int)
    requires Chain(periodStart, chain) && periodStart <= point < Frontier(periodStart, chain)
    ensures exists i :: 0 <= i < |chain| && chain[i].start <= point < chain[i].end
  {
    ChainShrinks(periodStart, chain);
    if point < Last(chain).start {
      ChainCovers(periodStart, chain[..|chain| - 1], point);
      var i :| 0 <= i < |chain| - 1 && chain[..|chain| - 1][i].start <= point < chain[..|chain| - 1][i].end;
      assert chain[i].start <= point < chain[i].end;
    } else {
      assert chain[|chain| - 1].start <= point < chain[|chain| - 1].end;
    }
  }

  lemma {:induction false} ScanBuildsChain(periodStart: int, snapshot: int, s: seq<Evidence>, chain: seq<Evidence>,
      state: State)
    requires Chain(periodStart, chain) && (forall x <- chain :: x.end <= snapshot)
    ensures var c := Scan(periodStart, snapshot, s, chain, state).0;
            && Chain(periodStart, c) && (forall x <- c :: x.end <= snapshot)
            && multiset(c) <= multiset(chain) + multiset(s)
  {
    hide Judge, Chain;
    if s != [] {
      var x := s[0];
      JudgeMeans(periodStart, snapshot, chain, x);
      assert s == [x] + s[1..];
      match Judge(periodStart, snapshot, chain, x)
      case Skip => ScanBuildsChain(periodStart, snapshot, s[1..], chain, state);
      case Take =>
        ChainExtends(periodStart, chain, x);
        ScanBuildsChain(periodStart, snapshot, s[1..], chain + [x], Proven);
      case Stop(_, retreat) =>
        if retreat {
          ChainShrinks(periodStart, chain);
          assert chain == chain[..|chain| - 1] + [Last(chain)];
        }
    }
  }

  /** The reported chain is built from the evidence given, tiles [periodStart, throughAt) and ends by the snapshot. */
  lemma ReportedEnergyIsAChain(periodStart: int, snapshot: int, evidence: seq<Evidence>)
    ensures var (chain, state) := Proved(periodStart, snapshot, evidence);
            && Chain(periodStart, chain)
            && multiset(chain) <= multiset(evidence)
            && (chain != [] ==> periodStart < Frontier(periodStart, chain) <= snapshot)
            && Report(periodStart, chain, state) ==
               if chain == [] then Result(None, None, state)
               else Result(Some(TotalMicros(chain) as real / 1000000.0), Some(Last(chain).end), state)
  {
    hide Judge, Scan, StableSort;
    StableSortSorts(evidence);
    ScanBuildsChain(periodStart, snapshot, StableSort(evidence), [], Unknown);
    var chain := Proved(periodStart, snapshot, evidence).0;
    ChainStartsInOrder(periodStart, chain);
  }

  lemma {:induction false} ChainStartsInOrder(periodStart: int, chain: seq<Evidence>)
    requires Chain(periodStart, chain)
    ensures forall x <- chain :: periodStart <= x.start < x.end <= Frontier(periodStart, chain)
  {
    if chain != [] {
      ChainShrinks(periodStart, chain);
      ChainStartsInOrder(periodStart, chain[..|chain| - 1]);
      assert chain == chain[..|chain| - 1] + [Last(chain)];
      assert Link(chain[|chain| - 1]);
    }
  }

  lemma EarlierLinksEndFirst(periodStart: int, chain: seq<Evidence>)
    requires Chain(periodStart, chain) && chain != []
    ensures Last(chain).start < Last(chain).end
    ensures Frontier(periodStart, chain[..|chain| - 1]) == Last(chain).start
    ensures forall i :: 0 <= i < |chain| - 1 ==> chain[i].end <= Last(chain).start
  {
    ChainShrinks(periodStart, chain);
    ChainStartsInOrder(periodStart, chain[..|chain| - 1]);
    assert Link(chain[|chain| - 1]);
    assert forall i :: 0 <= i < |chain| - 1 ==> chain[i] in chain[..|chain| - 1];
  }

  // ----- The evidence that starts in a window -----

  predicate StartsIn(x: Evidence, from: int, to: int) { from <= x.start < to }

  function Window(s: seq<Evidence>, from: int, to: int): seq<Evidence> {
    if s == [] then [] else (if StartsIn(s[0], from, to) then [s[0]] else []) + Window(s[1..], from, to)
  }

  lemma {:induction false} WindowOfLate(s: seq<Evidence>, from: int, to: int)
    requires to <= from || forall x <- s :: to <= x.start
    ensures Window(s, from, to) == []
  {
    if s != [] { WindowOfLate(s[1..], from, to); }
  }

  // ----- Nothing provable is left out -----

  /** What the next interval must satisfy to be proven. */
  ghost predicate Extends(periodStart: int, snapshot: int, chain: seq<Evidence>, x: Evidence) {
    && Link(x) && x.start == Frontier(periodStart, chain) && x.end <= snapshot
    && (chain != [] ==> Follows(Last(chain), x))
  }

  ghost predicate Contradicts(periodStart: int, snapshot: int, chain: seq<Evidence>, x: Evidence) {
    periodStart <= x.start < Frontier(periodStart, chain) && x.end <= snapshot
  }

  lemma TakesExactlyExtensions(periodStart: int, snapshot: int, chain: seq<Evidence>, x: Evidence)
    requires periodStart <= Frontier(periodStart, chain)
    ensures Judge(periodStart, snapshot, chain, x).Take? <==> Extends(periodStart, snapshot, chain, x)
  {
  }

  lemma PrefixExtends(periodStart: int, snapshot: int, c: seq<Evidence>, i: nat)
    requires Chain(periodStart, c) && (forall x <- c :: x.end <= snapshot) && i < |c|
    ensures Extends(periodStart, snapshot, c[..i], c[i]) && periodStart <= Frontier(periodStart, c[..i])
  {
    ChainStartsInOrder(periodStart, c);
    assert Link(c[i]) && c[i].start == Frontier(periodStart, c[..i]) && c[i] in c;
    assert i > 0 ==> Follows(c[i - 1], c[i]);
  }

  lemma {:induction false} ScanTakesPrefix(periodStart: int, snapshot: int, s: seq<Evidence>, i: nat, n: nat,
      state: State)
    requires i <= n <= |s| && Chain(periodStart, s[..n]) && forall x <- s[..n] :: x.end <= snapshot
    ensures Scan(periodStart, snapshot, s[i..], s[..i], state) ==
            Scan(periodStart, snapshot, s[n..], s[..n], if i < n then Proven else state)
    decreases n - i
  {
    hide Judge, Scan, Chain, Extends;
    if i < n {
      PrefixExtends(periodStart, snapshot, s[..n], i);
      assert s[..n][..i] == s[..i];
      TakesExactlyExtensions(periodStart, snapshot, s[..i], s[i]);
      ScanStep(periodStart, snapshot, s, i, s[..i], state);
      assert s[..i] + [s[i]] == s[..i + 1];
      ScanTakesPrefix(periodStart, snapshot, s, i + 1, n, Proven);
    }
  }

  lemma ScanStops(periodStart: int, snapshot: int, s: seq<Evidence>, n: nat, chain: seq<Evidence>, state: State)
    requires n < |s| && !Skippable(periodStart, s[n]) && !Extends(periodStart, snapshot, chain, s[n])
    requires periodStart <= Frontier(periodStart, chain)
    ensures Scan(periodStart, snapshot, s[n..], chain, state).0 ==
            if Contradicts(periodStart, snapshot, chain, s[n]) then chain[..|chain| - 1] else chain
  {
    hide Scan, Judge, Extends;
    ScanStep(periodStart, snapshot, s, n, chain, state);
    TakesExactlyExtensions(periodStart, snapshot, chain, s[n]);
    JudgeMeans(periodStart, snapshot, chain, s[n]);
  }

  lemma FrontierNotEarlier(periodStart: int, chain: seq<Evidence>)
    requires Chain(periodStart, chain)
    ensures periodStart <= Frontier(periodStart, chain)
  {
    ChainStartsInOrder(periodStart, chain);
    assert chain != [] ==> Last(chain) in chain;
  }

  lemma ScanLongestPrefix(periodStart: int, snapshot: int, s: seq<Evidence>, n: nat)
    requires n <= |s| && Chain(periodStart, s[..n]) && (forall x <- s[..n] :: x.end <= snapshot)
    requires (forall x <- s :: !Skippable(periodStart, x))
    requires n < |s| ==> !Extends(periodStart, snapshot, s[..n], s[n])
    ensures Scan(periodStart, snapshot, s, [], Unknown).0 ==
            if n < |s| && Contradicts(periodStart, snapshot, s[..n], s[n]) then s[..n - 1] else s[..n]
  {
    hide Scan, Chain, Extends;
    ScanTakesPrefix(periodStart, snapshot, s, 0, n, Unknown);
    assert s[0..] == s && s[..0] == [];
    FrontierNotEarlier(periodStart, s[..n]);
    var state := if 0 < n then Proven else Unknown;
    if n < |s| {
      assert s[n] in s;
      ScanStops(periodStart, snapshot, s, n, s[..n], state);
      assert n > 0 ==> s[..n][..n - 1] == s[..n - 1];
    } else {
      ScanEnds(periodStart, snapshot, s, s[..n], state);
    }
  }

  /**
   The relevant evidence, in order, is proven up to the first interval that does not extend the chain; that
   interval withdraws the last link exactly when it starts inside the chain and ends by the snapshot.
   */
  lemma LongestProvenPrefix(periodStart: int, snapshot: int, evidence: seq<Evidence>, n: nat)
    requires var s := Relevant(periodStart, StableSort(evidence));
             && n <= |s| && Chain(periodStart, s[..n]) && (forall x <- s[..n] :: x.end <= snapshot)
             && (n < |s| ==> !Extends(periodStart, snapshot, s[..n], s[n]))
    ensures var s := Relevant(periodStart, StableSort(evidence));
            Proved(periodStart, snapshot, evidence).0 ==
            if n < |s| && Contradicts(periodStart, snapshot, s[..n], s[n]) then s[..n - 1] else s[..n]
  {
    hide Scan, StableSort, Relevant, Chain, Extends, Contradicts, Ordered;
    StableSortSorts(evidence);
    RelevantOrdered(periodStart, StableSort(evidence));
    ScanOfRelevant(periodStart, snapshot, StableSort(evidence), [], Unknown);
    ScanLongestPrefix(periodStart, snapshot, Relevant(periodStart, StableSort(evidence)), n);
  }

  // ----- What starts inside the reported window -----

  /** How many intervals of `s`, from the i-th on, extend the chain before it one after the other. */
  ghost function ProvenLength(periodStart: int, snapshot: int, s: seq<Evidence>, i: nat): (n: nat)
    requires i <= |s|
    ensures i <= n <= |s| && (n < |s| ==> !Extends(periodStart, snapshot, s[..n], s[n]))
    decreases |s| - i
  {
    if i < |s| && Extends(periodStart, snapshot, s[..i], s[i]) then ProvenLength(periodStart, snapshot, s, i + 1) else i
  }

  lemma {:induction false} ProvenLengthIsChain(periodStart: int, snapshot: int, s: seq<Evidence>, i: nat)
    requires i <= |s| && Chain(periodStart, s[..i]) && forall x <- s[..i] :: x.end <= snapshot
    ensures var n := ProvenLength(periodStart, snapshot, s, i);
            Chain(periodStart, s[..n]) && forall x <- s[..n] :: x.end <= snapshot
    decreases |s| - i
  {
    hide Chain;
    if i < |s| && Extends(periodStart, snapshot, s[..i], s[i]) {
      ChainExtends(periodStart, s[..i], s[i]);
      assert s[..i + 1] == s[..i] + [s[i]];
      ProvenLengthIsChain(periodStart, snapshot, s, i + 1);
    }
  }

  /** The first interval that does not extend the chain starts inside it but ends past the snapshot. */
  ghost predicate Overshoots(periodStart: int, snapshot: int, s: seq<Evidence>, n: nat)
    requires n <= |s|
  {
    n < |s| && StartsIn(s[n], periodStart, Frontier(periodStart, s[..n])) && s[n].end > snapshot
  }

  /** An inverted interval, too early by its end, that nevertheless starts in the window. */
  predicate Inverted(x: Evidence, periodStart: int, to: int) {
    x.barrier.None? && x.end <= periodStart <= x.start < to
  }

  lemma {:induction false} WindowSplits(a: seq<Evidence>, b: seq<Evidence>, from: int, to: int)
    ensures Window(a + b, from, to) == Window(a, from, to) + Window(b, from, to)
  {
    if a == [] {
      assert a + b == b;
    } else {
      WindowSplits(a[1..], b, from, to);
      assert (a + b)[1..] == a[1..] + b;
    }
  }

  lemma {:induction false} WindowOfAll(s: seq<Evidence>, from: int, to: int)
    requires forall x <- s :: StartsIn(x, from, to)
    ensures Window(s, from, to) == s
  {
    if s != [] { WindowOfAll(s[1..], from, to); }
  }

  lemma {:induction false} WindowMembers(s: seq<Evidence>, from: int, to: int, x: Evidence)
    ensures x in Window(s, from, to) <==> x in s && StartsIn(x, from, to)
  {
    if s != [] {
      WindowMembers(s[1..], from, to, x);
      assert s == [s[0]] + s[1..];
    }
  }

  lemma {:induction false} WindowOfRelevant(periodStart: int, s: seq<Evidence>, to: int)
    requires forall x <- s :: Skippable(periodStart, x) ==> !StartsIn(x, periodStart, to)
    ensures Window(s, periodStart, to) == Window(Relevant(periodStart, s), periodStart, to)
  {
    if s != [] {
      WindowOfRelevant(periodStart, s[1..], to);
      var r := Relevant(periodStart, s[1..]);
      assert s[0] in s;
      assert Relevant(periodStart, s) == if Skippable(periodStart, s[0]) then r else [s[0]] + r;
      assert ([s[0]] + r)[1..] == r;
    }
  }

  lemma StartsAtLeast(s: seq<Evidence>, n: nat)
    requires Ordered(s) && n < |s|
    ensures forall x <- s[n..] :: s[n].start <= x.start
  {
    forall x <- s[n..] ensures s[n].start <= x.start {
      var j :| 0 <= j < |s| - n && s[n..][j] == x;
      assert j == 0 || !Before(s[n + j], s[n]);
    }
  }

  /** The chain reported for relevant, ordered evidence of which the first `n` intervals are proven. */
  function Remaining(periodStart: int, snapshot: int, s: seq<Evidence>, n: nat): seq<Evidence>
    requires n <= |s|
  {
    if n < |s| && 0 < n && periodStart <= s[n].start < Frontier(periodStart, s[..n]) && s[n].end <= snapshot
    then s[..n - 1] else s[..n]
  }

  lemma WindowOfChain(periodStart: int, chain: seq<Evidence>)
    requires Chain(periodStart, chain)
    ensures Window(chain, periodStart, Frontier(periodStart, chain)) == chain
  {
    ChainStartsInOrder(periodStart, chain);
    WindowOfAll(chain, periodStart, Frontier(periodStart, chain));
  }

  lemma WindowOfPrefix(periodStart: int, s: seq<Evidence>, m: nat)
    requires Ordered(s) && m <= |s| && Chain(periodStart, s[..m])
    requires m < |s| ==> Frontier(periodStart, s[..m]) <= s[m].start || Frontier(periodStart, s[..m]) <= periodStart
    ensures Window(s, periodStart, Frontier(periodStart, s[..m])) == s[..m]
  {
    hide Chain, Ordered;
    var to := Frontier(periodStart, s[..m]);
    WindowOfChain(periodStart, s[..m]);
    if m < |s| { StartsAtLeast(s, m); }
    WindowOfLate(s[m..], periodStart, to);
    WindowSplits(s[..m], s[m..], periodStart, to);
    assert s[..m] + s[m..] == s && s[..m] + [] == s[..m];
  }

  lemma OvershootIsInWindow(periodStart: int, snapshot: int, s: seq<Evidence>, n: nat)
    requires n <= |s| && Overshoots(periodStart, snapshot, s, n) && Chain(periodStart, s[..n])
    ensures Window(s, periodStart, Frontier(periodStart, s[..n])) != s[..n]
  {
    var to := Frontier(periodStart, s[..n]);
    WindowOfChain(periodStart, s[..n]);
    WindowSplits(s[..n], s[n..], periodStart, to);
    assert s[..n] + s[n..] == s;
    WindowMembers(s[n..], periodStart, to, s[n]);
    assert s[n..][0] == s[n];
    assert |Window(s, periodStart, to)| == n + |Window(s[n..], periodStart, to)|;
  }

  lemma RemainingWindow(periodStart: int, snapshot: int, s: seq<Evidence>, n: nat)
    requires Ordered(s) && n <= |s| && Chain(periodStart, s[..n])
    requires (n < |s| ==> !Extends(periodStart, snapshot, s[..n], s[n]))
    ensures var c := Remaining(periodStart, snapshot, s, n);
            c == Window(s, periodStart, Frontier(periodStart, c)) <==> !Overshoots(periodStart, snapshot, s, n)
  {
    hide Chain, Ordered, Extends;
    var c := Remaining(periodStart, snapshot, s, n);
    if Overshoots(periodStart, snapshot, s, n) {
      OvershootIsInWindow(periodStart, snapshot, s, n);
    } else if c == s[..n] {
      FirstBeforePeriod(periodStart, s, n);
      WindowOfPrefix(periodStart, s, n);
    } else {
      ChainShrinks(periodStart, s[..n]);
      assert s[..n][..n - 1] == s[..n - 1];
      WindowOfPrefix(periodStart, s, n - 1);
    }
  }

  /** Evidence from before the period can only come first. */
  lemma FirstBeforePeriod(periodStart: int, s: seq<Evidence>, n: nat)
    requires Ordered(s) && n <= |s| && Chain(periodStart, s[..n])
    ensures n < |s| && s[n].start < periodStart ==> n == 0
  {
    if 0 < n < |s| {
      ChainStartsInOrder(periodStart, s[..n]);
      assert s[0] == s[..n][0] && s[..n][0] in s[..n];
      assert !Before(s[n], s[0]);
    }
  }

  /**
   For every evidence list: the chain is all the evidence that starts in the reported window, and so no barrier
   and no rejected interval starts inside it, exactly when the first interval that does not extend the chain does
   not both start inside it and end past the snapshot, and no inverted interval starts in the window.
   */
  lemma WindowIsChainIff(periodStart: int, snapshot: int, evidence: seq<Evidence>)
    ensures var s := Relevant(periodStart, StableSort(evidence));
            var n := ProvenLength(periodStart, snapshot, s, 0);
            var chain := Proved(periodStart, snapshot, evidence).0;
            var to := Frontier(periodStart, Remaining(periodStart, snapshot, s, n));
            chain == Window(StableSort(evidence), periodStart, to) <==>
            !Overshoots(periodStart, snapshot, s, n) && forall y <- evidence :: !Inverted(y, periodStart, to)
    ensures var s := Relevant(periodStart, StableSort(evidence));
            Proved(periodStart, snapshot, evidence).0 ==
            Remaining(periodStart, snapshot, s, ProvenLength(periodStart, snapshot, s, 0))
  {
    hide Scan, StableSort, Relevant, Chain, Ordered, Overshoots, Window, Proved, ProvenLength;
    var sorted := StableSort(evidence);
    var s := Relevant(periodStart, sorted);
    StableSortSorts(evidence);
    RelevantOrdered(periodStart, sorted);
    EmptyChain(periodStart);
    assert s[..0] == [];
    ProvenLengthIsChain(periodStart, snapshot, s, 0);
    var n := ProvenLength(periodStart, snapshot, s, 0);
    LongestProvenPrefix(periodStart, snapshot, evidence, n);
    var chain := Proved(periodStart, snapshot, evidence).0;
    RemainingIs(periodStart, snapshot, s, n);
    RemainingWindow(periodStart, snapshot, s, n);
    InvertedIsRejected(periodStart, evidence, chain, Frontier(periodStart, chain));
  }

  lemma RemainingIs(periodStart: int, snapshot: int, s: seq<Evidence>, n: nat)
    requires n <= |s| && Chain(periodStart, s[..n])
    ensures Remaining(periodStart, snapshot, s, n) ==
            if n < |s| && Contradicts(periodStart, snapshot, s[..n], s[n]) then s[..n - 1] else s[..n]
    ensures forall x <- Remaining(periodStart, snapshot, s, n) :: x in s
  {
  }

  lemma InvertedIsRejected(periodStart: int, evidence: seq<Evidence>, chain: seq<Evidence>, to: int)
    requires forall x <- chain :: x in Relevant(periodStart, StableSort(evidence))
    ensures (exists y <- evidence :: Inverted(y, periodStart, to)) ==>
              chain != Window(StableSort(evidence), periodStart, to)
    ensures (forall y <- evidence :: !Inverted(y, periodStart, to)) ==>
              Window(StableSort(evidence), periodStart, to) ==
                Window(Relevant(periodStart, StableSort(evidence)), periodStart, to)
  {
    hide StableSort, Ordered, Relevant;
    var sorted := StableSort(evidence);
    StableSortSorts(evidence);
    RelevantOrdered(periodStart, sorted);
    assert forall x :: x in sorted <==> x in multiset(sorted);
    assert forall x :: x in evidence <==> x in multiset(evidence);
    if y :| y in evidence && Inverted(y, periodStart, to) {
      WindowMembers(sorted, periodStart, to, y);
      assert y in Window(sorted, periodStart, to) && Skippable(periodStart, y);
    } else {
      forall x | x in sorted && Skippable(periodStart, x)
        ensures !StartsIn(x, periodStart, to)
      {
        assert x in evidence;
      }
      WindowOfRelevant(periodStart, sorted, to);
    }
  }

  /**
   In particular nothing is rejected inside the window when every interval is well formed and ends by the snapshot.
   */
  lemma NothingRejectedInsideWindow(periodStart: int, snapshot: int, evidence: seq<Evidence>)
    requires forall x <- evidence :: x.start < x.end <= snapshot
    ensures var chain := Proved(periodStart, snapshot, evidence).0;
            chain == Window(StableSort(evidence), periodStart, Frontier(periodStart, chain))
  {
    hide Scan, StableSort, Relevant, Proved, ProvenLength, Window;
    WindowIsChainIff(periodStart, snapshot, evidence);
    var s := Relevant(periodStart, StableSort(evidence));
    StableSortSorts(evidence);
    RelevantOrdered(periodStart, StableSort(evidence));
    var n := ProvenLength(periodStart, snapshot, s, 0);
    if n < |s| {
      assert s[n] in s && s[n] in StableSort(evidence);
      assert s[n] in multiset(StableSort(evidence));
      assert s[n] in multiset(evidence);
    }
  }

  const PROVEN_INTERVAL := Evidence(0, 5, 1, 0, 0, 0.0, false, true, None)
  const LATE_INTERVAL := Evidence(3, 20, 1, 0, 1, 0.0, false, true, None)

  /** An interval that ends past the snapshot stops the scan without a retreat, so it may start inside the window. */
  lemma PastSnapshotMayStartInside()
    ensures Proved(0, 10, [PROVEN_INTERVAL, LATE_INTERVAL]).0 == [PROVEN_INTERVAL]
    ensures StartsIn(LATE_INTERVAL, 0, Frontier(0, [PROVEN_INTERVAL]))
  {
    var x, y := PROVEN_INTERVAL, LATE_INTERVAL;
    assert StableSort([x, y][1..]) == [y] by { assert [x, y][1..] == [y]; assert [y][1..] == []; }
    assert Judge(0, 10, [], x).Take? && Judge(0, 10, [x], y) == Stop(Unknown, false);
    assert StableSort([x, y]) == [x, y] && [x, y][1..] == [y] && [] + [x] == [x];
    assert Scan(0, 10, [y], [x], Proven).0 == [x];
    assert Proved(0, 10, [x, y]).0 == [x];
  }

  // ----- Arrival order does not matter -----

  function Relevant(periodStart: int, s: seq<Evidence>): seq<Evidence> {
    if s == [] then []
    else (if Skippable(periodStart, s[0]) then [] else [s[0]]) + Relevant(periodStart, s[1..])
  }

  lemma {:induction false} RelevantCount(periodStart: int, s: seq<Evidence>, x: Evidence)
    ensures multiset(Relevant(periodStart, s))[x] == if Skippable(periodStart, x) then 0 else multiset(s)[x]
  {
    if s != [] {
      RelevantCount(periodStart, s[1..], x);
      var r := Relevant(periodStart, s[1..]);
      assert s == [s[0]] + s[1..];
      assert Relevant(periodStart, s) == if Skippable(periodStart, s[0]) then r else [s[0]] + r;
    }
  }

  lemma {:induction false} RelevantOrdered(periodStart: int, s: seq<Evidence>)
    requires Ordered(s)
    ensures Ordered(Relevant(periodStart, s))
    ensures forall x <- Relevant(periodStart, s) :: x in s && !Skippable(periodStart, x)
  {
    if s != [] {
      TailOrdered(s);
      RelevantOrdered(periodStart, s[1..]);
      var r := Relevant(periodStart, s[1..]);
      assert Relevant(periodStart, s) == if Skippable(periodStart, s[0]) then r else [s[0]] + r;
      forall i | 0 <= i < |r| ensures !Before(r[i], s[0]) { assert r[i] in r; }
    }
  }

  lemma {:induction false} ScanOfRelevant(periodStart: int, snapshot: int, s: seq<Evidence>, chain: seq<Evidence>,
      state: State)
    ensures Scan(periodStart, snapshot, s, chain, state).0 ==
            Scan(periodStart, snapshot, Relevant(periodStart, s), chain, state).0
  {
    if s != [] {
      var x := s[0];
      if Skippable(periodStart, x) {
        ScanOfRelevant(periodStart, snapshot, s[1..], chain, state);
        assert [] + Relevant(periodStart, s[1..]) == Relevant(periodStart, s[1..]);
      } else {
        assert ([x] + Relevant(periodStart, s[1..]))[1..] == Relevant(periodStart, s[1..]);
        if Judge(periodStart, snapshot, chain, x).Take? {
          ScanOfRelevant(periodStart, snapshot, s[1..], chain + [x], Proven);
        }
      }
    }
  }

  /** What two tied intervals leave of the chain, whichever of them is judged first. */
  function AfterTie(periodStart: int, snapshot: int, chain: seq<Evidence>, start: int, end: int): seq<Evidence> {
    if periodStart <= start < Frontier(periodStart, chain) && end <= snapshot then chain[..|chain| - 1] else chain
  }

  lemma {:induction false} TieOutcome(periodStart: int, snapshot: int, s: seq<Evidence>, chain: seq<Evidence>,
      state: State)
    requires |s| >= 2 && SameKey(s[0], s[1])
    requires !Skippable(periodStart, s[0]) && !Skippable(periodStart, s[1])
    ensures Scan(periodStart, snapshot, s, chain, state).0 ==
            AfterTie(periodStart, snapshot, chain, s[0].start, s[0].end)
  {
    if Judge(periodStart, snapshot, chain, s[0]).Take? {
      var c := chain + [s[0]];
      assert s[1..][0] == s[1];
      assert Judge(periodStart, snapshot, c, s[1]).Stop? && Judge(periodStart, snapshot, c, s[1]).retreat;
      assert c[..|c| - 1] == chain;
    }
  }

  /** Ordered permutations first differ only inside a tie, and the tie continues on both sides. */
  lemma FirstDifferenceIsATie(a: seq<Evidence>, b: seq<Evidence>)
    requires Ordered(a) && Ordered(b) && multiset(a) == multiset(b)
    requires a != [] && b != [] && a[0] != b[0]
    ensures |a| >= 2 && SameKey(a[0], a[1]) && SameKey(a[0], b[0])
  {
    assert b[0] in multiset(a) && a[0] in multiset(b);
    var j :| 0 <= j < |a| && a[j] == b[0];
    var k :| 0 <= k < |b| && b[k] == a[0];
    assert !Before(b[k], b[0]) && !Before(a[j], a[0]);
    assert !Before(a[1], a[0]);
    assert j == 1 || !Before(a[j], a[1]);
  }

  lemma {:induction false} ScanIgnoresTieOrder(periodStart: int, snapshot: int, a: seq<Evidence>, b: seq<Evidence>,
      chain: seq<Evidence>, la: State, lb: State)
    requires Ordered(a) && Ordered(b) && multiset(a) == multiset(b)
    requires forall x <- a :: !Skippable(periodStart, x)
    ensures Scan(periodStart, snapshot, a, chain, la).0 == Scan(periodStart, snapshot, b, chain, lb).0
    decreases |a|
  {
    hide Judge, AfterTie, Ordered;
    if a == [] {
      assert |multiset(a)| == |a| && |multiset(b)| == |b|;
    } else {
      assert |multiset(a)| == |a| && |multiset(b)| == |b|;
      if a[0] == b[0] {
        TailsPermute(a, b);
        TailOrdered(a);
        TailOrdered(b);
        JudgeMeans(periodStart, snapshot, chain, a[0]);
        assert !Skippable(periodStart, a[0]);
        if Judge(periodStart, snapshot, chain, a[0]).Take? {
          ScanIgnoresTieOrder(periodStart, snapshot, a[1..], b[1..], chain + [a[0]], Proven, Proven);
        }
      } else {
        FirstDifferenceIsATie(a, b);
        FirstDifferenceIsATie(b, a);
        forall x <- b ensures !Skippable(periodStart, x) { assert x in multiset(b); assert x in multiset(a); }
        TieOutcome(periodStart, snapshot, a, chain, la);
        TieOutcome(periodStart, snapshot, b, chain, lb);
      }
    }
  }

  /** The proven chain, hence watermark and energy, is the same for every arrival order of the evidence. */
  lemma ArrivalOrderIsIrrelevant(periodStart: int, snapshot: int, a: seq<Evidence>, b: seq<Evidence>)
    requires multiset(a) == multiset(b)
    ensures Proved(periodStart, snapshot, a).0 == Proved(periodStart, snapshot, b).0
  {
    hide Judge, Scan, StableSort, Relevant;
    StableSortSorts(a);
    StableSortSorts(b);
    var sa, sb := StableSort(a), StableSort(b);
    var ra, rb := Relevant(periodStart, sa), Relevant(periodStart, sb);
    RelevantOrdered(periodStart, sa);
    RelevantOrdered(periodStart, sb);
    forall x ensures multiset(ra)[x] == multiset(rb)[x] {
      RelevantCount(periodStart, sa, x);
      RelevantCount(periodStart, sb, x);
    }
    assert multiset(ra) == multiset(rb);
    ScanOfRelevant(periodStart, snapshot, sa, [], Unknown);
    ScanOfRelevant(periodStart, snapshot, sb, [], Unknown);
    ScanIgnoresTieOrder(periodStart, snapshot, ra, rb, [], Unknown, Unknown);
  }

  lemma {:induction false} OrderedWithoutTiesIsUnique(a: seq<Evidence>, b: seq<Evidence>)
    requires Ordered(a) && Ordered(b) && multiset(a) == multiset(b)
    requires forall i, j :: 0 <= i < j < |a| ==> !SameKey(a[i], a[j])
    ensures a == b
  {
    if a == [] || b == [] {
      assert |multiset(a)| == |a| && |multiset(b)| == |b|;
    } else {
      if a[0] != b[0] { FirstDifferenceIsATie(a, b); }
      TailsPermute(a, b);
      OrderedWithoutTiesIsUnique(a[1..], b[1..]);
    }
  }

  // ----- The program's loops -----

  method RetreatToContainingInterval(frontier: int, point: int, proven: seq<Evidence>) returns (r: int)
    ensures (exists i :: 0 <= i < |proven| && proven[i].start <= point < proven[i].end) ==>
              exists i :: 0 <= i < |proven| && proven[i].start <= point < proven[i].end && r == proven[i].start &&
                          forall j :: i < j < |proven| ==> !(proven[j].start <= point < proven[j].end)
    ensures !(exists i :: 0 <= i < |proven| && proven[i].start <= point < proven[i].end) ==> r == Min(point, frontier)
  {
    var i := |proven| - 1;
    while i >= 0
      invariant -1 <= i < |proven|
      invariant forall j :: i < j < |proven| ==> !(proven[j].start <= point < proven[j].end)
    {
      if proven[i].start <= point && point < proven[i].end {
        return proven[i].start;
      }
      i := i - 1;
    }
    if point < frontier {
      return point;
    }
    return frontier;
  }

  method TruncateProven(proven: seq<Evidence>, frontier: int) returns (kept: seq<Evidence>, total: int)
    ensures kept <= proven && total == TotalMicros(kept)
    ensures forall x <- kept :: x.end <= frontier
    ensures |kept| < |proven| ==> proven[|kept|].end > frontier
  {
    kept, total := [], 0;
    var i := 0;
    while i < |proven|
      invariant 0 <= i <= |proven| && kept == proven[..i]
      invariant total == TotalMicros(kept)
      invariant forall x <- kept :: x.end <= frontier
    {
      if proven[i].end > frontier {
        break;
      }
      TotalExtends(kept, proven[i]);
      kept := kept + [proven[i]];
      total := total + CanonicalEnergyMicros(proven[i].energyKwh);
      i := i + 1;
    }
  }

  /** Retreating to the containing interval and truncating withdraws exactly the last link, or nothing. */
  method Retreat(periodStart: int, frontier: int, point: int, proven: seq<Evidence>) returns (to: int,
      kept: seq<Evidence>, total: int)
    requires Chain(periodStart, proven) && frontier == Frontier(periodStart, proven) && periodStart <= point
    requires proven != [] ==> Last(proven).start <= point
    ensures kept == if point < frontier then proven[..|proven| - 1] else proven
    ensures to == Frontier(periodStart, kept) && total == TotalMicros(kept)
  {
    hide Chain, TotalMicros;
    if point < frontier {
      ChainCovers(periodStart, proven, point);
      EarlierLinksEndFirst(periodStart, proven);
      assert proven[|proven| - 1].start <= point < proven[|proven| - 1].end;
    } else {
      ChainStartsInOrder(periodStart, proven);
      assert forall i :: 0 <= i < |proven| ==> proven[i] in proven && proven[i].end <= frontier;
    }
    to := RetreatToContainingInterval(frontier, point, proven);
    kept, total := TruncateProven(proven, to);
    assert |kept| == if point < frontier then |proven| - 1 else |proven|;
  }

  method Evaluate(periodStart: int, snapshot: int, evidence: seq<Evidence>) returns (result: Result)
    ensures var (chain, state) := Proved(periodStart, snapshot, evidence); result == Report(periodStart, chain, state)
  {
    hide Scan, Chain, StableSort, Ordered, TotalMicros;
    var frontier, state, total := periodStart, Unknown, 0;
    var sorted := StableSort(evidence);
    StableSortSorts(evidence);
    assert sorted[0..] == sorted;
    EmptyChain(periodStart);
    var previous: Option<Evidence> := None;
    var proven: seq<Evidence> := [];
    ghost var goal := Proved(periodStart, snapshot, evidence);
    var i := 0;
    while i < |sorted|
      invariant 0 <= i <= |sorted|
      invariant Chain(periodStart, proven) && frontier == Frontier(periodStart, proven) && total == TotalMicros(proven)
      invariant previous == if proven == [] then None else Some(Last(proven))
      invariant state == if proven == [] then Unknown else Proven
      invariant Ordered(sorted[i..]) && forall x <- sorted[i..] :: proven != [] ==> Last(proven).start <= x.start
      invariant Scan(periodStart, snapshot, sorted[i..], proven, state) == goal
    {
      var current := sorted[i];
      assert sorted[i..][0] == current && sorted[i..][1..] == sorted[i + 1..];
      TailOrdered(sorted[i..]);
      ScanStep(periodStart, snapshot, sorted, i, proven, state);
      i := i + 1;
      if current.barrier.None? && current.end <= periodStart {
        continue;
      }
      if current.start < periodStart {
        if current.barrier.Some? {
          continue;
        }
        state := Unknown;
        break;
      }
      if current.end > snapshot {
        state := Unknown;
        break;
      }
      if current.barrier.Some? {
        state := current.barrier.value;
        frontier, proven, total := Retreat(periodStart, frontier, current.start, proven);
        break;
      }
      if current.start < frontier {
        state := Ambiguous;
        frontier, proven, total := Retreat(periodStart, frontier, current.start, proven);
        break;
      }
      if current.start > frontier {
        state := Gap;
        break;
      }
      if current.conflict {
        state := Ambiguous;
        break;
      }
      if !current.attributable {
        state := Unattributable;
        break;
      }
      if previous.Some? && current.device == previous.value.device {
        if current.boot < previous.value.boot {
          state := Ambiguous;
        } else if current.boot == previous.value.boot && current.sequence != previous.value.sequence + 1 {
          state := Gap;
        } else if current.boot != previous.value.boot && current.sequence != 0 {
          state := Ambiguous;
        }
        if state != Unknown && state != Proven {
          break;
        }
      }
      if current.start != frontier || current.end <= current.start {
        state := Gap;
        break;
      }
      ChainExtends(periodStart, proven, current);
      TotalExtends(proven, current);
      frontier := current.end;
      total := total + CanonicalEnergyMicros(current.energyKwh);
      previous := Some(current);
      proven := proven + [current];
      state := Proven;
    }
    ScanEnds(periodStart, snapshot, sorted, proven, state);
    if frontier == periodStart {
      return Result(None, None, state);
    }
    return Result(Some(total as real / 1000000.0), Some(frontier), state);
  }
}
