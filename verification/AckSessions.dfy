/**
 Which session an authorization and a waiter belong to. Ending a session prunes; installing a client and beginning
 a restoration change the session without pruning, and pruning itself spares authorizations of identities that are
 not queued and waiters that are not publish attempts.
 */
module AckSessions {
  import opened Common
  import opened AckProtocol
  import opened AckRuns

  // ----- Authorizations -----

  /** The epoch in which the authorization in force was granted. */
  function GrantEpoch(capacity: nat, run: seq<Event>, k: Key): nat {
    if run == [] then 0
    else
      var s := After(capacity, run[..|run| - 1]);
      if Grants(s, Last(run), k) then Last(run).epoch else GrantEpoch(capacity, run[..|run| - 1], k)
  }

  /** A session change that leaves the authorization of `k` as it is. */
  predicate Spares(s: Sim, e: Event, k: Key) { Slips(s, e) || (Ends(s, e) && k !in s.queue.items) }

  /** Whether such a change occurred since the grant. */
  function Slipped(capacity: nat, run: seq<Event>, k: Key): bool {
    run != [] &&
    var s := After(capacity, run[..|run| - 1]);
    !Grants(s, Last(run), k) && (Spares(s, Last(run), k) || Slipped(capacity, run[..|run| - 1], k))
  }

  lemma {:induction false} GrantBound(capacity: nat, run: seq<Event>, k: Key)
    ensures GrantEpoch(capacity, run, k) <= After(capacity, run).session
    ensures Slipped(capacity, run, k) ==> GrantEpoch(capacity, run, k) < After(capacity, run).session
  {
    if run != [] {
      GrantBound(capacity, run[..|run| - 1], k);
      StepEffect(After(capacity, run[..|run| - 1]), Last(run));
      hide Step, Completed;
    }
  }

  /**
   An authorization belongs to the current session exactly when, since its grant, no client was installed, no
   restoration was begun, and no session ended while the identity was not queued.
   */
  lemma {:induction false} AuthorizationIsOfThisSession(capacity: nat, run: seq<Event>, k: Key)
    requires k in After(capacity, run).authorized
    ensures GrantEpoch(capacity, run, k) == After(capacity, run).session <==> !Slipped(capacity, run, k)
  {
    var before := run[..|run| - 1];
    var s := After(capacity, before);
    GrantBound(capacity, run, k);
    StepEffect(s, Last(run));
    hide Step, Completed;
    if !Grants(s, Last(run), k) {
      if k !in s.authorized { AuthorizationNeedsGrant(s, Last(run), k); }
      if Revokes(s, Last(run), k) { RevocationTakesEffect(s, Last(run), k); }
      AuthorizationIsOfThisSession(capacity, before, k);
    }
  }

  // ----- Waiters -----

  predicate Registers(e: Event, w: Waiter) { e.Register? && e.waiter == w }

  /** Whether a client was installed or a restoration begun since `w` was registered. */
  function SlippedSince(capacity: nat, run: seq<Event>, w: Waiter): bool {
    && run != [] && !Registers(Last(run), w)
    && (Slips(After(capacity, run[..|run| - 1]), Last(run)) || SlippedSince(capacity, run[..|run| - 1], w))
  }

  /** Whether a session ended, with pruning, since `w` was registered. */
  function EndedSince(capacity: nat, run: seq<Event>, w: Waiter): bool {
    && run != [] && !Registers(Last(run), w)
    && (Ends(After(capacity, run[..|run| - 1]), Last(run)) || EndedSince(capacity, run[..|run| - 1], w))
  }

  lemma InfoEffect(s: Sim, e: Event, w: Waiter)
    requires !Registers(e, w)
    ensures SameKind(s.info, Step(s, e).info, w)
  {
    hide Completed, Released, Resolved, Kept, Without;
    match e
    case Release(l, _, _, queueItem) => if Waiters(s.pending, l) != [] { ReleasedLists(s, l, queueItem, l); }
    case Resolve(_, ack) => ResolvedLists(s, ack, ack.key);
    case _ =>
  }

  /** A waiter is stale exactly when its session changed, and a publish attempt survives no change that prunes. */
  lemma {:induction false} WaiterEpoch(capacity: nat, run: seq<Event>, k: Key, w: Waiter)
    requires Legal(capacity, run) && Waits(After(capacity, run), k, w)
    ensures var n := After(capacity, run);
            && w in n.info && n.info[w].epoch <= n.session
            && (n.info[w].epoch < n.session <==> SlippedSince(capacity, run, w) || EndedSince(capacity, run, w))
            && (EndedSince(capacity, run, w) ==> !n.info[w].attempt)
  {
    ReachableInv(capacity, run);
    var before, e := run[..|run| - 1], Last(run);
    var s := After(capacity, before);
    StepEffect(s, e);
    if Registers(e, w) {
    } else {
      ReachableInv(capacity, before);
      OnlyRegisterAddsWaiters(s, e, k, w);
      WaiterEpoch(capacity, before, k, w);
      InfoEffect(s, e, w);
      ListEffect(s, e, k);
      if Ends(s, e) { KeptIs(s.pending[k], s.info); }
      hide Step, Completed, Legal;
    }
  }

  // ----- A list is in order of registration -----

  ghost predicate Ascending(ws: seq<Waiter>, info: map<Waiter, Info>) {
    forall i, j :: 0 <= i < j < |ws| && ws[i] in info && ws[j] in info ==> info[ws[i]].epoch <= info[ws[j]].epoch
  }

  lemma {:induction false} WithoutAscends(ws: seq<Waiter>, info: map<Waiter, Info>, w: Waiter)
    requires NoRepeats(ws) && Ascending(ws, info)
    ensures Ascending(Without(ws, w), info)
  {
    if w in ws {
      var i :| 0 <= i < |ws| && ws[i] == w;
      WithoutAt(ws, i);
    } else {
      WithoutNothing(ws, w);
    }
  }

  lemma {:induction false} WithoutNothing(ws: seq<Waiter>, w: Waiter)
    requires w !in ws
    ensures Without(ws, w) == ws
  {
    if ws != [] { WithoutNothing(ws[1..], w); }
  }

  lemma {:induction false} KeptAscends(ws: seq<Waiter>, info: map<Waiter, Info>)
    requires NoRepeats(ws) && Ascending(ws, info)
    ensures Ascending(Kept(ws, info), info)
  {
    if ws != [] {
      var front := ws[..|ws| - 1];
      KeptAscends(front, info);
      KeptIs(front, info);
      var kept := Kept(front, info);
      forall i | 0 <= i < |kept| && kept[i] in info && Last(ws) in info
        ensures info[kept[i]].epoch <= info[Last(ws)].epoch
      {
        assert kept[i] in kept;
        var j :| 0 <= j < |front| && front[j] == kept[i];
        assert ws[j] == kept[i] && ws[|ws| - 1] == Last(ws);
      }
    }
  }

  lemma AscendingStep(s: Sim, e: Event, a: seq<Waiter>, b: seq<Waiter>, after: map<Waiter, Info>)
    requires NoRepeats(a) && Ascending(a, s.info) && ListStep(s, e, a, b) && forall w <- a :: SameKind(s.info, after, w)
    requires e.Register? ==> e.waiter in after
    requires e.Register? ==> forall w <- a :: w in s.info ==> s.info[w].epoch <= after[e.waiter].epoch
    ensures Ascending(b, after)
  {
    hide Kept, Without;
    if e.Register? && b == a + [e.waiter] {
      SameKindAscends(a, s.info, after);
      forall i | 0 <= i < |a| && a[i] in after ensures after[a[i]].epoch <= after[e.waiter].epoch {
        assert a[i] in a && SameKind(s.info, after, a[i]);
      }
    } else {
      if e.Remove? && b == Without(a, e.waiter) {
        WithoutAscends(a, s.info, e.waiter);
        WithoutIs(a, e.waiter);
      } else if Ends(s, e) && b == Kept(a, s.info) {
        KeptAscends(a, s.info);
        KeptIs(a, s.info);
      }
      assert Ascending(b, s.info);
      assert forall w <- b :: w in a;
      SameKindAscends(b, s.info, after);
    }
  }

  lemma SameKindAscends(ws: seq<Waiter>, info: map<Waiter, Info>, after: map<Waiter, Info>)
    requires Ascending(ws, info) && forall w <- ws :: SameKind(info, after, w)
    ensures Ascending(ws, after)
  {
    forall i, j | 0 <= i < j < |ws| && ws[i] in after && ws[j] in after
      ensures after[ws[i]].epoch <= after[ws[j]].epoch
    {
      assert ws[i] in ws && ws[j] in ws;
    }
  }

  lemma {:induction false} RunAscends(capacity: nat, run: seq<Event>, k: Key)
    requires Legal(capacity, run)
    ensures Ascending(Waiters(After(capacity, run).pending, k), After(capacity, run).info)
  {
    if run != [] {
      var before, e := run[..|run| - 1], Last(run);
      var (s, n) := (After(capacity, before), After(capacity, run));
      RunAscends(capacity, before, k);
      ReachableInv(capacity, before);
      var a := Waiters(s.pending, k);
      ListEffect(s, e, k);
      forall w | w in a
        ensures Waits(s, k, w) && w in s.info && s.info[w].epoch <= s.session && SameKind(s.info, n.info, w)
      {
        assert Waits(s, k, w);
        WaiterEpoch(capacity, before, k, w);
        assert !Registers(e, w);
        InfoEffect(s, e, w);
      }
      hide Kept, Without, Released, Resolved, Pruned, Legal;
      AscendingStep(s, e, a, Waiters(n.pending, k), n.info);
    }
  }

  // ----- When a stale waiter stands ahead of a current one -----

  ghost predicate StaleAhead(s: Sim, k: Key) {
    exists i, j ::
      0 <= i < j < |Waiters(s.pending, k)| && Stale(s, Waiters(s.pending, k)[i]) && Fresh(s, Waiters(s.pending, k)[j])
  }

  ghost predicate Stale(s: Sim, w: Waiter) { w in s.info && s.info[w].epoch < s.session }

  ghost predicate Fresh(s: Sim, w: Waiter) { w in s.info && s.info[w].epoch == s.session }

  /** Still waiting, though its session changed in a way that spares waiters of its kind. */
  ghost predicate Spared(capacity: nat, run: seq<Event>, k: Key, v: Waiter) {
    var s := After(capacity, run);
    && Waits(s, k, v) && v in s.info
    && (SlippedSince(capacity, run, v) || (!s.info[v].attempt && EndedSince(capacity, run, v)))
  }

  /** Waiting, with no session change since its registration. */
  ghost predicate Undisturbed(capacity: nat, run: seq<Event>, k: Key, w: Waiter) {
    Waits(After(capacity, run), k, w) && !SlippedSince(capacity, run, w) && !EndedSince(capacity, run, w)
  }

  lemma SparedIsStale(capacity: nat, run: seq<Event>, k: Key, w: Waiter)
    requires Legal(capacity, run) && Waits(After(capacity, run), k, w)
    ensures Spared(capacity, run, k, w) <==> Stale(After(capacity, run), w)
    ensures Undisturbed(capacity, run, k, w) <==> Fresh(After(capacity, run), w)
  {
    WaiterEpoch(capacity, run, k, w);
    hide SlippedSince, EndedSince, After, Legal;
  }

  /**
   A waiter of an older session stands ahead of one of the current session exactly when some waiter outlived a new
   client or a restoration, or, not being a publish attempt, a session end, and another was registered since.
   */
  lemma StaleAheadIff(capacity: nat, run: seq<Event>, k: Key)
    requires Legal(capacity, run)
    ensures StaleAhead(After(capacity, run), k) <==>
            (exists v, w :: Spared(capacity, run, k, v) && Undisturbed(capacity, run, k, w))
  {
    hide Spared, Undisturbed, After, Legal, StaleAhead;
    if StaleAhead(After(capacity, run), k) { StaleWasSpared(capacity, run, k); }
    if v, w :| Spared(capacity, run, k, v) && Undisturbed(capacity, run, k, w) {
      SparedIsAhead(capacity, run, k, v, w);
    }
  }

  lemma StaleWasSpared(capacity: nat, run: seq<Event>, k: Key)
    requires Legal(capacity, run) && StaleAhead(After(capacity, run), k)
    ensures exists v, w :: Spared(capacity, run, k, v) && Undisturbed(capacity, run, k, w)
  {
    var s := After(capacity, run);
    var ws := Waiters(s.pending, k);
    hide Spared, Undisturbed, After, Legal;
    var i, j :| 0 <= i < j < |ws| && Stale(s, ws[i]) && Fresh(s, ws[j]);
    assert Waits(s, k, ws[i]) && Waits(s, k, ws[j]);
    SparedIsStale(capacity, run, k, ws[i]);
    SparedIsStale(capacity, run, k, ws[j]);
  }

  lemma SparedIsAhead(capacity: nat, run: seq<Event>, k: Key, v: Waiter, w: Waiter)
    requires Legal(capacity, run) && Spared(capacity, run, k, v) && Undisturbed(capacity, run, k, w)
    ensures StaleAhead(After(capacity, run), k)
  {
    var s := After(capacity, run);
    var ws := Waiters(s.pending, k);
    SparedWaits(capacity, run, k, v, w);
    hide Spared, Undisturbed, After, Legal;
    RunAscends(capacity, run, k);
    SparedIsStale(capacity, run, k, v);
    SparedIsStale(capacity, run, k, w);
    var i :| 0 <= i < |ws| && ws[i] == v;
    var j :| 0 <= j < |ws| && ws[j] == w;
    assert Stale(s, ws[i]) && Fresh(s, ws[j]);
  }

  lemma SparedWaits(capacity: nat, run: seq<Event>, k: Key, v: Waiter, w: Waiter)
    requires Spared(capacity, run, k, v) && Undisturbed(capacity, run, k, w)
    ensures Waits(After(capacity, run), k, v) && Waits(After(capacity, run), k, w)
  {
  }

  /** For publish attempts, session changes that prune leave no stale waiter ahead. */
  lemma PruningKeepsAttemptsInOrder(capacity: nat, run: seq<Event>, k: Key)
    requires Legal(capacity, run)
    requires forall w :: Waits(After(capacity, run), k, w) ==>
               !SlippedSince(capacity, run, w) && w in After(capacity, run).info && After(capacity, run).info[w].attempt
    ensures !StaleAhead(After(capacity, run), k)
  {
    StaleAheadIff(capacity, run, k);
    hide After, Legal, SlippedSince, EndedSince, StaleAhead;
  }
}
