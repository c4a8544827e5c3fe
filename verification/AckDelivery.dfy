/** When a waiter is told an ACK: the checks on its registration, and the release that a terminal ACK needs. */
module AckDelivery {
  import opened Common
  import opened AckProtocol
  import opened AckRuns
  import opened AckAttempts

  // ----- One step -----

  predicate IsFirst(s: Sim, k: Key, w: Waiter) { Waiters(s.pending, k) != [] && Waiters(s.pending, k)[0] == w }

  /** The release of an attempt that passes its checks while `w` is the first waiter. */
  predicate Lets(s: Sim, e: Event, w: Waiter) {
    e.Release? && InSession(s, e.client, e.epoch) && IsFirst(s, e.key, w)
  }

  predicate Withdraws(e: Event, w: Waiter) { (e.Revoke? || e.Timeout?) && e.waiter == w }

  /** The registration is of this session, its item is queued, and it was let through if the ACK is terminal. */
  predicate Ready(s: Sim, ack: Ack, w: Waiter) {
    && w in s.info && s.info[w].epoch == s.session && (s.info[w].queueItem ==> ack.key in s.queue.items)
    && (ack.terminal && s.info[w].attempt ==> s.info[w].authorized)
  }

  /** An ACK is heard for a waiter whose registration allows it, or a granting release redeems one that was kept. */
  predicate Tells(s: Sim, e: Event, w: Waiter, ack: Ack) {
    || (Heard(s, e) && e.ack == ack && IsFirst(s, ack.key, w) && Ready(s, ack, w)
        && (ack.terminal && ack.key in s.queue.items ==> ack.key in s.authorized))
    || (Grants(s, e, ack.key) && ack.key in s.deferred && s.deferred[ack.key] == ack && IsFirst(s, ack.key, w))
  }

  lemma FirstWaits(s: Sim, k: Key, w: Waiter)
    requires Inv(s) && IsFirst(s, k, w)
    ensures w in s.channels && s.channels[w] == [] && w in s.info
  {
    assert Waits(s, k, w);
  }

  lemma ResolvedTells(s: Sim, ack: Ack, w: Waiter)
    requires Inv(s) && w in s.channels && s.channels[w] == []
    ensures var n := Resolved(s, ack);
            var tells := && IsFirst(s, ack.key, w) && Ready(s, ack, w)
                         && (ack.terminal && ack.key in s.queue.items ==> ack.key in s.authorized);
            w in n.channels && n.channels[w] == if tells then [ack] else []
  {
    hide Completed;
    if Waiters(s.pending, ack.key) != [] { FirstWaits(s, ack.key, Waiters(s.pending, ack.key)[0]); }
  }

  lemma ReleasedTells(s: Sim, k: Key, queueItem: bool, w: Waiter)
    requires Inv(s) && w in s.channels && s.channels[w] == [] && Waiters(s.pending, k) != []
    ensures var n := Released(s, k, queueItem);
            w in n.channels &&
            n.channels[w] == if queueItem && k in s.deferred && IsFirst(s, k, w) then [s.deferred[k]] else []
  {
    hide Completed;
    FirstWaits(s, k, Waiters(s.pending, k)[0]);
  }

  /** A channel that was empty holds an ACK after a step exactly when that step tells its waiter. */
  lemma StepTells(s: Sim, e: Event, w: Waiter, ack: Ack)
    requires Inv(s) && Enabled(s, e) && w in s.channels && s.channels[w] == []
    ensures w in Step(s, e).channels && (Step(s, e).channels[w] == [ack] <==> Tells(s, e, w, ack))
    ensures |Step(s, e).channels[w]| <= 1
  {
    hide Step, Inv, Ready, InSession, IsFirst;
    match e
    case Resolve(_, _) => ResolveTells(s, e, w, ack);
    case Release(_, _, _, _) => ReleaseTells(s, e, w, ack);
    case _ => OthersTellNobody(s, e, w);
  }

  lemma ResolveTells(s: Sim, e: Event, w: Waiter, ack: Ack)
    requires Inv(s) && e.Resolve? && w in s.channels && s.channels[w] == []
    ensures w in Step(s, e).channels && (Step(s, e).channels[w] == [ack] <==> Tells(s, e, w, ack))
    ensures |Step(s, e).channels[w]| <= 1
  {
    hide Resolved, Ready, IsFirst, Inv;
    ResolvedTells(s, e.ack, w);
  }

  lemma ReleaseTells(s: Sim, e: Event, w: Waiter, ack: Ack)
    requires Inv(s) && e.Release? && w in s.channels && s.channels[w] == []
    ensures w in Step(s, e).channels && (Step(s, e).channels[w] == [ack] <==> Tells(s, e, w, ack))
    ensures |Step(s, e).channels[w]| <= 1
  {
    hide Released, Ready, Inv;
    if Waiters(s.pending, e.key) != [] { ReleasedTells(s, e.key, e.queueItem, w); }
    if e.key in s.deferred { DeferredKey(s, e.key); }
  }

  lemma OthersTellNobody(s: Sim, e: Event, w: Waiter)
    requires !e.Resolve? && !e.Release? && Enabled(s, e) && w in s.channels && s.channels[w] == []
    ensures w in Step(s, e).channels && Step(s, e).channels[w] == []
  {
    hide Resolved, Released, Kept, Without;
  }

  lemma TerminalIsLet(s: Sim, e: Event, w: Waiter, ack: Ack)
    requires Inv(s) && Enabled(s, e) && w in s.channels && s.channels[w] == [] && ack.terminal
    requires w in Step(s, e).channels && Step(s, e).channels[w] == [ack] && (w in s.info ==> s.info[w].attempt)
    ensures Lets(s, e, w) || (w in s.info && s.info[w].authorized && !Withdraws(e, w))
  {
    hide Step, Inv;
    StepTells(s, e, w, ack);
  }

  lemma DeferredKey(s: Sim, k: Key)
    requires Inv(s) && k in s.deferred
    ensures s.deferred[k].key == k
  {
  }

  // ----- What a registration says -----

  lemma ReleasedInfo(s: Sim, k: Key, queueItem: bool, w: Waiter)
    requires Waiters(s.pending, k) != [] && w in Released(s, k, queueItem).info
    ensures w in s.info
    ensures var i := Released(s, k, queueItem).info[w];
            i == s.info[w] || (IsFirst(s, k, w) && i == s.info[w].(authorized := true))
  {
    hide Redeemed;
    if queueItem && k in s.deferred {
      var v := Waiters(s.pending, k)[0];
      var info := if v in s.info then s.info[v := s.info[v].(authorized := true)] else s.info;
      RedeemedLists(s.(info := info, authorized := s.authorized + {k}), k, k);
    }
  }

  lemma ResolvedInfo(s: Sim, ack: Ack, w: Waiter)
    requires w in Resolved(s, ack).info
    ensures w in s.info && Resolved(s, ack).info[w] == s.info[w]
  {
    hide Acknowledged, Delivered, Accepts;
    AcknowledgedFrame(s, ack);
    AcceptsNeedsWaiter(Acknowledged(s, ack), ack, ack.key in s.queue.items);
    if Waiters(s.pending, ack.key) != [] { DeliveredLists(Acknowledged(s, ack), ack.key, ack, ack.key); }
  }

  /** What a registration says after a step that is not its own. */
  ghost predicate SameInfo(s: Sim, e: Event, w: Waiter, i: Info) {
    && w in s.info && i == s.info[w].(authorized := i.authorized)
    && (i.authorized ==> Lets(s, e, w) || (s.info[w].authorized && !Withdraws(e, w)))
  }

  lemma SessionInfo(s: Sim, e: Event, w: Waiter)
    requires e.SetClient? || e.BeginRestoration? || e.CommitReady? || e.ConnectionLost? || e.Disconnect? || e.Shutdown?
    requires w in Step(s, e).info
    ensures SameInfo(s, e, w, Step(s, e).info[w])
  {
    hide Released, Resolved, Unauthorized, Kept;
  }

  lemma WithdrawalInfo(s: Sim, e: Event, w: Waiter)
    requires (e.Revoke? || e.Timeout?) && w in Step(s, e).info
    requires w in s.info ==> w in s.channels && s.channels[w] == []
    ensures SameInfo(s, e, w, Step(s, e).info[w])
  {
    hide Released, Resolved, Pruned;
  }

  lemma ReleaseInfo(s: Sim, e: Event, w: Waiter)
    requires e.Release? && w in Step(s, e).info
    ensures SameInfo(s, e, w, Step(s, e).info[w])
  {
    hide Released, Resolved, Pruned, Unauthorized;
    if InSession(s, e.client, e.epoch) && Waiters(s.pending, e.key) != [] { ReleasedInfo(s, e.key, e.queueItem, w); }
  }

  lemma OtherInfo(s: Sim, e: Event, w: Waiter)
    requires (e.Enqueue? || e.Remove? || e.Receive? || e.Resolve?) && w in Step(s, e).info
    ensures SameInfo(s, e, w, Step(s, e).info[w])
  {
    hide Released, Resolved, Pruned, Unauthorized, Without;
    if e.Resolve? && Heard(s, e) { ResolvedInfo(s, e.ack, w); }
  }

  lemma RegisteredInfo(s: Sim, e: Event, w: Waiter)
    requires e.Register? && w in Step(s, e).info
    ensures || (e.waiter == w && Step(s, e).info[w] == Info(s.session, e.queueItem, e.attempt, false))
            || SameInfo(s, e, w, Step(s, e).info[w])
  {
    hide Released, Resolved, Pruned, Unauthorized, Without;
  }

  /** A registration is made once; only its authorization changes, by a release and by a withdrawal. */
  lemma InfoStep(s: Sim, e: Event, w: Waiter)
    requires Inv(s) && w in Step(s, e).info
    ensures || (e.Register? && e.waiter == w
                && Step(s, e).info[w] == Info(s.session, e.queueItem, e.attempt, false))
            || SameInfo(s, e, w, Step(s, e).info[w])
  {
    RegisteredIsEmpty(s, w);
    hide Step, Inv, SameInfo;
    match e
    case Register(_, _, _, _) => RegisteredInfo(s, e, w);
    case Revoke(_, _, _) => WithdrawalInfo(s, e, w);
    case Timeout(_, _, _) => WithdrawalInfo(s, e, w);
    case Release(_, _, _, _) => ReleaseInfo(s, e, w);
    case Enqueue(_) => OtherInfo(s, e, w);
    case Remove(_, _) => OtherInfo(s, e, w);
    case Receive(_) => OtherInfo(s, e, w);
    case Resolve(_, _) => OtherInfo(s, e, w);
    case _ => SessionInfo(s, e, w);
  }

  lemma RegisteredIsEmpty(s: Sim, w: Waiter)
    requires Inv(s)
    ensures w in s.info ==> w in s.channels && s.channels[w] == []
  {
    if w in s.info { var k :| Waits(s, k, w); }
  }

  // ----- Over runs -----

  /** Step `m` let the waiter through, and nothing withdrew it since. */
  ghost predicate LetAt(capacity: nat, run: seq<Event>, w: Waiter, m: nat) {
    && m < |run| && Lets(After(capacity, run[..m]), run[m], w)
    && (forall r :: m < r < |run| ==> !Withdraws(run[r], w))
  }

  ghost predicate WasLet(capacity: nat, run: seq<Event>, w: Waiter) { exists m: nat :: LetAt(capacity, run, w, m) }

  lemma LastStep(capacity: nat, run: seq<Event>)
    requires run != []
    ensures After(capacity, run) == Step(After(capacity, run[..|run| - 1]), Last(run))
  {
  }

  lemma LetStays(capacity: nat, run: seq<Event>, e: Event, w: Waiter)
    requires WasLet(capacity, run, w) && !Withdraws(e, w)
    ensures WasLet(capacity, run + [e], w)
  {
    hide After, Lets, Withdraws;
    var m: nat :| LetAt(capacity, run, w, m);
    assert (run + [e])[..m] == run[..m];
    assert LetAt(capacity, run + [e], w, m);
  }

  lemma LetNow(capacity: nat, run: seq<Event>, e: Event, w: Waiter)
    requires Lets(After(capacity, run), e, w)
    ensures WasLet(capacity, run + [e], w)
  {
    hide After, Lets, Withdraws;
    assert (run + [e])[..|run|] == run;
    assert LetAt(capacity, run + [e], w, |run|);
  }

  lemma NonemptyRun(capacity: nat, run: seq<Event>, w: Waiter)
    requires w in After(capacity, run).info
    ensures run != []
  {
    hide Step;
  }

  lemma {:induction false} AuthorizedWasLet(capacity: nat, run: seq<Event>, w: Waiter)
    requires Legal(capacity, run) && w in After(capacity, run).info && After(capacity, run).info[w].authorized
    ensures WasLet(capacity, run, w)
  {
    NonemptyRun(capacity, run, w);
    hide Step, Inv, Legal, Enabled, After, Lets, Withdraws, WasLet;
    LastStep(capacity, run);
    var before, e := run[..|run| - 1], Last(run);
    var s := After(capacity, before);
    LegalPrefix(capacity, run, |run| - 1);
    ReachableInv(capacity, before);
    assert run == before + [e];
    InfoStep(s, e, w);
    if Lets(s, e, w) {
      LetNow(capacity, before, e, w);
    } else {
      AuthorizedWasLet(capacity, before, w);
      LetStays(capacity, before, e, w);
    }
  }

  lemma EnabledAt(capacity: nat, run: seq<Event>, n: nat)
    requires Legal(capacity, run) && n < |run|
    ensures var s := After(capacity, run[..n]);
            && Legal(capacity, run[..n]) && Inv(s) && Enabled(s, run[n])
            && After(capacity, run[..n + 1]) == Step(s, run[n])
  {
    hide Step, Inv, Enabled;
    LegalPrefix(capacity, run, n);
    LegalPrefix(capacity, run, n + 1);
    assert run[..n + 1][..n] == run[..n] && Last(run[..n + 1]) == run[n];
    ReachableInv(capacity, run[..n]);
  }

  /**
   Over every interleaving: a terminal ACK reaches the waiter of a publish attempt only after a release let that very
   waiter through in a ready session, not withdrawn since, or by the release itself.
   */
  lemma TerminalAckNeedsRelease(capacity: nat, run: seq<Event>, n: nat, w: Waiter, ack: Ack)
    requires Legal(capacity, run) && n < |run|
    requires var s := After(capacity, run[..n]);
             w in s.channels && s.channels[w] == [] && (w in s.info ==> s.info[w].attempt)
    requires w in After(capacity, run[..n + 1]).channels && After(capacity, run[..n + 1]).channels[w] == [ack]
    requires ack.terminal
    ensures WasLet(capacity, run[..n + 1], w)
  {
    hide After, Step, Inv, Legal, Enabled, WasLet, Lets, Withdraws;
    var s, e := After(capacity, run[..n]), run[n];
    EnabledAt(capacity, run, n);
    assert run[..n + 1] == run[..n] + [e];
    TerminalIsLet(s, e, w, ack);
    if !Lets(s, e, w) {
      AuthorizedWasLet(capacity, run[..n], w);
      LetStays(capacity, run[..n], e, w);
    } else {
      LetNow(capacity, run[..n], e, w);
    }
  }

  lemma {:induction false} AllAreAttempts(capacity: nat, run: seq<Event>, w: Waiter)
    requires Orderly(capacity, run) && w in After(capacity, run).info
    ensures After(capacity, run).info[w].attempt
  {
    var before := run[..|run| - 1];
    OrderlyIsLegal(capacity, run);
    OrderlyIsLegal(capacity, before);
    ReachableInv(capacity, before);
    LastStep(capacity, run);
    hide Step, Inv, Legal, After;
    InfoStep(After(capacity, before), Last(run), w);
    if w in After(capacity, before).info { AllAreAttempts(capacity, before, w); }
  }

  /**
   In every run of the program whoever is told an ACK is the open attempt, for its own identity; a terminal ACK comes
   only after the release of that attempt, with no withdrawal in between.
   */
  lemma OnlyTheReleasedAttemptIsTold(capacity: nat, run: seq<Event>, n: nat, w: Waiter, ack: Ack)
    requires Orderly(capacity, run) && n < |run|
    requires w in After(capacity, run[..n]).channels && After(capacity, run[..n]).channels[w] == []
    requires w in After(capacity, run[..n + 1]).channels && After(capacity, run[..n + 1]).channels[w] == [ack]
    ensures IsOpen(Open(run[..n]), ack.key, w)
    ensures ack.terminal ==> WasLet(capacity, run[..n + 1], w)
  {
    hide After, Step, Inv, Legal, Enabled, Orderly, WasLet, Open, IsOpen;
    AllowedAt(capacity, run, n);
    OrderlyIsLegal(capacity, run);
    EnabledAt(capacity, run, n);
    var s := After(capacity, run[..n]);
    StepTells(s, run[n], w, ack);
    FirstIsWaiting(s, ack.key, w);
    if w in s.info { AllAreAttempts(capacity, run[..n], w); }
    OnlyTheAttemptWaits(capacity, run[..n], ack.key, w);
    if ack.terminal { TerminalAckNeedsRelease(capacity, run, n, w, ack); }
  }

  lemma FirstIsWaiting(s: Sim, k: Key, w: Waiter)
    requires IsFirst(s, k, w)
    ensures Waits(s, k, w)
  {
  }

  // ----- Sessions -----

  /** A release or an ACK of another client or session, or while the session is not ready, does nothing. */
  lemma ForeignIsIgnored(s: Sim, e: Event, client: Client, epoch: nat)
    requires (e.Release? && e.client == client && e.epoch == epoch) || (e.Resolve? && e.source == Some((client, epoch)))
    requires s.stopping || !s.ready || s.client != Some(client) || s.session != epoch
    ensures Step(s, e) == s
  {
    hide Released, Resolved;
  }

  /** Step `m` began the restoration of client `c` that made the session number `session`. */
  ghost predicate Restores(capacity: nat, run: seq<Event>, m: nat, c: Client, session: nat) {
    && m < |run| && run[m] == BeginRestoration(c)
    && var s := After(capacity, run[..m]);
       !s.stopping && s.client == Some(c) && session == s.session + 1
  }

  /** A session change forgets the restoration and the readiness; a restoration begins with the session it made. */
  ghost predicate RestoringAfter(s: Sim, e: Event, n: Sim) {
    if Slips(s, e) || Ends(s, e)
    then !n.ready && if e.BeginRestoration? then n.restoring == n.session && n.client == s.client else n.restoring == 0
    else
      && n.restoring == s.restoring && n.session == s.session && n.client == s.client && n.stopping == s.stopping
      && (n.ready ==> s.ready || (!s.stopping && s.client.Some? && s.session == s.restoring))
  }

  lemma RestoringStep(s: Sim, e: Event)
    ensures RestoringAfter(s, e, Step(s, e))
  {
    hide Step, RestoringAfter, Released, Resolved;
    match e
    case Release(k, _, _, queueItem) => ReleaseRestoring(s, e);
    case Resolve(_, ack) => ResolveRestoring(s, e);
    case Enqueue(_) => OtherRestoring(s, e);
    case Register(_, _, _, _) => OtherRestoring(s, e);
    case Remove(_, _) => OtherRestoring(s, e);
    case Receive(_) => OtherRestoring(s, e);
    case Revoke(_, _, _) => OtherRestoring(s, e);
    case Timeout(_, _, _) => OtherRestoring(s, e);
    case _ => SessionRestoring(s, e);
  }

  lemma SessionRestoring(s: Sim, e: Event)
    requires e.SetClient? || e.BeginRestoration? || e.CommitReady? || e.ConnectionLost? || e.Disconnect? || e.Shutdown?
    ensures RestoringAfter(s, e, Step(s, e))
  {
    hide Kept;
  }

  lemma OtherRestoring(s: Sim, e: Event)
    requires e.Enqueue? || e.Register? || e.Remove? || e.Receive? || e.Revoke? || e.Timeout?
    ensures RestoringAfter(s, e, Step(s, e))
  {
    hide Without;
  }

  lemma ReleaseRestoring(s: Sim, e: Event)
    requires e.Release?
    ensures RestoringAfter(s, e, Step(s, e))
  {
    hide Released;
    if Waiters(s.pending, e.key) != [] {
      ReleasedSession(s, e.key, e.queueItem);
      ReleasedRestoring(s, e.key, e.queueItem);
    }
  }

  lemma ResolveRestoring(s: Sim, e: Event)
    requires e.Resolve?
    ensures RestoringAfter(s, e, Step(s, e))
  {
    hide Resolved;
    ResolvedSession(s, e.ack);
    ResolvedRestoring(s, e.ack);
  }

  lemma ReleasedRestoring(s: Sim, k: Key, queueItem: bool)
    requires Waiters(s.pending, k) != []
    ensures Released(s, k, queueItem).restoring == s.restoring
  {
    hide Completed;
  }

  lemma ResolvedRestoring(s: Sim, ack: Ack)
    ensures Resolved(s, ack).restoring == s.restoring
  {
    hide Completed;
  }

  /** A session that is being restored was begun by a restoration of the current client. */
  lemma {:induction false} RestoringWasBegun(capacity: nat, run: seq<Event>)
    requires Legal(capacity, run)
    requires After(capacity, run).restoring == After(capacity, run).session > 0
    ensures After(capacity, run).client.Some?
    ensures exists m: nat ::
              Restores(capacity, run, m, After(capacity, run).client.value, After(capacity, run).session)
  {
    var before, e := run[..|run| - 1], Last(run);
    var (s, n) := (After(capacity, before), After(capacity, run));
    LastStep(capacity, run);
    RestoringStep(s, e);
    hide Step, Legal;
    if Slips(s, e) || Ends(s, e) {
      assert Restores(capacity, run, |run| - 1, n.client.value, n.session);
    } else {
      RestoringWasBegun(capacity, before);
      var m: nat :| Restores(capacity, before, m, s.client.value, s.session);
      assert before[..m] == run[..m];
      assert Restores(capacity, run, m, n.client.value, n.session);
    }
  }

  /** Over every interleaving: a ready session is one whose number its own restoration, of the current client, began. */
  lemma ReadyWasRestored(capacity: nat, run: seq<Event>)
    requires Legal(capacity, run) && After(capacity, run).ready
    ensures After(capacity, run).client.Some?
    ensures exists m: nat ::
              Restores(capacity, run, m, After(capacity, run).client.value, After(capacity, run).session)
  {
    ReadyIsRestoring(capacity, run);
    RestoringWasBegun(capacity, run);
  }

  lemma {:induction false} ReadyIsRestoring(capacity: nat, run: seq<Event>)
    requires Legal(capacity, run) && After(capacity, run).ready
    ensures After(capacity, run).restoring == After(capacity, run).session > 0
  {
    var before, e := run[..|run| - 1], Last(run);
    LastStep(capacity, run);
    RestoringStep(After(capacity, before), e);
    hide Step, Legal;
    if After(capacity, before).ready {
      ReadyIsRestoring(capacity, before);
    } else {
      ClientMeansSession(capacity, before);
    }
  }

  lemma {:induction false} ClientMeansSession(capacity: nat, run: seq<Event>)
    ensures After(capacity, run).client.Some? ==> After(capacity, run).session > 0
  {
    if run != [] {
      var before := run[..|run| - 1];
      ClientMeansSession(capacity, before);
      LastStep(capacity, run);
      RestoringStep(After(capacity, before), Last(run));
      StepEffect(After(capacity, before), Last(run));
      hide Step;
    }
  }
}
