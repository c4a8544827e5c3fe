/**
 The order in which the program itself lets the events of the ACK protocol occur. Every attempt holds one lock from
 its registration to its withdrawal, items are queued under the same lock, a client is installed only after the old
 one was detached, and a restoration begins only before the session is ready. Losses, shutdown, ACKs and timers may
 still fall anywhere.
 */
module AckAttempts {
  import opened Common
  import opened AckProtocol
  import opened AckRuns
  import opened AckSessions

  /** The attempt that holds the lock. `withdrawn`: it has revoked its authorization and will not publish again. */
  datatype Attempt = Attempt(key: Key, waiter: Waiter, queueItem: bool, withdrawn: bool)

  /** The open attempt after one more event. */
  function Next(open: Option<Attempt>, e: Event): Option<Attempt> {
    match e
    case Register(k, queueItem, _, w) => Some(Attempt(k, w, queueItem, false))
    case Revoke(_, _, _) => if open.Some? then Some(open.value.(withdrawn := true)) else None
    case Remove(_, _) => None
    case _ => open
  }

  function Open(run: seq<Event>): Option<Attempt> {
    if run == [] then None else Next(Open(run[..|run| - 1]), Last(run))
  }

  predicate IsOpen(open: Option<Attempt>, k: Key, w: Waiter) {
    open.Some? && open.value.key == k && open.value.waiter == w
  }

  /** What the callers do next, given the open attempt. */
  predicate Allowed(s: Sim, open: Option<Attempt>, e: Event) {
    match e
    case Enqueue(_) => open.None?
    case Register(_, _, attempt, w) => open.None? && attempt && w !in s.channels
    case Release(k, _, _, queueItem) =>
      open.Some? && open.value.key == k && open.value.queueItem == queueItem && !open.value.withdrawn
    case Revoke(k, w, queueItem) => IsOpen(open, k, w) && open.value.queueItem == queueItem
    case Timeout(k, w, queueItem) => IsOpen(open, k, w) && open.value.queueItem == queueItem
    case Remove(k, w) => IsOpen(open, k, w) && open.value.withdrawn
    case SetClient(_) => s.client.None?
    case BeginRestoration(_) => !s.ready
    case _ => true
  }

  ghost predicate Orderly(capacity: nat, run: seq<Event>) {
    run == [] || (
      && Orderly(capacity, run[..|run| - 1])
      && Allowed(After(capacity, run[..|run| - 1]), Open(run[..|run| - 1]), Last(run)))
  }

  lemma {:induction false} OrderlyIsLegal(capacity: nat, run: seq<Event>)
    requires Orderly(capacity, run)
    ensures Legal(capacity, run)
  {
    if run != [] { OrderlyIsLegal(capacity, run[..|run| - 1]); }
  }

  lemma {:induction false} OrderlyPrefix(capacity: nat, run: seq<Event>, n: nat)
    requires Orderly(capacity, run) && n <= |run|
    ensures Orderly(capacity, run[..n])
    decreases |run|
  {
    if n < |run| {
      OrderlyPrefix(capacity, run[..|run| - 1], n);
      assert run[..|run| - 1][..n] == run[..n];
    } else {
      assert run[..n] == run;
    }
  }

  // ----- One waiter at a time -----

  lemma RemovedIsGone(s: Sim, k: Key, w: Waiter)
    requires Inv(s)
    ensures !Waits(Step(s, Remove(k, w)), k, w)
  {
    if w in Waiters(s.pending, k) { WithoutIs(s.pending[k], w); }
  }

  /** Only the open attempt waits, on its own identity. */
  lemma {:induction false} OnlyTheAttemptWaits(capacity: nat, run: seq<Event>, k: Key, w: Waiter)
    requires Orderly(capacity, run) && Waits(After(capacity, run), k, w)
    ensures IsOpen(Open(run), k, w)
  {
    var before, e := run[..|run| - 1], Last(run);
    var s := After(capacity, before);
    OrderlyIsLegal(capacity, before);
    ReachableInv(capacity, before);
    if e.Register? {
      RegisteredWaits(s, e, k, w);
      if Waits(s, k, w) { OnlyTheAttemptWaits(capacity, before, k, w); }
    } else {
      OnlyRegisterAddsWaiters(s, e, k, w);
      OnlyTheAttemptWaits(capacity, before, k, w);
      if e.Remove? { RemovedIsGone(s, e.key, e.waiter); }
    }
  }

  lemma RegisteredWaits(s: Sim, e: Event, k: Key, w: Waiter)
    requires e.Register? && Waits(Step(s, e), k, w)
    ensures Waits(s, k, w) || (k == e.key && w == e.waiter)
  {
  }

  /**
   So no stale waiter is ever ahead of a current one: with the attempt lock the invalidated waiter is the only one.
   */
  lemma NeverStaleAhead(capacity: nat, run: seq<Event>, k: Key)
    requires Orderly(capacity, run)
    ensures |Waiters(After(capacity, run).pending, k)| <= 1 && !StaleAhead(After(capacity, run), k)
  {
    var s := After(capacity, run);
    var ws := Waiters(s.pending, k);
    OrderlyIsLegal(capacity, run);
    ReachableInv(capacity, run);
    if |ws| > 1 {
      assert Waits(s, k, ws[0]) && Waits(s, k, ws[1]);
      OnlyTheAttemptWaits(capacity, run, k, ws[0]);
      OnlyTheAttemptWaits(capacity, run, k, ws[1]);
    }
  }

  // ----- Authorized only by the open attempt -----

  /** An identity is authorized only while the attempt for it is open and has not revoked. */
  lemma {:induction false} AuthorizedWhileOpen(capacity: nat, run: seq<Event>, k: Key)
    requires Orderly(capacity, run) && k in After(capacity, run).authorized
    ensures Open(run).Some? && Open(run).value.key == k && Open(run).value.queueItem && !Open(run).value.withdrawn
  {
    var before, e := run[..|run| - 1], Last(run);
    var s := After(capacity, before);
    if !Grants(s, e, k) {
      if k !in s.authorized { AuthorizationNeedsGrant(s, e, k); }
      AuthorizedWhileOpen(capacity, before, k);
      if Revokes(s, e, k) { RevocationTakesEffect(s, e, k); }
    }
  }

  /** The step at which the open attempt was granted its authorization, in the session that is current and ready. */
  ghost predicate GrantedAt(capacity: nat, run: seq<Event>, k: Key, m: nat) {
    && m < |run| && Grants(After(capacity, run[..m]), run[m], k) && run[m].epoch == After(capacity, run).session
    && After(capacity, run).client == Some(run[m].client) && Open(run[..m]) == Open(run)
  }

  lemma ReadyStays(s: Sim, e: Event, open: Option<Attempt>)
    requires s.ready && s.client.Some? && Allowed(s, open, e) && !Ends(s, e)
    ensures Step(s, e).ready && Step(s, e).client == s.client && Step(s, e).session == s.session
  {
    hide Completed, Kept, Without, Pruned, Released, Resolved;
    if e.Release? && Waiters(s.pending, e.key) != [] { ReleasedSession(s, e.key, e.queueItem); }
    if e.Resolve? { ResolvedSession(s, e.ack); }
  }

  lemma ReleasedSession(s: Sim, k: Key, queueItem: bool)
    requires Waiters(s.pending, k) != []
    ensures SameSession(s, Released(s, k, queueItem))
  {
    hide Completed, Delivered;
    var w := Waiters(s.pending, k)[0];
    var info := if w in s.info then s.info[w := s.info[w].(authorized := true)] else s.info;
    var granted := s.(info := info, authorized := s.authorized + {k});
    if k in s.deferred {
      DeliveredSession(granted.(deferred := s.deferred - {k}, queue := Completed(s.queue, k)), k, s.deferred[k]);
    }
  }

  ghost predicate SameSession(s: Sim, n: Sim) {
    n.ready == s.ready && n.client == s.client && n.session == s.session && n.stopping == s.stopping
  }

  lemma DeliveredSession(s: Sim, k: Key, ack: Ack)
    requires Waiters(s.pending, k) != []
    ensures SameSession(s, Delivered(s, k, ack))
  {
  }

  lemma ResolvedSession(s: Sim, ack: Ack)
    ensures SameSession(s, Resolved(s, ack))
  {
    hide Completed, Delivered, Accepts;
    AcceptsNeedsWaiter(Acknowledged(s, ack), ack, ack.key in s.queue.items);
    if Waiters(s.pending, ack.key) != [] { DeliveredSession(Acknowledged(s, ack), ack.key, ack); }
  }

  /** A step other than an enqueue queues nothing. */
  lemma OnlyEnqueueQueues(s: Sim, e: Event, k: Key)
    requires Inv(s) && k in Step(s, e).queue.items && e != Enqueue(k)
    ensures k in s.queue.items
  {
    StepEffect(s, e);
    hide Step, Completed;
    if e.Release? { ItemsOfCompleted(s.queue, e.key, k); }
    if e.Resolve? { ItemsOfCompleted(s.queue, e.ack.key, k); }
  }

  /** A queued identity is authorized only in the ready session in which its open attempt was granted. */
  lemma {:induction false} QueuedGrantIsCurrent(capacity: nat, run: seq<Event>, k: Key)
    requires Orderly(capacity, run) && k in After(capacity, run).authorized && k in After(capacity, run).queue.items
    ensures var s := After(capacity, run); s.ready && !s.stopping && s.client.Some?
    ensures exists m :: GrantedAt(capacity, run, k, m)
  {
    var before, e := run[..|run| - 1], Last(run);
    var (s, n) := (After(capacity, before), After(capacity, run));
    OrderlyIsLegal(capacity, before);
    ReachableInv(capacity, before);
    OrderlyIsLegal(capacity, run);
    ReachableInv(capacity, run);
    AuthorizedWhileOpen(capacity, run, k);
    if Grants(s, e, k) {
      ReleasedSession(s, k, true);
      GrantIsNow(capacity, run, k);
    } else {
      if k !in s.authorized { AuthorizationNeedsGrant(s, e, k); }
      AuthorizedWhileOpen(capacity, before, k);
      OnlyEnqueueQueues(s, e, k);
      QueuedGrantIsCurrent(capacity, before, k);
      if Revokes(s, e, k) { RevocationTakesEffect(s, e, k); }
      ReadyStays(s, e, Open(before));
      var m :| GrantedAt(capacity, before, k, m);
      GrantStays(capacity, run, k, m);
    }
  }

  lemma GrantIsNow(capacity: nat, run: seq<Event>, k: Key)
    requires run != [] && Grants(After(capacity, run[..|run| - 1]), Last(run), k)
    ensures GrantedAt(capacity, run, k, |run| - 1)
  {
    StepEffect(After(capacity, run[..|run| - 1]), Last(run));
    hide Step, Completed;
  }

  lemma GrantStays(capacity: nat, run: seq<Event>, k: Key, m: nat)
    requires run != [] && GrantedAt(capacity, run[..|run| - 1], k, m)
    requires Open(run) == Open(run[..|run| - 1])
    requires After(capacity, run).session == After(capacity, run[..|run| - 1]).session
    requires After(capacity, run).client == After(capacity, run[..|run| - 1]).client
    ensures GrantedAt(capacity, run, k, m)
  {
    hide After, Open, Grants;
    assert run[..|run| - 1][..m] == run[..m];
  }

  /** The attempt is open for `k`, in a ready session, and has not withdrawn. */
  ghost predicate OpenFor(s: Sim, open: Option<Attempt>, k: Key) {
    && s.ready && !s.stopping && s.client.Some?
    && open.Some? && open.value.key == k && open.value.queueItem && !open.value.withdrawn
  }

  /** The grant that the open attempt was given at step `m`, in the session that is current at step `n`. */
  ghost predicate GrantedBy(capacity: nat, run: seq<Event>, n: nat, k: Key, m: nat)
    requires n < |run|
  {
    && m <= n && Grants(After(capacity, run[..m]), run[m], k) && run[m].epoch == After(capacity, run[..n]).session
    && Open(run[..m]) == Open(run[..n])
  }

  lemma AllowedAt(capacity: nat, run: seq<Event>, n: nat)
    requires Orderly(capacity, run) && n < |run|
    ensures Orderly(capacity, run[..n]) && Allowed(After(capacity, run[..n]), Open(run[..n]), run[n])
    ensures Inv(After(capacity, run[..n]))
  {
    OrderlyPrefix(capacity, run, n);
    OrderlyPrefix(capacity, run, n + 1);
    assert run[..n + 1][..n] == run[..n] && Last(run[..n + 1]) == run[n];
    OrderlyIsLegal(capacity, run[..n]);
    ReachableInv(capacity, run[..n]);
  }

  lemma GrantIsByOpenAttempt(capacity: nat, run: seq<Event>, n: nat, k: Key)
    requires n < |run| && Grants(After(capacity, run[..n]), run[n], k)
    requires Allowed(After(capacity, run[..n]), Open(run[..n]), run[n])
    ensures OpenFor(After(capacity, run[..n]), Open(run[..n]), k) && GrantedBy(capacity, run, n, k, n)
  {
    hide After, Open;
  }

  lemma AuthorizationIsByOpenAttempt(capacity: nat, run: seq<Event>, n: nat, k: Key)
    requires n < |run| && Orderly(capacity, run[..n])
    requires k in After(capacity, run[..n]).authorized && k in After(capacity, run[..n]).queue.items
    ensures OpenFor(After(capacity, run[..n]), Open(run[..n]), k) && exists m :: GrantedBy(capacity, run, n, k, m)
  {
    QueuedGrantIsCurrent(capacity, run[..n], k);
    AuthorizedWhileOpen(capacity, run[..n], k);
    hide After, Open, Orderly, Grants;
    var m: nat :| GrantedAt(capacity, run[..n], k, m);
    assert run[..n][..m] == run[..m];
    assert GrantedBy(capacity, run, n, k, m);
  }

  /**
   In every run of the program an item leaves the queue only in a ready session, by a terminal ACK for it, while the
   attempt for it is open and was granted its authorization in that very session.
   */
  lemma RemovedByOpenAttempt(capacity: nat, run: seq<Event>, n: nat, k: Key)
    requires Orderly(capacity, run) && n < |run|
    requires k in After(capacity, run[..n]).queue.items && k !in After(capacity, run[..n + 1]).queue.items
    ensures OpenFor(After(capacity, run[..n]), Open(run[..n]), k)
    ensures exists m :: GrantedBy(capacity, run, n, k, m)
    ensures || (run[n].Resolve? && run[n].ack.terminal && run[n].ack.key == k)
            || (Grants(After(capacity, run[..n]), run[n], k) && k in After(capacity, run[..n]).deferred)
  {
    AllowedAt(capacity, run, n);
    AfterStep(capacity, run, n);
    hide After, Step, Inv, Open, Orderly, Grants, OpenFor, GrantedBy, Allowed;
    RemovalNeedsGrant(After(capacity, run[..n]), run[n], k);
    if Grants(After(capacity, run[..n]), run[n], k) {
      GrantIsByOpenAttempt(capacity, run, n, k);
    } else {
      AuthorizationIsByOpenAttempt(capacity, run, n, k);
    }
  }

  // ----- What the order of the callers excludes -----

  /** An item that is queued afresh is never authorized: no earlier item leaves its authorization behind. */
  lemma FreshItemIsUnauthorized(capacity: nat, run: seq<Event>, k: Key)
    requires Orderly(capacity, run + [Enqueue(k)])
    ensures k !in After(capacity, run).authorized
  {
    assert (run + [Enqueue(k)])[..|run|] == run;
    if k in After(capacity, run).authorized { AuthorizedWhileOpen(capacity, run, k); }
  }

  /** Every authorization of a queued identity is one of the current session. */
  lemma NeverSlipped(capacity: nat, run: seq<Event>, k: Key)
    requires Orderly(capacity, run) && k in After(capacity, run).authorized && k in After(capacity, run).queue.items
    ensures GrantEpoch(capacity, run, k) == After(capacity, run).session && !Slipped(capacity, run, k)
  {
    EpochIsCurrent(capacity, run, k);
    AuthorizationIsOfThisSession(capacity, run, k);
  }

  lemma {:induction false} EpochIsCurrent(capacity: nat, run: seq<Event>, k: Key)
    requires Orderly(capacity, run) && k in After(capacity, run).authorized && k in After(capacity, run).queue.items
    ensures GrantEpoch(capacity, run, k) == After(capacity, run).session
  {
    var before, e := run[..|run| - 1], Last(run);
    var s := After(capacity, before);
    OrderlyIsLegal(capacity, before);
    ReachableInv(capacity, before);
    if Grants(s, e, k) {
      GrantIsNow(capacity, run, k);
    } else {
      if k !in s.authorized { AuthorizationNeedsGrant(s, e, k); }
      AuthorizedWhileOpen(capacity, before, k);
      OnlyEnqueueQueues(s, e, k);
      QueuedGrantIsCurrent(capacity, before, k);
      if Revokes(s, e, k) { RevocationTakesEffect(s, e, k); }
      ReadyStays(s, e, Open(before));
      EpochIsCurrent(capacity, before, k);
    }
  }
}
