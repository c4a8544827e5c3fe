/** What every interleaving of the simulator's events guarantees about queued items and their ACKs. */
module AckRuns {
  import opened Common
  import opened AckProtocol

  function After(capacity: nat, run: seq<Event>): Sim {
    if run == [] then New(capacity) else Step(After(capacity, run[..|run| - 1]), Last(run))
  }

  ghost predicate Legal(capacity: nat, run: seq<Event>) {
    run == [] || (Legal(capacity, run[..|run| - 1]) && Enabled(After(capacity, run[..|run| - 1]), Last(run)))
  }

  lemma {:induction false} ReachableInv(capacity: nat, run: seq<Event>)
    requires Legal(capacity, run)
    ensures Inv(After(capacity, run))
  {
    if run != [] {
      ReachableInv(capacity, run[..|run| - 1]);
      StepKeepsInv(After(capacity, run[..|run| - 1]), Last(run));
    }
  }

  // ----- Who may remove a queued item -----

  /** A release of a queued attempt that passes its checks in the session current at that moment. */
  predicate Grants(s: Sim, e: Event, k: Key) {
    e.Release? && e.key == k && e.queueItem && InSession(s, e.client, e.epoch) && Waiters(s.pending, k) != []
  }

  /** Events that end the session and prune. */
  predicate Ends(s: Sim, e: Event) {
    !s.stopping && ((e.ConnectionLost? && s.client == Some(e.client)) || e.Disconnect? || e.Shutdown?)
  }

  /** Session changes that do not prune. */
  predicate Slips(s: Sim, e: Event) {
    !s.stopping && (e.SetClient? || (e.BeginRestoration? && s.client == Some(e.client)))
  }

  /** Events after which an earlier attempt no longer counts. */
  predicate Revokes(s: Sim, e: Event, k: Key) {
    || (e.Register? && e.key == k && e.queueItem)
    || (e.Revoke? && e.key == k && e.queueItem)
    || (e.Timeout? && e.key == k && e.queueItem && !(e.waiter in s.channels && s.channels[e.waiter] != []))
    || (Ends(s, e) && k in s.queue.items)
  }

  // ----- What a step does to each part -----

  lemma AfterStep(capacity: nat, run: seq<Event>, n: nat)
    requires n < |run|
    ensures After(capacity, run[..n + 1]) == Step(After(capacity, run[..n]), run[n])
  {
    assert run[..n + 1][..n] == run[..n];
  }

  lemma DeliveredFrame(s: Sim, k: Key, ack: Ack)
    requires Waiters(s.pending, k) != []
    ensures var n := Delivered(s, k, ack);
            n.session == s.session && n.authorized == s.authorized && n.deferred == s.deferred && n.queue == s.queue
  {
  }

  lemma DeliveredLists(s: Sim, k: Key, ack: Ack, l: Key)
    requires Waiters(s.pending, k) != []
    ensures Waiters(Delivered(s, k, ack).pending, l) == if l == k then Waiters(s.pending, k)[1..]
                                                        else Waiters(s.pending, l)
    ensures Delivered(s, k, ack).info == s.info - {Waiters(s.pending, k)[0]}
  {
  }

  lemma AcknowledgedFrame(s: Sim, ack: Ack)
    ensures var n := Acknowledged(s, ack);
            n.session == s.session && n.pending == s.pending && n.info == s.info && n.channels == s.channels
  {
    hide Completed;
  }

  lemma RedeemedFrame(s: Sim, k: Key)
    requires Waiters(s.pending, k) != [] && k in s.deferred
    ensures var n := Redeemed(s, k);
            && n.session == s.session && n.authorized == s.authorized && n.deferred == s.deferred - {k}
            && n.queue == if k in s.queue.items && s.deferred[k].terminal then Completed(s.queue, k) else s.queue
  {
    hide Completed, Delivered;
    DeliveredFrame(s.(deferred := s.deferred - {k}, queue := Completed(s.queue, k)), k, s.deferred[k]);
  }

  lemma ReleasedFrame(s: Sim, k: Key, queueItem: bool)
    requires Waiters(s.pending, k) != []
    ensures var n := Released(s, k, queueItem);
            && n.session == s.session && n.authorized == (if queueItem then s.authorized + {k} else s.authorized)
            && n.deferred == (if queueItem then s.deferred - {k} else s.deferred)
            && n.queue == if queueItem && k in s.deferred && k in s.queue.items && s.deferred[k].terminal
                          then Completed(s.queue, k) else s.queue
  {
    hide Completed, Redeemed;
    if queueItem && k in s.deferred {
      var w := Waiters(s.pending, k)[0];
      var info := if w in s.info then s.info[w := s.info[w].(authorized := true)] else s.info;
      RedeemedFrame(s.(info := info, authorized := s.authorized + {k}), k);
    }
  }

  lemma ResolvedFrame(s: Sim, ack: Ack)
    ensures var (n, m) := (Resolved(s, ack), Acknowledged(s, ack));
            n.session == s.session && n.authorized == m.authorized && n.deferred == m.deferred && n.queue == m.queue
  {
    hide Acknowledged, Delivered, Accepts;
    AcknowledgedFrame(s, ack);
    if Waiters(s.pending, ack.key) != [] { DeliveredFrame(Acknowledged(s, ack), ack.key, ack); }
    assert Accepts(Acknowledged(s, ack), ack, ack.key in s.queue.items) ==> Waiters(s.pending, ack.key) != [] by {
      AcceptsNeedsWaiter(Acknowledged(s, ack), ack, ack.key in s.queue.items);
    }
  }

  lemma AcceptsNeedsWaiter(s: Sim, ack: Ack, queued: bool)
    ensures Accepts(s, ack, queued) ==> Waiters(s.pending, ack.key) != []
  {
  }

  predicate Heard(s: Sim, e: Event) {
    e.Resolve? && (e.source.Some? ==> InSession(s, e.source.value.0, e.source.value.1))
  }

  ghost predicate Effect(s: Sim, e: Event, n: Sim) {
    && n.session == (if Slips(s, e) || Ends(s, e) then s.session + 1 else s.session)
    && n.queue ==
      (if e.Enqueue? && e.key !in s.queue.items && e.key !in s.queue.completed && |s.queue.items| < s.queue.capacity
                   then s.queue.(items := s.queue.items + [e.key])
                   else if e.Release? && Grants(s, e, e.key) && e.key in s.deferred && e.key in s.queue.items
                           && s.deferred[e.key].terminal
                   then Completed(s.queue, e.key)
                   else if Heard(s, e) && e.ack.terminal && e.ack.key in s.queue.items && e.ack.key in s.authorized
                   then Completed(s.queue, e.ack.key) else s.queue)
    && n.deferred == (if e.Release? && Grants(s, e, e.key) then s.deferred - {e.key}
                      else if Heard(s, e) then Acknowledged(s, e.ack).deferred else s.deferred)
    && n.authorized == (if e.Release? && Grants(s, e, e.key) then s.authorized + {e.key}
                        else if Heard(s, e) then Acknowledged(s, e.ack).authorized
                        else if Ends(s, e) then s.authorized - Members(s.queue.items)
                        else if (e.Register? || e.Revoke? || e.Timeout?) && Revokes(s, e, e.key)
                        then s.authorized - {e.key} else s.authorized)
  }

  lemma StepEffect(s: Sim, e: Event)
    ensures Effect(s, e, Step(s, e))
  {
    hide Step, Effect;
    if e.SetClient? || e.BeginRestoration? || e.CommitReady? || e.ConnectionLost? || e.Disconnect? || e.Shutdown? {
      SessionEffect(s, e);
    } else if e.Release? {
      ReleaseEffect(s, e);
    } else if e.Resolve? {
      ResolveEffect(s, e);
    } else if e.Revoke? || e.Timeout? {
      WithdrawalEffect(s, e);
    } else {
      OtherEffect(s, e);
    }
  }

  lemma SessionEffect(s: Sim, e: Event)
    requires e.SetClient? || e.BeginRestoration? || e.CommitReady? || e.ConnectionLost? || e.Disconnect? || e.Shutdown?
    ensures Effect(s, e, Step(s, e))
  {
    hide Completed, Kept, Released, Resolved, Unauthorized, Acknowledged;
  }

  lemma ReleaseEffect(s: Sim, e: Event)
    requires e.Release?
    ensures Effect(s, e, Step(s, e))
  {
    hide Released, Completed, Kept, Resolved, Unauthorized, Acknowledged, Pruned;
    if Waiters(s.pending, e.key) != [] { ReleasedFrame(s, e.key, e.queueItem); }
  }

  lemma ResolveEffect(s: Sim, e: Event)
    requires e.Resolve?
    ensures Effect(s, e, Step(s, e))
  {
    hide Resolved, Completed, Kept, Released, Unauthorized, Pruned;
    ResolvedFrame(s, e.ack);
  }

  lemma OtherEffect(s: Sim, e: Event)
    requires e.Enqueue? || e.Register? || e.Remove? || e.Receive?
    ensures Effect(s, e, Step(s, e))
  {
    hide Unauthorized;
    hide Completed, Kept, Without, Released, Resolved, Pruned, Acknowledged;
  }

  lemma WithdrawalEffect(s: Sim, e: Event)
    requires e.Revoke? || e.Timeout?
    ensures Effect(s, e, Step(s, e))
  {
    hide Completed, Kept, Without, Released, Resolved, Pruned, Acknowledged;
  }

  // ----- Removal -----

  lemma ItemsOfCompleted(q: Queue, k: Key, l: Key)
    requires NoRepeats(q.items)
    ensures l in Completed(q, k).items <==> l in q.items && l != k
  {
    WithoutIs(q.items, k);
  }

  /**
   An item leaves the queue only by a terminal ACK for its identity: one that arrives while the identity is
   authorized, or one deferred earlier that a granting release redeems.
   */
  lemma RemovalNeedsGrant(s: Sim, e: Event, k: Key)
    requires Inv(s) && k in s.queue.items && k !in Step(s, e).queue.items
    ensures || (Heard(s, e) && e.ack.terminal && e.ack.key == k && k in s.authorized)
            || (Grants(s, e, k) && k in s.deferred && s.deferred[k].terminal && s.deferred[k].key == k)
  {
    StepEffect(s, e);
    hide Step, Completed;
    if e.Resolve? { ItemsOfCompleted(s.queue, e.ack.key, k); }
    if e.Release? { ItemsOfCompleted(s.queue, e.key, k); }
  }

  lemma AuthorizationNeedsGrant(s: Sim, e: Event, k: Key)
    requires k !in s.authorized && !Grants(s, e, k)
    ensures k !in Step(s, e).authorized
  {
    StepEffect(s, e);
    hide Step, Completed;
  }

  lemma RevocationTakesEffect(s: Sim, e: Event, k: Key)
    requires Revokes(s, e, k)
    ensures k !in Step(s, e).authorized
  {
    StepEffect(s, e);
    hide Step, Completed;
  }

  lemma {:induction false} NoGrantNoAuthorization(capacity: nat, run: seq<Event>, i: nat, j: nat, k: Key)
    requires i <= j <= |run| && k !in After(capacity, run[..i]).authorized
    requires forall m :: i <= m < j ==> !Grants(After(capacity, run[..m]), run[m], k)
    ensures k !in After(capacity, run[..j]).authorized
    decreases j
  {
    if i < j {
      NoGrantNoAuthorization(capacity, run, i, j - 1, k);
      assert run[..j][..j - 1] == run[..j - 1];
      AuthorizationNeedsGrant(After(capacity, run[..j - 1]), run[j - 1], k);
    }
  }

  lemma {:induction false} LegalPrefix(capacity: nat, run: seq<Event>, n: nat)
    requires Legal(capacity, run) && n <= |run|
    ensures Legal(capacity, run[..n])
    decreases |run|
  {
    if n < |run| {
      LegalPrefix(capacity, run[..|run| - 1], n);
      assert run[..|run| - 1][..n] == run[..n];
    } else {
      assert run[..n] == run;
    }
  }

  /**
   Once an attempt is revoked, re-registered, timed out without an ACK, or lost with its session, the item can
   be removed only after a later release has been granted in a ready session.
   */
  lemma RevokedUntilReleased(capacity: nat, run: seq<Event>, i: nat, j: nat, k: Key)
    requires Legal(capacity, run) && i < j < |run|
    requires Revokes(After(capacity, run[..i]), run[i], k)
    requires k in After(capacity, run[..j]).queue.items && k !in After(capacity, run[..j + 1]).queue.items
    ensures exists m :: i < m <= j && Grants(After(capacity, run[..m]), run[m], k)
  {
    hide Step, Inv, Grants, Revokes, Legal;
    assert run[..i + 1][..i] == run[..i] && run[..j + 1][..j] == run[..j];
    RevocationTakesEffect(After(capacity, run[..i]), run[i], k);
    LegalPrefix(capacity, run, j);
    ReachableInv(capacity, run[..j]);
    RemovalNeedsGrant(After(capacity, run[..j]), run[j], k);
    if !Grants(After(capacity, run[..j]), run[j], k) &&
       forall m :: i + 1 <= m < j ==> !Grants(After(capacity, run[..m]), run[m], k) {
      NoGrantNoAuthorization(capacity, run, i + 1, j, k);
    }
  }

  // ----- No ACK is lost or dropped -----

  /**
   A waiting channel is empty, so the non-blocking send always succeeds, and only the first waiter is sent anything.
   */
  lemma SendNeverDrops(capacity: nat, run: seq<Event>, k: Key, ack: Ack)
    requires Legal(capacity, run) && Waiters(After(capacity, run).pending, k) != []
    ensures var s := After(capacity, run);
            var w := Waiters(s.pending, k)[0];
            Delivered(s, k, ack).channels == s.channels[w := [ack]] && w in s.channels && s.channels[w] == []
  {
    ReachableInv(capacity, run);
    DeliverKeepsInv(After(capacity, run), k, ack);
  }

  ghost predicate SameOrTail(a: seq<Waiter>, b: seq<Waiter>) { b == a || (a != [] && b == a[1..]) }

  lemma RedeemedLists(s: Sim, l: Key, k: Key)
    requires Waiters(s.pending, l) != [] && l in s.deferred
    ensures SameOrTail(Waiters(s.pending, k), Waiters(Redeemed(s, l).pending, k))
    ensures forall w <- Redeemed(s, l).info :: w in s.info && Redeemed(s, l).info[w] == s.info[w]
  {
    hide Completed, Delivered;
    DeliveredLists(s.(deferred := s.deferred - {l}, queue := Completed(s.queue, l)), l, s.deferred[l], k);
  }

  ghost predicate SameKind(info: map<Waiter, Info>, after: map<Waiter, Info>, w: Waiter) {
    w in after ==> w in info && after[w].epoch == info[w].epoch && after[w].attempt == info[w].attempt
  }

  lemma ReleasedLists(s: Sim, l: Key, queueItem: bool, k: Key)
    requires Waiters(s.pending, l) != []
    ensures SameOrTail(Waiters(s.pending, k), Waiters(Released(s, l, queueItem).pending, k))
    ensures forall w :: SameKind(s.info, Released(s, l, queueItem).info, w)
  {
    hide Redeemed;
    if queueItem && l in s.deferred {
      var w := Waiters(s.pending, l)[0];
      var info := if w in s.info then s.info[w := s.info[w].(authorized := true)] else s.info;
      RedeemedLists(s.(info := info, authorized := s.authorized + {l}), l, k);
    }
  }

  lemma ResolvedLists(s: Sim, ack: Ack, k: Key)
    ensures SameOrTail(Waiters(s.pending, k), Waiters(Resolved(s, ack).pending, k))
    ensures forall w :: SameKind(s.info, Resolved(s, ack).info, w)
  {
    hide Acknowledged, Delivered, Accepts;
    AcknowledgedFrame(s, ack);
    AcceptsNeedsWaiter(Acknowledged(s, ack), ack, ack.key in s.queue.items);
    if Waiters(s.pending, ack.key) != [] { DeliveredLists(Acknowledged(s, ack), ack.key, ack, k); }
  }

  /** What a step makes of one list of waiters. */
  ghost predicate ListStep(s: Sim, e: Event, a: seq<Waiter>, b: seq<Waiter>) {
    || SameOrTail(a, b) || (e.Remove? && b == Without(a, e.waiter)) || (Ends(s, e) && b == Kept(a, s.info))
    || (e.Register? && b == a + [e.waiter])
  }

  lemma ListEffect(s: Sim, e: Event, k: Key)
    ensures ListStep(s, e, Waiters(s.pending, k), Waiters(Step(s, e).pending, k))
    ensures Ends(s, e) ==> Waiters(Step(s, e).pending, k) == Kept(Waiters(s.pending, k), s.info)
  {
    hide Completed, Released, Resolved, Kept, Without;
    match e
    case Release(l, _, _, queueItem) => if Waiters(s.pending, l) != [] { ReleasedLists(s, l, queueItem, k); }
    case Resolve(_, ack) => ResolvedLists(s, ack, k);
    case _ => NoneKept(s.info);
  }

  lemma NoneKept(info: map<Waiter, Info>)
    ensures Kept([], info) == []
  {
  }

  lemma OnlyRegisterAddsWaiters(s: Sim, e: Event, k: Key, w: Waiter)
    requires Inv(s) && Waits(Step(s, e), k, w)
    ensures Waits(s, k, w) || (e.Register? && e.waiter == w)
  {
    var (a, b) := (Waiters(s.pending, k), Waiters(Step(s, e).pending, k));
    ListEffect(s, e, k);
    hide Step, Kept, Without;
    WithoutIs(a, if e.Remove? then e.waiter else w);
    KeptIs(a, s.info);
  }

  lemma ReleasedChannels(s: Sim, k: Key, queueItem: bool)
    requires Waiters(s.pending, k) != []
    ensures s.channels.Keys <= Released(s, k, queueItem).channels.Keys
  {
    hide Completed;
  }

  lemma ResolvedChannels(s: Sim, ack: Ack)
    ensures s.channels.Keys <= Resolved(s, ack).channels.Keys
  {
    hide Completed;
  }

  lemma ChannelsPersist(s: Sim, e: Event, w: Waiter)
    requires w in s.channels
    ensures w in Step(s, e).channels
  {
    hide Kept, Completed, Without, Released, Resolved;
    if e.Release? && Waiters(s.pending, e.key) != [] { ReleasedChannels(s, e.key, e.queueItem); }
    if e.Resolve? { ResolvedChannels(s, e.ack); }
  }

  /** The channel exists and its waiter is on no list. */
  ghost predicate Retired(s: Sim, w: Waiter) { w in s.channels && forall k :: !Waits(s, k, w) }

  lemma RetiredStays(s: Sim, e: Event, w: Waiter)
    requires Inv(s) && Enabled(s, e) && Retired(s, w)
    ensures Retired(Step(s, e), w)
  {
    ChannelsPersist(s, e, w);
    hide Step, Inv;
    forall k ensures !Waits(Step(s, e), k, w) {
      if Waits(Step(s, e), k, w) { OnlyRegisterAddsWaiters(s, e, k, w); }
    }
  }

  /**
   A waiter that has left its list, whether told, pruned or withdrawn, is never on a list again, so it is told at
   most once.
   */
  lemma {:induction false} NeverWaitsAgain(capacity: nat, run: seq<Event>, i: nat, j: nat, w: Waiter)
    requires Legal(capacity, run) && i <= j <= |run| && Retired(After(capacity, run[..i]), w)
    ensures Retired(After(capacity, run[..j]), w)
    decreases j
  {
    if i < j {
      hide Retired, Step, Inv, Enabled;
      NeverWaitsAgain(capacity, run, i, j - 1, w);
      assert run[..j][..j - 1] == run[..j - 1];
      LegalPrefix(capacity, run, j);
      LegalPrefix(capacity, run, j - 1);
      ReachableInv(capacity, run[..j - 1]);
      RetiredStays(After(capacity, run[..j - 1]), run[j - 1], w);
    }
  }

  /**
   A terminal ACK for a queued item that is accepted into the session completes the item or is kept for the next
   release.
   */
  lemma AckIsNotLost(s: Sim, source: Option<(Client, nat)>, ack: Ack)
    requires Inv(s) && ack.terminal && ack.key in s.queue.items
    requires (source.Some? ==> InSession(s, source.value.0, source.value.1))
    ensures var n := Step(s, Resolve(source, ack));
            if ack.key in s.authorized
            then ack.key !in n.queue.items && ack.key !in n.authorized && ack.key !in n.deferred
            else ack.key in n.queue.items && ack.key in n.deferred && n.deferred[ack.key] == ack
  {
    ItemsOfCompleted(s.queue, ack.key, ack.key);
  }

  /** A kept ACK stays until its item is completed. */
  lemma DeferredStays(s: Sim, e: Event, k: Key)
    requires Inv(s) && k in s.deferred
    ensures k in Step(s, e).deferred || k !in Step(s, e).queue.items
  {
    StepEffect(s, e);
    hide Step, Completed;
    ItemsOfCompleted(s.queue, k, k);
  }

  /** A granting release redeems the kept ACK: the item is completed and the first waiter is sent exactly that ACK. */
  lemma ReleaseRedeems(s: Sim, e: Event, k: Key)
    requires Inv(s) && Grants(s, e, k) && k in s.deferred
    ensures var n := Step(s, e);
            var w := Waiters(s.pending, k)[0];
            && k !in n.queue.items && k !in n.deferred && w in n.channels && n.channels[w] == [s.deferred[k]]
            && !Waits(n, k, w)
  {
    ItemsOfCompleted(s.queue, k, k);
    StepEffect(s, e);
    var w := Waiters(s.pending, k)[0];
    assert Waits(s, k, w);
    assert Step(s, e) == Released(s, k, true);
    hide Step, Completed;
    ReleasedSends(s, k);
  }

  lemma ReleasedSends(s: Sim, k: Key)
    requires Inv(s) && Waiters(s.pending, k) != [] && k in s.deferred
    ensures var (n, w) := (Released(s, k, true), Waiters(s.pending, k)[0]);
            w in n.channels && n.channels[w] == [s.deferred[k]] && !Waits(n, k, w)
  {
    hide Completed;
    var w := Waiters(s.pending, k)[0];
    assert Waits(s, k, w);
    assert s.pending[k] == [w] + s.pending[k][1..];
  }

  /** The queue is first in, first out except for completed items, bounded, and without repeats. */
  lemma QueueDiscipline(s: Sim, e: Event)
    requires Inv(s)
    ensures var (q, p) := (s.queue, Step(s, e).queue);
            || p == q
            || (e.Enqueue? && p == q.(items := q.items + [e.key])
                && e.key !in q.items && e.key !in q.completed && |q.items| < q.capacity)
            || exists k :: k in q.items && p == Completed(q, k)
  {
    StepEffect(s, e);
    hide Step, Completed;
  }

  /** Completing removes one item and keeps the order; the identity is remembered, at the cost of the oldest if full. */
  lemma CompletedMeans(q: Queue, k: Key)
    requires NoRepeats(q.items) && k in q.items && |q.completed| <= q.capacity && q.capacity > 0
    ensures var p := Completed(q, k);
            && p.capacity == q.capacity && k in p.completed && |p.completed| <= q.capacity
            && (exists i :: 0 <= i < |q.items| && q.items[i] == k && p.items == q.items[..i] + q.items[i + 1..])
            && (k in q.completed ==> p.completed == q.completed)
            && (k !in q.completed && |q.completed| < q.capacity ==> p.completed == q.completed + [k])
            && (k !in q.completed && |q.completed| == q.capacity ==> p.completed == q.completed[1..] + [k])
  {
    var i :| 0 <= i < |q.items| && q.items[i] == k;
    WithoutAt(q.items, i);
    hide Without, NoRepeats;
    assert (q.completed + [k])[|q.completed|] == k;
    if q.completed != [] { assert (q.completed + [k])[1..] == q.completed[1..] + [k]; }
  }

  // ----- A kept ACK, from its arrival to the release that redeems it -----

  lemma {:induction false} KeptIsUnauthorized(capacity: nat, run: seq<Event>, k: Key)
    requires Legal(capacity, run)
    ensures var s := After(capacity, run); !(k in s.deferred && k in s.authorized)
  {
    if run != [] {
      var before := run[..|run| - 1];
      KeptIsUnauthorized(capacity, before, k);
      StepEffect(After(capacity, before), Last(run));
      hide Step, Completed, Legal;
    }
  }

  /** The last terminal ACK heard for `k` before step `j`, or the one kept at `i`. */
  function LatestAck(capacity: nat, run: seq<Event>, i: nat, j: nat, k: Key): Ack
    requires i <= j <= |run| && k in After(capacity, run[..i]).deferred
    decreases j
  {
    if j == i then After(capacity, run[..i]).deferred[k]
    else if Heard(After(capacity, run[..j - 1]), run[j - 1]) && run[j - 1].ack.terminal && run[j - 1].ack.key == k
    then run[j - 1].ack
    else LatestAck(capacity, run, i, j - 1, k)
  }

  lemma DeferredStep(s: Sim, e: Event, k: Key)
    requires Inv(s) && k in s.deferred && k !in s.authorized && !Grants(s, e, k)
    ensures k in Step(s, e).deferred
    ensures Step(s, e).deferred[k] == if Heard(s, e) && e.ack.terminal && e.ack.key == k then e.ack else s.deferred[k]
  {
    DeferredEffect(s, e);
    hide Step, Completed;
  }

  lemma DeferredEffect(s: Sim, e: Event)
    ensures Step(s, e).deferred == if e.Release? && Grants(s, e, e.key) then s.deferred - {e.key}
                                   else if Heard(s, e) then Acknowledged(s, e.ack).deferred else s.deferred
  {
    StepEffect(s, e);
    hide Step, Completed, Acknowledged, Grants, Heard;
  }

  lemma GrantHasWaiter(s: Sim, e: Event, k: Key)
    ensures Grants(s, e, k) ==> Waiters(s.pending, k) != []
  {
  }

  /** Until a release is granted, the item stays queued and the latest ACK for it stays kept. */
  lemma {:induction false} KeptUntilGrant(capacity: nat, run: seq<Event>, i: nat, j: nat, k: Key)
    requires Legal(capacity, run) && i <= j <= |run| && k in After(capacity, run[..i]).deferred
    requires forall m :: i <= m < j ==> !Grants(After(capacity, run[..m]), run[m], k)
    ensures var s := After(capacity, run[..j]);
            k in s.queue.items && k in s.deferred && s.deferred[k] == LatestAck(capacity, run, i, j, k)
    decreases j
  {
    hide Grants, Legal, Step, Heard, After;
    LegalPrefix(capacity, run, j);
    ReachableInv(capacity, run[..j]);
    if i < j {
      KeptUntilGrant(capacity, run, i, j - 1, k);
      LegalPrefix(capacity, run, j - 1);
      ReachableInv(capacity, run[..j - 1]);
      KeptIsUnauthorized(capacity, run[..j - 1], k);
      AfterStep(capacity, run, j - 1);
      DeferredStep(After(capacity, run[..j - 1]), run[j - 1], k);
    }
  }

  /** After a deferral the first granted release completes the item and sends the first waiter the latest ACK. */
  lemma KeptAckIsDelivered(capacity: nat, run: seq<Event>, i: nat, j: nat, k: Key)
    requires Legal(capacity, run) && i <= j < |run| && k in After(capacity, run[..i]).deferred
    requires forall m :: i <= m < j ==> !Grants(After(capacity, run[..m]), run[m], k)
    requires Grants(After(capacity, run[..j]), run[j], k)
    ensures var (s, n) := (After(capacity, run[..j]), After(capacity, run[..j + 1]));
            && k in s.queue.items && k !in n.queue.items && Waiters(s.pending, k) != []
            && Waiters(s.pending, k)[0] in n.channels
            && n.channels[Waiters(s.pending, k)[0]] == [LatestAck(capacity, run, i, j, k)]
  {
    KeptUntilGrant(capacity, run, i, j, k);
    LegalPrefix(capacity, run, j);
    ReachableInv(capacity, run[..j]);
    AfterStep(capacity, run, j);
    GrantHasWaiter(After(capacity, run[..j]), run[j], k);
    hide Step, Inv, Legal, After, LatestAck, Grants;
    ReleaseRedeems(After(capacity, run[..j]), run[j], k);
  }

  // ----- An item needs a release of its own -----

  /**
   An item that is removed without a release granted since it was queued was authorized before it was queued:
   the authorization is one that an earlier item of the same identity left behind.
   */
  lemma RemovedWithoutReleaseWasAuthorized(capacity: nat, run: seq<Event>, i: nat, j: nat, k: Key)
    requires Legal(capacity, run) && i < j < |run| && run[i] == Enqueue(k)
    requires k in After(capacity, run[..j]).queue.items && k !in After(capacity, run[..j + 1]).queue.items
    requires forall m :: i < m <= j ==> !Grants(After(capacity, run[..m]), run[m], k)
    ensures k in After(capacity, run[..i]).authorized
  {
    AfterStep(capacity, run, j);
    LegalPrefix(capacity, run, j);
    ReachableInv(capacity, run[..j]);
    assert !Grants(After(capacity, run[..i]), run[i], k);
    hide Step, Inv, Legal, After, Grants;
    RemovalNeedsGrant(After(capacity, run[..j]), run[j], k);
    if k !in After(capacity, run[..i]).authorized {
      NoGrantNoAuthorization(capacity, run, i, j, k);
    }
  }

  ghost predicate Ungranted(capacity: nat, run: seq<Event>, from: nat, k: Key) {
    forall m :: from <= m < |run| ==> !Grants(After(capacity, run[..m]), run[m], k)
  }

  /** Continuing with `more`, the item is removed although no release for it is granted. */
  ghost predicate RemovesUngranted(capacity: nat, run: seq<Event>, more: seq<Event>, k: Key) {
    && Legal(capacity, run + more) && Ungranted(capacity, run + more, |run|, k)
    && k !in After(capacity, run + more).queue.items
  }

  lemma {:induction false} SomeRemoval(capacity: nat, run: seq<Event>, i: nat, n: nat, k: Key) returns (j: nat)
    requires i <= n <= |run|
    requires k in After(capacity, run[..i]).queue.items && k !in After(capacity, run[..n]).queue.items
    ensures i <= j < n && k in After(capacity, run[..j]).queue.items && k !in After(capacity, run[..j + 1]).queue.items
    decreases n
  {
    hide After;
    if k in After(capacity, run[..n - 1]).queue.items {
      j := n - 1;
    } else {
      j := SomeRemoval(capacity, run, i, n - 1, k);
    }
  }

  lemma UngrantedRemovalWasAuthorized(capacity: nat, run: seq<Event>, more: seq<Event>, k: Key)
    requires Legal(capacity, run) && k in After(capacity, run + [Enqueue(k)]).queue.items
    requires RemovesUngranted(capacity, run + [Enqueue(k)], more, k)
    ensures k in After(capacity, run).authorized
  {
    hide After, Step, Grants, Legal;
    var base, n := run + [Enqueue(k)], |run|;
    var all := base + more;
    assert all[..n + 1] == base && all[..n] == run && all[..|all|] == all && all[n] == Enqueue(k);
    var j := SomeRemoval(capacity, all, n + 1, |all|, k);
    RemovedWithoutReleaseWasAuthorized(capacity, all, n, j, k);
  }

  lemma AuthorizedIsRemoved(capacity: nat, run: seq<Event>, k: Key)
    requires Legal(capacity, run) && k in After(capacity, run + [Enqueue(k)]).queue.items
    requires k in After(capacity, run).authorized
    ensures RemovesUngranted(capacity, run + [Enqueue(k)], [Resolve(None, Ack(k, true, "stored"))], k)
  {
    hide After, Step, Legal, Grants;
    var base, ack := run + [Enqueue(k)], Ack(k, true, "stored");
    LegalExtends(capacity, run, Enqueue(k));
    LegalExtends(capacity, base, Resolve(None, ack));
    EnqueueKeepsAuthorized(After(capacity, run), k);
    ReachableInv(capacity, base);
    AckIsNotLost(After(capacity, base), None, ack);
    ResolveGrantsNothing(After(capacity, base), ack, k);
    assert (base + [Resolve(None, ack)])[..|base|] == base;
  }

  lemma LegalExtends(capacity: nat, run: seq<Event>, e: Event)
    requires Legal(capacity, run) && Enabled(After(capacity, run), e)
    ensures Legal(capacity, run + [e]) && After(capacity, run + [e]) == Step(After(capacity, run), e)
  {
    assert (run + [e])[..|run|] == run;
  }

  lemma EnqueueKeepsAuthorized(s: Sim, k: Key)
    ensures Step(s, Enqueue(k)).authorized == s.authorized
  {
  }

  lemma ResolveGrantsNothing(s: Sim, ack: Ack, k: Key)
    ensures !Grants(s, Resolve(None, ack), k)
  {
  }

  /**
   An item that was just queued can be removed with no release granted for it exactly when its identity was
   authorized before: an authorization that an earlier item of the same identity left behind.
   */
  lemma RemovableWithoutReleaseIff(capacity: nat, run: seq<Event>, k: Key)
    requires Legal(capacity, run) && k in After(capacity, run + [Enqueue(k)]).queue.items
    ensures k in After(capacity, run).authorized <==>
            (exists more :: RemovesUngranted(capacity, run + [Enqueue(k)], more, k))
  {
    hide After, RemovesUngranted, Legal;
    if k in After(capacity, run).authorized { AuthorizedIsRemoved(capacity, run, k); }
    if more :| RemovesUngranted(capacity, run + [Enqueue(k)], more, k) {
      UngrantedRemovalWasAuthorized(capacity, run, more, k);
    }
  }
}
