/**
 The acknowledgement protocol of the device simulator. Each event is one critical section under the lifecycle
 and ACK locks. Identities, waiters (one-slot channels) and MQTT clients are opaque values; publishing, timers
 and goroutines are represented only by the order in which events occur.
 */
module AckProtocol {
  import opened Common

  type Key = nat
  type Waiter = nat
  type Client = nat

  datatype Ack = Ack(key: Key, terminal: bool, status: string)

  datatype Info = Info(epoch: nat, queueItem: bool, attempt: bool, authorized: bool)

  /** Pending identities in order, and the most recently completed ones. */
  datatype Queue = Queue(capacity: nat, items: seq<Key>, completed: seq<Key>)

  datatype Sim = Sim(
    stopping: bool, ready: bool, client: Option<Client>, session: nat, restoring: nat,
    pending: map<Key, seq<Waiter>>, info: map<Waiter, Info>, authorized: set<Key>, deferred: map<Key, Ack>,
    channels: map<Waiter, seq<Ack>>, queue: Queue)

  datatype Event =
    | SetClient(client: Client)
    | BeginRestoration(client: Client)
    | CommitReady(client: Client, epoch: nat)
    | ConnectionLost(client: Client)
    | Disconnect
    | Shutdown
    | Enqueue(key: Key)
    | Register(key: Key, queueItem: bool, attempt: bool, waiter: Waiter)
    | Revoke(key: Key, waiter: Waiter, queueItem: bool)
    | Timeout(key: Key, waiter: Waiter, queueItem: bool)
    | Release(key: Key, client: Client, epoch: nat, queueItem: bool)
    | Resolve(source: Option<(Client, nat)>, ack: Ack)
    | Remove(key: Key, waiter: Waiter)
    | Receive(waiter: Waiter)

  // ----- Pieces of a step -----

  function Waiters(pending: map<Key, seq<Waiter>>, k: Key): seq<Waiter> { if k in pending then pending[k] else [] }

  function WithWaiters(pending: map<Key, seq<Waiter>>, k: Key, ws: seq<Waiter>): map<Key, seq<Waiter>> {
    if ws == [] then pending - {k} else pending[k := ws]
  }

  function Without(s: seq<nat>, x: nat): seq<nat> {
    if s == [] then [] else if s[0] == x then s[1..] else [s[0]] + Without(s[1..], x)
  }

  function Kept(ws: seq<Waiter>, info: map<Waiter, Info>): seq<Waiter> {
    if ws == [] then []
    else Kept(ws[..|ws| - 1], info) + if Last(ws) in info && info[Last(ws)].attempt then [] else [Last(ws)]
  }

  function Remember(completed: seq<Key>, k: Key, capacity: nat): seq<Key> {
    if k in completed then completed
    else if |completed + [k]| > capacity then (completed + [k])[1..] else completed + [k]
  }

  function Completed(q: Queue, k: Key): Queue {
    q.(items := Without(q.items, k), completed := Remember(q.completed, k, q.capacity))
  }

  function Invalidated(s: Sim): Sim { s.(session := s.session + 1, restoring := 0, ready := false) }

  function Members(s: seq<nat>): set<nat> { set x | x in s }

  /** Waiters of publish attempts go, and so does the authorization of every queued item. */
  function Pruned(s: Sim): Sim {
    s.(pending := map k | k in s.pending && Kept(s.pending[k], s.info) != [] :: Kept(s.pending[k], s.info),
       info := map w | w in s.info && !s.info[w].attempt :: s.info[w],
       authorized := s.authorized - Members(s.queue.items))
  }

  function Unauthorized(s: Sim, k: Key, w: Waiter, queueItem: bool): Sim {
    s.(info := if w in s.info then s.info[w := s.info[w].(authorized := false)] else s.info,
       authorized := if queueItem then s.authorized - {k} else s.authorized)
  }

  predicate InSession(s: Sim, client: Client, epoch: nat) {
    !s.stopping && s.ready && s.client == Some(client) && s.session == epoch
  }

  /** The first waiter leaves the list and is sent the ACK, unless its slot is full. */
  function Delivered(s: Sim, k: Key, ack: Ack): Sim
    requires Waiters(s.pending, k) != []
  {
    var w := Waiters(s.pending, k)[0];
    s.(pending := WithWaiters(s.pending, k, Waiters(s.pending, k)[1..]),
       info := s.info - {w},
       channels := if w in s.channels && s.channels[w] == [] then s.channels[w := [ack]] else s.channels)
  }

  function Released(s: Sim, k: Key, queueItem: bool): Sim
    requires Waiters(s.pending, k) != []
  {
    var w := Waiters(s.pending, k)[0];
    var marked := s.(info := if w in s.info then s.info[w := s.info[w].(authorized := true)] else s.info);
    if !queueItem then marked
    else
      var granted := marked.(authorized := s.authorized + {k});
      if k !in s.deferred then granted else Redeemed(granted, k)
  }

  /** An ACK that arrived before its attempt was released completes the item now. */
  function Redeemed(s: Sim, k: Key): Sim
    requires Waiters(s.pending, k) != [] && k in s.deferred
  {
    var taken := s.(deferred := s.deferred - {k});
    if k !in s.queue.items || !s.deferred[k].terminal then taken
    else Delivered(taken.(queue := Completed(s.queue, k)), k, s.deferred[k])
  }

  /** What an ACK does to the queue, before any waiter is considered. */
  function Acknowledged(s: Sim, ack: Ack): Sim {
    if !(ack.terminal && ack.key in s.queue.items) then s
    else if ack.key !in s.authorized then s.(deferred := s.deferred[ack.key := ack])
    else s.(queue := Completed(s.queue, ack.key), authorized := s.authorized - {ack.key},
            deferred := s.deferred - {ack.key})
  }

  predicate Deferring(s: Sim, ack: Ack) { ack.terminal && ack.key in s.queue.items && ack.key !in s.authorized }

  /** Whether the first waiter may be told, given whether the item was queued when the ACK came in. */
  predicate Accepts(s: Sim, ack: Ack, queued: bool) {
    var ws := Waiters(s.pending, ack.key);
    && ws != []
    && (ws[0] in s.info ==>
          var i := s.info[ws[0]];
          i.epoch == s.session && (i.queueItem ==> queued) && (ack.terminal && i.attempt ==> i.authorized))
  }

  function Told(s: Sim, ack: Ack, queued: bool): Sim {
    if Accepts(s, ack, queued) then Delivered(s, ack.key, ack) else s
  }

  function Resolved(s: Sim, ack: Ack): Sim {
    if Deferring(s, ack) then Acknowledged(s, ack) else Told(Acknowledged(s, ack), ack, ack.key in s.queue.items)
  }

  function Enqueued(s: Sim, k: Key): Sim {
    if k in s.queue.items || k in s.queue.completed || |s.queue.items| >= s.queue.capacity then s
    else s.(queue := s.queue.(items := s.queue.items + [k]))
  }

  function Registered(s: Sim, k: Key, queueItem: bool, attempt: bool, w: Waiter): Sim {
    s.(pending := s.pending[k := Waiters(s.pending, k) + [w]],
       info := s.info[w := Info(s.session, queueItem, attempt, false)],
       authorized := if queueItem then s.authorized - {k} else s.authorized, channels := s.channels[w := []])
  }

  function Step(s: Sim, e: Event): Sim {
    match e
    case SetClient(c) => if s.stopping then s else Invalidated(s.(client := Some(c)))
    case BeginRestoration(c) =>
      if s.stopping || s.client != Some(c) then s else Invalidated(s).(restoring := s.session + 1)
    case CommitReady(c, epoch) =>
      if !s.stopping && s.client == Some(c) && s.session == epoch == s.restoring then s.(ready := true) else s
    case ConnectionLost(c) => if s.stopping || s.client != Some(c) then s else Pruned(Invalidated(s))
    case Disconnect => if s.stopping then s else Pruned(Invalidated(s.(client := None)))
    case Shutdown => if s.stopping then s else Pruned(Invalidated(s.(client := None, stopping := true)))
    case Enqueue(k) => Enqueued(s, k)
    case Register(k, queueItem, attempt, w) => Registered(s, k, queueItem, attempt, w)
    case Revoke(k, w, queueItem) => Unauthorized(s, k, w, queueItem)
    case Timeout(k, w, queueItem) =>
      if w in s.channels && s.channels[w] != [] then s.(channels := s.channels[w := s.channels[w][1..]])
      else Unauthorized(s, k, w, queueItem)
    case Release(k, c, epoch, queueItem) =>
      if !InSession(s, c, epoch) || Waiters(s.pending, k) == [] then s else Released(s, k, queueItem)
    case Resolve(source, ack) =>
      if source.Some? && !InSession(s, source.value.0, source.value.1) then s else Resolved(s, ack)
    case Remove(k, w) =>
      if w in Waiters(s.pending, k)
      then s.(pending := WithWaiters(s.pending, k, Without(s.pending[k], w)), info := s.info - {w}) else s
    case Receive(w) =>
      if w in s.channels && s.channels[w] != [] then s.(channels := s.channels[w := s.channels[w][1..]]) else s
  }

  /** A registered channel is a new one. */
  predicate Enabled(s: Sim, e: Event) { e.Register? ==> e.waiter !in s.channels }

  // ----- What every state looks like -----

  ghost predicate Waits(s: Sim, k: Key, w: Waiter) { k in s.pending && w in s.pending[k] }

  ghost predicate NoRepeats(s: seq<nat>) { forall i, j :: 0 <= i < j < |s| ==> s[i] != s[j] }

  ghost predicate ListsOk(s: Sim) {
    && (forall k <- s.pending :: s.pending[k] != [] && NoRepeats(s.pending[k]))
    && (forall k, l, w :: Waits(s, k, w) && Waits(s, l, w) ==> k == l)
  }

  /** Every waiting channel is empty, and exactly the waiting channels have an entry. */
  ghost predicate WaitersOk(s: Sim) {
    && (forall k, w :: Waits(s, k, w) ==> w in s.channels && s.channels[w] == [] && w in s.info)
    && (forall w <- s.info :: exists k :: Waits(s, k, w))
    && (forall w <- s.channels :: |s.channels[w]| <= 1)
  }

  ghost predicate QueueOk(s: Sim) {
    && NoRepeats(s.queue.items) && |s.queue.items| <= s.queue.capacity && |s.queue.completed| <= s.queue.capacity
    && (forall k <- s.deferred :: s.deferred[k].terminal && s.deferred[k].key == k && k in s.queue.items)
  }

  ghost predicate SessionOk(s: Sim) { (s.ready ==> s.client.Some? && !s.stopping) && (s.stopping ==> s.client.None?) }

  ghost predicate Inv(s: Sim) { ListsOk(s) && WaitersOk(s) && QueueOk(s) && SessionOk(s) }

  lemma {:induction false} WithoutIs(s: seq<nat>, x: nat)
    requires NoRepeats(s)
    ensures NoRepeats(Without(s, x)) && |Without(s, x)| == if x in s then |s| - 1 else |s|
    ensures forall y :: y in Without(s, x) <==> y in s && y != x
  {
    if s != [] && s[0] != x {
      WithoutIs(s[1..], x);
      var t := Without(s[1..], x);
      assert s == [s[0]] + s[1..];
      assert s[0] !in s[1..];
    } else if s != [] {
      assert s == [s[0]] + s[1..];
    }
  }

  lemma {:induction false} KeptIs(ws: seq<Waiter>, info: map<Waiter, Info>)
    requires NoRepeats(ws)
    ensures NoRepeats(Kept(ws, info)) && forall w :: w in Kept(ws, info) <==> w in ws && !(w in info && info[w].attempt)
  {
    if ws != [] {
      var front := ws[..|ws| - 1];
      KeptIs(front, info);
      assert ws == front + [Last(ws)];
      assert Last(ws) !in front;
    }
  }

  lemma PruneKeepsInv(s: Sim)
    requires Inv(s)
    ensures Inv(Pruned(s))
  {
    var n := Pruned(s);
    forall k | k in s.pending ensures NoRepeats(Kept(s.pending[k], s.info)) { KeptIs(s.pending[k], s.info); }
    forall k, w ensures Waits(n, k, w) <==> Waits(s, k, w) && !s.info[w].attempt {
      assert Waits(s, k, w) ==> w in s.info;
      if k in s.pending { KeptIs(s.pending[k], s.info); }
    }
    forall w | w in n.info ensures exists k :: Waits(n, k, w) {
      var k :| Waits(s, k, w);
      assert Waits(n, k, w);
    }
  }

  /** One waiter leaves its list, having perhaps been sent an ACK. */
  lemma DropKeepsInv(s: Sim, n: Sim, k: Key, w: Waiter)
    requires Inv(s) && Waits(s, k, w)
    requires n == s.(pending := WithWaiters(s.pending, k, Without(s.pending[k], w)), info := s.info - {w},
                     channels := n.channels)
    requires n.channels == s.channels || exists a :: n.channels == s.channels[w := [a]]
    ensures Inv(n)
    ensures forall l, v :: Waits(n, l, v) <==> Waits(s, l, v) && v != w
  {
    WithoutIs(s.pending[k], w);
    forall l, v ensures Waits(n, l, v) <==> Waits(s, l, v) && v != w {
      assert Waits(s, l, v) && v == w ==> l == k;
    }
    forall v | v in n.info ensures exists l :: Waits(n, l, v) {
      var l :| Waits(s, l, v);
      assert Waits(n, l, v);
    }
  }

  lemma DeliverKeepsInv(s: Sim, k: Key, ack: Ack)
    requires Inv(s) && Waiters(s.pending, k) != []
    ensures Inv(Delivered(s, k, ack))
    ensures var w := Waiters(s.pending, k)[0];
            w in s.channels && s.channels[w] == [] && Delivered(s, k, ack).channels == s.channels[w := [ack]]
  {
    var w := s.pending[k][0];
    assert Waits(s, k, w);
    assert Without(s.pending[k], w) == s.pending[k][1..];
    DropKeepsInv(s, Delivered(s, k, ack), k, w);
  }

  /** Changing only what an entry says, the authorizations or the session leaves the lists as they were. */
  lemma SameLists(s: Sim, n: Sim)
    requires Inv(s) && n.pending == s.pending && n.channels == s.channels && n.info.Keys == s.info.Keys && QueueOk(n)
    requires SessionOk(n)
    ensures Inv(n)
  {
    assert forall k, w :: Waits(n, k, w) <==> Waits(s, k, w);
  }

  lemma CompleteKeepsQueue(s: Sim, k: Key, n: Sim)
    requires Inv(s) && k in s.queue.items
    requires n == s.(queue := Completed(s.queue, k), deferred := s.deferred - {k}, authorized := n.authorized,
                     info := n.info)
    requires n.info.Keys == s.info.Keys
    ensures Inv(n)
  {
    WithoutIs(s.queue.items, k);
    SameLists(s, n);
  }

  lemma AppendNoRepeats(s: seq<nat>, x: nat)
    requires NoRepeats(s) && x !in s
    ensures NoRepeats(s + [x])
  {
  }

  lemma RegisterKeepsInv(s: Sim, e: Event)
    requires Inv(s) && e.Register? && Enabled(s, e)
    ensures Inv(Step(s, e))
  {
    var n := Step(s, e);
    assert forall k, w :: Waits(s, k, w) ==> w != e.waiter;
    assert NoRepeats(n.pending[e.key]) by {
      var ws := Waiters(s.pending, e.key);
      assert forall w <- ws :: Waits(s, e.key, w);
      AppendNoRepeats(ws, e.waiter);
    }
    forall k, w ensures Waits(n, k, w) <==> Waits(s, k, w) || (k == e.key && w == e.waiter) {}
    forall w | w in n.info ensures exists k :: Waits(n, k, w) {
      if w == e.waiter {
        assert Waits(n, e.key, w);
      } else {
        var k :| Waits(s, k, w);
        assert Waits(n, k, w);
      }
    }
  }

  lemma ReleaseKeepsInv(s: Sim, k: Key, queueItem: bool)
    requires Inv(s) && Waiters(s.pending, k) != []
    ensures Inv(Released(s, k, queueItem))
  {
    var w := Waiters(s.pending, k)[0];
    assert Waits(s, k, w);
    var marked := s.(info := s.info[w := s.info[w].(authorized := true)]);
    assert marked.info.Keys == s.info.Keys;
    SameLists(s, marked);
    if queueItem {
      var granted := marked.(authorized := s.authorized + {k});
      SameLists(s, granted);
      if k in s.deferred {
        var done := granted.(deferred := s.deferred - {k}, queue := Completed(s.queue, k));
        CompleteKeepsQueue(s, k, done);
        DeliverKeepsInv(done, k, s.deferred[k]);
      }
    }
  }

  lemma ResolveKeepsInv(s: Sim, ack: Ack)
    requires Inv(s)
    ensures Inv(Resolved(s, ack))
  {
    hide Inv, Acknowledged;
    var n := Acknowledged(s, ack);
    AcknowledgeKeepsInv(s, ack);
    if Accepts(n, ack, ack.key in s.queue.items) { DeliverKeepsInv(n, ack.key, ack); }
  }

  lemma AcknowledgeKeepsInv(s: Sim, ack: Ack)
    requires Inv(s)
    ensures Inv(Acknowledged(s, ack))
  {
    hide Inv, Completed;
    var n := Acknowledged(s, ack);
    if ack.terminal && ack.key in s.queue.items && ack.key in s.authorized {
      CompleteKeepsQueue(s, ack.key, n);
    } else if ack.terminal && ack.key in s.queue.items {
      DeferKeepsInv(s, ack);
    }
  }

  lemma DeferKeepsInv(s: Sim, ack: Ack)
    requires Inv(s) && ack.terminal && ack.key in s.queue.items
    ensures Inv(s.(deferred := s.deferred[ack.key := ack]))
  {
    hide ListsOk, WaitersOk, NoRepeats;
    SameLists(s, s.(deferred := s.deferred[ack.key := ack]));
  }

  lemma TakenKeepsInv(s: Sim, w: Waiter)
    requires Inv(s) && w in s.channels && s.channels[w] != []
    ensures Inv(s.(channels := s.channels[w := s.channels[w][1..]]))
  {
    var n := s.(channels := s.channels[w := s.channels[w][1..]]);
    assert forall k, v :: Waits(n, k, v) <==> Waits(s, k, v);
  }

  lemma UnauthorizeKeepsInv(s: Sim, k: Key, w: Waiter, queueItem: bool)
    requires Inv(s)
    ensures Inv(Unauthorized(s, k, w, queueItem))
  {
    assert Unauthorized(s, k, w, queueItem).info.Keys == s.info.Keys;
    SameLists(s, Unauthorized(s, k, w, queueItem));
  }

  lemma SessionEventKeepsInv(s: Sim, e: Event)
    requires Inv(s)
    requires
      || e.SetClient? || e.BeginRestoration? || e.CommitReady?
      || e.ConnectionLost? || e.Disconnect? || e.Shutdown?
    ensures Inv(Step(s, e))
  {
    hide Inv, Pruned;
    match e
    case ConnectionLost(_) => if !s.stopping { SessionKeepsInv(s, s.client, false); PruneKeepsInv(Invalidated(s)); }
    case Disconnect => SessionKeepsInv(s, None, s.stopping); PruneKeepsInv(Invalidated(s.(client := None)));
    case Shutdown => SessionKeepsInv(s, None, true); PruneKeepsInv(Invalidated(s.(client := None, stopping := true)));
    case SetClient(c) => if !s.stopping { SessionKeepsInv(s, Some(c), false); }
    case BeginRestoration(c) =>
      if !s.stopping { SessionKeepsInv(s, s.client, false); RestoringKeepsInv(Invalidated(s), s.session + 1, false); }
    case CommitReady(c, _) => RestoringKeepsInv(s, s.restoring, s.client.Some? && !s.stopping);
  }

  lemma SessionKeepsInv(s: Sim, client: Option<Client>, stopping: bool)
    requires Inv(s) && (stopping ==> client.None?)
    ensures Inv(Invalidated(s.(client := client, stopping := stopping)))
  {
    SameLists(s, Invalidated(s.(client := client, stopping := stopping)));
  }

  lemma RestoringKeepsInv(s: Sim, restoring: nat, ready: bool)
    requires Inv(s) && (ready ==> s.client.Some? && !s.stopping)
    ensures Inv(s.(restoring := restoring, ready := ready))
  {
    SameLists(s, s.(restoring := restoring, ready := ready));
  }

  lemma EnqueueKeepsInv(s: Sim, e: Event)
    requires Inv(s) && e.Enqueue?
    ensures Inv(Step(s, e))
  {
    if e.key !in s.queue.items { AppendNoRepeats(s.queue.items, e.key); }
    hide NoRepeats, ListsOk, WaitersOk, Released, Resolved, Pruned, Unauthorized, Registered;
    SameLists(s, Step(s, e));
  }

  lemma StepKeepsInv(s: Sim, e: Event)
    requires Inv(s) && Enabled(s, e)
    ensures Inv(Step(s, e))
  {
    hide Inv, Released, Resolved, Unauthorized;
    match e
    case Enqueue(_) => EnqueueKeepsInv(s, e);
    case Register(_, _, _, _) => RegisterKeepsInv(s, e);
    case Revoke(k, w, queueItem) => UnauthorizeKeepsInv(s, k, w, queueItem);
    case Timeout(k, w, queueItem) =>
      UnauthorizeKeepsInv(s, k, w, queueItem);
      if w in s.channels && s.channels[w] != [] { TakenKeepsInv(s, w); }
    case Release(k, _, _, queueItem) => if Waiters(s.pending, k) != [] { ReleaseKeepsInv(s, k, queueItem); }
    case Resolve(_, ack) => ResolveKeepsInv(s, ack);
    case Remove(k, w) => if w in Waiters(s.pending, k) { DropKeepsInv(s, Step(s, e), k, w); }
    case Receive(w) => if w in s.channels && s.channels[w] != [] { TakenKeepsInv(s, w); }
    case _ => SessionEventKeepsInv(s, e);
  }

  lemma StepOfRegister(s: Sim, k: Key, queueItem: bool, attempt: bool, w: Waiter)
    ensures Step(s, Register(k, queueItem, attempt, w)) == Registered(s, k, queueItem, attempt, w)
  {
  }

  lemma StepOfRelease(s: Sim, k: Key, c: Client, epoch: nat, queueItem: bool)
    ensures Step(s, Release(k, c, epoch, queueItem)) ==
            if !InSession(s, c, epoch) || Waiters(s.pending, k) == [] then s else Released(s, k, queueItem)
  {
  }

  // ----- The simulator -----

  class DeviceSimulator {
    var stopping: bool
    var ready: bool
    var client: Option<Client>
    var sessionEpoch: nat
    var restoringEpoch: nat
    var pending: map<Key, seq<Waiter>>
    var info: map<Waiter, Info>
    var authorized: set<Key>
    var deferred: map<Key, Ack>
    var channels: map<Waiter, seq<Ack>>
    const capacity: nat
    var items: seq<Key>
    var completed: seq<Key>

    ghost function View(): Sim reads this {
      Sim(stopping, ready, client, sessionEpoch, restoringEpoch, pending, info, authorized, deferred, channels,
          Queue(capacity, items, completed))
    }

    constructor (capacity: nat)
      ensures Inv(View()) && View() == New(capacity)
    {
      this.capacity := capacity;
      stopping, ready, client, sessionEpoch, restoringEpoch := false, false, None, 0, 0;
      pending, info, authorized, deferred, channels, items, completed := map[], map[], {}, map[], map[], [], [];
    }

    method InvalidateReadinessLocked()
      modifies this`sessionEpoch, this`restoringEpoch, this`ready
      ensures View() == Invalidated(old(View()))
    {
      sessionEpoch, restoringEpoch, ready := sessionEpoch + 1, 0, false;
    }

    method InstallClient(c: Client) returns (ok: bool)
      modifies this`client, this`sessionEpoch, this`restoringEpoch, this`ready
      ensures ok == !stopping && View() == Step(old(View()), SetClient(c))
    {
      if stopping {
        return false;
      }
      client := Some(c);
      InvalidateReadinessLocked();
      return true;
    }

    method StartRestoration(c: Client) returns (epoch: Option<nat>)
      modifies this`sessionEpoch, this`restoringEpoch, this`ready
      ensures View() == Step(old(View()), BeginRestoration(c))
      ensures epoch.Some? ==> epoch.value == sessionEpoch == restoringEpoch
    {
      if stopping || client != Some(c) {
        return None;
      }
      InvalidateReadinessLocked();
      restoringEpoch := sessionEpoch;
      return Some(restoringEpoch);
    }

    method FinishRestoration(c: Client, epoch: nat) returns (ok: bool)
      modifies this`ready
      ensures View() == Step(old(View()), CommitReady(c, epoch)) && (ok ==> ready)
    {
      if stopping || client != Some(c) || sessionEpoch != epoch || restoringEpoch != epoch {
        return false;
      }
      ready := true;
      return true;
    }

    method OnConnectionLost(c: Client)
      modifies this
      ensures View() == Step(old(View()), ConnectionLost(c))
    {
      if stopping || client != Some(c) {
        return;
      }
      InvalidateReadinessLocked();
      PruneStaleQueueWaiters();
    }

    method DisconnectForReconnect() returns (was: Option<Client>)
      modifies this
      ensures View() == Step(old(View()), Disconnect) && was == if old(stopping) then None else old(client)
    {
      if stopping {
        return None;
      }
      was := client;
      client := None;
      InvalidateReadinessLocked();
      PruneStaleQueueWaiters();
    }

    method Stop()
      modifies this
      ensures View() == Step(old(View()), Shutdown)
    {
      if stopping {
        return;
      }
      stopping := true;
      client := None;
      InvalidateReadinessLocked();
      PruneStaleQueueWaiters();
    }

    /** The waiters of one list that are not publish attempts. */
    method KeepWaiters(ws: seq<Waiter>) returns (kept: seq<Waiter>)
      ensures kept == Kept(ws, info)
    {
      kept := [];
      for i := 0 to |ws|
        invariant kept == Kept(ws[..i], info)
      {
        assert ws[..i + 1][..i] == ws[..i];
        if !(ws[i] in info && info[ws[i]].attempt) {
          kept := kept + [ws[i]];
        }
      }
      assert ws[..|ws|] == ws;
    }

    method PruneLists()
      modifies this`pending
      ensures View() == old(View()).(pending := Pruned(old(View())).pending)
    {
      ghost var s := View();
      hide Kept;
      var rest := pending.Keys;
      while rest != {}
        invariant rest <= s.pending.Keys && pending == PrunedLists(s.pending, s.info, rest)
        decreases rest
      {
        var k :| k in rest;
        var kept := KeepWaiters(pending[k]);
        PrunedOne(s.pending, s.info, rest, k);
        pending := WithWaiters(pending, k, kept);
        rest := rest - {k};
      }
    }

    /** Drops the waiters of publish attempts and the authorization of every queued item. */
    method PruneStaleQueueWaiters()
      modifies this`pending, this`info, this`authorized
      ensures View() == Pruned(old(View()))
    {
      hide Kept;
      ghost var s := View();
      PruneLists();
      info := map w | w in info && !info[w].attempt :: info[w];
      assert info == Pruned(s).info;
      for seen := 0 to |items|
        invariant pending == Pruned(s).pending && info == Pruned(s).info
        invariant authorized == s.authorized - Members(items[..seen])
      {
        assert items[..seen + 1] == items[..seen] + [items[seen]];
        authorized := authorized - {items[seen]};
      }
      assert items[..|items|] == items;
    }

    /** Removes exactly the pending item the terminal ACK names. */
    method HandleAck(ack: Ack) returns (removed: bool)
      modifies this`items, this`completed
      ensures removed == (ack.terminal && ack.key in old(items))
      ensures Queue(capacity, items, completed) == if removed then Completed(old(View()).queue, ack.key)
                                                   else old(View()).queue
    {
      if !ack.terminal {
        return false;
      }
      var i := 0;
      while i < |items|
        invariant 0 <= i <= |items| && ack.key !in items[..i]
      {
        if items[i] == ack.key {
          WithoutAt(items, i);
          items := items[..i] + items[i + 1..];
          if ack.key !in completed {
            completed := completed + [ack.key];
            if |completed| > capacity {
              completed := completed[1..];
            }
          }
          return true;
        }
        i := i + 1;
      }
      return false;
    }

    method AddItem(k: Key) returns (added: bool)
      modifies this`items
      ensures View() == Step(old(View()), Enqueue(k))
      ensures added <==> k !in old(items) && k !in completed && |old(items)| < capacity
    {
      if k in items || k in completed || |items| >= capacity {
        return false;
      }
      items := items + [k];
      return true;
    }

    method RegisterAckMode(k: Key, queueItem: bool, attempt: bool, waiter: Waiter)
      requires waiter !in channels
      modifies this`pending, this`info, this`authorized, this`channels
      ensures View() == Step(old(View()), Register(k, queueItem, attempt, waiter))
    {
      StepOfRegister(View(), k, queueItem, attempt, waiter);
      hide Step;
      channels := channels[waiter := []];
      if queueItem {
        authorized := authorized - {k};
      }
      pending := pending[k := (if k in pending then pending[k] else []) + [waiter]];
      info := info[waiter := Info(sessionEpoch, queueItem, attempt, false)];
    }

    method RevokeAckAttempt(k: Key, waiter: Waiter, queueItem: bool)
      modifies this`info, this`authorized
      ensures View() == Step(old(View()), Revoke(k, waiter, queueItem))
    {
      hide Released, Resolved, Pruned;
      if waiter in info {
        info := info[waiter := info[waiter].(authorized := false)];
      }
      if queueItem {
        authorized := authorized - {k};
      }
    }

    /** An ACK that is already in the slot wins over the timer; otherwise the attempt is revoked. */
    method ArbitrateAckTimeout(k: Key, waiter: Waiter, queueItem: bool) returns (ack: Option<Ack>)
      modifies this`info, this`authorized, this`channels
      ensures View() == Step(old(View()), Timeout(k, waiter, queueItem))
      ensures ack == if waiter in old(channels) && old(channels)[waiter] != [] then Some(old(channels)[waiter][0])
                     else None
    {
      if waiter in channels && channels[waiter] != [] {
        ack := Some(channels[waiter][0]);
        channels := channels[waiter := channels[waiter][1..]];
      } else {
        ack := None;
        RevokeAckAttempt(k, waiter, queueItem);
      }
    }

    /** Takes the first waiter off its list and offers it the ACK without blocking. */
    method Send(k: Key, ack: Ack)
      requires Waiters(pending, k) != []
      modifies this`pending, this`info, this`channels
      ensures View() == Delivered(old(View()), k, ack)
    {
      var waiter := pending[k][0];
      pending := WithWaiters(pending, k, pending[k][1..]);
      info := info - {waiter};
      if waiter in channels && channels[waiter] == [] {
        channels := channels[waiter := [ack]];
      }
    }

    method ReleaseAckAttempt(k: Key, c: Client, epoch: nat, queueItem: bool)
      requires Inv(View())
      modifies this
      ensures View() == Step(old(View()), Release(k, c, epoch, queueItem))
    {
      StepOfRelease(View(), k, c, epoch, queueItem);
      hide Redeemed, Step;
      if stopping || !ready || client != Some(c) || sessionEpoch != epoch {
        return;
      }
      if k !in pending || pending[k] == [] {
        return;
      }
      var waiter := pending[k][0];
      if waiter in info {
        info := info[waiter := info[waiter].(authorized := true)];
      }
      if !queueItem {
        return;
      }
      authorized := authorized + {k};
      if k !in deferred {
        return;
      }
      Redeem(k);
    }

    method Redeem(k: Key)
      requires Waiters(pending, k) != [] && k in deferred && deferred[k].key == k
      modifies this`pending, this`info, this`channels, this`deferred, this`items, this`completed
      ensures View() == Redeemed(old(View()), k)
    {
      var ack := deferred[k];
      deferred := deferred - {k};
      var removed := HandleAck(ack);
      if removed {
        Send(k, ack);
      }
    }

    method CompleteAuthorized(ack: Ack)
      requires ack.terminal && ack.key in items && ack.key in authorized
      modifies this`items, this`completed, this`authorized, this`deferred
      ensures View() == Acknowledged(old(View()), ack)
    {
      var removed := HandleAck(ack);
      authorized := authorized - {ack.key};
      deferred := deferred - {ack.key};
    }

    method ResolveAckForSession(source: Option<(Client, nat)>, ack: Ack)
      modifies this
      ensures View() == Step(old(View()), Resolve(source, ack))
    {
      if source.Some? && (stopping || !ready || client != Some(source.value.0) || sessionEpoch != source.value.1) {
        return;
      }
      hide Completed, Told, Released, Pruned, Unauthorized;
      var queuePending := ack.key in items;
      if ack.terminal && queuePending {
        if ack.key !in authorized {
          deferred := deferred[ack.key := ack];
          return;
        }
        CompleteAuthorized(ack);
      }
      Tell(ack, queuePending);
    }

    method Tell(ack: Ack, queuePending: bool)
      modifies this`pending, this`info, this`channels
      ensures View() == Told(old(View()), ack, queuePending)
    {
      var waiters := Waiters(pending, ack.key);
      if |waiters| == 0 {
        return;
      }
      if waiters[0] in info {
        var entry := info[waiters[0]];
        if entry.epoch != sessionEpoch || (entry.queueItem && !queuePending) ||
           (ack.terminal && entry.attempt && !entry.authorized) {
          return;
        }
      }
      Send(ack.key, ack);
    }

    method RemoveAck(k: Key, target: Waiter)
      modifies this`pending, this`info
      ensures View() == Step(old(View()), Remove(k, target))
    {
      var waiters := Waiters(pending, k);
      var i := 0;
      while i < |waiters|
        invariant 0 <= i <= |waiters| && target !in waiters[..i]
      {
        if waiters[i] == target {
          WithoutAt(waiters, i);
          pending := WithWaiters(pending, k, waiters[..i] + waiters[i + 1..]);
          info := info - {target};
          return;
        }
        i := i + 1;
      }
    }
  }

  function New(capacity: nat): Sim {
    Sim(false, false, None, 0, 0, map[], map[], {}, map[], map[], Queue(capacity, [], []))
  }

  ghost function PrunedLists(pending: map<Key, seq<Waiter>>, info: map<Waiter, Info>,
      rest: set<Key>): map<Key, seq<Waiter>> {
    map k | k in pending && (k in rest || Kept(pending[k], info) != []) :: if k in rest then pending[k]
                                                                           else Kept(pending[k], info)
  }

  lemma PrunedOne(pending: map<Key, seq<Waiter>>, info: map<Waiter, Info>, rest: set<Key>, k: Key)
    requires k in rest && rest <= pending.Keys
    ensures PrunedLists(pending, info, rest - {k}) ==
            WithWaiters(PrunedLists(pending, info, rest), k, Kept(pending[k], info))
  {
    hide Kept;
  }

  lemma {:induction false} WithoutAt(s: seq<nat>, i: nat)
    requires i < |s| && s[i] !in s[..i]
    ensures Without(s, s[i]) == s[..i] + s[i + 1..]
  {
    if i > 0 {
      assert s[0] in s[..i] && s[1..][..i - 1] == s[..i][1..];
      WithoutAt(s[1..], i - 1);
      assert s[..i] == [s[0]] + s[1..][..i - 1];
    }
  }
}
