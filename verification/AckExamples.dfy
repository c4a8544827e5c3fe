/**
 Concrete runs. The first is one the program can make. The others are interleavings of the critical sections in which
 an authorization or a waiter outlives its session; each breaks the order of the callers at the step its contract
 names, so the attempt lock and the client handover exclude it.
 */
module AckExamples {
  import opened Common
  import opened AckProtocol
  import opened AckRuns
  import opened AckSessions
  import opened AckAttempts

  // ----- An authorization that outlives its session -----

  const S1 := New(1).(client := Some(1), session := 1)
  const S2 := S1.(session := 2, restoring := 2)
  const S3 := S2.(ready := true)
  const S4 := S3.(queue := Queue(1, [7], []))
  const S5 := S4.(pending := map[7 := [1]], info := map[1 := Info(2, true, true, false)], channels := map[1 := []])
  const S6 := S5.(info := map[1 := Info(2, true, true, true)], authorized := {7})
  const S7 := S6.(client := Some(2), session := 3, restoring := 0, ready := false)
  const S8 := S7.(session := 4, restoring := 4)
  const S9 := S8.(ready := true)

  lemma FirstSession()
    ensures Step(New(1), SetClient(1)) == S1 && Step(S1, BeginRestoration(1)) == S2 && Step(S2, CommitReady(1, 2)) == S3
    ensures Step(S3, Enqueue(7)) == S4
  {
  }

  lemma FirstAttempt()
    ensures Step(S4, Register(7, true, true, 1)) == S5 && Step(S5, Release(7, 1, 2, true)) == S6
  {
    var n := Step(S4, Register(7, true, true, 1));
    assert Waiters(S4.pending, 7) + [1] == [1];
    assert n.pending == S5.pending && n.info == S5.info && n.channels == S5.channels && n.authorized == {};
  }

  lemma SecondSession()
    ensures Step(S6, SetClient(2)) == S7 && Step(S7, BeginRestoration(2)) == S8 && Step(S8, CommitReady(2, 4)) == S9
  {
  }

  /**
   Installing a client while another is current breaks the handover.
   A grant made in session 2 survives a new client and its restoration: an ACK in session 4 then removes the
   item although no attempt was validated in that session, and the stale waiter is not told.
   */
  lemma GrantOutlivesSession()
    ensures Step(New(1), SetClient(1)) == S1 && Step(S1, BeginRestoration(1)) == S2 && Step(S2, CommitReady(1, 2)) == S3
    ensures Step(S3, Enqueue(7)) == S4 && Step(S4, Register(7, true, true, 1)) == S5
    ensures Step(S5, Release(7, 1, 2, true)) == S6
    ensures Step(S6, SetClient(2)) == S7 && Step(S7, BeginRestoration(2)) == S8 && Step(S8, CommitReady(2, 4)) == S9
    ensures var n := Step(S9, Resolve(Some((2, 4)), Ack(7, true, "stored")));
            n.queue.items == [] && n.session == 4 && n.pending == S9.pending
    ensures forall open :: !Allowed(S6, open, SetClient(2))
  {
    FirstSession();
    FirstAttempt();
    SecondSession();
    assert Without([7], 7) == [];
  }

  // ----- A run of the program -----

  const STORED := Ack(7, true, "stored")
  const DELIVERY := [SetClient(1), BeginRestoration(1), CommitReady(1, 2), Enqueue(7), Register(7, true, true, 1),
                     Release(7, 1, 2, true), Resolve(Some((1, 2)), STORED), Revoke(7, 1, true), Remove(7, 1)]
  const D7 := S3.(channels := map[1 := [STORED]], queue := Queue(1, [], [7]))

  lemma Extends(capacity: nat, run: seq<Event>, n: nat)
    requires n < |run| && Orderly(capacity, run[..n]) && Allowed(After(capacity, run[..n]), Open(run[..n]), run[n])
    ensures Orderly(capacity, run[..n + 1]) && Open(run[..n + 1]) == Next(Open(run[..n]), run[n])
    ensures After(capacity, run[..n + 1]) == Step(After(capacity, run[..n]), run[n])
  {
    assert run[..n + 1][..n] == run[..n];
  }

  lemma DeliverySteps()
    ensures Step(S6, Resolve(Some((1, 2)), STORED)) == D7 && Step(D7, Revoke(7, 1, true)) == D7
    ensures Step(D7, Remove(7, 1)) == D7
  {
    assert Without([7], 7) == [];
    assert [] + [7] == [7];
    var n := Step(S6, Resolve(Some((1, 2)), STORED));
    assert n.authorized == {} && n.pending == map[] && n.info == map[] && n.deferred == map[] && n.queue == D7.queue;
    assert D7.authorized - {7} == {};
  }

  /** An orderly run that queues an item, publishes it, has it acknowledged and withdraws. */
  lemma OrderlyDelivery()
    ensures Orderly(1, DELIVERY) && Open(DELIVERY).None? && After(1, DELIVERY) == D7
  {
    hide Step, Orderly, Open, After;
    FirstSession();
    FirstAttempt();
    DeliverySteps();
    StartsOrderly(1, DELIVERY);
    Extends(1, DELIVERY, 0);
    Extends(1, DELIVERY, 1);
    Extends(1, DELIVERY, 2);
    Extends(1, DELIVERY, 3);
    Extends(1, DELIVERY, 4);
    Extends(1, DELIVERY, 5);
    Extends(1, DELIVERY, 6);
    Extends(1, DELIVERY, 7);
    Extends(1, DELIVERY, 8);
    assert DELIVERY[..9] == DELIVERY;
  }

  lemma StartsOrderly(capacity: nat, run: seq<Event>)
    ensures Orderly(capacity, run[..0]) && Open(run[..0]).None? && After(capacity, run[..0]) == New(capacity)
  {
  }

  // ----- An authorization left behind by a redeeming release -----

  const OTHER := Ack(8, true, "stored")

  const T1 := S5.(deferred := map[7 := STORED])
  const T2 := S3.(authorized := {7}, channels := map[1 := [STORED]], queue := Queue(1, [], [7]))
  const T3 := T2.(queue := Queue(1, [8], [7]))
  const T4 := T3.(pending := map[8 := [2]], info := map[2 := Info(2, true, true, false)],
                  channels := map[1 := [STORED], 2 := []])
  const T5 := T4.(info := map[2 := Info(2, true, true, true)], authorized := {7, 8})
  const T6 := T2.(channels := map[1 := [STORED], 2 := [OTHER]], queue := Queue(1, [], [8]))
  const T7 := T6.(queue := Queue(1, [7], [8]))
  const U7 := T6.(session := 3, restoring := 0, ready := false)
  const U8 := U7.(queue := Queue(1, [7], [8]))

  lemma DeferredEarly()
    ensures Step(S5, Resolve(Some((1, 2)), STORED)) == T1
  {
  }

  lemma RedeemedEarly()
    ensures Step(T1, Release(7, 1, 2, true)) == T2
  {
    assert Without([7], 7) == [];
    var n := Step(T1, Release(7, 1, 2, true));
    assert [] + [7] == [7];
    assert n.pending == map[] && n.info == map[] && n.deferred == map[] && n.queue == T2.queue;
  }

  lemma OtherRegisters()
    ensures Step(T2, Enqueue(8)) == T3 && Step(T3, Register(8, true, true, 2)) == T4
  {
    assert Waiters(T3.pending, 8) + [2] == [2];
    var m := Step(T3, Register(8, true, true, 2));
    assert m.pending == T4.pending && m.info == T4.info && m.channels == T4.channels && m.authorized == {7};
  }

  lemma OtherReleases()
    ensures Step(T4, Release(8, 1, 2, true)) == T5
  {
  }

  lemma OtherCompletes()
    ensures Step(T5, Resolve(Some((1, 2)), OTHER)) == T6
  {
    hide Released, Pruned, Unauthorized, Registered, Enqueued, Invalidated, Kept;
    assert Without([8], 8) == [];
    assert ([7] + [8])[1..] == [8];
    var n := Step(T5, Resolve(Some((1, 2)), OTHER));
    assert n.authorized == {7} && n.pending == map[] && n.info == map[] && n.deferred == map[] && n.queue == T6.queue;
  }

  lemma NextItemRemoved()
    ensures Step(T6, Enqueue(7)) == T7
    ensures Step(T7, Resolve(Some((1, 2)), STORED)).queue.items == []
  {
    assert Without([7], 7) == [];
  }

  /**
   A redeemed release leaves its authorization set. Once the identity has left the quarantine and is queued again,
   one ACK removes the new item although nothing was registered or released for it. The other item is queued while
   the first attempt is open, which breaks the attempt lock.
   */
  lemma RedeemedGrantRemovesNextItem()
    ensures Step(S5, Resolve(Some((1, 2)), STORED)) == T1 && Step(T1, Release(7, 1, 2, true)) == T2
    ensures Step(T2, Enqueue(8)) == T3 && Step(T3, Register(8, true, true, 2)) == T4
    ensures Step(T4, Release(8, 1, 2, true)) == T5
    ensures Step(T5, Resolve(Some((1, 2)), OTHER)) == T6 && Step(T6, Enqueue(7)) == T7
    ensures T7.queue.items == [7] && 7 in T7.authorized && T7.pending == map[]
    ensures Step(T7, Resolve(Some((1, 2)), STORED)).queue.items == []
    ensures forall open: Option<Attempt> :: open.Some? ==> !Allowed(T2, open, Enqueue(8))
  {
    hide Step;
    DeferredEarly();
    RedeemedEarly();
    OtherRegisters();
    OtherReleases();
    OtherCompletes();
    NextItemRemoved();
  }

  /**
   From the same excluded state, the authorization outlives a session that ends with pruning, because its identity is
   not queued then.
   */
  lemma RedeemedGrantOutlivesPruning()
    ensures Step(T6, ConnectionLost(1)) == U7 && Step(U7, Enqueue(7)) == U8
    ensures U8.queue.items == [7] && 7 in U8.authorized && U8.session == 3
  {
    var n := Step(T6, ConnectionLost(1));
    assert n.pending == map[] && n.info == map[] && n.authorized == {7};
  }

  // ----- A stale waiter ahead of a current one -----

  const V6 := S5.(client := Some(2), session := 3, restoring := 0, ready := false)
  const V7 := V6.(session := 4, restoring := 4)
  const V8 := V7.(ready := true)
  const V9 := V8.(pending := map[7 := [1, 2]],
                  info := map[1 := Info(2, true, true, false), 2 := Info(4, true, true, false)],
                  channels := map[1 := [], 2 := []])
  const V10 := V9.(info := map[1 := Info(2, true, true, true), 2 := Info(4, true, true, false)], authorized := {7})
  const V11 := V10.(authorized := {}, queue := Queue(1, [], [7]))
  const V12 := V11.(pending := map[7 := [2]], info := map[2 := Info(4, true, true, false)])

  lemma ReplacedClient()
    ensures Step(S5, SetClient(2)) == V6 && Step(V6, BeginRestoration(2)) == V7 && Step(V7, CommitReady(2, 4)) == V8
    ensures Step(V8, Register(7, true, true, 2)) == V9
  {
    assert Waiters(V8.pending, 7) + [2] == [1, 2];
    var n := Step(V8, Register(7, true, true, 2));
    assert n.pending == V9.pending && n.info == V9.info && n.channels == V9.channels && n.authorized == {};
  }

  lemma StaleFirstReleased()
    ensures Step(V9, Release(7, 2, 4, true)) == V10
  {
    var m := Step(V9, Release(7, 2, 4, true));
    assert m.info == V10.info && m.authorized == {7};
  }

  lemma StaleFirstNotTold()
    ensures Step(V10, Resolve(Some((2, 4)), STORED)) == V11
  {
    assert Without([7], 7) == [];
    assert [] + [7] == [7];
    var n := Step(V10, Resolve(Some((2, 4)), STORED));
    assert n.authorized == {} && n.deferred == map[] && n.queue == V11.queue;
  }

  lemma StaleFirstWithdraws()
    ensures Step(V11, Remove(7, 1)) == V12 && Step(V12, Resolve(Some((2, 4)), STORED)) == V12
  {
    assert Without([1, 2], 1) == [2];
    assert Step(V11, Remove(7, 1)).info == V12.info;
  }

  lemma StaleFirst()
    ensures StaleAhead(V9, 7)
  {
    var ws := Waiters(V9.pending, 7);
    assert ws == [1, 2] && Stale(V9, ws[0]) && Fresh(V9, ws[1]);
  }

  /**
   A new client leaves the waiter of the old session first in its list. The release of the current attempt then
   marks the stale waiter, the ACK completes the item, and the current waiter is told neither by this ACK nor,
   once the stale one has withdrawn, by another.
   */
  lemma StaleWaiterBlocksCurrentOne()
    ensures Step(S5, SetClient(2)) == V6 && Step(V6, BeginRestoration(2)) == V7 && Step(V7, CommitReady(2, 4)) == V8
    ensures Step(V8, Register(7, true, true, 2)) == V9 && StaleAhead(V9, 7)
    ensures Step(V9, Release(7, 2, 4, true)) == V10 && Step(V10, Resolve(Some((2, 4)), STORED)) == V11
    ensures Step(V11, Remove(7, 1)) == V12
    ensures forall open :: !Allowed(S5, open, SetClient(2))
    ensures forall open: Option<Attempt> :: open.Some? ==> !Allowed(V8, open, Register(7, true, true, 2))
    ensures V11.queue.items == [] && V11.channels[2] == [] && Step(V12, Resolve(Some((2, 4)), STORED)) == V12
  {
    hide Step, StaleAhead;
    ReplacedClient();
    StaleFirst();
    StaleFirstReleased();
    StaleFirstNotTold();
    StaleFirstWithdraws();
  }

  const W1 := S3.(pending := map[5 := [1]], info := map[1 := Info(2, false, false, false)], channels := map[1 := []])
  const W2 := W1.(client := None, session := 3, restoring := 0, ready := false)
  const W3 := W2.(pending := map[5 := [1, 2]],
                  info := map[1 := Info(2, false, false, false), 2 := Info(3, false, true, false)],
                  channels := map[1 := [], 2 := []])

  lemma PlainRegisters()
    ensures Step(S3, Register(5, false, false, 1)) == W1
  {
    assert Waiters(S3.pending, 5) + [1] == [1];
    var n := Step(S3, Register(5, false, false, 1));
    assert n.pending == W1.pending && n.info == W1.info && n.channels == W1.channels;
  }

  lemma PlainKept(info: map<Waiter, Info>)
    requires 1 in info && !info[1].attempt
    ensures Kept([1], info) == [1]
  {
    var ws: seq<Waiter> := [1];
    assert ws[..|ws| - 1] == [] && Last(ws) == 1;
    assert Kept([], info) + [1] == [1];
  }

  lemma PrunedAsWas(s: Sim)
    requires s.pending == map[5 := [1]] && s.info == map[1 := Info(2, false, false, false)]
    ensures Pruned(s) == s.(authorized := s.authorized - Members(s.queue.items))
  {
    PlainKept(s.info);
    hide Kept;
    var n := Pruned(s);
    assert n.info == s.info;
    assert n.pending.Keys == {5} && n.pending[5] == [1];
  }

  lemma PlainSurvives()
    ensures Step(W1, Disconnect) == W2
  {
    hide Pruned;
    PrunedAsWas(Invalidated(W1.(client := None)));
    assert W1.authorized - Members(W1.queue.items) == {};
  }

  lemma AttemptRegisters()
    ensures Step(W2, Register(5, false, true, 2)) == W3
  {
    assert Waiters(W2.pending, 5) + [2] == [1, 2];
    var m := Step(W2, Register(5, false, true, 2));
    assert m.pending == W3.pending && m.info == W3.info && m.channels == W3.channels;
  }

  /**
   The callers register publish attempts only. A waiter that is none stays first even when the session ends with
   pruning.
   */
  lemma PruningSparesPlainWaiters()
    ensures Step(S3, Register(5, false, false, 1)) == W1 && Step(W1, Disconnect) == W2
    ensures Step(W2, Register(5, false, true, 2)) == W3 && StaleAhead(W3, 5)
    ensures forall open :: !Allowed(S3, open, Register(5, false, false, 1))
  {
    hide Step;
    PlainRegisters();
    PlainSurvives();
    AttemptRegisters();
    var ws := Waiters(W3.pending, 5);
    assert ws == [1, 2] && Stale(W3, ws[0]) && Fresh(W3, ws[1]);
  }
}
