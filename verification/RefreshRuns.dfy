/** What every run of logins, refreshes and logouts guarantees about refresh-token families. */
module RefreshRuns {
  import opened Common
  import opened RefreshFamilies

  const EMPTY := Db(map[], map[])

  ghost function After(run: seq<Command>): Db {
    if run == [] then EMPTY else Step(After(run[..|run| - 1]), Last(run)).0
  }

  ghost function Lines(run: seq<Command>): Lineages {
    if run == [] then map[] else Extended(After(run[..|run| - 1]), Lines(run[..|run| - 1]), Last(run))
  }

  /** The database before the n-th command, and that command's answer. */
  ghost function Before(run: seq<Command>, n: nat): Db
    requires n <= |run|
  {
    After(run[..n])
  }

  ghost function Answer(run: seq<Command>, n: nat): Out
    requires n < |run|
  {
    Step(Before(run, n), run[n]).1
  }

  /** Every reachable family is one replacement chain with all its tokens in it. */
  lemma {:induction false} ReachableInv(run: seq<Command>)
    ensures Inv(After(run), Lines(run))
  {
    if run != [] {
      ReachableInv(run[..|run| - 1]);
      StepKeepsInv(After(run[..|run| - 1]), Lines(run[..|run| - 1]), Last(run));
    }
  }

  lemma StepAt(run: seq<Command>, n: nat)
    requires n < |run|
    ensures Before(run, n + 1) == Step(Before(run, n), run[n]).0 && Inv(Before(run, n), Lines(run[..n]))
  {
    ReachableInv(run[..n]);
    assert run[..n + 1][..n] == run[..n];
  }

  /** A family has at most one token that can still be rotated. */
  lemma OneCurrentToken(run: seq<Command>, t: Id, u: Id)
    requires t in After(run).tokens && u in After(run).tokens
    requires After(run).tokens[t].session == After(run).tokens[u].session
    requires !Used(After(run).tokens[t]) && !Used(After(run).tokens[u])
    ensures t == u
  {
    ReachableInv(run);
    CurrentIsLast(After(run), Lines(run), t);
    CurrentIsLast(After(run), Lines(run), u);
  }

  // ----- What a command may change -----

  /** Identities and expiries are fixed; consumption, links and revocations are permanent. */
  ghost predicate TokenGrows(a: Token, b: Token) {
    && a.session == b.session && a.digest == b.digest && a.issued == b.issued && a.expires == b.expires
    && (a.consumed.Some? ==> a.consumed == b.consumed) && (a.revoked.Some? ==> a.revoked == b.revoked)
    && (a.next.Some? ==> a.next == b.next)
  }

  ghost predicate SessionGrows(a: Session, b: Session) {
    a.(revoked := b.revoked) == b && (a.revoked.Some? ==> a.revoked == b.revoked)
  }

  ghost predicate Grows(db: Db, n: Db) {
    && (forall t <- db.tokens :: t in n.tokens && TokenGrows(db.tokens[t], n.tokens[t]))
    && (forall s <- db.sessions :: s in n.sessions && SessionGrows(db.sessions[s], n.sessions[s]))
  }

  lemma StepGrows(db: Db, c: Command)
    ensures Grows(db, Step(db, c).0)
  {
  }

  lemma GrowsTransitive(a: Db, b: Db, c: Db)
    requires Grows(a, b) && Grows(b, c)
    ensures Grows(a, c)
  {
  }

  lemma {:induction false} RunGrows(run: seq<Command>, i: nat, j: nat)
    requires i <= j <= |run|
    ensures Grows(Before(run, i), Before(run, j))
    decreases j
  {
    if i < j {
      RunGrows(run, i, j - 1);
      StepAt(run, j - 1);
      StepGrows(Before(run, j - 1), run[j - 1]);
      GrowsTransitive(Before(run, i), Before(run, j - 1), Before(run, j));
    }
  }

  ghost predicate OnlyRevokes(db: Db, n: Db, sid: Id) {
    && n.tokens.Keys == db.tokens.Keys && n.sessions.Keys == db.sessions.Keys
    && (forall t <- db.tokens ::
          && n.tokens[t] == db.tokens[t].(revoked := n.tokens[t].revoked)
          && (db.tokens[t].session != sid ==> n.tokens[t] == db.tokens[t]))
    && (forall s <- db.sessions ::
          && n.sessions[s] == db.sessions[s].(revoked := n.sessions[s].revoked)
          && (s != sid ==> n.sessions[s] == db.sessions[s]))
  }

  /**
   For every command and fault: unless it is only the acknowledgement of the commit that is lost, an infrastructure
   error or a failed login leaves everything as it was, a denial changes at most the revocation times of one family,
   and only a successful refresh consumes a token. With the acknowledgement lost the command did what it does
   without a fault, so a refresh may have consumed its token although its caller sees an error.
   */
  lemma CommitPolicy(db: Db, c: Command)
    ensures Step(db, c).1 in {Infrastructure, InvalidCredentials} && c.fault != AfterCommit ==> Step(db, c).0 == db
    ensures Step(db, c).1 == Unauthorized ==> exists sid :: OnlyRevokes(db, Step(db, c).0, sid)
    ensures c.fault == AfterCommit ==> Step(db, c) == (Step(db, c.(fault := NoFault)).0, Infrastructure)
    ensures forall t <- db.tokens :: t in Step(db, c).0.tokens
    ensures forall t <- db.tokens :: db.tokens[t].consumed.None? && Step(db, c).0.tokens[t].consumed.Some? ==>
              && c.Refresh? && c.presented == Some(db.tokens[t].digest)
              && (Step(db, c).1 == Done || c.fault == AfterCommit)
  {
    if Step(db, c).1 == Unauthorized {
      var sid := if c.Refresh? && c.presented.Some? && Judge(db, c.presented.value, c.decidedAt, c.allowed).Replayed?
                 then Judge(db, c.presented.value, c.decidedAt, c.allowed).sid else 0;
      assert OnlyRevokes(db, Step(db, c).0, sid);
    }
  }

  // ----- Logging in -----

  /**
   A login succeeds exactly for an enabled user with the right password, fresh identifiers and no fault on its way,
   and then adds one session of that user and its first token, both for thirty days. Without such a fault a user who
   is missing or disabled, or a wrong password, is answered with invalid credentials, and nothing changes.
   */
  lemma LoginSucceedsIff(db: Db, c: Command)
    requires c.Login?
    ensures var (n, out) := Step(db, c);
            var known := c.user.Some? && c.user.value.enabled && c.passwordOk;
            && (out == Done <==>
                  && known && c.user.value.id != 0 && c.sid !in db.sessions && c.tid !in db.tokens
                  && (forall t <- db.tokens :: db.tokens[t].digest != c.digest)
                  && c.fault !in {AtLookup, AtSigning, AtSession, AtInsert, AtCommit, AfterCommit})
            && (out == InvalidCredentials <==> !known && c.fault !in {AtLookup, AtCommit, AfterCommit})
            && out in {Done, InvalidCredentials, Infrastructure} && (out == InvalidCredentials ==> n == db)
            && (out == Done ==>
                  && n.sessions == db.sessions[c.sid := Session(c.user.value.id, c.now, c.now + 2592000, None)]
                  && n.tokens ==
                     db.tokens[c.tid := Token(c.sid, c.digest, c.now, c.now + 2592000, None, None, None)])
  {
  }

  /** The login that opened a session. */
  ghost predicate Opens(c: Command, sid: Id, s: Session) {
    && c.Login? && c.sid == sid && c.user.Some? && c.user.value.enabled && c.passwordOk
    && s.user == c.user.value.id && s.created == c.now
  }

  /** In every run each session was opened by a login of its user, enabled and with the right password. */
  lemma {:induction false} SessionsComeFromLogins(run: seq<Command>, sid: Id)
    requires sid in After(run).sessions
    ensures exists i :: 0 <= i < |run| && Opens(run[i], sid, After(run).sessions[sid])
  {
    var before := run[..|run| - 1];
    var c := Last(run);
    StepGrows(After(before), c);
    if sid in After(before).sessions {
      SessionsComeFromLogins(before, sid);
      var i :| 0 <= i < |before| && Opens(before[i], sid, After(before).sessions[sid]);
      assert Opens(run[i], sid, After(run).sessions[sid]);
    } else {
      assert Opens(run[|run| - 1], sid, After(run).sessions[sid]);
    }
  }

  // ----- Success, replay, expiry -----

  lemma SuccessMeans(db: Db, lines: Lineages, c: Command)
    requires Inv(db, lines) && c.Refresh? && Step(db, c).1 == Done
    ensures c.presented.Some? && TokenWith(db, c.presented.value).Some?
    ensures var u := TokenWith(db, c.presented.value).value;
            && !Used(db.tokens[u]) && db.tokens[u].session in db.sessions
            && c.decidedAt < db.sessions[db.tokens[u].session].expires
            && db.sessions[db.tokens[u].session].revoked.None?
            && IsTokenOf(Step(db, c).0, u, c.presented.value) && Step(db, c).0.tokens[u].consumed.Some?
            && c.tid in Step(db, c).0.tokens
            && Step(db, c).0.tokens[c.tid].expires == db.sessions[db.tokens[u].session].expires
  {
  }

  /**
   A refresh succeeds exactly when its token is the live current one and nothing that is checked stands in the way.
   */
  lemma RefreshSucceedsIff(db: Db, lines: Lineages, c: Command, t: Id)
    requires Inv(db, lines) && c.Refresh? && t in db.tokens && c.presented == Some(db.tokens[t].digest)
    ensures db.tokens[t].session in db.sessions && db.tokens[t].session in lines && lines[db.tokens[t].session] != []
    ensures var s := db.sessions[db.tokens[t].session];
            Step(db, c).1 == Done <==>
            && s.revoked.None? && t == Last(lines[db.tokens[t].session])
            && db.tokens[t].issued <= c.decidedAt < s.expires && c.requestedAt < s.expires && s.user != 0
            && c.allowed && c.tid !in db.tokens && !DigestTaken(db, c.digest) && c.fault in {NoFault, AtRevocation}
  {
    assert TokenOk(db, t);
    var sid := db.tokens[t].session;
    assert SessionOk(db, lines, sid);
    TokenWithIs(db, lines, t, db.tokens[t].digest);
    ReplacedByNext(db.tokens, sid, lines[sid]);
    if t != Last(lines[sid]) {
      var k :| 0 <= k < |lines[sid]| && lines[sid][k] == t;
      assert k < |lines[sid]| - 1;
    }
    assert c.digest == db.tokens[t].digest ==> DigestTaken(db, c.digest);
  }

  /** A rotation consumes the presented token, links it to the new one and changes nothing else. */
  lemma RefreshRotates(db: Db, lines: Lineages, c: Command, t: Id)
    requires Inv(db, lines) && c.Refresh? && t in db.tokens && c.presented == Some(db.tokens[t].digest)
    requires Step(db, c).1 == Done
    ensures var (n, s) := (Step(db, c).0, db.tokens[t].session);
            && s in db.sessions && n.sessions == db.sessions && c.tid !in db.tokens
            && n.tokens.Keys == db.tokens.Keys + {c.tid}
            && (forall u <- db.tokens :: u != t ==> n.tokens[u] == db.tokens[u])
            && n.tokens[t] == db.tokens[t].(consumed := Some(c.decidedAt), next := Some(c.tid))
            && n.tokens[c.tid] == Token(s, c.digest, c.decidedAt, db.sessions[s].expires, None, None, None)
  {
    TokenWithIs(db, lines, t, db.tokens[t].digest);
  }

  /**
   Without a fault, a digest that is missing or unknown is denied, and a current token exactly when its session is
   revoked or expired or the limiter objects. Unless the refresh succeeds nothing changes.
   */
  lemma RefreshDenied(db: Db, lines: Lineages, c: Command)
    requires Inv(db, lines) && c.Refresh? && c.fault == NoFault
    ensures c.presented.None? ==> Step(db, c) == (db, Unauthorized)
    ensures c.presented.Some? && c.presented != Some(c.digest) && !DigestTaken(db, c.presented.value) ==>
              Step(db, c) == (db, Unauthorized)
    ensures forall t <- db.tokens ::
              (&& c.presented == Some(db.tokens[t].digest) && c.digest != db.tokens[t].digest && !Used(db.tokens[t])
               && db.tokens[t].session in db.sessions) ==>
                var family := db.sessions[db.tokens[t].session];
                && (Step(db, c).1 == Unauthorized <==>
                      family.revoked.Some? || family.expires <= c.decidedAt || !c.allowed)
                && (Step(db, c).1 != Done ==> Step(db, c).0 == db) && Step(db, c).1 != InvalidCredentials
  {
    forall t | t in db.tokens && c.presented == Some(db.tokens[t].digest)
      ensures TokenWith(db, c.presented.value) == Some(t)
    {
      TokenWithIs(db, lines, t, db.tokens[t].digest);
    }
    forall t | t in db.tokens ensures TokenOk(db, t) {}
  }

  /** A digest that is known to be used is never accepted again. */
  lemma UsedNeverSucceeds(db: Db, lines: Lineages, c: Command, t: Id)
    requires Inv(db, lines) && c.Refresh? && t in db.tokens && c.presented == Some(db.tokens[t].digest)
    requires Used(db.tokens[t])
    ensures Step(db, c).1 != Done
  {
    TokenWithIs(db, lines, t, db.tokens[t].digest);
  }

  /** In any run a refresh token is accepted at most once. */
  lemma EachDigestSucceedsOnce(run: seq<Command>, i: nat, j: nat)
    requires i < j < |run| && run[i].Refresh? && run[j].Refresh? && Answer(run, i) == Done && Answer(run, j) == Done
    ensures run[i].presented != run[j].presented
  {
    StepAt(run, i);
    StepAt(run, j);
    SuccessMeans(Before(run, i), Lines(run[..i]), run[i]);
    var t := TokenWith(Before(run, i), run[i].presented.value).value;
    RunGrows(run, i + 1, j);
    if run[i].presented == run[j].presented {
      UsedNeverSucceeds(Before(run, j), Lines(run[..j]), run[j], t);
    }
  }

  /** The latest token of a family bounds the issue times of the whole family. */
  lemma {:induction false} IssuedInOrder(db: Db, lines: Lineages, sid: Id, i: nat)
    requires Inv(db, lines) && sid in db.sessions && sid in lines && i < |lines[sid]|
    ensures lines[sid][i] in db.tokens && Last(lines[sid]) in db.tokens
    ensures db.tokens[lines[sid][i]].issued <= db.tokens[Last(lines[sid])].issued
    decreases |lines[sid]| - i
  {
    assert SessionOk(db, lines, sid);
    if i < |lines[sid]| - 1 {
      IssuedInOrder(db, lines, sid, i + 1);
      assert db.tokens[lines[sid][i]].next == Some(lines[sid][i + 1]);
      assert TokenOk(db, lines[sid][i]);
    }
  }

  lemma ClockOkMeans(db: Db, lines: Lineages, sid: Id, at: int)
    requires Inv(db, lines) && sid in db.sessions
    ensures sid in lines && lines[sid] != [] && Last(lines[sid]) in db.tokens
    ensures ClockOk(db, sid, at) <==> db.tokens[Last(lines[sid])].issued <= at
  {
    assert SessionOk(db, lines, sid);
    assert TokenOk(db, Last(lines[sid]));
    forall t | t in db.tokens && db.tokens[t].session == sid
      ensures db.tokens[t].issued <= db.tokens[Last(lines[sid])].issued
    {
      var i :| 0 <= i < |lines[sid]| && lines[sid][i] == t;
      IssuedInOrder(db, lines, sid, i);
    }
  }

  /** The session and each of its tokens are revoked: now, or when they already were. Nothing else changes. */
  ghost predicate RevokedAt(db: Db, n: Db, sid: Id, at: int) {
    && OnlyRevokes(db, n, sid) && sid in db.sessions
    && n.sessions[sid].revoked == (if db.sessions[sid].revoked.Some? then db.sessions[sid].revoked else Some(at))
    && (forall u <- db.tokens :: db.tokens[u].session == sid ==>
          n.tokens[u].revoked == if db.tokens[u].revoked.Some? then db.tokens[u].revoked else Some(at))
  }

  /**
   Presenting a used token, when nothing faults: the family is revoked, whatever the limiter says, exactly when
   the decision time is not before the issue time of the family's latest token. Otherwise nothing changes.
   */
  lemma ReplayRevokes(db: Db, lines: Lineages, c: Command, t: Id)
    requires Inv(db, lines) && c.Refresh? && c.fault == NoFault && t in db.tokens && Used(db.tokens[t])
    requires c.presented == Some(db.tokens[t].digest) && c.digest != db.tokens[t].digest
    ensures var sid := db.tokens[t].session;
            && sid in db.sessions && sid in lines && lines[sid] != [] && Last(lines[sid]) in db.tokens
            && var n := Step(db, c);
               if c.decidedAt >= db.tokens[Last(lines[sid])].issued
               then n.1 == Unauthorized && RevokedAt(db, n.0, sid, c.decidedAt)
               else n == (db, Infrastructure)
  {
    assert TokenOk(db, t);
    TokenWithIs(db, lines, t, db.tokens[t].digest);
    ClockOkMeans(db, lines, db.tokens[t].session, c.decidedAt);
  }

  /**
   Logout brings the application's clock, while rotated tokens carry the database's. Without a fault it revokes the
   family of an existing session exactly when its instant is not before the issue time of the family's latest token;
   otherwise it changes nothing and answers with an error, and an identity without user or session is unauthorized.
   */
  lemma LogoutRevokes(db: Db, lines: Lineages, c: Command)
    requires Inv(db, lines) && c.Logout? && c.fault == NoFault
    ensures c.sid in db.sessions ==> c.sid in lines && lines[c.sid] != [] && Last(lines[c.sid]) in db.tokens
    ensures var n := Step(db, c);
            if c.userId == 0 || c.sid !in db.sessions then n == (db, Unauthorized)
            else if c.now >= db.tokens[Last(lines[c.sid])].issued
            then n.1 == Done && RevokedAt(db, n.0, c.sid, c.now)
            else n == (db, Infrastructure)
  {
    if c.sid in db.sessions { ClockOkMeans(db, lines, c.sid, c.now); }
  }

  /** Revocation is permanent: nothing in the family is ever accepted again. */
  lemma RevokedForever(run: seq<Command>, i: nat, j: nat, sid: Id)
    requires i <= j < |run| && sid in Before(run, i).sessions && Before(run, i).sessions[sid].revoked.Some?
    requires run[j].Refresh? && Answer(run, j) == Done
    ensures TokenWith(Before(run, j), run[j].presented.value).Some?
    ensures Before(run, j).tokens[TokenWith(Before(run, j), run[j].presented.value).value].session != sid
  {
    StepAt(run, j);
    RunGrows(run, i, j);
    SuccessMeans(Before(run, j), Lines(run[..j]), run[j]);
  }

  /** A session's expiry is fixed at login, and every token ever issued in it expires exactly then. */
  lemma NothingOutlivesTheSession(run: seq<Command>, i: nat, j: nat, sid: Id, t: Id)
    requires i <= j <= |run| && sid in Before(run, i).sessions
    requires t in Before(run, j).tokens && Before(run, j).tokens[t].session == sid
    ensures sid in Before(run, j).sessions
    ensures Before(run, j).tokens[t].expires ==
            Before(run, i).sessions[sid].expires == Before(run, i).sessions[sid].created + TTL
  {
    RunGrows(run, i, j);
    ReachableInv(run[..i]);
    ReachableInv(run[..j]);
    assert SessionOk(Before(run, i), Lines(run[..i]), sid);
    assert TokenOk(Before(run, j), t);
  }

  // ----- A clock behind the family -----

  const ALICE := Login(Some(User(1, true)), true, 1, 10, 100, 1000, NoFault)
  const ROTATE := Refresh(Some(100), 11, 101, 1000, 1005, true, NoFault)
  const LATE := Refresh(Some(100), 12, 102, 1000, 1004, true, NoFault)
  const SESSION := Session(1, 1000, 1000 + TTL, None)
  const LOGGED_IN := Db(map[1 := SESSION], map[10 := Token(1, 100, 1000, 1000 + TTL, None, None, None)])
  const ROTATED := Db(map[1 := SESSION],
                      map[10 := Token(1, 100, 1000, 1000 + TTL, Some(1005), None, Some(11)),
                          11 := Token(1, 101, 1005, 1000 + TTL, None, None, None)])

  lemma FirstRotation()
    ensures Step(EMPTY, ALICE) == (LOGGED_IN, Done) && Step(LOGGED_IN, ROTATE) == (ROTATED, Done)
  {
    assert IsTokenOf(LOGGED_IN, 10, 100);
    assert forall t <- LOGGED_IN.tokens :: t == 10;
    assert TokenWith(LOGGED_IN, 100) == Some(10);
    assert Judge(LOGGED_IN, 100, 1005, true) == Accepted(10);
    assert !RotationFails(LOGGED_IN, 10, ROTATE);
    assert Rotated(LOGGED_IN, 10, ROTATE).tokens == ROTATED.tokens;
  }

  const UNHEARD := Refresh(Some(100), 11, 101, 1000, 1005, true, AfterCommit)

  lemma UnheardEffect(db: Db, c: Command, d: Command)
    requires c.fault == AfterCommit && d == c.(fault := NoFault)
    ensures Step(db, c) == (Step(db, d).0, Infrastructure)
  {
    hide Step;
    CommitPolicy(db, c);
  }

  /** A rotation whose acknowledgement is lost: the caller sees an error although its token is consumed. */
  lemma LostAcknowledgement()
    ensures Step(LOGGED_IN, UNHEARD) == (ROTATED, Infrastructure)
  {
    hide Step;
    FirstRotation();
    UnheardEffect(LOGGED_IN, UNHEARD, ROTATE);
  }

  /** With a decision time before the latest issue time a replay is answered by an error and the family lives on. */
  lemma ReplayWithLateClock()
    ensures Step(EMPTY, ALICE) == (LOGGED_IN, Done) && Step(LOGGED_IN, ROTATE) == (ROTATED, Done)
    ensures Step(ROTATED, LATE) == (ROTATED, Infrastructure)
  {
    FirstRotation();
    assert IsTokenOf(ROTATED, 10, 100);
    assert forall t <- ROTATED.tokens :: t == 10 || t == 11;
    assert TokenWith(ROTATED, 100) == Some(10);
    assert !ClockOk(ROTATED, 1, 1004) by { assert ROTATED.tokens[11].issued == 1005; }
  }
}
