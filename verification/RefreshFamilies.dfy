/**
 Refresh-token families: login opens a session with one token, refresh rotates the current token, a replay or a
 logout revokes the family. Digests and identifiers are opaque values that the storage keeps unique; the clocks,
 the limiter's answer, password verification and infrastructure faults are inputs of each command.
 */
module RefreshFamilies {
  import opened Common

  type Id = nat
  type Digest = nat

  const TTL := 30 * 24 * 3600

  datatype Session = Session(user: nat, created: int, expires: int, revoked: Option<int>)

  datatype Token = Token(session: Id, digest: Digest, issued: int, expires: int, consumed: Option<int>,
      revoked: Option<int>, next: Option<Id>)

  datatype Db = Db(sessions: map<Id, Session>, tokens: map<Id, Token>)

  /** Where an infrastructure error strikes, if it does. */
  datatype Fault =
    | NoFault | AtLookup | AtRevocation | AtConsume | AtInsert | AtLink
    | AtSession | AtSigning | AtCommit | AfterCommit

  datatype Out = Done | Unauthorized | InvalidCredentials | Infrastructure

  datatype User = User(id: nat, enabled: bool)

  datatype Command =
    | Login(user: Option<User>, passwordOk: bool, sid: Id, tid: Id, digest: Digest, now: int, fault: Fault)
    | Refresh(presented: Option<Digest>, tid: Id, digest: Digest, requestedAt: int, decidedAt: int, allowed: bool,
              fault: Fault)
    | Logout(userId: nat, sid: Id, now: int, fault: Fault)

  // ----- What each command does to a well-formed database -----

  /** What the storage counts as a current token of its session. */
  predicate Current(t: Token) { t.consumed.None? && t.revoked.None? }

  predicate Used(t: Token) { t.consumed.Some? || t.revoked.Some? || t.next.Some? }

  predicate IsTokenOf(db: Db, t: Id, digest: Digest) { t in db.tokens && db.tokens[t].digest == digest }

  predicate DigestTaken(db: Db, digest: Digest) { exists t <- db.tokens :: db.tokens[t].digest == digest }

  ghost function TokenWith(db: Db, digest: Digest): (t: Option<Id>)
    ensures t.Some? ==> IsTokenOf(db, t.value, digest)
    ensures t.None? ==> !DigestTaken(db, digest)
  {
    if DigestTaken(db, digest) then
      var t :| t in db.tokens && db.tokens[t].digest == digest;
      Some(t)
    else None
  }

  function RevokedTokens(tokens: map<Id, Token>, sid: Id, at: int): map<Id, Token> {
    map t | t in tokens :: if tokens[t].session == sid && tokens[t].revoked.None? then tokens[t].(revoked := Some(at))
                           else tokens[t]
  }

  function RevokeFamily(db: Db, sid: Id, at: int): Db
    requires sid in db.sessions
  {
    var s := db.sessions[sid];
    Db(if s.revoked.None? then db.sessions[sid := s.(revoked := Some(at))]
      else db.sessions, RevokedTokens(db.tokens, sid, at))
  }

  /** A family can be revoked at an instant that is not before its session or any of its tokens. */
  predicate ClockOk(db: Db, sid: Id, at: int) {
    && sid in db.sessions && db.sessions[sid].created <= at
    && forall t <- db.tokens :: db.tokens[t].session == sid ==> db.tokens[t].issued <= at
  }

  function Rotated(db: Db, t: Id, c: Command): Db
    requires c.Refresh? && t in db.tokens && db.tokens[t].session in db.sessions
  {
    var used := db.tokens[t];
    var current := Token(used.session, c.digest, c.decidedAt, db.sessions[used.session].expires, None, None, None);
    db.(tokens := db.tokens[t := used.(consumed := Some(c.decidedAt), next := Some(c.tid))][c.tid := current])
  }

  datatype Verdict = Unknown | Rejected | Replayed(sid: Id) | Accepted(token: Id)

  ghost function Judge(db: Db, digest: Digest, now: int, allowed: bool): Verdict {
    var t := TokenWith(db, digest);
    if t.None? then Unknown
    else
      var token := db.tokens[t.value];
      if token.session !in db.sessions then Rejected
      else if Used(token) then Replayed(token.session)
      else if || db.sessions[token.session].revoked.Some? || db.sessions[token.session].expires <= now
              || token.expires <= now || !allowed then Rejected
      else Accepted(t.value)
  }

  /** What the storage refuses while a token is rotated, and what is checked afterwards. */
  predicate RotationFails(db: Db, t: Id, c: Command)
    requires c.Refresh? && t in db.tokens && db.tokens[t].session in db.sessions
  {
    || c.decidedAt < db.tokens[t].issued || c.tid in db.tokens || DigestTaken(db, c.digest)
    || db.sessions[db.tokens[t].session].expires <= c.requestedAt || db.sessions[db.tokens[t].session].user == 0
    || c.fault in {AtConsume, AtInsert, AtLink, AtSession, AtSigning}
  }

  /** What the callback and the commit do to the rows, and what they answer. */
  ghost function Perform(db: Db, c: Command): (Db, Out) {
    match c
    case Login(user, passwordOk, sid, tid, digest, now, fault) =>
      if fault == AtLookup || fault == AtCommit then (db, Infrastructure)
      else if user.None? || !user.value.enabled || !passwordOk then (db, InvalidCredentials)
      else if || user.value.id == 0 || fault in {AtSigning, AtInsert, AtSession}
              || sid in db.sessions || tid in db.tokens || DigestTaken(db, digest) then (db, Infrastructure)
      else (Db(db.sessions[sid := Session(user.value.id, now, now + TTL, None)],
               db.tokens[tid := Token(sid, digest, now, now + TTL, None, None, None)]), Done)
    case Refresh(presented, _, digest, _, now, allowed, fault) =>
      if fault == AtCommit then (db, Infrastructure)
      else if presented.None? then (db, Unauthorized)
      else if presented.value == digest || fault == AtLookup then (db, Infrastructure)
      else
        (match Judge(db, presented.value, now, allowed)
         case Unknown => (db, Unauthorized)
         case Rejected => (db, Unauthorized)
         case Replayed(sid) =>
           if !ClockOk(db, sid, now) || fault == AtRevocation then (db, Infrastructure)
           else (RevokeFamily(db, sid, now), Unauthorized)
         case Accepted(t) => if RotationFails(db, t, c) then (db, Infrastructure) else (Rotated(db, t, c), Done))
    case Logout(userId, sid, now, fault) =>
      if fault == AtCommit then (db, Infrastructure)
      else if userId == 0 then (db, Unauthorized)
      else if fault == AtLookup then (db, Infrastructure)
      else if sid !in db.sessions then (db, Unauthorized)
      else if !ClockOk(db, sid, now) || fault == AtRevocation then (db, Infrastructure)
      else (RevokeFamily(db, sid, now), Done)
  }

  /** A commit may take effect and its acknowledgement be lost: the caller then sees an infrastructure error. */
  ghost function Step(db: Db, c: Command): (Db, Out) {
    (Perform(db, c).0, if c.fault == AfterCommit then Infrastructure else Perform(db, c).1)
  }

  // ----- What every database looks like -----

  type Lineages = map<Id, seq<Id>>

  /** The tokens of a session form one chain: no repeats, each replaced by the next, the last by none. */
  ghost predicate Lineage(tokens: map<Id, Token>, sid: Id, chain: seq<Id>) {
    && chain != []
    && (forall i :: 0 <= i < |chain| ==> chain[i] in tokens && tokens[chain[i]].session == sid)
    && (forall i, j :: 0 <= i < j < |chain| ==> chain[i] != chain[j])
    && (forall i :: 0 <= i < |chain| - 1 ==> tokens[chain[i]].next == Some(chain[i + 1]))
    && tokens[Last(chain)].next.None?
    && (forall t <- tokens :: tokens[t].session == sid ==> t in chain)
  }

  ghost predicate TokenOk(db: Db, t: Id) {
    t in db.tokens ==>
      var token := db.tokens[t];
      && token.session in db.sessions
      && var s := db.sessions[token.session];
         && s.created <= token.issued && token.expires == s.expires
         && (token.consumed.Some? <==> token.next.Some?)
         && (token.revoked.Some? <==> s.revoked.Some?)
         && (token.next.Some? ==>
               && token.next.value in db.tokens
               && db.tokens[token.next.value].issued == token.consumed.value >= token.issued)
  }

  ghost predicate DigestsUnique(db: Db) {
    forall t, u :: t in db.tokens && u in db.tokens && db.tokens[t].digest == db.tokens[u].digest ==> t == u
  }

  ghost predicate SessionOk(db: Db, lines: Lineages, s: Id) {
    s in db.sessions ==>
      && s in lines && Lineage(db.tokens, s, lines[s])
      && db.sessions[s].expires == db.sessions[s].created + TTL
  }

  ghost predicate Inv(db: Db, lines: Lineages) {
    && (forall t :: TokenOk(db, t)) && DigestsUnique(db) && (forall s :: SessionOk(db, lines, s))
  }

  /** A login starts a chain, a rotation extends one, nothing else touches them. */
  ghost function Extended(db: Db, lines: Lineages, c: Command): Lineages {
    if Perform(db, c).1 != Done then lines
    else match c
      case Login(_, _, sid, tid, _, _, _) => lines[sid := [tid]]
      case Refresh(presented, tid, _, _, now, allowed, _) =>
        var v := Judge(db, presented.value, now, allowed);
        var sid := db.tokens[v.token].session;
        if sid in lines then lines[sid := lines[sid] + [tid]] else lines
      case Logout(_, _, _, _) => lines
  }

  lemma RevokeKeepsInv(db: Db, lines: Lineages, sid: Id, at: int)
    requires Inv(db, lines) && sid in db.sessions
    ensures Inv(RevokeFamily(db, sid, at), lines)
  {
    var n := RevokeFamily(db, sid, at);
    forall t ensures TokenOk(n, t) { assert TokenOk(db, t); }
    forall s ensures SessionOk(n, lines, s) {
      assert SessionOk(db, lines, s);
      if s in db.sessions { RevokeKeepsLineage(db.tokens, sid, at, s, lines[s]); }
    }
  }

  lemma RevokeKeepsLineage(tokens: map<Id, Token>, sid: Id, at: int, s: Id, chain: seq<Id>)
    requires Lineage(tokens, s, chain)
    ensures Lineage(RevokedTokens(tokens, sid, at), s, chain)
  {
  }

  lemma LoginKeepsInv(db: Db, lines: Lineages, c: Command)
    requires Inv(db, lines) && c.Login? && Perform(db, c).1 == Done
    ensures Inv(Perform(db, c).0, lines[c.sid := [c.tid]])
  {
    var n := Perform(db, c).0;
    var after := lines[c.sid := [c.tid]];
    forall t ensures TokenOk(n, t) { assert TokenOk(db, t); }
    forall s ensures SessionOk(n, after, s) {
      assert SessionOk(db, lines, s);
      if s == c.sid {
        forall t | t in n.tokens && n.tokens[t].session == c.sid ensures t in [c.tid] { assert TokenOk(db, t); }
      } else if s in db.sessions {
        AddedElsewhere(db.tokens, c.tid, n.tokens[c.tid], s, lines[s]);
      }
    }
  }

  lemma AddedElsewhere(tokens: map<Id, Token>, tid: Id, token: Token, s: Id, chain: seq<Id>)
    requires Lineage(tokens, s, chain) && tid !in tokens && token.session != s
    ensures Lineage(tokens[tid := token], s, chain)
  {
  }

  lemma ChangedElsewhere(tokens: map<Id, Token>, t: Id, token: Token, s: Id, chain: seq<Id>)
    requires Lineage(tokens, s, chain) && t in tokens && tokens[t].session != s && token.session == tokens[t].session
    ensures Lineage(tokens[t := token], s, chain)
  {
  }

  lemma ReplacedByNext(tokens: map<Id, Token>, sid: Id, chain: seq<Id>)
    requires Lineage(tokens, sid, chain)
    ensures forall k :: 0 <= k < |chain| - 1 ==> tokens[chain[k]].next.Some?
  {
    forall k | 0 <= k < |chain| - 1
      ensures tokens[chain[k]].next.Some?
    {
      assert tokens[chain[k]].next == Some(chain[k + 1]);
    }
  }

  /** The unused token of a family is the last of its chain. */
  lemma CurrentIsLast(db: Db, lines: Lineages, t: Id)
    requires Inv(db, lines) && t in db.tokens && !Used(db.tokens[t])
    ensures var s := db.tokens[t].session; s in lines && lines[s] != [] && t == Last(lines[s])
  {
    assert TokenOk(db, t);
    var s := db.tokens[t].session;
    assert SessionOk(db, lines, s);
    ReplacedByNext(db.tokens, s, lines[s]);
    var k :| 0 <= k < |lines[s]| && lines[s][k] == t;
  }

  lemma ChainExtends(tokens: map<Id, Token>, sid: Id, chain: seq<Id>, used: Token, tid: Id, current: Token)
    requires Lineage(tokens, sid, chain) && tid !in tokens && current.session == sid && current.next.None?
    requires used == tokens[Last(chain)].(consumed := used.consumed, next := Some(tid))
    ensures Lineage(tokens[Last(chain) := used][tid := current], sid, chain + [tid])
  {
    var after := tokens[Last(chain) := used][tid := current];
    var longer := chain + [tid];
    forall i | 0 <= i < |longer| - 1 ensures after[longer[i]].next == Some(longer[i + 1]) {
      if i < |chain| - 1 { assert chain[i] != Last(chain) && tokens[chain[i]].next == Some(chain[i + 1]); }
    }
    forall t | t in after && after[t].session == sid ensures t in longer { if t != tid { assert t in chain; } }
  }

  lemma RotationKeepsTokens(db: Db, lines: Lineages, t: Id, c: Command)
    requires Inv(db, lines) && c.Refresh? && t in db.tokens && !Used(db.tokens[t])
    requires db.tokens[t].session in db.sessions
    requires db.sessions[db.tokens[t].session].revoked.None? && !RotationFails(db, t, c)
    ensures forall u :: TokenOk(Rotated(db, t, c), u)
    ensures DigestsUnique(Rotated(db, t, c))
  {
    forall u ensures TokenOk(Rotated(db, t, c), u) { assert TokenOk(db, u) && TokenOk(db, t); }
  }

  lemma RotationKeepsInv(db: Db, lines: Lineages, t: Id, c: Command)
    requires Inv(db, lines) && c.Refresh? && t in db.tokens && !Used(db.tokens[t])
    requires db.tokens[t].session in db.sessions
    requires db.sessions[db.tokens[t].session].revoked.None? && !RotationFails(db, t, c)
    ensures var s := db.tokens[t].session; s in lines && Inv(Rotated(db, t, c), lines[s := lines[s] + [c.tid]])
  {
    var sid := db.tokens[t].session;
    var n := Rotated(db, t, c);
    CurrentIsLast(db, lines, t);
    RotationKeepsTokens(db, lines, t, c);
    var after := lines[sid := lines[sid] + [c.tid]];
    forall s ensures SessionOk(n, after, s) {
      assert SessionOk(db, lines, s);
      if s == sid {
        ChainExtends(db.tokens, sid, lines[sid], n.tokens[t], c.tid, n.tokens[c.tid]);
      } else if s in db.sessions {
        ChangedElsewhere(db.tokens, t, n.tokens[t], s, lines[s]);
        AddedElsewhere(db.tokens[t := n.tokens[t]], c.tid, n.tokens[c.tid], s, lines[s]);
      }
    }
  }

  lemma StepKeepsInv(db: Db, lines: Lineages, c: Command)
    requires Inv(db, lines)
    ensures Inv(Step(db, c).0, Extended(db, lines, c))
  {
    hide Inv;
    match c
    case Login(_, _, _, _, _, _, _) => if Perform(db, c).1 == Done { LoginKeepsInv(db, lines, c); }
    case Logout(_, sid, now, _) => if sid in db.sessions { RevokeKeepsInv(db, lines, sid, now); }
    case Refresh(presented, _, digest, _, now, allowed, _) =>
      if presented.Some? {
        match Judge(db, presented.value, now, allowed)
        case Replayed(sid) => RevokeKeepsInv(db, lines, sid, now);
        case Accepted(t) => if !RotationFails(db, t, c) { RotationKeepsInv(db, lines, t, c); }
        case _ =>
      }
  }

  // ----- The repository and the transaction around it -----

  datatype Rotation = Failed | Rotation(verdict: Verdict)

  /** The command as its callback sees it: a commit that fails does so after the callback. */
  function Inner(c: Command): Command { if c.fault == AtCommit then c.(fault := NoFault) else c }

  lemma TokenWithIs(db: Db, lines: Lineages, t: Id, digest: Digest)
    requires Inv(db, lines) && IsTokenOf(db, t, digest)
    ensures TokenWith(db, digest) == Some(t)
  {
  }

  lemma NoSibling(db: Db, lines: Lineages, t: Id)
    requires Inv(db, lines) && t in db.tokens && !Used(db.tokens[t])
    ensures forall u <- db.tokens ::
              u != t && db.tokens[u].session == db.tokens[t].session ==> db.tokens[u].consumed.Some?
  {
    forall u | u in db.tokens && u != t && db.tokens[u].session == db.tokens[t].session
      ensures db.tokens[u].consumed.Some?
    {
      assert TokenOk(db, u) && TokenOk(db, t);
      if !Used(db.tokens[u]) {
        CurrentIsLast(db, lines, u);
        CurrentIsLast(db, lines, t);
      }
    }
  }

  class AuthRepository {
    var sessions: map<Id, Session>
    var tokens: map<Id, Token>
    ghost var lines: Lineages

    ghost function View(): Db reads this { Db(sessions, tokens) }

    ghost predicate Valid() reads this { Inv(View(), lines) }

    constructor ()
      ensures Valid() && View() == Db(map[], map[])
    {
      sessions, tokens, lines := map[], map[], map[];
    }

    /** Errors roll back, except the two denials, which commit what the callback wrote. */
    method RunRefresh(c: Command) returns (out: Out)
      requires Valid() && c.Refresh?
      modifies this
      ensures Valid() && (View(), out) == Step(old(View()), c)
    {
      ghost var db := View();
      StepKeepsInv(db, lines, c);
      ghost var after := Extended(db, lines, c);
      var savedSessions, savedTokens := sessions, tokens;
      out := RefreshCallback(Inner(c));
      if out == Infrastructure || c.fault == AtCommit {
        sessions, tokens := savedSessions, savedTokens;
        out := Infrastructure;
      } else {
        lines := after;
        if c.fault == AfterCommit {
          out := Infrastructure;
        }
      }
    }

    method RefreshCallback(c: Command) returns (out: Out)
      requires Valid() && c.Refresh? && c.fault != AtCommit
      modifies this`sessions, this`tokens
      ensures var (n, o) := Perform(old(View()), c); out == o && (o != Infrastructure ==> View() == n)
    {
      if c.presented.None? {
        return Unauthorized;
      }
      ghost var db := View();
      var r := RotateRefreshToken(c);
      if r == Failed {
        return Infrastructure;
      }
      if !r.verdict.Accepted? {
        return Unauthorized;
      }
      var sid := tokens[c.tid].session;
      if c.fault == AtSession || sid !in sessions || sessions[sid].revoked.Some? ||
         sessions[sid].expires <= c.requestedAt {
        return Infrastructure;
      }
      if c.fault == AtSigning || sessions[sid].user == 0 {
        return Infrastructure;
      }
      return Done;
    }

    method RotateRefreshToken(c: Command) returns (r: Rotation)
      requires Valid() && c.Refresh? && c.presented.Some?
      modifies this`sessions, this`tokens
      ensures c.presented.value == c.digest || c.fault == AtLookup ==> r == Failed
      ensures c.presented.value != c.digest && c.fault != AtLookup ==>
                var v := Judge(old(View()), c.presented.value, c.decidedAt, c.allowed);
                match v
                case Unknown => r == Rotation(v) && View() == old(View())
                case Rejected => r == Rotation(v) && View() == old(View())
                case Replayed(sid) =>
                  if ClockOk(old(View()), sid, c.decidedAt) && c.fault != AtRevocation
                  then r == Rotation(v) && View() == RevokeFamily(old(View()), sid, c.decidedAt) else r == Failed
                case Accepted(t) =>
                  if StorageRefuses(old(View()), t, c) then r == Failed
                  else r == Rotation(v) && View() == Rotated(old(View()), t, c)
    {
      ghost var db := View();
      if c.presented.value == c.digest || c.fault == AtLookup {
        return Failed;
      }
      var found: Option<Id> := None;
      if t :| t in tokens && tokens[t].digest == c.presented.value {
        found := Some(t);
      }
      if found.None? {
        return Rotation(Unknown);
      }
      var id := found.value;
      var token := tokens[id];
      TokenWithIs(db, lines, id, c.presented.value);
      assert TokenOk(db, id);
      if token.session !in sessions {
        r := Rotation(Rejected);
        return;
      }
      var session := sessions[token.session];
      if token.consumed.Some? || token.revoked.Some? || token.next.Some? {
        var ok := RevokeSessionFamilyLocked(token.session, c.decidedAt, c.fault);
        return if ok then Rotation(Replayed(token.session)) else Failed;
      }
      if session.revoked.Some? || session.expires <= c.decidedAt || token.expires <= c.decidedAt ||
         token.issued < session.created || token.expires > session.expires || !c.allowed {
        return Rotation(Rejected);
      }
      NoSibling(db, lines, id);
      if session.expires <= c.decidedAt ||
         exists u <- tokens :: u != id && tokens[u].session == token.session && Current(tokens[u]) {
        r := Rotation(Rejected);
        return;
      }
      r := Replace(id, token, session, c);
    }

    /** Consume, insert, link; the storage refuses impossible times and repeated identifiers or digests. */
    method Replace(id: Id, token: Token, session: Session, c: Command) returns (r: Rotation)
      requires c.Refresh? && id in tokens && tokens[id] == token && !Used(token) && token.session in sessions
      requires sessions[token.session] == session
      modifies this`tokens
      ensures StorageRefuses(old(View()), id, c) ==> r == Failed
      ensures !StorageRefuses(old(View()), id, c) ==>
                r == Rotation(Accepted(id)) && View() == Rotated(old(View()), id, c)
    {
      if c.fault == AtConsume || c.decidedAt < token.issued {
        return Failed;
      }
      tokens := tokens[id := token.(consumed := Some(c.decidedAt))];
      if c.fault == AtInsert || c.tid in tokens || exists u <- tokens :: tokens[u].digest == c.digest {
        DigestStays(old(tokens), id, c.decidedAt, c.digest);
        return Failed;
      }
      DigestStays(old(tokens), id, c.decidedAt, c.digest);
      tokens := tokens[c.tid := Token(token.session, c.digest, c.decidedAt, session.expires, None, None, None)];
      if c.fault == AtLink {
        return Failed;
      }
      tokens := tokens[id := tokens[id].(next := Some(c.tid))];
      assert tokens == Rotated(old(View()), id, c).tokens;
      return Rotation(Accepted(id));
    }

    method RevokeSessionFamilyLocked(sid: Id, at: int, fault: Fault) returns (ok: bool)
      requires sid in sessions
      modifies this`sessions, this`tokens
      ensures ok <==> ClockOk(old(View()), sid, at) && fault != AtRevocation
      ensures View() == if ok then RevokeFamily(old(View()), sid, at) else old(View())
    {
      if at < sessions[sid].created {
        return false;
      }
      var rest := set t | t in tokens && tokens[t].session == sid;
      while rest != {}
        invariant rest <= tokens.Keys
        invariant forall t <- tokens :: tokens[t].session == sid && t !in rest ==> tokens[t].issued <= at
        invariant forall t <- rest :: tokens[t].session == sid
        decreases rest
      {
        var t :| t in rest;
        if at < tokens[t].issued {
          return false;
        }
        rest := rest - {t};
      }
      if fault == AtRevocation {
        return false;
      }
      tokens := RevokedTokens(tokens, sid, at);
      if sessions[sid].revoked.None? {
        sessions := sessions[sid := sessions[sid].(revoked := Some(at))];
      }
      return true;
    }

    method RunLogin(c: Command) returns (out: Out)
      requires Valid() && c.Login?
      modifies this
      ensures Valid() && (View(), out) == Step(old(View()), c)
    {
      ghost var db := View();
      StepKeepsInv(db, lines, c);
      ghost var after := Extended(db, lines, c);
      var savedSessions, savedTokens := sessions, tokens;
      out := LoginCallback(Inner(c));
      if out == Infrastructure || c.fault == AtCommit {
        sessions, tokens := savedSessions, savedTokens;
        out := Infrastructure;
      } else {
        lines := after;
        if c.fault == AfterCommit {
          out := Infrastructure;
        }
      }
    }

    method LoginCallback(c: Command) returns (out: Out)
      requires c.Login? && c.fault != AtCommit
      modifies this`sessions, this`tokens
      ensures var (n, o) := Perform(old(View()), c); out == o && (o != Infrastructure ==> View() == n)
    {
      if c.fault == AtLookup {
        return Infrastructure;
      }
      if c.user.None? || !c.user.value.enabled || !c.passwordOk {
        return InvalidCredentials;
      }
      if c.user.value.id == 0 || c.fault == AtSigning {
        return Infrastructure;
      }
      var session := Session(c.user.value.id, c.now, c.now + TTL, None);
      if c.fault == AtSession || c.sid in sessions {
        return Infrastructure;
      }
      sessions := sessions[c.sid := session];
      if c.fault == AtInsert || c.tid in tokens || exists u <- tokens :: tokens[u].digest == c.digest {
        return Infrastructure;
      }
      tokens := tokens[c.tid := Token(c.sid, c.digest, c.now, session.expires, None, None, None)];
      return Done;
    }

    method RunLogout(c: Command) returns (out: Out)
      requires Valid() && c.Logout?
      modifies this
      ensures Valid() && (View(), out) == Step(old(View()), c)
    {
      StepKeepsInv(View(), lines, c);
      var savedSessions, savedTokens := sessions, tokens;
      if c.userId == 0 {
        out := Unauthorized;
      } else if c.fault == AtLookup {
        out := Infrastructure;
      } else if c.sid !in sessions {
        out := Unauthorized;
      } else {
        var ok := RevokeSessionFamilyLocked(c.sid, c.now, c.fault);
        out := if ok then Done else Infrastructure;
      }
      if out == Infrastructure || c.fault == AtCommit {
        sessions, tokens := savedSessions, savedTokens;
        out := Infrastructure;
      } else if c.fault == AfterCommit {
        out := Infrastructure;
      }
    }
  }

  predicate StorageRefuses(db: Db, t: Id, c: Command)
    requires c.Refresh? && t in db.tokens
  {
    || c.decidedAt < db.tokens[t].issued || c.tid in db.tokens || DigestTaken(db, c.digest)
    || c.fault in {AtConsume, AtInsert, AtLink}
  }

  lemma DigestStays(tokens: map<Id, Token>, id: Id, at: int, digest: Digest)
    requires id in tokens
    ensures var after := tokens[id := tokens[id].(consumed := Some(at))];
            (exists u <- after :: after[u].digest == digest) <==> (exists u <- tokens :: tokens[u].digest == digest)
  {
    var after := tokens[id := tokens[id].(consumed := Some(at))];
    assert forall u <- tokens :: after[u].digest == tokens[u].digest;
    assert after.Keys == tokens.Keys;
    if u :| u in tokens && tokens[u].digest == digest { assert after[u].digest == digest; }
  }
}
