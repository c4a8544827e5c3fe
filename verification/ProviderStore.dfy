/**
 The operations of the provider store, each transaction written out statement by statement with its checks,
 including the branches for row states that should not occur. A contract states what the transaction decides
 on a well-formed ledger: those branches are never taken. `fate` says what became of the commit.
 */
module ProviderStore {
  import opened Common
  import opened ProviderLedger

  datatype Reason =
    | NoAuthority | BadRequest | BindingRejected | AuthNotFound | RequestNotFound | RequestBindingMismatch
    | OwnerRejected | ConsumeIdRequired | AttemptConflict | IdentityConflict | EpochUnavailable | Corrupt
    | UnknownCommit

  datatype Detail = Fresh | InProgress | Durable | TerminalOutcome | OutcomeUnknown

  datatype Outcome =
    | Failed(reason: Reason)
    | Reported(intent: Option<IntentState>, auth: AuthState, code: string, detail: Detail, pending: Option<Id>)
    | Minted(aid: Id, expires: int)
    | Known(aid: Id, state: AuthState)
    | Closed(request: RequestState)
    | Acquired(epoch: nat)

  /** A transaction commits, is lost before it takes effect, or takes effect with its acknowledgement lost. */
  datatype Fate = Committed | LostBefore | LostAfter

  datatype Decision = Decision(move: Option<Move>, outcome: Outcome)

  datatype Envelope = Envelope(aid: Id, epoch: nat, nonce: nat, verifier: nat)

  datatype ConsumeRequest = ConsumeRequest(cid: Id, aid: Id, rid: Id, terms: Terms, envelope: Envelope,
      consumer: string)

  datatype ResolveRequest = ResolveRequest(cid: Option<Id>, aid: Id, rid: Id, terms: Terms, consumer: string)

  datatype IssueRequest = IssueRequest(rid: Id, attempt: Id, operation: string, target: string, installer: string,
      evidence: string, scope: string, ttl: int)

  datatype Action = Expire | Revoke

  predicate Blank(s: string) { forall c <- s :: c in " \t\n\r" }

  function Identity(consumer: string): string { if Blank(consumer) then "store-direct" else consumer }

  predicate WellBound(r: ConsumeRequest) {
    && r.envelope.aid == r.aid && r.envelope.epoch == r.terms.epoch && r.envelope.nonce == r.terms.nonce
    && r.terms.scope == SCOPE && !Blank(r.terms.operation) && !Blank(r.terms.target)
    && !Blank(r.terms.installer) && !Blank(r.terms.evidence)
  }

  predicate WellFormed(r: IssueRequest) {
    && r.scope == SCOPE && r.ttl > 0 && !Blank(r.operation) && !Blank(r.target) && !Blank(r.installer)
    && !Blank(r.evidence)
  }

  predicate SameTerms(t: Terms, r: IssueRequest) {
    && t.scope == r.scope && t.operation == r.operation && t.target == r.target && t.installer == r.installer
    && t.evidence == r.evidence
  }

  predicate AuthOf(l: Ledger, aid: Id, rid: Id) { aid in l.auths && l.auths[aid].request == rid }

  predicate IsIntentOf(l: Ledger, cid: Id, aid: Id) { cid in l.intents && l.intents[cid].auth == aid }

  ghost function IntentOf(l: Ledger, aid: Id): (c: Option<Id>)
    ensures c.Some? ==> IsIntentOf(l, c.value, aid)
    ensures c.None? ==> !HasIntent(l, aid)
  {
    if HasIntent(l, aid) then
      var c :| c in l.intents && l.intents[c].auth == aid;
      Some(c)
    else None
  }

  // ----- What each transaction decides on a well-formed ledger -----

  const REJECT := Decision(None, Failed(BindingRejected))

  function Detailed(s: AuthState): Detail {
    match s
    case CONSUME_PENDING => InProgress
    case CONSUMED => Durable
    case CONSUME_UNKNOWN => OutcomeUnknown
    case _ => TerminalOutcome
  }

  const EXPIRED_OUTCOME := Reported(Some(ABORTED), EXPIRED, "EXPIRED", TerminalOutcome, None)

  ghost function Begin(l: Ledger, r: ConsumeRequest, now: int): Decision {
    if !WellBound(r) then REJECT
    else if !AuthOf(l, r.aid, r.rid) then Decision(None, Failed(AuthNotFound))
    else
      var a := l.auths[r.aid];
      if r.cid in l.intents then
        var i := l.intents[r.cid];
        if (i.auth, i.request, i.terms, i.consumer) != (r.aid, r.rid, r.terms, Identity(r.consumer))
        then Decision(None, Failed(RequestBindingMismatch))
        else Decision(None, Reported(Some(i.state), a.state, a.code, Durable, None))
      else if a.terms != r.terms || a.verifier != r.envelope.verifier then REJECT
      else if a.state != ISSUED then
        var owner := if a.state == CONSUME_PENDING && a.owner.Some? then Some(a.owner.value.cid) else None;
        Decision(None, Reported(Some(Mirror(a.state)), a.state, a.code, Detailed(a.state), owner))
      else if a.expires <= now then Decision(Some(Stop(r.aid, EXPIRED, "EXPIRED")), EXPIRED_OUTCOME)
      else
        var other := IntentOf(l, r.aid);
        if other.Some? then Decision(None, Reported(Some(PENDING), ISSUED, "", InProgress, other))
        else Decision(Some(Open(r.cid, r.aid, Identity(r.consumer), r.envelope.verifier)),
                      Reported(Some(PENDING), ISSUED, "", Fresh, None))
  }

  ghost function ClaimDecision(l: Ledger, r: ConsumeRequest, now: int): Decision {
    if r.envelope.nonce != r.terms.nonce then REJECT
    else if !AuthOf(l, r.aid, r.rid) then Decision(None, Failed(AuthNotFound))
    else
      var a := l.auths[r.aid];
      if a.terms != r.terms then REJECT
      else if r.cid !in l.intents then Decision(None, Failed(RequestNotFound))
      else if l.intents[r.cid].auth != r.aid then Decision(None, Failed(RequestBindingMismatch))
      else if a.state != ISSUED then Decision(None, Reported(Some(Mirror(a.state)), a.state, "", Fresh, None))
      else if a.expires <= now then Decision(Some(Stop(r.aid, EXPIRED, "EXPIRED")), EXPIRED_OUTCOME)
      else Decision(Some(Claim(r.cid, now)), Reported(Some(CLAIMED), CONSUME_PENDING, "", Fresh, None))
  }

  const CONSUMED_OUTCOME := Reported(Some(INTENT_CONSUMED), CONSUMED, "CONSUMED", Fresh, None)

  ghost function FinalizeDecision(l: Ledger, aid: Id, cid: Id): Decision {
    if IsIntentOf(l, cid, aid) && aid in l.auths && l.auths[aid].state == CONSUME_PENDING
    then Decision(Some(Finalize(cid)), CONSUMED_OUTCOME)
    else Decision(None, Failed(UnknownCommit))
  }

  const LOST := "CONSUME_OUTCOME_UNKNOWN"
  const RESOLVED := "PENDING_CONSUME_RESOLVED"
  const UNAVAILABLE := "SECRET_UNAVAILABLE"

  ghost function Resolve(l: Ledger, r: ResolveRequest, recovery: bool, now: int): Decision {
    if !AuthOf(l, r.aid, r.rid) then Decision(None, Failed(AuthNotFound))
    else if r.cid.None? && !recovery then Decision(None, Failed(ConsumeIdRequired))
    else
      var a := l.auths[r.aid];
      var cid := if r.cid.Some? then r.cid else if Live(a.state) && a.terms == r.terms then IntentOf(l, r.aid)
                 else None;
      if cid.None? || cid.value !in l.intents then Decision(None, Failed(RequestNotFound))
      else
        var i := l.intents[cid.value];
        if i.auth != r.aid || i.terms != r.terms then REJECT
        else if !recovery && i.consumer != Identity(r.consumer) then Decision(None, Failed(OwnerRejected))
        else Reconciled(a, r.aid, cid.value, now)
  }

  ghost function Reconciled(a: Auth, aid: Id, cid: Id, now: int): Decision {
    if a.state == ISSUED then
      var (state, code) := if a.expires <= now then (EXPIRED, "EXPIRED") else (REVOKED, RESOLVED);
      Decision(Some(Stop(aid, state, code)), Reported(Some(ABORTED), state, code, Fresh, Some(cid)))
    else if a.state == CONSUME_PENDING then
      Decision(Some(Lose(cid, LOST)), Reported(Some(UNKNOWN), CONSUME_UNKNOWN, LOST, Fresh, Some(cid)))
    else Decision(None, Reported(Some(Mirror(a.state)), a.state, a.code, Fresh, Some(cid)))
  }

  ghost function Lifecycle(l: Ledger, aid: Id, rid: Id, action: Action, now: int): Decision {
    if !AuthOf(l, aid, rid) then Decision(None, Failed(AuthNotFound))
    else
      var a := l.auths[aid];
      var live := if Live(a.state) then IntentOf(l, aid) else None;
      var detail := if live.Some? then InProgress else Fresh;
      if a.state == ISSUED && (action == Revoke || a.expires <= now) then
        var (state, code) := if action == Revoke then (REVOKED, "REVOKED") else (EXPIRED, "EXPIRED");
        Decision(Some(Stop(aid, state, code)), Reported(if live.Some? then Some(ABORTED)
          else None, state, code, detail, live))
      else Decision(None, Reported(if live.Some? then Some(Mirror(a.state)) else None, a.state, a.code, detail, live))
  }

  function Fill(epoch: nat, nonce: nat, r: IssueRequest): Terms {
    Terms(epoch, nonce, r.operation, r.attempt, r.target, r.installer, r.evidence, r.scope)
  }

  ghost function IssueDecision(l: Ledger, r: IssueRequest, aid: Id, nonce: nat, verifier: nat, now: int): Decision {
    if !WellFormed(r) then Decision(None, Failed(BadRequest))
    else if r.rid in l.requests then
      var q := l.requests[r.rid];
      if q.attempt != r.attempt then Decision(None, Failed(IdentityConflict))
      else if q.auth.None? then Decision(None, Closed(q.state))
      else if q.auth.value in l.auths && SameTerms(l.auths[q.auth.value].terms, r)
      then Decision(None, Known(q.auth.value, l.auths[q.auth.value].state))
      else REJECT
    else if !NewAttempt(l, r.attempt) then Decision(None, Failed(AttemptConflict))
    else if l.epoch == 0 then Decision(None, Failed(EpochUnavailable))
    else if aid in l.auths then Decision(None, Failed(Corrupt))
    else Decision(Some(Mint(r.rid, aid, Fill(l.epoch, nonce, r), verifier, now + r.ttl)), Minted(aid, now + r.ttl))
  }

  ghost function ResolveIssueDecision(l: Ledger, rid: Id, attempt: Id): Decision {
    if rid !in l.requests then
      if NewAttempt(l, attempt) then Decision(Some(Tombstone(rid, attempt)), Closed(CANCELLED))
      else Decision(None, Failed(Corrupt))
    else
      var q := l.requests[rid];
      if q.auth.None? || q.auth.value !in l.auths then Decision(None, Closed(q.state))
      else
        var a := l.auths[q.auth.value];
        var live := if Live(a.state) then IntentOf(l, q.auth.value) else None;
        if live.Some? then Decision(None, Reported(Some(Mirror(a.state)), a.state, "", InProgress, live))
        else if a.state == ISSUED then
          Decision(Some(Stop(q.auth.value, REVOKED, UNAVAILABLE)), Reported(None, REVOKED, UNAVAILABLE, Fresh, None))
        else Decision(None, Reported(None, a.state, "", Fresh, None))
  }

  /** How a decision ends, given what became of its commit. */
  ghost function End(l: Ledger, d: Decision, fate: Fate): (Ledger, Outcome) {
    if d.outcome.Failed? then (l, d.outcome)
    else if fate == LostBefore then (l, Failed(UnknownCommit))
    else (Do(l, d.move), if fate == LostAfter then Failed(UnknownCommit) else d.outcome)
  }

  // ----- Writing rows one by one -----

  /** The parent and child updates of one transaction are one settlement. */
  lemma TwoWrites(l: Ledger, aid: Id, a: Auth, cid: Id, i: Intent)
    requires Inv(l) && IsIntentOf(l, cid, aid)
    requires i == l.intents[cid].(state := Mirror(a.state), code := a.code)
    ensures l.(auths := l.auths[aid := a], intents := l.intents[cid := i]) == Settle(l, aid, a)
  {
  }

  lemma OneWrite(l: Ledger, aid: Id, a: Auth)
    requires !HasIntent(l, aid)
    ensures l.(auths := l.auths[aid := a]) == Settle(l, aid, a)
  {
    assert Settle(l, aid, a).intents == l.intents;
  }

  lemma IntentOfIs(l: Ledger, cid: Id, aid: Id)
    requires Inv(l) && IsIntentOf(l, cid, aid)
    ensures IntentOf(l, aid) == Some(cid)
  {
    assert HasIntent(l, aid);
  }

  function DoAll(l: Ledger, others: seq<Move>): Ledger {
    if others == [] then l else Do(DoAll(l, others[..|others| - 1]), Some(Last(others)))
  }

  lemma DoKeepsInv(l: Ledger, m: Option<Move>)
    requires Inv(l)
    ensures Inv(Do(l, m))
  {
    if m.Some? && Enabled(l, m.value) { StepKeepsInv(l, m.value); }
  }

  lemma EndKeepsInv(l: Ledger, d: Decision, fate: Fate)
    requires Inv(l)
    ensures Inv(End(l, d, fate).0)
  {
    DoKeepsInv(l, d.move);
  }

  /** Everything outside the caller's control while one consumption runs. */
  datatype Weather = Weather(begunAt: int, begun: Fate, beforeClaim: seq<Move>, claimedAt: int, claimed: Fate,
      beforeFinalize: seq<Move>, finalized: Fate)

  ghost function Consumption(l: Ledger, r: ConsumeRequest, w: Weather): (Ledger, Outcome) {
    var (begun, b) := End(l, Begin(l, r, w.begunAt), w.begun);
    if b.Failed? || b.pending.Some? || (b.detail != Fresh && b.intent != Some(PENDING)) then (begun, b)
    else
      var l1 := DoAll(begun, w.beforeClaim);
      var (claimed, c) := End(l1, ClaimDecision(l1, r, w.claimedAt), w.claimed);
      if c.Failed? || c.intent != Some(CLAIMED) then (claimed, c)
      else
        var l2 := DoAll(claimed, w.beforeFinalize);
        End(l2, FinalizeDecision(l2, r.aid, r.cid), w.finalized)
  }

  predicate HasParent(auths: map<Id, Auth>, i: Intent) {
    i.auth in auths && auths[i.auth].request == i.request && auths[i.auth].terms == i.terms
  }

  function Ended(q: Request): Request { if q.state == REQUESTED then q.(state := TERMINAL) else q }

  function RevokedIfIssued(a: Auth): Auth { if a.state == ISSUED then a.(state := REVOKED, code := REPLACED) else a }

  function UnknownIfPending(a: Auth): Auth {
    if a.state == CONSUME_PENDING then a.(state := CONSUME_UNKNOWN, code := REPLACED) else a
  }

  function AbortedIfStale(auths: map<Id, Auth>, intents: map<Id, Intent>): map<Id, Intent> {
    map c | c in intents ::
      if intents[c].state == PENDING && HasParent(auths, intents[c]) && auths[intents[c].auth].state != ISSUED
      then intents[c].(state := ABORTED, code := REPLACED) else intents[c]
  }

  function UnknownIfClaimed(auths: map<Id, Auth>, intents: map<Id, Intent>): map<Id, Intent> {
    map c | c in intents ::
      if intents[c].state == CLAIMED && HasParent(auths, intents[c])
      then intents[c].(state := UNKNOWN, code := REPLACED) else intents[c]
  }

  /** Once the parents are poisoned, every intent still has its parent and that parent is done. */
  lemma ParentsAreDone(l: Ledger, auths: map<Id, Auth>)
    requires Inv(l) && auths == Apply(l, Takeover(l.epoch + 1)).auths
    ensures forall c <- l.intents :: HasParent(auths, l.intents[c]) && !Live(auths[l.intents[c].auth].state)
  {
    forall c | c in l.intents
      ensures HasParent(auths, l.intents[c]) && !Live(auths[l.intents[c].auth].state)
    {
      assert IntentOk(l, c);
    }
  }

  lemma ChildrenPoisoned(auths: map<Id, Auth>, intents: map<Id, Intent>)
    requires forall c <- intents :: HasParent(auths, intents[c]) && !Live(auths[intents[c].auth].state)
    ensures UnknownIfClaimed(auths, AbortedIfStale(auths, intents)) == PoisonedIntents(intents)
  {
    hide AbortedIfStale, UnknownIfClaimed, PoisonedIntents, HasParent, Live;
    SameIntents(auths, intents);
    var (m, n) := (UnknownIfClaimed(auths, AbortedIfStale(auths, intents)), PoisonedIntents(intents));
    forall c | c in m.Keys ensures m[c] == n[c] { ChildPoisoned(auths, intents, c); }
  }

  lemma SameIntents(auths: map<Id, Auth>, intents: map<Id, Intent>)
    ensures UnknownIfClaimed(auths, AbortedIfStale(auths, intents)).Keys == intents.Keys
    ensures PoisonedIntents(intents).Keys == intents.Keys
  {
    hide HasParent;
    assert AbortedIfStale(auths, intents).Keys == intents.Keys;
  }

  lemma ChildPoisoned(auths: map<Id, Auth>, intents: map<Id, Intent>, c: Id)
    requires c in intents && HasParent(auths, intents[c]) && !Live(auths[intents[c].auth].state)
    ensures c in PoisonedIntents(intents) && c in UnknownIfClaimed(auths, AbortedIfStale(auths, intents))
    ensures UnknownIfClaimed(auths, AbortedIfStale(auths, intents))[c] == PoisonedIntents(intents)[c]
  {
    assert c in AbortedIfStale(auths, intents);
  }

  class Store {
    /** The epoch this process acquired; 0 when it holds no authority. */
    var pinned: nat
    var epoch: nat
    var requests: map<Id, Request>
    var auths: map<Id, Auth>
    var intents: map<Id, Intent>

    function View(): Ledger reads this { Ledger(epoch, requests, auths, intents) }

    method BeginConsume(r: ConsumeRequest, now: int, fate: Fate) returns (out: Outcome)
      requires Inv(View())
      modifies this
      ensures pinned == old(pinned)
      ensures old(pinned == 0 || pinned != epoch) ==> View() == old(View()) && out == Failed(NoAuthority)
      ensures old(pinned == epoch != 0) ==> (View(), out) == End(old(View()), Begin(old(View()), r, now), fate)
    {
      if pinned == 0 || pinned != epoch {
        return Failed(NoAuthority);
      }
      var before := View();
      out := BeginStatements(r, now);
      if out.Failed? || fate == LostBefore {
        Restore(before);
      }
      out := Acknowledge(out, fate);
    }

    method Restore(before: Ledger)
      modifies this`epoch, this`requests, this`auths, this`intents
      ensures View() == before
    {
      epoch, requests, auths, intents := before.epoch, before.requests, before.auths, before.intents;
    }

    function Acknowledge(out: Outcome, fate: Fate): Outcome {
      if out.Failed? || fate == Committed then out else Failed(UnknownCommit)
    }

    method BeginStatements(r: ConsumeRequest, now: int) returns (out: Outcome)
      requires Inv(View())
      modifies this`auths, this`intents
      ensures var d := Begin(old(View()), r, now);
              out == d.outcome && (!out.Failed? ==> View() == Do(old(View()), d.move))
    {
      ghost var l := View();
      if !WellBound(r) {
        return Failed(BindingRejected);
      }
      if r.aid !in auths || auths[r.aid].request != r.rid {
        return Failed(AuthNotFound);
      }
      var a := auths[r.aid];
      assert AuthOk(l, r.aid);
      if r.cid in intents {
        var i := intents[r.cid];
        assert IntentOk(l, r.cid);
        if i.auth != r.aid || i.request != r.rid || i.terms != r.terms || i.consumer != Identity(r.consumer) {
          return Failed(RequestBindingMismatch);
        }
        if i.state == PENDING && a.state != ISSUED {
          out := if a.state == CONSUME_PENDING then Reported(Some(CLAIMED), a.state, "", InProgress, Some(r.cid))
                 else Failed(Corrupt);
        } else if i.state == CLAIMED && a.state !in {CONSUME_PENDING, CONSUMED, CONSUME_UNKNOWN} {
          out := Failed(Corrupt);
        } else {
          var code := if Live(a.state) then "" else if a.code != "" then a.code else i.code;
          out := Reported(Some(i.state), a.state, code, Durable, None);
        }
        return;
      }
      if a.terms != r.terms || a.verifier != r.envelope.verifier {
        return Failed(BindingRejected);
      }
      if a.state != ISSUED {
        var code := if a.state == CONSUME_PENDING then "" else a.code;
        match a.state {
          case CONSUME_PENDING =>
            out := Reported(Some(CLAIMED), a.state, code, InProgress, if a.owner.Some? then Some(a.owner.value.cid)
                                                                      else None);
          case CONSUMED => out := Reported(Some(INTENT_CONSUMED), a.state, code, Durable, None);
          case CONSUME_UNKNOWN => out := Reported(Some(UNKNOWN), a.state, code, OutcomeUnknown, None);
          case _ => out := Reported(Some(ABORTED), a.state, code, TerminalOutcome, None);
        }
        return;
      }
      var live := FindLive(r.aid);
      assert live.Some? ==> IntentOk(l, live.value);
      if a.expires <= now {
        if live.Some? && intents[live.value].state == CLAIMED {
          out := Reported(Some(CLAIMED), CONSUME_PENDING, "", InProgress, live);
        } else {
          out := StopExpired(r.aid, a, live);
        }
        return;
      }
      if live.Some? {
        return Reported(Some(intents[live.value].state), a.state, "", InProgress, live);
      }
      intents := intents[r.cid := Intent(r.aid, r.rid, r.terms, Identity(r.consumer), PENDING, "")];
      return Reported(Some(PENDING), ISSUED, "", Fresh, None);
    }

    /** The live intent of an authorization. On a well-formed ledger there is at most one to choose. */
    method FindLive(aid: Id) returns (live: Option<Id>)
      requires Inv(View())
      ensures live == if aid in auths && Live(auths[aid].state) then IntentOf(View(), aid) else None
    {
      live := None;
      if c :| c in intents && intents[c].auth == aid && LiveIntent(intents[c].state) {
        assert IntentOk(View(), c);
        IntentOfIs(View(), c, aid);
        live := Some(c);
      } else {
        assert IntentOf(View(), aid).Some? ==> IntentOk(View(), IntentOf(View(), aid).value);
      }
    }

    method StopExpired(aid: Id, a: Auth, live: Option<Id>) returns (out: Outcome)
      requires Inv(View()) && aid in auths && auths[aid] == a && a.state == ISSUED && live == IntentOf(View(), aid)
      modifies this`auths, this`intents
      ensures View() == Do(old(View()), Some(Stop(aid, EXPIRED, "EXPIRED"))) && out == EXPIRED_OUTCOME
    {
      ghost var l := View();
      assert AuthOk(l, aid);
      auths := auths[aid := a.(state := EXPIRED, code := "EXPIRED")];
      if live.Some? {
        var i := intents[live.value];
        assert IntentOk(l, live.value);
        TwoWrites(l, aid, auths[aid], live.value, i.(state := ABORTED, code := "EXPIRED"));
        intents := intents[live.value := i.(state := ABORTED, code := "EXPIRED")];
      } else {
        OneWrite(l, aid, auths[aid]);
      }
      out := EXPIRED_OUTCOME;
    }

    method ClaimConsume(r: ConsumeRequest, now: int, fate: Fate) returns (out: Outcome)
      requires Inv(View())
      modifies this
      ensures pinned == old(pinned)
      ensures old(pinned == 0) ==> View() == old(View()) && out == Failed(NoAuthority)
      ensures old(pinned != 0) ==> (View(), out) == End(old(View()), ClaimDecision(old(View()), r, now), fate)
    {
      if pinned == 0 {
        return Failed(NoAuthority);
      }
      var before := View();
      out := ClaimStatements(r, now);
      if out.Failed? || fate == LostBefore {
        Restore(before);
      }
      out := Acknowledge(out, fate);
    }

    method ClaimStatements(r: ConsumeRequest, now: int) returns (out: Outcome)
      requires Inv(View())
      modifies this`auths, this`intents
      ensures var d := ClaimDecision(old(View()), r, now);
              out == d.outcome && (!out.Failed? ==> View() == Do(old(View()), d.move))
    {
      ghost var l := View();
      if r.envelope.nonce != r.terms.nonce {
        return Failed(BindingRejected);
      }
      if r.aid !in auths || auths[r.aid].request != r.rid {
        return Failed(AuthNotFound);
      }
      var a := auths[r.aid];
      if a.terms != r.terms {
        return Failed(BindingRejected);
      }
      if r.cid !in intents {
        return Failed(RequestNotFound);
      }
      var i := intents[r.cid];
      assert IntentOk(l, r.cid) && AuthOk(l, i.auth);
      if i.auth != r.aid || i.request != r.rid || i.terms != r.terms {
        return Failed(RequestBindingMismatch);
      }
      IntentOfIs(l, r.cid, r.aid);
      if i.state == PENDING {
        var parent, child := a, i;
        if a.state != ISSUED {
          var code := if a.state == CONSUME_PENDING then "CONSUME_ALREADY_CLAIMED" else "AUTHORIZATION_TERMINAL";
          child := i.(state := ABORTED, code := code);
          out := Reported(Some(ABORTED), a.state, code, Fresh, None);
        } else if a.owner.Some? {
          out := Failed(Corrupt);
        } else if a.expires <= now {
          parent, child := a.(state := EXPIRED, code := "EXPIRED"), i.(state := ABORTED, code := "EXPIRED");
          out := EXPIRED_OUTCOME;
        } else {
          parent := a.(state := CONSUME_PENDING, owner := Some(Owner(r.cid, r.rid, i.terms)));
          child := i.(state := CLAIMED);
          out := Reported(Some(CLAIMED), CONSUME_PENDING, "", Fresh, None);
        }
        WriteBoth(r.aid, parent, r.cid, child);
        return;
      }
      if i.state == CLAIMED && (a.state != CONSUME_PENDING || a.owner != Some(Owner(r.cid, r.rid, i.terms))) {
        out := Failed(Corrupt);
      } else {
        out := Reported(Some(i.state), a.state, "", Fresh, None);
      }
    }

    method FinalizeConsume(aid: Id, cid: Id, fate: Fate) returns (out: Outcome)
      requires Inv(View())
      modifies this
      ensures pinned == old(pinned)
      ensures old(pinned == 0) ==> View() == old(View()) && out == Failed(UnknownCommit)
      ensures old(pinned != 0) ==> (View(), out) == End(old(View()), FinalizeDecision(old(View()), aid, cid), fate)
    {
      if pinned == 0 {
        return Failed(UnknownCommit);
      }
      var before := View();
      out := FinalizeStatements(aid, cid);
      if out.Failed? || fate == LostBefore {
        Restore(before);
      }
      out := Acknowledge(out, fate);
    }

    method FinalizeStatements(aid: Id, cid: Id) returns (out: Outcome)
      requires Inv(View())
      modifies this`auths, this`intents
      ensures var d := FinalizeDecision(old(View()), aid, cid);
              out == d.outcome && (!out.Failed? ==> View() == Do(old(View()), d.move))
    {
      ghost var l := View();
      if aid !in auths {
        return Failed(UnknownCommit);
      }
      var a := auths[aid];
      if cid !in intents || intents[cid].auth != aid || intents[cid].request != a.request {
        assert IntentOk(l, cid);
        return Failed(UnknownCommit);
      }
      var i := intents[cid];
      assert IntentOk(l, cid) && AuthOk(l, aid);
      if a.state != CONSUME_PENDING || i.state != CLAIMED || i.terms != a.terms {
        return Failed(UnknownCommit);
      }
      if a.owner != Some(Owner(cid, a.request, a.terms)) {
        out := Failed(UnknownCommit);
      } else {
        auths := auths[aid := a.(state := CONSUMED, code := "CONSUMED")];
        TwoWrites(l, aid, auths[aid], cid, i.(state := INTENT_CONSUMED, code := "CONSUMED"));
        intents := intents[cid := i.(state := INTENT_CONSUMED, code := "CONSUMED")];
        out := CONSUMED_OUTCOME;
      }
    }

    /** Steps that others take between two transactions of this process. */
    method Interfere(others: seq<Move>)
      requires Inv(View())
      modifies this`epoch, this`requests, this`auths, this`intents
      ensures View() == DoAll(old(View()), others) && Inv(View())
    {
      for i := 0 to |others|
        invariant View() == DoAll(old(View()), others[..i]) && Inv(View())
      {
        assert others[..i + 1][..i] == others[..i];
        DoKeepsInv(View(), Some(others[i]));
        var next := Do(View(), Some(others[i]));
        epoch, requests, auths, intents := next.epoch, next.requests, next.auths, next.intents;
      }
      assert others[..|others|] == others;
    }

    /** The three transactions in turn, with whatever others do in between. */
    method Consume(r: ConsumeRequest, w: Weather) returns (out: Outcome)
      requires Inv(View())
      modifies this
      ensures pinned == old(pinned) && Inv(View())
      ensures old(pinned == 0 || pinned != epoch) ==> View() == old(View()) && out == Failed(UnknownCommit)
      ensures old(pinned == epoch != 0) ==> (View(), out) == Consumption(old(View()), r, w)
    {
      EndKeepsInv(View(), Begin(View(), r, w.begunAt), w.begun);
      out := BeginConsume(r, w.begunAt, w.begun);
      if out.Failed? {
        return if out.reason == NoAuthority then Failed(UnknownCommit) else out;
      }
      if out.pending.Some? || (out.detail != Fresh && out.intent != Some(PENDING)) {
        return;
      }
      Interfere(w.beforeClaim);
      EndKeepsInv(View(), ClaimDecision(View(), r, w.claimedAt), w.claimed);
      out := ClaimConsume(r, w.claimedAt, w.claimed);
      if out.Failed? || out.intent != Some(CLAIMED) {
        return;
      }
      Interfere(w.beforeFinalize);
      EndKeepsInv(View(), FinalizeDecision(View(), r.aid, r.cid), w.finalized);
      out := FinalizeConsume(r.aid, r.cid, w.finalized);
    }

    method ResolveConsume(r: ResolveRequest, recovery: bool, now: int, fate: Fate) returns (out: Outcome)
      requires Inv(View())
      modifies this
      ensures pinned == old(pinned)
      ensures old(pinned == 0 || pinned != epoch) ==> View() == old(View()) && out == Failed(NoAuthority)
      ensures old(pinned == epoch != 0) ==>
                (View(), out) == End(old(View()), Resolve(old(View()), r, recovery, now), fate)
    {
      if pinned == 0 || pinned != epoch {
        return Failed(NoAuthority);
      }
      var before := View();
      out := ResolveStatements(r, recovery, now);
      if out.Failed? || fate == LostBefore {
        Restore(before);
      }
      out := Acknowledge(out, fate);
    }

    method ResolveStatements(r: ResolveRequest, recovery: bool, now: int) returns (out: Outcome)
      requires Inv(View())
      modifies this`auths, this`intents
      ensures var d := Resolve(old(View()), r, recovery, now);
              out == d.outcome && (!out.Failed? ==> View() == Do(old(View()), d.move))
    {
      ghost var l := View();
      if r.aid !in auths || auths[r.aid].request != r.rid {
        return Failed(AuthNotFound);
      }
      if r.cid.None? && !recovery {
        return Failed(ConsumeIdRequired);
      }
      var a := auths[r.aid];
      var cid := r.cid;
      if cid.None? {
        cid := FindLive(r.aid);
        assert cid.Some? ==> IntentOk(l, cid.value);
        if cid.Some? && intents[cid.value].terms != r.terms {
          cid := None;
        }
      }
      if cid.None? || cid.value !in intents {
        return Failed(RequestNotFound);
      }
      var i := intents[cid.value];
      assert IntentOk(l, cid.value) && AuthOk(l, i.auth);
      if i.auth != r.aid || i.request != r.rid || i.terms != r.terms {
        return Failed(BindingRejected);
      }
      if !recovery && i.consumer != Identity(r.consumer) {
        return Failed(OwnerRejected);
      }
      hide Reconciled;
      out := Reconcile(r, a, cid.value, i, now);
    }

    /** Ends a live pair: a pending one is revoked or expired, a claimed one becomes unknown. */
    method Reconcile(r: ResolveRequest, a: Auth, cid: Id, i: Intent, now: int) returns (out: Outcome)
      requires Inv(View()) && IsIntentOf(View(), cid, r.aid) && i == intents[cid] && AuthOf(View(), r.aid, r.rid)
      requires a == auths[r.aid] && i.terms == r.terms
      modifies this`auths, this`intents
      ensures var d := Reconciled(a, r.aid, cid, now); out == d.outcome && View() == Do(old(View()), d.move)
    {
      ghost var l := View();
      assert IntentOk(l, cid) && AuthOk(l, r.aid);
      IntentOfIs(l, cid, r.aid);
      var parent, child := a, i;
      if a.terms != r.terms {
        out := Failed(BindingRejected);
      } else if i.state == PENDING && (a.state != ISSUED || a.owner.Some?) {
        out := Failed(BindingRejected);
      } else if i.state in {CLAIMED, INTENT_CONSUMED, UNKNOWN} && a.owner != Some(Owner(cid, r.rid, r.terms)) {
        out := Failed(BindingRejected);
      } else if i.state == PENDING {
        var state, code := REVOKED, RESOLVED;
        if a.expires <= now {
          state, code := EXPIRED, "EXPIRED";
        }
        parent, child := a.(state := state, code := code), i.(state := ABORTED, code := code);
        out := Reported(Some(ABORTED), state, code, Fresh, Some(cid));
      } else if i.state == CLAIMED {
        if a.state == CONSUMED {
          child := i.(state := INTENT_CONSUMED, code := "CONSUMED");
          out := Reported(Some(INTENT_CONSUMED), CONSUMED, "CONSUMED", Fresh, Some(cid));
        } else if a.state == CONSUME_PENDING {
          parent, child := a.(state := CONSUME_UNKNOWN, code := LOST), i.(state := UNKNOWN, code := LOST);
          out := Reported(Some(UNKNOWN), CONSUME_UNKNOWN, LOST, Fresh, Some(cid));
        } else {
          out := Failed(Corrupt);
        }
      } else {
        out := Reported(Some(i.state), a.state, a.code, Fresh, Some(cid));
      }
      if parent != a || child != i {
        WriteBoth(r.aid, parent, cid, child);
      }
    }

    method WriteBoth(aid: Id, a: Auth, cid: Id, i: Intent)
      requires Inv(View()) && IsIntentOf(View(), cid, aid)
      requires i == intents[cid].(state := Mirror(a.state), code := a.code)
      modifies this`auths, this`intents
      ensures View() == Settle(old(View()), aid, a)
    {
      TwoWrites(View(), aid, a, cid, i);
      auths := auths[aid := a];
      intents := intents[cid := i];
    }

    method ChangeLifecycle(aid: Id, rid: Id, action: Action, now: int, fate: Fate) returns (out: Outcome)
      requires Inv(View())
      modifies this
      ensures pinned == old(pinned)
      ensures old(pinned == 0 || pinned != epoch) ==> View() == old(View()) && out == Failed(NoAuthority)
      ensures old(pinned == epoch != 0) ==>
                (View(), out) == End(old(View()), Lifecycle(old(View()), aid, rid, action, now), fate)
    {
      if pinned == 0 || pinned != epoch {
        return Failed(NoAuthority);
      }
      var before := View();
      out := LifecycleStatements(aid, rid, action, now);
      if out.Failed? || fate == LostBefore {
        Restore(before);
      }
      out := Acknowledge(out, fate);
    }

    method LifecycleStatements(aid: Id, rid: Id, action: Action, now: int) returns (out: Outcome)
      requires Inv(View())
      modifies this`auths, this`intents
      ensures var d := Lifecycle(old(View()), aid, rid, action, now);
              out == d.outcome && (!out.Failed? ==> View() == Do(old(View()), d.move))
    {
      ghost var l := View();
      if aid !in auths || auths[aid].request != rid {
        return Failed(AuthNotFound);
      }
      var a := auths[aid];
      assert AuthOk(l, aid);
      var reason, code := REVOKED, "REVOKED";
      if action == Expire {
        reason, code := EXPIRED, "EXPIRED";
      }
      var live := FindLive(aid);
      if live.Some? {
        var i := intents[live.value];
        assert IntentOk(l, live.value);
        if (action == Expire && now < a.expires) || i.state == CLAIMED {
          return Reported(Some(i.state), a.state, a.code, InProgress, live);
        }
        var settled := if a.state == ISSUED then a.(state := reason, code := code) else a;
        WriteBoth(aid, settled, live.value, i.(state := ABORTED, code := code));
        return Reported(Some(ABORTED), settled.state, settled.code, InProgress, live);
      }
      if a.state != ISSUED || (action == Expire && now < a.expires) {
        return Reported(None, a.state, a.code, Fresh, None);
      }
      OneWrite(l, aid, a.(state := reason, code := code));
      auths := auths[aid := a.(state := reason, code := code)];
      return Reported(None, reason, code, Fresh, None);
    }

    method Issue(r: IssueRequest, aid: Id, nonce: nat, verifier: nat, now: int, fate: Fate) returns (out: Outcome)
      requires Inv(View())
      modifies this
      ensures pinned == old(pinned)
      ensures old(pinned == 0 || pinned != epoch) ==> View() == old(View()) && out == Failed(NoAuthority)
      ensures old(pinned == epoch != 0) ==>
                (View(), out) == End(old(View()), IssueDecision(old(View()), r, aid, nonce, verifier, now), fate)
    {
      if pinned == 0 || pinned != epoch {
        return Failed(NoAuthority);
      }
      var before := View();
      out := IssueStatements(r, aid, nonce, verifier, now);
      if out.Failed? || fate == LostBefore {
        Restore(before);
      }
      out := Acknowledge(out, fate);
    }

    method IssueStatements(r: IssueRequest, aid: Id, nonce: nat, verifier: nat, now: int) returns (out: Outcome)
      requires Inv(View())
      modifies this`requests, this`auths
      ensures var d := IssueDecision(old(View()), r, aid, nonce, verifier, now);
              out == d.outcome && (!out.Failed? ==> View() == Do(old(View()), d.move))
    {
      ghost var l := View();
      assert RequestOk(l, r.rid);
      if !WellFormed(r) {
        return Failed(BadRequest);
      }
      var inserted := r.rid !in requests;
      if inserted {
        if !NewAttempt(View(), r.attempt) {
          return Failed(AttemptConflict);
        }
        requests := requests[r.rid := Request(r.attempt, REQUESTED, None)];
      }
      var q := requests[r.rid];
      if q.attempt != r.attempt {
        return Failed(IdentityConflict);
      }
      if q.state != REQUESTED {
        if q.state == REQUEST_ISSUED && q.auth.Some? {
          if q.auth.value in auths && SameTerms(auths[q.auth.value].terms, r) {
            return Known(q.auth.value, auths[q.auth.value].state);
          }
          return Failed(BindingRejected);
        }
        return Closed(q.state);
      }
      if !inserted {
        q, out := q.(state := TERMINAL), Closed(TERMINAL);
      } else if epoch == 0 {
        return Failed(EpochUnavailable);
      } else if aid in auths {
        return Failed(Corrupt);
      } else {
        auths := auths[aid := Auth(r.rid, Fill(epoch, nonce, r), verifier, now + r.ttl, ISSUED, None, "")];
        q, out := q.(state := REQUEST_ISSUED, auth := Some(aid)), Minted(aid, now + r.ttl);
      }
      requests := requests[r.rid := q];
    }

    method ResolveIssue(rid: Id, attempt: Id, fate: Fate) returns (out: Outcome)
      requires Inv(View())
      modifies this
      ensures pinned == old(pinned)
      ensures old(pinned == 0 || pinned != epoch) ==> View() == old(View()) && out == Failed(NoAuthority)
      ensures old(pinned == epoch != 0) ==>
                (View(), out) == End(old(View()), ResolveIssueDecision(old(View()), rid, attempt), fate)
    {
      if pinned == 0 || pinned != epoch {
        return Failed(NoAuthority);
      }
      var before := View();
      out := ResolveIssueStatements(rid, attempt);
      if out.Failed? || fate == LostBefore {
        Restore(before);
      }
      out := Acknowledge(out, fate);
    }

    method ResolveIssueStatements(rid: Id, attempt: Id) returns (out: Outcome)
      requires Inv(View())
      modifies this`requests, this`auths, this`intents
      ensures var d := ResolveIssueDecision(old(View()), rid, attempt);
              out == d.outcome && (!out.Failed? ==> View() == Do(old(View()), d.move))
    {
      ghost var l := View();
      assert RequestOk(l, rid);
      if rid !in requests {
        if !NewAttempt(View(), attempt) {
          return Failed(Corrupt);
        }
        requests := requests[rid := Request(attempt, CANCELLED, None)];
        return Closed(CANCELLED);
      }
      var q := requests[rid];
      if q.state == REQUESTED {
        q := q.(state := TERMINAL);
      }
      requests := requests[rid := q];
      assert requests == l.requests;
      if q.auth.None? {
        return Closed(q.state);
      }
      if q.auth.value !in auths {
        out := Failed(Corrupt);
        return;
      }
      var a := auths[q.auth.value];
      assert AuthOk(l, q.auth.value);
      var live := FindLive(q.auth.value);
      if live.Some? {
        var i := intents[live.value];
        assert IntentOk(l, live.value);
        var child := i;
        if !Live(a.state) {
          child := i.(state := if i.state == CLAIMED then UNKNOWN else ABORTED, code := "AUTHORITY_TERMINAL_CHILD");
          out := Reported(Some(child.state), a.state, child.code, TerminalOutcome, live);
        } else {
          out := Reported(Some(i.state), a.state, "", InProgress, live);
        }
        intents := intents[live.value := child];
        assert intents == l.intents;
        return;
      }
      if a.state != ISSUED {
        return Reported(None, a.state, "", Fresh, None);
      }
      OneWrite(l, q.auth.value, a.(state := REVOKED, code := UNAVAILABLE));
      auths := auths[q.auth.value := a.(state := REVOKED, code := UNAVAILABLE)];
      return Reported(None, REVOKED, UNAVAILABLE, Fresh, None);
    }

    /** Starts a new authority epoch: the bulk updates run in order, parents before children. */
    method AcquireAuthority(next: nat, lockOwned: bool, fate: Fate) returns (acquired: bool)
      requires Inv(View()) && next > epoch
      modifies this
      ensures View() == if lockOwned && fate != LostBefore then Apply(old(View()), Takeover(next)) else old(View())
      ensures acquired <==> lockOwned && fate == Committed
      ensures pinned == if acquired then next else old(pinned)
    {
      if !lockOwned {
        return false;
      }
      var before := View();
      PoisonStatements();
      epoch := next;
      if fate == LostBefore {
        Restore(before);
      }
      acquired := fate == Committed;
      if acquired {
        pinned := next;
      }
    }

    method PoisonStatements()
      requires Inv(View())
      modifies this`requests, this`auths, this`intents
      ensures View().(epoch := old(epoch) + 1) == Apply(old(View()), Takeover(old(epoch) + 1))
    {
      ghost var l := View();
      PoisonParents();
      assert forall c <- intents :: HasParent(auths, intents[c]) && !Live(auths[intents[c].auth].state) by {
        hide Inv;
        ParentsAreDone(l, auths);
      }
      PoisonChildren();
    }

    method PoisonParents()
      requires Inv(View())
      modifies this`requests, this`auths
      ensures requests == old(requests)
      ensures auths == Apply(old(View()), Takeover(old(epoch) + 1)).auths
    {
      ghost var l := View();
      forall r | r in requests ensures requests[r].state != REQUESTED { assert RequestOk(l, r); }
      hide Inv;
      requests := map r | r in requests :: Ended(requests[r]);
      assert requests == l.requests;
      auths := map a | a in auths :: RevokedIfIssued(auths[a]);
      auths := map a | a in auths :: UnknownIfPending(auths[a]);
    }

    method PoisonChildren()
      requires forall c <- intents :: HasParent(auths, intents[c]) && !Live(auths[intents[c].auth].state)
      modifies this`intents
      ensures intents == Apply(old(View()), Takeover(old(epoch) + 1)).intents
    {
      ChildrenPoisoned(auths, intents);
      intents := AbortedIfStale(auths, intents);
      intents := UnknownIfClaimed(auths, intents);
    }
  }
}
