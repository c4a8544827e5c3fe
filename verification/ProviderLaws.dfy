/**
 What each call of the store leaves in the rows and what it says about them, stated on the rows before and after it.
 Over runs of calls: every report is the truth, and what was reported as ended is never consumed later.
 */
module ProviderLaws {
  import opened Common
  import opened ProviderLedger
  import opened ProviderStore
  import opened ProviderRuns
  import opened ProviderConsumption

  // ----- Reports -----

  /** The authorization that a call is about, as the rows stand. */
  function Subject(l: Ledger, c: Call): Option<Id> {
    match c
    case BeginCall(r, _, _) => Some(r.aid)
    case ClaimCall(r, _, _) => Some(r.aid)
    case FinalizeCall(aid, _, _) => Some(aid)
    case ResolveCall(r, _, _, _) => Some(r.aid)
    case LifecycleCall(aid, _, _, _, _) => Some(aid)
    case IssueCall(r, _, _, _, _, _) => if r.rid in l.requests then l.requests[r.rid].auth else None
    case ResolveIssueCall(rid, _, _) => if rid in l.requests then l.requests[rid].auth else None
    case AcquireCall(_, _) => None
  }

  /** The reported states are those of the authorization and of its intent, and no live intent goes unreported. */
  ghost predicate TrueOf(l: Ledger, aid: Id, out: Outcome)
    requires out.Reported?
  {
    && aid in l.auths && l.auths[aid].state == out.auth && (out.code == "" || out.code == l.auths[aid].code)
    && (out.pending.Some? ==> IsIntentOf(l, out.pending.value, aid))
    && (forall c <- l.intents :: l.intents[c].auth == aid ==>
          if out.intent.Some? then l.intents[c].state == out.intent.value else !LiveIntent(l.intents[c].state))
  }

  /** The request that an issuer's call is about has no authorization and is in this state. */
  predicate ClosedAs(l: Ledger, c: Call, state: RequestState) {
    var rid := if c.IssueCall? then c.issue.rid else if c.ResolveIssueCall? then c.rid else 0;
    (c.IssueCall? || c.ResolveIssueCall?) && rid in l.requests && l.requests[rid].state == state
    && l.requests[rid].auth.None?
  }

  predicate BoundAs(t: Terms, r: IssueRequest) {
    && t.attempt == r.attempt && t.operation == r.operation && t.target == r.target && t.installer == r.installer
    && t.evidence == r.evidence && t.scope == r.scope
  }

  ghost predicate Truthful(l: Ledger, c: Call, out: Outcome) {
    match out
    case Failed(_) => true
    case Reported(_, _, _, _, _) => Subject(l, c).Some? && TrueOf(l, Subject(l, c).value, out)
    case Minted(aid, expires) =>
      && c.IssueCall? && Subject(l, c) == Some(aid) && aid in l.auths && l.auths[aid].state == ISSUED
      && l.auths[aid].expires == expires && BoundAs(l.auths[aid].terms, c.issue)
    case Known(aid, state) =>
      && c.IssueCall? && Subject(l, c) == Some(aid) && aid in l.auths && l.auths[aid].state == state
      && BoundAs(l.auths[aid].terms, c.issue)
    case Closed(state) => ClosedAs(l, c, state)
    case Acquired(epoch) => l.epoch == epoch && forall a <- l.auths :: !Live(l.auths[a].state)
  }

  /** On well-formed rows it is enough to compare the report with the authorization. */
  lemma ReportIsTrue(l: Ledger, aid: Id, out: Outcome)
    requires Inv(l) && out.Reported? && aid in l.auths && l.auths[aid].state == out.auth
    requires out.code == "" || out.code == l.auths[aid].code
    requires out.pending.Some? ==> IsIntentOf(l, out.pending.value, aid)
    requires if out.intent.Some? then out.intent.value == Mirror(out.auth) else !Live(out.auth) || !HasIntent(l, aid)
    ensures TrueOf(l, aid, out)
  {
    forall c | c in l.intents && l.intents[c].auth == aid
      ensures if out.intent.Some? then l.intents[c].state == out.intent.value else !LiveIntent(l.intents[c].state)
    {
      assert IntentOk(l, c);
    }
  }

  lemma ConsumeReports(l: Ledger, c: Call)
    requires Inv(l) && (c.BeginCall? || c.ClaimCall? || c.FinalizeCall?)
    ensures var (n, out) := End(l, Decided(l, c), c.fate); Truthful(n, c, out)
  {
    var (n, out) := End(l, Decided(l, c), c.fate);
    EndKeepsInv(l, Decided(l, c), c.fate);
    match c
    case BeginCall(r, now, fate) =>
      BeginReportsTruth(l, r, now, fate);
      BeginNames(l, r, now, fate);
      if out.Reported? { ReportIsTrue(n, r.aid, out); }
    case ClaimCall(r, now, fate) =>
      ClaimReportsTruth(l, r, now, fate);
      if out.Reported? { ReportIsTrue(n, r.aid, out); }
    case FinalizeCall(aid, cid, fate) =>
      FinalizeReportsTruth(l, aid, cid, fate);
      if out.Reported? { ReportIsTrue(n, aid, out); }
  }

  lemma BeginNames(l: Ledger, r: ConsumeRequest, now: int, fate: Fate)
    requires Inv(l)
    ensures var (n, out) := End(l, Begin(l, r, now), fate);
            out.Reported? ==>
              && r.aid in n.auths && (out.code == "" || out.code == n.auths[r.aid].code)
              && (out.pending.Some? ==> IsIntentOf(n, out.pending.value, r.aid))
  {
    assert AuthOk(l, r.aid);
  }

  lemma ReconciledReports(l: Ledger, aid: Id, cid: Id, now: int)
    requires Inv(l) && IsIntentOf(l, cid, aid)
    ensures aid in l.auths
    ensures var d := Reconciled(l.auths[aid], aid, cid, now);
            d.outcome.Reported? && TrueOf(Do(l, d.move), aid, d.outcome)
  {
    assert IntentOk(l, cid) && AuthOk(l, aid);
    var d := Reconciled(l.auths[aid], aid, cid, now);
    DoKeepsInv(l, d.move);
    ReportIsTrue(Do(l, d.move), aid, d.outcome);
  }

  lemma ResolveReports(l: Ledger, c: Call)
    requires Inv(l) && c.ResolveCall?
    ensures var (n, out) := End(l, Decided(l, c), c.fate); Truthful(n, c, out)
  {
    var r := c.resolve;
    hide Reconciled, Inv, IntentOf, Resolve, TrueOf;
    ResolveFinds(l, r, c.recovery, c.now);
    if d: Id :| (AuthOf(l, r.aid, r.rid) && Resolvable(l, r, c.recovery, d)
                 && Resolve(l, r, c.recovery, c.now) == Reconciled(l.auths[r.aid], r.aid, d, c.now)) {
      ReconciledReports(l, r.aid, d, c.now);
    }
  }

  lemma LifecycleReports(l: Ledger, c: Call)
    requires Inv(l) && c.LifecycleCall?
    ensures var (n, out) := End(l, Decided(l, c), c.fate); Truthful(n, c, out)
  {
    assert forall d :: IntentOk(l, d);
    var found := IntentOf(l, c.aid);
    if found.Some? { assert IntentOk(l, found.value); }
  }

  lemma IssueReports(l: Ledger, c: Call)
    requires Inv(l) && c.IssueCall?
    ensures var (n, out) := End(l, Decided(l, c), c.fate); Truthful(n, c, out)
  {
    assert RequestOk(l, c.issue.rid);
    if c.issue.rid in l.requests && l.requests[c.issue.rid].auth.Some? {
      assert AuthOk(l, l.requests[c.issue.rid].auth.value);
    }
  }

  lemma ResolveIssueReports(l: Ledger, c: Call)
    requires Inv(l) && c.ResolveIssueCall?
    ensures var (n, out) := End(l, Decided(l, c), c.fate); Truthful(n, c, out)
  {
    var (n, out) := End(l, Decided(l, c), c.fate);
    EndKeepsInv(l, Decided(l, c), c.fate);
    assert RequestOk(l, c.rid);
    if out.Reported? { ReportIsTrue(n, Subject(n, c).value, out); }
  }

  lemma AcquireReports(l: Ledger, c: Call)
    requires Inv(l) && c.AcquireCall?
    ensures var (n, out) := End(l, Decided(l, c), c.fate); Truthful(n, c, out)
  {
    if c.successor > l.epoch { TakeoverChanges(l, c.successor); }
  }

  lemma CallReports(l: Ledger, c: Call)
    requires Inv(l)
    ensures var (n, out) := End(l, Decided(l, c), c.fate); Truthful(n, c, out)
  {
    hide Decided, End, Inv, Truthful;
    match c
    case ResolveCall(_, _, _, _) => ResolveReports(l, c);
    case LifecycleCall(_, _, _, _, _) => LifecycleReports(l, c);
    case IssueCall(_, _, _, _, _, _) => IssueReports(l, c);
    case ResolveIssueCall(_, _, _) => ResolveIssueReports(l, c);
    case AcquireCall(_, _) => AcquireReports(l, c);
    case _ => ConsumeReports(l, c);
  }

  /** In every run of calls, an answer that is no failure says what the rows are when it is given. */
  lemma AnswersAreTrue(calls: seq<Call>, n: nat)
    requires n < |calls|
    ensures Truthful(AfterCalls(calls[..n + 1]), calls[n], Answer(calls, n))
  {
    CallAt(calls, n);
    CallReports(AfterCalls(calls[..n]), calls[n]);
  }

  // ----- What a call changes -----

  /** Exactly one authorization ended, together with its intent if it has one. */
  ghost predicate EndedAs(l: Ledger, n: Ledger, aid: Id, state: AuthState, child: IntentState, code: string) {
    && aid in l.auths && n.epoch == l.epoch && n.requests == l.requests && n.intents.Keys == l.intents.Keys
    && n.auths == l.auths[aid := l.auths[aid].(state := state, code := code)]
    && (forall c <- l.intents :: n.intents[c] == if l.intents[c].auth == aid
                                                 then l.intents[c].(state := child, code := code) else l.intents[c])
  }

  /** Revocation and expiry end an ISSUED authorization, an expiry only once it is due, and change nothing else. */
  lemma LifecycleChanges(l: Ledger, aid: Id, rid: Id, action: Action, now: int, fate: Fate)
    requires Inv(l)
    ensures var (n, out) := End(l, Lifecycle(l, aid, rid, action, now), fate);
            && (n != l <==> && AuthOf(l, aid, rid) && l.auths[aid].state == ISSUED
                            && (action == Expire ==> l.auths[aid].expires <= now) && fate != LostBefore)
            && (n != l ==> if action == Expire then EndedAs(l, n, aid, EXPIRED, ABORTED, "EXPIRED")
                           else EndedAs(l, n, aid, REVOKED, ABORTED, "REVOKED"))
            && (out.Failed? <==> !AuthOf(l, aid, rid) || fate != Committed)
  {
  }

  /** The intent that a resolution may settle: the one named, its terms repeated, by its consumer or in recovery. */
  ghost predicate Resolvable(l: Ledger, r: ResolveRequest, recovery: bool, cid: Id) {
    && IsIntentOf(l, cid, r.aid) && l.intents[cid].terms == r.terms
    && (if r.cid.Some? then r.cid.value == cid else recovery && LiveIntent(l.intents[cid].state))
    && (recovery || l.intents[cid].consumer == Identity(r.consumer))
  }

  /**
   A resolution succeeds exactly where there is such an intent, and then nothing live is left of the pair: a pending
   one is revoked, or expired once it is due, and a claimed one becomes unknown. Nobody else changes anything.
   */
  lemma ResolveChanges(l: Ledger, r: ResolveRequest, recovery: bool, now: int, fate: Fate)
    requires Inv(l)
    ensures var (n, out) := End(l, Resolve(l, r, recovery, now), fate);
            && (!out.Failed? <==>
                  AuthOf(l, r.aid, r.rid) && (exists c :: Resolvable(l, r, recovery, c)) && fate == Committed)
            && (!out.Failed? ==> !Live(n.auths[r.aid].state))
            && (n != l <==> && AuthOf(l, r.aid, r.rid) && (exists c :: Resolvable(l, r, recovery, c))
                            && Live(l.auths[r.aid].state) && fate != LostBefore)
            && (n != l ==>
                  if l.auths[r.aid].state == CONSUME_PENDING
                  then EndedAs(l, n, r.aid, CONSUME_UNKNOWN, UNKNOWN, "CONSUME_OUTCOME_UNKNOWN")
                  else if l.auths[r.aid].expires <= now then EndedAs(l, n, r.aid, EXPIRED, ABORTED, "EXPIRED")
                  else EndedAs(l, n, r.aid, REVOKED, ABORTED, "PENDING_CONSUME_RESOLVED"))
  {
    hide Inv, Reconciled, Settle, IntentOf, Resolve;
    ResolveFinds(l, r, recovery, now);
    if c: Id :| (AuthOf(l, r.aid, r.rid) && Resolvable(l, r, recovery, c)
                 && Resolve(l, r, recovery, now) == Reconciled(l.auths[r.aid], r.aid, c, now)) {
      ReconciledChanges(l, r.aid, c, now);
    }
  }

  lemma ResolveFinds(l: Ledger, r: ResolveRequest, recovery: bool, now: int)
    requires Inv(l)
    ensures var d := Resolve(l, r, recovery, now);
            if AuthOf(l, r.aid, r.rid) && exists c :: Resolvable(l, r, recovery, c)
            then exists c :: Resolvable(l, r, recovery, c) && d == Reconciled(l.auths[r.aid], r.aid, c, now)
            else d.outcome.Failed? && d.move.None?
  {
    hide Reconciled;
    var c := if r.cid.Some? then r.cid else IntentOf(l, r.aid);
    if c.Some? { assert IntentOk(l, c.value); }
    if d: Id :| Resolvable(l, r, recovery, d) {
      IntentOfIs(l, d, r.aid);
      assert IntentOk(l, d);
      assert c == Some(d);
    } else {
      assert c.Some? ==> !Resolvable(l, r, recovery, c.value);
    }
  }

  lemma ReconciledChanges(l: Ledger, aid: Id, cid: Id, now: int)
    requires Inv(l) && IsIntentOf(l, cid, aid)
    ensures aid in l.auths
    ensures var a := l.auths[aid];
            var d := Reconciled(a, aid, cid, now);
            var n := Do(l, d.move);
            && d.outcome.Reported? && aid in n.auths && !Live(n.auths[aid].state)
            && (n != l <==> Live(a.state))
            && (n != l ==>
                  if a.state == CONSUME_PENDING
                  then EndedAs(l, n, aid, CONSUME_UNKNOWN, UNKNOWN, "CONSUME_OUTCOME_UNKNOWN")
                  else if a.expires <= now then EndedAs(l, n, aid, EXPIRED, ABORTED, "EXPIRED")
                  else EndedAs(l, n, aid, REVOKED, ABORTED, "PENDING_CONSUME_RESOLVED"))
  {
    assert IntentOk(l, cid) && AuthOk(l, aid);
  }

  /** An unknown request gets a tombstone; an ISSUED authorization that nobody presented yet is revoked. */
  lemma ResolveIssueChanges(l: Ledger, rid: Id, attempt: Id, fate: Fate)
    requires Inv(l)
    ensures var (n, out) := End(l, ResolveIssueDecision(l, rid, attempt), fate);
            && (out.Failed? <==> (rid !in l.requests && !NewAttempt(l, attempt)) || fate != Committed)
            && (if rid !in l.requests
                then n == if NewAttempt(l, attempt) && fate != LostBefore
                          then l.(requests := l.requests[rid := Request(attempt, CANCELLED, None)]) else l
                else
                  var a := l.requests[rid].auth;
                  if a.Some? && a.value in l.auths && l.auths[a.value].state == ISSUED && !HasIntent(l, a.value)
                     && fate != LostBefore
                  then EndedAs(l, n, a.value, REVOKED, ABORTED, "SECRET_UNAVAILABLE") else n == l)
  {
    assert RequestOk(l, rid);
    assert forall c :: IntentOk(l, c);
  }

  /** A secret is minted exactly for a well-formed new request and attempt in an epoch, with the rows it asks for. */
  lemma IssueChanges(l: Ledger, r: IssueRequest, aid: Id, nonce: nat, verifier: nat, now: int, fate: Fate)
    requires Inv(l)
    ensures var (n, out) := End(l, IssueDecision(l, r, aid, nonce, verifier, now), fate);
            var mints := && r.scope == "allow_control_catalog_install" && r.ttl > 0 && !Blank(r.operation)
                         && !Blank(r.target) && !Blank(r.installer) && !Blank(r.evidence)
                         && r.rid !in l.requests && NewAttempt(l, r.attempt) && l.epoch > 0 && aid !in l.auths;
            && (out.Minted? <==> mints && fate == Committed) && (n != l <==> mints && fate != LostBefore)
            && (n != l ==>
                  && n.epoch == l.epoch && n.intents == l.intents
                  && n.requests == l.requests[r.rid := Request(r.attempt, REQUEST_ISSUED, Some(aid))]
                  && n.auths.Keys == l.auths.Keys + {aid} && (forall a <- l.auths :: n.auths[a] == l.auths[a])
                  && BoundAs(n.auths[aid].terms, r)
                  && n.auths[aid].terms.epoch == l.epoch && n.auths[aid].terms.nonce == nonce
                  && n.auths[aid].verifier == verifier && n.auths[aid].expires == now + r.ttl
                  && n.auths[aid].state == ISSUED && n.auths[aid].request == r.rid)
  {
    assert AuthOk(l, aid);
  }

  /** What it takes to open a consumption: the bound terms and the secret, in time, with nobody ahead. */
  ghost predicate Presents(l: Ledger, r: ConsumeRequest) {
    && r.envelope.aid == r.aid && r.envelope.epoch == r.terms.epoch && r.envelope.nonce == r.terms.nonce
    && r.terms.scope == "allow_control_catalog_install" && !Blank(r.terms.operation) && !Blank(r.terms.target)
    && !Blank(r.terms.installer) && !Blank(r.terms.evidence)
    && AuthOf(l, r.aid, r.rid) && r.cid !in l.intents && l.auths[r.aid].terms == r.terms
    && l.auths[r.aid].verifier == r.envelope.verifier && l.auths[r.aid].state == ISSUED
  }

  /** BEGIN opens one PENDING intent, or ends a presentation that comes too late, and otherwise changes nothing. */
  lemma BeginChanges(l: Ledger, r: ConsumeRequest, now: int, fate: Fate)
    requires Inv(l)
    ensures var n := End(l, Begin(l, r, now), fate).0;
            if !Presents(l, r) || fate == LostBefore then n == l
            else if l.auths[r.aid].expires <= now then EndedAs(l, n, r.aid, EXPIRED, ABORTED, "EXPIRED")
            else if HasIntent(l, r.aid) then n == l
            else
              && n.epoch == l.epoch && n.requests == l.requests && n.auths == l.auths
              && n.intents.Keys == l.intents.Keys + {r.cid} && (forall c <- l.intents :: n.intents[c] == l.intents[c])
              && n.intents[r.cid] == Intent(r.aid, r.rid, r.terms, Identity(r.consumer), PENDING, "")
  {
  }

  /** CLAIM takes an unexpired pending pair for the request that opened it, and ends an expired one. */
  lemma ClaimChanges(l: Ledger, r: ConsumeRequest, now: int, fate: Fate)
    requires Inv(l)
    ensures var n := End(l, ClaimDecision(l, r, now), fate).0;
            if !(&& r.envelope.nonce == r.terms.nonce && AuthOf(l, r.aid, r.rid) && l.auths[r.aid].terms == r.terms
                 && IsIntentOf(l, r.cid, r.aid) && l.auths[r.aid].state == ISSUED && fate != LostBefore) then n == l
            else if l.auths[r.aid].expires <= now then EndedAs(l, n, r.aid, EXPIRED, ABORTED, "EXPIRED")
            else
              && n.epoch == l.epoch && n.requests == l.requests && n.auths.Keys == l.auths.Keys
              && n.auths[r.aid] ==
                l.auths[r.aid].(state := CONSUME_PENDING, owner := Some(Owner(r.cid, r.rid, r.terms)))
              && (forall a <- l.auths :: a != r.aid ==> n.auths[a] == l.auths[a])
              && n.intents == l.intents[r.cid := l.intents[r.cid].(state := CLAIMED)]
  {
    assert IntentOk(l, r.cid) && AuthOk(l, r.aid);
    if IsIntentOf(l, r.cid, r.aid) && AuthOf(l, r.aid, r.rid) {
      var a := l.auths[r.aid].(state := CONSUME_PENDING, owner := Some(Owner(r.cid, r.rid, r.terms)));
      TwoWrites(l, r.aid, a, r.cid, l.intents[r.cid].(state := CLAIMED, code := a.code));
    }
  }

  /** FINALIZE consumes a claimed pair, and changes nothing else. */
  lemma FinalizeChanges(l: Ledger, aid: Id, cid: Id, fate: Fate)
    requires Inv(l)
    ensures var (n, out) := End(l, FinalizeDecision(l, aid, cid), fate);
            && (n != l <==> IsIntentOf(l, cid, aid) && l.intents[cid].state == CLAIMED && fate != LostBefore)
            && (n != l ==> EndedAs(l, n, aid, CONSUMED, INTENT_CONSUMED, "CONSUMED"))
            && (out == CONSUMED_OUTCOME <==> n != l && fate == Committed)
  {
    assert IntentOk(l, cid);
  }

  /** A new epoch revokes what was issued, makes claimed work unknown, and leaves what had ended as it was. */
  lemma TakeoverChanges(l: Ledger, epoch: nat)
    requires Inv(l) && epoch > l.epoch
    ensures var n := Apply(l, Takeover(epoch));
            && n.epoch == epoch && n.requests == l.requests
            && n.auths.Keys == l.auths.Keys && n.intents.Keys == l.intents.Keys
            && (forall a <- l.auths :: n.auths[a] ==
                  if l.auths[a].state == ISSUED
                  then l.auths[a].(state := REVOKED, code := "AUTHORITY_EPOCH_REPLACED")
                  else if l.auths[a].state == CONSUME_PENDING
                  then l.auths[a].(state := CONSUME_UNKNOWN, code := "AUTHORITY_EPOCH_REPLACED") else l.auths[a])
            && (forall c <- l.intents :: n.intents[c] ==
                  if l.intents[c].state == PENDING
                  then l.intents[c].(state := ABORTED, code := "AUTHORITY_EPOCH_REPLACED")
                  else if l.intents[c].state == CLAIMED
                  then l.intents[c].(state := UNKNOWN, code := "AUTHORITY_EPOCH_REPLACED") else l.intents[c])
  {
  }

  // ----- Refusals -----

  /** The presentation repeats what its envelope and its authorization are bound to, with the right secret. */
  predicate Binds(l: Ledger, r: ConsumeRequest) {
    && r.envelope.aid == r.aid && r.envelope.epoch == r.terms.epoch && r.envelope.nonce == r.terms.nonce
    && r.terms.scope == "allow_control_catalog_install" && !Blank(r.terms.operation) && !Blank(r.terms.target)
    && !Blank(r.terms.installer) && !Blank(r.terms.evidence)
    && (AuthOf(l, r.aid, r.rid) ==> l.auths[r.aid].terms == r.terms && l.auths[r.aid].verifier == r.envelope.verifier)
  }

  /** What a refusal says of the call and the rows. */
  ghost predicate Explains(l: Ledger, c: Call, reason: Reason) {
    match c
    case BeginCall(r, _, _) =>
      || (reason == BindingRejected && !Binds(l, r)) || (reason == AuthNotFound && !AuthOf(l, r.aid, r.rid))
      || (reason == RequestBindingMismatch && r.cid in l.intents
          && l.intents[r.cid] != Intent(r.aid, r.rid, r.terms, Identity(r.consumer), l.intents[r.cid].state,
                                        l.intents[r.cid].code))
    case ClaimCall(r, _, _) =>
      || (reason == BindingRejected && !Binds(l, r)) || (reason == AuthNotFound && !AuthOf(l, r.aid, r.rid))
      || (reason == RequestNotFound && r.cid !in l.intents)
      || (reason == RequestBindingMismatch && r.cid in l.intents && l.intents[r.cid].auth != r.aid)
    case FinalizeCall(aid, cid, _) =>
      reason == UnknownCommit && !(IsIntentOf(l, cid, aid) && l.intents[cid].state == CLAIMED)
    case ResolveCall(r, recovery, _, _) =>
      || (reason == AuthNotFound && !AuthOf(l, r.aid, r.rid))
      || (reason == ConsumeIdRequired && r.cid.None? && !recovery)
      || (reason == RequestNotFound && if r.cid.Some? then r.cid.value !in l.intents
                                       else forall d :: !Resolvable(l, r, recovery, d))
      || (reason == BindingRejected && r.cid.Some? && r.cid.value in l.intents
          && (l.intents[r.cid.value].auth != r.aid || l.intents[r.cid.value].terms != r.terms))
      || (reason == OwnerRejected && !recovery && r.cid.Some? && r.cid.value in l.intents
          && l.intents[r.cid.value].consumer != Identity(r.consumer))
    case LifecycleCall(aid, rid, _, _, _) => reason == AuthNotFound && !AuthOf(l, aid, rid)
    case IssueCall(r, aid, _, _, _, _) =>
      || (reason == BadRequest && !WellFormed(r)) || (reason == EpochUnavailable && l.epoch == 0)
      || (reason == IdentityConflict && r.rid in l.requests && l.requests[r.rid].attempt != r.attempt)
      || (reason == AttemptConflict && exists q <- l.requests :: l.requests[q].attempt == r.attempt && q != r.rid)
      || (reason == BindingRejected && r.rid in l.requests && l.requests[r.rid].auth.Some?
          && l.requests[r.rid].auth.value in l.auths && !BoundAs(l.auths[l.requests[r.rid].auth.value].terms, r))
      || (reason == Corrupt && aid in l.auths)
    case ResolveIssueCall(rid, attempt, _) =>
      reason == Corrupt && exists q <- l.requests :: l.requests[q].attempt == attempt && q != rid
    case AcquireCall(successor, _) => successor <= l.epoch
  }

  lemma ResolveRefusal(l: Ledger, c: Call)
    requires Inv(l) && c.ResolveCall? && Decided(l, c).outcome.Failed?
    ensures Explains(l, c, Decided(l, c).outcome.reason)
  {
    var r := c.resolve;
    ResolveFinds(l, r, c.recovery, c.now);
    if r.cid.None? && HasIntent(l, r.aid) {
      assert IntentOk(l, IntentOf(l, r.aid).value);
    }
  }

  lemma IssueRefusal(l: Ledger, c: Call)
    requires Inv(l) && c.IssueCall? && Decided(l, c).outcome.Failed?
    ensures Explains(l, c, Decided(l, c).outcome.reason)
  {
    assert RequestOk(l, c.issue.rid);
    if c.issue.rid in l.requests && l.requests[c.issue.rid].auth.Some? {
      assert AuthOk(l, l.requests[c.issue.rid].auth.value);
    }
  }

  lemma ConsumeRefusal(l: Ledger, c: Call)
    requires Inv(l) && (c.BeginCall? || c.ClaimCall? || c.FinalizeCall?) && Decided(l, c).outcome.Failed?
    ensures Explains(l, c, Decided(l, c).outcome.reason)
  {
    if c.FinalizeCall? { assert IntentOk(l, c.cid); }
  }

  /** Over every run of calls: a failure has its cause in the rows, unless the commit or its acknowledgement is lost. */
  lemma RefusalIsExplained(calls: seq<Call>, n: nat)
    requires n < |calls| && Answer(calls, n).Failed?
    ensures || Explains(AfterCalls(calls[..n]), calls[n], Answer(calls, n).reason)
            || (calls[n].fate != Committed && Answer(calls, n) == Failed(UnknownCommit))
  {
    CallAt(calls, n);
    hide AfterCalls, Answer, Inv;
    var (l, c) := (AfterCalls(calls[..n]), calls[n]);
    if Decided(l, c).outcome.Failed? { CallRefusal(l, c); }
    hide Decided, Explains;
  }

  lemma CallRefusal(l: Ledger, c: Call)
    requires Inv(l) && Decided(l, c).outcome.Failed?
    ensures Explains(l, c, Decided(l, c).outcome.reason)
  {
    hide Inv, Begin, ClaimDecision, FinalizeDecision, Resolve, IssueDecision;
    match c
    case ResolveCall(_, _, _, _) => ResolveRefusal(l, c);
    case IssueCall(_, _, _, _, _, _) => IssueRefusal(l, c);
    case LifecycleCall(_, _, _, _, _) =>
    case ResolveIssueCall(_, _, _) =>
    case AcquireCall(_, _) =>
    case _ => ConsumeRefusal(l, c);
  }

  // ----- Runs of calls -----

  /** After a resolution that did not fail, the authorization is ISSUED only if a pending intent was reported. */
  lemma ResolvedIssueIsSettled(calls: seq<Call>, n: nat)
    requires n < |calls| && calls[n].ResolveIssueCall? && !Answer(calls, n).Failed?
    ensures var (m, rid, out) := (AfterCalls(calls[..n + 1]), calls[n].rid, Answer(calls, n));
            && rid in m.requests
            && (m.requests[rid].auth.Some? ==>
                  var aid := m.requests[rid].auth.value;
                  && aid in m.auths && out.Reported? && out.auth == m.auths[aid].state
                  && (m.auths[aid].state == ISSUED <==> HasIntent(m, aid) && out.intent == Some(PENDING)))
  {
    CallAt(calls, n);
    AnswersAreTrue(calls, n);
    hide AfterCalls, Answer;
    var l := AfterCalls(calls[..n]);
    ResolveIssueIsStep(l, calls[n].rid, calls[n].attempt);
    assert RequestOk(l, calls[n].rid);
    assert forall d :: IntentOk(l, d);
  }

  /**
   Once any call has reported an authorization as revoked, expired or of unknown outcome, it stays so, and no later
   finalization of it answers CONSUMED.
   */
  lemma ReportedEndIsFinal(calls: seq<Call>, i: nat, j: nat)
    requires i < j < |calls| && Answer(calls, i).Reported?
    requires Answer(calls, i).auth !in {ISSUED, CONSUME_PENDING, CONSUMED}
    ensures var aid := Subject(AfterCalls(calls[..i + 1]), calls[i]);
            && aid.Some? && aid.value in AfterCalls(calls[..j]).auths
            && AfterCalls(calls[..j]).auths[aid.value].state == Answer(calls, i).auth
            && (calls[j].FinalizeCall? && calls[j].aid == aid.value ==> Answer(calls, j) != CONSUMED_OUTCOME)
  {
    AnswersAreTrue(calls, i);
    hide AfterCalls, Answer;
    var aid := Subject(AfterCalls(calls[..i + 1]), calls[i]);
    EndedStays(calls, i + 1, j, aid.value);
    if calls[j].FinalizeCall? && calls[j].aid == aid.value && Answer(calls, j) == CONSUMED_OUTCOME {
      FinalizeAnsweredConsumed(calls, j);
    }
  }
}
