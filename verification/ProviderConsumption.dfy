/** What a caller of the three-transaction consumption can rely on, whatever happens between the transactions. */
module ProviderConsumption {
  import opened Common
  import opened ProviderLedger
  import opened ProviderStore
  import opened ProviderRuns

  // ----- The decisions are steps of the ledger -----

  ghost predicate Sound(l: Ledger, d: Decision) {
    (d.move.Some? ==> Enabled(l, d.move.value)) && (d.outcome.Failed? ==> d.move.None?)
  }

  lemma ConsumeDecisionsAreSteps(l: Ledger, r: ConsumeRequest, now: int)
    requires Inv(l)
    ensures Sound(l, Begin(l, r, now)) && Sound(l, ClaimDecision(l, r, now))
    ensures Sound(l, FinalizeDecision(l, r.aid, r.cid))
  {
  }

  lemma ResolveDecisionsAreSteps(l: Ledger, r: ResolveRequest, recovery: bool, now: int, action: Action)
    requires Inv(l)
    ensures Sound(l, Resolve(l, r, recovery, now)) && Sound(l, Lifecycle(l, r.aid, r.rid, action, now))
  {
  }

  lemma IssueDecisionsAreSteps(l: Ledger, r: IssueRequest, aid: Id, nonce: nat, verifier: nat, now: int, attempt: Id)
    requires Inv(l)
    ensures Sound(l, IssueDecision(l, r, aid, nonce, verifier, now))
    ensures Sound(l, ResolveIssueDecision(l, r.rid, attempt))
    ensures var d := IssueDecision(l, r, aid, nonce, verifier, now);
            (d.outcome.Minted? <==> d.move.Some?) && (d.move.Some? ==> d.move.value.Mint? && d.move.value.rid == r.rid)
    ensures var d := ResolveIssueDecision(l, r.rid, attempt); !d.outcome.Failed? ==> r.rid in Do(l, d.move).requests
  {
  }

  // ----- Calls -----

  /** One transaction of the store, with what became of its commit. */
  datatype Call =
    | BeginCall(r: ConsumeRequest, now: int, fate: Fate)
    | ClaimCall(r: ConsumeRequest, now: int, fate: Fate)
    | FinalizeCall(aid: Id, cid: Id, fate: Fate)
    | ResolveCall(resolve: ResolveRequest, recovery: bool, now: int, fate: Fate)
    | LifecycleCall(aid: Id, rid: Id, action: Action, now: int, fate: Fate)
    | IssueCall(issue: IssueRequest, aid: Id, nonce: nat, verifier: nat, now: int, fate: Fate)
    | ResolveIssueCall(rid: Id, attempt: Id, fate: Fate)
    | AcquireCall(successor: nat, fate: Fate)

  ghost function Decided(l: Ledger, c: Call): Decision {
    match c
    case BeginCall(r, now, _) => Begin(l, r, now)
    case ClaimCall(r, now, _) => ClaimDecision(l, r, now)
    case FinalizeCall(aid, cid, _) => FinalizeDecision(l, aid, cid)
    case ResolveCall(r, recovery, now, _) => Resolve(l, r, recovery, now)
    case LifecycleCall(aid, rid, action, now, _) => Lifecycle(l, aid, rid, action, now)
    case IssueCall(r, aid, nonce, verifier, now, _) => IssueDecision(l, r, aid, nonce, verifier, now)
    case ResolveIssueCall(rid, attempt, _) => ResolveIssueDecision(l, rid, attempt)
    case AcquireCall(successor, _) =>
      if successor > l.epoch then Decision(Some(Takeover(successor)), Acquired(successor))
      else Decision(None, Failed(Corrupt))
  }

  ghost function AfterCalls(calls: seq<Call>): Ledger {
    if calls == [] then NEW
    else var l := AfterCalls(calls[..|calls| - 1]); End(l, Decided(l, Last(calls)), Last(calls).fate).0
  }

  ghost function Answer(calls: seq<Call>, n: nat): Outcome
    requires n < |calls|
  {
    var l := AfterCalls(calls[..n]);
    End(l, Decided(l, calls[n]), calls[n].fate).1
  }

  lemma DecidedIsStep(l: Ledger, c: Call)
    requires Inv(l)
    ensures Sound(l, Decided(l, c))
  {
    hide Begin, ClaimDecision, FinalizeDecision, Resolve, Lifecycle, IssueDecision, ResolveIssueDecision, Inv;
    match c
    case BeginCall(r, now, _) => ConsumeDecisionsAreSteps(l, r, now);
    case ClaimCall(r, now, _) => ConsumeDecisionsAreSteps(l, r, now);
    case FinalizeCall(aid, cid, _) => FinalizeIsStep(l, aid, cid);
    case ResolveCall(r, recovery, now, _) => ResolveDecisionsAreSteps(l, r, recovery, now, Expire);
    case LifecycleCall(aid, rid, action, now, _) => LifecycleIsStep(l, aid, rid, action, now);
    case IssueCall(r, aid, nonce, verifier, now, _) => IssueDecisionsAreSteps(l, r, aid, nonce, verifier, now, 0);
    case ResolveIssueCall(rid, attempt, _) => ResolveIssueIsStep(l, rid, attempt);
    case AcquireCall(_, _) =>
  }

  lemma FinalizeIsStep(l: Ledger, aid: Id, cid: Id)
    ensures Sound(l, FinalizeDecision(l, aid, cid))
  {
  }

  lemma LifecycleIsStep(l: Ledger, aid: Id, rid: Id, action: Action, now: int)
    ensures Sound(l, Lifecycle(l, aid, rid, action, now))
  {
  }

  lemma ResolveIssueIsStep(l: Ledger, rid: Id, attempt: Id)
    ensures Sound(l, ResolveIssueDecision(l, rid, attempt))
    ensures var d := ResolveIssueDecision(l, rid, attempt); !d.outcome.Failed? ==> rid in Do(l, d.move).requests
  {
  }

  /**
   Whatever transactions are attempted, in whatever order and with whatever fate, the ledger is one that a legal
   run of steps reaches, so everything proved about runs holds of it.
   */
  lemma {:induction false} CallsAreARun(calls: seq<Call>) returns (run: seq<Move>)
    ensures Legal(run) && After(run) == AfterCalls(calls)
  {
    hide End, Decided, Enabled, Apply;
    run := [];
    if calls != [] {
      run := CallsAreARun(calls[..|calls| - 1]);
      ReachableInv(run);
      var l, c := After(run), Last(calls);
      DecidedIsStep(l, c);
      var n := End(l, Decided(l, c), c.fate).0;
      EndIsStep(l, Decided(l, c), c.fate);
      if n != l {
        var m := Decided(l, c).move.value;
        assert (run + [m])[..|run|] == run;
        run := run + [m];
      }
    }
  }

  lemma EndIsStep(l: Ledger, d: Decision, fate: Fate)
    requires Sound(l, d)
    ensures || End(l, d, fate).0 == l
            || (d.move.Some? && Enabled(l, d.move.value) && End(l, d, fate).0 == Apply(l, d.move.value))
  {
  }

  lemma {:induction false} RequestsStayKnown(calls: seq<Call>, i: nat, j: nat, rid: Id)
    requires i <= j <= |calls| && rid in AfterCalls(calls[..i]).requests
    ensures rid in AfterCalls(calls[..j]).requests
    decreases j
  {
    hide End, Decided, Enabled, Apply, Inv;
    if i < j {
      RequestsStayKnown(calls, i, j - 1, rid);
      assert calls[..j][..j - 1] == calls[..j - 1];
      var run := CallsAreARun(calls[..j - 1]);
      ReachableInv(run);
      var l := AfterCalls(calls[..j - 1]);
      DecidedIsStep(l, calls[j - 1]);
      EndIsStep(l, Decided(l, calls[j - 1]), calls[j - 1].fate);
      if End(l, Decided(l, calls[j - 1]), calls[j - 1].fate).0 != l {
        StepGrows(l, Decided(l, calls[j - 1]).move.value);
      }
    }
  }

  /** A call that settles the fate of an issuer request: a secret was returned for it, or it was resolved. */
  ghost predicate Settles(calls: seq<Call>, n: nat, rid: Id)
    requires n < |calls|
  {
    || (calls[n].IssueCall? && calls[n].issue.rid == rid && Answer(calls, n).Minted?)
    || (calls[n].ResolveIssueCall? && calls[n].rid == rid && !Answer(calls, n).Failed?)
  }

  lemma SettledIsKnown(calls: seq<Call>, n: nat, rid: Id)
    requires n < |calls| && Settles(calls, n, rid)
    ensures rid in AfterCalls(calls[..n + 1]).requests
  {
    assert calls[..n + 1][..n] == calls[..n];
    var l := AfterCalls(calls[..n]);
    if calls[n].ResolveIssueCall? { ResolveIssueIsStep(l, rid, calls[n].attempt); }
    hide AfterCalls;
  }

  /**
   Over every run of calls: after a secret was returned or the request was resolved, no Issue call returns a secret
   for it.
   */
  lemma OneSecretPerRequest(calls: seq<Call>, i: nat, j: nat, rid: Id)
    requires i < j < |calls| && Settles(calls, i, rid) && calls[j].IssueCall? && calls[j].issue.rid == rid
    ensures !Answer(calls, j).Minted?
  {
    SettledIsKnown(calls, i, rid);
    RequestsStayKnown(calls, i + 1, j, rid);
    hide AfterCalls;
  }

  lemma CallAt(calls: seq<Call>, n: nat)
    requires n < |calls|
    ensures var l := AfterCalls(calls[..n]);
            && Inv(l) && (AfterCalls(calls[..n + 1]), Answer(calls, n)) == End(l, Decided(l, calls[n]), calls[n].fate)
  {
    assert calls[..n + 1][..n] == calls[..n];
    var run := CallsAreARun(calls[..n]);
    ReachableInv(run);
    hide Inv, End, Decided;
  }

  /** What has ended stays as it is, whatever is called. */
  lemma {:induction false} EndedStays(calls: seq<Call>, i: nat, j: nat, aid: Id)
    requires i <= j <= |calls|
    requires aid in AfterCalls(calls[..i]).auths && !Live(AfterCalls(calls[..i]).auths[aid].state)
    ensures aid in AfterCalls(calls[..j]).auths
    ensures AfterCalls(calls[..j]).auths[aid] == AfterCalls(calls[..i]).auths[aid]
    decreases j
  {
    hide AfterCalls, Answer, End, Decided, Enabled, Apply, Inv;
    if i < j {
      EndedStays(calls, i, j - 1, aid);
      CallAt(calls, j - 1);
      var l := AfterCalls(calls[..j - 1]);
      DecidedIsStep(l, calls[j - 1]);
      EndIsStep(l, Decided(l, calls[j - 1]), calls[j - 1].fate);
      if End(l, Decided(l, calls[j - 1]), calls[j - 1].fate).0 != l {
        StepGrows(l, Decided(l, calls[j - 1]).move.value);
      }
    }
  }

  lemma FinalizeAnsweredConsumed(calls: seq<Call>, n: nat)
    requires n < |calls| && calls[n].FinalizeCall? && Answer(calls, n) == CONSUMED_OUTCOME
    ensures var (l, m, aid) := (AfterCalls(calls[..n]), AfterCalls(calls[..n + 1]), calls[n].aid);
            && aid in l.auths && l.auths[aid].state == CONSUME_PENDING
            && aid in m.auths && m.auths[aid].state == CONSUMED
  {
    assert calls[..n + 1][..n] == calls[..n];
    var l := AfterCalls(calls[..n]);
    assert AfterCalls(calls[..n + 1]) == End(l, Decided(l, calls[n]), calls[n].fate).0;
    hide AfterCalls;
  }

  /** Over every run of calls, two finalizations that answer CONSUMED concern different authorizations. */
  lemma ConsumedOncePerAuthorization(calls: seq<Call>, i: nat, j: nat)
    requires i < j < |calls| && calls[i].FinalizeCall? && calls[j].FinalizeCall?
    requires Answer(calls, i) == CONSUMED_OUTCOME && Answer(calls, j) == CONSUMED_OUTCOME
    ensures calls[i].aid != calls[j].aid
  {
    hide AfterCalls, Answer;
    FinalizeAnsweredConsumed(calls, i);
    FinalizeAnsweredConsumed(calls, j);
    EndedStays(calls, i + 1, j, calls[i].aid);
  }

  // ----- A report is the truth -----

  ghost predicate True(l: Ledger, aid: Id, out: Outcome) {
    out.Reported? ==> aid in l.auths && l.auths[aid].state == out.auth && out.intent == Some(Mirror(out.auth))
  }

  lemma BeginReportsTruth(l: Ledger, r: ConsumeRequest, now: int, fate: Fate)
    requires Inv(l)
    ensures var (n, out) := End(l, Begin(l, r, now), fate); True(n, r.aid, out)
  {
    assert IntentOk(l, r.cid);
  }

  lemma ClaimReportsTruth(l: Ledger, r: ConsumeRequest, now: int, fate: Fate)
    requires Inv(l)
    ensures var (n, out) := End(l, ClaimDecision(l, r, now), fate); True(n, r.aid, out)
  {
  }

  lemma FinalizeReportsTruth(l: Ledger, aid: Id, cid: Id, fate: Fate)
    requires Inv(l)
    ensures var (n, out) := End(l, FinalizeDecision(l, aid, cid), fate); True(n, aid, out)
  {
  }

  /** The states a consumption reports are the states its rows are in when it returns. */
  lemma ConsumptionReportsTruth(l: Ledger, r: ConsumeRequest, w: Weather)
    requires Inv(l)
    ensures Inv(Consumption(l, r, w).0) && True(Consumption(l, r, w).0, r.aid, Consumption(l, r, w).1)
  {
    hide Begin, ClaimDecision, FinalizeDecision, End, DoAll, Inv, True;
    BeginReportsTruth(l, r, w.begunAt, w.begun);
    EndKeepsInv(l, Begin(l, r, w.begunAt), w.begun);
    var (begun, b) := End(l, Begin(l, r, w.begunAt), w.begun);
    DoAllKeepsInv(begun, w.beforeClaim);
    var l1 := DoAll(begun, w.beforeClaim);
    ClaimReportsTruth(l1, r, w.claimedAt, w.claimed);
    EndKeepsInv(l1, ClaimDecision(l1, r, w.claimedAt), w.claimed);
    var (claimed, c) := End(l1, ClaimDecision(l1, r, w.claimedAt), w.claimed);
    DoAllKeepsInv(claimed, w.beforeFinalize);
    var l2 := DoAll(claimed, w.beforeFinalize);
    FinalizeReportsTruth(l2, r.aid, r.cid, w.finalized);
    EndKeepsInv(l2, FinalizeDecision(l2, r.aid, r.cid), w.finalized);
  }

  lemma {:induction false} DoAllKeepsInv(l: Ledger, others: seq<Move>)
    requires Inv(l)
    ensures Inv(DoAll(l, others))
  {
    if others != [] {
      DoAllKeepsInv(l, others[..|others| - 1]);
      DoKeepsInv(DoAll(l, others[..|others| - 1]), Some(Last(others)));
    }
  }

  // ----- Who consumed -----

  ghost predicate ConsumedBy(l: Ledger, aid: Id, cid: Id) {
    aid in l.auths && l.auths[aid].state == CONSUMED && l.auths[aid].owner.Some? && l.auths[aid].owner.value.cid == cid
  }

  lemma DoConsumes(l: Ledger, m: Option<Move>, aid: Id, cid: Id)
    requires Inv(l) && m != Some(Finalize(cid)) && !ConsumedBy(l, aid, cid)
    ensures !ConsumedBy(Do(l, m), aid, cid)
  {
    if m.Some? && Enabled(l, m.value) && ConsumedBy(Apply(l, m.value), aid, cid) {
      StepGrows(l, m.value);
      OnlyFinalizeConsumes(l, m.value, aid);
    }
  }

  lemma {:induction false} OthersDoNotConsume(l: Ledger, others: seq<Move>, aid: Id, cid: Id)
    requires Inv(l) && Finalize(cid) !in others && !ConsumedBy(l, aid, cid)
    ensures !ConsumedBy(DoAll(l, others), aid, cid)
  {
    if others != [] {
      var before := others[..|others| - 1];
      OthersDoNotConsume(l, before, aid, cid);
      DoAllKeepsInv(l, before);
      DoConsumes(DoAll(l, before), Some(Last(others)), aid, cid);
    }
  }

  lemma DecisionsBeforeFinalize(l: Ledger, r: ConsumeRequest, now: int)
    ensures Begin(l, r, now).move != Some(Finalize(r.cid)) && ClaimDecision(l, r, now).move != Some(Finalize(r.cid))
  {
  }

  lemma EndDoes(l: Ledger, d: Decision, fate: Fate)
    requires d.outcome.Failed? ==> d.move.None?
    ensures End(l, d, fate).0 == Do(l, d.move) || End(l, d, fate).0 == l
    ensures End(l, d, fate).1 in {d.outcome, Failed(UnknownCommit)}
  {
  }

  /**
   A consumption that took effect is never denied: if this call consumed the authorization, it says CONSUMED
   or that the outcome is unknown; every other answer means that it did not.
   */
  lemma OnlyUnknownHidesConsumption(l: Ledger, r: ConsumeRequest, w: Weather)
    requires Inv(l) && !ConsumedBy(l, r.aid, r.cid)
    requires Finalize(r.cid) !in w.beforeClaim && Finalize(r.cid) !in w.beforeFinalize
    ensures var (n, out) := Consumption(l, r, w);
            ConsumedBy(n, r.aid, r.cid) ==> out == CONSUMED_OUTCOME || out == Failed(UnknownCommit)
  {
    hide Begin, ClaimDecision, FinalizeDecision, End, DoAll, Inv, ConsumedBy, Enabled, Do;
    ConsumeDecisionsAreSteps(l, r, w.begunAt);
    var d := Begin(l, r, w.begunAt);
    DecisionsBeforeFinalize(l, r, w.begunAt);
    EndDoes(l, d, w.begun);
    EndKeepsInv(l, d, w.begun);
    DoConsumes(l, d.move, r.aid, r.cid);
    var begun := End(l, d, w.begun).0;
    OthersDoNotConsume(begun, w.beforeClaim, r.aid, r.cid);
    DoAllKeepsInv(begun, w.beforeClaim);
    var l1 := DoAll(begun, w.beforeClaim);
    var e := ClaimDecision(l1, r, w.claimedAt);
    ConsumeDecisionsAreSteps(l1, r, w.claimedAt);
    DecisionsBeforeFinalize(l1, r, w.claimedAt);
    EndDoes(l1, e, w.claimed);
    EndKeepsInv(l1, e, w.claimed);
    DoConsumes(l1, e.move, r.aid, r.cid);
    var claimed := End(l1, e, w.claimed).0;
    OthersDoNotConsume(claimed, w.beforeFinalize, r.aid, r.cid);
    FinalizeAnswers(DoAll(claimed, w.beforeFinalize), r.aid, r.cid, w.finalized);
  }

  lemma FinalizeAnswers(l: Ledger, aid: Id, cid: Id, fate: Fate)
    ensures End(l, FinalizeDecision(l, aid, cid), fate).1 in {CONSUMED_OUTCOME, Failed(UnknownCommit)}
  {
  }

  // ----- When an undisturbed consumption succeeds -----

  /** The presentation matches, is in time, and no other request is ahead of it. */
  ghost predicate Eligible(l: Ledger, r: ConsumeRequest, begunAt: int, claimedAt: int) {
    && WellBound(r) && AuthOf(l, r.aid, r.rid)
    && var a := l.auths[r.aid];
       && a.state == ISSUED && a.terms == r.terms && claimedAt < a.expires
       && if r.cid in l.intents
          then l.intents[r.cid].auth == r.aid && l.intents[r.cid].consumer == Identity(r.consumer)
          else a.verifier == r.envelope.verifier && begunAt < a.expires && !HasIntent(l, r.aid)
  }

  /** Alone and with every commit acknowledged, one call consumes exactly the eligible presentations. */
  lemma UndisturbedConsumption(l: Ledger, r: ConsumeRequest, begunAt: int, claimedAt: int)
    requires Inv(l)
    ensures var calm := Weather(begunAt, Committed, [], claimedAt, Committed, [], Committed);
            Eligible(l, r, begunAt, claimedAt) <==> Consumption(l, r, calm).1 == CONSUMED_OUTCOME
  {
    var d := Begin(l, r, begunAt);
    ConsumeDecisionsAreSteps(l, r, begunAt);
    assert IntentOk(l, r.cid);
    if !d.outcome.Failed? && d.outcome.pending.None? &&
       (d.outcome.detail == Fresh || d.outcome.intent == Some(PENDING)) {
      var l1 := Do(l, d.move);
      DoKeepsInv(l, d.move);
      BegunIsPending(l, r, begunAt);
      assert DoAll(l1, []) == l1;
      ClaimThenFinalize(l1, r, claimedAt);
    }
  }

  lemma BegunIsPending(l: Ledger, r: ConsumeRequest, now: int)
    requires Inv(l)
    requires var o := Begin(l, r, now).outcome;
             !o.Failed? && o.pending.None? && (o.detail == Fresh || o.intent == Some(PENDING))
    ensures var n := Do(l, Begin(l, r, now).move);
            && WellBound(r) && AuthOf(n, r.aid, r.rid) && n.auths == l.auths && n.auths[r.aid].state == ISSUED
            && n.auths[r.aid].terms == r.terms
            && IsIntentOf(n, r.cid, r.aid)
  {
    assert IntentOk(l, r.cid);
  }

  lemma ClaimThenFinalize(l: Ledger, r: ConsumeRequest, now: int)
    requires Inv(l) && WellBound(r) && AuthOf(l, r.aid, r.rid) && l.auths[r.aid].state == ISSUED
    requires l.auths[r.aid].terms == r.terms
    requires IsIntentOf(l, r.cid, r.aid)
    ensures var (n, c) := End(l, ClaimDecision(l, r, now), Committed);
            if now < l.auths[r.aid].expires
            then && c.Reported? && c.intent == Some(CLAIMED)
                 && End(DoAll(n, []), FinalizeDecision(DoAll(n, []), r.aid, r.cid), Committed).1 == CONSUMED_OUTCOME
            else c == EXPIRED_OUTCOME
  {
  }
}
