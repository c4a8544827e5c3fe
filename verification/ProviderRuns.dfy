/** What every run of the provider ledger guarantees, whatever the order of its steps. */
module ProviderRuns {
  import opened Common
  import opened ProviderLedger

  function After(run: seq<Move>): Ledger
    requires Legal(run)
    decreases |run|, 1
  {
    if run == [] then NEW else Apply(After(run[..|run| - 1]), Last(run))
  }

  predicate Legal(run: seq<Move>)
    decreases |run|, 0
  {
    run == [] || (Legal(run[..|run| - 1]) && Enabled(After(run[..|run| - 1]), Last(run)))
  }

  /** Every reachable ledger pairs its rows as the schema of states allows. */
  lemma {:induction false} ReachableInv(run: seq<Move>)
    requires Legal(run)
    ensures Inv(After(run))
  {
    if run != [] {
      ReachableInv(run[..|run| - 1]);
      StepKeepsInv(After(run[..|run| - 1]), Last(run));
    }
  }

  lemma {:induction false} LegalPrefix(run: seq<Move>, n: nat)
    requires Legal(run) && n <= |run|
    ensures Legal(run[..n])
    decreases |run|
  {
    if n < |run| {
      LegalPrefix(run[..|run| - 1], n);
      assert run[..|run| - 1][..n] == run[..n];
    } else {
      assert run[..n] == run;
    }
  }

  /** The ledger before the n-th step of a run. */
  function Before(run: seq<Move>, n: nat): Ledger
    requires Legal(run) && n <= |run|
  {
    LegalPrefix(run, n);
    After(run[..n])
  }

  lemma {:induction false} StepAt(run: seq<Move>, n: nat)
    requires Legal(run) && n < |run|
    ensures Enabled(Before(run, n), run[n]) && Before(run, n + 1) == Apply(Before(run, n), run[n])
    ensures Inv(Before(run, n))
  {
    LegalPrefix(run, n);
    LegalPrefix(run, n + 1);
    ReachableInv(run[..n]);
    assert run[..n + 1][..n] == run[..n];
  }

  // ----- What a step preserves -----

  /** From `l` to a later `n`: rows stay, their identity is fixed, and rows that are done never change again. */
  ghost predicate Grows(l: Ledger, n: Ledger) {
    && l.epoch <= n.epoch
    && (forall r <- l.requests :: r in n.requests && n.requests[r] == l.requests[r])
    && (forall a <- l.auths :: a in n.auths && AuthGrows(l.auths[a], n.auths[a]))
    && (forall c <- l.intents :: c in n.intents && IntentGrows(l.intents[c], n.intents[c]))
  }

  ghost predicate AuthGrows(a: Auth, b: Auth) {
    && a.request == b.request && a.terms == b.terms && a.verifier == b.verifier && a.expires == b.expires
    && (!Live(a.state) ==> a == b) && (a.owner.Some? ==> a.owner == b.owner)
    && (a.state == CONSUME_PENDING ==> b.state != ISSUED && b.state != REVOKED && b.state != EXPIRED)
  }

  ghost predicate IntentGrows(i: Intent, j: Intent) {
    && i.auth == j.auth && i.request == j.request && i.terms == j.terms && i.consumer == j.consumer
    && (!LiveIntent(i.state) ==> i == j) && (i.state == CLAIMED ==> j.state != PENDING && j.state != ABORTED)
  }

  lemma SettleGrows(l: Ledger, aid: Id, a: Auth)
    requires Inv(l) && aid in l.auths && Live(l.auths[aid].state) && AuthGrows(l.auths[aid], a)
    ensures Grows(l, Settle(l, aid, a))
  {
    forall c | c in l.intents ensures IntentGrows(l.intents[c], Settle(l, aid, a).intents[c]) { assert IntentOk(l, c); }
  }

  lemma StepGrows(l: Ledger, m: Move)
    requires Inv(l) && Enabled(l, m)
    ensures Grows(l, Apply(l, m))
  {
    var n := Apply(l, m);
    match m
    case Claim(cid, _) =>
      assert AuthOk(l, l.intents[cid].auth); SettleGrows(l, l.intents[cid].auth, n.auths[l.intents[cid].auth]);
    case Finalize(cid) => SettleGrows(l, l.intents[cid].auth, n.auths[l.intents[cid].auth]);
    case Lose(cid, _) => SettleGrows(l, l.intents[cid].auth, n.auths[l.intents[cid].auth]);
    case Stop(aid, _, _) => SettleGrows(l, aid, n.auths[aid]);
    case _ =>
  }

  /** Over any stretch of a run nothing is rewritten: terminal rows, identities and owners are permanent. */
  lemma {:induction false} RunGrows(run: seq<Move>, i: nat, j: nat)
    requires Legal(run) && i <= j <= |run|
    ensures Grows(Before(run, i), Before(run, j))
    decreases j
  {
    if i < j {
      RunGrows(run, i, j - 1);
      StepAt(run, j - 1);
      StepGrows(Before(run, j - 1), run[j - 1]);
      GrowsTransitive(Before(run, i), Before(run, j - 1), Before(run, j));
    }
  }

  lemma GrowsTransitive(l: Ledger, m: Ledger, n: Ledger)
    requires Grows(l, m) && Grows(m, n)
    ensures Grows(l, n)
  {
  }

  // ----- Consumption -----

  /** Only FINALIZE consumes, and it consumes for the one request that claimed. */
  lemma OnlyFinalizeConsumes(l: Ledger, m: Move, aid: Id)
    requires Inv(l) && Enabled(l, m)
    requires aid in Apply(l, m).auths && Apply(l, m).auths[aid].state == CONSUMED
    requires aid in l.auths ==> l.auths[aid].state != CONSUMED
    ensures m.Finalize? && m.cid in l.intents && l.intents[m.cid].auth == aid
    ensures aid in l.auths && l.auths[aid].owner.Some? && l.auths[aid].owner.value.cid == m.cid
  {
    if m.Finalize? { OwnerIsIntent(l, m.cid); }
  }

  lemma FinalizeConsumes(run: seq<Move>, n: nat)
    requires Legal(run) && n < |run| && run[n].Finalize?
    ensures run[n].cid in Before(run, n).intents
    ensures var aid := Before(run, n).intents[run[n].cid].auth;
            aid in Before(run, n + 1).auths && Before(run, n + 1).auths[aid].state == CONSUMED
  {
    StepAt(run, n);
  }

  /** In one run an authorization is consumed at most once, whichever requests try. */
  lemma ConsumedOnce(run: seq<Move>, i: nat, j: nat)
    requires Legal(run) && i < j < |run| && run[i].Finalize? && run[j].Finalize?
    ensures run[i].cid in Before(run, i).intents && run[j].cid in Before(run, j).intents
    ensures Before(run, i).intents[run[i].cid].auth != Before(run, j).intents[run[j].cid].auth
  {
    hide Before, Legal;
    FinalizeConsumes(run, i);
    FinalizeFindsPending(run, j);
    ConsumedStays(run, i + 1, j, Before(run, i).intents[run[i].cid].auth);
  }

  lemma FinalizeFindsPending(run: seq<Move>, n: nat)
    requires Legal(run) && n < |run| && run[n].Finalize?
    ensures At(Before(run, n), run[n].cid, CONSUME_PENDING)
  {
    StepAt(run, n);
  }

  lemma ConsumedStays(run: seq<Move>, i: nat, j: nat, aid: Id)
    requires Legal(run) && i <= j <= |run| && aid in Before(run, i).auths && Before(run, i).auths[aid].state == CONSUMED
    ensures aid in Before(run, j).auths && Before(run, j).auths[aid].state == CONSUMED
  {
    RunGrows(run, i, j);
  }

  /** What had not been consumed when a new epoch began is never consumed afterwards. */
  lemma TakeoverPoisons(run: seq<Move>, i: nat, j: nat, aid: Id)
    requires Legal(run) && i < j <= |run| && run[i].Takeover?
    requires aid in Before(run, i).auths && Before(run, i).auths[aid].state != CONSUMED
    ensures aid in Before(run, j).auths && Before(run, j).auths[aid].state !in {ISSUED, CONSUME_PENDING, CONSUMED}
  {
    StepAt(run, i);
    TakeoverEnds(Before(run, i), run[i], aid);
    hide Apply, Enabled, Inv;
    RunGrows(run, i + 1, j);
  }

  lemma TakeoverEnds(l: Ledger, m: Move, aid: Id)
    requires m.Takeover? && Enabled(l, m) && aid in l.auths && l.auths[aid].state != CONSUMED
    ensures aid in Apply(l, m).auths && Apply(l, m).auths[aid].state !in {ISSUED, CONSUME_PENDING, CONSUMED}
  {
  }

  /** Every consumption was claimed, by the same request, strictly before the authorization expired. */
  lemma {:induction false} ConsumedWasClaimedInTime(run: seq<Move>, n: nat, aid: Id)
    requires Legal(run) && n <= |run| && aid in Before(run, n).auths && Before(run, n).auths[aid].owner.Some?
    ensures exists i :: 0 <= i < n && run[i].Claim? && run[i].cid == Before(run, n).auths[aid].owner.value.cid &&
                        run[i].now < Before(run, n).auths[aid].expires
    decreases n
  {
    var m := n - 1;
    StepAt(run, m);
    var l := Before(run, m);
    if aid in l.auths && l.auths[aid].owner.Some? {
      RunGrows(run, m, n);
      ConsumedWasClaimedInTime(run, m, aid);
    } else {
      assert run[m].Claim?;
    }
  }

  /** Every consumption belongs to the epoch in force when it was finalized: no takeover fell in between. */
  lemma ConsumedInItsEpoch(run: seq<Move>, n: nat)
    requires Legal(run) && n < |run| && run[n].Finalize?
    ensures run[n].cid in Before(run, n).intents
    ensures Before(run, n).intents[run[n].cid].terms.epoch == Before(run, n).epoch
  {
    StepAt(run, n);
    var l := Before(run, n);
    assert IntentOk(l, run[n].cid) && AuthOk(l, l.intents[run[n].cid].auth);
  }

  // ----- Secrets -----

  /** Once an issuer request has a row, minted or tombstoned, no later step mints a secret for it. */
  lemma NoSecretForKnownRequest(run: seq<Move>, i: nat, j: nat, rid: Id)
    requires Legal(run) && i <= j < |run| && rid in Before(run, i).requests
    ensures !(run[j].Mint? && run[j].rid == rid)
  {
    StepAt(run, j);
    RunGrows(run, i, j);
  }

  /** At most one step of a run mints a secret for an issuer request. */
  lemma OneSecret(run: seq<Move>, i: nat, j: nat)
    requires Legal(run) && i < j < |run| && run[i].Mint? && run[j].Mint?
    ensures run[i].rid != run[j].rid
  {
    StepAt(run, i);
    NoSecretForKnownRequest(run, i + 1, j, run[i].rid);
  }
}
