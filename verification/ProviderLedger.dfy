/**
 The provider ledger of one-time authorizations: issue requests, authorization rows and consume-intent rows.
 A transaction is one atomic step. A consumption is three of them (BEGIN, CLAIM, FINALIZE), and any other
 step, including the start of a new authority epoch, may fall between two of them or follow a crash.
 Secrets, nonces and identifiers are opaque values; only the verifier of a secret is stored.
 */
module ProviderLedger {
  import opened Common

  type Id = nat

  const SCOPE := "allow_control_catalog_install"

  // ----- Rows -----

  datatype RequestState = REQUESTED | REQUEST_ISSUED | TERMINAL | CANCELLED
  datatype AuthState = ISSUED | CONSUME_PENDING | CONSUMED | REVOKED | EXPIRED | CONSUME_UNKNOWN
  datatype IntentState = PENDING | CLAIMED | INTENT_CONSUMED | ABORTED | UNKNOWN

  /** What an authorization is bound to; an intent repeats it. */
  datatype Terms = Terms(epoch: nat, nonce: nat, operation: string, attempt: Id, target: string, installer: string,
      evidence: string, scope: string)

  datatype Request = Request(attempt: Id, state: RequestState, auth: Option<Id>)

  /** The consume columns of an authorization row, written by CLAIM. */
  datatype Owner = Owner(cid: Id, request: Id, terms: Terms)

  datatype Auth = Auth(request: Id, terms: Terms, verifier: nat, expires: int, state: AuthState, owner: Option<Owner>,
      code: string)

  datatype Intent = Intent(auth: Id, request: Id, terms: Terms, consumer: string, state: IntentState, code: string)

  /** Epoch 0 stands for a provider that never had an authority. */
  datatype Ledger = Ledger(epoch: nat, requests: map<Id, Request>, auths: map<Id, Auth>, intents: map<Id, Intent>)

  const NEW := Ledger(0, map[], map[], map[])

  predicate Live(s: AuthState) { s == ISSUED || s == CONSUME_PENDING }

  predicate LiveIntent(s: IntentState) { s == PENDING || s == CLAIMED }

  /** The one intent state that may accompany each authorization state. */
  function Mirror(s: AuthState): IntentState {
    match s
    case ISSUED => PENDING
    case CONSUME_PENDING => CLAIMED
    case CONSUMED => INTENT_CONSUMED
    case CONSUME_UNKNOWN => UNKNOWN
    case REVOKED => ABORTED
    case EXPIRED => ABORTED
  }

  // ----- The steps a ledger can take -----

  datatype Move =
    | Mint(rid: Id, aid: Id, terms: Terms, verifier: nat, expires: int)
    | Tombstone(rid: Id, attempt: Id)
    | Open(cid: Id, aid: Id, consumer: string, verifier: nat)
    | Claim(cid: Id, now: int)
    | Finalize(cid: Id)
    | Lose(cid: Id, code: string)
    | Stop(aid: Id, state: AuthState, code: string)
    | Takeover(epoch: nat)

  predicate NewAttempt(l: Ledger, attempt: Id) { forall r <- l.requests :: l.requests[r].attempt != attempt }

  predicate HasIntent(l: Ledger, aid: Id) { exists c <- l.intents :: l.intents[c].auth == aid }

  /** An intent whose authorization is in the given state. */
  predicate At(l: Ledger, cid: Id, s: AuthState) {
    cid in l.intents && l.intents[cid].auth in l.auths && l.auths[l.intents[cid].auth].state == s
  }

  predicate Enabled(l: Ledger, m: Move) {
    match m
    case Mint(rid, aid, terms, _, _) =>
      rid !in l.requests && aid !in l.auths && NewAttempt(l, terms.attempt) && terms.epoch == l.epoch > 0
    case Tombstone(rid, attempt) => rid !in l.requests && NewAttempt(l, attempt)
    case Open(cid, aid, _, verifier) =>
      && cid !in l.intents && aid in l.auths && l.auths[aid].state == ISSUED && l.auths[aid].verifier == verifier
      && !HasIntent(l, aid)
    case Claim(cid, now) => At(l, cid, ISSUED) && now < l.auths[l.intents[cid].auth].expires
    case Finalize(cid) => At(l, cid, CONSUME_PENDING)
    case Lose(cid, _) => At(l, cid, CONSUME_PENDING)
    case Stop(aid, state, _) => aid in l.auths && l.auths[aid].state == ISSUED && (state == REVOKED || state == EXPIRED)
    case Takeover(epoch) => epoch > l.epoch
  }

  /** One authorization and its intent move together. */
  function Settle(l: Ledger, aid: Id, a: Auth): Ledger {
    l.(auths := l.auths[aid := a],
       intents := map c | c in l.intents ::
         if l.intents[c].auth == aid then l.intents[c].(state := Mirror(a.state), code := a.code) else l.intents[c])
  }

  const REPLACED := "AUTHORITY_EPOCH_REPLACED"

  /** Claimed work may already have happened elsewhere, so its outcome is unknown; the rest is revoked. */
  function PoisonedAuth(a: Auth): Auth {
    match a.state
    case ISSUED => a.(state := REVOKED, code := REPLACED)
    case CONSUME_PENDING => a.(state := CONSUME_UNKNOWN, code := REPLACED)
    case _ => a
  }

  function PoisonedIntent(i: Intent): Intent {
    match i.state
    case PENDING => i.(state := ABORTED, code := REPLACED)
    case CLAIMED => i.(state := UNKNOWN, code := REPLACED)
    case _ => i
  }

  function PoisonedIntents(intents: map<Id, Intent>): map<Id, Intent> {
    map c | c in intents :: PoisonedIntent(intents[c])
  }

  function Apply(l: Ledger, m: Move): Ledger
    requires Enabled(l, m)
  {
    match m
    case Mint(rid, aid, terms, verifier, expires) =>
      l.(requests := l.requests[rid := Request(terms.attempt, REQUEST_ISSUED, Some(aid))],
         auths := l.auths[aid := Auth(rid, terms, verifier, expires, ISSUED, None, "")])
    case Tombstone(rid, attempt) => l.(requests := l.requests[rid := Request(attempt, CANCELLED, None)])
    case Open(cid, aid, consumer, _) =>
      l.(intents := l.intents[cid := Intent(aid, l.auths[aid].request, l.auths[aid].terms, consumer, PENDING, "")])
    case Claim(cid, _) =>
      var a := l.auths[l.intents[cid].auth];
      Settle(l, l.intents[cid].auth, a.(state := CONSUME_PENDING, owner := Some(Owner(cid, a.request, a.terms))))
    case Finalize(cid) =>
      Settle(l, l.intents[cid].auth, l.auths[l.intents[cid].auth].(state := CONSUMED, code := "CONSUMED"))
    case Lose(cid, code) =>
      Settle(l, l.intents[cid].auth, l.auths[l.intents[cid].auth].(state := CONSUME_UNKNOWN, code := code))
    case Stop(aid, state, code) => Settle(l, aid, l.auths[aid].(state := state, code := code))
    case Takeover(epoch) =>
      l.(epoch := epoch,
         auths := map a | a in l.auths :: PoisonedAuth(l.auths[a]),
         intents := PoisonedIntents(l.intents))
  }

  function Do(l: Ledger, m: Option<Move>): Ledger { if m.Some? && Enabled(l, m.value) then Apply(l, m.value) else l }

  // ----- What every ledger looks like -----

  ghost predicate RequestOk(l: Ledger, rid: Id) {
    rid in l.requests ==>
      var r := l.requests[rid];
      && (r.state == REQUEST_ISSUED <==> r.auth.Some?) && r.state != REQUESTED
      && (r.auth.Some? ==> r.auth.value in l.auths && l.auths[r.auth.value].request == rid)
  }

  ghost predicate AuthOk(l: Ledger, aid: Id) {
    aid in l.auths ==>
      var a := l.auths[aid];
      && a.request in l.requests && l.requests[a.request] == Request(a.terms.attempt, REQUEST_ISSUED, Some(aid))
      && 0 < a.terms.epoch <= l.epoch
      && (Live(a.state) ==> a.terms.epoch == l.epoch && a.code == "")
      && (a.owner.Some? <==> a.state in {CONSUME_PENDING, CONSUMED, CONSUME_UNKNOWN})
      && (a.owner.Some? ==>
            && a.owner.value.cid in l.intents && l.intents[a.owner.value.cid].auth == aid
            && a.owner.value == Owner(a.owner.value.cid, a.request, a.terms))
  }

  ghost predicate IntentOk(l: Ledger, cid: Id) {
    cid in l.intents ==>
      var i := l.intents[cid];
      && i.auth in l.auths
      && var a := l.auths[i.auth];
         i.request == a.request && i.terms == a.terms && i.state == Mirror(a.state) && i.code == a.code
  }

  ghost predicate OneIntentEach(l: Ledger) {
    forall c, d :: c in l.intents && d in l.intents && l.intents[c].auth == l.intents[d].auth ==> c == d
  }

  ghost predicate OneRequestEach(l: Ledger) {
    forall r, s :: r in l.requests && s in l.requests && l.requests[r].attempt == l.requests[s].attempt ==> r == s
  }

  ghost predicate Inv(l: Ledger) {
    && (forall r :: RequestOk(l, r)) && (forall a :: AuthOk(l, a)) && (forall c :: IntentOk(l, c))
    && OneIntentEach(l) && OneRequestEach(l)
  }

  /** One authorization moves on, together with its intent. */
  lemma SettleKeepsInv(l: Ledger, aid: Id, a: Auth, cid: Option<Id>)
    requires Inv(l) && aid in l.auths
    requires a == l.auths[aid].(state := a.state, owner := a.owner, code := a.code)
    requires cid.Some? ==> cid.value in l.intents && l.intents[cid.value].auth == aid
    requires a.owner == if cid.Some? then Some(Owner(cid.value, a.request, a.terms)) else None
    requires a.owner.Some? <==> a.state in {CONSUME_PENDING, CONSUMED, CONSUME_UNKNOWN}
    requires Live(a.state) ==> Live(l.auths[aid].state) && a.code == ""
    ensures Inv(Settle(l, aid, a))
  {
    var m := Settle(l, aid, a);
    forall r ensures RequestOk(m, r) { assert RequestOk(l, r); }
    forall b ensures AuthOk(m, b) { assert AuthOk(l, b); }
    forall c ensures IntentOk(m, c) { assert IntentOk(l, c); }
  }

  lemma StepKeepsInv(l: Ledger, m: Move)
    requires Inv(l) && Enabled(l, m)
    ensures Inv(Apply(l, m))
  {
    var n := Apply(l, m);
    match m
    case Claim(cid, _) =>
      assert AuthOk(l, l.intents[cid].auth); SettleKeepsInv(l, l.intents[cid].auth, n.auths[l.intents[cid].auth],
                                                            Some(cid));
    case Finalize(cid) =>
      OwnerIsIntent(l, cid); SettleKeepsInv(l, l.intents[cid].auth, n.auths[l.intents[cid].auth], Some(cid));
    case Lose(cid, _) =>
      OwnerIsIntent(l, cid); SettleKeepsInv(l, l.intents[cid].auth, n.auths[l.intents[cid].auth], Some(cid));
    case Stop(aid, _, _) => assert AuthOk(l, aid); SettleKeepsInv(l, aid, n.auths[aid], None);
    case Mint(_, _, _, _, _) => MintKeepsInv(l, m);
    case Tombstone(_, _) => TombstoneKeepsInv(l, m);
    case Open(_, _, _, _) => OpenKeepsInv(l, m);
    case Takeover(_) => TakeoverKeepsInv(l, m);
  }

  lemma OwnerIsIntent(l: Ledger, cid: Id)
    requires Inv(l) && At(l, cid, CONSUME_PENDING)
    ensures var a := l.auths[l.intents[cid].auth]; a.owner == Some(Owner(cid, a.request, a.terms))
  {
    assert AuthOk(l, l.intents[cid].auth);
  }

  lemma MintKeepsInv(l: Ledger, m: Move)
    requires Inv(l) && m.Mint? && Enabled(l, m)
    ensures Inv(Apply(l, m))
  {
    var n := Apply(l, m);
    forall r ensures RequestOk(n, r) { assert RequestOk(l, r); }
    forall b ensures AuthOk(n, b) { assert AuthOk(l, b); }
    forall c ensures IntentOk(n, c) { assert IntentOk(l, c); }
  }

  lemma TombstoneKeepsInv(l: Ledger, m: Move)
    requires Inv(l) && m.Tombstone? && Enabled(l, m)
    ensures Inv(Apply(l, m))
  {
    var n := Apply(l, m);
    forall r ensures RequestOk(n, r) { assert RequestOk(l, r); }
    forall b ensures AuthOk(n, b) { assert AuthOk(l, b); }
    forall c ensures IntentOk(n, c) { assert IntentOk(l, c); }
  }

  lemma OpenKeepsInv(l: Ledger, m: Move)
    requires Inv(l) && m.Open? && Enabled(l, m)
    ensures Inv(Apply(l, m))
  {
    var n := Apply(l, m);
    forall r ensures RequestOk(n, r) { assert RequestOk(l, r); }
    forall b ensures AuthOk(n, b) { assert AuthOk(l, b); }
    forall c ensures IntentOk(n, c) { assert IntentOk(l, c); assert AuthOk(l, m.aid); }
  }

  lemma TakeoverKeepsInv(l: Ledger, m: Move)
    requires Inv(l) && m.Takeover? && Enabled(l, m)
    ensures Inv(Apply(l, m))
  {
    var n := Apply(l, m);
    forall r ensures RequestOk(n, r) { assert RequestOk(l, r); }
    forall b ensures AuthOk(n, b) { assert AuthOk(l, b); }
    forall c ensures IntentOk(n, c) { assert IntentOk(l, c); }
  }
}
