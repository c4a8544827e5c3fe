/**
 Admin binding and device lifecycle. Five binding commands and three lifecycle commands share one assignment
 table and one idempotency ledger. A command plans on whatever it first saw, takes its locks, plans again on the
 current rows and commits; planning, locking and committing on the current rows is one atomic step here, and
 the first plan is made on an arbitrary earlier state. Authorization is an input. The canonical request hash
 is taken to be injective, so the ledger keeps the request itself.
 */
module AdminBinding {
  import opened Common

  type Id = nat

  // ----- Rows -----

  datatype Lifecycle = ACTIVE | DISABLED | RETIRED

  /** `identified`: the MAC is canonical and a serial number is present. */
  datatype Device = Device(identified: bool, lifecycle: Lifecycle)

  datatype Assignment = Assignment(device: Id, point: Id, from: int, until: Option<int>)

  datatype Reading = Reading(device: Id, point: Id, at: int)

  datatype Request =
    | CreatePoint(shop: Id, name: string)
    | Bind(device: Id, point: Id)
    | Replace(assignment: Id, device: Id)
    | Relocate(assignment: Id, point: Id)
    | Unbind(assignment: Id)
    | Change(device: Id, target: Lifecycle)

  datatype Action =
    ActionCreate | ActionBind | ActionReplace | ActionRelocate | ActionUnbind | ActionChange(target: Lifecycle)

  datatype Key = Key(actor: Id, scope: string, action: Action, key: string)

  /** `at`: the sampled instant of a transition; other commands sample none. */
  datatype Response = Response(operation: Id, ended: Option<Id>, started: Option<Id>, at: Option<int>)

  datatype Operation = Operation(request: Request, operation: Id, response: Option<Response>)

  datatype Audit = Audit(operation: Id, at: Option<int>)

  /** `clock`: no transition took effect after this instant. */
  datatype Registry = Registry(
    shops: set<Id>, devices: map<Id, Device>, points: map<Id, Id>, assignments: map<Id, Assignment>,
    readings: set<Reading>, ledger: map<Key, Operation>, audits: seq<Audit>, clock: int)

  datatype Error =
    | Forbidden | InvalidRequest | ShopNotFound | DeviceNotFound | PointNotFound | AssignmentNotFound
    | AssignmentNotCurrent | NotEligible | DeviceDisabled | DeviceRetired | ScopeDenied | AlreadyAssigned | Occupied
    | InvalidTransition | InvalidEffectiveTime | AssignmentTimeConflict | KeyReused | ConcurrentTransition
    | Persistence | Transient

  datatype Result<T> = Ok(value: T) | Err(error: Error)

  datatype Command = Command(actor: Id, scope: string, key: string, request: Request)

  /** What surrounds one attempt: the state its first plan saw, the database clock, authorization, fresh ids, faults. */
  datatype Context = Context(first: Registry, now: int, admitted: bool, allowed: bool, operation: Id, newId: Id,
      fault: Option<Error>)

  function ActionOf(r: Request): Action {
    match r
    case CreatePoint(_, _) => ActionCreate
    case Bind(_, _) => ActionBind
    case Replace(_, _) => ActionReplace
    case Relocate(_, _) => ActionRelocate
    case Unbind(_) => ActionUnbind
    case Change(_, target) => ActionChange(target)
  }

  function KeyOf(c: Command): Key { Key(c.actor, c.scope, ActionOf(c.request), c.key) }

  // ----- The planners -----

  predicate DeviceBusy(s: Registry, d: Id) {
    exists a <- s.assignments :: s.assignments[a].device == d && s.assignments[a].until.None?
  }

  predicate PointBusy(s: Registry, p: Id) {
    exists a <- s.assignments :: s.assignments[a].point == p && s.assignments[a].until.None?
  }

  function Eligible(s: Registry, d: Id): Option<Error> {
    if d !in s.devices then Some(DeviceNotFound)
    else if !s.devices[d].identified then Some(NotEligible)
    else match s.devices[d].lifecycle
      case ACTIVE => None
      case DISABLED => Some(DeviceDisabled)
      case RETIRED => Some(DeviceRetired)
  }

  function Current(s: Registry, a: Id): Option<Error> {
    if a !in s.assignments then Some(AssignmentNotFound)
    else if s.assignments[a].until.Some? then Some(AssignmentNotCurrent)
    else if s.assignments[a].point !in s.points then Some(PointNotFound)
    else None
  }

  /** Which assignment to close and which pair to connect. */
  datatype Plan = Plan(close: Option<Id>, open: Option<(Id, Id)>)

  function PlanBind(s: Registry, d: Id, p: Id, allowed: bool): Result<Plan> {
    if d !in s.devices then Err(DeviceNotFound)
    else if p !in s.points then Err(PointNotFound)
    else if Eligible(s, d).Some? then Err(Eligible(s, d).value)
    else if !allowed then Err(ScopeDenied)
    else if DeviceBusy(s, d) then Err(AlreadyAssigned)
    else if PointBusy(s, p) then Err(Occupied)
    else Ok(Plan(None, Some((d, p))))
  }

  function PlanReplace(s: Registry, a: Id, d: Id, allowed: bool): Result<Plan> {
    if Current(s, a).Some? then Err(Current(s, a).value)
    else if s.assignments[a].device !in s.devices then Err(DeviceNotFound)
    else if Eligible(s, d).Some? then Err(Eligible(s, d).value)
    else if s.assignments[a].device == d then Err(InvalidTransition)
    else if !allowed then Err(ScopeDenied)
    else if DeviceBusy(s, d) then Err(AlreadyAssigned)
    else Ok(Plan(Some(a), Some((d, s.assignments[a].point))))
  }

  function PlanRelocate(s: Registry, a: Id, p: Id, allowed: bool): Result<Plan> {
    if Current(s, a).Some? then Err(Current(s, a).value)
    else if p !in s.points then Err(PointNotFound)
    else if s.assignments[a].point == p then Err(InvalidTransition)
    else if s.assignments[a].device !in s.devices then Err(DeviceNotFound)
    else if !allowed then Err(ScopeDenied)
    else if PointBusy(s, p) then Err(Occupied)
    else Ok(Plan(Some(a), Some((s.assignments[a].device, p))))
  }

  function PlanUnbind(s: Registry, a: Id, allowed: bool): Result<Plan> {
    if Current(s, a).Some? then Err(Current(s, a).value)
    else if s.assignments[a].device !in s.devices then Err(DeviceNotFound)
    else if !allowed then Err(ScopeDenied)
    else Ok(Plan(Some(a), None))
  }

  predicate Transition(r: Request) { r.Bind? || r.Replace? || r.Relocate? || r.Unbind? }

  function PlanFor(s: Registry, r: Request, allowed: bool): Result<Plan>
    requires Transition(r)
  {
    match r
    case Bind(d, p) => PlanBind(s, d, p, allowed)
    case Replace(a, d) => PlanReplace(s, a, d, allowed)
    case Relocate(a, p) => PlanRelocate(s, a, p, allowed)
    case Unbind(a) => PlanUnbind(s, a, allowed)
  }

  predicate CanTransition(from: Lifecycle, target: Lifecycle) {
    match from
    case ACTIVE => target == DISABLED || target == RETIRED
    case DISABLED => target == ACTIVE || target == RETIRED
    case RETIRED => false
  }

  predicate ValidName(name: string) { (exists c <- name :: c !in " \t\r\n") && |name| <= 100 }

  // ----- What a command does -----

  predicate During(a: Assignment, t: int) { a.from <= t && (a.until.None? || t < a.until.value) }

  /** A reading belongs to the assignment of its device to its point at its time. */
  predicate Covers(a: Assignment, r: Reading) { a.device == r.device && a.point == r.point && During(a, r.at) }

  predicate TelemetryConflict(s: Registry, a: Assignment, t: int) {
    exists r <- s.readings :: Covers(a, r) && r.at >= t
  }

  predicate OperationTaken(s: Registry, operation: Id) { exists k <- s.ledger :: s.ledger[k].operation == operation }

  function CloseError(s: Registry, a: Id, now: int): Option<Error>
    requires a in s.assignments
  {
    if now <= s.assignments[a].from then Some(InvalidEffectiveTime)
    else if TelemetryConflict(s, s.assignments[a], now) then Some(AssignmentTimeConflict)
    else None
  }

  function Closed(assignments: map<Id, Assignment>, a: Id, now: int): map<Id, Assignment>
    requires a in assignments
  {
    assignments[a := assignments[a].(until := Some(now))]
  }

  /** The rows after a plan takes effect at one instant. */
  function Applied(s: Registry, p: Plan, x: Context): Registry
    requires p.close.Some? ==> p.close.value in s.assignments
  {
    var closed := if p.close.Some? then Closed(s.assignments, p.close.value, x.now) else s.assignments;
    s.(assignments := if p.open.Some? then closed[x.newId := Assignment(p.open.value.0, p.open.value.1, x.now, None)]
                      else closed)
  }

  /** What a fresh command decides on the current rows: the new rows and the response. */
  function Decide(s: Registry, r: Request, x: Context): Result<(Registry, Response)> {
    match r
    case CreatePoint(shop, name) =>
      if !ValidName(name) then Err(InvalidRequest)
      else if shop !in s.shops then Err(ShopNotFound)
      else if !x.allowed then Err(ScopeDenied)
      else if x.newId in s.points then Err(Persistence)
      else Ok((s.(points := s.points[x.newId := shop]), Response(x.operation, None, Some(x.newId), None)))
    case Change(d, target) =>
      if d !in s.devices then Err(DeviceNotFound)
      else if !CanTransition(s.devices[d].lifecycle, target) then Err(if s.devices[d].lifecycle == RETIRED
      then DeviceRetired else InvalidTransition)
      else if target != ACTIVE && DeviceBusy(s, d) then Err(AlreadyAssigned)
      else Ok((s.(devices := s.devices[d := s.devices[d].(lifecycle := target)]),
               Response(x.operation, None, None, None)))
    case _ => DecideTransition(s, r, x)
  }

  /** The first plan can only refuse early; what is committed is planned on the current rows. */
  function DecideTransition(s: Registry, r: Request, x: Context): Result<(Registry, Response)>
    requires Transition(r)
  {
    if PlanFor(x.first, r, x.allowed).Err? then Err(PlanFor(x.first, r, x.allowed).error)
    else if PlanFor(s, r, x.allowed).Err? then Err(PlanFor(s, r, x.allowed).error)
    else
      var p := PlanFor(s, r, x.allowed).value;
      if p.close.Some? && CloseError(s, p.close.value, x.now).Some? then Err(CloseError(s, p.close.value, x.now).value)
      else if p.open.Some? && x.newId in s.assignments then Err(Persistence)
      else Ok((Applied(s, p, x), Response(x.operation, p.close, if p.open.Some? then Some(x.newId) else None,
                                          Some(x.now))))
  }

  /** The ledger row and, for a binding command, one audit row. */
  function Recorded(s: Registry, c: Command, response: Response, x: Context): Registry {
    s.(ledger := s.ledger[KeyOf(c) := Operation(c.request, x.operation, Some(response))],
       audits := if c.request.Change? then s.audits else s.audits + [Audit(x.operation, response.at)],
       clock := if response.at.Some? then Max(s.clock, response.at.value) else s.clock)
  }

  /** Assignments of the device and of the point that have ended did so by `now`. */
  predicate EndedBy(s: Registry, d: Id, p: Id, now: int) {
    forall i <- s.assignments :: EndsBy(s.assignments[i], d, p, now)
  }

  predicate EndsBy(a: Assignment, d: Id, p: Id, now: int) {
    (a.device == d || a.point == p) && a.until.Some? ==> a.until.value <= now
  }

  /**
   The database clock is sampled under the locks on the device and the point, and it never runs backwards: a new
   assignment starts no earlier than those of its device or its point ended. Transitions on unrelated rows may commit
   out of the order of their instants; replays and other commands sample no clock.
   */
  predicate Timely(s: Registry, c: Command, x: Context) {
    Transition(c.request) && KeyOf(c) !in s.ledger ==> PlanTimely(s, PlanFor(s, c.request, x.allowed), x.now)
  }

  predicate PlanTimely(s: Registry, p: Result<Plan>, now: int) {
    p.Ok? && p.value.open.Some? ==> EndedBy(s, p.value.open.value.0, p.value.open.value.1, now)
  }

  function Execute(s: Registry, c: Command, x: Context): (Registry, Result<Response>) {
    var k := KeyOf(c);
    if !x.admitted then (s, Err(Forbidden))
    else if k in s.ledger then
      if s.ledger[k].request != c.request then (s, Err(KeyReused))
      else if s.ledger[k].response.None? then (s, Err(ConcurrentTransition))
      else (s, Ok(s.ledger[k].response.value))
    else if OperationTaken(s, x.operation) then (s, Err(Persistence))
    else
      var d := Decide(s, c.request, x);
      if d.Err? then (s, Err(d.error))
      else if x.fault.Some? then (s, Err(x.fault.value))
      else (Recorded(d.value.0, c, d.value.1, x), Ok(d.value.1))
  }

  // ----- What every registry looks like -----

  predicate Apart(a: Assignment, b: Assignment) {
    (a.until.Some? && a.until.value <= b.from) || (b.until.Some? && b.until.value <= a.from)
  }

  predicate Related(a: Assignment, b: Assignment) { a.device == b.device || a.point == b.point }

  predicate Compatible(a: Assignment, b: Assignment) { Related(a, b) ==> Apart(a, b) }

  /** Two assignments that share a device or a measurement point never hold at the same time. */
  ghost predicate Disjoint(assignments: map<Id, Assignment>) {
    forall i, j :: i in assignments && j in assignments && i != j ==> Compatible(assignments[i], assignments[j])
  }

  ghost predicate AssignmentOk(s: Registry, i: Id) {
    i in s.assignments ==>
      var a := s.assignments[i];
      && (a.until.Some? ==> a.from < a.until.value <= s.clock)
      && a.device in s.devices && a.point in s.points
      && (a.until.None? ==> s.devices[a.device].lifecycle == ACTIVE)
  }

  ghost predicate Covered(assignments: map<Id, Assignment>, r: Reading) {
    exists i <- assignments :: Covers(assignments[i], r)
  }

  ghost predicate RowsOk(s: Registry) {
    && Disjoint(s.assignments) && (forall i :: AssignmentOk(s, i))
    && (forall r <- s.readings :: Covered(s.assignments, r))
  }

  function AuditsOf(audits: seq<Audit>, operation: Id): nat {
    if audits == []
    then 0 else AuditsOf(audits[..|audits| - 1], operation) + if Last(audits).operation == operation then 1 else 0
  }

  ghost predicate OperationOk(s: Registry, k: Key) {
    k in s.ledger ==>
      var o := s.ledger[k];
      && o.response.Some? && o.response.value.operation == o.operation && k.action == ActionOf(o.request)
      && AuditsOf(s.audits, o.operation) == if o.request.Change? then 0 else 1
  }

  ghost predicate LedgerOk(s: Registry) {
    && (forall k :: OperationOk(s, k))
    && (forall j, k :: j in s.ledger && k in s.ledger && s.ledger[j].operation == s.ledger[k].operation ==> j == k)
    && (forall i :: 0 <= i < |s.audits| ==> OperationTaken(s, s.audits[i].operation))
  }

  ghost predicate Inv(s: Registry) { RowsOk(s) && LedgerOk(s) }

  // ----- Commands keep it -----

  lemma ClosingKeepsRows(s: Registry, a: Id, now: int)
    requires RowsOk(s) && a in s.assignments && s.assignments[a].until.None?
    requires CloseError(s, a, now).None?
    ensures RowsOk(s.(assignments := Closed(s.assignments, a, now), clock := Max(s.clock, now)))
  {
    var n := s.(assignments := Closed(s.assignments, a, now), clock := Max(s.clock, now));
    forall i ensures AssignmentOk(n, i) { assert AssignmentOk(s, i); }
    forall r | r in s.readings ensures Covered(n.assignments, r) {
      var i :| i in s.assignments && Covers(s.assignments[i], r);
      assert Covers(n.assignments[i], r);
    }
  }

  lemma OpeningKeepsRows(s: Registry, id: Id, d: Id, p: Id, now: int)
    requires RowsOk(s) && EndedBy(s, d, p, now) && id !in s.assignments
    requires d in s.devices && s.devices[d].lifecycle == ACTIVE && p in s.points && !DeviceBusy(s, d)
    requires !PointBusy(s, p)
    ensures RowsOk(s.(assignments := s.assignments[id := Assignment(d, p, now, None)], clock := Max(s.clock, now)))
  {
    var n := s.(assignments := s.assignments[id := Assignment(d, p, now, None)], clock := Max(s.clock, now));
    forall i ensures AssignmentOk(n, i) { assert AssignmentOk(s, i); }
    forall i | i in s.assignments && (s.assignments[i].device == d || s.assignments[i].point == p)
      ensures Apart(s.assignments[i], n.assignments[id])
    {
      assert EndsBy(s.assignments[i], d, p, now);
    }
    forall r | r in s.readings ensures Covered(n.assignments, r) {
      var i :| i in s.assignments && Covers(s.assignments[i], r);
      assert Covers(n.assignments[i], r);
    }
  }

  /** An open assignment is alone on its device and on its point. */
  lemma ClosingFrees(s: Registry, a: Id, now: int)
    requires RowsOk(s) && a in s.assignments && s.assignments[a].until.None?
    ensures var n := s.(assignments := Closed(s.assignments, a, now), clock := Max(s.clock, now));
            && !DeviceBusy(n, s.assignments[a].device) && !PointBusy(n, s.assignments[a].point)
            && (forall d :: !DeviceBusy(s, d) ==> !DeviceBusy(n, d))
            && (forall p :: !PointBusy(s, p) ==> !PointBusy(n, p))
  {
    var n := s.(assignments := Closed(s.assignments, a, now), clock := Max(s.clock, now));
    forall i | i in n.assignments && n.assignments[i].until.None?
      ensures i != a && !Related(s.assignments[i], s.assignments[a])
    {
      assert i in s.assignments && !Apart(s.assignments[i], s.assignments[a]);
    }
  }

  lemma ClosingEndsBy(s: Registry, a: Id, d: Id, p: Id, now: int)
    requires a in s.assignments && EndedBy(s, d, p, now)
    ensures EndedBy(s.(assignments := Closed(s.assignments, a, now), clock := Max(s.clock, now)), d, p, now)
  {
    var n := Closed(s.assignments, a, now);
    forall i | i in n ensures EndsBy(n[i], d, p, now) { assert EndsBy(s.assignments[i], d, p, now); }
  }

  lemma TransitionKeepsRows(s: Registry, r: Request, x: Context)
    requires RowsOk(s) && Transition(r) && DecideTransition(s, r, x).Ok?
    requires PlanTimely(s, PlanFor(s, r, x.allowed), x.now)
    ensures RowsOk(DecideTransition(s, r, x).value.0.(clock := Max(s.clock, x.now)))
  {
    var p := PlanFor(s, r, x.allowed).value;
    if p.close.None? {
      OpeningKeepsRows(s, x.newId, p.open.value.0, p.open.value.1, x.now);
    } else {
      var a := p.close.value;
      assert AssignmentOk(s, a);
      ClosingKeepsRows(s, a, x.now);
      ClosingFrees(s, a, x.now);
      var n := s.(assignments := Closed(s.assignments, a, x.now), clock := Max(s.clock, x.now));
      if p.open.Some? {
        ClosingEndsBy(s, a, p.open.value.0, p.open.value.1, x.now);
        OpeningKeepsRows(n, x.newId, p.open.value.0, p.open.value.1, x.now);
      }
    }
  }

  lemma ChangeKeepsRows(s: Registry, d: Id, target: Lifecycle)
    requires RowsOk(s) && d in s.devices && (target != ACTIVE ==> !DeviceBusy(s, d))
    ensures RowsOk(s.(devices := s.devices[d := s.devices[d].(lifecycle := target)]))
  {
    var n := s.(devices := s.devices[d := s.devices[d].(lifecycle := target)]);
    forall i ensures AssignmentOk(n, i) { assert AssignmentOk(s, i); }
  }

  lemma PointKeepsRows(s: Registry, p: Id, shop: Id)
    requires RowsOk(s)
    ensures RowsOk(s.(points := s.points[p := shop]))
  {
    var n := s.(points := s.points[p := shop]);
    forall i ensures AssignmentOk(n, i) { assert AssignmentOk(s, i); }
  }

  lemma DecisionKeepsRows(s: Registry, r: Request, x: Context)
    requires RowsOk(s) && (Transition(r) ==> PlanTimely(s, PlanFor(s, r, x.allowed), x.now)) && Decide(s, r, x).Ok?
    ensures RowsOk(Decide(s, r, x).value.0.(clock := if Transition(r) then Max(s.clock, x.now) else s.clock))
  {
    hide RowsOk;
    match r
    case CreatePoint(shop, _) => PointKeepsRows(s, x.newId, shop);
    case Change(d, target) => ChangeKeepsRows(s, d, target);
    case _ => TransitionKeepsRows(s, r, x);
  }

  /** A decision concerns rows only; its response carries the operation that asked for it. */
  lemma DecisionLeavesLedger(s: Registry, r: Request, x: Context)
    requires Decide(s, r, x).Ok?
    ensures var (n, response) := Decide(s, r, x).value;
            && n.ledger == s.ledger && n.audits == s.audits && n.readings == s.readings && n.clock == s.clock
            && response.operation == x.operation && response.at == if Transition(r) then Some(x.now) else None
  {
  }

  lemma {:induction false} NoAuditsOf(audits: seq<Audit>, operation: Id)
    requires forall i :: 0 <= i < |audits| ==> audits[i].operation != operation
    ensures AuditsOf(audits, operation) == 0
  {
    if audits != [] { NoAuditsOf(audits[..|audits| - 1], operation); }
  }

  lemma {:induction false} AuditAppended(audits: seq<Audit>, a: Audit, operation: Id)
    ensures AuditsOf(audits + [a], operation) == AuditsOf(audits, operation) + if a.operation == operation then 1 else 0
  {
    assert (audits + [a])[..|audits|] == audits;
  }

  lemma {:induction false} RecordingKeepsOperation(s: Registry, c: Command, response: Response, x: Context, j: Key)
    requires LedgerOk(s) && KeyOf(c) !in s.ledger && !OperationTaken(s, x.operation)
    requires response.operation == x.operation
    ensures OperationOk(Recorded(s, c, response, x), j)
  {
    assert OperationOk(s, j);
    NoAuditsOf(s.audits, x.operation);
    AuditAppended(s.audits, Audit(x.operation, response.at), if j in s.ledger then s.ledger[j].operation
                                                             else x.operation);
  }

  lemma {:induction false} RecordingKeepsAudits(s: Registry, c: Command, response: Response, x: Context, i: nat)
    requires LedgerOk(s) && KeyOf(c) !in s.ledger && i < |Recorded(s, c, response, x).audits|
    ensures OperationTaken(Recorded(s, c, response, x), Recorded(s, c, response, x).audits[i].operation)
  {
    var n := Recorded(s, c, response, x);
    if i < |s.audits| {
      assert OperationTaken(s, s.audits[i].operation);
      var j :| j in s.ledger && s.ledger[j].operation == s.audits[i].operation;
      assert n.ledger[j].operation == n.audits[i].operation;
    } else {
      assert n.ledger[KeyOf(c)].operation == n.audits[i].operation;
    }
  }

  lemma {:induction false} RecordingKeepsLedger(s: Registry, c: Command, response: Response, x: Context)
    requires LedgerOk(s) && KeyOf(c) !in s.ledger && !OperationTaken(s, x.operation)
    requires response.operation == x.operation
    ensures LedgerOk(Recorded(s, c, response, x))
  {
    var n := Recorded(s, c, response, x);
    forall j ensures OperationOk(n, j) { RecordingKeepsOperation(s, c, response, x, j); }
    forall i | 0 <= i < |n.audits|
      ensures OperationTaken(n, n.audits[i].operation)
    {
      RecordingKeepsAudits(s, c, response, x, i);
    }
  }

  lemma ExecuteKeepsInv(s: Registry, c: Command, x: Context)
    requires Inv(s) && Timely(s, c, x)
    ensures Inv(Execute(s, c, x).0)
  {
    var d := Decide(s, c.request, x);
    if d.Ok? && KeyOf(c) !in s.ledger && !OperationTaken(s, x.operation) {
      hide Decide, DecideTransition;
      DecisionKeepsRows(s, c.request, x);
      DecisionLeavesLedger(s, c.request, x);
      var n := d.value.0;
      SameLedger(s, n);
      RecordingKeepsLedger(n, c, d.value.1, x);
      SameRows(n.(clock := if Transition(c.request) then Max(s.clock, x.now)
                           else s.clock), Recorded(n, c, d.value.1, x));
    }
  }

  lemma SameLedger(s: Registry, n: Registry)
    requires LedgerOk(s) && n.ledger == s.ledger && n.audits == s.audits
    ensures LedgerOk(n)
    ensures forall o :: OperationTaken(n, o) <==> OperationTaken(s, o)
  {
    forall k ensures OperationOk(n, k) { assert OperationOk(s, k); }
    forall i | 0 <= i < |n.audits|
      ensures OperationTaken(n, n.audits[i].operation)
    {
      assert OperationTaken(s, s.audits[i].operation);
    }
  }

  lemma SameRows(s: Registry, n: Registry)
    requires RowsOk(s) && n.devices == s.devices && n.points == s.points && n.assignments == s.assignments
    requires n.readings == s.readings && n.clock == s.clock
    ensures RowsOk(n)
  {
    forall i ensures AssignmentOk(n, i) { assert AssignmentOk(s, i); }
  }

  // ----- Readings arrive -----

  /** A reading is stored only where an assignment covers it; its time may lie ahead of the clock. */
  function Ingest(s: Registry, r: Reading): Registry {
    if exists i <- s.assignments :: Covers(s.assignments[i], r) then s.(readings := s.readings + {r}) else s
  }

  lemma IngestKeepsInv(s: Registry, r: Reading)
    requires Inv(s)
    ensures Inv(Ingest(s, r))
  {
    var n := Ingest(s, r);
    SameLedger(s, n);
    forall i ensures AssignmentOk(n, i) { assert AssignmentOk(s, i); }
  }

  // ----- The executor -----

  lemma PlanIgnoresLedger(s: Registry, ledger: map<Key, Operation>, r: Request, allowed: bool)
    requires Transition(r)
    ensures PlanFor(s.(ledger := ledger), r, allowed) == PlanFor(s, r, allowed)
  {
  }

  /** Claiming a key does not influence the decision made under it. */
  lemma DecisionIgnoresLedger(s: Registry, ledger: map<Key, Operation>, r: Request, x: Context)
    ensures var (d, e) := (Decide(s, r, x), Decide(s.(ledger := ledger), r, x));
            (d.Ok? <==> e.Ok?) && if d.Ok? then e.value == (d.value.0.(ledger := ledger), d.value.1) else e == d
  {
    if Transition(r) {
      TransitionIgnoresLedger(s, ledger, r, x);
    } else if r.Change? {
      hide DecideTransition;
      assert DeviceBusy(s.(ledger := ledger), r.device) <==> DeviceBusy(s, r.device);
    }
  }

  lemma TransitionIgnoresLedger(s: Registry, ledger: map<Key, Operation>, r: Request, x: Context)
    requires Transition(r)
    ensures var (d, e) := (DecideTransition(s, r, x), DecideTransition(s.(ledger := ledger), r, x));
            (d.Ok? <==> e.Ok?) && if d.Ok? then e.value == (d.value.0.(ledger := ledger), d.value.1) else e == d
  {
    PlanIgnoresLedger(s, ledger, r, x.allowed);
    var p := PlanFor(s, r, x.allowed);
    if p.Ok? && p.value.close.Some? {
      assert CloseError(s.(ledger := ledger), p.value.close.value, x.now) == CloseError(s, p.value.close.value, x.now);
    }
    hide PlanFor;
  }

  class Executor {
    const shops: set<Id>
    var devices: map<Id, Device>
    var points: map<Id, Id>
    var assignments: map<Id, Assignment>
    var readings: set<Reading>
    var ledger: map<Key, Operation>
    var audits: seq<Audit>
    var clock: int

    function View(): Registry reads this {
      Registry(shops, devices, points, assignments, readings, ledger, audits, clock)
    }

    constructor (shops: set<Id>, devices: map<Id, Device>)
      ensures Inv(View()) && View() == Registry(shops, devices, map[], map[], {}, map[], [], 0)
    {
      this.shops, this.devices := shops, devices;
      points, assignments, readings, ledger, audits, clock := map[], map[], {}, map[], [], 0;
    }

    /** One attempt: claim the key or replay it, do the work, commit everything or nothing. */
    method ExecuteClaimed(c: Command, x: Context) returns (out: Result<Response>)
      requires Inv(View()) && Timely(View(), c, x)
      modifies this
      ensures Inv(View()) && (View(), out) == Execute(old(View()), c, x)
    {
      hide Decide, DecideTransition, Inv, ActionOf, Recorded;
      ExecuteKeepsInv(View(), c, x);
      if !x.admitted {
        return Err(Forbidden);
      }
      var k := KeyOf(c);
      if k in ledger {
        if ledger[k].request != c.request {
          return Err(KeyReused);
        }
        return if ledger[k].response.None? then Err(ConcurrentTransition) else Ok(ledger[k].response.value);
      }
      if OperationTaken(View(), x.operation) {
        return Err(Persistence);
      }
      out := ExecuteFresh(c, x);
    }

    method ExecuteFresh(c: Command, x: Context) returns (out: Result<Response>)
      requires x.admitted && KeyOf(c) !in ledger && !OperationTaken(View(), x.operation)
      modifies this
      ensures (View(), out) == Execute(old(View()), c, x)
    {
      hide Decide, DecideTransition, ActionOf, OperationTaken, Recorded;
      var before := View();
      ledger := ledger[KeyOf(c) := Operation(c.request, x.operation, None)];
      DecisionIgnoresLedger(before, ledger, c.request, x);
      if Decide(before, c.request, x).Ok? { DecisionLeavesLedger(before, c.request, x); }
      var result := Work(c.request, x);
      out := Conclude(before, c, x, result);
    }

    /** Audits and commits the result under its key, or rolls everything back. */
    method Conclude(before: Registry, c: Command, x: Context, result: Result<Response>) returns (out: Result<Response>)
      requires shops == before.shops && readings == before.readings && audits == before.audits && clock == before.clock
      requires KeyOf(c) in ledger && ledger == before.ledger[KeyOf(c) := Operation(c.request, x.operation, None)]
      modifies this
      ensures result.Ok? && x.fault.None? ==>
                out == result && View() == Recorded(old(View()).(ledger := before.ledger), c, result.value, x)
      ensures !(result.Ok? && x.fault.None?) ==>
                out == Err(if result.Err? then result.error else x.fault.value) && View() == before
    {
      hide KeyOf;
      out := result;
      if out.Ok? && !c.request.Change? {
        audits := audits + [Audit(x.operation, out.value.at)];
      }
      if out.Ok? && x.fault.Some? {
        out := Err(x.fault.value);
      }
      if out.Ok? {
        var k := KeyOf(c);
        ledger := ledger[k := ledger[k].(response := Some(out.value))];
        if out.value.at.Some? {
          clock := Max(clock, out.value.at.value);
        }
        assert ledger == before.ledger[k := Operation(c.request, x.operation, Some(out.value))];
      } else {
        devices, points, assignments := before.devices, before.points, before.assignments;
        ledger, audits := before.ledger, before.audits;
      }
    }

    method Work(r: Request, x: Context) returns (out: Result<Response>)
      modifies this`devices, this`points, this`assignments
      ensures var d := Decide(old(View()), r, x);
              (out.Ok? <==> d.Ok?) && if d.Ok? then (View(), out.value) == d.value else out.error == d.error
    {
      match r {
        case CreatePoint(shop, name) => out := CreateMeasurementPoint(shop, name, x);
        case Change(d, target) => out := ChangeLifecycle(d, target, x);
        case _ => out := MoveAssignment(r, x);
      }
    }

    method CreateMeasurementPoint(shop: Id, name: string, x: Context) returns (out: Result<Response>)
      modifies this`points
      ensures var d := Decide(old(View()), CreatePoint(shop, name), x);
              (out.Ok? <==> d.Ok?) && if d.Ok? then (View(), out.value) == d.value else out.error == d.error
    {
      if !ValidName(name) {
        return Err(InvalidRequest);
      }
      if shop !in shops {
        return Err(ShopNotFound);
      }
      if !x.allowed {
        return Err(ScopeDenied);
      }
      if x.newId in points {
        return Err(Persistence);
      }
      points := points[x.newId := shop];
      return Ok(Response(x.operation, None, Some(x.newId), None));
    }

    /** Bind, replace, relocate and unbind: plan, lock, plan again, then close and open at one sampled instant. */
    method MoveAssignment(r: Request, x: Context) returns (out: Result<Response>)
      requires Transition(r)
      modifies this`assignments
      ensures var d := DecideTransition(old(View()), r, x);
              (out.Ok? <==> d.Ok?) && if d.Ok? then (View(), out.value) == d.value else out.error == d.error
    {
      var initial := PlanFor(x.first, r, x.allowed);
      if initial.Err? {
        return Err(initial.error);
      }
      var planned := PlanFor(View(), r, x.allowed);
      if planned.Err? {
        return Err(planned.error);
      }
      var plan := planned.value;
      if plan.close.Some? {
        var current := assignments[plan.close.value];
        if x.now <= current.from {
          return Err(InvalidEffectiveTime);
        }
        if TelemetryConflict(View(), current, x.now) {
          return Err(AssignmentTimeConflict);
        }
        assignments := assignments[plan.close.value := current.(until := Some(x.now))];
      }
      if plan.open.Some? {
        if x.newId in assignments {
          return Err(Persistence);
        }
        var (device, point) := plan.open.value;
        assignments := assignments[x.newId := Assignment(device, point, x.now, None)];
      }
      return Ok(Response(x.operation, plan.close, if plan.open.Some? then Some(x.newId) else None, Some(x.now)));
    }

    method ChangeLifecycle(d: Id, target: Lifecycle, x: Context) returns (out: Result<Response>)
      modifies this`devices
      ensures var e := Decide(old(View()), Change(d, target), x);
              (out.Ok? <==> e.Ok?) && if e.Ok? then (View(), out.value) == e.value else out.error == e.error
    {
      if d !in devices {
        return Err(DeviceNotFound);
      }
      var state := devices[d].lifecycle;
      if !CanTransition(state, target) {
        return Err(if state == RETIRED then DeviceRetired else InvalidTransition);
      }
      if target == DISABLED || target == RETIRED {
        if DeviceBusy(View(), d) {
          return Err(AlreadyAssigned);
        }
      }
      devices := devices[d := devices[d].(lifecycle := target)];
      return Ok(Response(x.operation, None, None, None));
    }

    /** Commands of others that commit between two attempts. */
    method Others(others: seq<(Command, Context)>)
      requires Inv(View())
      modifies this
      ensures Inv(View()) && View() == WithOthers(old(View()), others)
    {
      for i := 0 to |others|
        invariant Inv(View()) && View() == WithOthers(old(View()), others[..i])
      {
        assert others[..i + 1][..i] == others[..i];
        TickedIsTimely(View(), others[i].0, others[i].1);
        var _ := ExecuteClaimed(others[i].0, Ticked(View(), others[i].1));
      }
      assert others[..|others|] == others;
    }

    /** A transient failure is retried in a new transaction, whatever others did in the meantime. */
    method Run(c: Command, attempts: seq<Context>,
        between: seq<seq<(Command, Context)>>) returns (out: Result<Response>)
      requires Inv(View()) && |between| == |attempts|
      modifies this
      ensures Inv(View())
      ensures out.Ok? ==> exists i :: 0 <= i < |attempts| && (View(), out) == AttemptAt(old(View()), c, attempts,
                                                                                        between, i)
      ensures out.Err? ==> exists i :: 0 <= i <= |attempts| && View() == Interleaved(old(View()), between[..i])
    {
      hide Inv, Execute;
      ghost var s := View();
      for i := 0 to |attempts|
        invariant Inv(View()) && View() == Interleaved(s, between[..i])
      {
        assert between[..i + 1][..i] == between[..i];
        Others(between[i]);
        TickedIsTimely(View(), c, attempts[i]);
        ErrorsChangeNothing(View(), c, Ticked(View(), attempts[i]));
        out := ExecuteClaimed(c, Ticked(View(), attempts[i]));
        assert (View(), out) == AttemptAt(s, c, attempts, between, i);
        if out.Ok? || out.error != Transient {
          return;
        }
      }
      return Err(ConcurrentTransition);
    }
  }

  lemma TickedIsTimely(s: Registry, c: Command, x: Context)
    requires Inv(s)
    ensures Timely(s, c, Ticked(s, x))
  {
    forall i, d, p | i in s.assignments ensures EndsBy(s.assignments[i], d, p, Max(s.clock, x.now)) {
      assert AssignmentOk(s, i);
    }
  }

  /** A sample taken after everything that has committed. */
  function Ticked(s: Registry, x: Context): Context { x.(now := Max(s.clock, x.now)) }

  function Attempt(s: Registry, c: Command, x: Context): (Registry, Result<Response>) { Execute(s, c, Ticked(s, x)) }

  function WithOthers(s: Registry, others: seq<(Command, Context)>): Registry {
    if others == [] then s
    else
      var before := WithOthers(s, others[..|others| - 1]);
      Attempt(before, Last(others).0, Last(others).1).0
  }

  function Interleaved(s: Registry, between: seq<seq<(Command, Context)>>): Registry {
    if between == [] then s else WithOthers(Interleaved(s, between[..|between| - 1]), Last(between))
  }

  function AttemptAt(s: Registry, c: Command, attempts: seq<Context>, between: seq<seq<(Command, Context)>>,
      i: nat): (Registry, Result<Response>)
    requires i < |attempts| == |between|
  {
    Attempt(Interleaved(s, between[..i + 1]), c, attempts[i])
  }

  lemma ErrorsChangeNothing(s: Registry, c: Command, x: Context)
    ensures Execute(s, c, x).1.Err? ==> Execute(s, c, x).0 == s
  {
  }
}
