/** What every run of binding commands, lifecycle commands and arriving readings guarantees. */
module AdminRuns {
  import opened Common
  import opened AdminBinding

  datatype Event = Commanded(command: Command, context: Context) | Arrived(reading: Reading)

  function Step(s: Registry, e: Event): Registry {
    match e
    case Commanded(c, x) => Execute(s, c, x).0
    case Arrived(r) => Ingest(s, r)
  }

  function After(s: Registry, run: seq<Event>): Registry {
    if run == [] then s else Step(After(s, run[..|run| - 1]), Last(run))
  }

  /** Every transition samples the clock after the assignments of its device and its point have ended. */
  ghost predicate Legal(s: Registry, run: seq<Event>) {
    run == [] || (
      && Legal(s, run[..|run| - 1])
      && (Last(run).Commanded? ==> Timely(After(s, run[..|run| - 1]), Last(run).command, Last(run).context)))
  }

  lemma {:induction false} ReachableInv(s: Registry, run: seq<Event>)
    requires Inv(s) && Legal(s, run)
    ensures Inv(After(s, run))
  {
    if run != [] {
      ReachableInv(s, run[..|run| - 1]);
      if Last(run).Commanded? {
        ExecuteKeepsInv(After(s, run[..|run| - 1]), Last(run).command, Last(run).context);
      } else {
        IngestKeepsInv(After(s, run[..|run| - 1]), Last(run).reading);
      }
    }
  }

  /** At no instant is a device on two points, or a point on two devices, and open assignments have active devices. */
  lemma Exclusive(s: Registry, run: seq<Event>, i: Id, j: Id, t: int)
    requires Inv(s) && Legal(s, run) && i in After(s, run).assignments && j in After(s, run).assignments
    requires var n := After(s, run).assignments; Related(n[i], n[j]) && During(n[i], t) && During(n[j], t)
    ensures i == j
    ensures var n := After(s, run);
            var d := n.assignments[i].device;
            n.assignments[i].until.None? ==> d in n.devices && n.devices[d].lifecycle == ACTIVE
  {
    ReachableInv(s, run);
    assert AssignmentOk(After(s, run), i);
  }

  /** Every committed reading keeps an assignment that covers it, and by `Exclusive` only one. */
  lemma ReadingsKeepTheirAssignment(s: Registry, run: seq<Event>, r: Reading)
    requires Inv(s) && Legal(s, run) && r in After(s, run).readings
    ensures Covered(After(s, run).assignments, r)
  {
    ReachableInv(s, run);
  }

  // ----- What a step keeps -----

  ghost predicate AssignmentGrows(a: Assignment, b: Assignment) {
    b == a.(until := b.until) && (a.until.Some? ==> b == a)
  }

  ghost predicate Grows(s: Registry, n: Registry) {
    && s.readings <= n.readings
    && (forall i <- s.assignments :: i in n.assignments && AssignmentGrows(s.assignments[i], n.assignments[i]))
    && (forall d <- s.devices :: d in n.devices && (s.devices[d].lifecycle == RETIRED ==> n.devices[d] == s.devices[d]))
    && (forall k <- s.ledger :: k in n.ledger && n.ledger[k] == s.ledger[k])
    && s.audits <= n.audits
  }

  lemma TransitionGrows(s: Registry, r: Request, x: Context)
    requires Transition(r) && DecideTransition(s, r, x).Ok?
    ensures Grows(s, DecideTransition(s, r, x).value.0)
  {
  }

  lemma DecisionGrows(s: Registry, r: Request, x: Context)
    requires Decide(s, r, x).Ok?
    ensures Grows(s, Decide(s, r, x).value.0)
  {
    if Transition(r) { TransitionGrows(s, r, x); }
  }

  lemma RecordingGrows(s: Registry, n: Registry, c: Command, response: Response, x: Context)
    requires Grows(s, n) && n.ledger == s.ledger && KeyOf(c) !in s.ledger
    ensures Grows(s, Recorded(n, c, response, x))
  {
  }

  lemma StepGrows(s: Registry, e: Event)
    ensures Grows(s, Step(s, e))
  {
    hide Decide, DecideTransition;
    if e.Commanded? {
      var d := Decide(s, e.command.request, e.context);
      if d.Ok? && KeyOf(e.command) !in s.ledger {
        DecisionGrows(s, e.command.request, e.context);
        DecisionLeavesLedger(s, e.command.request, e.context);
        RecordingGrows(s, d.value.0, e.command, d.value.1, e.context);
      }
    }
  }

  lemma GrowsTransitive(s: Registry, m: Registry, n: Registry)
    requires Grows(s, m) && Grows(m, n)
    ensures Grows(s, n)
  {
  }

  /** Over every run: closed assignments, retired devices, ledger rows, audits and readings are permanent. */
  lemma {:induction false} RunGrows(s: Registry, run: seq<Event>)
    ensures Grows(s, After(s, run))
  {
    if run != [] {
      var m := After(s, run[..|run| - 1]);
      RunGrows(s, run[..|run| - 1]);
      StepGrows(m, Last(run));
      GrowsTransitive(s, m, After(s, run));
    }
  }

  // ----- Idempotency -----

  /**
   After an accepted command and any further events, the same command again answers with the same response
   and changes nothing, and another request under the same key is refused, whatever the rows look like by then.
   */
  lemma Idempotent(s: Registry, c: Command, x: Context, run: seq<Event>, other: Request, y: Context)
    requires Inv(s) && Execute(s, c, x).1.Ok? && y.admitted
    ensures var later := After(Execute(s, c, x).0, run);
            && Execute(later, c, y) == (later, Execute(s, c, x).1)
            && (ActionOf(other) == ActionOf(c.request) && other != c.request ==>
                  Execute(later, c.(request := other), y) == (later, Err(KeyReused)))
  {
    assert OperationOk(s, KeyOf(c));
    RunGrows(Execute(s, c, x).0, run);
  }

  /**
   Every visible ledger row is committed; a binding operation has exactly one audit row, a lifecycle operation none.
   */
  lemma {:induction false} LedgerIsCommitted(s: Registry, run: seq<Event>, k: Key)
    requires Inv(s) && Legal(s, run) && k in After(s, run).ledger
    ensures var n := After(s, run);
            n.ledger[k].response.Some? && AuditsOf(n.audits, n.ledger[k].operation) == if k.action.ActionChange? then 0
                                                                                       else 1
  {
    ReachableInv(s, run);
    hide After, Legal, AuditsOf;
    assert OperationOk(After(s, run), k);
  }

  // ----- Handover -----

  /** Beside assignments, ledger and clock only one audit row of the command's instant is added. */
  predicate OnlyAssignments(s: Registry, n: Registry, x: Context) {
    && n.shops == s.shops && n.devices == s.devices && n.points == s.points && n.readings == s.readings
    && n.audits == s.audits + [Audit(x.operation, Some(x.now))] && n.clock == Max(s.clock, x.now)
  }

  /** Replace and relocate end one assignment and start the next at the same instant, which the response names. */
  lemma Handover(s: Registry, c: Command, x: Context)
    requires KeyOf(c) !in s.ledger && (c.request.Replace? || c.request.Relocate?) && Execute(s, c, x).1.Ok?
    ensures var (n, out) := Execute(s, c, x);
            var a := c.request.assignment;
            && out.value == Response(x.operation, Some(a), Some(x.newId), Some(x.now))
            && a in s.assignments && s.assignments[a].until.None? && x.newId !in s.assignments
            && n.assignments ==
              s.assignments[a := s.assignments[a].(until := Some(x.now))][x.newId := n.assignments[x.newId]]
            && n.assignments[x.newId] ==
              (if c.request.Replace? then Assignment(c.request.device, s.assignments[a].point, x.now, None)
                                          else Assignment(s.assignments[a].device, c.request.point, x.now, None))
            && s.assignments[a].from < x.now
            && (forall r <- s.readings :: Covers(s.assignments[a], r) ==> r.at < x.now)
            && OnlyAssignments(s, n, x)
  {
  }

  /**
   After an accepted replace or relocate and any further events, the table still shows the handover: the old
   assignment ends and the new one begins at the one instant of the response, at the same point for a replacement
   and of the same device for a relocation.
   */
  lemma HandoverLasts(s: Registry, c: Command, x: Context, run: seq<Event>)
    requires KeyOf(c) !in s.ledger && (c.request.Replace? || c.request.Relocate?) && Execute(s, c, x).1.Ok?
    ensures var later := After(Execute(s, c, x).0, run).assignments;
            var (a, b) := (c.request.assignment, x.newId);
            && Execute(s, c, x).1.value.at == Some(x.now) && a in later && b in later && a != b
            && later[a].from < x.now && later[a].until == Some(x.now) && later[b].from == x.now
            && (if c.request.Replace? then later[b].point == later[a].point && later[b].device == c.request.device
                else later[b].device == later[a].device && later[b].point == c.request.point)
  {
    Handover(s, c, x);
    hide Execute;
    RunGrows(Execute(s, c, x).0, run);
  }

  // ----- Locks -----

  /**
   The rows to lock come from the first plan and the rows to write from the second. Whatever committed in between,
   if both plans succeed they are the same plan, and the assignment to close names the same device and point.
   */
  lemma LocksCoverWrites(first: Registry, s: Registry, r: Request, allowed: bool, still: bool)
    requires Grows(first, s) && Transition(r) && PlanFor(first, r, allowed).Ok? && PlanFor(s, r, still).Ok?
    ensures PlanFor(first, r, allowed) == PlanFor(s, r, still)
    ensures var a := PlanFor(s, r, still).value.close;
            a.Some? ==> first.assignments[a.value] == s.assignments[a.value]
  {
  }

  /** So a command whose first plan was made at an earlier point of the run writes only rows it has locked. */
  lemma LocksCoverWritesInRuns(s: Registry, run: seq<Event>, r: Request, allowed: bool, still: bool)
    requires Transition(r) && PlanFor(s, r, allowed).Ok? && PlanFor(After(s, run), r, still).Ok?
    ensures PlanFor(s, r, allowed) == PlanFor(After(s, run), r, still)
  {
    RunGrows(s, run);
    LocksCoverWrites(s, After(s, run), r, allowed, still);
  }

  // ----- The first plan -----

  lemma DecisionIgnoresFirst(s: Registry, r: Request, x: Context)
    ensures || Decide(s, r, x) == Decide(s, r, x.(first := s))
            || (Transition(r) && PlanFor(x.first, r, x.allowed).Err?
                && Decide(s, r, x) == Err(PlanFor(x.first, r, x.allowed).error))
  {
    hide PlanFor, CloseError;
  }

  /**
   Whatever happened between the first plan and the locks, the outcome is that of planning on the current rows, or
   the first plan's refusal.
   */
  lemma FirstPlanOnlyRefuses(s: Registry, c: Command, x: Context)
    ensures var current := Execute(s, c, x.(first := s));
            || Execute(s, c, x) == current
            || (Transition(c.request) && PlanFor(x.first, c.request, x.allowed).Err?
                && Execute(s, c, x) == (s, Err(PlanFor(x.first, c.request, x.allowed).error)))
  {
    hide Decide, DecideTransition, PlanFor, ActionOf;
    DecisionIgnoresFirst(s, c.request, x);
  }

  // ----- When a command succeeds -----

  /** The device is registered with its identifiers, active, and without an open assignment. */
  predicate Available(s: Registry, d: Id) { d in s.devices && s.devices[d] == Device(true, ACTIVE) && DeviceFree(s, d) }

  predicate DeviceFree(s: Registry, d: Id) {
    forall a <- s.assignments :: s.assignments[a].device == d ==> s.assignments[a].until.Some?
  }

  predicate PointFree(s: Registry, p: Id) {
    forall a <- s.assignments :: s.assignments[a].point == p ==> s.assignments[a].until.Some?
  }

  /** The assignment is open, and its device and point are registered. */
  predicate IsOpen(s: Registry, a: Id) {
    && a in s.assignments && s.assignments[a].until.None?
    && s.assignments[a].point in s.points && s.assignments[a].device in s.devices
  }

  /** What the rows must allow for a binding command to be planned. */
  predicate Plannable(s: Registry, r: Request) {
    match r
    case Bind(d, p) => Available(s, d) && p in s.points && PointFree(s, p)
    case Replace(a, d) => IsOpen(s, a) && d != s.assignments[a].device && Available(s, d)
    case Relocate(a, p) => IsOpen(s, a) && p != s.assignments[a].point && p in s.points && PointFree(s, p)
    case Unbind(a) => IsOpen(s, a)
    case _ => false
  }

  lemma PlanSucceedsIff(s: Registry, r: Request, allowed: bool)
    requires Transition(r)
    ensures PlanFor(s, r, allowed).Ok? <==> allowed && Plannable(s, r)
  {
  }

  /** The assignment began before the instant, and all its readings are from before it. */
  predicate EndsCleanly(s: Registry, a: Id, now: int)
    requires a in s.assignments
  {
    var b := s.assignments[a];
    && b.from < now
    && (forall r <- s.readings ::
          r.device == b.device && r.point == b.point && b.from <= r.at && (b.until.None? || r.at < b.until.value) ==>
            r.at < now)
  }

  predicate Named(name: string) {
    (exists c <- name :: c != ' ' && c != '\t' && c != '\r' && c != '\n') && |name| <= 100
  }

  /** What a command whose key is new needs of the rows, beyond admission, a new operation and no fault. */
  predicate Possible(s: Registry, r: Request, x: Context) {
    match r
    case CreatePoint(shop, name) => Named(name) && shop in s.shops && x.allowed && x.newId !in s.points
    case Change(d, target) =>
      && d in s.devices && s.devices[d].lifecycle != RETIRED && s.devices[d].lifecycle != target
      && (target == ACTIVE || DeviceFree(s, d))
    case Bind(_, _) => x.allowed && Plannable(x.first, r) && Plannable(s, r) && x.newId !in s.assignments
    case Unbind(a) => x.allowed && Plannable(x.first, r) && Plannable(s, r) && EndsCleanly(s, a, x.now)
    case _ =>
      && x.allowed && Plannable(x.first, r) && Plannable(s, r) && EndsCleanly(s, r.assignment, x.now)
      && x.newId !in s.assignments
  }

  lemma TransitionPossible(s: Registry, r: Request, x: Context)
    requires Transition(r)
    ensures DecideTransition(s, r, x).Ok? <==> Possible(s, r, x)
  {
    PlanSucceedsIff(s, r, x.allowed);
    PlanSucceedsIff(x.first, r, x.allowed);
    var p := PlanFor(s, r, x.allowed);
    if p.Ok? && p.value.close.Some? {
      ClosePossible(s, p.value.close.value, x.now);
    }
    hide Plannable, EndsCleanly, CloseError;
  }

  lemma ClosePossible(s: Registry, a: Id, now: int)
    requires a in s.assignments
    ensures CloseError(s, a, now).None? <==> EndsCleanly(s, a, now)
  {
  }

  lemma DecisionPossible(s: Registry, r: Request, x: Context)
    ensures Decide(s, r, x).Ok? <==> Possible(s, r, x)
  {
    if Transition(r) { TransitionPossible(s, r, x); }
    hide DecideTransition, Plannable, EndsCleanly;
    if r.Change? { assert DeviceBusy(s, r.device) <==> !DeviceFree(s, r.device); }
  }

  /** A command under a new key succeeds exactly when it is admitted, unhindered and possible on the rows. */
  lemma CommandSucceedsIff(s: Registry, c: Command, x: Context)
    requires KeyOf(c) !in s.ledger
    ensures Execute(s, c, x).1.Ok? <==>
            && x.admitted && x.fault.None? && (forall k <- s.ledger :: s.ledger[k].operation != x.operation)
            && Possible(s, c.request, x)
  {
    DecisionPossible(s, c.request, x);
    hide Decide, Possible, ActionOf;
  }

  /** What a refusal says of the rows. */
  predicate Explains(s: Registry, r: Request, x: Context, e: Error) {
    var closes := r.Replace? || r.Relocate? || r.Unbind?;
    var device := if r.Bind? || r.Replace? || r.Change? then Some(r.device) else None;
    var point := if r.Bind? || r.Relocate? then Some(r.point) else None;
    var ending := if closes && r.assignment in s.assignments then Some(s.assignments[r.assignment]) else None;
    match e
    case InvalidRequest => r.CreatePoint? && !Named(r.name)
    case ShopNotFound => r.CreatePoint? && r.shop !in s.shops
    case DeviceNotFound =>
      (device.Some? && device.value !in s.devices) || (ending.Some? && ending.value.device !in s.devices)
    case PointNotFound => (point.Some? && point.value !in s.points) || (ending.Some? && ending.value.point !in s.points)
    case AssignmentNotFound => closes && ending.None?
    case AssignmentNotCurrent => ending.Some? && ending.value.until.Some?
    case NotEligible => device.Some? && device.value in s.devices && !s.devices[device.value].identified
    case DeviceDisabled => device.Some? && device.value in s.devices && s.devices[device.value].lifecycle == DISABLED
    case DeviceRetired => device.Some? && device.value in s.devices && s.devices[device.value].lifecycle == RETIRED
    case ScopeDenied => !x.allowed
    case AlreadyAssigned => device.Some? && !DeviceFree(s, device.value)
    case Occupied => point.Some? && !PointFree(s, point.value)
    case InvalidTransition =>
      || (ending.Some? && r.Replace? && r.device == ending.value.device)
      || (ending.Some? && r.Relocate? && r.point == ending.value.point)
      || (r.Change? && r.device in s.devices && s.devices[r.device].lifecycle == r.target)
    case InvalidEffectiveTime => ending.Some? && x.now <= ending.value.from
    case AssignmentTimeConflict => ending.Some? && exists q <- s.readings :: Covers(ending.value, q) && q.at >= x.now
    case Persistence =>
      || (!closes && !r.Bind? && x.newId in s.points) || x.newId in s.assignments
      || OperationTaken(s, x.operation)
    case _ => false
  }

  /** Replacing a device by itself, or moving it to its own point, is an invalid transition, not an occupied one. */
  lemma SameTargetIsInvalid(s: Registry, r: Request, allowed: bool)
    requires (r.Replace? || r.Relocate?) && IsOpen(s, r.assignment)
    requires if r.Replace?
             then r.device == s.assignments[r.assignment].device && s.devices[r.device] == Device(true, ACTIVE)
             else r.point == s.assignments[r.assignment].point
    ensures PlanFor(s, r, allowed) == Err(InvalidTransition)
  {
  }

  lemma PlanRefusal(s: Registry, r: Request, x: Context)
    requires Transition(r) && PlanFor(s, r, x.allowed).Err?
    ensures Explains(s, r, x, PlanFor(s, r, x.allowed).error)
  {
    if r.Bind? || r.Replace? { assert DeviceBusy(s, r.device) <==> !DeviceFree(s, r.device); }
    if r.Bind? || r.Relocate? { assert PointBusy(s, r.point) <==> !PointFree(s, r.point); }
  }

  lemma DecisionRefusal(s: Registry, r: Request, x: Context)
    requires Decide(s, r, x).Err?
    ensures || Explains(s, r, x, Decide(s, r, x).error)
            || (Transition(r) && Explains(x.first, r, x, Decide(s, r, x).error))
  {
    if Transition(r) {
      if PlanFor(x.first, r, x.allowed).Err? {
        PlanRefusal(x.first, r, x);
      } else if PlanFor(s, r, x.allowed).Err? {
        PlanRefusal(s, r, x);
      }
    } else if r.Change? {
      assert DeviceBusy(s, r.device) <==> !DeviceFree(s, r.device);
    }
  }

  /** Every refusal of a command under a new key has its cause: admission, a fault, or the rows of one of its plans. */
  lemma RefusalIsExplained(s: Registry, c: Command, x: Context)
    requires KeyOf(c) !in s.ledger && Execute(s, c, x).1.Err?
    ensures var e := Execute(s, c, x).1.error;
            || (e == Forbidden && !x.admitted) || x.fault == Some(e)
            || Explains(s, c.request, x, e) || (Transition(c.request) && Explains(x.first, c.request, x, e))
  {
    if Decide(s, c.request, x).Err? { DecisionRefusal(s, c.request, x); }
    hide Decide, ActionOf;
  }

  /**
   An accepted lifecycle command leaves the device in the requested state and an accepted creation leaves the point in
   its shop; nothing else changes but the ledger and, for a creation, one audit.
   */
  lemma ChangeTakesEffect(s: Registry, c: Command, x: Context)
    requires KeyOf(c) !in s.ledger && (c.request.Change? || c.request.CreatePoint?) && Execute(s, c, x).1.Ok?
    ensures var n := Execute(s, c, x).0;
            && n.assignments == s.assignments && n.readings == s.readings && n.clock == s.clock && n.shops == s.shops
            && n.ledger.Keys == s.ledger.Keys + {KeyOf(c)}
            && Execute(s, c, x).1.value ==
               Response(x.operation, None, if c.request.Change? then None else Some(x.newId), None)
            && if c.request.Change? then
                 && n.points == s.points && n.audits == s.audits && n.devices.Keys == s.devices.Keys
                 && (forall d <- s.devices :: n.devices[d] == if d == c.request.device
                                                              then Device(s.devices[d].identified, c.request.target)
                                                              else s.devices[d])
               else
                 && n.devices == s.devices && n.audits == s.audits + [Audit(x.operation, None)]
                 && x.newId !in s.points && n.points == s.points[x.newId := c.request.shop]
  {
  }

  // ----- Bindings and retirements last -----

  /** Bind starts one assignment of an active, identified, free device to a free point; unbind only ends one. */
  lemma BindAndUnbind(s: Registry, c: Command, x: Context)
    requires KeyOf(c) !in s.ledger && (c.request.Bind? || c.request.Unbind?) && Execute(s, c, x).1.Ok?
    ensures OnlyAssignments(s, Execute(s, c, x).0, x)
    ensures Execute(s, c, x).1.value == if c.request.Bind? then Response(x.operation, None, Some(x.newId), Some(x.now))
                                        else Response(x.operation, Some(c.request.assignment), None, Some(x.now))
    ensures var n := Execute(s, c, x).0;
            if c.request.Bind? then
              && s.devices[c.request.device] == Device(true, ACTIVE) && c.request.point in s.points
              && !DeviceBusy(s, c.request.device) && !PointBusy(s, c.request.point) && x.newId !in s.assignments
              && n.assignments == s.assignments[x.newId := Assignment(c.request.device, c.request.point, x.now, None)]
            else
              && c.request.assignment in s.assignments && s.assignments[c.request.assignment].until.None?
              && n.assignments == Closed(s.assignments, c.request.assignment, x.now)
              && s.assignments[c.request.assignment].from < x.now
              && (forall r <- s.readings :: Covers(s.assignments[c.request.assignment], r) ==> r.at < x.now)
  {
  }

  /** After an accepted bind or unbind and any further events, the table still shows what it did and when. */
  lemma BindAndUnbindLast(s: Registry, c: Command, x: Context, run: seq<Event>)
    requires KeyOf(c) !in s.ledger && (c.request.Bind? || c.request.Unbind?) && Execute(s, c, x).1.Ok?
    ensures var later := After(Execute(s, c, x).0, run).assignments;
            if c.request.Bind? then
              && x.newId in later && later[x.newId].from == x.now
              && later[x.newId].device == c.request.device && later[x.newId].point == c.request.point
            else
              && c.request.assignment in later
              && later[c.request.assignment] == s.assignments[c.request.assignment].(until := Some(x.now))
  {
    BindAndUnbind(s, c, x);
    hide Execute;
    RunGrows(Execute(s, c, x).0, run);
  }

  lemma RetiredDevice(s: Registry, c: Command, x: Context)
    requires c.request.Change? && c.request.target == RETIRED && KeyOf(c) !in s.ledger && Execute(s, c, x).1.Ok?
    ensures var d := c.request.device;
            d in Execute(s, c, x).0.devices && Execute(s, c, x).0.devices[d].lifecycle == RETIRED
  {
  }

  /**
   Once a device is retired, in every further run it stays retired, carries no open assignment, cannot be bound or
   replace another device, and accepts no lifecycle command.
   */
  lemma RetirementIsFinal(s: Registry, c: Command, x: Context, run: seq<Event>)
    requires Inv(s) && Timely(s, c, x) && Legal(Execute(s, c, x).0, run)
    requires c.request.Change? && c.request.target == RETIRED && KeyOf(c) !in s.ledger && Execute(s, c, x).1.Ok?
    ensures var (later, d) := (After(Execute(s, c, x).0, run), c.request.device);
            && d in later.devices && later.devices[d].lifecycle == RETIRED && !DeviceBusy(later, d)
            && (forall p, allowed :: PlanBind(later, d, p, allowed).Err?)
            && (forall a, allowed :: PlanReplace(later, a, d, allowed).Err?)
            && (forall target, y :: Decide(later, Change(d, target), y) == Err(DeviceRetired))
  {
    var n := Execute(s, c, x).0;
    RetiredDevice(s, c, x);
    ExecuteKeepsInv(s, c, x);
    hide Execute, Inv, Legal;
    ReachableInv(n, run);
    RunGrows(n, run);
    RetiredIsFree(After(n, run), c.request.device);
  }

  lemma RetiredIsFree(s: Registry, d: Id)
    requires Inv(s) && d in s.devices && s.devices[d].lifecycle == RETIRED
    ensures !DeviceBusy(s, d)
  {
    forall i | i in s.assignments && s.assignments[i].device == d ensures s.assignments[i].until.Some? {
      assert AssignmentOk(s, i);
    }
  }
}
