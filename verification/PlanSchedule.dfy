/**
 The month-indexed billing plan schedule of one shop, its tariff, and the plan selected for an estimate.
 Assignment bounds are first days of business months, so a month index stands for each date. A command is
 one committed transaction; the actor is assumed to be allowed to give it.
 */
module PlanSchedule {
  import opened Common

  const COMMERCIAL := "LIGHTING_COMMERCIAL"
  const NONCOMMERCIAL := "LIGHTING_NONCOMMERCIAL"
  const PLAN_COMMERCIAL := "LIGHTING_COMMERCIAL_NON_TOU"
  const PLAN_RESIDENTIAL := "LIGHTING_NONCOMMERCIAL_RESIDENTIAL_NON_TOU"
  const PLAN_NONRESIDENTIAL := "LIGHTING_NONCOMMERCIAL_NONRESIDENTIAL_NON_TOU"

  type Plan = string
  type Tariff = string
  /** The catalogue table: plan code to the tariff it belongs to. */
  type Catalog = map<Plan, Tariff>

  datatype Row = Row(plan: Plan, from: int, until: Option<int>)

  datatype Shop = Shop(tariff: Option<Tariff>, rows: seq<Row>)

  datatype Command = SetPlan(plan: Plan, month: int) | SetTariff(tariff: Tariff)

  datatype Outcome = Done | UnsupportedPlan | TariffMismatch | HistoryConflict | OverlapRefused

  datatype Selection = Selected(plan: Plan) | ConfigurationRequired | UnsupportedPeriod | UnsupportedTariff

  function PlanTariff(plan: Plan): Tariff {
    if plan == PLAN_COMMERCIAL then COMMERCIAL
    else if plan == PLAN_RESIDENTIAL || plan == PLAN_NONRESIDENTIAL then NONCOMMERCIAL
    else ""
  }

  predicate IsSupportedPlan(plan: Plan) { plan in [PLAN_COMMERCIAL, PLAN_RESIDENTIAL, PLAN_NONRESIDENTIAL] }

  predicate CompatiblePlan(tariff: Tariff, plan: Plan) { IsSupportedPlan(plan) && PlanTariff(plan) == tariff }

  predicate Offered(catalog: Catalog, shop: Shop, plan: Plan) {
    && plan in catalog && shop.tariff.Some? && CompatiblePlan(shop.tariff.value, plan)
    && shop.tariff.value == catalog[plan]
  }

  // ----- Rows -----

  predicate InForce(r: Row, month: int) { r.from <= month && (r.until.None? || month < r.until.value) }

  predicate Meets(r: Row, from: int, until: Option<int>) {
    (until.None? || r.from < until.value) && (r.until.None? || from < r.until.value)
  }

  /** The index of the row in force with the latest start. */
  function CurrentIndex(rows: seq<Row>, month: int): (i: Option<nat>)
    ensures i.Some? ==> i.value < |rows| && InForce(rows[i.value], month)
  {
    if rows == [] then None
    else
      var earlier := CurrentIndex(rows[..|rows| - 1], month);
      if InForce(Last(rows), month) && (earlier.None? || rows[earlier.value].from < Last(rows).from)
      then Some(|rows| - 1) else earlier
  }

  function StartingIndex(rows: seq<Row>, month: int): (i: Option<nat>)
    ensures i.Some? ==> i.value < |rows| && rows[i.value].from == month
    ensures i.None? ==> forall r <- rows :: r.from != month
  {
    if rows == [] then None
    else if Last(rows).from == month then Some(|rows| - 1)
    else StartingIndex(rows[..|rows| - 1], month)
  }

  /** The storage constraint: an open row may not overlap another row of the shop. */
  predicate Refused(rows: seq<Row>, from: int) { exists r <- rows :: Meets(r, from, None) }

  function Effective(rows: seq<Row>, month: int): Option<Plan> {
    var i := CurrentIndex(rows, month);
    if i.None? then None else Some(rows[i.value].plan)
  }

  // ----- The two commands -----

  class ShopBilling {
    const catalog: Catalog
    var tariff: Option<Tariff>
    var rows: seq<Row>

    ghost function View(): Shop reads this { Shop(tariff, rows) }

    constructor (catalog: Catalog)
      ensures View() == Shop(None, []) && this.catalog == catalog
    {
      this.catalog := catalog;
      tariff, rows := None, [];
    }

    method SetBillingPlan(plan: Plan, month: int) returns (outcome: Outcome)
      modifies this
      ensures (View(), outcome) == Step(catalog, old(View()), SetPlan(plan, month))
    {
      if plan !in catalog {
        return UnsupportedPlan;
      }
      if tariff.None? || !CompatiblePlan(tariff.value, plan) || tariff.value != catalog[plan] {
        return TariffMismatch;
      }
      var before := rows;
      var current := CurrentIndex(rows, month);
      var target := month;
      if current.Some? {
        target := month + 1;
      }
      var scheduled := StartingIndex(rows, target);
      if scheduled.Some? {
        assert rows[scheduled.value := rows[scheduled.value]] == rows;
        if rows[scheduled.value].plan != plan {
          rows := rows[scheduled.value := rows[scheduled.value].(plan := plan)];
        }
        return Done;
      }
      if current.Some? {
        if rows[current.value].plan == plan {
          return Done;
        }
        rows := rows[current.value := rows[current.value].(until := Some(target))];
      }
      if Refused(rows, target) {
        rows := before;
        return OverlapRefused;
      }
      rows := rows + [Row(plan, target, None)];
      return Done;
    }

    method UpdateShopTariff(newTariff: Tariff) returns (outcome: Outcome)
      modifies this
      ensures (View(), outcome) == Step(catalog, old(View()), SetTariff(newTariff))
    {
      if |rows| > 0 && (tariff.None? || tariff.value != newTariff) {
        return HistoryConflict;
      }
      tariff := Some(newTariff);
      return Done;
    }

    /** The rows that touch the month, and the checks on them. */
    method SelectEstimatePlan(month: int) returns (s: Selection)
      ensures s == Select(View(), month)
    {
      if tariff.None? || tariff.value !in [COMMERCIAL, NONCOMMERCIAL] {
        return UnsupportedTariff;
      }
      var plans: seq<Row> := [];
      for i := 0 to |rows|
        invariant plans == Touching(rows[..i], month)
      {
        assert rows[..i + 1][..i] == rows[..i];
        if rows[i].from < month + 1 && (rows[i].until.None? || rows[i].until.value > month) {
          plans := plans + [rows[i]];
        }
      }
      assert rows[..|rows|] == rows;
      if |plans| == 0 {
        return ConfigurationRequired;
      }
      if |plans| != 1 || plans[0].from > month || (plans[0].until.Some? && plans[0].until.value < month + 1) {
        return UnsupportedPeriod;
      }
      if !CompatiblePlan(tariff.value, plans[0].plan) {
        return UnsupportedTariff;
      }
      return Selected(plans[0].plan);
    }
  }

  function Touching(rows: seq<Row>, month: int): seq<Row> {
    if rows == [] then []
    else Touching(rows[..|rows| - 1], month) + if Meets(Last(rows), month, Some(month + 1)) then [Last(rows)] else []
  }

  function Select(shop: Shop, month: int): Selection {
    if shop.tariff.None? || shop.tariff.value !in [COMMERCIAL, NONCOMMERCIAL] then UnsupportedTariff
    else
      var plans := Touching(shop.rows, month);
      if plans == [] then ConfigurationRequired
      else if |plans| != 1 || plans[0].from > month || (plans[0].until.Some? && plans[0].until.value < month + 1)
      then UnsupportedPeriod
      else if !CompatiblePlan(shop.tariff.value, plans[0].plan) then UnsupportedTariff
      else Selected(plans[0].plan)
  }

  /** Close the row in force (if any) at `target` and append an open row, unless the storage constraint refuses it. */
  function Reschedule(rows: seq<Row>, current: Option<nat>, plan: Plan, target: int): (seq<Row>, Outcome)
    requires current.Some? ==> current.value < |rows|
  {
    var closed := if current.Some? then rows[current.value := rows[current.value].(until := Some(target))] else rows;
    if Refused(closed, target) then (rows, OverlapRefused)
    else (closed + [Row(plan, target, None)], Done)
  }

  function Planned(rows: seq<Row>, plan: Plan, month: int): (seq<Row>, Outcome) {
    var current := CurrentIndex(rows, month);
    var target := if current.Some? then month + 1 else month;
    var scheduled := StartingIndex(rows, target);
    if scheduled.Some? then (rows[scheduled.value := rows[scheduled.value].(plan := plan)], Done)
    else if current.Some? && rows[current.value].plan == plan then (rows, Done)
    else Reschedule(rows, current, plan, target)
  }

  function Step(catalog: Catalog, shop: Shop, c: Command): (Shop, Outcome) {
    match c
    case SetTariff(t) =>
      if shop.rows != [] && shop.tariff != Some(t) then (shop, HistoryConflict) else (shop.(tariff := Some(t)), Done)
    case SetPlan(plan, month) =>
      if plan !in catalog then (shop, UnsupportedPlan)
      else if !Offered(catalog, shop, plan) then (shop, TariffMismatch)
      else
        var (rows, outcome) := Planned(shop.rows, plan, month);
        (shop.(rows := rows), outcome)
  }

  // ----- What the schedule always looks like -----

  /** The rows tile [first month, forever) in order. */
  ghost predicate Tiles(rows: seq<Row>) {
    && (forall i {:trigger rows[i].until} ::
          0 <= i < |rows| - 1 ==> rows[i].until == Some(rows[i + 1].from) && rows[i].from < rows[i + 1].from)
    && (rows != [] ==> Last(rows).until.None?)
  }

  ghost predicate Inv(catalog: Catalog, shop: Shop, clock: int) {
    && Tiles(shop.rows) && Current(shop.rows, clock) && (shop.rows != [] ==> shop.tariff.Some?)
    && (forall r <- shop.rows :: Offered(catalog, shop, r.plan))
  }

  lemma {:induction false} StartsAscend(rows: seq<Row>, i: nat, j: nat)
    requires Tiles(rows) && i <= j < |rows|
    ensures rows[i].from <= rows[j].from
    ensures (i < j ==> rows[i].from < rows[j].from && rows[i].until.Some? && rows[i].until.value <= rows[j].from)
    decreases j
  {
    if i < j {
      StartsAscend(rows, i, j - 1);
      assert rows[j - 1].until == Some(rows[j - 1 + 1].from);
    }
  }

  /** In a tiling exactly one row is in force in each month from the first on, and the search finds it. */
  lemma {:induction false} InForceIsUnique(rows: seq<Row>, i: nat, month: int)
    requires Tiles(rows) && i < |rows| && InForce(rows[i], month)
    ensures forall j :: 0 <= j < |rows| && InForce(rows[j], month) ==> j == i
    ensures CurrentIndex(rows, month) == Some(i)
  {
    forall j | 0 <= j < |rows| && InForce(rows[j], month) ensures j == i {
      if i < j { StartsAscend(rows, i, j); }
      if j < i { StartsAscend(rows, j, i); }
    }
    UniqueIsCurrent(rows, i, month);
  }

  lemma {:induction false} UniqueIsCurrent(rows: seq<Row>, i: nat, month: int)
    requires i < |rows| && InForce(rows[i], month)
    requires forall j :: 0 <= j < |rows| && InForce(rows[j], month) ==> j == i
    ensures CurrentIndex(rows, month) == Some(i)
  {
    if i < |rows| - 1 {
      assert !InForce(rows[|rows| - 1], month);
      UniqueIsCurrent(rows[..|rows| - 1], i, month);
    } else {
      var earlier := CurrentIndex(rows[..|rows| - 1], month);
      assert forall r <- rows[..|rows| - 1] :: !InForce(r, month);
    }
  }

  lemma {:induction false} SomeRowInForce(rows: seq<Row>, month: int) returns (i: nat)
    requires Tiles(rows) && rows != [] && rows[0].from <= month
    ensures i < |rows| && InForce(rows[i], month) && CurrentIndex(rows, month) == Some(i)
  {
    i := |rows| - 1;
    while rows[i].from > month
      invariant 0 <= i < |rows| && (i < |rows| - 1 ==> month < rows[i + 1].from)
    {
      i := i - 1;
    }
    assert rows[i].from <= month;
    if i < |rows| - 1 {
      assert rows[i].until == Some(rows[i + 1].from);
      assert month < rows[i + 1].from;
      assert InForce(rows[i], month);
    } else {
      assert rows[i] == Last(rows);
      assert InForce(rows[i], month);
    }
    InForceIsUnique(rows, i, month);
  }

  lemma NoneBeforeFirst(rows: seq<Row>, month: int)
    requires Tiles(rows) && (rows == [] || month < rows[0].from)
    ensures CurrentIndex(rows, month).None?
  {
    var i := CurrentIndex(rows, month);
    if i.Some? { StartsAscend(rows, 0, i.value); }
  }

  ghost predicate Current(rows: seq<Row>, month: int) {
    rows != [] ==> rows[0].from <= month && Last(rows).from <= month + 1
  }

  ghost predicate PlansFrom(next: seq<Row>, rows: seq<Row>, plan: Plan) {
    forall r <- next :: r.plan == plan || exists q <- rows :: q.plan == r.plan
  }

  /**
   A plan setting, from a tiling whose last row starts no later than next month, keeps every month before its
   target as it was and makes the plan effective from the target on; the storage constraint never objects.
   */
  lemma PlannedEffect(rows: seq<Row>, plan: Plan, month: int)
    requires Tiles(rows) && Current(rows, month)
    ensures var (next, outcome) := Planned(rows, plan, month);
            var target := if rows == [] then month else month + 1;
            && outcome == Done && Tiles(next) && next != [] && Current(next, month) && PlansFrom(next, rows, plan)
            && (rows != [] ==> next[0].from == rows[0].from)
            && forall x :: Effective(next, x) == if x < target then Effective(rows, x) else Some(plan)
  {
    hide Tiles, Effective, InForce, Reschedule;
    if rows == [] {
      FirstEffect(plan, month);
    } else {
      var n := |rows| - 1;
      var c := SomeRowInForce(rows, month);
      var scheduled := StartingIndex(rows, month + 1);
      if scheduled.Some? {
        LaterStartIsLast(rows, scheduled.value, month);
        ChangedFrom(rows, rows[n := rows[n].(plan := plan)], n, plan, month + 1);
      } else {
        OpenUnlessScheduled(rows, c, month);
        if rows[n].plan != plan {
          AppendEffect(rows, plan, month + 1);
        } else {
          assert rows[n := rows[n]] == rows;
          ChangedFrom(rows, rows, n, plan, month + 1);
        }
      }
    }
  }

  lemma FirstEffect(plan: Plan, month: int)
    ensures Tiles([Row(plan, month, None)]) && Reschedule([], None, plan, month) == ([Row(plan, month, None)], Done)
    ensures CurrentIndex([], month).None? && StartingIndex([], month).None?
    ensures forall x :: Effective([Row(plan, month, None)], x) == if x < month then Effective([], x) else Some(plan)
  {
    var next := [Row(plan, month, None)];
    assert [] + next == next;
    forall x ensures Effective(next, x) == if x < month then None else Some(plan) {
      if x < month { NoneBeforeFirst(next, x); } else { InForceIsUnique(next, 0, x); }
    }
  }

  lemma OpenUnlessScheduled(rows: seq<Row>, c: nat, month: int)
    requires Tiles(rows) && c < |rows| && InForce(rows[c], month)
    requires Last(rows).from <= month + 1 && forall r <- rows :: r.from != month + 1
    ensures c == |rows| - 1 && rows[c].from < month + 1
  {
    if c < |rows| - 1 {
      assert rows[c].until == Some(rows[c + 1].from);
      assert rows[c + 1].from != month + 1 by { assert rows[c + 1] in rows; }
      StartsAscend(rows, c + 1, |rows| - 1);
    }
  }

  lemma LaterStartIsLast(rows: seq<Row>, i: nat, month: int)
    requires Tiles(rows) && i < |rows| && rows[i].from == month + 1 && Last(rows).from <= month + 1
    ensures i == |rows| - 1
  {
    if i < |rows| - 1 { StartsAscend(rows, i, |rows| - 1); }
  }

  /** Rewriting only the plan of the last row changes only the months it covers. */
  lemma ChangedFrom(rows: seq<Row>, next: seq<Row>, n: nat, plan: Plan, target: int)
    requires Tiles(rows) && rows != [] && n == |rows| - 1 && next == rows[n := rows[n].(plan := plan)]
    requires rows[n].from == target || (rows[n].plan == plan && rows[n].from <= target)
    ensures Tiles(next)
    ensures forall x :: Effective(next, x) == if x < target then Effective(rows, x) else Some(plan)
  {
    forall i | 0 <= i < |next| - 1 ensures next[i].until == Some(next[i + 1].from) && next[i].from < next[i + 1].from {
      assert rows[i].until == Some(rows[i + 1].from);
    }
    forall x ensures Effective(next, x) == if x < target then Effective(rows, x) else Some(plan) {
      if x < rows[0].from {
        NoneBeforeFirst(rows, x);
        NoneBeforeFirst(next, x);
        StartsAscend(rows, 0, n);
      } else {
        var i := SomeRowInForce(rows, x);
        assert InForce(next[i], x);
        InForceIsUnique(next, i, x);
        if i < n { StartsAscend(rows, i, n); }
      }
    }
  }

  lemma AppendEffect(rows: seq<Row>, plan: Plan, target: int)
    requires Tiles(rows) && rows != [] && Last(rows).from < target
    ensures var n := |rows| - 1;
            var (next, outcome) := Reschedule(rows, Some(n), plan, target);
            && outcome == Done && Tiles(next)
            && next == rows[n := rows[n].(until := Some(target))] + [Row(plan, target, None)]
            && forall x :: Effective(next, x) == if x < target then Effective(rows, x) else Some(plan)
  {
    var n := |rows| - 1;
    var closed := rows[n := rows[n].(until := Some(target))];
    forall i | 0 <= i < |closed| ensures !Meets(closed[i], target, None) { StartsAscend(rows, i, n); }
    var next := closed + [Row(plan, target, None)];
    assert Tiles(next);
    forall x ensures Effective(next, x) == if x < target then Effective(rows, x) else Some(plan) {
      if x >= target {
        InForceIsUnique(next, n + 1, x);
      } else if x < rows[0].from {
        NoneBeforeFirst(rows, x);
        NoneBeforeFirst(next, x);
      } else {
        var i := SomeRowInForce(rows, x);
        InForceIsUnique(next, i, x);
      }
    }
  }

  // ----- Every run -----

  predicate Nondecreasing(clock: int, run: seq<Command>)
    decreases |run|
  {
    run == [] || (match run[0]
                  case SetPlan(_, month) => clock <= month && Nondecreasing(month, run[1..])
                  case SetTariff(_) => Nondecreasing(clock, run[1..]))
  }

  function Clock(clock: int, run: seq<Command>): int
    decreases |run|
  {
    if run == [] then clock else Clock(if run[0].SetPlan? then run[0].month else clock, run[1..])
  }

  function Run(catalog: Catalog, shop: Shop, run: seq<Command>): Shop
    decreases |run|
  {
    if run == [] then shop else Run(catalog, Step(catalog, shop, run[0]).0, run[1..])
  }

  lemma NothingEffective()
    ensures forall x :: Effective([], x).None?
  {
  }

  lemma StepKeepsInv(catalog: Catalog, shop: Shop, clock: int, c: Command)
    requires Inv(catalog, shop, clock) && (c.SetPlan? ==> clock <= c.month)
    ensures var next := Step(catalog, shop, c).0;
            var now := if c.SetPlan? then c.month else clock;
            && Inv(catalog, next, now)
            && (shop.rows != [] ==>
                  next.rows != [] && next.rows[0].from == shop.rows[0].from && next.tariff == shop.tariff)
            && forall x ::
                 x <= now && Effective(shop.rows, x).Some? ==> Effective(next.rows, x) == Effective(shop.rows, x)
  {
    hide Tiles, Effective, Planned;
    NothingEffective();
    match c
    case SetPlan(plan, month) =>
      if Offered(catalog, shop, plan) {
        PlannedEffect(shop.rows, plan, month);
      }
    case SetTariff(t) =>
  }

  /** Over every run with a nondecreasing business month: the tiling, compatibility, and frozen history. */
  lemma {:induction false} RunKeepsHistory(catalog: Catalog, shop: Shop, clock: int, run: seq<Command>)
    requires Inv(catalog, shop, clock) && Nondecreasing(clock, run)
    ensures var last := Run(catalog, shop, run);
            && clock <= Clock(clock, run) && Inv(catalog, last, Clock(clock, run))
            && (shop.rows != [] ==>
                  last.rows != [] && last.rows[0].from == shop.rows[0].from && last.tariff == shop.tariff)
            && forall x ::
                 x <= clock && Effective(shop.rows, x).Some? ==> Effective(last.rows, x) == Effective(shop.rows, x)
    decreases |run|
  {
    hide Step, Inv, Effective;
    if run != [] {
      StepKeepsInv(catalog, shop, clock, run[0]);
      RunKeepsHistory(catalog, Step(catalog, shop, run[0]).0, if run[0].SetPlan? then run[0].month
                                                              else clock, run[1..]);
    }
  }

  lemma {:induction false} TouchingInTiling(rows: seq<Row>, n: nat, month: int)
    requires Tiles(rows) && n <= |rows|
    ensures Touching(rows[..n], month) ==
            if CurrentIndex(rows, month).Some? && CurrentIndex(rows, month).value < n
            then [rows[CurrentIndex(rows, month).value]] else []
  {
    hide Tiles, CurrentIndex;
    if n > 0 {
      TouchingInTiling(rows, n - 1, month);
      assert rows[..n][..n - 1] == rows[..n - 1];
      if InForce(rows[n - 1], month) { InForceIsUnique(rows, n - 1, month); }
    }
  }

  lemma EmptyShopFits(catalog: Catalog, clock: int)
    ensures Inv(catalog, Shop(None, []), clock)
  {
  }

  /** In every reachable state an estimate month is served exactly from the first scheduled month on. */
  lemma SelectionIsServed(catalog: Catalog, run: seq<Command>, start: int, month: int)
    requires Nondecreasing(start, run)
    ensures var shop := Run(catalog, Shop(None, []), run);
            && (shop.rows != [] && shop.rows[0].from <= month ==>
                  && Effective(shop.rows, month).Some?
                  && Select(shop, month) == Selected(Effective(shop.rows, month).value))
            && (shop.rows == [] || month < shop.rows[0].from ==>
                  Select(shop, month) == if shop.tariff in {Some(COMMERCIAL), Some(NONCOMMERCIAL)}
                                         then ConfigurationRequired else UnsupportedTariff)
            && Select(shop, month) != UnsupportedPeriod
  {
    hide Run, Nondecreasing, Clock, Touching, Tiles, CurrentIndex;
    var shop := Run(catalog, Shop(None, []), run);
    EmptyShopFits(catalog, start);
    RunKeepsHistory(catalog, Shop(None, []), start, run);
    TouchingInTiling(shop.rows, |shop.rows|, month);
    assert shop.rows[..|shop.rows|] == shop.rows;
    if shop.rows != [] && shop.rows[0].from <= month {
      var i := SomeRowInForce(shop.rows, month);
      assert shop.rows[i] in shop.rows;
    } else {
      NoneBeforeFirst(shop.rows, month);
    }
  }

  // ----- What each command achieves -----

  /** The plans that exist, each for the one tariff it belongs to. */
  lemma OfferedMeans(catalog: Catalog, shop: Shop, plan: Plan)
    ensures Offered(catalog, shop, plan) <==>
            && plan in catalog && shop.tariff == Some(catalog[plan])
            && (catalog[plan], plan) in {
                 ("LIGHTING_COMMERCIAL", "LIGHTING_COMMERCIAL_NON_TOU"),
                 ("LIGHTING_NONCOMMERCIAL", "LIGHTING_NONCOMMERCIAL_RESIDENTIAL_NON_TOU"),
                 ("LIGHTING_NONCOMMERCIAL", "LIGHTING_NONCOMMERCIAL_NONRESIDENTIAL_NON_TOU")}
  {
  }

  /** The first setting of a shop takes effect at once, every later one from the next month on. */
  function Target(shop: Shop, month: int): int { if shop.rows == [] then month else month + 1 }

  /**
   A setting is answered Done exactly for an offered plan, and then that plan is effective from the target month on
   and nothing changes before it. Every other setting is refused, by its own reason, and changes nothing.
   */
  lemma SettingTakesEffect(catalog: Catalog, shop: Shop, clock: int, plan: Plan, month: int)
    requires Inv(catalog, shop, clock) && clock <= month
    ensures var (next, outcome) := Step(catalog, shop, SetPlan(plan, month));
            && next.tariff == shop.tariff
            && outcome == (if plan !in catalog then UnsupportedPlan
                           else if !Offered(catalog, shop, plan) then TariffMismatch else Done)
            && (outcome != Done ==> next == shop)
            && forall x :: Effective(next.rows, x) ==
                 if outcome == Done && Target(shop, month) <= x then Some(plan) else Effective(shop.rows, x)
  {
    hide Tiles, Effective, Planned;
    if Offered(catalog, shop, plan) { PlannedEffect(shop.rows, plan, month); }
  }

  /** A tariff is set exactly on a shop without billing history or to the value it already has; no plan changes. */
  lemma TariffTakesEffect(catalog: Catalog, shop: Shop, tariff: Tariff)
    ensures var (next, outcome) := Step(catalog, shop, SetTariff(tariff));
            && next.rows == shop.rows && outcome in {Done, HistoryConflict}
            && (outcome == Done <==> shop.rows == [] || shop.tariff == Some(tariff))
            && next.tariff == if outcome == Done then Some(tariff) else shop.tariff
  {
  }

  /** The plan of the last accepted setting of the run whose target is not after `month`. */
  function LastSetting(catalog: Catalog, shop: Shop, run: seq<Command>, month: int): Option<Plan>
    decreases |run|
  {
    if run == [] then None
    else
      var c := run[0];
      var later := LastSetting(catalog, Step(catalog, shop, c).0, run[1..], month);
      if later.Some? then later
      else if c.SetPlan? && Offered(catalog, shop, c.plan) && Target(shop, c.month) <= month then Some(c.plan)
      else None
  }

  /** Over every run a month is served by the last setting whose target is not after it. */
  lemma {:induction false} LastSettingGoverns(catalog: Catalog, shop: Shop, clock: int, run: seq<Command>, month: int)
    requires Inv(catalog, shop, clock) && Nondecreasing(clock, run)
    ensures Effective(Run(catalog, shop, run).rows, month) ==
            var last := LastSetting(catalog, shop, run, month); if last.Some? then last else Effective(shop.rows, month)
    decreases |run|
  {
    hide Effective, Inv, Step, Offered;
    if run != [] {
      var next := Step(catalog, shop, run[0]).0;
      StepKeepsInv(catalog, shop, clock, run[0]);
      LastSettingGoverns(catalog, next, if run[0].SetPlan? then run[0].month else clock, run[1..], month);
      match run[0]
      case SetPlan(plan, at) =>
        SettingTakesEffect(catalog, shop, clock, plan, at);
        OfferedMeans(catalog, shop, plan);
      case SetTariff(tariff) => TariffTakesEffect(catalog, shop, tariff);
    }
  }

  /** So after any run of a new shop, an estimate uses the last setting, and asks for a configuration without one. */
  lemma EstimateUsesLastSetting(catalog: Catalog, run: seq<Command>, start: int, month: int)
    requires Nondecreasing(start, run)
    ensures var shop := Run(catalog, Shop(None, []), run);
            Select(shop, month) ==
            match LastSetting(catalog, Shop(None, []), run, month)
            case Some(plan) => Selected(plan)
            case None =>
              if shop.tariff in {Some("LIGHTING_COMMERCIAL"), Some("LIGHTING_NONCOMMERCIAL")}
              then ConfigurationRequired else UnsupportedTariff
  {
    hide Run, Nondecreasing, LastSetting, Select, Inv, Tiles;
    EmptyShopFits(catalog, start);
    NothingEffective();
    LastSettingGoverns(catalog, Shop(None, []), start, run, month);
    SelectionIsServed(catalog, run, start, month);
    NoneBeforeFirstRow(catalog, run, start, month);
  }

  lemma NoneBeforeFirstRow(catalog: Catalog, run: seq<Command>, start: int, month: int)
    requires Nondecreasing(start, run)
    ensures var rows := Run(catalog, Shop(None, []), run).rows;
            rows == [] || month < rows[0].from ==> Effective(rows, month).None?
  {
    EmptyShopFits(catalog, start);
    hide Run;
    RunKeepsHistory(catalog, Shop(None, []), start, run);
    var rows := Run(catalog, Shop(None, []), run).rows;
    if rows == [] || month < rows[0].from { NoneBeforeFirst(rows, month); }
  }
}
