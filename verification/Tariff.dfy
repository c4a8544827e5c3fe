/**
 The progressive non-time-of-use electricity charge: usage is poured into tiers in order, the energy charge
 is cut to a tenth, lifted to the minimum monthly charge and rounded half up to a whole amount.
 Amounts are exact reals, as the program keeps exact rationals; a missing number is `None`.
 */
module Tariff {
  import opened Common

  datatype Tier = Tier(lower: Option<real>, upper: Option<real>, rate: Option<real>)

  datatype Allocation = Allocation(from: real, to: Option<real>, usage: real, rate: real, subtotal: real)

  datatype Calculation = Calculation(tiers: seq<Allocation>, rawCharge: real, energyCharge: real, minimum: real,
                                     adjustment: real, preFinal: real, total: real)

  datatype Outcome = Billed(bill: Calculation) | InvalidInput | InvalidSchedule

  // ----- Schedules -----

  predicate ValidTier(t: Tier) {
    && t.lower.Some? && t.rate.Some? && t.lower.value >= 0.0 && t.rate.value >= 0.0
    && (t.upper.Some? ==> t.upper.value > t.lower.value)
  }

  predicate Joins(a: Tier, b: Tier) { a.upper.Some? && b.lower == a.upper }

  /** Contiguous tiers from zero, each non-empty, only the last one possibly unbounded. */
  ghost predicate ValidSchedule(tiers: seq<Tier>) {
    && tiers != [] && tiers[0].lower == Some(0.0)
    && (forall i :: 0 <= i < |tiers| ==> ValidTier(tiers[i]))
    && (forall i :: 0 <= i < |tiers| - 1 ==> Joins(tiers[i], tiers[i + 1]))
  }

  method ValidateTiers(tiers: seq<Tier>) returns (ok: bool)
    ensures ok <==> ValidSchedule(tiers)
  {
    if |tiers| == 0 || tiers[0].lower.None? || tiers[0].lower.value != 0.0 {
      return false;
    }
    for i := 0 to |tiers|
      invariant forall j :: 0 <= j < i ==> ValidTier(tiers[j]) && (j < |tiers| - 1 ==> tiers[j].upper.Some?)
      invariant forall j :: 0 <= j < i - 1 ==> Joins(tiers[j], tiers[j + 1])
    {
      var tier := tiers[i];
      if tier.lower.None? || tier.rate.None? || tier.lower.value < 0.0 || tier.rate.value < 0.0 {
        return false;
      }
      if i > 0 && tier.lower.value != tiers[i - 1].upper.value {
        assert !Joins(tiers[i - 1], tiers[i - 1 + 1]);
        return false;
      }
      if tier.upper.Some? && tier.upper.value <= tier.lower.value {
        return false;
      }
      if i < |tiers| - 1 && tier.upper.None? {
        assert !Joins(tiers[i], tiers[i + 1]);
        return false;
      }
    }
    return true;
  }

  // ----- Closed form -----

  function MinReal(a: real, b: real): real { if a < b then a else b }

  function MaxReal(a: real, b: real): real { if a < b then b else a }

  /** The part of `usage` that lies between the tier's bounds. */
  function Clip(usage: real, t: Tier): real
    requires ValidTier(t)
  {
    MaxReal(0.0, (if t.upper.Some? then MinReal(usage, t.upper.value) else usage) - t.lower.value)
  }

  function Cost(usage: real, t: Tier): real
    requires ValidTier(t)
  {
    usage * t.rate.value
  }

  function Allocate(t: Tier, usage: real): Allocation
    requires ValidTier(t)
  {
    Allocation(t.lower.value, t.upper, usage, t.rate.value, Cost(usage, t))
  }

  ghost function Charge(tiers: seq<Tier>, usage: real): real
    requires forall t <- tiers :: ValidTier(t)
  {
    if tiers == [] then 0.0
    else Charge(tiers[..|tiers| - 1], usage) + Cost(Clip(usage, Last(tiers)), Last(tiers))
  }

  ghost function TotalUsage(allocations: seq<Allocation>): real {
    if allocations == [] then 0.0 else TotalUsage(allocations[..|allocations| - 1]) + Last(allocations).usage
  }

  ghost function SumSubtotals(allocations: seq<Allocation>): real {
    if allocations == [] then 0.0 else SumSubtotals(allocations[..|allocations| - 1]) + Last(allocations).subtotal
  }

  ghost predicate Exceeds(tiers: seq<Tier>, usage: real)
    requires tiers != []
  {
    Last(tiers).upper.Some? && usage > Last(tiers).upper.value
  }

  // ----- Rounding -----

  function TruncateToTenth(v: real): real
    decreases v < 0.0
  {
    if v < 0.0 then -TruncateToTenth(-v) else (v * 10.0).Floor as real / 10.0
  }

  function RoundToWhole(v: real): int
    decreases v < 0.0
  {
    if v < 0.0 then -RoundToWhole(-v)
    else v.Floor + if (v - v.Floor as real) * 2.0 >= 1.0 then 1 else 0
  }

  predicate Whole(v: real) { v.Floor as real == v }

  /** The whole number of tenths that falls short of the value by less than a tenth. */
  lemma TruncateBounds(v: real)
    requires v >= 0.0
    ensures v - 0.1 < TruncateToTenth(v) <= v && TruncateToTenth(v) >= 0.0 && Whole(TruncateToTenth(v) * 10.0)
  {
    var n := (v * 10.0).Floor as real;
    assert n / 10.0 * 10.0 == n;
  }

  lemma TruncateMonotone(v: real, w: real)
    requires 0.0 <= v <= w
    ensures TruncateToTenth(v) <= TruncateToTenth(w)
  {
    assert (v * 10.0).Floor <= (w * 10.0).Floor;
  }

  lemma RoundNearest(v: real)
    requires v >= 0.0
    ensures v - 0.5 < RoundToWhole(v) as real <= v + 0.5
  {
  }

  lemma RoundMonotone(v: real, w: real)
    requires 0.0 <= v <= w
    ensures RoundToWhole(v) <= RoundToWhole(w)
  {
    assert v.Floor <= w.Floor;
  }

  // ----- The calculation -----

  ghost function Total(tiers: seq<Tier>, usage: real, minimum: real): int
    requires forall t <- tiers :: ValidTier(t)
  {
    RoundToWhole(MaxReal(TruncateToTenth(Charge(tiers, usage)), minimum))
  }

  /** What one tier takes of the usage that is left. */
  function AllocationFor(t: Tier, remaining: real): real
    requires ValidTier(t)
  {
    if t.upper.Some? && remaining > t.upper.value - t.lower.value then t.upper.value - t.lower.value else remaining
  }

  lemma AllocationIsClip(t: Tier, usage: real)
    requires ValidTier(t) && usage > t.lower.value
    ensures AllocationFor(t, usage - t.lower.value) == Clip(usage, t) > 0.0
    ensures usage - t.lower.value - Clip(usage, t) ==
            if t.upper.Some? then MaxReal(0.0, usage - t.upper.value) else 0.0
  {
  }

  /** What pouring `usage` into the tiers yields: the closed form per tier, and the whole usage in all. */
  ghost predicate Poured(tiers: seq<Tier>, usage: real, allocations: seq<Allocation>)
    requires forall t <- tiers :: ValidTier(t)
  {
    && |allocations| <= |tiers|
    && (forall i ::
          0 <= i < |allocations| ==> allocations[i] == Allocate(tiers[i],
                                                                Clip(usage, tiers[i])) && allocations[i].usage > 0.0)
    && (forall i :: |allocations| <= i < |tiers| ==> Clip(usage, tiers[i]) == 0.0)
    && TotalUsage(allocations) == usage
  }

  /** The items of a bill: in tier order, each with what its tier takes of the usage, at the tier's own rate. */
  ghost predicate Itemized(tiers: seq<Tier>, usage: real, items: seq<Allocation>) {
    && |items| <= |tiers| && TotalUsage(items) == usage
    && (forall i :: 0 <= i < |items| ==> ItemOf(tiers[i], usage, items[i]))
  }

  predicate ItemOf(t: Tier, usage: real, item: Allocation) {
    && t == Tier(Some(item.from), item.to, Some(item.rate)) && item.subtotal == item.usage * item.rate
    && item.from + item.usage == if item.to.Some? && item.to.value < usage then item.to.value else usage
  }

  lemma PouredIsItemized(tiers: seq<Tier>, usage: real, items: seq<Allocation>)
    requires (forall t <- tiers :: ValidTier(t)) && Poured(tiers, usage, items)
    ensures Itemized(tiers, usage, items)
  {
    forall i | 0 <= i < |items| ensures ItemOf(tiers[i], usage, items[i]) {
      assert ValidTier(tiers[i]) && items[i] == Allocate(tiers[i], Clip(usage, tiers[i]));
    }
  }

  lemma {:induction false} SubtotalsAreCharge(tiers: seq<Tier>, usage: real, items: seq<Allocation>)
    requires (forall t <- tiers :: ValidTier(t)) && |items| <= |tiers|
    requires forall i :: 0 <= i < |items| ==> items[i] == Allocate(tiers[i], Clip(usage, tiers[i]))
    ensures SumSubtotals(items) == Charge(tiers[..|items|], usage)
    decreases |items|
  {
    if items != [] {
      var n := |items| - 1;
      SubtotalsAreCharge(tiers, usage, items[..n]);
      assert tiers[..n + 1][..n] == tiers[..n] && Last(tiers[..n + 1]) == tiers[n];
    }
  }

  lemma {:induction false} ChargeOfUntouched(tiers: seq<Tier>, n: nat, usage: real)
    requires n <= |tiers| && forall t <- tiers :: ValidTier(t)
    requires forall i :: n <= i < |tiers| ==> Clip(usage, tiers[i]) == 0.0
    ensures Charge(tiers, usage) == Charge(tiers[..n], usage)
    decreases |tiers|
  {
    if n < |tiers| {
      var before := tiers[..|tiers| - 1];
      ChargeOfUntouched(before, n, usage);
      assert before[..n] == tiers[..n];
      assert Last(tiers) == tiers[|tiers| - 1];
    } else {
      assert tiers[..n] == tiers;
    }
  }

  lemma {:induction false} LowersIncrease(tiers: seq<Tier>, i: nat, j: nat)
    requires ValidSchedule(tiers) && i <= j < |tiers|
    ensures tiers[i].lower.value <= tiers[j].lower.value
    decreases j
  {
    if i < j {
      LowersIncrease(tiers, i, j - 1);
      assert ValidTier(tiers[j - 1]) && Joins(tiers[j - 1], tiers[j - 1 + 1]);
    }
  }

  lemma UntouchedBeyond(tiers: seq<Tier>, n: nat, usage: real)
    requires ValidSchedule(tiers) && n < |tiers| && usage <= tiers[n].lower.value
    ensures forall i :: n <= i < |tiers| ==> Clip(usage, tiers[i]) == 0.0
  {
    forall i | n <= i < |tiers| ensures Clip(usage, tiers[i]) == 0.0 { LowersIncrease(tiers, n, i); }
  }

  lemma RoundingFacts(tiers: seq<Tier>, usage: real, minimum: real)
    requires (forall t <- tiers :: ValidTier(t)) && minimum >= 0.0
    ensures var raw := Charge(tiers, usage);
            var energy := TruncateToTenth(raw);
            var due := if energy < minimum then minimum else energy;
            && raw - 0.1 < energy <= raw && Whole(energy * 10.0) && MaxReal(energy, minimum) == due
            && due - 0.5 < RoundToWhole(due) as real <= due + 0.5 && Whole(RoundToWhole(due) as real)
  {
    ChargeMonotone(tiers, usage, usage);
    TruncateBounds(Charge(tiers, usage));
    RoundNearest(MaxReal(TruncateToTenth(Charge(tiers, usage)), minimum));
  }

  /** The loop over the tiers: pours the usage into them in order until nothing remains. */
  method Pour(tiers: seq<Tier>, usage: real) returns (allocations: seq<Allocation>, raw: real, remaining: real)
    requires ValidSchedule(tiers) && usage >= 0.0
    ensures remaining > 0.0 <==> Exceeds(tiers, usage)
    ensures remaining <= 0.0 ==> Poured(tiers, usage, allocations) && raw == Charge(tiers, usage)
    ensures remaining <= 0.0 ==> raw == SumSubtotals(allocations)
  {
    hide Cost, Clip, AllocationFor, SumSubtotals;
    allocations, raw, remaining := [], 0.0, usage;
    var i := 0;
    while i < |tiers|
      invariant 0 <= i <= |tiers| && |allocations| == i && remaining >= 0.0
      invariant forall j :: 0 <= j < i ==>
                  allocations[j] == Allocate(tiers[j], Clip(usage, tiers[j])) && allocations[j].usage > 0.0
      invariant i < |tiers| ==> remaining == MaxReal(0.0, usage - tiers[i].lower.value)
      invariant i == |tiers| ==>
                  remaining == if Exceeds(tiers, usage) then usage - Last(tiers).upper.value else 0.0
      invariant raw == Charge(tiers[..i], usage)
      invariant TotalUsage(allocations) == usage - remaining
    {
      var tier := tiers[i];
      assert ValidTier(tier) && (i + 1 < |tiers| ==> Joins(tiers[i], tiers[i + 1]));
      if remaining == 0.0 {
        break;
      }
      assert tiers[..i + 1][..i] == tiers[..i];
      var allocation := AllocationFor(tier, remaining);
      AllocationIsClip(tier, usage);
      assert (allocations + [Allocate(tier, allocation)])[..i] == allocations;
      allocations := allocations + [Allocate(tier, allocation)];
      raw := raw + Cost(allocation, tier);
      remaining := remaining - allocation;
      i := i + 1;
    }
    if remaining <= 0.0 {
      if i < |tiers| {
        UntouchedBeyond(tiers, i, usage);
        LowersIncrease(tiers, i, |tiers| - 1);
      }
      hide Charge, Joins;
      ChargeOfUntouched(tiers, i, usage);
      SubtotalsAreCharge(tiers, usage, allocations);
    }
  }

  method Calculate(usage: Option<real>, tiers: seq<Tier>, minimum: Option<real>) returns (r: Outcome)
    ensures r.InvalidInput? <==> usage.None? || usage.value < 0.0 || minimum.None? || minimum.value < 0.0
    ensures r.InvalidSchedule? <==> !r.InvalidInput? && (!ValidSchedule(tiers) || Exceeds(tiers, usage.value))
    ensures r.Billed? ==>
              && Itemized(tiers, usage.value, r.bill.tiers)
              && r.bill.rawCharge == SumSubtotals(r.bill.tiers)
              && r.bill.rawCharge - 0.1 < r.bill.energyCharge <= r.bill.rawCharge && Whole(r.bill.energyCharge * 10.0)
              && r.bill.preFinal == (if r.bill.energyCharge < minimum.value then minimum.value
                                     else r.bill.energyCharge)
              && r.bill.preFinal - 0.5 < r.bill.total <= r.bill.preFinal + 0.5 && Whole(r.bill.total)
    ensures r.Billed? ==>
              && Poured(tiers, usage.value, r.bill.tiers)
              && r.bill.rawCharge == Charge(tiers, usage.value)
              && r.bill.energyCharge == TruncateToTenth(r.bill.rawCharge)
              && r.bill.preFinal == r.bill.energyCharge + r.bill.adjustment
              && r.bill.minimum == minimum.value && r.bill.adjustment >= 0.0
              && r.bill.total == Total(tiers, usage.value, minimum.value) as real
  {
    if usage.None? || usage.value < 0.0 || minimum.None? || minimum.value < 0.0 {
      return InvalidInput;
    }
    var valid := ValidateTiers(tiers);
    if !valid {
      return InvalidSchedule;
    }
    var allocations, raw, remaining := Pour(tiers, usage.value);
    if remaining > 0.0 {
      return InvalidSchedule;
    }
    hide TruncateToTenth, RoundToWhole, Charge, SumSubtotals, Whole, Itemized, Poured;
    PouredIsItemized(tiers, usage.value, allocations);
    RoundingFacts(tiers, usage.value, minimum.value);
    var energy := TruncateToTenth(raw);
    var adjustment := 0.0;
    if energy < minimum.value {
      adjustment := minimum.value - energy;
    }
    var preFinal := energy + adjustment;
    return Billed(Calculation(allocations, raw, energy, minimum.value, adjustment, preFinal,
                              RoundToWhole(preFinal) as real));
  }

  // ----- What the bill means -----

  lemma {:induction false} ChargeMonotone(tiers: seq<Tier>, u: real, w: real)
    requires (forall t <- tiers :: ValidTier(t)) && u <= w
    ensures 0.0 <= Charge(tiers, u) <= Charge(tiers, w)
  {
    hide Cost;
    if tiers != [] {
      ChargeMonotone(tiers[..|tiers| - 1], u, w);
      var t := Last(tiers);
      CostMonotone(Clip(u, t), Clip(w, t), t);
    }
  }

  lemma CostMonotone(a: real, b: real, t: Tier)
    requires 0.0 <= a <= b && ValidTier(t)
    ensures 0.0 <= Cost(a, t) <= Cost(b, t) && Cost(b, t) - Cost(a, t) == Cost(b - a, t)
  {
  }

  lemma CostIs(usage: real, t: Tier)
    requires ValidTier(t)
    ensures Cost(usage, t) == usage * t.rate.value
  {
  }

  /** More usage never costs less, and nothing costs less than the rounded minimum charge. */
  lemma TotalMonotone(tiers: seq<Tier>, u: real, w: real, minimum: real)
    requires (forall t <- tiers :: ValidTier(t)) && u <= w && minimum >= 0.0
    ensures RoundToWhole(minimum) <= Total(tiers, u, minimum) <= Total(tiers, w, minimum)
  {
    ChargeMonotone(tiers, u, w);
    TruncateMonotone(Charge(tiers, u), Charge(tiers, w));
    TruncateBounds(Charge(tiers, u));
    RoundMonotone(minimum, MaxReal(TruncateToTenth(Charge(tiers, u)), minimum));
    RoundMonotone(MaxReal(TruncateToTenth(Charge(tiers, u)), minimum),
                  MaxReal(TruncateToTenth(Charge(tiers, w)), minimum));
  }

  /** Truncation and half-unit rounding are the only deviations from the exact charge. */
  lemma TotalNearExactCharge(tiers: seq<Tier>, usage: real, minimum: real)
    requires (forall t <- tiers :: ValidTier(t)) && minimum >= 0.0
    ensures var exact := MaxReal(Charge(tiers, usage), minimum);
            exact - 0.6 < Total(tiers, usage, minimum) as real <= exact + 0.5
  {
    ChargeMonotone(tiers, usage, usage);
    TruncateBounds(Charge(tiers, usage));
    RoundNearest(MaxReal(TruncateToTenth(Charge(tiers, usage)), minimum));
  }

  /** Usage inside tier `n` fills every tier below it and touches none above. */
  lemma ChargeInTier(tiers: seq<Tier>, n: nat, u: real)
    requires ValidSchedule(tiers) && n < |tiers| && tiers[n].lower.value <= u
    requires tiers[n].upper.Some? ==> u <= tiers[n].upper.value
    ensures Charge(tiers, u) == Charge(tiers[..n], u) + Cost(u - tiers[n].lower.value, tiers[n])
  {
    hide Cost;
    if n + 1 < |tiers| {
      assert Joins(tiers[n], tiers[n + 1]);
      UntouchedBeyond(tiers, n + 1, u);
    }
    ClipInside(tiers[n], u);
    hide Clip, ValidSchedule;
    ChargeOfUntouched(tiers, n + 1, u);
    assert tiers[..n + 1][..n] == tiers[..n] && Last(tiers[..n + 1]) == tiers[n];
  }

  lemma ClipInside(t: Tier, u: real)
    requires ValidTier(t) && t.lower.value <= u && (t.upper.Some? ==> u <= t.upper.value)
    ensures Clip(u, t) == u - t.lower.value
  {
  }

  lemma TierIsFull(tiers: seq<Tier>, i: nat, n: nat, u: real)
    requires ValidSchedule(tiers) && i < n < |tiers| && tiers[n].lower.value <= u
    ensures tiers[i].upper.Some? && Clip(u, tiers[i]) == tiers[i].upper.value - tiers[i].lower.value
  {
    assert ValidTier(tiers[i]) && Joins(tiers[i], tiers[i + 1]);
    LowersIncrease(tiers, i + 1, n);
  }

  lemma MarginalCost(tiers: seq<Tier>, n: nat, u: real, w: real)
    requires ValidSchedule(tiers) && n < |tiers| && tiers[n].lower.value <= u <= w
    requires tiers[n].upper.Some? ==> w <= tiers[n].upper.value
    ensures Charge(tiers, w) - Charge(tiers, u) == Cost(w - u, tiers[n])
  {
    var below, lower := tiers[..n], tiers[n].lower.value;
    ChargeInTier(tiers, n, u);
    ChargeInTier(tiers, n, w);
    CostMonotone(u - lower, w - lower, tiers[n]);
    hide Cost, Clip, Charge;
    forall i | 0 <= i < |below| ensures Clip(u, below[i]) == Clip(w, below[i]) {
      TierIsFull(tiers, i, n, u);
      TierIsFull(tiers, i, n, w);
    }
    SameCharge(below, u, w);
    assert w - lower - (u - lower) == w - u;
  }

  /** The charge is the area under the marginal rate: inside one tier, extra usage costs exactly that tier's rate. */
  lemma MarginalRate(tiers: seq<Tier>, n: nat, u: real, w: real)
    requires ValidSchedule(tiers) && n < |tiers| && tiers[n].lower.value <= u <= w
    requires tiers[n].upper.Some? ==> w <= tiers[n].upper.value
    ensures Charge(tiers, w) - Charge(tiers, u) == (w - u) * tiers[n].rate.value
  {
    MarginalCost(tiers, n, u, w);
    hide Charge, Cost;
    CostIs(w - u, tiers[n]);
  }

  lemma {:induction false} SameCharge(tiers: seq<Tier>, u: real, w: real)
    requires forall t <- tiers :: ValidTier(t)
    requires forall i :: 0 <= i < |tiers| ==> Clip(u, tiers[i]) == Clip(w, tiers[i])
    ensures Charge(tiers, u) == Charge(tiers, w)
  {
    if tiers != [] {
      SameCharge(tiers[..|tiers| - 1], u, w);
    }
  }
}
