/** The constraint groups of solver.py, each as the sequence of constraints its loops add,
    and the methods that add them to the solver. */
module Constraints {
  import opened Util
  import opened VehicleIds
  import opened Domain
  import opened Milp
  import opened Model

  // ---------------------------------------------------------------------------------------
  // The linear expressions the `solver.Sum([...])` comprehensions build

  /** The `use` variables of one vehicle in one year: every compatible fuel, every bucket. */
  function UseKeysOf(inp: Inputs, v: VehicleId, year: int): set<VarKey> {
    set f, d | f in inp.data.fuels && (v, f) in inp.data.vehicleFuels && d in Buckets :: Use(v, f, d, year)
  }

  /** `available_vehicles`: the vehicle's existing buys up to `year` minus its existing sells
      before `year`. */
  function Available(inp: Inputs, vars: set<VarKey>, v: VehicleId, year: int): LinExpr {
    Minus(Ones(set y | y in inp.Years() && y <= year && Buy(v, y) in vars :: Buy(v, y)),
          Ones(set y | y in inp.Years() && y < year && Sell(v, y) in vars :: Sell(v, y)))
  }

  /** `total_emissions` of a year: every `use` variable weighted by consumption, emission
      factor and yearly range. */
  function Emissions(inp: Inputs, year: int): LinExpr {
    map v, f, d | v in inp.data.vehicles && f in inp.data.fuels && (v, f) in inp.data.vehicleFuels && d in Buckets
      :: Use(v, f, d, year) :=
           inp.data.vehicleFuels[(v, f)] * inp.data.fuels[f].carbonEmission * inp.data.vehicles[v].yearlyRange
  }

  /** `fleet_size` at the start of a year: all existing buys up to it minus all existing sells
      before it. */
  function FleetAtStart(inp: Inputs, vars: set<VarKey>, year: int): LinExpr {
    Minus(Ones(set v, y | v in inp.data.vehicles && y in inp.Years() && y <= year && Buy(v, y) in vars :: Buy(v, y)),
          Ones(set v, y | v in inp.data.vehicles && y in inp.Years() && y < year && Sell(v, y) in vars :: Sell(v, y)))
  }

  /** The existing `sell` variables of a year, over all vehicles. */
  function SoldIn(inp: Inputs, vars: set<VarKey>, year: int): set<VarKey> {
    set v | v in inp.data.vehicles && Sell(v, year) in vars :: Sell(v, year)
  }

  /** The `sell` variables of a vehicle bought in `p`, from `p` through `p + 10` as far as
      the horizon reaches. */
  function LifespanSells(inp: Inputs, v: VehicleId, p: int): set<VarKey> {
    set y | y in Range(p, Min(p + 11, inp.endYear)) :: Sell(v, y)
  }

  /** The demand terms: the `use` variables at bucket `dist` of vehicles of the same size whose
      own bucket ranks at least as high, each weighted by the vehicle's yearly range. */
  function ServingUse(inp: Inputs, year: int, size: Size, dist: Bucket): LinExpr {
    map v, f | && v in inp.data.vehicles && f in inp.data.fuels
               && inp.data.vehicles[v].sizeBucket == size
               && Rank(inp.data.vehicles[v].distanceBucket) >= Rank(dist)
               && (v, f) in inp.data.vehicleFuels
      :: Use(v, f, dist, year) := inp.data.vehicles[v].yearlyRange
  }

  // ---------------------------------------------------------------------------------------
  // Groups looping over years and vehicle_ids

  datatype VehicleYearRule = Availability | SellCeiling | UsageWindow

  /** What one (year, vehicle) iteration adds. */
  function RuleAt(rule: VehicleYearRule, inp: Inputs, vars: set<VarKey>, v: VehicleId, year: int): seq<Constraint>
    requires PurchaseYear(v).Some?
  {
    match rule
    case Availability =>
      var gap := Minus(Ones(UseKeysOf(inp, v, year)), Available(inp, vars, v, year));
      [Constraint(gap, AtMost, 0.0), Constraint(gap, Exactly, 0.0)]
    case SellCeiling =>
      [Constraint(Minus(Ones({Sell(v, year)}), Available(inp, vars, v, year)), AtMost, 0.0)]
    case UsageWindow =>
      var p := Acquired(v);
      [Constraint(Ones(UseKeysOf(inp, v, year)), if year >= p && year < p + 10 then AtLeast else Exactly, 0.0)]
  }

  /** The inner loop over `vs` for one year. */
  function RuleRow(rule: VehicleYearRule, inp: Inputs, vars: set<VarKey>, year: int, vs: seq<VehicleId>): seq<Constraint>
    requires forall v :: v in vs ==> PurchaseYear(v).Some?
    decreases |vs|
  {
    if vs == [] then []
    else RuleRow(rule, inp, vars, year, vs[..|vs| - 1]) + RuleAt(rule, inp, vars, vs[|vs| - 1], year)
  }

  /** The outer loop over `ys`. */
  function RuleGroup(rule: VehicleYearRule, inp: Inputs, vars: set<VarKey>, ys: seq<int>, vs: seq<VehicleId>): seq<Constraint>
    requires forall v :: v in vs ==> PurchaseYear(v).Some?
    decreases |ys|
  {
    if ys == [] then []
    else RuleGroup(rule, inp, vars, ys[..|ys| - 1], vs) + RuleRow(rule, inp, vars, ys[|ys| - 1], vs)
  }

  // ---------------------------------------------------------------------------------------
  // Groups looping over years only

  datatype YearRule = CarbonLimit | FleetSellCap

  function YearRuleAt(rule: YearRule, inp: Inputs, vars: set<VarKey>, year: int): Constraint
    requires rule.CarbonLimit? ==> year in inp.data.carbonLimits
  {
    match rule
    case CarbonLimit => Constraint(Emissions(inp, year), AtMost, inp.data.carbonLimits[year])
    case FleetSellCap =>
      var sold := Ones(SoldIn(inp, vars, year));
      Constraint(Minus(sold, Scale(0.2, FleetAtStart(inp, vars, year))), AtMost, 0.0)
  }

  function YearGroup(rule: YearRule, inp: Inputs, vars: set<VarKey>, ys: seq<int>): seq<Constraint>
    requires rule.CarbonLimit? ==> forall y :: y in ys ==> y in inp.data.carbonLimits
    decreases |ys|
  {
    if ys == [] then []
    else YearGroup(rule, inp, vars, ys[..|ys| - 1]) + [YearRuleAt(rule, inp, vars, ys[|ys| - 1])]
  }

  // ---------------------------------------------------------------------------------------
  // Groups looping over data['vehicles']

  datatype VehicleRule = PurchaseMandate | Lifespan

  /** `buy[(v, p)] >= 1`. */
  function MandateConstraint(v: VehicleId, p: int): Constraint {
    Constraint(map[Buy(v, p) := 1.0], AtLeast, 1.0)
  }

  /** The sells from `p` through `p + 10` add up to at least `buy[(v, p)]`. */
  function LifespanConstraint(inp: Inputs, v: VehicleId, p: int): Constraint {
    Constraint(Minus(Ones(LifespanSells(inp, v, p)), map[Buy(v, p) := 1.0]), AtLeast, 0.0)
  }

  function VehicleRuleAt(rule: VehicleRule, inp: Inputs, v: VehicleId): seq<Constraint>
    requires PurchaseYear(v).Some?
  {
    var p := Acquired(v);
    match rule
    case PurchaseMandate => if p in inp.Years() then [MandateConstraint(v, p)] else []
    case Lifespan => if p + 10 in inp.Years() then [LifespanConstraint(inp, v, p)] else []
  }

  function VehicleGroup(rule: VehicleRule, inp: Inputs, vs: seq<VehicleId>): seq<Constraint>
    requires forall v :: v in vs ==> PurchaseYear(v).Some?
    decreases |vs|
  {
    if vs == [] then []
    else VehicleGroup(rule, inp, vs[..|vs| - 1]) + VehicleRuleAt(rule, inp, vs[|vs| - 1])
  }

  // ---------------------------------------------------------------------------------------
  // The demand group: years, size_buckets, distance_buckets

  /** `solver.Add(Sum(...) >= demand_value)`; with no serving vehicle it reads `0 >= demand_value`. */
  function DemandAt(inp: Inputs, year: int, size: Size, dist: Bucket): Constraint
    requires year in inp.data.demand && (size, dist) in inp.data.demand[year]
  {
    Constraint(ServingUse(inp, year, size, dist), AtLeast, inp.data.demand[year][(size, dist)])
  }

  function DemandForSize(inp: Inputs, year: int, size: Size, ds: seq<Bucket>): seq<Constraint>
    requires year in inp.data.demand
    decreases |ds|
  {
    if ds == [] then []
    else
      var d := ds[|ds| - 1];
      DemandForSize(inp, year, size, ds[..|ds| - 1])
        + if (size, d) in inp.data.demand[year] then [DemandAt(inp, year, size, d)] else []
  }

  function DemandForYear(inp: Inputs, year: int, ss: seq<Size>): seq<Constraint>
    requires ss != [] ==> year in inp.data.demand
    decreases |ss|
  {
    if ss == [] then []
    else DemandForYear(inp, year, ss[..|ss| - 1]) + DemandForSize(inp, year, ss[|ss| - 1], Buckets)
  }

  function DemandGroup(inp: Inputs, ys: seq<int>): seq<Constraint>
    requires forall y :: y in ys ==> inp.sizeBuckets != [] ==> y in inp.data.demand
    decreases |ys|
  {
    if ys == [] then []
    else DemandGroup(inp, ys[..|ys| - 1]) + DemandForYear(inp, ys[|ys| - 1], inp.sizeBuckets)
  }

  // ---------------------------------------------------------------------------------------
  // All constraints, in the order the script adds them

  function ModelConstraints(inp: Inputs, vars: set<VarKey>): seq<Constraint>
    requires inp.Valid()
  {
    HorizonLookups(inp);
    var years := inp.Years();
    RuleGroup(Availability, inp, vars, years, inp.vehicleIds)
      + RuleGroup(SellCeiling, inp, vars, years, inp.vehicleIds)
      + DemandGroup(inp, years)
      + YearGroup(CarbonLimit, inp, vars, years)
      + VehicleGroup(PurchaseMandate, inp, inp.vehicleOrder)
      + VehicleGroup(Lifespan, inp, inp.vehicleOrder)
      + YearGroup(FleetSellCap, inp, vars, years)
      + RuleGroup(UsageWindow, inp, vars, years, inp.vehicleIds)
  }

  // ---------------------------------------------------------------------------------------
  // Every key a constraint mentions is a created variable

  lemma UseKeysRegistered(inp: Inputs, vars: set<VarKey>, v: VehicleId, year: int)
    requires inp.Valid() && Registry(inp, vars)
    requires v in inp.data.vehicles && year in inp.Years()
    ensures UseKeysOf(inp, v, year) <= vars
  {
  }

  lemma RuleTermsRegistered(rule: VehicleYearRule, inp: Inputs, vars: set<VarKey>, v: VehicleId, year: int)
    requires inp.Valid() && Registry(inp, vars)
    requires v in inp.data.vehicles && year in inp.Years()
    ensures forall c :: c in RuleAt(rule, inp, vars, v, year) ==> c.terms.Keys <= vars
  {
    UseKeysRegistered(inp, vars, v, year);
  }

  lemma YearTermsRegistered(rule: YearRule, inp: Inputs, vars: set<VarKey>, year: int)
    requires inp.Valid() && Registry(inp, vars)
    requires year in inp.Years()
    ensures YearRuleAt(rule, inp, vars, year).terms.Keys <= vars
  {
    RangeFacts(inp.startYear, inp.endYear);
    if rule.CarbonLimit? {
      forall k | k in Emissions(inp, year) ensures k in vars {
        var v, f, d :| v in inp.data.vehicles && f in inp.data.fuels && (v, f) in inp.data.vehicleFuels
          && d in Buckets && k == Use(v, f, d, year);
        assert Creates(inp, inp.Years(), inp.vehicleIds, k);
      }
    }
  }

  lemma VehicleTermsRegistered(rule: VehicleRule, inp: Inputs, vars: set<VarKey>, v: VehicleId)
    requires inp.Valid() && Registry(inp, vars)
    requires v in inp.data.vehicles
    ensures forall c :: c in VehicleRuleAt(rule, inp, v) ==> c.terms.Keys <= vars
  {
    RangeFacts(inp.startYear, inp.endYear);
    var p := Acquired(v);
    if rule.Lifespan? && p + 10 in inp.Years() {
      RangeFacts(p, Min(p + 11, inp.endYear));
    }
  }

  lemma DemandTermsRegistered(inp: Inputs, vars: set<VarKey>, year: int, size: Size, dist: Bucket)
    requires inp.Valid() && Registry(inp, vars)
    requires year in inp.Years()
    ensures ServingUse(inp, year, size, dist).Keys <= vars
  {
    forall k | k in ServingUse(inp, year, size, dist) ensures k in vars {
      var v, f :| && v in inp.data.vehicles && f in inp.data.fuels
                  && inp.data.vehicles[v].sizeBucket == size
                  && Rank(inp.data.vehicles[v].distanceBucket) >= Rank(dist)
                  && (v, f) in inp.data.vehicleFuels && k == Use(v, f, dist, year);
      assert Creates(inp, inp.Years(), inp.vehicleIds, k);
    }
  }

  // ---------------------------------------------------------------------------------------
  // One more loop iteration extends each group by that iteration's constraints

  lemma RuleRowStep(rule: VehicleYearRule, inp: Inputs, vars: set<VarKey>, year: int, vs: seq<VehicleId>, j: int)
    requires forall v :: v in vs ==> PurchaseYear(v).Some?
    requires 0 <= j < |vs|
    ensures RuleRow(rule, inp, vars, year, vs[..j + 1])
         == RuleRow(rule, inp, vars, year, vs[..j]) + RuleAt(rule, inp, vars, vs[j], year)
  {
    assert vs[..j + 1][..j] == vs[..j];
  }

  lemma RuleGroupStep(rule: VehicleYearRule, inp: Inputs, vars: set<VarKey>, ys: seq<int>, vs: seq<VehicleId>, i: int)
    requires forall v :: v in vs ==> PurchaseYear(v).Some?
    requires 0 <= i < |ys|
    ensures RuleGroup(rule, inp, vars, ys[..i + 1], vs)
         == RuleGroup(rule, inp, vars, ys[..i], vs) + RuleRow(rule, inp, vars, ys[i], vs)
  {
    assert ys[..i + 1][..i] == ys[..i];
  }

  lemma YearGroupStep(rule: YearRule, inp: Inputs, vars: set<VarKey>, ys: seq<int>, i: int)
    requires rule.CarbonLimit? ==> forall y :: y in ys ==> y in inp.data.carbonLimits
    requires 0 <= i < |ys|
    ensures YearGroup(rule, inp, vars, ys[..i + 1]) == YearGroup(rule, inp, vars, ys[..i]) + [YearRuleAt(rule, inp, vars, ys[i])]
  {
    assert ys[..i + 1][..i] == ys[..i];
  }

  lemma VehicleGroupStep(rule: VehicleRule, inp: Inputs, vs: seq<VehicleId>, i: int)
    requires forall v :: v in vs ==> PurchaseYear(v).Some?
    requires 0 <= i < |vs|
    ensures VehicleGroup(rule, inp, vs[..i + 1]) == VehicleGroup(rule, inp, vs[..i]) + VehicleRuleAt(rule, inp, vs[i])
  {
    assert vs[..i + 1][..i] == vs[..i];
  }

  lemma DemandForSizeStep(inp: Inputs, year: int, size: Size, ds: seq<Bucket>, b: int)
    requires year in inp.data.demand && 0 <= b < |ds|
    ensures DemandForSize(inp, year, size, ds[..b + 1])
         == DemandForSize(inp, year, size, ds[..b])
              + if (size, ds[b]) in inp.data.demand[year] then [DemandAt(inp, year, size, ds[b])] else []
  {
    assert ds[..b + 1][..b] == ds[..b];
  }

  lemma DemandForYearStep(inp: Inputs, year: int, ss: seq<Size>, j: int)
    requires year in inp.data.demand && 0 <= j < |ss|
    ensures DemandForYear(inp, year, ss[..j + 1]) == DemandForYear(inp, year, ss[..j]) + DemandForSize(inp, year, ss[j], Buckets)
  {
    assert ss[..j + 1][..j] == ss[..j];
  }

  lemma DemandGroupStep(inp: Inputs, ys: seq<int>, i: int)
    requires forall y :: y in ys ==> inp.sizeBuckets != [] ==> y in inp.data.demand
    requires 0 <= i < |ys|
    ensures DemandGroup(inp, ys[..i + 1]) == DemandGroup(inp, ys[..i]) + DemandForYear(inp, ys[i], inp.sizeBuckets)
  {
    assert ys[..i + 1][..i] == ys[..i];
  }

  // ---------------------------------------------------------------------------------------
  // The loops

  /** The body of one (year, vehicle) iteration of the availability, sell-ceiling or
      usage-window loop. */
  method AddRuleAt(s: Solver, inp: Inputs, rule: VehicleYearRule, v: VehicleId, year: int)
    requires inp.Valid() && s.Valid() && Registry(inp, s.vars)
    requires v in inp.data.vehicles && year in inp.Years()
    modifies s
    ensures s.Valid() && s.vars == old(s.vars) && s.objective == old(s.objective) && s.minimize == old(s.minimize)
    ensures s.constraints == old(s.constraints) + RuleAt(rule, inp, s.vars, v, year)
  {
    RuleTermsRegistered(rule, inp, s.vars, v, year);
    match rule
    case Availability =>
      var available := Available(inp, s.vars, v, year);
      s.Add(Constraint(Minus(Ones(UseKeysOf(inp, v, year)), available), AtMost, 0.0));
      s.Add(Constraint(Minus(Ones(UseKeysOf(inp, v, year)), available), Exactly, 0.0));
    case SellCeiling =>
      var available := Available(inp, s.vars, v, year);
      s.Add(Constraint(Minus(Ones({Sell(v, year)}), available), AtMost, 0.0));
    case UsageWindow =>
      var p := Acquired(v);
      if year >= p && year < p + 10 {
        s.Add(Constraint(Ones(UseKeysOf(inp, v, year)), AtLeast, 0.0));
      } else {
        s.Add(Constraint(Ones(UseKeysOf(inp, v, year)), Exactly, 0.0));
      }
  }

  /** The inner loop `for vehicle_id in vehicle_ids:` for one year. */
  method AddRuleRow(s: Solver, inp: Inputs, rule: VehicleYearRule, year: int)
    requires inp.Valid() && s.Valid() && Registry(inp, s.vars)
    requires year in inp.Years()
    modifies s
    ensures s.Valid() && s.vars == old(s.vars) && s.objective == old(s.objective) && s.minimize == old(s.minimize)
    ensures s.constraints == old(s.constraints) + RuleRow(rule, inp, s.vars, year, inp.vehicleIds)
  {
    var ids := inp.vehicleIds;
    ghost var vars, before := s.vars, s.constraints;
    for j := 0 to |ids|
      invariant s.Valid() && s.vars == vars && s.objective == old(s.objective) && s.minimize == old(s.minimize)
      invariant s.constraints == before + RuleRow(rule, inp, vars, year, ids[..j])
    {
      ghost var done := RuleRow(rule, inp, vars, year, ids[..j]);
      AddRuleAt(s, inp, rule, ids[j], year);
      AppendAssoc(before, done, RuleAt(rule, inp, vars, ids[j], year));
      RuleRowStep(rule, inp, vars, year, ids, j);
    }
    assert ids[..|ids|] == ids;
  }

  /** `for year in years: for vehicle_id in vehicle_ids: ...` for one of the three rules. */
  method AddVehicleYearRule(s: Solver, inp: Inputs, rule: VehicleYearRule)
    requires inp.Valid() && s.Valid() && Registry(inp, s.vars)
    modifies s
    ensures s.Valid() && s.vars == old(s.vars) && s.objective == old(s.objective) && s.minimize == old(s.minimize)
    ensures s.constraints == old(s.constraints) + RuleGroup(rule, inp, s.vars, inp.Years(), inp.vehicleIds)
  {
    var years := inp.Years();
    var ids := inp.vehicleIds;
    ghost var vars, before := s.vars, s.constraints;
    for i := 0 to |years|
      invariant s.Valid() && s.vars == vars && s.objective == old(s.objective) && s.minimize == old(s.minimize)
      invariant s.constraints == before + RuleGroup(rule, inp, vars, years[..i], ids)
    {
      ghost var done := RuleGroup(rule, inp, vars, years[..i], ids);
      AddRuleRow(s, inp, rule, years[i]);
      AppendAssoc(before, done, RuleRow(rule, inp, vars, years[i], ids));
      RuleGroupStep(rule, inp, vars, years, ids, i);
    }
    assert years[..|years|] == years;
  }

  /** The body of `for year in years:` for the carbon limit or the fleet sell cap. */
  method AddYearRuleAt(s: Solver, inp: Inputs, rule: YearRule, year: int)
    requires inp.Valid() && s.Valid() && Registry(inp, s.vars)
    requires year in inp.Years()
    modifies s
    ensures s.Valid() && s.vars == old(s.vars) && s.objective == old(s.objective) && s.minimize == old(s.minimize)
    ensures (HorizonLookups(inp);
      s.constraints == old(s.constraints) + [YearRuleAt(rule, inp, s.vars, year)])
  {
    HorizonLookups(inp);
    YearTermsRegistered(rule, inp, s.vars, year);
    match rule
    case CarbonLimit =>
      s.Add(Constraint(Emissions(inp, year), AtMost, inp.data.carbonLimits[year]));
    case FleetSellCap =>
      var fleetSize := FleetAtStart(inp, s.vars, year);
      var sold := Ones(SoldIn(inp, s.vars, year));
      s.Add(Constraint(Minus(sold, Scale(0.2, fleetSize)), AtMost, 0.0));
  }

  /** `for year in years: ...` for the carbon limit or the fleet sell cap. */
  method AddYearRule(s: Solver, inp: Inputs, rule: YearRule)
    requires inp.Valid() && s.Valid() && Registry(inp, s.vars)
    modifies s
    ensures s.Valid() && s.vars == old(s.vars) && s.objective == old(s.objective) && s.minimize == old(s.minimize)
    ensures (HorizonLookups(inp);
      s.constraints == old(s.constraints) + YearGroup(rule, inp, s.vars, inp.Years()))
  {
    var years := inp.Years();
    HorizonLookups(inp);
    ghost var vars, before := s.vars, s.constraints;
    for i := 0 to |years|
      invariant s.Valid() && s.vars == vars && s.objective == old(s.objective) && s.minimize == old(s.minimize)
      invariant s.constraints == before + YearGroup(rule, inp, vars, years[..i])
    {
      ghost var done := YearGroup(rule, inp, vars, years[..i]);
      AddYearRuleAt(s, inp, rule, years[i]);
      AppendAssoc(before, done, [YearRuleAt(rule, inp, vars, years[i])]);
      YearGroupStep(rule, inp, vars, years, i);
    }
    assert years[..|years|] == years;
  }

  /** The body of `for vehicle_id in data['vehicles']:` for the purchase mandate or the lifespan. */
  method AddVehicleRuleAt(s: Solver, inp: Inputs, rule: VehicleRule, v: VehicleId)
    requires inp.Valid() && s.Valid() && Registry(inp, s.vars)
    requires v in inp.data.vehicles
    modifies s
    ensures s.Valid() && s.vars == old(s.vars) && s.objective == old(s.objective) && s.minimize == old(s.minimize)
    ensures s.constraints == old(s.constraints) + VehicleRuleAt(rule, inp, v)
  {
    VehicleTermsRegistered(rule, inp, s.vars, v);
    AddVehicleRuleIf(s, inp, rule, v);
  }

  /** The guarded `solver.Add` of one vehicle's step, once its terms are known to be variables. */
  method AddVehicleRuleIf(s: Solver, inp: Inputs, rule: VehicleRule, v: VehicleId)
    requires s.Valid() && PurchaseYear(v).Some?
    requires forall c :: c in VehicleRuleAt(rule, inp, v) ==> c.terms.Keys <= s.vars
    modifies s
    ensures s.Valid() && s.vars == old(s.vars) && s.objective == old(s.objective) && s.minimize == old(s.minimize)
    ensures s.constraints == old(s.constraints) + VehicleRuleAt(rule, inp, v)
  {
    var p := Acquired(v);
    match rule
    case PurchaseMandate =>
      if p in inp.Years() {
        assert MandateConstraint(v, p) in VehicleRuleAt(rule, inp, v);
        s.Add(MandateConstraint(v, p));
      }
    case Lifespan =>
      if p + 10 in inp.Years() {
        assert LifespanConstraint(inp, v, p) in VehicleRuleAt(rule, inp, v);
        s.Add(LifespanConstraint(inp, v, p));
      }
  }

  /** `for vehicle_id in data['vehicles']: ...` for the purchase mandate or the lifespan. */
  method AddVehicleRule(s: Solver, inp: Inputs, rule: VehicleRule)
    requires inp.Valid() && s.Valid() && Registry(inp, s.vars)
    modifies s
    ensures s.Valid() && s.vars == old(s.vars) && s.objective == old(s.objective) && s.minimize == old(s.minimize)
    ensures s.constraints == old(s.constraints) + VehicleGroup(rule, inp, inp.vehicleOrder)
  {
    var vs := inp.vehicleOrder;
    ghost var vars, before := s.vars, s.constraints;
    for i := 0 to |vs|
      invariant s.Valid() && s.vars == vars && s.objective == old(s.objective) && s.minimize == old(s.minimize)
      invariant s.constraints == before + VehicleGroup(rule, inp, vs[..i])
    {
      ghost var done := VehicleGroup(rule, inp, vs[..i]);
      AddVehicleRuleAt(s, inp, rule, vs[i]);
      AppendAssoc(before, done, VehicleRuleAt(rule, inp, vs[i]));
      VehicleGroupStep(rule, inp, vs, i);
    }
    assert vs[..|vs|] == vs;
  }

  /** The two inner loops of the demand group, for one year and one size bucket. */
  method AddDemandForSize(s: Solver, inp: Inputs, year: int, size: Size)
    requires inp.Valid() && s.Valid() && Registry(inp, s.vars)
    requires year in inp.Years() && size in inp.sizeBuckets
    modifies s
    ensures s.Valid() && s.vars == old(s.vars) && s.objective == old(s.objective) && s.minimize == old(s.minimize)
    ensures (HorizonLookups(inp);
      s.constraints == old(s.constraints) + DemandForSize(inp, year, size, Buckets))
  {
    HorizonLookups(inp);
    ghost var vars, before := s.vars, s.constraints;
    for b := 0 to |Buckets|
      invariant s.Valid() && s.vars == vars && s.objective == old(s.objective) && s.minimize == old(s.minimize)
      invariant s.constraints == before + DemandForSize(inp, year, size, Buckets[..b])
    {
      ghost var done := DemandForSize(inp, year, size, Buckets[..b]);
      var dist := Buckets[b];
      if (size, dist) in inp.data.demand[year] {
        var demandValue := inp.data.demand[year][(size, dist)];
        DemandTermsRegistered(inp, vars, year, size, dist);
        s.Add(Constraint(ServingUse(inp, year, size, dist), AtLeast, demandValue));
        AppendAssoc(before, done, [DemandAt(inp, year, size, dist)]);
      }
      DemandForSizeStep(inp, year, size, Buckets, b);
    }
    assert Buckets[..|Buckets|] == Buckets;
  }

  /** `for size_bucket in size_buckets: ...` for one year. */
  method AddDemandForYear(s: Solver, inp: Inputs, year: int)
    requires inp.Valid() && s.Valid() && Registry(inp, s.vars)
    requires year in inp.Years()
    modifies s
    ensures s.Valid() && s.vars == old(s.vars) && s.objective == old(s.objective) && s.minimize == old(s.minimize)
    ensures (HorizonLookups(inp);
      s.constraints == old(s.constraints) + DemandForYear(inp, year, inp.sizeBuckets))
  {
    HorizonLookups(inp);
    var sizes := inp.sizeBuckets;
    ghost var vars, before := s.vars, s.constraints;
    for j := 0 to |sizes|
      invariant s.Valid() && s.vars == vars && s.objective == old(s.objective) && s.minimize == old(s.minimize)
      invariant s.constraints == before + DemandForYear(inp, year, sizes[..j])
    {
      ghost var done := DemandForYear(inp, year, sizes[..j]);
      AddDemandForSize(s, inp, year, sizes[j]);
      AppendAssoc(before, done, DemandForSize(inp, year, sizes[j], Buckets));
      DemandForYearStep(inp, year, sizes, j);
    }
    assert sizes[..|sizes|] == sizes;
  }

  /** `for year in years: for size_bucket in size_buckets: for distance_bucket in ...: if ...`. */
  method AddDemand(s: Solver, inp: Inputs)
    requires inp.Valid() && s.Valid() && Registry(inp, s.vars)
    modifies s
    ensures s.Valid() && s.vars == old(s.vars) && s.objective == old(s.objective) && s.minimize == old(s.minimize)
    ensures (HorizonLookups(inp);
      s.constraints == old(s.constraints) + DemandGroup(inp, inp.Years()))
  {
    var years := inp.Years();
    HorizonLookups(inp);
    ghost var vars, before := s.vars, s.constraints;
    for i := 0 to |years|
      invariant s.Valid() && s.vars == vars && s.objective == old(s.objective) && s.minimize == old(s.minimize)
      invariant s.constraints == before + DemandGroup(inp, years[..i])
    {
      ghost var done := DemandGroup(inp, years[..i]);
      AddDemandForYear(s, inp, years[i]);
      AppendAssoc(before, done, DemandForYear(inp, years[i], inp.sizeBuckets));
      DemandGroupStep(inp, years, i);
    }
    assert years[..|years|] == years;
  }
}
