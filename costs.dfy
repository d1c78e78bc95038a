/** The objective of solver.py: three loops of `objective.SetCoefficient`, each replacing what
    an earlier loop wrote on the same variable. */
module Costs {
  import opened Util
  import opened Domain
  import opened Milp
  import opened Model

  /** Fuel cost of one `use` variable: consumption times fuel cost times yearly range. */
  function FuelCost(inp: Inputs, v: VehicleId, f: FuelId): real
    requires v in inp.data.vehicles && f in inp.data.fuels && (v, f) in inp.data.vehicleFuels
  {
    inp.data.vehicleFuels[(v, f)] * inp.data.fuels[f].cost * inp.data.vehicles[v].yearlyRange
  }

  /** Maintenance plus insurance of one vehicle in a year with a cost profile, both given as
      percentages of the purchase cost. */
  function Upkeep(inp: Inputs, v: VehicleId, year: int): real
    requires v in inp.data.vehicles && year in inp.data.costProfiles
  {
    var purchaseCost := inp.data.vehicles[v].purchaseCost;
    var profile := inp.data.costProfiles[year];
    (profile.maintenanceCost / 100.0) * purchaseCost + (profile.insuranceCost / 100.0) * purchaseCost
  }

  /** The three coefficient loops, in the order the script runs them. */
  datatype CostLoop = Purchases | FuelCosts | UpkeepCosts

  /** Whether `loop` writes a coefficient on `k` when `k` is one of the solver's variables. */
  predicate Charges(inp: Inputs, loop: CostLoop, k: VarKey) {
    match loop
    case Purchases => k.Buy? && k.v in inp.data.vehicles
    case FuelCosts =>
      k.Use? && k.v in inp.data.vehicles && k.fuel in inp.data.fuels && (k.v, k.fuel) in inp.data.vehicleFuels
    case UpkeepCosts =>
      k.Use? && k.v in inp.data.vehicles && k.fuel in inp.data.fuels && (k.v, k.fuel) in inp.data.vehicleFuels
      && k.year in inp.data.costProfiles
  }

  /** The coefficient `loop` writes on `k`. */
  function Charge(inp: Inputs, loop: CostLoop, k: VarKey): real
    requires Charges(inp, loop, k)
  {
    match loop
    case Purchases => inp.data.vehicles[k.v].purchaseCost
    case FuelCosts => FuelCost(inp, k.v, k.fuel)
    case UpkeepCosts => Upkeep(inp, k.v, k.year)
  }

  /** What `loop` writes while its loops run over the years `ys`, vehicles `vs`, fuels `fs`
      and buckets `ds`. */
  function Charged(inp: Inputs, vars: set<VarKey>, loop: CostLoop,
                   ys: seq<int>, vs: seq<VehicleId>, fs: seq<FuelId>, ds: seq<Bucket>): map<VarKey, real>
  {
    map k | && k in vars && k.year in ys && k.v in vs
            && (k.Use? ==> k.fuel in fs && k.bucket in ds)
            && Charges(inp, loop, k)
      :: Charge(inp, loop, k)
  }

  /** The objective the three loops leave: a purchase costs the purchase price; a use costs
      the upkeep in a year with a cost profile and the fuel otherwise, never both; a sale
      costs nothing. */
  ghost function Objective(inp: Inputs, vars: set<VarKey>): (obj: map<VarKey, real>)
    requires Priceable(inp, vars)
    ensures obj.Keys == set k | k in vars && !k.Sell?
  {
    map k | k in vars && !k.Sell? ::
      match k
      case Buy(v, _) => inp.data.vehicles[v].purchaseCost
      case Use(v, f, _, year) => if year in inp.data.costProfiles then Upkeep(inp, v, year) else FuelCost(inp, v, f)
      case Sell(_, _) => 0.0
  }

  /** The lookups the coefficient loops do succeed: every listed vehicle, and so every bought
      one, has a table entry, and every `use` variable belongs to a compatible (vehicle, fuel)
      pair. */
  predicate Priceable(inp: Inputs, vars: set<VarKey>) {
    && (forall v :: v in inp.vehicleIds ==> v in inp.data.vehicles)
    && (forall k :: k in vars && k.Buy? ==> k.v in inp.data.vehicles)
    && (forall k :: k in vars && k.Use? ==>
          k.v in inp.data.vehicles && k.fuel in inp.data.fuels && (k.v, k.fuel) in inp.data.vehicleFuels)
  }

  lemma RegistryPriceable(inp: Inputs, vars: set<VarKey>)
    requires inp.Valid() && Registry(inp, vars)
    ensures Priceable(inp, vars)
  {
  }

  // ---------------------------------------------------------------------------------------
  // How the written coefficients grow with the loops

  lemma UnionAssoc(a: map<VarKey, real>, b: map<VarKey, real>, c: map<VarKey, real>)
    ensures a + b + c == a + (b + c)
  {
  }

  /** One `SetCoefficient` on top of what the earlier iterations wrote. */
  lemma WriteStep(before: map<VarKey, real>, base: map<VarKey, real>, written: map<VarKey, real>,
                  after: map<VarKey, real>, cell: map<VarKey, real>, k: VarKey, c: real, wrote: bool)
    requires before == base + written
    requires wrote ==> after == before[k := c] && cell == map[k := c]
    requires !wrote ==> after == before && cell == map[]
    ensures after == base + (written + cell)
  {
  }

  /** A purchase-cost iteration writes at most the vehicle's own `buy` key. */
  lemma PurchaseCell(inp: Inputs, vars: set<VarKey>, year: int, v: VehicleId, fs: seq<FuelId>, ds: seq<Bucket>)
    ensures Charged(inp, vars, Purchases, [year], [v], fs, ds)
         == if Buy(v, year) in vars && v in inp.data.vehicles
            then map[Buy(v, year) := inp.data.vehicles[v].purchaseCost] else map[]
  {
    var m := Charged(inp, vars, Purchases, [year], [v], fs, ds);
    assert forall k :: k in m ==> k == Buy(v, year);
  }

  /** A fuel-cost or upkeep iteration writes at most one `use` key. */
  lemma UseCell(inp: Inputs, vars: set<VarKey>, loop: CostLoop, year: int, v: VehicleId, f: FuelId, d: Bucket)
    requires !loop.Purchases?
    ensures var k := Use(v, f, d, year);
      Charged(inp, vars, loop, [year], [v], [f], [d])
        == if k in vars && Charges(inp, loop, k) then map[k := Charge(inp, loop, k)] else map[]
  {
    var m := Charged(inp, vars, loop, [year], [v], [f], [d]);
    assert forall k :: k in m ==> k == Use(v, f, d, year);
  }

  lemma SplitYears(inp: Inputs, vars: set<VarKey>, loop: CostLoop,
                   ys: seq<int>, vs: seq<VehicleId>, fs: seq<FuelId>, ds: seq<Bucket>, i: int)
    requires 0 <= i < |ys|
    ensures Charged(inp, vars, loop, ys[..i + 1], vs, fs, ds)
         == Charged(inp, vars, loop, ys[..i], vs, fs, ds) + Charged(inp, vars, loop, [ys[i]], vs, fs, ds)
  {
    assert ys[..i + 1] == ys[..i] + [ys[i]];
  }

  lemma SplitVehicles(inp: Inputs, vars: set<VarKey>, loop: CostLoop,
                      ys: seq<int>, vs: seq<VehicleId>, fs: seq<FuelId>, ds: seq<Bucket>, j: int)
    requires 0 <= j < |vs|
    ensures Charged(inp, vars, loop, ys, vs[..j + 1], fs, ds)
         == Charged(inp, vars, loop, ys, vs[..j], fs, ds) + Charged(inp, vars, loop, ys, [vs[j]], fs, ds)
  {
    assert vs[..j + 1] == vs[..j] + [vs[j]];
  }

  lemma SplitFuels(inp: Inputs, vars: set<VarKey>, loop: CostLoop,
                   ys: seq<int>, vs: seq<VehicleId>, fs: seq<FuelId>, ds: seq<Bucket>, a: int)
    requires 0 <= a < |fs| && !loop.Purchases?
    ensures Charged(inp, vars, loop, ys, vs, fs[..a + 1], ds)
         == Charged(inp, vars, loop, ys, vs, fs[..a], ds) + Charged(inp, vars, loop, ys, vs, [fs[a]], ds)
  {
    assert fs[..a + 1] == fs[..a] + [fs[a]];
  }

  lemma SplitBuckets(inp: Inputs, vars: set<VarKey>, loop: CostLoop,
                     ys: seq<int>, vs: seq<VehicleId>, fs: seq<FuelId>, ds: seq<Bucket>, b: int)
    requires 0 <= b < |ds| && !loop.Purchases?
    ensures Charged(inp, vars, loop, ys, vs, fs, ds[..b + 1])
         == Charged(inp, vars, loop, ys, vs, fs, ds[..b]) + Charged(inp, vars, loop, ys, vs, fs, [ds[b]])
  {
    assert ds[..b + 1] == ds[..b] + [ds[b]];
  }

  /** A year without a cost profile gets no upkeep coefficients. */
  lemma NoProfileNoUpkeep(inp: Inputs, vars: set<VarKey>, year: int, vs: seq<VehicleId>, fs: seq<FuelId>, ds: seq<Bucket>)
    requires year !in inp.data.costProfiles
    ensures Charged(inp, vars, UpkeepCosts, [year], vs, fs, ds) == map[]
  {
    var m := Charged(inp, vars, UpkeepCosts, [year], vs, fs, ds);
    assert forall k :: k !in m;
  }

  /** An incompatible (vehicle, fuel) pair gets no `use` coefficients. */
  lemma IncompatibleUnused(inp: Inputs, vars: set<VarKey>, loop: CostLoop, year: int, v: VehicleId, f: FuelId, ds: seq<Bucket>)
    requires !loop.Purchases? && (v, f) !in inp.data.vehicleFuels
    ensures Charged(inp, vars, loop, [year], [v], [f], ds) == map[]
  {
    var m := Charged(inp, vars, loop, [year], [v], [f], ds);
    assert forall k :: k !in m;
  }

  /** Over the whole horizon and all vehicles, fuels and buckets a loop writes on every
      variable it charges. */
  lemma ChargedEverywhere(inp: Inputs, vars: set<VarKey>, loop: CostLoop)
    requires inp.Valid() && Registry(inp, vars)
    ensures Charged(inp, vars, loop, inp.Years(), inp.vehicleIds, inp.fuelOrder, Buckets)
         == map k | k in vars && Charges(inp, loop, k) :: Charge(inp, loop, k)
  {
    BucketsListed();
  }

  /** What a loop writes over the whole horizon and all vehicles, fuels and buckets. */
  function Written(inp: Inputs, vars: set<VarKey>, loop: CostLoop): map<VarKey, real> {
    Charged(inp, vars, loop, inp.Years(), inp.vehicleIds, inp.fuelOrder, Buckets)
  }

  // ---------------------------------------------------------------------------------------
  // The loops

  /** `for year in years: for vehicle_id in vehicle_ids: if (vehicle_id, year) in buy: ...` */
  method SetPurchaseCosts(s: Solver, inp: Inputs)
    requires s.Valid() && Priceable(inp, s.vars)
    modifies s
    ensures s.Valid() && s.vars == old(s.vars) && s.constraints == old(s.constraints) && s.minimize == old(s.minimize)
    ensures s.objective == old(s.objective) + Written(inp, s.vars, Purchases)
  {
    var years, ids, fuels := inp.Years(), inp.vehicleIds, inp.fuelOrder;
    ghost var vars := s.vars;
    for i := 0 to |years|
      invariant s.Valid() && s.vars == vars && s.constraints == old(s.constraints) && s.minimize == old(s.minimize)
      invariant s.objective == old(s.objective) + Charged(inp, vars, Purchases, years[..i], ids, fuels, Buckets)
    {
      var year := years[i];
      for j := 0 to |ids|
        invariant s.Valid() && s.vars == vars && s.constraints == old(s.constraints) && s.minimize == old(s.minimize)
        invariant s.objective == old(s.objective) + Charged(inp, vars, Purchases, years[..i], ids, fuels, Buckets)
                                                  + Charged(inp, vars, Purchases, [year], ids[..j], fuels, Buckets)
      {
        var v := ids[j];
        ghost var before := s.objective;
        if Buy(v, year) in s.vars {
          var purchaseCost := inp.data.vehicles[v].purchaseCost;
          s.SetCoefficient(Buy(v, year), purchaseCost);
        }
        PurchaseCell(inp, vars, year, v, fuels, Buckets);
        WriteStep(before, old(s.objective) + Charged(inp, vars, Purchases, years[..i], ids, fuels, Buckets),
                  Charged(inp, vars, Purchases, [year], ids[..j], fuels, Buckets), s.objective,
                  Charged(inp, vars, Purchases, [year], [v], fuels, Buckets),
                  Buy(v, year), inp.data.vehicles[v].purchaseCost, Buy(v, year) in vars);
        SplitVehicles(inp, vars, Purchases, [year], ids, fuels, Buckets, j);
      }
      assert ids[..|ids|] == ids;
      SplitYears(inp, vars, Purchases, years, ids, fuels, Buckets, i);
      UnionAssoc(old(s.objective), Charged(inp, vars, Purchases, years[..i], ids, fuels, Buckets),
                 Charged(inp, vars, Purchases, [year], ids, fuels, Buckets));
    }
    assert years[..|years|] == years;
  }

  /** The innermost fuel-cost loop: `for distance_bucket in distance_buckets: if (...) in use: ...` */
  method SetFuelCostsOf(s: Solver, inp: Inputs, v: VehicleId, f: FuelId, year: int)
    requires s.Valid() && Priceable(inp, s.vars)
    modifies s
    ensures s.Valid() && s.vars == old(s.vars) && s.constraints == old(s.constraints) && s.minimize == old(s.minimize)
    ensures s.objective == old(s.objective) + Charged(inp, s.vars, FuelCosts, [year], [v], [f], Buckets)
  {
    ghost var vars, start := s.vars, s.objective;
    for b := 0 to |Buckets|
      invariant s.Valid() && s.vars == vars && s.constraints == old(s.constraints) && s.minimize == old(s.minimize)
      invariant s.objective == start + Charged(inp, vars, FuelCosts, [year], [v], [f], Buckets[..b])
    {
      var k := Use(v, f, Buckets[b], year);
      ghost var before := s.objective;
      if k in s.vars {
        var fuelCostPerKm := inp.data.vehicleFuels[(v, f)] * inp.data.fuels[f].cost;
        var yearlyRange := inp.data.vehicles[v].yearlyRange;
        var totalFuelCost := fuelCostPerKm * yearlyRange;
        assert totalFuelCost == FuelCost(inp, v, f);
        s.SetCoefficient(k, totalFuelCost);
      }
      UseCell(inp, vars, FuelCosts, year, v, f, Buckets[b]);
      WriteStep(before, start, Charged(inp, vars, FuelCosts, [year], [v], [f], Buckets[..b]), s.objective,
                Charged(inp, vars, FuelCosts, [year], [v], [f], [Buckets[b]]),
                k, if k in vars then FuelCost(inp, v, f) else 0.0, k in vars);
      SplitBuckets(inp, vars, FuelCosts, [year], [v], [f], Buckets, b);
    }
    assert Buckets[..|Buckets|] == Buckets;
  }

  /** The fuel-cost body for one year and one vehicle: `for fuel_type in data['fuels']: ...` */
  method SetFuelCostsAt(s: Solver, inp: Inputs, v: VehicleId, year: int)
    requires s.Valid() && Priceable(inp, s.vars)
    modifies s
    ensures s.Valid() && s.vars == old(s.vars) && s.constraints == old(s.constraints) && s.minimize == old(s.minimize)
    ensures s.objective == old(s.objective) + Charged(inp, s.vars, FuelCosts, [year], [v], inp.fuelOrder, Buckets)
  {
    var fuels := inp.fuelOrder;
    ghost var vars, start := s.vars, s.objective;
    for a := 0 to |fuels|
      invariant s.Valid() && s.vars == vars && s.constraints == old(s.constraints) && s.minimize == old(s.minimize)
      invariant s.objective == start + Charged(inp, vars, FuelCosts, [year], [v], fuels[..a], Buckets)
    {
      ghost var done := Charged(inp, vars, FuelCosts, [year], [v], fuels[..a], Buckets);
      SetFuelCostsOf(s, inp, v, fuels[a], year);
      UnionAssoc(start, done, Charged(inp, vars, FuelCosts, [year], [v], [fuels[a]], Buckets));
      SplitFuels(inp, vars, FuelCosts, [year], [v], fuels, Buckets, a);
    }
    assert fuels[..|fuels|] == fuels;
  }

  /** The fuel-cost body of one year: `for vehicle_id in vehicle_ids: ...` */
  method SetFuelCostsIn(s: Solver, inp: Inputs, year: int)
    requires s.Valid() && Priceable(inp, s.vars)
    modifies s
    ensures s.Valid() && s.vars == old(s.vars) && s.constraints == old(s.constraints) && s.minimize == old(s.minimize)
    ensures s.objective == old(s.objective) + Charged(inp, s.vars, FuelCosts, [year], inp.vehicleIds, inp.fuelOrder, Buckets)
  {
    var ids, fuels := inp.vehicleIds, inp.fuelOrder;
    ghost var vars, start := s.vars, s.objective;
    for j := 0 to |ids|
      invariant s.Valid() && s.vars == vars && s.constraints == old(s.constraints) && s.minimize == old(s.minimize)
      invariant s.objective == start + Charged(inp, vars, FuelCosts, [year], ids[..j], fuels, Buckets)
    {
      ghost var done := Charged(inp, vars, FuelCosts, [year], ids[..j], fuels, Buckets);
      SetFuelCostsAt(s, inp, ids[j], year);
      UnionAssoc(start, done, Charged(inp, vars, FuelCosts, [year], [ids[j]], fuels, Buckets));
      SplitVehicles(inp, vars, FuelCosts, [year], ids, fuels, Buckets, j);
    }
    assert ids[..|ids|] == ids;
  }

  /** `for year in years: for vehicle_id in vehicle_ids: ...` writing fuel costs. */
  method SetFuelCosts(s: Solver, inp: Inputs)
    requires s.Valid() && Priceable(inp, s.vars)
    modifies s
    ensures s.Valid() && s.vars == old(s.vars) && s.constraints == old(s.constraints) && s.minimize == old(s.minimize)
    ensures s.objective == old(s.objective) + Written(inp, s.vars, FuelCosts)
  {
    var years, ids, fuels := inp.Years(), inp.vehicleIds, inp.fuelOrder;
    ghost var vars, start := s.vars, s.objective;
    for i := 0 to |years|
      invariant s.Valid() && s.vars == vars && s.constraints == old(s.constraints) && s.minimize == old(s.minimize)
      invariant s.objective == start + Charged(inp, vars, FuelCosts, years[..i], ids, fuels, Buckets)
    {
      ghost var done := Charged(inp, vars, FuelCosts, years[..i], ids, fuels, Buckets);
      var year := years[i];
      SetFuelCostsIn(s, inp, year);
      UnionAssoc(start, done, Charged(inp, vars, FuelCosts, [year], ids, fuels, Buckets));
      SplitYears(inp, vars, FuelCosts, years, ids, fuels, Buckets, i);
    }
    assert years[..|years|] == years;
  }

  /** The innermost upkeep loop: `for distance_bucket in distance_buckets: if (...) in use: ...` */
  method SetUpkeepCostsOf(s: Solver, inp: Inputs, v: VehicleId, f: FuelId, year: int, total: real)
    requires s.Valid() && Priceable(inp, s.vars)
    requires v in inp.data.vehicles && year in inp.data.costProfiles && total == Upkeep(inp, v, year)
    modifies s
    ensures s.Valid() && s.vars == old(s.vars) && s.constraints == old(s.constraints) && s.minimize == old(s.minimize)
    ensures s.objective == old(s.objective) + Charged(inp, s.vars, UpkeepCosts, [year], [v], [f], Buckets)
  {
    ghost var vars := s.vars;
    for b := 0 to |Buckets|
      invariant s.Valid() && s.vars == vars && s.constraints == old(s.constraints) && s.minimize == old(s.minimize)
      invariant s.objective == old(s.objective) + Charged(inp, vars, UpkeepCosts, [year], [v], [f], Buckets[..b])
    {
      var k := Use(v, f, Buckets[b], year);
      ghost var before := s.objective;
      if k in s.vars {
        s.SetCoefficient(k, total);
      }
      UseCell(inp, vars, UpkeepCosts, year, v, f, Buckets[b]);
      WriteStep(before, old(s.objective), Charged(inp, vars, UpkeepCosts, [year], [v], [f], Buckets[..b]), s.objective,
                Charged(inp, vars, UpkeepCosts, [year], [v], [f], [Buckets[b]]), k, total, k in vars);
      SplitBuckets(inp, vars, UpkeepCosts, [year], [v], [f], Buckets, b);
    }
    assert Buckets[..|Buckets|] == Buckets;
  }

  /** The upkeep body for one year with a cost profile and one vehicle: the percentages turned
      into one amount, then `for fuel_type in data['fuels']: if (...) in data['vehicle_fuels']: ...` */
  method SetUpkeepCostsAt(s: Solver, inp: Inputs, v: VehicleId, year: int)
    requires s.Valid() && Priceable(inp, s.vars)
    requires v in inp.data.vehicles && year in inp.data.costProfiles
    modifies s
    ensures s.Valid() && s.vars == old(s.vars) && s.constraints == old(s.constraints) && s.minimize == old(s.minimize)
    ensures s.objective == old(s.objective) + Charged(inp, s.vars, UpkeepCosts, [year], [v], inp.fuelOrder, Buckets)
  {
    var fuels := inp.fuelOrder;
    ghost var vars := s.vars;
    var purchaseCost := inp.data.vehicles[v].purchaseCost;
    var maintenanceCostPercent := inp.data.costProfiles[year].maintenanceCost;
    var insuranceCostPercent := inp.data.costProfiles[year].insuranceCost;
    var maintenanceCost := (maintenanceCostPercent / 100.0) * purchaseCost;
    var insuranceCost := (insuranceCostPercent / 100.0) * purchaseCost;
    var total := maintenanceCost + insuranceCost;
    ghost var start := s.objective;
    for a := 0 to |fuels|
      invariant s.Valid() && s.vars == vars && s.constraints == old(s.constraints) && s.minimize == old(s.minimize)
      invariant s.objective == start + Charged(inp, vars, UpkeepCosts, [year], [v], fuels[..a], Buckets)
    {
      ghost var done := Charged(inp, vars, UpkeepCosts, [year], [v], fuels[..a], Buckets);
      var f := fuels[a];
      if (v, f) in inp.data.vehicleFuels {
        SetUpkeepCostsOf(s, inp, v, f, year, total);
      } else {
        IncompatibleUnused(inp, vars, UpkeepCosts, year, v, f, Buckets);
      }
      UnionAssoc(start, done, Charged(inp, vars, UpkeepCosts, [year], [v], [f], Buckets));
      SplitFuels(inp, vars, UpkeepCosts, [year], [v], fuels, Buckets, a);
    }
    assert fuels[..|fuels|] == fuels;
  }

  /** The upkeep body of one year with a cost profile: `for vehicle_id in vehicle_ids: if
      vehicle_id in data['vehicles']: ...` */
  method SetUpkeepCostsIn(s: Solver, inp: Inputs, year: int)
    requires s.Valid() && Priceable(inp, s.vars)
    requires year in inp.data.costProfiles
    modifies s
    ensures s.Valid() && s.vars == old(s.vars) && s.constraints == old(s.constraints) && s.minimize == old(s.minimize)
    ensures s.objective == old(s.objective) + Charged(inp, s.vars, UpkeepCosts, [year], inp.vehicleIds, inp.fuelOrder, Buckets)
  {
    var ids, fuels := inp.vehicleIds, inp.fuelOrder;
    ghost var vars, start := s.vars, s.objective;
    for j := 0 to |ids|
      invariant s.Valid() && s.vars == vars && s.constraints == old(s.constraints) && s.minimize == old(s.minimize)
      invariant s.objective == start + Charged(inp, vars, UpkeepCosts, [year], ids[..j], fuels, Buckets)
    {
      ghost var done := Charged(inp, vars, UpkeepCosts, [year], ids[..j], fuels, Buckets);
      var v := ids[j];
      if v in inp.data.vehicles {
        SetUpkeepCostsAt(s, inp, v, year);
      }
      UnionAssoc(start, done, Charged(inp, vars, UpkeepCosts, [year], [v], fuels, Buckets));
      SplitVehicles(inp, vars, UpkeepCosts, [year], ids, fuels, Buckets, j);
    }
    assert ids[..|ids|] == ids;
  }

  /** `for year in years: if year in data['cost_profiles']: ...` */
  method SetUpkeepCosts(s: Solver, inp: Inputs)
    requires s.Valid() && Priceable(inp, s.vars)
    modifies s
    ensures s.Valid() && s.vars == old(s.vars) && s.constraints == old(s.constraints) && s.minimize == old(s.minimize)
    ensures s.objective == old(s.objective) + Written(inp, s.vars, UpkeepCosts)
  {
    var years, ids, fuels := inp.Years(), inp.vehicleIds, inp.fuelOrder;
    ghost var vars, start := s.vars, s.objective;
    for i := 0 to |years|
      invariant s.Valid() && s.vars == vars && s.constraints == old(s.constraints) && s.minimize == old(s.minimize)
      invariant s.objective == start + Charged(inp, vars, UpkeepCosts, years[..i], ids, fuels, Buckets)
    {
      ghost var done := Charged(inp, vars, UpkeepCosts, years[..i], ids, fuels, Buckets);
      var year := years[i];
      if year in inp.data.costProfiles {
        SetUpkeepCostsIn(s, inp, year);
      } else {
        NoProfileNoUpkeep(inp, vars, year, ids, fuels, Buckets);
      }
      UnionAssoc(start, done, Charged(inp, vars, UpkeepCosts, [year], ids, fuels, Buckets));
      SplitYears(inp, vars, UpkeepCosts, years, ids, fuels, Buckets, i);
    }
    assert years[..|years|] == years;
  }

  // ---------------------------------------------------------------------------------------
  // What the three loops leave

  /** What the three loops leave on an empty objective. */
  function AfterLoops(inp: Inputs, vars: set<VarKey>): map<VarKey, real> {
    map[] + Written(inp, vars, Purchases) + Written(inp, vars, FuelCosts) + Written(inp, vars, UpkeepCosts)
  }

  lemma AfterLoopsKeys(inp: Inputs, vars: set<VarKey>)
    requires inp.Valid() && Registry(inp, vars)
    ensures forall k :: k in AfterLoops(inp, vars) <==> k in vars && !k.Sell?
  {
    ChargedEverywhere(inp, vars, Purchases);
    ChargedEverywhere(inp, vars, FuelCosts);
    ChargedEverywhere(inp, vars, UpkeepCosts);
    forall k | k in vars && k.Use? ensures k in Written(inp, vars, FuelCosts) {
    }
  }

  /** Over the whole horizon a loop writes its charge on exactly the variables it charges. */
  lemma WrittenAt(inp: Inputs, vars: set<VarKey>, loop: CostLoop, k: VarKey)
    requires inp.Valid() && Registry(inp, vars)
    ensures k in Written(inp, vars, loop) <==> k in vars && Charges(inp, loop, k)
    ensures k in Written(inp, vars, loop) ==> Written(inp, vars, loop)[k] == Charge(inp, loop, k)
  {
    ChargedEverywhere(inp, vars, loop);
  }

  lemma AfterLoopsValues(inp: Inputs, vars: set<VarKey>, k: VarKey)
    requires inp.Valid() && Registry(inp, vars)
    requires k in vars && !k.Sell?
    ensures Priceable(inp, vars)
    ensures k in AfterLoops(inp, vars) && k in Objective(inp, vars)
    ensures AfterLoops(inp, vars)[k] == Objective(inp, vars)[k]
  {
    RegistryPriceable(inp, vars);
    WrittenAt(inp, vars, Purchases, k);
    WrittenAt(inp, vars, FuelCosts, k);
    WrittenAt(inp, vars, UpkeepCosts, k);
    var obj := Objective(inp, vars);
    if k.Use? {
      if k.year in inp.data.costProfiles {
        assert AfterLoops(inp, vars)[k] == Upkeep(inp, k.v, k.year) == obj[k];
      } else {
        assert AfterLoops(inp, vars)[k] == FuelCost(inp, k.v, k.fuel) == obj[k];
      }
    } else {
      assert AfterLoops(inp, vars)[k] == inp.data.vehicles[k.v].purchaseCost == obj[k];
    }
  }

  /** Running the three loops on an empty objective leaves exactly `Objective`: in a year with
      a cost profile the upkeep replaces the fuel cost instead of adding to it. */
  lemma LastWriteWins(inp: Inputs, vars: set<VarKey>)
    requires inp.Valid() && Registry(inp, vars)
    ensures Priceable(inp, vars) && AfterLoops(inp, vars) == Objective(inp, vars)
  {
    RegistryPriceable(inp, vars);
    AfterLoopsKeys(inp, vars);
    var after, obj := AfterLoops(inp, vars), Objective(inp, vars);
    assert after.Keys == obj.Keys;
    forall k | k in after ensures after[k] == obj[k] {
      AfterLoopsValues(inp, vars, k);
    }
  }

  /** The coefficient a `use` variable ends with, and that a sale never gets one. */
  lemma UseCoefficient(inp: Inputs, vars: set<VarKey>, k: VarKey)
    requires Priceable(inp, vars) && k in vars
    ensures k.Sell? <==> k !in Objective(inp, vars)
    ensures k.Buy? ==> Objective(inp, vars)[k] == inp.data.vehicles[k.v].purchaseCost
    ensures k.Use? && k.year in inp.data.costProfiles ==>
      var p := inp.data.costProfiles[k.year];
      Objective(inp, vars)[k] == (p.maintenanceCost + p.insuranceCost) / 100.0 * inp.data.vehicles[k.v].purchaseCost
    ensures k.Use? && k.year !in inp.data.costProfiles ==>
      Objective(inp, vars)[k]
        == inp.data.vehicleFuels[(k.v, k.fuel)] * inp.data.fuels[k.fuel].cost * inp.data.vehicles[k.v].yearlyRange
  {
    var obj := Objective(inp, vars);
    match k
    case Sell(_, _) =>
    case Buy(v, _) =>
      assert obj[k] == inp.data.vehicles[v].purchaseCost;
    case Use(v, f, _, year) =>
      if year in inp.data.costProfiles {
        var p, pc := inp.data.costProfiles[year], inp.data.vehicles[v].purchaseCost;
        assert obj[k] == Upkeep(inp, v, year);
        assert (p.maintenanceCost / 100.0) * pc + (p.insuranceCost / 100.0) * pc
            == (p.maintenanceCost + p.insuranceCost) / 100.0 * pc;
      } else {
        assert obj[k] == FuelCost(inp, v, f);
      }
  }
}
