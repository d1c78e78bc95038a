/** The script's inputs to the model builder and the creation of the decision variables
    (solver.py, the `buy`/`use`/`sell` loops). */
module Model {
  import opened Util
  import opened VehicleIds
  import opened Domain
  import opened Milp

  /** What the script has in hand when it starts building: the horizon, the lists it iterates
      and the tables. Python gives `vehicle_ids` and `size_buckets` in the order of a `set`, and
      iterates `data['fuels']` and `data['vehicles']` in insertion order; those orders are
      inputs here. */
  datatype Inputs = Inputs(
    startYear: int,
    endYear: int,
    vehicleIds: seq<VehicleId>,
    sizeBuckets: seq<Size>,
    fuelOrder: seq<FuelId>,
    vehicleOrder: seq<VehicleId>,
    data: Tables)
  {
    /** `years = list(range(start_year, end_year))` */
    function Years(): seq<int> {
      Range(startYear, endYear)
    }

    /** The lists enumerate their tables, and every lookup the script does without a guard
        succeeds (otherwise Python stops with `KeyError` or `ValueError`). */
    ghost predicate Valid() {
      && Distinct(vehicleIds) && (forall v :: v in vehicleIds <==> v in data.vehicles)
      && Distinct(vehicleOrder) && (forall v :: v in vehicleOrder <==> v in data.vehicles)
      && Distinct(fuelOrder) && (forall f :: f in fuelOrder <==> f in data.fuels)
      && Distinct(sizeBuckets)
      && (forall s :: s in sizeBuckets <==> exists v :: v in data.vehicles && data.vehicles[v].sizeBucket == s)
      // int(vehicle_id.split('_')[-1])
      && (forall v :: v in data.vehicles ==> PurchaseYear(v).Some?)
      // data['demand'][year] (read only inside the loop over size buckets) and data['carbon_limits'][year]
      && (forall y :: startYear <= y < endYear ==> (sizeBuckets != [] ==> y in data.demand) && y in data.carbonLimits)
      // the lifespan constraint reads buy[(v, p)] and sell[(v, p)] once p + 10 is in the horizon
      && (forall v :: v in data.vehicles && startYear <= PurchaseYear(v).value + 10 < endYear ==>
            startYear <= PurchaseYear(v).value)
    }
  }

  /** `data['carbon_limits'][year]` succeeds for every year of the horizon, and so does
      `data['demand'][year]` whenever there is a size bucket to read it for. */
  lemma HorizonLookups(inp: Inputs)
    requires inp.Valid()
    ensures forall y :: y in inp.Years() ==> (inp.sizeBuckets != [] ==> y in inp.data.demand) && y in inp.data.carbonLimits
  {
    forall y | y in inp.Years() ensures (inp.sizeBuckets != [] ==> y in inp.data.demand) && y in inp.data.carbonLimits {
      InRange(inp.startYear, inp.endYear, y);
    }
  }

  /** The purchase year of a vehicle whose identifier ends in a numeral. */
  function Acquired(v: VehicleId): int
    requires PurchaseYear(v).Some?
  {
    PurchaseYear(v).value
  }

  /** The keys the variable loops create for the years `ys` and the vehicles `vs`:
      `buy` only in the purchase year, `use` for every compatible fuel and every bucket,
      `sell` always. */
  predicate Creates(inp: Inputs, ys: seq<int>, vs: seq<VehicleId>, k: VarKey) {
    && k.v in vs
    && k.year in ys
    && match k
       case Buy(v, y) => PurchaseYear(v) == Some(y)
       case Use(v, f, _, _) => f in inp.data.fuels && (v, f) in inp.data.vehicleFuels
       case Sell(_, _) => true
  }

  /** The variables created are exactly those for the whole horizon and all vehicles. */
  ghost predicate Registry(inp: Inputs, vars: set<VarKey>) {
    forall k :: k in vars <==> Creates(inp, inp.Years(), inp.vehicleIds, k)
  }

  /** The body of `for year ...: for vehicle_id ...:` in the variable loops. */
  method CreateCell(s: Solver, inp: Inputs, v: VehicleId, year: int)
    requires inp.Valid() && s.Valid()
    modifies s
    ensures s.Valid()
    ensures s.constraints == old(s.constraints) && s.objective == old(s.objective) && s.minimize == old(s.minimize)
    ensures forall k :: k in s.vars <==> k in old(s.vars) || Creates(inp, [year], [v], k)
  {
    if PurchaseYear(v) == Some(year) {
      s.IntVar(Buy(v, year));
    }
    for a := 0 to |inp.fuelOrder|
      invariant s.Valid()
      invariant s.constraints == old(s.constraints) && s.objective == old(s.objective) && s.minimize == old(s.minimize)
      invariant forall k :: k in s.vars <==>
        || k in old(s.vars)
        || (k == Buy(v, year) && PurchaseYear(v) == Some(year))
        || (k.Use? && k.v == v && k.year == year && k.fuel in inp.fuelOrder[..a] && (v, k.fuel) in inp.data.vehicleFuels)
    {
      var f := inp.fuelOrder[a];
      if (v, f) in inp.data.vehicleFuels {
        for b := 0 to |Buckets|
          invariant s.Valid()
          invariant s.constraints == old(s.constraints) && s.objective == old(s.objective) && s.minimize == old(s.minimize)
          invariant forall k :: k in s.vars <==>
            || k in old(s.vars)
            || (k == Buy(v, year) && PurchaseYear(v) == Some(year))
            || (k.Use? && k.v == v && k.year == year && k.fuel in inp.fuelOrder[..a] && (v, k.fuel) in inp.data.vehicleFuels)
            || (k.Use? && k.v == v && k.year == year && k.fuel == f && k.bucket in Buckets[..b])
        {
          s.IntVar(Use(v, f, Buckets[b], year));
        }
        assert Buckets[..|Buckets|] == Buckets;
        BucketsListed();
      }
      assert inp.fuelOrder[..a + 1] == inp.fuelOrder[..a] + [f];
    }
    s.IntVar(Sell(v, year));
    assert inp.fuelOrder[..|inp.fuelOrder|] == inp.fuelOrder;
  }

  /** solver.py's first loop nest: the variables are exactly the keys `Creates` describes. */
  method CreateVariables(s: Solver, inp: Inputs)
    requires inp.Valid() && s.Valid() && s.vars == {}
    modifies s
    ensures s.Valid() && Registry(inp, s.vars)
    ensures s.constraints == old(s.constraints) && s.objective == old(s.objective) && s.minimize == old(s.minimize)
  {
    var years := inp.Years();
    var ids := inp.vehicleIds;
    for i := 0 to |years|
      invariant s.Valid()
      invariant s.constraints == old(s.constraints) && s.objective == old(s.objective) && s.minimize == old(s.minimize)
      invariant forall k :: k in s.vars <==> Creates(inp, years[..i], ids, k)
    {
      for j := 0 to |ids|
        invariant s.Valid()
        invariant s.constraints == old(s.constraints) && s.objective == old(s.objective) && s.minimize == old(s.minimize)
        invariant forall k :: k in s.vars <==> Creates(inp, years[..i], ids, k) || Creates(inp, [years[i]], ids[..j], k)
      {
        CreateCell(s, inp, ids[j], years[i]);
        assert ids[..j + 1] == ids[..j] + [ids[j]];
      }
      assert years[..i + 1] == years[..i] + [years[i]];
      assert ids[..|ids|] == ids;
    }
    assert years[..|years|] == years;
  }

  /** `buy[(v, y)]` exists iff `y` is in the horizon and is the year in `v`'s identifier. */
  lemma BuySparsity(inp: Inputs, vars: set<VarKey>, v: VehicleId, y: int)
    requires inp.Valid() && Registry(inp, vars)
    ensures Buy(v, y) in vars <==>
      v in inp.data.vehicles && inp.startYear <= y < inp.endYear && PurchaseYear(v) == Some(y)
  {
    InRange(inp.startYear, inp.endYear, y);
  }

  /** `sell[(v, y)]` exists for every vehicle and every year of the horizon. */
  lemma SellEverywhere(inp: Inputs, vars: set<VarKey>, v: VehicleId, y: int)
    requires inp.Valid() && Registry(inp, vars)
    ensures Sell(v, y) in vars <==> v in inp.data.vehicles && inp.startYear <= y < inp.endYear
  {
    InRange(inp.startYear, inp.endYear, y);
  }

  /** `use[(v, f, d, y)]` exists for every compatible fuel, every bucket and every year of the
      horizon, whatever the purchase year and whatever the vehicle's own distance bucket. */
  lemma UseSparsity(inp: Inputs, vars: set<VarKey>, v: VehicleId, f: FuelId, d: Bucket, y: int)
    requires inp.Valid() && Registry(inp, vars)
    ensures Use(v, f, d, y) in vars <==>
      && v in inp.data.vehicles && f in inp.data.fuels && (v, f) in inp.data.vehicleFuels
      && inp.startYear <= y < inp.endYear
  {
    InRange(inp.startYear, inp.endYear, y);
  }
}
