/** What the constraint groups of solver.py say, stated coefficient by coefficient and group
    by group. */
module ConstraintFacts {
  import opened Util
  import opened VehicleIds
  import opened Domain
  import opened Milp
  import opened Model
  import opened Constraints

  // ---------------------------------------------------------------------------------------
  // Which constraints a group holds

  lemma {:induction false} RuleRowMembers(rule: VehicleYearRule, inp: Inputs, vars: set<VarKey>, year: int,
                                          vs: seq<VehicleId>, c: Constraint)
    requires forall v :: v in vs ==> PurchaseYear(v).Some?
    ensures c in RuleRow(rule, inp, vars, year, vs) <==> exists v :: v in vs && c in RuleAt(rule, inp, vars, v, year)
    decreases |vs|
  {
    if vs != [] {
      var n := |vs| - 1;
      assert vs == vs[..n] + [vs[n]];
      RuleRowMembers(rule, inp, vars, year, vs[..n], c);
    }
  }

  /** A (vehicle, year) group holds, for every year of `ys` and every vehicle of `vs`, the
      constraints of that pair, and nothing else. */
  lemma {:induction false} RuleGroupMembers(rule: VehicleYearRule, inp: Inputs, vars: set<VarKey>, ys: seq<int>,
                                            vs: seq<VehicleId>, c: Constraint)
    requires forall v :: v in vs ==> PurchaseYear(v).Some?
    ensures c in RuleGroup(rule, inp, vars, ys, vs) <==>
      exists y, v :: y in ys && v in vs && c in RuleAt(rule, inp, vars, v, y)
    decreases |ys|
  {
    if ys != [] {
      var n := |ys| - 1;
      assert ys == ys[..n] + [ys[n]];
      RuleGroupMembers(rule, inp, vars, ys[..n], vs, c);
      RuleRowMembers(rule, inp, vars, ys[n], vs, c);
    }
  }

  /** A per-year group holds one constraint per year: as many constraints as years, each
      the constraint of one of the years. */
  lemma {:induction false} YearGroupMembers(rule: YearRule, inp: Inputs, vars: set<VarKey>, ys: seq<int>, c: Constraint)
    requires rule.CarbonLimit? ==> forall y :: y in ys ==> y in inp.data.carbonLimits
    ensures |YearGroup(rule, inp, vars, ys)| == |ys|
    ensures c in YearGroup(rule, inp, vars, ys) <==> exists y :: y in ys && c == YearRuleAt(rule, inp, vars, y)
    decreases |ys|
  {
    if ys != [] {
      var n := |ys| - 1;
      assert ys == ys[..n] + [ys[n]];
      YearGroupMembers(rule, inp, vars, ys[..n], c);
    }
  }

  /** A per-vehicle group holds the constraints of every vehicle of `vs` and nothing else. */
  lemma {:induction false} VehicleGroupMembers(rule: VehicleRule, inp: Inputs, vs: seq<VehicleId>, c: Constraint)
    requires forall v :: v in vs ==> PurchaseYear(v).Some?
    ensures c in VehicleGroup(rule, inp, vs) <==> exists v :: v in vs && c in VehicleRuleAt(rule, inp, v)
    decreases |vs|
  {
    if vs != [] {
      var n := |vs| - 1;
      assert vs == vs[..n] + [vs[n]];
      VehicleGroupMembers(rule, inp, vs[..n], c);
    }
  }

  lemma {:induction false} DemandForSizeMembers(inp: Inputs, year: int, size: Size, ds: seq<Bucket>, c: Constraint)
    requires year in inp.data.demand
    ensures c in DemandForSize(inp, year, size, ds) <==>
      exists d :: d in ds && (size, d) in inp.data.demand[year] && c == DemandAt(inp, year, size, d)
    decreases |ds|
  {
    if ds != [] {
      var n := |ds| - 1;
      assert ds == ds[..n] + [ds[n]];
      DemandForSizeMembers(inp, year, size, ds[..n], c);
    }
  }

  lemma {:induction false} DemandForYearMembers(inp: Inputs, year: int, ss: seq<Size>, c: Constraint)
    requires ss != [] ==> year in inp.data.demand
    ensures c in DemandForYear(inp, year, ss) <==>
      exists s, d :: s in ss && (s, d) in inp.data.demand[year] && c == DemandAt(inp, year, s, d)
    decreases |ss|
  {
    BucketsListed();
    if ss != [] {
      var n := |ss| - 1;
      assert ss == ss[..n] + [ss[n]];
      DemandForYearMembers(inp, year, ss[..n], c);
      DemandForSizeMembers(inp, year, ss[n], Buckets, c);
    }
  }

  /** The demand group holds one constraint for each year of `ys`, each size of `size_buckets`
      and each bucket that has a demand entry, and nothing else: demand rows whose size no
      vehicle has are never constrained. */
  lemma {:induction false} DemandGroupMembers(inp: Inputs, ys: seq<int>, c: Constraint)
    requires forall y :: y in ys ==> inp.sizeBuckets != [] ==> y in inp.data.demand
    ensures c in DemandGroup(inp, ys) <==>
      exists y, s, d :: y in ys && s in inp.sizeBuckets && (s, d) in inp.data.demand[y] && c == DemandAt(inp, y, s, d)
    decreases |ys|
  {
    if ys != [] {
      var n := |ys| - 1;
      assert ys == ys[..n] + [ys[n]];
      DemandGroupMembers(inp, ys[..n], c);
      DemandForYearMembers(inp, ys[n], inp.sizeBuckets, c);
    }
  }

  // ---------------------------------------------------------------------------------------
  // What each constraint says

  /** `available_vehicles` counts the purchase, if it lies in the horizon and not after the
      year, and subtracts every sale in the horizon before the year. */
  lemma AvailableCoefficients(inp: Inputs, vars: set<VarKey>, v: VehicleId, year: int, k: VarKey)
    requires inp.Valid() && Registry(inp, vars)
    requires v in inp.data.vehicles && year in inp.Years()
    ensures Coef(Available(inp, vars, v, year), k) ==
      if k == Buy(v, Acquired(v)) && inp.startYear <= Acquired(v) <= year then 1.0
      else if k.Sell? && k.v == v && inp.startYear <= k.year < year then -1.0
      else 0.0
  {
    InRange(inp.startYear, inp.endYear, k.year);
    InRange(inp.startYear, inp.endYear, year);
  }

  /** Availability: the vehicle's `use` variables of the year, minus its purchase if that lies
      in the horizon and not after the year, plus its sales in the horizon before the year,
      is at most and also exactly zero. */
  lemma AvailabilityCoefficients(inp: Inputs, vars: set<VarKey>, v: VehicleId, year: int, k: VarKey)
    requires inp.Valid() && Registry(inp, vars)
    requires v in inp.data.vehicles && year in inp.Years()
    ensures var cs := RuleAt(Availability, inp, vars, v, year);
      && |cs| == 2 && cs[0].terms == cs[1].terms
      && cs[0].sense == AtMost && cs[1].sense == Exactly && cs[0].bound == cs[1].bound == 0.0
      && Coef(cs[0].terms, k) ==
           if k.Use? && k.v == v && k.year == year && k.fuel in inp.data.fuels && (v, k.fuel) in inp.data.vehicleFuels then 1.0
           else if k == Buy(v, Acquired(v)) && inp.startYear <= Acquired(v) <= year then -1.0
           else if k.Sell? && k.v == v && inp.startYear <= k.year < year then 1.0
           else 0.0
  {
    AvailableCoefficients(inp, vars, v, year, k);
    BucketsListed();
  }

  /** Sell ceiling: selling in `year` is bounded by what is available in `year`. */
  lemma SellCeilingCoefficients(inp: Inputs, vars: set<VarKey>, v: VehicleId, year: int, k: VarKey)
    requires inp.Valid() && Registry(inp, vars)
    requires v in inp.data.vehicles && year in inp.Years()
    ensures var cs := RuleAt(SellCeiling, inp, vars, v, year);
      && |cs| == 1 && cs[0].sense == AtMost && cs[0].bound == 0.0
      && Coef(cs[0].terms, k) ==
           if k == Sell(v, year) then 1.0
           else if k == Buy(v, Acquired(v)) && inp.startYear <= Acquired(v) <= year then -1.0
           else if k.Sell? && k.v == v && inp.startYear <= k.year < year then 1.0
           else 0.0
  {
    AvailableCoefficients(inp, vars, v, year, k);
  }

  /** Usage window: the vehicle's `use` variables of a year are forced to zero unless the year
      is one of the ten from its purchase year on. */
  lemma UsageWindowSense(inp: Inputs, vars: set<VarKey>, v: VehicleId, year: int, k: VarKey)
    requires PurchaseYear(v).Some?
    ensures var cs := RuleAt(UsageWindow, inp, vars, v, year);
      && |cs| == 1 && cs[0].bound == 0.0
      && (cs[0].sense == Exactly <==> year < Acquired(v) || year > Acquired(v) + 9)
      && (cs[0].sense == AtLeast <==> Acquired(v) <= year <= Acquired(v) + 9)
      && Coef(cs[0].terms, k) ==
           if k.Use? && k.v == v && k.year == year && k.fuel in inp.data.fuels && (v, k.fuel) in inp.data.vehicleFuels then 1.0
           else 0.0
  {
    BucketsListed();
  }

  /** Carbon limit: each `use` variable of the year weighs consumption times emission factor
      times yearly range; nothing else appears; the bound is the year's limit. */
  lemma CarbonCoefficients(inp: Inputs, vars: set<VarKey>, year: int, k: VarKey)
    requires year in inp.data.carbonLimits
    ensures var c := YearRuleAt(CarbonLimit, inp, vars, year);
      && c.sense == AtMost && c.bound == inp.data.carbonLimits[year]
      && Coef(c.terms, k) ==
           if k.Use? && k.year == year && k.v in inp.data.vehicles && k.fuel in inp.data.fuels
              && (k.v, k.fuel) in inp.data.vehicleFuels
           then inp.data.vehicleFuels[(k.v, k.fuel)] * inp.data.fuels[k.fuel].carbonEmission
                  * inp.data.vehicles[k.v].yearlyRange
           else 0.0
  {
    BucketsListed();
  }

  /** `fleet_size` counts every purchase in the horizon up to the year and subtracts every
      sale in the horizon before it. */
  lemma FleetAtStartCoefficients(inp: Inputs, vars: set<VarKey>, year: int, k: VarKey)
    requires inp.Valid() && Registry(inp, vars)
    requires year in inp.Years()
    ensures Coef(FleetAtStart(inp, vars, year), k) ==
      if k.Buy? && k.v in inp.data.vehicles && PurchaseYear(k.v) == Some(k.year)
         && inp.startYear <= k.year <= year then 1.0
      else if k.Sell? && k.v in inp.data.vehicles && inp.startYear <= k.year < year then -1.0
      else 0.0
  {
    InRange(inp.startYear, inp.endYear, k.year);
    InRange(inp.startYear, inp.endYear, year);
  }

  /** Fleet sell cap: the sales of the year minus one fifth of the fleet at its start (all
      purchases up to it, less all sales before it) is at most zero. */
  lemma FleetCapCoefficients(inp: Inputs, vars: set<VarKey>, year: int, k: VarKey)
    requires inp.Valid() && Registry(inp, vars)
    requires year in inp.Years()
    ensures var c := YearRuleAt(FleetSellCap, inp, vars, year);
      && c.sense == AtMost && c.bound == 0.0
      && Coef(c.terms, k) ==
           if k.Sell? && k.v in inp.data.vehicles && k.year == year then 1.0
           else if k.Buy? && k.v in inp.data.vehicles && PurchaseYear(k.v) == Some(k.year)
                   && inp.startYear <= k.year <= year then -0.2
           else if k.Sell? && k.v in inp.data.vehicles && inp.startYear <= k.year < year then 0.2
           else 0.0
  {
    FleetAtStartCoefficients(inp, vars, year, k);
    var fleet := Coef(FleetAtStart(inp, vars, year), k);
    assert Coef(Scale(0.2, FleetAtStart(inp, vars, year)), k) == 0.2 * fleet;
    InRange(inp.startYear, inp.endYear, k.year);
    assert Coef(Ones(SoldIn(inp, vars, year)), k) == if k.Sell? && k.v in inp.data.vehicles && k.year == year then 1.0 else 0.0;
  }

  /** Purchase mandate: a vehicle whose purchase year is in the horizon must be bought then;
      other vehicles get no such constraint. */
  lemma PurchaseMandateShape(inp: Inputs, v: VehicleId)
    requires PurchaseYear(v).Some?
    ensures var cs := VehicleRuleAt(PurchaseMandate, inp, v);
      && (cs != [] <==> inp.startYear <= Acquired(v) < inp.endYear)
      && (cs != [] ==> cs == [Constraint(map[Buy(v, Acquired(v)) := 1.0], AtLeast, 1.0)])
  {
    InRange(inp.startYear, inp.endYear, Acquired(v));
  }

  /** Lifespan: when year p + 10 is in the horizon, the sales in the eleven years p .. p + 10
      together cover the purchase in year p; otherwise there is no such constraint. */
  lemma LifespanWindow(inp: Inputs, v: VehicleId, k: VarKey)
    requires PurchaseYear(v).Some?
    ensures var p := Acquired(v);
      var cs := VehicleRuleAt(Lifespan, inp, v);
      && (cs != [] <==> inp.startYear <= p + 10 < inp.endYear)
      && (cs != [] ==>
            && |cs| == 1 && cs[0].sense == AtLeast && cs[0].bound == 0.0
            && Coef(cs[0].terms, k) ==
                 if k == Buy(v, p) then -1.0
                 else if k.Sell? && k.v == v && p <= k.year <= p + 10 then 1.0
                 else 0.0)
  {
    var p := Acquired(v);
    InRange(inp.startYear, inp.endYear, p + 10);
    if inp.startYear <= p + 10 < inp.endYear {
      assert Min(p + 11, inp.endYear) == p + 11;
      LifespanTerms(inp, v, p, k);
    }
  }

  /** The terms of the lifespan constraint: the sales of the window minus the purchase. */
  lemma LifespanTerms(inp: Inputs, v: VehicleId, p: int, k: VarKey)
    ensures Coef(LifespanConstraint(inp, v, p).terms, k) ==
      if k == Buy(v, p) then -1.0
      else if k.Sell? && k.v == v && p <= k.year < Min(p + 11, inp.endYear) then 1.0
      else 0.0
  {
    InRange(p, Min(p + 11, inp.endYear), k.year);
  }

  /** Demand: a `use` variable at bucket `dist` counts with the vehicle's yearly range exactly
      when the vehicle has the size, ranks at least as high as `dist` and takes the fuel. */
  lemma DemandCoefficients(inp: Inputs, year: int, size: Size, dist: Bucket, k: VarKey)
    requires year in inp.data.demand && (size, dist) in inp.data.demand[year]
    ensures var c := DemandAt(inp, year, size, dist);
      && c.sense == AtLeast && c.bound == inp.data.demand[year][(size, dist)]
      && Coef(c.terms, k) ==
           if && k.Use? && k.year == year && k.bucket == dist && k.v in inp.data.vehicles
              && k.fuel in inp.data.fuels && (k.v, k.fuel) in inp.data.vehicleFuels
              && inp.data.vehicles[k.v].sizeBucket == size
              && Rank(inp.data.vehicles[k.v].distanceBucket) >= Rank(dist)
           then inp.data.vehicles[k.v].yearlyRange
           else 0.0
  {
  }

  /** With no vehicle able to serve a demand entry, the constraint built for it has no terms
      and reads `0 >= demand`. The script builds that constraint only when some vehicle has the
      entry's size (`DemandEntryConstrained`); an entry of any other size gets no constraint at
      all (`DemandGroupMembers`). */
  lemma UnservableDemand(inp: Inputs, year: int, size: Size, dist: Bucket)
    requires year in inp.data.demand && (size, dist) in inp.data.demand[year]
    requires forall v, f :: v in inp.data.vehicles && f in inp.data.fuels && (v, f) in inp.data.vehicleFuels ==>
      inp.data.vehicles[v].sizeBucket != size || Rank(inp.data.vehicles[v].distanceBucket) < Rank(dist)
    ensures DemandAt(inp, year, size, dist).terms == map[]
  {
  }

  /** A demand entry for a horizon year, whose size some vehicle has, is constrained: its
      constraint is in the demand group. */
  lemma DemandEntryConstrained(inp: Inputs, year: int, size: Size, dist: Bucket)
    requires inp.Valid() && year in inp.Years()
    requires year in inp.data.demand && (size, dist) in inp.data.demand[year]
    requires exists v :: v in inp.data.vehicles && inp.data.vehicles[v].sizeBucket == size
    ensures (HorizonLookups(inp); DemandAt(inp, year, size, dist) in DemandGroup(inp, inp.Years()))
  {
    HorizonLookups(inp);
    assert size in inp.sizeBuckets;
    DemandGroupMembers(inp, inp.Years(), DemandAt(inp, year, size, dist));
  }
}
