/** The script body of solver.py: the horizon constants, the model built in the script's
    order, and the solution read back from a valuation of the variables. */
module Planner {
  import opened Util
  import opened Domain
  import opened Milp
  import opened Loader
  import opened Model
  import opened Constraints
  import opened Costs
  import opened Extractor

  const NumYears: int := 16
  const StartYear: int := 2023
  const EndYear: int := StartYear + NumYears

  /** The eight constraint groups, in the script's order. */
  method AddConstraints(s: Solver, inp: Inputs)
    requires inp.Valid() && s.Valid() && Registry(inp, s.vars) && s.constraints == []
    modifies s
    ensures s.Valid() && s.vars == old(s.vars) && s.objective == old(s.objective) && s.minimize == old(s.minimize)
    ensures s.constraints == ModelConstraints(inp, s.vars)
  {
    HorizonLookups(inp);
    ghost var vars, years := s.vars, inp.Years();
    AddVehicleYearRule(s, inp, Availability);
    assert s.constraints == RuleGroup(Availability, inp, vars, years, inp.vehicleIds);
    AddVehicleYearRule(s, inp, SellCeiling);
    AddDemand(s, inp);
    AddYearRule(s, inp, CarbonLimit);
    AddVehicleRule(s, inp, PurchaseMandate);
    AddVehicleRule(s, inp, Lifespan);
    AddYearRule(s, inp, FleetSellCap);
    AddVehicleYearRule(s, inp, UsageWindow);
  }

  /** The three coefficient loops and the minimisation sense. */
  method SetObjective(s: Solver, inp: Inputs)
    requires inp.Valid() && s.Valid() && Registry(inp, s.vars) && s.objective == map[]
    modifies s
    ensures s.Valid() && s.vars == old(s.vars) && s.constraints == old(s.constraints)
    ensures Priceable(inp, s.vars) && s.objective == Objective(inp, s.vars) && s.minimize
  {
    ghost var vars := s.vars;
    RegistryPriceable(inp, vars);
    SetPurchaseCosts(s, inp);
    SetFuelCosts(s, inp);
    SetUpkeepCosts(s, inp);
    assert s.objective == AfterLoops(inp, vars);
    LastWriteWins(inp, vars);
    s.SetMinimization();
  }

  /** Variables, then the constraints, then the objective. The finished model holds exactly
      the registered variables, the constraints of `ModelConstraints`, and the objective of
      `Objective`, in which the later loops' coefficients have replaced the earlier ones. */
  method BuildModel(inp: Inputs) returns (s: Solver)
    requires inp.Valid()
    ensures fresh(s) && s.Valid()
    ensures Registry(inp, s.vars)
    ensures s.constraints == ModelConstraints(inp, s.vars)
    ensures Priceable(inp, s.vars) && s.objective == Objective(inp, s.vars)
    ensures s.minimize
  {
    s := new Solver();
    CreateVariables(s, inp);
    AddConstraints(s, inp);
    SetObjective(s, inp);
  }

  /** The whole script for given rows of the input files: prepare the tables over the
      horizon, build the model, and read the solution rows from `value`, the valuation the
      solver returned. The orders in which Python enumerates its sets and dictionaries are
      parameters. */
  method Plan(f: Frames, vehicleIds: seq<VehicleId>, sizeBuckets: seq<Size>, fuelOrder: seq<FuelId>,
              vehicleOrder: seq<VehicleId>, value: map<VarKey, real>)
    returns (s: Solver, solution: seq<Row>)
    requires
      var data := Prepared(f, Range(StartYear, EndYear));
      Inputs(StartYear, EndYear, vehicleIds, sizeBuckets, fuelOrder, vehicleOrder, data).Valid()
    ensures
      var inp := Inputs(StartYear, EndYear, vehicleIds, sizeBuckets, fuelOrder, vehicleOrder,
                        Prepared(f, Range(StartYear, EndYear)));
      && fresh(s) && s.Valid() && Registry(inp, s.vars)
      && s.constraints == ModelConstraints(inp, s.vars)
      && Priceable(inp, s.vars) && s.objective == Objective(inp, s.vars) && s.minimize
      && solution == Solution(inp, s.vars, value)
  {
    var years := Range(StartYear, EndYear);
    var data := LoadAndPrepare(f, years);
    var inp := Inputs(StartYear, EndYear, vehicleIds, sizeBuckets, fuelOrder, vehicleOrder, data);
    s := BuildModel(inp);
    solution := Extract(inp, s.vars, value);
  }
}
