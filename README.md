# Fleet transition planner: model builder, loader and solution extractor

This project models the core of a fleet-planning script in Dafny. The script is `solver.py`, with its loader in `data.py`. Its job is to decide, year by year over a sixteen-year horizon, how many vehicles of each cohort to buy, use (with a given fuel, for a given distance bucket) and sell.

It first reshapes six input tables into keyed dictionaries (`load_and_prepare_data`). It then:

- parses each vehicle's purchase year from the numeral after the last underscore of its identifier;
- creates sparse integer variables `buy`, `use` and `sell`;
- adds the availability, sell-ceiling, demand, carbon, purchase-mandate, lifespan, fleet sell-cap and usage-window constraints;
- writes the cost coefficients of the objective;
- reads a solution list back from the solved values.

The model keeps the script's imperative shape.

- `Milp.Solver` is a class standing for the OR-tools solver adapter. Its state is:
  - the set of created variable keys;
  - the sequence of constraints that `Add` appends to;
  - the objective map that `SetCoefficient` overwrites.
- Every loop of the script is a method with loop invariants.
- Each method is proved against a specification function over the loop's range. Examples are `RuleGroup`, `DemandGroup`, `Charged`, `Solution` and `Prepared`.
- Lemmas then state what those functions mean:
  - which variables exist;
  - which coefficient each variable has in each constraint;
  - which coefficient it ends with in the objective;
  - which rows the solution holds, and in what order;
  - which row of an input file a table entry comes from.

Numbers are exact reals. The solver is not modelled: the valuation it returns is a parameter of `Extractor.Extract` and `Planner.Plan`.

The model follows what the code does, including where that differs from the intended planning behaviour. The points below are the main ones; the list is not exhaustive.

- **Objective coefficients.** The intent is that a variable's costs add up. In the code, `SetCoefficient` replaces the coefficient a variable already has. So in a year that has a cost profile, the maintenance-and-insurance coefficient replaces the fuel cost of a `use` variable (solver.py:194, solver.py:215). `Costs.LastWriteWins` and `Costs.UseCoefficient` state the overwrite.
- **Solution counts.** The intent is to round each solved value to the nearest integer. The code writes `int()` of the value, which truncates toward zero. `Extractor.Truncate` models `int()`.
- **Solver status.** The intent is to read a solution only from a feasible or optimal solve. The code never checks the status: extraction runs on whatever values come back.
- **Zero rows.** The intent is a zero-activity row wherever no `use` value is positive. The code writes one for a (year, size, distance) combination with no *eligible* positive `use` variable. Eligible means the vehicle has that size and a distance bucket ranked at least as high.
- **Variables outside a cohort's life.** `use` and `sell` variables exist for every horizon year, whatever the vehicle's purchase year, including years before it was bought (solver.py:51-59). `Model.UseSparsity` and `Model.SellEverywhere` state this.
- **Unservable demand.** Take a demand entry whose size some vehicle has, but which no vehicle can serve because of distance rank or fuel. It still gets a constraint. The constraint's terms are empty, so it reads `0 >= demand` (solver.py:102-113). `ConstraintFacts.UnservableDemand` and `ConstraintFacts.DemandEntryConstrained` state this.
- **Demand for a size no vehicle has.** The intent is that no demand goes silently unmet. But `size_buckets` holds only the vehicles' sizes (solver.py:27), and the demand loop visits only those sizes (solver.py:98). So a demand entry for any other size gets no constraint at all. `ConstraintFacts.DemandGroupMembers` states this.
- **Availability twice.** Both the `<=` and the `==` availability constraints are added for every vehicle and year (solver.py:71-82).

## Model

| member | source | states |
|---|---|---|
| VehicleIds.LastTokenIsSuffix | solver.py:45 | `split('_')[-1]` is a suffix of the identifier and holds no underscore. It is either the whole identifier or directly preceded by an underscore. |
| VehicleIds.LastTokenAfterSeparator | solver.py:45 | For `prefix + "_" + t` with `t` free of underscores, the last token is exactly `t`, whatever the prefix holds. |
| VehicleIds.DecimalValue | solver.py:45 | The decimal numeral of `n` is a non-empty digit string whose value is `n`. |
| VehicleIds.PurchaseYearOf | solver.py:45 | Round trip: an identifier ending in `_` followed by the numeral of a year parses back to that year. |
| VehicleIds.ParseInt | solver.py:45 | `int()` succeeds exactly on a numeral: a non-empty run of ASCII digits, optionally after a leading `+` or `-`. Otherwise the result is `None`, where `int()` raises `ValueError`. An unsigned numeral gives a non-negative value. |
| VehicleIds.PurchaseYear | solver.py:45 | `int(vehicle_id.split('_')[-1])`: the purchase year exists exactly when the last token is an optionally signed ASCII numeral. Its value is fixed by `PurchaseYearOf`. |
| VehicleIds.EmptyOrSignRejected | solver.py:45 | An empty last token, or a bare `+` or `-`, has no purchase year. This is where `int()` raises `ValueError`. |
| VehicleIds.NonNumeralRejected | solver.py:45 | A token with a non-digit character, other than a leading sign, has no purchase year. This is where `int()` raises `ValueError`. |
| Domain.BucketsListed | solver.py:28 | Every distance bucket appears in `distance_buckets`. |
| Domain.RankIsPosition | solver.py:108-110 | `Rank` is the bucket's index in `distance_buckets` and is injective, so the capability test compares list positions. |
| Util.RangeFacts | solver.py:20 | `list(range(lo, hi))` has no duplicates and holds exactly the integers `lo <= y < hi`. |
| Util.IndexKeys | data.py:36-69 | After a keyed-assignment loop, the keys are the old keys plus the keys of the rows. |
| Util.IndexLast | data.py:36-69 | After a keyed-assignment loop, a key holds the value of the last row carrying it. |
| Util.IndexUntouched | data.py:36-69 | A key that no row carries keeps its old value. |
| Loader.FillDemand | data.py:27-33 | The demand loop leaves exactly `DemandTable(rows)`. |
| Loader.FillTable | data.py:36-69 | Each single-key loop leaves exactly the last-write-wins index of its rows. |
| Loader.LoadAndPrepare | data.py:14-70 | The returned `data` is `Prepared(f, years)`. `years` is stored unchanged, and each table is built from its own file's rows only. |
| Loader.DemandYears | data.py:31-32 | The outer keys of `demand` are exactly the years that occur in demand rows. |
| Loader.DemandEntries | data.py:31-33 | A year's inner keys are exactly the (size, distance) pairs of that year's rows. A later row of the same year never resets the inner dictionary. |
| Loader.DemandLastRowWins | data.py:27-33 | `demand[year][(size, distance)]` is the demand of the last row with that key. |
| Loader.VehicleTable | data.py:36-44 | `vehicles` holds exactly the IDs of the rows. Each holds the last such row's drivetrain, size, cost, yearly range and distance. |
| Loader.VehicleFuelTable | data.py:46-49 | `vehicle_fuels` holds exactly the (ID, fuel) pairs of the rows, mapped to the last row's consumption. |
| Loader.FuelTable | data.py:51-57 | `fuels` holds exactly the fuels of the rows, with the last row's emission factor, cost and uncertainty. |
| Loader.LimitAndProfileTables | data.py:59-69 | `carbon_limits` is keyed by year, and `cost_profiles` by end of year. Each takes the last row's values. |
| Milp.Solver.constructor | solver.py:35 | A new solver has no variables, no constraints and an empty objective. |
| Milp.Solver.IntVar | solver.py:49-59 | Creating a variable adds its key and changes nothing else. |
| Milp.Solver.Add | solver.py:71-75 | `Add` appends the constraint, whose terms must be existing variables, and changes nothing else. |
| Milp.Solver.SetCoefficient | solver.py:182 | `SetCoefficient` replaces the variable's coefficient: `objective[k := c]`. |
| Milp.Solver.SetMinimization | solver.py:219 | Sets the minimisation sense and nothing else. |
| Model.HorizonLookups | solver.py:96-117 | For valid inputs, `data['carbon_limits'][year]` succeeds for every year of the horizon. So does `data['demand'][year]` whenever there is a size bucket, the only case in which the script reads it. |
| Model.CreateCell | solver.py:43-59 | One (year, vehicle) step of the variable loops adds exactly the keys `Creates` names for that cell. |
| Model.CreateVariables | solver.py:42-59 | After the loops, the variables are exactly the keys `Creates` names over the horizon and all vehicle ids. |
| Model.BuySparsity | solver.py:45-49 | `buy[(v, y)]` exists iff `v` is a vehicle, `y` is in the horizon and `y` is the purchase year parsed from `v`. |
| Model.SellEverywhere | solver.py:58-59 | `sell[(v, y)]` exists iff `v` is a vehicle and `y` is in the horizon. |
| Model.UseSparsity | solver.py:51-56 | `use[(v, f, d, y)]` exists iff `f` is a fuel, `(v, f)` is compatible and `y` is in the horizon. This holds for every bucket, regardless of purchase year or capability. |
| Constraints.UseKeysRegistered | solver.py:72-75 | Every `use` key the availability sums read exists. |
| Constraints.RuleTermsRegistered | solver.py:61-94 | Every variable in an availability, sell-ceiling or usage-window constraint exists. The usage window is solver.py:159-172. |
| Constraints.YearTermsRegistered | solver.py:115-157 | Every variable in a carbon or fleet-cap constraint exists. |
| Constraints.VehicleTermsRegistered | solver.py:128-141 | Every variable in a purchase-mandate or lifespan constraint exists. |
| Constraints.DemandTermsRegistered | solver.py:102-113 | Every variable in a demand constraint exists. |
| Constraints.AddRuleAt | solver.py:64-94 | One (vehicle, year) step appends exactly `RuleAt` and leaves the variables and objective alone. The same member, with the usage-window rule, models solver.py:159-172. |
| Constraints.AddRuleRow | solver.py:63-94 | The loop over vehicle ids appends `RuleRow` for that year. The same member, with the usage-window rule, models solver.py:159-172. |
| Constraints.AddVehicleYearRule | solver.py:62-94 | The years × vehicle ids loop appends `RuleGroup`, in loop order. The same member, with the usage-window rule, models solver.py:159-172. |
| Constraints.AddYearRuleAt | solver.py:116-126 | One year's carbon or fleet-cap step appends exactly `YearRuleAt`. The same member, with the fleet sell-cap rule, models solver.py:143-157. |
| Constraints.AddYearRule | solver.py:115-126 | The loop over years appends `YearGroup`, in year order. The same member, with the fleet sell-cap rule, models solver.py:143-157. |
| Constraints.AddVehicleRuleAt | solver.py:129-140 | One vehicle's step appends `VehicleRuleAt`: one constraint or none. |
| Constraints.AddVehicleRuleIf | solver.py:130-140 | The guarded `solver.Add` appends `VehicleRuleAt`. That is `buy >= 1` when the purchase year is in the horizon, or the lifespan constraint when the purchase year plus ten is. |
| Constraints.AddVehicleRule | solver.py:128-141 | The loop over `data['vehicles']` appends `VehicleGroup`. |
| Constraints.AddDemandForSize | solver.py:99-113 | The bucket loop appends one demand constraint for each bucket present in `demand[year]` for the size. |
| Constraints.AddDemandForYear | solver.py:98-113 | The size loop appends `DemandForYear`. |
| Constraints.AddDemand | solver.py:96-113 | The whole demand group appends `DemandGroup`. |
| ConstraintFacts.RuleRowMembers | solver.py:63-94 | A constraint is in a year's row iff it is one of some listed vehicle's constraints for that year. The same member, with the usage-window rule, models solver.py:159-172. |
| ConstraintFacts.RuleGroupMembers | solver.py:62-94 | A constraint is in the group iff it belongs to some year and vehicle of the loops. The same member, with the usage-window rule, models solver.py:159-172. |
| ConstraintFacts.YearGroupMembers | solver.py:116-126 | Exactly one constraint per year: the group has one entry per year, and its members are exactly those years' constraints. The same member, with the fleet sell-cap rule, models solver.py:143-157. |
| ConstraintFacts.VehicleGroupMembers | solver.py:129-141 | A constraint is in the group iff it belongs to some vehicle. |
| ConstraintFacts.DemandForSizeMembers | solver.py:99-113 | The size's constraints are exactly those of buckets present in `demand[year]`. |
| ConstraintFacts.DemandForYearMembers | solver.py:98-113 | The year's constraints are exactly those of listed sizes and pairs present in `demand[year]`. |
| ConstraintFacts.DemandGroupMembers | solver.py:97-113 | A demand constraint exists exactly for each horizon year, listed size and pair present in `demand[year]`. |
| ConstraintFacts.AvailableCoefficients | solver.py:65-68 | The availability expression is +1 on the vehicle's purchase in a horizon year up to `year`, and −1 on each of its sales in the horizon before `year`. It is 0 elsewhere. |
| ConstraintFacts.AvailabilityCoefficients | solver.py:70-82 | Two constraints with the same terms, `<= 0` and `== 0`. Each `use` variable of the vehicle and year over compatible fuels has +1, the purchase −1 and earlier sales +1. |
| ConstraintFacts.SellCeilingCoefficients | solver.py:87-94 | One `<= 0` constraint: +1 on `sell(v, year)`, −1 on the purchase, +1 on earlier sales, 0 elsewhere. |
| ConstraintFacts.UsageWindowSense | solver.py:160-172 | The use sum is `== 0` iff `year < p` or `year > p + 9`, and `>= 0` iff `p <= year <= p + 9`. Its terms are the vehicle's compatible `use` variables of the year. |
| ConstraintFacts.CarbonCoefficients | solver.py:116-126 | Sense `<=` with bound `carbon_limits[year]`. Each `use` variable of the year weighs consumption × emission factor × yearly range; nothing else appears. |
| ConstraintFacts.FleetAtStartCoefficients | solver.py:146-152 | The fleet size is +1 on each vehicle's purchase in a horizon year up to `year`, and −1 on each sale in the horizon before `year`. |
| ConstraintFacts.FleetCapCoefficients | solver.py:144-157 | One `<= 0` constraint: +1 on every sale of the year, −0.2 on the fleet's purchases and +0.2 on its earlier sales. |
| ConstraintFacts.PurchaseMandateShape | solver.py:129-132 | There is a constraint iff the purchase year is in the horizon, and it is `buy(v, p) >= 1`. |
| ConstraintFacts.LifespanWindow | solver.py:135-141 | There is a constraint iff `p + 10` is in the horizon. It is `>= 0` with −1 on `buy(v, p)` and +1 on the eleven sales `p .. p + 10`. |
| ConstraintFacts.LifespanTerms | solver.py:138-141 | The lifespan terms are the sales from `p` up to `min(p + 11, end_year)` minus the purchase. |
| ConstraintFacts.DemandCoefficients | solver.py:100-113 | Sense `>=` with the demand value. A `use` variable at bucket `dist` has its yearly range as coefficient iff its vehicle has the size, ranks at least as high and takes the fuel; otherwise 0. |
| ConstraintFacts.UnservableDemand | solver.py:102-112 | With no eligible vehicle the terms are empty, so the constraint reads `0 >= demand`. |
| ConstraintFacts.DemandEntryConstrained | solver.py:96-113 | A demand entry for a horizon year, whose size some vehicle has, has its constraint in the demand group. |
| Costs.Objective | solver.py:175-216 | The final objective has a coefficient on exactly the `buy` and `use` variables. |
| Costs.RegistryPriceable | solver.py:180-193 | For valid inputs every lookup the cost loops make succeeds. |
| Costs.PurchaseCell | solver.py:180-182 | One purchase step writes the purchase cost on `buy(v, year)` when that variable exists, and nothing otherwise. |
| Costs.UseCell | solver.py:188-194 | One bucket step writes on `use(v, f, d, year)` exactly when that variable exists and the loop charges it. |
| Costs.NoProfileNoUpkeep | solver.py:197 | A year without a cost profile gets no upkeep coefficients. |
| Costs.IncompatibleUnused | solver.py:209-213 | An incompatible (vehicle, fuel) pair has no `use` variables, so nothing is written. |
| Costs.ChargedEverywhere | solver.py:178-216 | Over the whole horizon, each loop writes its charge on exactly the variables it charges. |
| Costs.SetPurchaseCosts | solver.py:178-182 | The purchase loops overwrite the objective with `Written(Purchases)`. |
| Costs.SetFuelCostsOf | solver.py:188-194 | The bucket loop writes consumption × fuel cost × yearly range on each existing `use` variable of the (vehicle, fuel, year). |
| Costs.SetFuelCostsAt | solver.py:187-194 | The fuel loop for one vehicle and year writes its fuel costs. |
| Costs.SetFuelCostsIn | solver.py:186-194 | The vehicle loop for one year writes its fuel costs. |
| Costs.SetFuelCosts | solver.py:185-194 | The fuel-cost loops overwrite the objective with `Written(FuelCosts)`. |
| Costs.SetUpkeepCostsOf | solver.py:211-215 | The bucket loop writes the upkeep on each existing `use` variable of the (vehicle, fuel, year). |
| Costs.SetUpkeepCostsAt | solver.py:200-215 | With (maintenance% / 100) × cost + (insurance% / 100) × cost computed once, the fuel loop writes it on the compatible pairs. |
| Costs.SetUpkeepCostsIn | solver.py:199-215 | The vehicle loop of a profiled year writes its upkeep. |
| Costs.SetUpkeepCosts | solver.py:197-215 | The upkeep loops overwrite the objective with `Written(UpkeepCosts)`. |
| Costs.AfterLoopsKeys | solver.py:178-216 | After the three loops, the written variables are exactly the `buy` and `use` variables. |
| Costs.WrittenAt | solver.py:178-216 | A loop's written map holds `k` iff `k` is a variable the loop charges, with that charge. |
| Costs.AfterLoopsValues | solver.py:178-216 | Each written coefficient equals `Objective`'s. |
| Costs.LastWriteWins | solver.py:194-216 | The three loops on an empty objective leave exactly `Objective`: the upkeep replaces the fuel cost rather than adding to it. |
| Costs.UseCoefficient | solver.py:180-216 | `buy` gets the purchase cost and `sell` gets nothing. `use` gets (maintenance% + insurance%) / 100 × purchase cost in a profiled year, and consumption × fuel cost × yearly range otherwise. |
| Extractor.Truncate | solver.py:246 | `int()` truncates toward zero. A non-negative value gives the largest integer not above it; a negative value gives the smallest integer not below it. |
| Extractor.CombinationsCover | solver.py:32 | `all_combinations` pairs every size with all four buckets, four entries per size. |
| Extractor.AppendFuelHits | solver.py:234-249 | The fuel loop appends the reported `use` rows and sets `used_vehicle` iff it appended one. |
| Extractor.AppendBlock | solver.py:228-253 | One combination appends its `Block`: its `use` rows, or one idle row. |
| Extractor.AppendYearBlocks | solver.py:227-253 | The combination loop of a year appends `YearBlocks`. |
| Extractor.AppendYearTrades | solver.py:257-262 | The vehicle loop of a year appends its buy and sell rows. |
| Extractor.AppendUsage | solver.py:226-253 | The usage loops append `UsageRows` over the horizon. |
| Extractor.AppendTrades | solver.py:256-262 | The trade loops append `TradeRows` over the horizon. |
| Extractor.Extract | solver.py:224-262 | The returned list is `Solution`: usage rows, then trade rows. |
| ExtractorFacts.FuelHitsMembers | solver.py:234-249 | A row comes from the fuel loop iff some fuel's `use` variable is reported and the row is built from it. |
| ExtractorFacts.VehicleHitsMembers | solver.py:233-249 | The same over all vehicle ids and fuels. |
| ExtractorFacts.BlockRows | solver.py:228-253 | A combination yields exactly one idle row iff no variable is reported. Its rows are that idle row, or exactly the reported variables' rows. |
| ExtractorFacts.YearBlocksMembers | solver.py:227-253 | A year's rows are exactly the rows of its combinations' blocks. |
| ExtractorFacts.UsageRowsMembers | solver.py:226-253 | The usage rows are exactly the block rows of a horizon year, a listed size and a bucket. |
| ExtractorFacts.YearTradesMembers | solver.py:257-262 | A year's trade rows are exactly the buy and sell rows of listed vehicles with a positive value, with truncated counts. |
| ExtractorFacts.TradeRowsMembers | solver.py:256-262 | The same over the horizon. |
| ExtractorFacts.UseRows | solver.py:235-248 | A `Use` row is in the solution iff its variable exists with a positive value, the vehicle's rank covers the bucket, the count is the truncated value and the last field is the yearly range. |
| ExtractorFacts.IdleRows | solver.py:251-253 | The zero row `[year, '', 0, 'Use', '', dist, 0]` is in the solution iff the year is in the horizon and some listed size has no reported variable at `dist`. |
| ExtractorFacts.UsageKinds | solver.py:226-253 | The usage loops produce only `Use` and zero rows. |
| ExtractorFacts.BuyRows | solver.py:258-259 | A `Buy` row is in the solution iff its variable exists in a horizon year with a positive value, and its count is the truncated value. |
| ExtractorFacts.SellRows | solver.py:261-262 | A `Sell` row is in the solution iff its variable exists in a horizon year with a positive value, and its count is the truncated value. |
| ExtractorFacts.UsageBeforeTrades | solver.py:224-262 | Every row after a `Buy` or `Sell` row is a `Buy` or `Sell` row, so all usage rows come first. |
| Planner.AddConstraints | solver.py:61-172 | The eight constraint groups, in script order, leave exactly `ModelConstraints`. |
| Planner.SetObjective | solver.py:174-219 | The three cost loops and `SetMinimization` leave exactly `Objective`, minimised. |
| Planner.BuildModel | solver.py:35-219 | The built model holds exactly the registered variables, `ModelConstraints` and `Objective`, minimised. |
| Planner.Plan | solver.py:17-262 | The whole script for given input rows. Its model is built from `Prepared(f, years)`, and its solution is `Solution` of the given valuation. |

## Left out

- Reading the CSV files (`load_data`, data.py:4-11) is not modelled; the rows arrive as sequences in file order.
- Writing the solution with pandas, the `float_convert` re-read and the prints (solver.py:264-280) are output only and are not modelled.
- The SCIP solve (solver.py:35, solver.py:222) is not modelled. The solved values are a parameter, and the never-checked `status` is not modelled either.
- Variable bounds `0 .. infinity` and integrality (solver.py:49-59) are not recorded; no contract here speaks about feasibility.
- Floating-point arithmetic is modelled as exact reals, for both the input values and `0.2` and `pct / 100`.
- The iteration orders of `list(set(...))` for `vehicle_ids` and `size_buckets` are not fixed by Python. The model takes them as inputs: distinct sequences that enumerate the right keys.
- `data['fuels']` and `data['vehicles']` are dicts, so Python iterates them in the order each key first occurs in its rows. The model generalises over that order: any distinct sequence of the keys is accepted. These orders decide the order of the `Use` rows within a block, and of the purchase-mandate and lifespan constraints.
- `distance_per_vehicle` (solver.py:229, solver.py:241) is accumulated but never used, so it is not modelled.
- `num_scenarios` (solver.py:29), fuel `uncertainty` and `resale_value` are stored but never read, so they are not modelled.
- Failed lookups are preconditions (`Inputs.Valid`), not modelled errors. These are:
  - `data['demand'][year]` for a horizon year, when at least one size bucket exists (solver.py:97-100);
  - `data['carbon_limits'][year]` (solver.py:117);
  - a lifespan constraint for a vehicle bought before the horizon whose eleventh year falls inside it (solver.py:137-140);
  - an identifier whose last token is not a numeral (solver.py:45).
- The Distance columns of the demand and vehicle files are assumed to hold only the labels D1 to D4 (`Domain.Bucket`). Two behaviours of other labels are not modelled. A vehicle with another distance raises `ValueError` at `distance_buckets.index` (solver.py:108-109, solver.py:239-240). A demand row with another distance is stored by the loader and then silently skipped, because the demand loop only visits D1 to D4 (solver.py:99-100).
- VehicleIds.PurchaseYear: models `int()` on an optionally signed run of ASCII digits only. Surrounding whitespace and other Unicode digits, which Python's `int()` also accepts, are not modelled.
- The variable names passed to `IntVar` (`buy_<id>_<year>`, ...) are not modelled: variables are identified by their keys.
