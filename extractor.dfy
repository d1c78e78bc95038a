/** The solution rows solver.py builds from the solved variable values: one block of `Use`
    rows (or one idle row) per year and (size, distance) combination, then the `Buy` and
    `Sell` rows. */
module Extractor {
  import opened Util
  import opened Domain
  import opened Milp
  import opened Model

  /** A row of `solution`: `[Year, ID, Num_Vehicles, Type, Fuel, Distance_bucket,
      Distance_per_vehicle(km)]`. */
  datatype Row =
    | UseRow(year: int, id: VehicleId, count: int, fuel: FuelId, bucket: Bucket, yearlyRange: real)
      /** `[year, '', 0, 'Use', '', distance_bucket, 0]` */
    | IdleRow(year: int, bucket: Bucket)
    | BuyRow(year: int, id: VehicleId, count: int)
    | SellRow(year: int, id: VehicleId, count: int)

  /** Python's `int()` on a number: truncation toward zero. */
  function Truncate(x: real): (n: int)
    ensures x >= 0.0 ==> 0 <= n && n as real <= x < n as real + 1.0
    ensures x < 0.0 ==> n <= 0 && n as real - 1.0 < x <= n as real
  {
    if x >= 0.0 then x.Floor else -((-x).Floor)
  }

  /** `var.solution_value()`; the solver reports a value for every variable it has. */
  function Solved(value: map<VarKey, real>, k: VarKey): real {
    if k in value then value[k] else 0.0
  }

  /** `all_combinations = [(size, distance) for size in size_buckets for distance in distance_buckets]` */
  function AllCombinations(sizes: seq<Size>): seq<(Size, Bucket)>
    decreases |sizes|
  {
    if sizes == [] then []
    else
      var s := sizes[|sizes| - 1];
      AllCombinations(sizes[..|sizes| - 1]) + [(s, D1), (s, D2), (s, D3), (s, D4)]
  }

  /** Every size is paired with every bucket, four combinations per size. */
  lemma {:induction false} CombinationsCover(sizes: seq<Size>)
    ensures |AllCombinations(sizes)| == 4 * |sizes|
    ensures forall s, d :: (s, d) in AllCombinations(sizes) <==> s in sizes
    decreases |sizes|
  {
    if sizes != [] {
      var n := |sizes| - 1;
      var s := sizes[n];
      CombinationsCover(sizes[..n]);
      assert sizes == sizes[..n] + [s];
      forall t, d ensures (t, d) in AllCombinations(sizes) <==> t in sizes {
        var last := [(s, D1), (s, D2), (s, D3), (s, D4)];
        assert AllCombinations(sizes) == AllCombinations(sizes[..n]) + last;
        assert (t, d) in last <==> t == s by {
          if t == s {
            match d
            case D1 => assert last[0] == (t, d);
            case D2 => assert last[1] == (t, d);
            case D3 => assert last[2] == (t, d);
            case D4 => assert last[3] == (t, d);
          }
        }
      }
    }
  }

  // ---------------------------------------------------------------------------------------
  // The usage rows

  /** A `use` variable that is reported for the combination (size, dist): it exists, its
      value is positive, its vehicle has the size and ranks at least as high as `dist`. */
  predicate Reported(inp: Inputs, vars: set<VarKey>, value: map<VarKey, real>,
                     year: int, size: Size, dist: Bucket, v: VehicleId, f: FuelId)
    requires v in inp.data.vehicles
  {
    var k := Use(v, f, dist, year);
    && k in vars && Solved(value, k) > 0.0
    && inp.data.vehicles[v].sizeBucket == size
    && Rank(inp.data.vehicles[v].distanceBucket) >= Rank(dist)
  }

  function UseRowOf(inp: Inputs, value: map<VarKey, real>, year: int, dist: Bucket, v: VehicleId, f: FuelId): Row
    requires v in inp.data.vehicles
  {
    UseRow(year, v, Truncate(Solved(value, Use(v, f, dist, year))), f, dist, inp.data.vehicles[v].yearlyRange)
  }

  /** The inner loop `for fuel_type in data['fuels']` for one vehicle. */
  function FuelHits(inp: Inputs, vars: set<VarKey>, value: map<VarKey, real>,
                    year: int, size: Size, dist: Bucket, v: VehicleId, fs: seq<FuelId>): seq<Row>
    requires v in inp.data.vehicles
    decreases |fs|
  {
    if fs == [] then []
    else
      var f := fs[|fs| - 1];
      FuelHits(inp, vars, value, year, size, dist, v, fs[..|fs| - 1])
        + if Reported(inp, vars, value, year, size, dist, v, f) then [UseRowOf(inp, value, year, dist, v, f)] else []
  }

  /** The loop `for vehicle_id in vehicle_ids` for one combination. */
  function VehicleHits(inp: Inputs, vars: set<VarKey>, value: map<VarKey, real>,
                       year: int, size: Size, dist: Bucket, vs: seq<VehicleId>): seq<Row>
    requires forall v :: v in vs ==> v in inp.data.vehicles
    decreases |vs|
  {
    if vs == [] then []
    else
      VehicleHits(inp, vars, value, year, size, dist, vs[..|vs| - 1])
        + FuelHits(inp, vars, value, year, size, dist, vs[|vs| - 1], inp.fuelOrder)
  }

  /** The rows of one (year, size, distance) combination: its reported `use` variables, or
      one idle row when there is none. */
  function Block(inp: Inputs, vars: set<VarKey>, value: map<VarKey, real>, year: int, size: Size, dist: Bucket): seq<Row>
    requires forall v :: v in inp.vehicleIds ==> v in inp.data.vehicles
  {
    var hits := VehicleHits(inp, vars, value, year, size, dist, inp.vehicleIds);
    if hits == [] then [IdleRow(year, dist)] else hits
  }

  function YearBlocks(inp: Inputs, vars: set<VarKey>, value: map<VarKey, real>, year: int, combos: seq<(Size, Bucket)>): seq<Row>
    requires forall v :: v in inp.vehicleIds ==> v in inp.data.vehicles
    decreases |combos|
  {
    if combos == [] then []
    else
      var c := combos[|combos| - 1];
      YearBlocks(inp, vars, value, year, combos[..|combos| - 1]) + Block(inp, vars, value, year, c.0, c.1)
  }

  function UsageRows(inp: Inputs, vars: set<VarKey>, value: map<VarKey, real>, ys: seq<int>): seq<Row>
    requires forall v :: v in inp.vehicleIds ==> v in inp.data.vehicles
    decreases |ys|
  {
    if ys == [] then []
    else
      UsageRows(inp, vars, value, ys[..|ys| - 1])
        + YearBlocks(inp, vars, value, ys[|ys| - 1], AllCombinations(inp.sizeBuckets))
  }

  // ---------------------------------------------------------------------------------------
  // The buy and sell rows

  function TradesOf(vars: set<VarKey>, value: map<VarKey, real>, year: int, v: VehicleId): seq<Row> {
    var bought := Buy(v, year);
    var sold := Sell(v, year);
    (if bought in vars && Solved(value, bought) > 0.0 then [BuyRow(year, v, Truncate(Solved(value, bought)))] else [])
      + (if sold in vars && Solved(value, sold) > 0.0 then [SellRow(year, v, Truncate(Solved(value, sold)))] else [])
  }

  function YearTrades(vars: set<VarKey>, value: map<VarKey, real>, year: int, vs: seq<VehicleId>): seq<Row>
    decreases |vs|
  {
    if vs == [] then []
    else YearTrades(vars, value, year, vs[..|vs| - 1]) + TradesOf(vars, value, year, vs[|vs| - 1])
  }

  function TradeRows(vars: set<VarKey>, value: map<VarKey, real>, ys: seq<int>, vs: seq<VehicleId>): seq<Row>
    decreases |ys|
  {
    if ys == [] then []
    else TradeRows(vars, value, ys[..|ys| - 1], vs) + YearTrades(vars, value, ys[|ys| - 1], vs)
  }

  /** The whole `solution` list. */
  function Solution(inp: Inputs, vars: set<VarKey>, value: map<VarKey, real>): seq<Row>
    requires forall v :: v in inp.vehicleIds ==> v in inp.data.vehicles
  {
    UsageRows(inp, vars, value, inp.Years()) + TradeRows(vars, value, inp.Years(), inp.vehicleIds)
  }

  lemma VehicleHitsStep(inp: Inputs, vars: set<VarKey>, value: map<VarKey, real>,
                        year: int, size: Size, dist: Bucket, vs: seq<VehicleId>, j: int)
    requires forall v :: v in vs ==> v in inp.data.vehicles
    requires 0 <= j < |vs|
    ensures VehicleHits(inp, vars, value, year, size, dist, vs[..j + 1])
         == VehicleHits(inp, vars, value, year, size, dist, vs[..j]) + FuelHits(inp, vars, value, year, size, dist, vs[j], inp.fuelOrder)
  {
    assert vs[..j + 1][..j] == vs[..j];
  }

  lemma YearBlocksStep(inp: Inputs, vars: set<VarKey>, value: map<VarKey, real>, year: int,
                       combos: seq<(Size, Bucket)>, c: int)
    requires forall v :: v in inp.vehicleIds ==> v in inp.data.vehicles
    requires 0 <= c < |combos|
    ensures YearBlocks(inp, vars, value, year, combos[..c + 1])
         == YearBlocks(inp, vars, value, year, combos[..c]) + Block(inp, vars, value, year, combos[c].0, combos[c].1)
  {
    assert combos[..c + 1][..c] == combos[..c];
  }

  lemma UsageRowsStep(inp: Inputs, vars: set<VarKey>, value: map<VarKey, real>, ys: seq<int>, i: int)
    requires forall v :: v in inp.vehicleIds ==> v in inp.data.vehicles
    requires 0 <= i < |ys|
    ensures UsageRows(inp, vars, value, ys[..i + 1])
         == UsageRows(inp, vars, value, ys[..i]) + YearBlocks(inp, vars, value, ys[i], AllCombinations(inp.sizeBuckets))
  {
    assert ys[..i + 1][..i] == ys[..i];
  }

  lemma TradeRowsStep(vars: set<VarKey>, value: map<VarKey, real>, ys: seq<int>, vs: seq<VehicleId>, i: int)
    requires 0 <= i < |ys|
    ensures TradeRows(vars, value, ys[..i + 1], vs) == TradeRows(vars, value, ys[..i], vs) + YearTrades(vars, value, ys[i], vs)
  {
    assert ys[..i + 1][..i] == ys[..i];
  }

  // ---------------------------------------------------------------------------------------
  // The loops

  /** `for fuel_type in data['fuels']: ...` for one vehicle and one combination; `used` is
      `used_vehicle` before and after. */
  method AppendFuelHits(inp: Inputs, vars: set<VarKey>, value: map<VarKey, real>,
                        year: int, size: Size, dist: Bucket, v: VehicleId, solution: seq<Row>, used: bool)
    returns (out: seq<Row>, usedAfter: bool)
    requires v in inp.data.vehicles
    ensures out == solution + FuelHits(inp, vars, value, year, size, dist, v, inp.fuelOrder)
    ensures usedAfter <==> used || FuelHits(inp, vars, value, year, size, dist, v, inp.fuelOrder) != []
  {
    var fuels := inp.fuelOrder;
    out, usedAfter := solution, used;
    for a := 0 to |fuels|
      invariant out == solution + FuelHits(inp, vars, value, year, size, dist, v, fuels[..a])
      invariant usedAfter <==> used || FuelHits(inp, vars, value, year, size, dist, v, fuels[..a]) != []
    {
      ghost var done := FuelHits(inp, vars, value, year, size, dist, v, fuels[..a]);
      var f := fuels[a];
      var k := Use(v, f, dist, year);
      if k in vars && Solved(value, k) > 0.0 {
        var vehicle := inp.data.vehicles[v];
        if vehicle.sizeBucket == size && Rank(vehicle.distanceBucket) >= Rank(dist) {
          var row := UseRow(year, v, Truncate(Solved(value, k)), f, dist, vehicle.yearlyRange);
          out := out + [row];
          AppendAssoc(solution, done, [row]);
          usedAfter := true;
        }
      }
      assert fuels[..a + 1][..a] == fuels[..a];
    }
    assert fuels[..|fuels|] == fuels;
  }

  /** `for vehicle_id in vehicle_ids: ...` for one combination, then the idle row if
      `used_vehicle` stayed false. */
  method AppendBlock(inp: Inputs, vars: set<VarKey>, value: map<VarKey, real>,
                     year: int, size: Size, dist: Bucket, solution: seq<Row>) returns (out: seq<Row>)
    requires forall v :: v in inp.vehicleIds ==> v in inp.data.vehicles
    ensures out == solution + Block(inp, vars, value, year, size, dist)
  {
    var ids := inp.vehicleIds;
    out := solution;
    var usedVehicle := false;
    for j := 0 to |ids|
      invariant out == solution + VehicleHits(inp, vars, value, year, size, dist, ids[..j])
      invariant usedVehicle <==> VehicleHits(inp, vars, value, year, size, dist, ids[..j]) != []
    {
      ghost var done := VehicleHits(inp, vars, value, year, size, dist, ids[..j]);
      out, usedVehicle := AppendFuelHits(inp, vars, value, year, size, dist, ids[j], out, usedVehicle);
      AppendAssoc(solution, done, FuelHits(inp, vars, value, year, size, dist, ids[j], inp.fuelOrder));
      VehicleHitsStep(inp, vars, value, year, size, dist, ids, j);
    }
    assert ids[..|ids|] == ids;
    if !usedVehicle {
      out := out + [IdleRow(year, dist)];
      AppendAssoc(solution, [], [IdleRow(year, dist)]);
    }
  }

  /** `for size_bucket, distance_bucket in all_combinations: ...` for one year. */
  method AppendYearBlocks(inp: Inputs, vars: set<VarKey>, value: map<VarKey, real>,
                          year: int, combos: seq<(Size, Bucket)>, solution: seq<Row>) returns (out: seq<Row>)
    requires forall v :: v in inp.vehicleIds ==> v in inp.data.vehicles
    ensures out == solution + YearBlocks(inp, vars, value, year, combos)
  {
    out := solution;
    for c := 0 to |combos|
      invariant out == solution + YearBlocks(inp, vars, value, year, combos[..c])
    {
      ghost var done := YearBlocks(inp, vars, value, year, combos[..c]);
      out := AppendBlock(inp, vars, value, year, combos[c].0, combos[c].1, out);
      AppendAssoc(solution, done, Block(inp, vars, value, year, combos[c].0, combos[c].1));
      YearBlocksStep(inp, vars, value, year, combos, c);
    }
    assert combos[..|combos|] == combos;
  }

  /** `for vehicle_id in vehicle_ids:` the buy row, then the sell row, of one year. */
  method AppendYearTrades(vars: set<VarKey>, value: map<VarKey, real>, year: int, ids: seq<VehicleId>,
                          solution: seq<Row>) returns (out: seq<Row>)
    ensures out == solution + YearTrades(vars, value, year, ids)
  {
    out := solution;
    for j := 0 to |ids|
      invariant out == solution + YearTrades(vars, value, year, ids[..j])
    {
      ghost var done := YearTrades(vars, value, year, ids[..j]);
      var v := ids[j];
      if Buy(v, year) in vars && Solved(value, Buy(v, year)) > 0.0 {
        var row := BuyRow(year, v, Truncate(Solved(value, Buy(v, year))));
        out := out + [row];
        AppendAssoc(solution, done, [row]);
        done := done + [row];
      }
      if Sell(v, year) in vars && Solved(value, Sell(v, year)) > 0.0 {
        var row := SellRow(year, v, Truncate(Solved(value, Sell(v, year))));
        out := out + [row];
        AppendAssoc(solution, done, [row]);
      }
      assert ids[..j + 1][..j] == ids[..j];
    }
    assert ids[..|ids|] == ids;
  }

  /** `for year in years: for size_bucket, distance_bucket in all_combinations: ...` */
  method AppendUsage(inp: Inputs, vars: set<VarKey>, value: map<VarKey, real>, solution: seq<Row>) returns (out: seq<Row>)
    requires forall v :: v in inp.vehicleIds ==> v in inp.data.vehicles
    ensures out == solution + UsageRows(inp, vars, value, inp.Years())
  {
    var years := inp.Years();
    var combos := AllCombinations(inp.sizeBuckets);
    out := solution;
    for i := 0 to |years|
      invariant out == solution + UsageRows(inp, vars, value, years[..i])
    {
      ghost var done := UsageRows(inp, vars, value, years[..i]);
      out := AppendYearBlocks(inp, vars, value, years[i], combos, out);
      AppendAssoc(solution, done, YearBlocks(inp, vars, value, years[i], combos));
      UsageRowsStep(inp, vars, value, years, i);
    }
    assert years[..|years|] == years;
  }

  /** `for year in years: for vehicle_id in vehicle_ids: ...` for the buy and sell rows. */
  method AppendTrades(inp: Inputs, vars: set<VarKey>, value: map<VarKey, real>, solution: seq<Row>) returns (out: seq<Row>)
    ensures out == solution + TradeRows(vars, value, inp.Years(), inp.vehicleIds)
  {
    var years, ids := inp.Years(), inp.vehicleIds;
    out := solution;
    for i := 0 to |years|
      invariant out == solution + TradeRows(vars, value, years[..i], ids)
    {
      ghost var done := TradeRows(vars, value, years[..i], ids);
      out := AppendYearTrades(vars, value, years[i], ids, out);
      AppendAssoc(solution, done, YearTrades(vars, value, years[i], ids));
      TradeRowsStep(vars, value, years, ids, i);
    }
    assert years[..|years|] == years;
  }

  /** The extraction: the usage blocks of every year, then the trades of every year. */
  method Extract(inp: Inputs, vars: set<VarKey>, value: map<VarKey, real>) returns (solution: seq<Row>)
    requires forall v :: v in inp.vehicleIds ==> v in inp.data.vehicles
    ensures solution == Solution(inp, vars, value)
  {
    solution := AppendUsage(inp, vars, value, []);
    solution := AppendTrades(inp, vars, value, solution);
  }
}
