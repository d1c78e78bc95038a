/** `load_and_prepare_data` (data.py): turns the rows of the six input files into the keyed
    tables of the `data` dictionary. Reading the files themselves is not modelled: the rows
    arrive as sequences, in file order. */
module Loader {
  import opened Util
  import opened Domain

  datatype DemandRow = DemandRow(year: int, size: Size, distance: Bucket, demandKm: real)
  datatype VehicleRow = VehicleRow(
    id: VehicleId, vehicle: string, size: Size, cost: real, yearlyRange: real, distance: Bucket)
  datatype VehicleFuelRow = VehicleFuelRow(id: VehicleId, fuel: FuelId, consumption: real)
  datatype FuelRow = FuelRow(fuel: FuelId, emissions: real, cost: real, costUncertainty: real)
  datatype CarbonRow = CarbonRow(year: int, limit: real)
  datatype CostProfileRow = CostProfileRow(
    endOfYear: int, resaleValue: real, insuranceCost: real, maintenanceCost: real)

  /** What `load_data` returns: the rows of each input file. */
  datatype Frames = Frames(
    carbonEmissions: seq<CarbonRow>,
    costProfiles: seq<CostProfileRow>,
    demand: seq<DemandRow>,
    fuels: seq<FuelRow>,
    vehiclesFuels: seq<VehicleFuelRow>,
    vehicles: seq<VehicleRow>)

  // The key and the stored value of a row, one pair per table.

  function VehicleKey(r: VehicleRow): VehicleId { r.id }
  function VehicleEntry(r: VehicleRow): Vehicle {
    Vehicle(r.vehicle, r.size, r.cost, r.yearlyRange, r.distance)
  }
  function PairKey(r: VehicleFuelRow): (VehicleId, FuelId) { (r.id, r.fuel) }
  function PairConsumption(r: VehicleFuelRow): real { r.consumption }
  function FuelKey(r: FuelRow): FuelId { r.fuel }
  function FuelEntry(r: FuelRow): Fuel { Fuel(r.emissions, r.cost, r.costUncertainty) }
  function CarbonKey(r: CarbonRow): int { r.year }
  function CarbonLimit(r: CarbonRow): real { r.limit }
  function ProfileKey(r: CostProfileRow): int { r.endOfYear }
  function ProfileEntry(r: CostProfileRow): CostProfile {
    CostProfile(r.resaleValue, r.insuranceCost, r.maintenanceCost)
  }
  function DemandKey(r: DemandRow): (int, Size, Bucket) { (r.year, r.size, r.distance) }

  /** The two-level demand table: an inner dictionary is created the first time its year
      appears and then only extended. */
  function DemandTable(rows: seq<DemandRow>): map<int, map<(Size, Bucket), real>>
    decreases |rows|
  {
    if rows == [] then map[]
    else
      var d := DemandTable(rows[..|rows| - 1]);
      var r := rows[|rows| - 1];
      var inner := if r.year in d then d[r.year] else map[];
      d[r.year := inner[(r.size, r.distance) := r.demandKm]]
  }

  /** The `data` dictionary built from the rows: every table is built from its own rows only. */
  function Prepared(f: Frames, years: seq<int>): Tables {
    Tables(
      years,
      DemandTable(f.demand),
      Index(map[], f.vehicles, VehicleKey, VehicleEntry),
      Index(map[], f.vehiclesFuels, PairKey, PairConsumption),
      Index(map[], f.fuels, FuelKey, FuelEntry),
      Index(map[], f.carbonEmissions, CarbonKey, CarbonLimit),
      Index(map[], f.costProfiles, ProfileKey, ProfileEntry))
  }

  /** The demand loop of `load_and_prepare_data`: create a year's inner dictionary on its
      first row, then store the row's demand under its (size, distance) pair. */
  method FillDemand(rows: seq<DemandRow>) returns (table: map<int, map<(Size, Bucket), real>>)
    ensures table == DemandTable(rows)
  {
    table := map[];
    for i := 0 to |rows|
      invariant table == DemandTable(rows[..i])
    {
      var row := rows[i];
      if row.year !in table {
        table := table[row.year := map[]];
      }
      table := table[row.year := table[row.year][(row.size, row.distance) := row.demandKm]];
      assert rows[..i + 1][..i] == rows[..i];
    }
    assert rows[..|rows|] == rows;
  }

  /** One of the five single-key loops of `load_and_prepare_data`: each row stores its entry
      under its key, a later row overwriting an earlier one with the same key. */
  method FillTable<R, K, V>(rows: seq<R>, key: R -> K, val: R -> V) returns (table: map<K, V>)
    ensures table == Index(map[], rows, key, val)
  {
    table := map[];
    for i := 0 to |rows|
      invariant table == Index(map[], rows[..i], key, val)
    {
      var row := rows[i];
      table := table[key(row) := val(row)];
      assert rows[..i + 1] == rows[..i] + [row];
      IndexAppend(map[], rows[..i], row, key, val);
    }
    assert rows[..|rows|] == rows;
  }

  /** `load_and_prepare_data`: six loops, each filling one table of `data`. */
  method LoadAndPrepare(f: Frames, years: seq<int>) returns (data: Tables)
    ensures data == Prepared(f, years)
  {
    data := Tables(years, map[], map[], map[], map[], map[], map[]);
    var demand := FillDemand(f.demand);
    data := data.(demand := demand);
    var vehicles := FillTable(f.vehicles, VehicleKey, VehicleEntry);
    data := data.(vehicles := vehicles);
    var vehicleFuels := FillTable(f.vehiclesFuels, PairKey, PairConsumption);
    data := data.(vehicleFuels := vehicleFuels);
    var fuels := FillTable(f.fuels, FuelKey, FuelEntry);
    data := data.(fuels := fuels);
    var carbonLimits := FillTable(f.carbonEmissions, CarbonKey, CarbonLimit);
    data := data.(carbonLimits := carbonLimits);
    var costProfiles := FillTable(f.costProfiles, ProfileKey, ProfileEntry);
    data := data.(costProfiles := costProfiles);
  }

  /** The outer keys of the demand table are exactly the years of the demand rows. */
  lemma {:induction false} DemandYears(rows: seq<DemandRow>, y: int)
    ensures y in DemandTable(rows) <==> exists i :: 0 <= i < |rows| && rows[i].year == y
    decreases |rows|
  {
    if rows != [] {
      var init := rows[..|rows| - 1];
      DemandYears(init, y);
      if exists i :: 0 <= i < |init| && init[i].year == y {
        var i :| 0 <= i < |init| && init[i].year == y;
        assert rows[i].year == y;
      }
      if exists i :: 0 <= i < |rows| && rows[i].year == y {
        var i :| 0 <= i < |rows| && rows[i].year == y;
        if i < |init| {
          assert init[i].year == y;
        }
      }
    }
  }

  /** The inner keys of a year are exactly the (size, distance) pairs of that year's rows:
      a later row of the same year never resets the inner dictionary. */
  lemma {:induction false} DemandEntries(rows: seq<DemandRow>, y: int, s: Size, d: Bucket)
    requires y in DemandTable(rows)
    ensures (s, d) in DemandTable(rows)[y] <==>
      exists i :: 0 <= i < |rows| && DemandKey(rows[i]) == (y, s, d)
    decreases |rows|
  {
    var init := rows[..|rows| - 1];
    var r := rows[|rows| - 1];
    if y in DemandTable(init) {
      DemandEntries(init, y, s, d);
    } else {
      DemandYears(init, y);
    }
    if exists i :: 0 <= i < |init| && DemandKey(init[i]) == (y, s, d) {
      var i :| 0 <= i < |init| && DemandKey(init[i]) == (y, s, d);
      assert DemandKey(rows[i]) == (y, s, d);
      DemandYears(init, y);
    }
    if exists i :: 0 <= i < |rows| && DemandKey(rows[i]) == (y, s, d) {
      var i :| 0 <= i < |rows| && DemandKey(rows[i]) == (y, s, d);
      if i < |init| {
        assert DemandKey(init[i]) == (y, s, d);
        DemandYears(init, y);
      }
    }
  }

  /** `demand[Year][(Size, Distance)]` is the `Demand (km)` of the last row carrying that key. */
  lemma {:induction false} DemandLastRowWins(rows: seq<DemandRow>, i: int)
    requires 0 <= i < |rows| && LastWithKey(rows, DemandKey, i)
    ensures rows[i].year in DemandTable(rows)
    ensures (rows[i].size, rows[i].distance) in DemandTable(rows)[rows[i].year]
    ensures DemandTable(rows)[rows[i].year][(rows[i].size, rows[i].distance)] == rows[i].demandKm
    decreases |rows|
  {
    if i < |rows| - 1 {
      var init := rows[..|rows| - 1];
      assert DemandKey(rows[|rows| - 1]) != DemandKey(rows[i]);
      assert LastWithKey(init, DemandKey, i) by {
        forall j | i < j < |init| ensures DemandKey(init[j]) != DemandKey(init[i]) {
          assert init[j] == rows[j];
        }
      }
      DemandLastRowWins(init, i);
    }
  }

  /** `vehicles[ID]` holds the fields of the last row with that ID, under the names the builder
      reads, and there is an entry for every ID and no other. */
  lemma VehicleTable(rows: seq<VehicleRow>, id: VehicleId)
    ensures id in Index(map[], rows, VehicleKey, VehicleEntry) <==>
      exists i :: 0 <= i < |rows| && rows[i].id == id
    ensures forall i :: 0 <= i < |rows| && rows[i].id == id && LastWithKey(rows, VehicleKey, i) ==>
      Index(map[], rows, VehicleKey, VehicleEntry)[id] ==
        Vehicle(rows[i].vehicle, rows[i].size, rows[i].cost, rows[i].yearlyRange, rows[i].distance)
  {
    IndexKeys(map[], rows, VehicleKey, VehicleEntry, id);
    forall i | 0 <= i < |rows| && rows[i].id == id && LastWithKey(rows, VehicleKey, i)
      ensures Index(map[], rows, VehicleKey, VehicleEntry)[id] == VehicleEntry(rows[i])
    {
      IndexLast(map[], rows, VehicleKey, VehicleEntry, i);
    }
  }

  /** `vehicle_fuels` is keyed by exactly the (ID, Fuel) pairs of its rows, and holds the
      consumption of the last row with that pair. */
  lemma VehicleFuelTable(rows: seq<VehicleFuelRow>, id: VehicleId, fuel: FuelId)
    ensures (id, fuel) in Index(map[], rows, PairKey, PairConsumption) <==>
      exists i :: 0 <= i < |rows| && rows[i].id == id && rows[i].fuel == fuel
    ensures forall i :: 0 <= i < |rows| && PairKey(rows[i]) == (id, fuel) && LastWithKey(rows, PairKey, i) ==>
      Index(map[], rows, PairKey, PairConsumption)[(id, fuel)] == rows[i].consumption
  {
    IndexKeys(map[], rows, PairKey, PairConsumption, (id, fuel));
    forall i | 0 <= i < |rows| && PairKey(rows[i]) == (id, fuel) && LastWithKey(rows, PairKey, i)
      ensures Index(map[], rows, PairKey, PairConsumption)[(id, fuel)] == rows[i].consumption
    {
      IndexLast(map[], rows, PairKey, PairConsumption, i);
    }
  }

  /** `fuels[Fuel]` carries the emission factor, the cost and the uncertainty of the last row
      for that fuel. */
  lemma FuelTable(rows: seq<FuelRow>, fuel: FuelId)
    ensures fuel in Index(map[], rows, FuelKey, FuelEntry) <==>
      exists i :: 0 <= i < |rows| && rows[i].fuel == fuel
    ensures forall i :: 0 <= i < |rows| && rows[i].fuel == fuel && LastWithKey(rows, FuelKey, i) ==>
      Index(map[], rows, FuelKey, FuelEntry)[fuel] ==
        Fuel(rows[i].emissions, rows[i].cost, rows[i].costUncertainty)
  {
    IndexKeys(map[], rows, FuelKey, FuelEntry, fuel);
    forall i | 0 <= i < |rows| && rows[i].fuel == fuel && LastWithKey(rows, FuelKey, i)
      ensures Index(map[], rows, FuelKey, FuelEntry)[fuel] == FuelEntry(rows[i])
    {
      IndexLast(map[], rows, FuelKey, FuelEntry, i);
    }
  }

  /** `carbon_limits` is keyed by `Year`, `cost_profiles` by `End of Year`, each holding the
      last row for that year. */
  lemma LimitAndProfileTables(carbon: seq<CarbonRow>, profiles: seq<CostProfileRow>, y: int)
    ensures y in Index(map[], carbon, CarbonKey, CarbonLimit) <==>
      exists i :: 0 <= i < |carbon| && carbon[i].year == y
    ensures forall i :: 0 <= i < |carbon| && carbon[i].year == y && LastWithKey(carbon, CarbonKey, i) ==>
      Index(map[], carbon, CarbonKey, CarbonLimit)[y] == carbon[i].limit
    ensures y in Index(map[], profiles, ProfileKey, ProfileEntry) <==>
      exists i :: 0 <= i < |profiles| && profiles[i].endOfYear == y
    ensures forall i :: 0 <= i < |profiles| && profiles[i].endOfYear == y && LastWithKey(profiles, ProfileKey, i) ==>
      Index(map[], profiles, ProfileKey, ProfileEntry)[y] ==
        CostProfile(profiles[i].resaleValue, profiles[i].insuranceCost, profiles[i].maintenanceCost)
  {
    IndexKeys(map[], carbon, CarbonKey, CarbonLimit, y);
    IndexKeys(map[], profiles, ProfileKey, ProfileEntry, y);
    forall i | 0 <= i < |carbon| && carbon[i].year == y && LastWithKey(carbon, CarbonKey, i)
      ensures Index(map[], carbon, CarbonKey, CarbonLimit)[y] == carbon[i].limit
    {
      IndexLast(map[], carbon, CarbonKey, CarbonLimit, i);
    }
    forall i | 0 <= i < |profiles| && profiles[i].endOfYear == y && LastWithKey(profiles, ProfileKey, i)
      ensures Index(map[], profiles, ProfileKey, ProfileEntry)[y] == ProfileEntry(profiles[i])
    {
      IndexLast(map[], profiles, ProfileKey, ProfileEntry, i);
    }
  }
}
