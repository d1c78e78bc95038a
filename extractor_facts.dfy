/** What the extracted solution says about the solved values. */
module ExtractorFacts {
  import opened Util
  import opened Domain
  import opened Milp
  import opened Model
  import opened Extractor

  // ---------------------------------------------------------------------------------------
  // Which rows each loop level produces

  lemma {:induction false} FuelHitsMembers(inp: Inputs, vars: set<VarKey>, value: map<VarKey, real>,
                                           year: int, size: Size, dist: Bucket, v: VehicleId, fs: seq<FuelId>, r: Row)
    requires v in inp.data.vehicles
    ensures r in FuelHits(inp, vars, value, year, size, dist, v, fs) <==>
      exists f :: f in fs && Reported(inp, vars, value, year, size, dist, v, f) && r == UseRowOf(inp, value, year, dist, v, f)
    decreases |fs|
  {
    if fs != [] {
      var n := |fs| - 1;
      assert fs == fs[..n] + [fs[n]];
      FuelHitsMembers(inp, vars, value, year, size, dist, v, fs[..n], r);
    }
  }

  lemma {:induction false} VehicleHitsMembers(inp: Inputs, vars: set<VarKey>, value: map<VarKey, real>,
                                              year: int, size: Size, dist: Bucket, vs: seq<VehicleId>, r: Row)
    requires forall v :: v in vs ==> v in inp.data.vehicles
    ensures r in VehicleHits(inp, vars, value, year, size, dist, vs) <==>
      exists v, f :: && v in vs && f in inp.fuelOrder
                     && Reported(inp, vars, value, year, size, dist, v, f) && r == UseRowOf(inp, value, year, dist, v, f)
    decreases |vs|
  {
    if vs != [] {
      var n := |vs| - 1;
      assert vs == vs[..n] + [vs[n]];
      VehicleHitsMembers(inp, vars, value, year, size, dist, vs[..n], r);
      FuelHitsMembers(inp, vars, value, year, size, dist, vs[n], inp.fuelOrder, r);
    }
  }

  /** One combination yields its reported `use` variables as `Use` rows, or, when there is
      none, exactly one idle row. */
  lemma BlockRows(inp: Inputs, vars: set<VarKey>, value: map<VarKey, real>, year: int, size: Size, dist: Bucket, r: Row)
    requires forall v :: v in inp.vehicleIds ==> v in inp.data.vehicles
    ensures Block(inp, vars, value, year, size, dist) == [IdleRow(year, dist)] <==>
      !exists v, f :: v in inp.vehicleIds && f in inp.fuelOrder && Reported(inp, vars, value, year, size, dist, v, f)
    ensures r in Block(inp, vars, value, year, size, dist) <==>
      || (r == IdleRow(year, dist)
          && !exists v, f :: v in inp.vehicleIds && f in inp.fuelOrder && Reported(inp, vars, value, year, size, dist, v, f))
      || (exists v, f :: && v in inp.vehicleIds && f in inp.fuelOrder
                          && Reported(inp, vars, value, year, size, dist, v, f) && r == UseRowOf(inp, value, year, dist, v, f))
  {
    var hits := VehicleHits(inp, vars, value, year, size, dist, inp.vehicleIds);
    VehicleHitsMembers(inp, vars, value, year, size, dist, inp.vehicleIds, r);
    if hits != [] {
      VehicleHitsMembers(inp, vars, value, year, size, dist, inp.vehicleIds, hits[0]);
    } else {
      forall v, f | v in inp.vehicleIds && f in inp.fuelOrder && Reported(inp, vars, value, year, size, dist, v, f)
        ensures false
      {
        VehicleHitsMembers(inp, vars, value, year, size, dist, inp.vehicleIds, UseRowOf(inp, value, year, dist, v, f));
      }
    }
  }

  lemma {:induction false} YearBlocksMembers(inp: Inputs, vars: set<VarKey>, value: map<VarKey, real>,
                                             year: int, combos: seq<(Size, Bucket)>, r: Row)
    requires forall v :: v in inp.vehicleIds ==> v in inp.data.vehicles
    ensures r in YearBlocks(inp, vars, value, year, combos) <==>
      exists s, d :: (s, d) in combos && r in Block(inp, vars, value, year, s, d)
    decreases |combos|
  {
    if combos != [] {
      var n := |combos| - 1;
      assert combos == combos[..n] + [combos[n]];
      YearBlocksMembers(inp, vars, value, year, combos[..n], r);
    }
  }

  lemma {:induction false} UsageRowsMembers(inp: Inputs, vars: set<VarKey>, value: map<VarKey, real>, ys: seq<int>, r: Row)
    requires forall v :: v in inp.vehicleIds ==> v in inp.data.vehicles
    ensures r in UsageRows(inp, vars, value, ys) <==>
      exists y, s, d :: y in ys && s in inp.sizeBuckets && r in Block(inp, vars, value, y, s, d)
    decreases |ys|
  {
    CombinationsCover(inp.sizeBuckets);
    if ys != [] {
      var n := |ys| - 1;
      assert ys == ys[..n] + [ys[n]];
      UsageRowsMembers(inp, vars, value, ys[..n], r);
      YearBlocksMembers(inp, vars, value, ys[n], AllCombinations(inp.sizeBuckets), r);
    }
  }

  lemma {:induction false} YearTradesMembers(vars: set<VarKey>, value: map<VarKey, real>, year: int, vs: seq<VehicleId>, r: Row)
    ensures r in YearTrades(vars, value, year, vs) <==>
      || (r.BuyRow? && r.year == year && r.id in vs && Buy(r.id, year) in vars && Solved(value, Buy(r.id, year)) > 0.0
          && r.count == Truncate(Solved(value, Buy(r.id, year))))
      || (r.SellRow? && r.year == year && r.id in vs && Sell(r.id, year) in vars && Solved(value, Sell(r.id, year)) > 0.0
          && r.count == Truncate(Solved(value, Sell(r.id, year))))
    decreases |vs|
  {
    if vs != [] {
      var n := |vs| - 1;
      assert vs == vs[..n] + [vs[n]];
      YearTradesMembers(vars, value, year, vs[..n], r);
    }
  }

  /** The trade rows are exactly one `Buy` row per existing `buy` variable with a positive
      value and one `Sell` row per existing `sell` variable with a positive value, each with
      the truncated value as its count. */
  lemma {:induction false} TradeRowsMembers(vars: set<VarKey>, value: map<VarKey, real>, ys: seq<int>, vs: seq<VehicleId>, r: Row)
    ensures r in TradeRows(vars, value, ys, vs) <==>
      || (r.BuyRow? && r.year in ys && r.id in vs && Buy(r.id, r.year) in vars && Solved(value, Buy(r.id, r.year)) > 0.0
          && r.count == Truncate(Solved(value, Buy(r.id, r.year))))
      || (r.SellRow? && r.year in ys && r.id in vs && Sell(r.id, r.year) in vars && Solved(value, Sell(r.id, r.year)) > 0.0
          && r.count == Truncate(Solved(value, Sell(r.id, r.year))))
    decreases |ys|
  {
    if ys != [] {
      var n := |ys| - 1;
      assert ys == ys[..n] + [ys[n]];
      TradeRowsMembers(vars, value, ys[..n], vs, r);
      YearTradesMembers(vars, value, ys[n], vs, r);
    }
  }

  // ---------------------------------------------------------------------------------------
  // The solution

  /** A `Use` row reports an existing `use` variable with a positive value, of a vehicle
      ranking at least as high as the row's bucket, in a year of the horizon; its count is
      the truncated value and its last field the vehicle's yearly range. Conversely every
      such variable of a listed vehicle and fuel is reported. */
  lemma UseRows(inp: Inputs, vars: set<VarKey>, value: map<VarKey, real>, r: Row)
    requires inp.Valid()
    requires r.UseRow?
    ensures r in Solution(inp, vars, value) <==>
      var k := Use(r.id, r.fuel, r.bucket, r.year);
      && r.id in inp.data.vehicles && inp.startYear <= r.year < inp.endYear
      && k in vars && Solved(value, k) > 0.0
      && Rank(inp.data.vehicles[r.id].distanceBucket) >= Rank(r.bucket)
      && r.count == Truncate(Solved(value, k))
      && r.yearlyRange == inp.data.vehicles[r.id].yearlyRange
      && r.fuel in inp.fuelOrder
  {
    var years := inp.Years();
    InRange(inp.startYear, inp.endYear, r.year);
    UsageRowsMembers(inp, vars, value, years, r);
    TradeRowsMembers(vars, value, years, inp.vehicleIds, r);
    if r in Solution(inp, vars, value) {
      var y, s, d :| y in years && s in inp.sizeBuckets && r in Block(inp, vars, value, y, s, d);
      BlockRows(inp, vars, value, y, s, d, r);
    } else if r.id in inp.data.vehicles && r.year in years {
      var k := Use(r.id, r.fuel, r.bucket, r.year);
      if k in vars && Solved(value, k) > 0.0 && Rank(inp.data.vehicles[r.id].distanceBucket) >= Rank(r.bucket)
         && r.count == Truncate(Solved(value, k)) && r.yearlyRange == inp.data.vehicles[r.id].yearlyRange
         && r.fuel in inp.fuelOrder
      {
        var s := inp.data.vehicles[r.id].sizeBucket;
        assert Reported(inp, vars, value, r.year, s, r.bucket, r.id, r.fuel);
        BlockRows(inp, vars, value, r.year, s, r.bucket, r);
        assert false;
      }
    }
  }

  /** An idle row for (year, dist) appears exactly when some size of `size_buckets` has no
      reported `use` variable at that year and bucket. */
  lemma IdleRows(inp: Inputs, vars: set<VarKey>, value: map<VarKey, real>, year: int, dist: Bucket)
    requires inp.Valid()
    ensures IdleRow(year, dist) in Solution(inp, vars, value) <==>
      && inp.startYear <= year < inp.endYear
      && exists s :: s in inp.sizeBuckets &&
           !exists v, f :: v in inp.vehicleIds && f in inp.fuelOrder && Reported(inp, vars, value, year, s, dist, v, f)
  {
    var years := inp.Years();
    var r := IdleRow(year, dist);
    InRange(inp.startYear, inp.endYear, year);
    UsageRowsMembers(inp, vars, value, years, r);
    TradeRowsMembers(vars, value, years, inp.vehicleIds, r);
    if r in Solution(inp, vars, value) {
      var y, s, d :| y in years && s in inp.sizeBuckets && r in Block(inp, vars, value, y, s, d);
      BlockRows(inp, vars, value, y, s, d, r);
    } else if year in years {
      forall s | s in inp.sizeBuckets
        ensures exists v, f :: v in inp.vehicleIds && f in inp.fuelOrder && Reported(inp, vars, value, year, s, dist, v, f)
      {
        BlockRows(inp, vars, value, year, s, dist, r);
      }
    }
  }

  /** The usage part holds only `Use` and idle rows. */
  lemma UsageKinds(inp: Inputs, vars: set<VarKey>, value: map<VarKey, real>, ys: seq<int>, r: Row)
    requires forall v :: v in inp.vehicleIds ==> v in inp.data.vehicles
    ensures r in UsageRows(inp, vars, value, ys) ==> r.UseRow? || r.IdleRow?
  {
    UsageRowsMembers(inp, vars, value, ys, r);
    if r in UsageRows(inp, vars, value, ys) {
      var y, s, d :| y in ys && s in inp.sizeBuckets && r in Block(inp, vars, value, y, s, d);
      BlockRows(inp, vars, value, y, s, d, r);
    }
  }

  /** A `Buy` row appears exactly for a `buy` variable with a positive value, with the
      truncated value as its count. */
  lemma BuyRows(inp: Inputs, vars: set<VarKey>, value: map<VarKey, real>, r: Row)
    requires inp.Valid()
    requires r.BuyRow?
    ensures r in Solution(inp, vars, value) <==>
      && inp.startYear <= r.year < inp.endYear && r.id in inp.vehicleIds
      && Buy(r.id, r.year) in vars && Solved(value, Buy(r.id, r.year)) > 0.0 && r.count == Truncate(Solved(value, Buy(r.id, r.year)))
  {
    InRange(inp.startYear, inp.endYear, r.year);
    UsageKinds(inp, vars, value, inp.Years(), r);
    TradeRowsMembers(vars, value, inp.Years(), inp.vehicleIds, r);
  }

  /** A `Sell` row appears exactly for a `sell` variable with a positive value, with the
      truncated value as its count. */
  lemma SellRows(inp: Inputs, vars: set<VarKey>, value: map<VarKey, real>, r: Row)
    requires inp.Valid()
    requires r.SellRow?
    ensures r in Solution(inp, vars, value) <==>
      && inp.startYear <= r.year < inp.endYear && r.id in inp.vehicleIds
      && Sell(r.id, r.year) in vars && Solved(value, Sell(r.id, r.year)) > 0.0 && r.count == Truncate(Solved(value, Sell(r.id, r.year)))
  {
    InRange(inp.startYear, inp.endYear, r.year);
    UsageKinds(inp, vars, value, inp.Years(), r);
    TradeRowsMembers(vars, value, inp.Years(), inp.vehicleIds, r);
  }

  /** All usage and idle rows come before all buy and sell rows. */
  lemma UsageBeforeTrades(inp: Inputs, vars: set<VarKey>, value: map<VarKey, real>, i: int, j: int)
    requires inp.Valid()
    requires 0 <= i < j < |Solution(inp, vars, value)|
    ensures var rows := Solution(inp, vars, value);
      rows[i].BuyRow? || rows[i].SellRow? ==> rows[j].BuyRow? || rows[j].SellRow?
  {
    var usage := UsageRows(inp, vars, value, inp.Years());
    var trades := TradeRows(vars, value, inp.Years(), inp.vehicleIds);
    var rows := Solution(inp, vars, value);
    if i < |usage| {
      UsageKinds(inp, vars, value, inp.Years(), usage[i]);
      assert rows[i] == usage[i];
    } else {
      assert rows[j] == trades[j - |usage|];
      TradeRowsMembers(vars, value, inp.Years(), inp.vehicleIds, trades[j - |usage|]);
    }
  }
}
