/** The keyed tables the model builder reads, as the loader leaves them. */
module Domain {

  type VehicleId = string
  type FuelId = string
  type Size = string

  /** The distance buckets, in the order of `distance_buckets = ['D1', 'D2', 'D3', 'D4']`. */
  datatype Bucket = D1 | D2 | D3 | D4

  const Buckets: seq<Bucket> := [D1, D2, D3, D4]

  /** Every bucket is listed in `distance_buckets`. */
  lemma BucketsListed()
    ensures forall d: Bucket :: d in Buckets
  {
    forall d: Bucket ensures d in Buckets {
      assert Buckets[Rank(d)] == d;
    }
  }

  /** `distance_buckets.index(b)`: a vehicle of rank r can serve every bucket of rank <= r. */
  function Rank(b: Bucket): nat {
    match b
    case D1 => 0
    case D2 => 1
    case D3 => 2
    case D4 => 3
  }

  /** The rank is the bucket's position in `distance_buckets`, so the ordinal test is a total order. */
  lemma RankIsPosition(b: Bucket)
    ensures Rank(b) < |Buckets| && Buckets[Rank(b)] == b
    ensures forall c :: Rank(c) == Rank(b) ==> c == b
  {
  }

  /** `data['vehicles'][id]`. */
  datatype Vehicle = Vehicle(
    drivetrain: string,
    sizeBucket: Size,
    purchaseCost: real,
    yearlyRange: real,
    distanceBucket: Bucket)

  /** `data['fuels'][fuel]`. */
  datatype Fuel = Fuel(carbonEmission: real, cost: real, uncertainty: real)

  /** `data['cost_profiles'][year]`: percentages of the purchase cost. */
  datatype CostProfile = CostProfile(resaleValue: real, insuranceCost: real, maintenanceCost: real)

  /** The `data` dictionary returned by `load_and_prepare_data`. */
  datatype Tables = Tables(
    years: seq<int>,
    demand: map<int, map<(Size, Bucket), real>>,
    vehicles: map<VehicleId, Vehicle>,
    vehicleFuels: map<(VehicleId, FuelId), real>,
    fuels: map<FuelId, Fuel>,
    carbonLimits: map<int, real>,
    costProfiles: map<int, CostProfile>)
}
