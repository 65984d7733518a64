/** reports.php: the report's scope (one user, optionally one bike), the
    odometer distance for one bike or for all of them, the SQL aggregates
    over fuel logs and service records, and the guarded averages. */
module Reports {
  import opened Php
  import opened Ledger
  import Dashboard

  // ---------------------------------------------------------------- scope

  /** `if ($bike_id)`: a bike is chosen when the parameter is present and truthy. */
  predicate Chosen(bike: Option<int>) { bike.Some? && bike.value != 0 }

  /** `WHERE user_id = ? [AND bike_id = ?]`. */
  predicate InScope(owner: int, bikeId: int, user: int, bike: Option<int>) {
    owner == user && (!Chosen(bike) || bikeId == bike.value)
  }

  function ScopedFuel(logs: seq<FuelLog>, user: int, bike: Option<int>): (r: seq<FuelLog>)
    ensures forall f :: f in r <==> f in logs && InScope(f.owner, f.bikeId, user, bike)
    ensures |r| <= |logs|
    ensures forall f :: multiset(r)[f] == if InScope(f.owner, f.bikeId, user, bike) then multiset(logs)[f] else 0
  {
    if logs == [] then []
    else
      var rest := ScopedFuel(logs[..|logs| - 1], user, bike);
      var last := logs[|logs| - 1];
      var keep := (f: FuelLog) => InScope(f.owner, f.bikeId, user, bike);
      assert logs == logs[..|logs| - 1] + [last];
      KeepLast(logs[..|logs| - 1], last, rest, keep);
      var r := if keep(last) then rest + [last] else rest;
      KeptRows(logs, r, keep);
      r
  }

  function ScopedServices(records: seq<ServiceRecord>, user: int, bike: Option<int>): (r: seq<ServiceRecord>)
    ensures forall s :: s in r <==> s in records && InScope(s.owner, s.bikeId, user, bike)
    ensures |r| <= |records|
    ensures forall s :: multiset(r)[s] == if InScope(s.owner, s.bikeId, user, bike) then multiset(records)[s] else 0
  {
    if records == [] then []
    else
      var rest := ScopedServices(records[..|records| - 1], user, bike);
      var last := records[|records| - 1];
      var keep := (s: ServiceRecord) => InScope(s.owner, s.bikeId, user, bike);
      assert records == records[..|records| - 1] + [last];
      KeepLast(records[..|records| - 1], last, rest, keep);
      var r := if keep(last) then rest + [last] else rest;
      KeptRows(records, r, keep);
      r
  }

  /** Another user's rows never reach the report. */
  lemma ForeignRowsExcluded(logs: seq<FuelLog>, records: seq<ServiceRecord>, user: int, bike: Option<int>)
    ensures forall f :: f in ScopedFuel(logs, user, bike) ==> f.owner == user
    ensures forall s :: s in ScopedServices(records, user, bike) ==> s.owner == user
  {
  }

  // ---------------------------------------------------------------- aggregates

  /** The row of the fuel aggregate query over the scoped logs:
      `SUM(fuel_quantity)`, `SUM(fuel_cost)`, `AVG(mileage)`, `COUNT(*)`. */
  datatype FuelRow = FuelRow(totalFuel: Option<real>, totalCost: Option<real>, avgMileage: Option<real>, fills: nat)

  /** The row of the service aggregate query: `SUM(service_cost)`, `COUNT(*)`. */
  datatype ServiceRow = ServiceRow(totalCost: Option<real>, services: nat)

  datatype Tally = Tally(sum: int, count: nat)

  /** Sum and count of the non-NULL mileages, as `AVG(mileage)` sees them:
      unlike the fuel page, a stored mileage of 0 is counted. */
  function NonNullMileage(logs: seq<FuelLog>): (r: Tally)
    ensures r.count <= |logs|
    ensures r.count == 0 <==> forall f :: f in logs ==> f.mileage.None?
  {
    if logs == [] then Tally(0, 0)
    else
      var rest := NonNullMileage(logs[..|logs| - 1]);
      var last := logs[|logs| - 1];
      assert forall f :: f in logs <==> f in logs[..|logs| - 1] || f == last;
      if last.mileage.Some? then Tally(rest.sum + last.mileage.value, rest.count + 1) else rest
  }

  /** SQL AVG from a sum and a row count: NULL over no rows. */
  function Mean(total: real, count: nat): (a: Option<real>)
    ensures a.None? <==> count == 0
    ensures a.Some? ==> a.value * count as real == total
  {
    if count == 0 then None else Some(total / count as real)
  }

  /** SUM is NULL over no rows; AVG(mileage) is NULL when no row has one. */
  function FuelAggregates(rows: seq<FuelLog>): (a: FuelRow)
    ensures a.fills == |rows|
    ensures a.totalFuel.None? <==> rows == []
    ensures a.totalCost.None? <==> rows == []
    ensures rows != [] ==> a.totalFuel == Some(FuelQuantitySum(rows)) && a.totalCost == Some(FuelCostSum(rows))
    ensures a.avgMileage.None? <==> forall f :: f in rows ==> f.mileage.None?
    ensures a.avgMileage.Some? ==>
      a.avgMileage.value * NonNullMileage(rows).count as real == NonNullMileage(rows).sum as real / 100.0
  {
    var t := NonNullMileage(rows);
    FuelRow(
      if rows == [] then None else Some(FuelQuantitySum(rows)),
      if rows == [] then None else Some(FuelCostSum(rows)),
      Mean(t.sum as real / 100.0, t.count),
      |rows|)
  }

  function ServiceAggregates(rows: seq<ServiceRecord>): (a: ServiceRow)
    ensures a.services == |rows|
    ensures a.totalCost.None? <==> rows == []
    ensures rows != [] ==> a.totalCost == Some(ServiceCostSum(rows))
  {
    ServiceRow(if rows == [] then None else Some(ServiceCostSum(rows)), |rows|)
  }

  /** The report averages a zero mileage in, where the fuel page leaves it out. */
  lemma ZeroMileageCountsInReport()
    ensures var log := FuelLog(1, 7, 0, 5000, 10.0, 1000.0, 100.0, "Petrol", true, "", Some(0), "");
      FuelAggregates(ScopedFuel([log], 7, None)).avgMileage == Some(0.0) && MileageCount([log]) == 0
  {
    var log := FuelLog(1, 7, 0, 5000, 10.0, 1000.0, 100.0, "Petrol", true, "", Some(0), "");
    assert ScopedFuel([log], 7, None) == [log] by {
      assert [log][..0] == [];
    }
    assert [log][..0] == [];
    assert NonNullMileage([log]) == Tally(0, 1);
  }

  // ---------------------------------------------------------------- distance

  /** One bike: `(current_odometer ?? 0) - (initial_odometer ?? 0)` of the
      fetched row; a bike that is not the user's fetches nothing and gives 0. */
  function SingleBikeDistance(bike: Option<Bike>): (d: int)
    ensures bike.None? ==> d == 0
    ensures bike.Some? ==> d + bike.value.initialOdometer.GetOr(0) == bike.value.currentOdometer
  {
    if bike.None? then 0 else bike.value.currentOdometer - bike.value.initialOdometer.GetOr(0)
  }

  /** A row `SUM(current_odometer - initial_odometer) … WHERE user_id = ?`
      adds up: the user's bike with a baseline (a NULL baseline makes the
      difference NULL, which SUM skips). */
  predicate Summed(b: Bike, user: int) { b.owner == user && b.initialOdometer.Some? }

  /** The SUM over the bikes table: NULL when no row is summed. */
  function SumDistances(bikes: seq<Bike>, user: int): (r: Option<int>)
    ensures r.None? <==> forall b :: b in bikes ==> !Summed(b, user)
  {
    if bikes == [] then None
    else
      var rest := SumDistances(bikes[..|bikes| - 1], user);
      var last := bikes[|bikes| - 1];
      assert forall b :: b in bikes <==> b in bikes[..|bikes| - 1] || b == last;
      if !Summed(last, user) then rest
      else Some(rest.GetOr(0) + (last.currentOdometer - last.initialOdometer.value))
  }

  /** All bikes: the SUM, or 0 (`?? 0`). */
  function AllBikesDistance(bikes: seq<Bike>, user: int): (d: int)
    ensures (forall b :: b in bikes ==> !Summed(b, user)) ==> d == 0
  {
    SumDistances(bikes, user).GetOr(0)
  }

  /** What each bike contributes to the all-bikes figure: its single-bike
      distance when the SUM counts it, nothing otherwise. */
  function Contributions(bikes: seq<Bike>, user: int): seq<int>
  {
    seq(|bikes|, i requires 0 <= i < |bikes| => if Summed(bikes[i], user) then SingleBikeDistance(Some(bikes[i])) else 0)
  }

  /** The all-bikes distance is the sum of the single-bike distances of the
      user's bikes that have a baseline; other users' bikes and bikes with a
      NULL baseline add nothing. */
  lemma {:induction false} AllBikesDistanceSkipsNull(bikes: seq<Bike>, user: int)
    ensures AllBikesDistance(bikes, user) == SumInt(Contributions(bikes, user))
  {
    if bikes != [] {
      var init := bikes[..|bikes| - 1];
      AllBikesDistanceSkipsNull(init, user);
      var whole := Contributions(bikes, user);
      assert whole[..|whole| - 1] == Contributions(init, user);
    }
  }

  /** So when every bike is the user's and has a baseline, the all-bikes
      figure is the sum of the single-bike figures; the single-bike report
      counts a NULL baseline as 0, which the SUM skips. */
  lemma AllBikesSumsSingleBikes(bikes: seq<Bike>, user: int)
    requires forall b :: b in bikes ==> Summed(b, user)
    ensures AllBikesDistance(bikes, user) == SumInt(seq(|bikes|, i requires 0 <= i < |bikes| => SingleBikeDistance(Some(bikes[i]))))
  {
    AllBikesDistanceSkipsNull(bikes, user);
    assert Contributions(bikes, user) == seq(|bikes|, i requires 0 <= i < |bikes| => SingleBikeDistance(Some(bikes[i]))) by {
      forall i | 0 <= i < |bikes| ensures Summed(bikes[i], user) {
        assert bikes[i] in bikes;
      }
    }
  }

  /** With no baseline recorded, the one-bike report shows the whole odometer
      while the all-bikes report shows 0 for the same bike. */
  lemma SingleAndAllDisagreeWithoutBaseline()
    ensures var b := Bike(7, BikeDetails("", "", "", "", "", "", "", "", ""), 5000, None, 0);
      SingleBikeDistance(Some(b)) == 5000 && AllBikesDistance([b], 7) == 0
  {
    var b := Bike(7, BikeDetails("", "", "", "", "", "", "", "", ""), 5000, None, 0);
    assert [b][..0] == [];
  }

  /** bikes.php:87 lists `current_odometer AS total_distance`. */
  function ListedTotalDistance(b: Bike): (d: int)
    ensures b.initialOdometer.None? ==> d == SingleBikeDistance(Some(b))
    ensures b.initialOdometer.Some? ==> d == SingleBikeDistance(Some(b)) + b.initialOdometer.value
  {
    b.currentOdometer
  }

  /** The dashboard falls back to the earliest reading where the report uses
      0, so the two pages disagree on a bike without a stored baseline. */
  lemma DashboardAndReportDisagree()
    ensures var b := Bike(7, BikeDetails("", "", "", "", "", "", "", "", ""), 5150, None, 0);
      Dashboard.DistanceDriven(b, [5000]) == 150 && SingleBikeDistance(Some(b)) == 5150
  {
    var b := Bike(7, BikeDetails("", "", "", "", "", "", "", "", ""), 5150, None, 0);
    assert Dashboard.InitialOdometer(b, [5000]) == 5000;
  }

  // ---------------------------------------------------------------- guarded figures

  /** Fuel + service, each NULL sum counted as 0. */
  function Expenditure(fuelCost: Option<real>, serviceCost: Option<real>): (e: real)
    ensures fuelCost.None? && serviceCost.None? ==> e == 0.0
    ensures e - fuelCost.GetOr(0.0) == serviceCost.GetOr(0.0)
  {
    fuelCost.GetOr(0.0) + serviceCost.GetOr(0.0)
  }

  /** Shown only when there is at least one service. */
  function AverageServiceCost(total: Option<real>, count: nat): (a: Option<real>)
    ensures a.Some? <==> count > 0
    ensures a.Some? ==> a.value * count as real == total.GetOr(0.0)
  {
    if count > 0 then Some(total.GetOr(0.0) / count as real) else None
  }

  /** Shown only when the distance is positive. */
  function CostPerKm(expenditure: real, distance: int): (c: Option<real>)
    ensures c.Some? <==> distance > 0
    ensures c.Some? ==> c.value * distance as real == expenditure
  {
    if distance > 0 then Some(expenditure / distance as real) else None
  }

  /** The average shown is the mean cost of the scoped service records. */
  lemma AverageServiceCostIsMean(rows: seq<ServiceRecord>)
    requires rows != []
    ensures var a := AverageServiceCost(ServiceAggregates(rows).totalCost, ServiceAggregates(rows).services);
      a.Some? && a.value * |rows| as real == ServiceCostSum(rows)
  {
  }
}
