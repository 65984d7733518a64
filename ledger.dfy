/** The tables behind fuel.php, trips.php, bikes.php, service.php and
    reminders.php, and their POST handlers: the odometer ledger. Every table
    is a map from its AUTO_INCREMENT id to a row tagged with its bike and its
    owner; every update and delete is scoped by (row id, user id). */
module Ledger {
  import opened Php
  import opened Config

  // ---------------------------------------------------------------- rows

  /** The free-text columns of a bike, each stored after sanitizeInput. */
  datatype BikeDetails = BikeDetails(
    name: string, manufacturer: string, model: string, year: string, registration: string,
    engineCapacity: string, purchaseDate: string, purchasePrice: string, fuelTankCapacity: string)

  datatype Bike = Bike(
    owner: int, details: BikeDetails, currentOdometer: int,
    initialOdometer: Option<int>, createdAt: int)

  datatype FuelLog = FuelLog(
    bikeId: int, owner: int, fillDate: int, reading: int,
    quantity: real, cost: real, pricePerLiter: real, fuelType: string, fullTank: bool,
    station: string,
    /** km per litre in hundredths, NULL when it could not be computed */
    mileage: Option<int>,
    notes: string)

  datatype Trip = Trip(
    bikeId: int, owner: int, date: int, start: int, end: int,
    startLocation: string, endLocation: string, purpose: string, notes: string)

  datatype ServiceRecord = ServiceRecord(
    bikeId: int, owner: int, date: int, reading: int, serviceType: string, center: string,
    cost: real, parts: string, nextKm: Option<int>, nextDate: Option<int>,
    description: string, invoice: string)

  datatype Priority = Low | Medium | High

  datatype Reminder = Reminder(
    bikeId: int, owner: int, kind: string, title: string, description: string,
    dueDate: Option<int>, dueOdometer: Option<int>, priority: Priority,
    completed: bool, completedDate: Option<int>)

  datatype User = User(username: string, email: string, passwordHash: string, fullName: string, phone: string)

  // ---------------------------------------------------------------- forms

  /** The bike form; the odometer arrives as a number (a string of digits is
      left unchanged by sanitizeInput, see Config.SanitizeDigits). */
  datatype BikeForm = BikeForm(details: BikeDetails, odometer: int)

  datatype FuelForm = FuelForm(
    bikeId: int, fillDate: int, reading: int, quantity: real, cost: real, pricePerLiter: real,
    fuelType: string, fullTank: bool, station: string, notes: string)

  datatype TripForm = TripForm(
    bikeId: int, date: int, start: int, end: int,
    startLocation: string, endLocation: string, purpose: string, notes: string)

  /** `nextKm` / `nextDate` are None when the form field was left blank. */
  datatype ServiceForm = ServiceForm(
    bikeId: int, date: int, reading: int, serviceType: string, center: string, cost: real,
    parts: string, nextKm: Option<int>, nextDate: Option<int>, description: string, invoice: string)

  datatype ReminderForm = ReminderForm(
    bikeId: int, kind: string, title: string, description: string,
    dueDate: Option<int>, dueOdometer: Option<int>, priority: Priority)

  function SanitizeDetails(d: BikeDetails): BikeDetails
  {
    BikeDetails(SanitizeInput(d.name), SanitizeInput(d.manufacturer), SanitizeInput(d.model),
      SanitizeInput(d.year), SanitizeInput(d.registration), SanitizeInput(d.engineCapacity),
      SanitizeInput(d.purchaseDate), SanitizeInput(d.purchasePrice), SanitizeInput(d.fuelTankCapacity))
  }

  // ---------------------------------------------------------------- owner-scoped writes

  /** `UPDATE … WHERE id = ? AND user_id = ?`: only the row with that id and
      that owner is revised; every other row, and a foreign row, is kept. */
  function ReviseOwned<T>(m: map<int, T>, ownerOf: T -> int, id: int, user: int, revise: T -> T): (r: map<int, T>)
    ensures r.Keys == m.Keys
    ensures forall k :: k in m && k != id ==> r[k] == m[k]
    ensures id in m && ownerOf(m[id]) == user ==> r[id] == revise(m[id])
    ensures !(id in m && ownerOf(m[id]) == user) ==> r == m
  {
    if id in m && ownerOf(m[id]) == user then m[id := revise(m[id])] else m
  }

  /** `DELETE … WHERE id = ? AND user_id = ?`: the row goes only when the user owns it. */
  function RemoveOwned<T>(m: map<int, T>, ownerOf: T -> int, id: int, user: int): (r: map<int, T>)
    ensures id in m && ownerOf(m[id]) == user ==> r.Keys == m.Keys - {id}
    ensures !(id in m && ownerOf(m[id]) == user) ==> r == m
    ensures forall k :: k in r ==> k in m && r[k] == m[k]
  {
    if id in m && ownerOf(m[id]) == user then m - {id} else m
  }

  // ---------------------------------------------------------------- odometer writers

  /** The fuel path (fuel.php:53): `SET current_odometer = R WHERE bike_id = ?
      AND user_id = ? AND current_odometer < R`. A high-water mark: the
      owner's bike ends at max(old, R); no bike's odometer ever decreases. */
  function RaiseOdometer(bikes: map<int, Bike>, bikeId: int, user: int, reading: int): (r: map<int, Bike>)
    ensures r.Keys == bikes.Keys
    ensures forall id :: id in bikes ==> r[id].currentOdometer >= bikes[id].currentOdometer
    ensures forall id :: id in bikes ==> r[id] == bikes[id].(currentOdometer := r[id].currentOdometer)
    ensures forall id :: id in bikes && (id != bikeId || bikes[id].owner != user) ==> r[id] == bikes[id]
    ensures bikeId in bikes && bikes[bikeId].owner == user ==>
      r[bikeId].currentOdometer == if bikes[bikeId].currentOdometer < reading then reading else bikes[bikeId].currentOdometer
  {
    ReviseOwned(bikes, (b: Bike) => b.owner, bikeId, user,
      (b: Bike) => if b.currentOdometer < reading then b.(currentOdometer := reading) else b)
  }

  /** The trip path (trips.php:35) and the bike form (bikes.php:52) write the
      odometer without comparing: the owner's bike gets exactly `value`. */
  function OverwriteOdometer(bikes: map<int, Bike>, bikeId: int, user: int, value: int): (r: map<int, Bike>)
    ensures r.Keys == bikes.Keys
    ensures forall id :: id in bikes && (id != bikeId || bikes[id].owner != user) ==> r[id] == bikes[id]
    ensures bikeId in bikes && bikes[bikeId].owner == user ==>
      r[bikeId] == bikes[bikeId].(currentOdometer := value)
  {
    ReviseOwned(bikes, (b: Bike) => b.owner, bikeId, user, (b: Bike) => b.(currentOdometer := value))
  }

  /** The trip and bike writers, unlike the fuel writer, can lower the odometer. */
  lemma OverwriteCanLower()
    ensures var bikes := map[1 := Bike(7, BikeDetails("", "", "", "", "", "", "", "", ""), 5150, None, 0)];
      OverwriteOdometer(bikes, 1, 7, 5100)[1].currentOdometer < bikes[1].currentOdometer
  {
  }

  // ---------------------------------------------------------------- mileage

  /** A log that fuel.php:33 may pick as the previous fill for a new reading:
      same bike (any owner: the query has no user filter), smaller reading. */
  predicate Candidate(log: FuelLog, bikeId: int, reading: int) {
    log.bikeId == bikeId && log.reading < reading
  }

  /** `ORDER BY odometer_reading DESC LIMIT 1` over the candidates: no row
      when there is no candidate, otherwise the id of a candidate with the
      largest reading. */
  predicate IsPreviousFill(logs: map<int, FuelLog>, bikeId: int, reading: int, prev: Option<int>) {
    match prev
    case None => forall id :: id in logs ==> !Candidate(logs[id], bikeId, reading)
    case Some(p) =>
      p in logs && Candidate(logs[p], bikeId, reading) &&
      forall id :: id in logs && Candidate(logs[id], bikeId, reading) ==> logs[id].reading <= logs[p].reading
  }

  /** The row a previous-fill result designates. */
  function PrevLog(logs: map<int, FuelLog>, prev: Option<int>): Option<FuelLog>
    requires prev.Some? ==> prev.value in logs
  {
    if prev.Some? then Some(logs[prev.value]) else None
  }

  /** A set that is not empty has a member. */
  lemma NoMemberMeansEmpty(s: set<int>)
    ensures (forall x :: x !in s) ==> s == {}
  {
    if forall x :: x !in s {
      assert s == {};
    }
  }

  /** The previous-fill query, one row at a time. When several logs share the
      largest reading any of them may be returned, as with the SQL LIMIT. */
  method FindPreviousFill(logs: map<int, FuelLog>, bikeId: int, reading: int) returns (prev: Option<int>)
    ensures IsPreviousFill(logs, bikeId, reading, prev)
  {
    prev := None;
    var todo := logs.Keys;
    while todo != {}
      invariant todo <= logs.Keys
      invariant prev.Some? ==> prev.value in logs && Candidate(logs[prev.value], bikeId, reading)
      invariant forall id :: id in logs && id !in todo && Candidate(logs[id], bikeId, reading) ==>
        prev.Some? && logs[id].reading <= logs[prev.value].reading
      decreases todo
    {
      NoMemberMeansEmpty(todo);
      var id :| id in todo;
      if Candidate(logs[id], bikeId, reading) && (prev.None? || logs[id].reading > logs[prev.value].reading) {
        prev := Some(id);
      }
      todo := todo - {id};
    }
  }

  /** fuel.php:37-46: with a previous fill, the distance since it divided by
      the PREVIOUS fill's quantity, rounded to hundredths; NULL without a
      previous fill, with a non-positive quantity or a non-positive distance. */
  function FillMileage(prev: Option<FuelLog>, reading: int): (m: Option<int>)
    ensures m.Some? <==> prev.Some? && prev.value.quantity > 0.0 && reading - prev.value.reading > 0
    ensures m.Some? ==>
      var x := (reading - prev.value.reading) as real / prev.value.quantity;
      100.0 * x - 0.5 < m.value as real <= 100.0 * x + 0.5 && m.value >= 0
  {
    match prev
    case None => None
    case Some(p) =>
      var distance := reading - p.reading;
      if p.quantity > 0.0 && distance > 0 then Some(RoundHundredths(distance as real / p.quantity)) else None
  }

  /** The selection is strict, so a previous fill always lies a positive
      distance behind, and its quantity alone decides whether there is a mileage. */
  lemma PreviousFillMileage(logs: map<int, FuelLog>, bikeId: int, reading: int, prev: Option<int>)
    requires IsPreviousFill(logs, bikeId, reading, prev)
    ensures prev.Some? ==> reading - logs[prev.value].reading > 0
    ensures FillMileage(PrevLog(logs, prev), reading).Some? <==> prev.Some? && logs[prev.value].quantity > 0.0
  {
  }

  /** Fills logged one after another with increasing readings: the previous
      fill of a new, larger reading is the last one logged, so its mileage is
      (new − last) / last quantity. */
  lemma PreviousIsLastOfIncreasing(logs: map<int, FuelLog>, bikeId: int, last: int, reading: int, prev: Option<int>)
    requires last in logs && logs[last].bikeId == bikeId && logs[last].reading < reading
    requires forall id :: id in logs && id != last && logs[id].bikeId == bikeId ==> logs[id].reading < logs[last].reading
    requires IsPreviousFill(logs, bikeId, reading, prev)
    ensures prev == Some(last)
    ensures FillMileage(PrevLog(logs, prev), reading) == FillMileage(Some(logs[last]), reading)
  {
    assert Candidate(logs[last], bikeId, reading);
  }

  /** The very first fill of a bike has no mileage. */
  lemma FirstFillHasNoMileage(logs: map<int, FuelLog>, bikeId: int, reading: int, prev: Option<int>)
    requires forall id :: id in logs ==> logs[id].bikeId != bikeId
    requires IsPreviousFill(logs, bikeId, reading, prev)
    ensures prev.None? && FillMileage(PrevLog(logs, prev), reading).None?
  {
  }

  // ---------------------------------------------------------------- ledger invariant

  /** Every fuel reading the bike's owner logged is at most the bike's odometer. */
  ghost predicate OdometerCoversFills(bikes: map<int, Bike>, logs: map<int, FuelLog>) {
    forall fid, bid :: fid in logs && bid in bikes && logs[fid].bikeId == bid && logs[fid].owner == bikes[bid].owner ==>
      logs[fid].reading <= bikes[bid].currentOdometer
  }

  /** A fuel add keeps every owner's fuel readings under the odometer. */
  lemma FuelAddKeepsCover(bikes: map<int, Bike>, logs: map<int, FuelLog>, fid: int, log: FuelLog)
    requires OdometerCoversFills(bikes, logs)
    ensures OdometerCoversFills(RaiseOdometer(bikes, log.bikeId, log.owner, log.reading), logs[fid := log])
  {
    var nb := RaiseOdometer(bikes, log.bikeId, log.owner, log.reading);
    var nl := logs[fid := log];
    forall f, b | f in nl && b in nb && nl[f].bikeId == b && nl[f].owner == nb[b].owner
      ensures nl[f].reading <= nb[b].currentOdometer
    {
      assert nb[b].owner == bikes[b].owner;
      if f == fid {
        assert b == log.bikeId && bikes[b].owner == log.owner;
      }
    }
  }

  /** A trip add with a smaller end reading breaks that invariant. */
  lemma TripAddCanBreakCover()
    ensures var bikes := map[1 := Bike(7, BikeDetails("", "", "", "", "", "", "", "", ""), 5150, None, 0)];
      var logs := map[1 := FuelLog(1, 7, 0, 5150, 10.0, 0.0, 0.0, "", true, "", None, "")];
      OdometerCoversFills(bikes, logs) && !OdometerCoversFills(OverwriteOdometer(bikes, 1, 7, 5100), logs)
  {
    var bikes := map[1 := Bike(7, BikeDetails("", "", "", "", "", "", "", "", ""), 5150, None, 0)];
    var logs := map[1 := FuelLog(1, 7, 0, 5150, 10.0, 0.0, 0.0, "", true, "", None, "")];
    var after := OverwriteOdometer(bikes, 1, 7, 5100);
    assert after[1].currentOdometer == 5100;
  }

  // ---------------------------------------------------------------- service reminder

  /** The row add_service inserts: the user's, every free-text field sanitised. */
  function NewServiceRecord(user: int, form: ServiceForm): ServiceRecord
  {
    ServiceRecord(form.bikeId, user, form.date, form.reading, form.serviceType,
      SanitizeInput(form.center), form.cost, SanitizeInput(form.parts), form.nextKm, form.nextDate,
      SanitizeInput(form.description), SanitizeInput(form.invoice))
  }

  /** service.php:35-39: a 'Service' reminder of priority Medium, due at the
      next-service date and/or odometer, exists iff either field is non-empty
      in PHP's sense (a blank date, a blank or 0 km count as empty). */
  function DerivedReminder(user: int, form: ServiceForm, dateLabel: string): (r: Option<Reminder>)
    ensures r.Some? <==> form.nextDate.Some? || (form.nextKm.Some? && form.nextKm.value != 0)
    ensures r.Some? ==>
      r.value.kind == "Service" && r.value.priority == Medium &&
      r.value.title == "Next Service Due - " + form.serviceType &&
      r.value.dueDate == form.nextDate && r.value.dueOdometer == form.nextKm &&
      r.value.bikeId == form.bikeId && r.value.owner == user && !r.value.completed
  {
    if form.nextDate.Some? || (form.nextKm.Some? && form.nextKm.value != 0) then
      Some(Reminder(form.bikeId, user, "Service", "Next Service Due - " + form.serviceType,
        "Service reminder based on last service on " + dateLabel,
        form.nextDate, form.nextKm, Medium, false, None))
    else None
  }

  // ---------------------------------------------------------------- listing statistics

  /** A log counts toward the average mileage when its mileage is set and non-zero. */
  predicate HasMileage(log: FuelLog) { log.mileage.Some? && log.mileage.value != 0 }

  function FuelQuantitySum(logs: seq<FuelLog>): real
  {
    if logs == [] then 0.0 else FuelQuantitySum(logs[..|logs| - 1]) + logs[|logs| - 1].quantity
  }

  function FuelCostSum(logs: seq<FuelLog>): real
  {
    if logs == [] then 0.0 else FuelCostSum(logs[..|logs| - 1]) + logs[|logs| - 1].cost
  }

  function MileageSum(logs: seq<FuelLog>): int
  {
    if logs == [] then 0
    else MileageSum(logs[..|logs| - 1]) + (if HasMileage(logs[|logs| - 1]) then logs[|logs| - 1].mileage.value else 0)
  }

  function MileageCount(logs: seq<FuelLog>): (n: nat)
    ensures n <= |logs|
  {
    if logs == [] then 0 else MileageCount(logs[..|logs| - 1]) + (if HasMileage(logs[|logs| - 1]) then 1 else 0)
  }

  /** The statistics loop of fuel.php:145-154 over the listed logs: total
      litres, total cost, and the average mileage (km/l) of the logs that
      have one, 0 when none has. */
  method FuelStats(logs: seq<FuelLog>) returns (totalFuel: real, totalCost: real, avgMileage: real)
    ensures totalFuel == FuelQuantitySum(logs)
    ensures totalCost == FuelCostSum(logs)
    ensures MileageCount(logs) > 0 ==> avgMileage == (MileageSum(logs) as real / 100.0) / MileageCount(logs) as real
    ensures MileageCount(logs) == 0 ==> avgMileage == 0.0
  {
    totalFuel, totalCost := 0.0, 0.0;
    var sum, count := 0, 0;
    for i := 0 to |logs|
      invariant totalFuel == FuelQuantitySum(logs[..i])
      invariant totalCost == FuelCostSum(logs[..i])
      invariant sum == MileageSum(logs[..i]) && count == MileageCount(logs[..i])
    {
      assert logs[..i + 1][..i] == logs[..i];
      totalFuel := totalFuel + logs[i].quantity;
      totalCost := totalCost + logs[i].cost;
      if HasMileage(logs[i]) {
        sum := sum + logs[i].mileage.value;
        count := count + 1;
      }
    }
    assert logs[..|logs|] == logs;
    avgMileage := if count > 0 then (sum as real / 100.0) / count as real else 0.0;
  }

  function ServiceCostSum(records: seq<ServiceRecord>): real
  {
    if records == [] then 0.0 else ServiceCostSum(records[..|records| - 1]) + records[|records| - 1].cost
  }

  /** service.php:127-130 and 177: the total cost of the listed records, and
      their average, shown only when there is at least one record. */
  method ServiceStats(records: seq<ServiceRecord>) returns (totalCost: real, average: Option<real>)
    ensures totalCost == ServiceCostSum(records)
    ensures average.Some? <==> |records| > 0
    ensures average.Some? ==> average.value * |records| as real == totalCost
  {
    totalCost := 0.0;
    for i := 0 to |records|
      invariant totalCost == ServiceCostSum(records[..i])
    {
      assert records[..i + 1][..i] == records[..i];
      totalCost := totalCost + records[i].cost;
    }
    assert records[..|records|] == records;
    average := if |records| > 0 then Some(totalCost / |records| as real) else None;
  }

  // ---------------------------------------------------------------- the tables

  /** The MySQL tables the pages write. Each AUTO_INCREMENT counter is above
      every id in use, so an INSERT never overwrites a row. The methods are
      the SQL statements; the page handlers below compose them. */
  class Database {
    var users: map<int, User>
    var bikes: map<int, Bike>
    var fuelLogs: map<int, FuelLog>
    var trips: map<int, Trip>
    var services: map<int, ServiceRecord>
    var reminders: map<int, Reminder>
    var nextUser: int
    var nextBike: int
    var nextFuel: int
    var nextTrip: int
    var nextService: int
    var nextReminder: int

    ghost predicate Valid()
      reads this
    {
      (forall k :: k in users ==> k < nextUser) &&
      (forall k :: k in bikes ==> k < nextBike) &&
      (forall k :: k in fuelLogs ==> k < nextFuel) &&
      (forall k :: k in trips ==> k < nextTrip) &&
      (forall k :: k in services ==> k < nextService) &&
      (forall k :: k in reminders ==> k < nextReminder)
    }

    constructor ()
      ensures Valid()
      ensures users == map[] && bikes == map[] && fuelLogs == map[] && trips == map[]
      ensures services == map[] && reminders == map[]
    {
      users, bikes, fuelLogs, trips, services, reminders := map[], map[], map[], map[], map[], map[];
      nextUser, nextBike, nextFuel, nextTrip, nextService, nextReminder := 1, 1, 1, 1, 1, 1;
    }

    // ------------------------------------------------------------ INSERT

    method InsertUser(row: User) returns (id: int)
      requires Valid()
      modifies this`users, this`nextUser
      ensures Valid() && id !in old(users) && users == old(users)[id := row]
    {
      id := nextUser;
      users := users[id := row];
      nextUser := nextUser + 1;
    }

    method InsertBike(row: Bike) returns (id: int)
      requires Valid()
      modifies this`bikes, this`nextBike
      ensures Valid() && id !in old(bikes) && bikes == old(bikes)[id := row]
    {
      id := nextBike;
      bikes := bikes[id := row];
      nextBike := nextBike + 1;
    }

    method InsertFuelLog(row: FuelLog) returns (id: int)
      requires Valid()
      modifies this`fuelLogs, this`nextFuel
      ensures Valid() && id !in old(fuelLogs) && fuelLogs == old(fuelLogs)[id := row]
    {
      id := nextFuel;
      fuelLogs := fuelLogs[id := row];
      nextFuel := nextFuel + 1;
    }

    method InsertTrip(row: Trip) returns (id: int)
      requires Valid()
      modifies this`trips, this`nextTrip
      ensures Valid() && id !in old(trips) && trips == old(trips)[id := row]
    {
      id := nextTrip;
      trips := trips[id := row];
      nextTrip := nextTrip + 1;
    }

    method InsertService(row: ServiceRecord) returns (id: int)
      requires Valid()
      modifies this`services, this`nextService
      ensures Valid() && id !in old(services) && services == old(services)[id := row]
    {
      id := nextService;
      services := services[id := row];
      nextService := nextService + 1;
    }

    method InsertReminder(row: Reminder) returns (id: int)
      requires Valid()
      modifies this`reminders, this`nextReminder
      ensures Valid() && id !in old(reminders) && reminders == old(reminders)[id := row]
    {
      id := nextReminder;
      reminders := reminders[id := row];
      nextReminder := nextReminder + 1;
    }

    /** `UPDATE users SET … WHERE user_id = ?`: the row is replaced when it exists. */
    method UpdateUserRow(id: int, row: User)
      requires Valid()
      modifies this`users
      ensures Valid()
      ensures users == if id in old(users) then old(users)[id := row] else old(users)
    {
      if id in users {
        users := users[id := row];
      }
    }

    // ------------------------------------------------------------ odometer UPDATEs

    /** fuel.php:53: the conditional raise. */
    method RaiseBikeOdometer(bikeId: int, user: int, reading: int)
      requires Valid()
      modifies this`bikes
      ensures Valid() && bikes == RaiseOdometer(old(bikes), bikeId, user, reading)
    {
      bikes := RaiseOdometer(bikes, bikeId, user, reading);
    }

    /** trips.php:35: the unconditional write. */
    method SetBikeOdometer(bikeId: int, user: int, value: int)
      requires Valid()
      modifies this`bikes
      ensures Valid() && bikes == OverwriteOdometer(old(bikes), bikeId, user, value)
    {
      bikes := OverwriteOdometer(bikes, bikeId, user, value);
    }

    // ------------------------------------------------------------ bikes.php

    /** update_bike: the owner's row gets the sanitised fields and the
        submitted odometer, with no comparison against the old one. */
    method UpdateBike(user: int, bikeId: int, form: BikeForm)
      requires Valid()
      modifies this`bikes
      ensures Valid()
      ensures bikes == ReviseOwned(old(bikes), (b: Bike) => b.owner, bikeId, user,
        (b: Bike) => b.(details := SanitizeDetails(form.details), currentOdometer := form.odometer))
      ensures bikeId in old(bikes) && old(bikes)[bikeId].owner == user ==> bikes[bikeId].currentOdometer == form.odometer
    {
      bikes := ReviseOwned(bikes, (b: Bike) => b.owner, bikeId, user,
        (b: Bike) => b.(details := SanitizeDetails(form.details), currentOdometer := form.odometer));
    }

    method DeleteBike(user: int, bikeId: int)
      requires Valid()
      modifies this`bikes
      ensures Valid()
      ensures bikes == RemoveOwned(old(bikes), (b: Bike) => b.owner, bikeId, user)
    {
      bikes := RemoveOwned(bikes, (b: Bike) => b.owner, bikeId, user);
    }

    // ------------------------------------------------------------ fuel.php

    /** update_fuel: the owner's log takes the submitted fields; its mileage is
        not recomputed and no odometer is touched. */
    method UpdateFuel(user: int, fuelId: int, form: FuelForm)
      requires Valid()
      modifies this`fuelLogs
      ensures Valid()
      ensures fuelLogs == ReviseOwned(old(fuelLogs), (f: FuelLog) => f.owner, fuelId, user,
        (f: FuelLog) => f.(bikeId := form.bikeId, fillDate := form.fillDate, reading := form.reading,
          quantity := form.quantity, cost := form.cost, pricePerLiter := form.pricePerLiter,
          fuelType := form.fuelType, fullTank := form.fullTank, station := SanitizeInput(form.station),
          notes := SanitizeInput(form.notes)))
    {
      fuelLogs := ReviseOwned(fuelLogs, (f: FuelLog) => f.owner, fuelId, user,
        (f: FuelLog) => f.(bikeId := form.bikeId, fillDate := form.fillDate, reading := form.reading,
          quantity := form.quantity, cost := form.cost, pricePerLiter := form.pricePerLiter,
          fuelType := form.fuelType, fullTank := form.fullTank, station := SanitizeInput(form.station),
          notes := SanitizeInput(form.notes)));
    }

    method DeleteFuel(user: int, fuelId: int)
      requires Valid()
      modifies this`fuelLogs
      ensures Valid()
      ensures fuelLogs == RemoveOwned(old(fuelLogs), (f: FuelLog) => f.owner, fuelId, user)
    {
      fuelLogs := RemoveOwned(fuelLogs, (f: FuelLog) => f.owner, fuelId, user);
    }

    // ------------------------------------------------------------ trips.php

    /** update_trip: same guard; the owner's trip takes the submitted fields;
        the odometer is never touched. */
    method UpdateTrip(user: int, tripId: int, form: TripForm) returns (accepted: bool)
      requires Valid()
      modifies this`trips
      ensures Valid()
      ensures accepted <==> form.end > form.start
      ensures !accepted ==> trips == old(trips)
      ensures accepted ==> trips == ReviseOwned(old(trips), (t: Trip) => t.owner, tripId, user,
        (t: Trip) => t.(bikeId := form.bikeId, date := form.date, start := form.start, end := form.end,
          startLocation := SanitizeInput(form.startLocation), endLocation := SanitizeInput(form.endLocation),
          purpose := form.purpose, notes := SanitizeInput(form.notes)))
    {
      if form.end <= form.start {
        return false;
      }
      trips := ReviseOwned(trips, (t: Trip) => t.owner, tripId, user,
        (t: Trip) => t.(bikeId := form.bikeId, date := form.date, start := form.start, end := form.end,
          startLocation := SanitizeInput(form.startLocation), endLocation := SanitizeInput(form.endLocation),
          purpose := form.purpose, notes := SanitizeInput(form.notes)));
      accepted := true;
    }

    method DeleteTrip(user: int, tripId: int)
      requires Valid()
      modifies this`trips
      ensures Valid()
      ensures trips == RemoveOwned(old(trips), (t: Trip) => t.owner, tripId, user)
    {
      trips := RemoveOwned(trips, (t: Trip) => t.owner, tripId, user);
    }

    // ------------------------------------------------------------ service.php

    /** update_service: the owner's record takes the submitted fields; no
        reminder is created or changed and the odometer is not touched. */
    method UpdateService(user: int, serviceId: int, form: ServiceForm)
      requires Valid()
      modifies this`services
      ensures Valid()
      ensures services == ReviseOwned(old(services), (s: ServiceRecord) => s.owner, serviceId, user,
        (s: ServiceRecord) => ServiceRecord(form.bikeId, s.owner, form.date, form.reading, form.serviceType,
          SanitizeInput(form.center), form.cost, SanitizeInput(form.parts), form.nextKm, form.nextDate,
          SanitizeInput(form.description), SanitizeInput(form.invoice)))
    {
      services := ReviseOwned(services, (s: ServiceRecord) => s.owner, serviceId, user,
        (s: ServiceRecord) => ServiceRecord(form.bikeId, s.owner, form.date, form.reading, form.serviceType,
          SanitizeInput(form.center), form.cost, SanitizeInput(form.parts), form.nextKm, form.nextDate,
          SanitizeInput(form.description), SanitizeInput(form.invoice)));
    }

    method DeleteService(user: int, serviceId: int)
      requires Valid()
      modifies this`services
      ensures Valid()
      ensures services == RemoveOwned(old(services), (s: ServiceRecord) => s.owner, serviceId, user)
    {
      services := RemoveOwned(services, (s: ServiceRecord) => s.owner, serviceId, user);
    }

    // ------------------------------------------------------------ reminders.php

    /** update_reminder: the owner's reminder takes the submitted fields; its
        completion state is kept. */
    method UpdateReminder(user: int, reminderId: int, form: ReminderForm)
      requires Valid()
      modifies this`reminders
      ensures Valid()
      ensures reminders == ReviseOwned(old(reminders), (r: Reminder) => r.owner, reminderId, user,
        (r: Reminder) => r.(bikeId := form.bikeId, kind := form.kind, title := SanitizeInput(form.title),
          description := SanitizeInput(form.description), dueDate := form.dueDate,
          dueOdometer := form.dueOdometer, priority := form.priority))
    {
      reminders := ReviseOwned(reminders, (r: Reminder) => r.owner, reminderId, user,
        (r: Reminder) => r.(bikeId := form.bikeId, kind := form.kind, title := SanitizeInput(form.title),
          description := SanitizeInput(form.description), dueDate := form.dueDate,
          dueOdometer := form.dueOdometer, priority := form.priority));
    }

    /** complete_reminder: the owner's reminder is marked completed today. */
    method CompleteReminder(user: int, reminderId: int, today: int)
      requires Valid()
      modifies this`reminders
      ensures Valid()
      ensures reminders == ReviseOwned(old(reminders), (r: Reminder) => r.owner, reminderId, user,
        (r: Reminder) => r.(completed := true, completedDate := Some(today)))
    {
      reminders := ReviseOwned(reminders, (r: Reminder) => r.owner, reminderId, user,
        (r: Reminder) => r.(completed := true, completedDate := Some(today)));
    }

    method DeleteReminder(user: int, reminderId: int)
      requires Valid()
      modifies this`reminders
      ensures Valid()
      ensures reminders == RemoveOwned(old(reminders), (r: Reminder) => r.owner, reminderId, user)
    {
      reminders := RemoveOwned(reminders, (r: Reminder) => r.owner, reminderId, user);
    }
  }

  // ---------------------------------------------------------------- page handlers (INSERT paths)

  /** add_bike (bikes.php): a new row owned by the user, every text field
      sanitised, the odometer as submitted, no odometer baseline. */
  method AddBike(db: Database, user: int, form: BikeForm, now: int) returns (id: int)
    requires db.Valid()
    modifies db`bikes, db`nextBike
    ensures db.Valid() && id !in old(db.bikes)
    ensures db.bikes == old(db.bikes)[id := Bike(user, SanitizeDetails(form.details), form.odometer, None, now)]
  {
    id := db.InsertBike(Bike(user, SanitizeDetails(form.details), form.odometer, None, now));
  }

  /** add_fuel (fuel.php): compute the mileage from the previous fill, insert
      the log (even for a bike the user does not own), then raise the owner's
      odometer to the new reading if it is higher. */
  method AddFuel(db: Database, user: int, form: FuelForm) returns (id: int, mileage: Option<int>)
    requires db.Valid()
    modifies db`fuelLogs, db`nextFuel, db`bikes
    ensures db.Valid() && id !in old(db.fuelLogs)
    ensures exists prev ::
      IsPreviousFill(old(db.fuelLogs), form.bikeId, form.reading, prev) &&
      mileage == FillMileage(PrevLog(old(db.fuelLogs), prev), form.reading)
    ensures db.fuelLogs == old(db.fuelLogs)[id := FuelLog(form.bikeId, user, form.fillDate, form.reading, form.quantity,
      form.cost, form.pricePerLiter, form.fuelType, form.fullTank, SanitizeInput(form.station), mileage, SanitizeInput(form.notes))]
    ensures db.bikes == RaiseOdometer(old(db.bikes), form.bikeId, user, form.reading)
  {
    var prev := FindPreviousFill(db.fuelLogs, form.bikeId, form.reading);
    mileage := FillMileage(PrevLog(db.fuelLogs, prev), form.reading);
    id := db.InsertFuelLog(FuelLog(form.bikeId, user, form.fillDate, form.reading, form.quantity,
      form.cost, form.pricePerLiter, form.fuelType, form.fullTank, SanitizeInput(form.station), mileage, SanitizeInput(form.notes)));
    db.RaiseBikeOdometer(form.bikeId, user, form.reading);
  }

  /** add_trip (trips.php): rejected, with nothing written, unless end >
      start; otherwise the trip is inserted and the owner's odometer is set to
      the end reading. */
  method AddTrip(db: Database, user: int, form: TripForm) returns (accepted: bool, id: int)
    requires db.Valid()
    modifies db`trips, db`nextTrip, db`bikes
    ensures db.Valid()
    ensures accepted <==> form.end > form.start
    ensures !accepted ==> db.trips == old(db.trips) && db.bikes == old(db.bikes)
    ensures accepted ==>
      id !in old(db.trips) &&
      db.trips == old(db.trips)[id := Trip(form.bikeId, user, form.date, form.start, form.end,
        SanitizeInput(form.startLocation), SanitizeInput(form.endLocation), form.purpose, SanitizeInput(form.notes))] &&
      db.bikes == OverwriteOdometer(old(db.bikes), form.bikeId, user, form.end)
  {
    if form.end <= form.start {
      return false, 0;
    }
    id := db.InsertTrip(Trip(form.bikeId, user, form.date, form.start, form.end,
      SanitizeInput(form.startLocation), SanitizeInput(form.endLocation), form.purpose, SanitizeInput(form.notes)));
    db.SetBikeOdometer(form.bikeId, user, form.end);
    accepted := true;
  }

  /** add_service (service.php): the record is inserted, then the derived
      reminder when the form asks for a next service. No odometer is touched. */
  method AddService(db: Database, user: int, form: ServiceForm, dateLabel: string) returns (id: int, reminderId: Option<int>)
    requires db.Valid()
    modifies db`services, db`nextService, db`reminders, db`nextReminder
    ensures db.Valid() && id !in old(db.services)
    ensures db.services == old(db.services)[id := NewServiceRecord(user, form)]
    ensures reminderId.Some? <==> DerivedReminder(user, form, dateLabel).Some?
    ensures reminderId.None? ==> db.reminders == old(db.reminders)
    ensures reminderId.Some? ==>
      reminderId.value !in old(db.reminders) &&
      db.reminders == old(db.reminders)[reminderId.value := DerivedReminder(user, form, dateLabel).value]
  {
    id := db.InsertService(NewServiceRecord(user, form));
    var derived := DerivedReminder(user, form, dateLabel);
    if derived.Some? {
      var rid := db.InsertReminder(derived.value);
      reminderId := Some(rid);
    } else {
      reminderId := None;
    }
  }

  /** add_reminder (reminders.php): a new, not completed reminder. */
  method AddReminder(db: Database, user: int, form: ReminderForm) returns (id: int)
    requires db.Valid()
    modifies db`reminders, db`nextReminder
    ensures db.Valid() && id !in old(db.reminders)
    ensures db.reminders == old(db.reminders)[id := Reminder(form.bikeId, user, form.kind, SanitizeInput(form.title),
      SanitizeInput(form.description), form.dueDate, form.dueOdometer, form.priority, false, None)]
  {
    id := db.InsertReminder(Reminder(form.bikeId, user, form.kind, SanitizeInput(form.title),
      SanitizeInput(form.description), form.dueDate, form.dueOdometer, form.priority, false, None));
  }

  /** 150 km on a 10-litre previous fill is 15.00 km/l. */
  lemma FifteenKmPerLitre(prev: FuelLog)
    requires prev.reading == 5000 && prev.quantity == 10.0
    ensures FillMileage(Some(prev), 5150) == Some(1500)
  {
    assert (5150 - prev.reading) as real / prev.quantity == 15.0;
  }

  /** Two fills on a bike of user 7 that stands at 5000 km with no fuel logged:
      the first, at 5000, has no mileage; the second, at 5150 after 10 litres,
      gets 15.00 km/l and lifts the odometer to 5150. */
  method TwoFills(db: Database, bike: int, text: string) returns (first: Option<int>, second: Option<int>)
    requires db.Valid() && db.fuelLogs == map[]
    requires bike in db.bikes && db.bikes[bike].owner == 7 && db.bikes[bike].currentOdometer == 5000
    modifies db`fuelLogs, db`nextFuel, db`bikes
    ensures db.Valid() && bike in db.bikes && db.bikes[bike].owner == 7
    ensures first.None? && second == Some(1500) && db.bikes[bike].currentOdometer == 5150
  {
    var a, b := 0, 0;
    a, first := AddFuel(db, 7, FuelForm(bike, 1, 5000, 10.0, 0.0, 0.0, text, true, text, text));
    ghost var p1 :| IsPreviousFill(map[], bike, 5000, p1) && first == FillMileage(PrevLog(map[], p1), 5000);
    FirstFillHasNoMileage(map[], bike, 5000, p1);
    ghost var log1 := db.fuelLogs[a];
    assert db.fuelLogs == map[a := log1];
    b, second := AddFuel(db, 7, FuelForm(bike, 2, 5150, 8.0, 0.0, 0.0, text, true, text, text));
    ghost var p2 :| IsPreviousFill(map[a := log1], bike, 5150, p2) && second == FillMileage(PrevLog(map[a := log1], p2), 5150);
    PreviousIsLastOfIncreasing(map[a := log1], bike, a, 5150, p2);
    FifteenKmPerLitre(log1);
  }

  /** The worked example: a bike at 5000 km gets the two fills above; a trip
      from 5150 to 5100 is then rejected and the odometer stays at 5150.
      Every text field holds `text`. */
  method LedgerScenario(text: string) returns (first: Option<int>, second: Option<int>, tripAccepted: bool, odometer: int)
    ensures first.None? && second == Some(1500) && !tripAccepted && odometer == 5150
  {
    var db := new Database();
    var details := BikeDetails(text, text, text, text, text, text, text, text, text);
    var bike := db.InsertBike(Bike(7, details, 5000, None, 0));
    first, second := TwoFills(db, bike, text);
    var t;
    tripAccepted, t := AddTrip(db, 7, TripForm(bike, 3, 5150, 5100, text, text, text, text));
    odometer := db.bikes[bike].currentOdometer;
  }
}
