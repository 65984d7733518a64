/** dashboard.php: which bike is shown, the baseline odometer and the
    distance driven since tracking began, the cost per kilometre and the
    day label of each pending reminder. */
module Dashboard {
  import opened Php
  import opened Config
  import opened Ledger
  import Urgency

  // ---------------------------------------------------------------- bike selection

  /** The user's bikes as `ORDER BY created_at DESC` lists them. */
  predicate NewestFirst(listed: seq<(int, Bike)>) {
    forall i, j :: 0 <= i < j < |listed| ==> listed[i].1.createdAt >= listed[j].1.createdAt
  }

  /** `$_GET['bike_id']` when given, else the first listed bike, else none. */
  function SelectedBike(requested: Option<int>, listed: seq<(int, Bike)>): (r: Option<int>)
    ensures requested.Some? ==> r == requested
    ensures requested.None? ==> (r.Some? <==> listed != [])
    ensures requested.None? && r.Some? ==> exists i :: 0 <= i < |listed| && listed[i].0 == r.value
  {
    if requested.Some? then requested
    else if listed != [] then Some(listed[0].0)
    else None
  }

  /** With no bike requested, the dashboard shows the most recently added bike. */
  lemma {:induction false} SelectsNewest(listed: seq<(int, Bike)>)
    requires NewestFirst(listed) && listed != []
    ensures SelectedBike(None, listed) == Some(listed[0].0)
    ensures forall j :: 0 <= j < |listed| ==> listed[0].1.createdAt >= listed[j].1.createdAt
  {
    forall j | 0 <= j < |listed|
      ensures listed[0].1.createdAt >= listed[j].1.createdAt
    {
      if j > 0 {
        assert 0 <= 0 < j < |listed|;
      }
    }
  }

  /** `SELECT * FROM bikes WHERE bike_id = ? AND user_id = ?`, run only when the
      selected id is truthy: another user's bike is never shown. */
  function CurrentBike(bikes: map<int, Bike>, selected: Option<int>, user: int): (r: Option<Bike>)
    ensures r.Some? <==> selected.Some? && selected.value != 0 && selected.value in bikes && bikes[selected.value].owner == user
    ensures r.Some? ==> r.value == bikes[selected.value] && r.value.owner == user
  {
    if selected.Some? && selected.value != 0 && selected.value in bikes && bikes[selected.value].owner == user
    then Some(bikes[selected.value])
    else None
  }

  // ---------------------------------------------------------------- baseline odometer

  /** The rows of the `UNION ALL` subquery: trip start readings and fuel
      readings of the bike. The subquery filters by bike only, not by owner. */
  function BaselineReadings(trips: seq<Trip>, logs: seq<FuelLog>, bikeId: int): (r: seq<int>)
    ensures forall x :: x in r <==>
      (exists t :: t in trips && t.bikeId == bikeId && t.start == x) ||
      (exists f :: f in logs && f.bikeId == bikeId && f.reading == x)
  {
    TripStarts(trips, bikeId) + FuelReadings(logs, bikeId)
  }

  function TripStarts(trips: seq<Trip>, bikeId: int): (r: seq<int>)
    ensures forall x :: x in r <==> exists t :: t in trips && t.bikeId == bikeId && t.start == x
  {
    if trips == [] then []
    else
      var rest := TripStarts(trips[1..], bikeId);
      assert forall t :: t in trips <==> t == trips[0] || t in trips[1..];
      if trips[0].bikeId == bikeId then [trips[0].start] + rest else rest
  }

  function FuelReadings(logs: seq<FuelLog>, bikeId: int): (r: seq<int>)
    ensures forall x :: x in r <==> exists f :: f in logs && f.bikeId == bikeId && f.reading == x
  {
    if logs == [] then []
    else
      var rest := FuelReadings(logs[1..], bikeId);
      assert forall f :: f in logs <==> f == logs[0] || f in logs[1..];
      if logs[0].bikeId == bikeId then [logs[0].reading] + rest else rest
  }

  /** SQL MIN over a non-empty column. */
  function Min(xs: seq<int>): (m: int)
    requires xs != []
    ensures m in xs
    ensures forall x :: x in xs ==> m <= x
  {
    if |xs| == 1 then xs[0]
    else
      var rest := Min(xs[1..]);
      assert forall x :: x in xs <==> x == xs[0] || x in xs[1..];
      if xs[0] <= rest then xs[0] else rest
  }

  /** The baseline: the stored initial odometer when it is set and positive;
      otherwise the smallest reading of the bike's trips and fuel logs;
      otherwise (`?? $current_odometer`) the current odometer itself. */
  function InitialOdometer(bike: Bike, readings: seq<int>): (r: int)
    ensures bike.initialOdometer.Some? && bike.initialOdometer.value > 0 ==> r == bike.initialOdometer.value
    ensures !(bike.initialOdometer.Some? && bike.initialOdometer.value > 0) && readings != [] ==>
      r in readings && forall x :: x in readings ==> r <= x
    ensures !(bike.initialOdometer.Some? && bike.initialOdometer.value > 0) && readings == [] ==>
      r == bike.currentOdometer
  {
    if bike.initialOdometer.Some? && bike.initialOdometer.value > 0 then bike.initialOdometer.value
    else if readings != [] then Min(readings)
    else bike.currentOdometer
  }

  /** `$total_distance_driven = $current_odometer - $initial_odometer`, unclamped. */
  function DistanceDriven(bike: Bike, readings: seq<int>): (d: int)
    ensures d + InitialOdometer(bike, readings) == bike.currentOdometer
  {
    bike.currentOdometer - InitialOdometer(bike, readings)
  }

  /** A bike with no stored baseline and no history has driven 0 km. */
  lemma NoHistoryNoDistance(bike: Bike)
    requires bike.initialOdometer.None? || bike.initialOdometer.value <= 0
    ensures DistanceDriven(bike, []) == 0
  {
  }

  /** The distance is never negative as long as no reading, and no stored
      baseline, lies above the current odometer. */
  lemma DistanceNonNegative(bike: Bike, readings: seq<int>)
    requires bike.initialOdometer.Some? && bike.initialOdometer.value > 0 ==> bike.initialOdometer.value <= bike.currentOdometer
    requires forall x :: x in readings ==> x <= bike.currentOdometer
    ensures DistanceDriven(bike, readings) >= 0
  {
    if !(bike.initialOdometer.Some? && bike.initialOdometer.value > 0) && readings != [] {
      var m := InitialOdometer(bike, readings);
      assert m in readings;
    }
  }

  /** Nothing clamps it, though: a trip that writes back a lower end reading
      (trips.php:35) leaves the bike below its earliest fuel reading, and the
      dashboard then shows a negative distance. */
  lemma DistanceCanBeNegative()
    ensures var bike := Bike(7, BikeDetails("", "", "", "", "", "", "", "", ""), 4800, None, 0);
      DistanceDriven(bike, [5000, 5150]) == -200
  {
    var bike := Bike(7, BikeDetails("", "", "", "", "", "", "", "", ""), 4800, None, 0);
    assert InitialOdometer(bike, [5000, 5150]) == 5000;
  }

  /** `$total_distance_driven > 0 ? (fuel + service) / distance : 0`, where a
      NULL sum (no rows) counts as 0 in PHP arithmetic. */
  function CostPerKm(fuelCost: Option<real>, serviceCost: Option<real>, distance: int): (c: real)
    ensures distance > 0 ==> c * distance as real == fuelCost.GetOr(0.0) + serviceCost.GetOr(0.0)
    ensures distance <= 0 ==> c == 0.0
  {
    if distance > 0 then (fuelCost.GetOr(0.0) + serviceCost.GetOr(0.0)) / distance as real else 0.0
  }

  // ---------------------------------------------------------------- reminder label

  /** The label's CSS class; `Plain` is the empty class. */
  datatype LabelClass = LabelOverdue | LabelUrgent | LabelWarning | Plain

  /** The pending reminder's label on the dashboard: none without a due date;
      otherwise 'Overdue', 'Today' or 'N days left', with the classes
      'overdue', 'urgent', 'warning' (within REMINDER_WARNING_DAYS) or none. */
  function DayLabel(due: Option<int>, now: int): (l: (string, LabelClass))
    ensures due.None? ==> l == ("", Plain)
    ensures due.Some? ==> l.0 != ""
    ensures due.Some? && Urgency.DaysUntil(due.value, now) < 0 ==> l.0 == "Overdue"
    ensures due.Some? && Urgency.DaysUntil(due.value, now) == 0 ==> l.0 == "Today"
    ensures due.Some? && Urgency.DaysUntil(due.value, now) > 0 ==>
      l.0 == NatToString(Urgency.DaysUntil(due.value, now)) + " days left"
  {
    if due.None? then ("", Plain)
    else
      var days := Urgency.DaysUntil(due.value, now);
      if days < 0 then ("Overdue", LabelOverdue)
      else if days == 0 then ("Today", LabelUrgent)
      else if days <= REMINDER_WARNING_DAYS then (NatToString(days) + " days left", LabelWarning)
      else (NatToString(days) + " days left", Plain)
  }

  /** The dashboard label and the reminders page badge agree on every dated
      reminder: overdue with overdue, 'urgent' with 'due-today', 'warning' with
      'due-soon', and no class with 'upcoming'. */
  lemma DayLabelMatchesDateStatus(due: int, now: int)
    ensures var cls := DayLabel(Some(due), now).1;
      var s := Urgency.DateStatus(Urgency.DaysUntil(due, now)).cls;
      (cls == LabelOverdue <==> s == Urgency.Overdue) &&
      (cls == LabelUrgent <==> s == Urgency.DueToday) &&
      (cls == LabelWarning <==> s == Urgency.DueSoon) &&
      (cls == Plain <==> s == Urgency.Upcoming)
  {
  }

  /** A reminder overdue on the dashboard is one whose due moment has passed. */
  lemma LabelOverdueIffPast(due: int, now: int)
    ensures DayLabel(Some(due), now).1 == LabelOverdue <==> due < now
  {
  }
}
