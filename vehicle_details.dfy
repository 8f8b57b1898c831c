/**
 * The figures src/components/VehicleDetails.js derives for one vehicle from
 * the trip list the API returns: the vehicle's trips, their average mileage
 * and totals, the days since the last service, the service badge with its
 * recommendation, and the labels the page shows for them. Dates are whole
 * day numbers and `today` stands for `new Date()`.
 */
module VehicleDetails {
  import opened Wrappers
  import opened Seqs
  import opened Http
  import opened Db
  import opened TripRoutes
  import Dashboard

  // ----- The vehicle's trips -----

  /** `trip.vehicle_id === parseInt(id)`; an id that does not parse (NaN) matches no trip. */
  function OnVehicle(id: Option<int>): TripView -> bool {
    (x: TripView) => id.Some? && x.trip.vehicleId == id.value
  }

  /** `tripsRes.data.filter(...)`: the listed trips of the vehicle in the route, in list order. */
  function VehicleTrips(trips: seq<TripView>, id: Option<int>): (r: seq<TripView>)
    ensures forall x :: x in r <==> x in trips && id.Some? && x.trip.vehicleId == id.value
    ensures id.None? ==> r == []
  {
    var r := Filter(trips, OnVehicle(id));
    FilterEmpty(trips, OnVehicle(id));
    r
  }

  function ViewTrip(x: TripView): Trip { x.trip }

  /** `trip.efficiency || 0`: a trip without an efficiency counts as 0. */
  function Mileage(x: TripView): real { x.trip.efficiency.GetOr(0.0) }

  /** `trip.distance_km || 0`. */
  function ViewDistance(x: TripView): real { x.trip.distance }

  /** `trip.fuel_used_ltr || 0`. */
  function ViewFuel(x: TripView): real { x.trip.fuel }

  /** `avgMileage`: the mean mileage over the trips, `null` without trips. */
  function AvgMileage(trips: seq<TripView>): (r: Option<real>)
    ensures r.None? <==> trips == []
    ensures r.Some? ==> r.value * |trips| as real == SumOf(trips, Mileage)
  {
    if |trips| > 0 then Some(SumOf(trips, Mileage) / |trips| as real) else None
  }

  function TotalDistance(trips: seq<TripView>): real { SumOf(trips, ViewDistance) }

  function TotalFuel(trips: seq<TripView>): real { SumOf(trips, ViewFuel) }

  function ValueOrZero(x: Option<real>): real { x.GetOr(0.0) }

  lemma {:induction false} PresentAllSome(xs: seq<Option<real>>)
    requires forall x :: x in xs ==> x.Some?
    ensures |Dashboard.Present(xs)| == |xs|
    ensures Sum(Dashboard.Present(xs)) == SumOf(xs, ValueOrZero)
  {
    if xs != [] {
      assert forall x :: x in xs[1..] ==> x in xs;
      PresentAllSome(xs[1..]);
      assert xs[0] in xs;
      var vs := Dashboard.Present(xs);
      assert vs == [xs[0].value] + Dashboard.Present(xs[1..]);
      assert vs[1..] == Dashboard.Present(xs[1..]);
    }
  }

  lemma {:induction false} EfficienciesSum(trips: seq<TripView>)
    ensures SumOf(Map(Map(trips, ViewTrip), Dashboard.TripEfficiency), ValueOrZero) == SumOf(trips, Mileage)
  {
    if trips != [] {
      var xs := Map(Map(trips, ViewTrip), Dashboard.TripEfficiency);
      assert xs[1..] == Map(Map(trips[1..], ViewTrip), Dashboard.TripEfficiency);
      EfficienciesSum(trips[1..]);
    }
  }

  /**
   * When every trip has an efficiency, the page's average is exactly the
   * `AVG(efficiency)` the API computes over the same trips; only missing
   * efficiencies (which the page counts as 0 and SQL skips) set them apart.
   */
  lemma AvgMileageMatchesSql(trips: seq<TripView>)
    requires trips != [] && forall x :: x in trips ==> x.trip.efficiency.Some?
    ensures AvgMileage(trips) == Dashboard.AvgEfficiency(Map(trips, ViewTrip))
  {
    var xs := Map(Map(trips, ViewTrip), Dashboard.TripEfficiency);
    assert forall x :: x in xs ==> x.Some?;
    PresentAllSome(xs);
    EfficienciesSum(trips);
  }

  lemma {:induction false} SumOfNoMileage(trips: seq<TripView>)
    requires forall x :: x in trips ==> x.trip.efficiency.None?
    ensures SumOf(trips, Mileage) == 0.0
  {
    if trips != [] {
      assert trips[0] in trips;
      assert forall x :: x in trips[1..] ==> x in trips;
      SumOfNoMileage(trips[1..]);
    }
  }

  /**
   * The page's totals over a vehicle's trips are the `SUM(distance_km)` and
   * `SUM(fuel_used_ltr)` over that vehicle's rows of the same trip list, as
   * the vehicle-performance report sums them.
   */
  lemma {:induction false} VehicleTotalsMatchSql(trips: seq<TripView>, id: int)
    ensures TotalDistance(VehicleTrips(trips, Some(id))) == SumOf(TripsOfVehicle(Map(trips, ViewTrip), id), Dashboard.TripDistance)
    ensures TotalFuel(VehicleTrips(trips, Some(id))) == SumOf(TripsOfVehicle(Map(trips, ViewTrip), id), Dashboard.TripFuel)
  {
    if trips != [] {
      var x := trips[0];
      var ts := Map(trips, ViewTrip);
      var tail := trips[1..];
      assert ts[0] == x.trip && ts[1..] == Map(tail, ViewTrip);
      VehicleTotalsMatchSql(tail, id);
      var mine := VehicleTrips(trips, Some(id));
      var rest := VehicleTrips(tail, Some(id));
      var rows := TripsOfVehicle(ts, id);
      var restRows := TripsOfVehicle(Map(tail, ViewTrip), id);
      if x.trip.vehicleId == id {
        assert mine == [x] + rest;
        assert rows == [x.trip] + restRows;
        assert mine[1..] == rest && rows[1..] == restRows;
      } else {
        assert mine == rest;
        assert rows == restRows;
      }
    }
  }

  // ----- Service -----

  /**
   * `Math.floor((new Date() - new Date(last_service_date)) / day)`, `null`
   * without a service date.
   */
  function DaysSinceService(lastService: Option<int>, today: int): (r: Option<int>)
    ensures r.None? <==> lastService.None?
  {
    if lastService.Some? then Some(today - lastService.value) else None
  }

  /** The page counts the days since service as the maintenance reminders do. */
  lemma DaysMatchReminders(v: Vehicle, today: int, threshold: int)
    ensures DaysSinceService(v.lastService, today) == Dashboard.ReminderOf(today, threshold)(v).daysSinceService
  {
  }

  const NO_RECORD := "No Service Record"
  const DUE := "Due for Service"
  const DUE_SOON := "Service Due Soon"
  const UP_TO_DATE := "Service Up to Date"

  /** The status badge: no record, more than 90 days, more than 60 days, otherwise up to date. */
  function ServiceBadge(days: Option<int>): (r: string)
    ensures r == NO_RECORD <==> days.None?
    ensures r == DUE <==> days.Some? && days.value > 90
    ensures r == DUE_SOON <==> days.Some? && 60 < days.value <= 90
    ensures r == UP_TO_DATE <==> days.Some? && days.value <= 60
  {
    if days.None? then NO_RECORD
    else if days.value > 90 then DUE
    else if days.value > 60 then DUE_SOON
    else UP_TO_DATE
  }

  /** How pressing a badge is: up to date, due soon, due. */
  function Urgency(badge: string): nat {
    if badge == DUE then 2 else if badge == DUE_SOON then 1 else 0
  }

  /** A vehicle serviced longer ago never gets a less pressing badge. */
  lemma BadgeMonotone(d1: int, d2: int)
    requires d1 <= d2
    ensures Urgency(ServiceBadge(Some(d1))) <= Urgency(ServiceBadge(Some(d2)))
  {
  }

  const SCHEDULE_INITIAL := "Schedule initial service"
  const OVERDUE := "Service overdue - schedule immediately"
  const WITHIN_30_DAYS := "Service recommended within 30 days"
  const IN_30_TO_60_DAYS := "Next service recommended in 30-60 days"

  /** The recommendation under the badge. */
  function Recommendation(days: Option<int>): (r: string)
    ensures days.None? ==> r == SCHEDULE_INITIAL
    ensures days.Some? && days.value > 90 ==> r == OVERDUE
    ensures days.Some? && 60 < days.value <= 90 ==> r == WITHIN_30_DAYS
    ensures days.Some? && days.value <= 60 ==> r == IN_30_TO_60_DAYS
  {
    if days.None? then SCHEDULE_INITIAL
    else if days.value > 90 then OVERDUE
    else if days.value > 60 then WITHIN_30_DAYS
    else IN_30_TO_60_DAYS
  }

  /** The recommendation that goes with each badge. */
  function AdviceFor(badge: string): string {
    if badge == NO_RECORD then SCHEDULE_INITIAL
    else if badge == DUE then OVERDUE
    else if badge == DUE_SOON then WITHIN_30_DAYS
    else IN_30_TO_60_DAYS
  }

  /** The recommendation follows the same four-way split as the badge. */
  lemma RecommendationFollowsBadge(days: Option<int>)
    ensures Recommendation(days) == AdviceFor(ServiceBadge(days))
  {
  }

  /**
   * Whatever the page flags (due or due soon) the maintenance reminders
   * with their default 30-day threshold flag too; the converse fails, for
   * a vehicle last serviced 45 days ago.
   */
  lemma BadgeWithinReminders(last: int, today: int)
    requires Urgency(ServiceBadge(DaysSinceService(Some(last), today))) > 0
    ensures Dashboard.ReminderStatus(Some(last), today, Dashboard.DaysThreshold(None)) == Dashboard.DUE_FOR_SERVICE
  {
  }

  lemma RemindersFlagEarlier()
    ensures Dashboard.ReminderStatus(Some(0), 45, Dashboard.DaysThreshold(None)) == Dashboard.DUE_FOR_SERVICE
    ensures ServiceBadge(DaysSinceService(Some(0), 45)) == UP_TO_DATE
  {
  }

  // ----- Labels -----

  const TODAY := "Today"
  const DAYS_AGO := " days ago"

  /** The line under the service date: nothing without one, `N days ago`, or `Today` for 0 days or fewer. */
  function DaysLabel(days: Option<int>): (r: Option<string>)
    ensures r.None? <==> days.None?
    ensures r == Some(TODAY) <==> days.Some? && days.value <= 0
    ensures days.Some? && days.value > 0 ==> r == Some(NatText(days.value) + DAYS_AGO)
  {
    if days.None? then None
    else if days.value > 0 then Some(NatText(days.value) + DAYS_AGO)
    else Some(TODAY)
  }

  /** The count in an `N days ago` label reads back as the days since service. */
  lemma DaysLabelReadsBack(days: int)
    requires days > 0
    ensures var l := DaysLabel(Some(days)).value;
      |l| > |DAYS_AGO| && DigitsValue(l[..|l| - |DAYS_AGO|]) == days
  {
    var l := DaysLabel(Some(days)).value;
    assert l[..|l| - |DAYS_AGO|] == NatText(days);
    NatTextValue(days);
  }

  const NO_TRIPS := "No trips recorded"
  const KM_PER_L := " km/L"

  /** `avgMileage ? `${avgMileage.toFixed(2)} km/L` : 'No trips recorded'`: a zero average reads as no trips. */
  function MileageLabel(avg: Option<real>, fixed2: real -> string): (r: string)
    ensures avg.Some? && avg.value != 0.0 ==> r == fixed2(avg.value) + KM_PER_L
    ensures avg.None? || avg.value == 0.0 ==> r == NO_TRIPS
  {
    if avg.Some? && avg.value != 0.0 then fixed2(avg.value) + KM_PER_L else NO_TRIPS
  }

  /**
   * A vehicle whose trips all lack an efficiency shows "No trips recorded"
   * above a non-zero trip count, since missing efficiencies average to 0.
   */
  lemma NoTripsLabelWithTrips(trips: seq<TripView>, fixed2: real -> string)
    requires trips != [] && forall x :: x in trips ==> x.trip.efficiency.None?
    ensures MileageLabel(AvgMileage(trips), fixed2) == NO_TRIPS
  {
    SumOfNoMileage(trips);
  }
}
