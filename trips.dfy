/**
 * The handlers of routes/trips.js. No route checks a role with
 * `authorizeRoles`: drivers are scoped to their own trips and every other
 * role sees all of them.
 */
module TripRoutes {
  import opened Wrappers
  import opened Seqs
  import opened Http
  import opened Db

  const TRIP_NOT_FOUND := "Trip not found"
  const NOT_FOUND_OR_DENIED := "Trip not found or access denied"
  const ALL_FIELDS := "All fields are required"
  const MUST_BE_POSITIVE := "Distance, fuel, and time must be positive numbers"
  const VEHICLE_NOT_FOUND := "Vehicle not found"
  const SERVER_ERROR := "Server error"
  const DELETED := "Trip deleted successfully"

  /** A trip row with its driver's name and its vehicle's number and model. */
  datatype TripView = TripView(trip: Trip, driverName: string, vehicleNumber: string, model: string)

  /** The inner JOIN of a trip with `users` and `vehicles`: nothing when either row is missing. */
  function Joined(t: Tables, trip: Trip): (r: Option<TripView>)
    ensures r.Some? <==> FindUser(t.users, trip.driverId).Some? && FindVehicle(t.vehicles, trip.vehicleId).Some?
    ensures r.Some? ==> r.value.trip == trip
  {
    match FindUser(t.users, trip.driverId)
    case None => None
    case Some(u) =>
      match FindVehicle(t.vehicles, trip.vehicleId)
      case None => None
      case Some(v) => Some(TripView(trip, u.name, v.number, v.model))
  }

  /** `ORDER BY t.trip_date DESC`. */
  predicate LaterTrip(a: TripView, b: TripView) { a.trip.date >= b.trip.date }

  /** Whether the caller may see a trip: drivers see their own, every other role all. */
  predicate Visible(p: Principal, trip: Trip) {
    p.role != DRIVER || trip.driverId == p.userId
  }

  /** The trips the caller may see, in table order. */
  function VisibleTrips(t: Tables, p: Principal): (r: seq<Trip>)
    ensures forall trip :: trip in r <==> trip in t.trips && Visible(p, trip)
  {
    Filter(t.trips, (trip: Trip) => Visible(p, trip))
  }

  /** The JOIN as a function of the trip. */
  function TripJoin(t: Tables): Trip -> Option<TripView> {
    (trip: Trip) => Joined(t, trip)
  }

  /**
   * `GET /`: the visible trips joined with driver and vehicle, newest first:
   * one row for each visible trip whose driver and vehicle exist.
   */
  function ListTrips(t: Tables, p: Principal): (r: Reply<seq<TripView>>)
    ensures r.Success? && r.status == Ok
    ensures |r.body| == |Filter(VisibleTrips(t, p), Defined(TripJoin(t)))|
    ensures forall v :: v in r.body ==> v.trip in t.trips && Visible(p, v.trip) && Joined(t, v.trip) == Some(v)
    ensures p.role == DRIVER ==> forall v :: v in r.body ==> v.trip.driverId == p.userId
    ensures forall trip :: trip in t.trips && Visible(p, trip) && Joined(t, trip).Some? ==> Joined(t, trip).value in r.body
    ensures Pairwise(r.body, LaterTrip)
  {
    var rows := Collect(VisibleTrips(t, p), TripJoin(t));
    Success(Ok, SortBy(rows, LaterTrip))
  }

  /** `SELECT * FROM trips WHERE trip_id = ? AND driver_id = ?`. */
  function FindOwnTrip(ts: seq<Trip>, id: int, driverId: int): (r: Option<Trip>)
    ensures r.Some? ==> r.value in ts && r.value.id == id && r.value.driverId == driverId
    ensures r.None? <==> forall trip :: trip in ts ==> !(trip.id == id && trip.driverId == driverId)
  {
    if ts == [] then None
    else if ts[0].id == id && ts[0].driverId == driverId then Some(ts[0])
    else FindOwnTrip(ts[1..], id, driverId)
  }

  /** The lookup every single-trip handler starts with: scoped to the caller for drivers. */
  function ScopedTrip(ts: seq<Trip>, p: Principal, id: int): (r: Option<Trip>)
    ensures r.Some? ==> r.value in ts && r.value.id == id && Visible(p, r.value)
    ensures r.None? <==> forall trip :: trip in ts && trip.id == id ==> !Visible(p, trip)
  {
    if p.role == DRIVER then FindOwnTrip(ts, id, p.userId) else FindTrip(ts, id)
  }

  /**
   * For a driver, a trip of another driver is looked up exactly as if it
   * did not exist: the scoped lookup of a store holding it and of the store
   * without it both find nothing.
   */
  lemma OthersTripLooksAbsent(ts: seq<Trip>, next: int, p: Principal, trip: Trip)
    requires TripsValid(ts, next) && trip in ts
    requires p.role == DRIVER && trip.driverId != p.userId
    ensures ScopedTrip(ts, p, trip.id) == None
    ensures ScopedTrip(TripsWithout(ts, trip.id), p, trip.id) == None
  {
    forall w | w in ts && w.id == trip.id
      ensures !Visible(p, w)
    {
      TripIdUnique(ts, next, w, trip);
    }
  }

  /** The scoped lookup finds the row that `WHERE trip_id = ?` alone would find. */
  lemma ScopedTripIsTrip(ts: seq<Trip>, next: int, p: Principal, id: int)
    requires TripsValid(ts, next) && ScopedTrip(ts, p, id).Some?
    ensures FindTrip(ts, id) == ScopedTrip(ts, p, id)
  {
    var found := ScopedTrip(ts, p, id).value;
    TripIdUnique(ts, next, FindTrip(ts, id).value, found);
  }

  /**
   * `GET /:id`: the scoped, joined trip; a driver asking for another
   * driver's trip gets the same 404 as for a trip that does not exist.
   */
  function GetTrip(t: Tables, p: Principal, id: int): (r: Reply<TripView>)
    ensures r.Success? ==> r.status == Ok && r.body.trip in t.trips && r.body.trip.id == id && Visible(p, r.body.trip)
    ensures r.Success? <==> ScopedTrip(t.trips, p, id).Some? && Joined(t, ScopedTrip(t.trips, p, id).value).Some?
    ensures !r.Success? ==> r == Failure(NotFound, TRIP_NOT_FOUND)
  {
    match ScopedTrip(t.trips, p, id)
    case None => Failure(NotFound, TRIP_NOT_FOUND)
    case Some(trip) =>
      match Joined(t, trip)
      case None => Failure(NotFound, TRIP_NOT_FOUND)
      case Some(v) => Success(Ok, v)
  }

  /** A driver gets the same reply for another driver's trip as for a missing trip. */
  lemma GetOthersTripIsNotFound(t: Tables, next: int, p: Principal, trip: Trip)
    requires TripsValid(t.trips, next) && trip in t.trips
    requires p.role == DRIVER && trip.driverId != p.userId
    ensures GetTrip(t, p, trip.id) == GetTrip(t.(trips := TripsWithout(t.trips, trip.id)), p, trip.id)
    ensures GetTrip(t, p, trip.id) == Failure(NotFound, TRIP_NOT_FOUND)
  {
    OthersTripLooksAbsent(t.trips, next, p, trip);
  }

  /**
   * The driver a new trip is recorded for: the caller, unless an admin or
   * manager names another driver with a truthy `driver_id`.
   */
  function TripDriver(p: Principal, driverId: Field<int>): (r: int)
    ensures p.role != ADMIN && p.role != MANAGER ==> r == p.userId
    ensures (p.role == ADMIN || p.role == MANAGER) && TruthyId(driverId) ==> r == driverId.v
    ensures (p.role == ADMIN || p.role == MANAGER) && !TruthyId(driverId) ==> r == p.userId
  {
    if p.role == ADMIN || p.role == MANAGER then
      if TruthyId(driverId) then driverId.v else p.userId
    else p.userId
  }

  /** Every field of `POST /` is truthy (a `0` is as missing as an absent field). */
  predicate AllPresent(vehicleId: Field<int>, start: Field<string>, end: Field<string>,
                       distance: Field<Num>, fuel: Field<Num>, time: Field<Num>)
  {
    TruthyId(vehicleId) && TruthyText(start) && TruthyText(end) && TruthyNum(distance) && TruthyNum(fuel) && TruthyNum(time)
  }

  /** The three numbers parse, and none of them is zero or negative. */
  predicate AllPositive(distance: Option<real>, fuel: Option<real>, time: Option<real>) {
    distance.Some? && fuel.Some? && time.Some? && distance.value > 0.0 && fuel.value > 0.0 && time.value > 0.0
  }

  /**
   * `POST /`: validate the body, require the vehicle, compute the
   * efficiency and record the trip; the reply is the joined row, which is
   * empty when the chosen driver is not a user.
   */
  method CreateTrip(db: Database, p: Principal, vehicleId: Field<int>, start: Field<string>, end: Field<string>,
                    distance: Field<Num>, fuel: Field<Num>, time: Field<Num>, driverId: Field<int>,
                    parse: string -> Option<real>, now: int)
    returns (r: Reply<Option<TripView>>)
    requires db.Valid()
    modifies db
    ensures db.Valid()
    ensures !AllPresent(vehicleId, start, end, distance, fuel, time) ==>
      r == Failure(BadRequest, ALL_FIELDS) && unchanged(db)
    ensures AllPresent(vehicleId, start, end, distance, fuel, time) ==>
      var d, f, h := ParseFloat(distance, parse), ParseFloat(fuel, parse), ParseFloat(time, parse);
      if !AllPositive(d, f, h) then
        r == Failure(BadRequest, MUST_BE_POSITIVE) && unchanged(db)
      else if FindVehicle(old(db.vehicles), vehicleId.v).None? then
        r == Failure(NotFound, VEHICLE_NOT_FOUND) && unchanged(db)
      else
        var trip := Trip(old(db.sequence.trip), TripDriver(p, driverId), vehicleId.v, start.v, end.v,
                         d.value, f.value, h.value, Some(d.value / f.value), now);
        && r == Success(Created, Joined(db.Snapshot(), trip))
        && db.Snapshot() == old(db.Snapshot()).(trips := old(db.trips) + [trip])
        && db.sequence == old(db.sequence).(trip := old(db.sequence.trip) + 1)
  {
    if !AllPresent(vehicleId, start, end, distance, fuel, time) {
      return Failure(BadRequest, ALL_FIELDS);
    }
    var d, f, h := ParseFloat(distance, parse), ParseFloat(fuel, parse), ParseFloat(time, parse);
    if !AllPositive(d, f, h) {
      return Failure(BadRequest, MUST_BE_POSITIVE);
    }
    if FindVehicle(db.vehicles, vehicleId.v).None? {
      return Failure(NotFound, VEHICLE_NOT_FOUND);
    }
    var efficiency := d.value / f.value;
    var driver := TripDriver(p, driverId);
    var res := db.InsertTrip(driver, vehicleId.v, start.v, end.v, d.value, f.value, h.value, Some(efficiency), now);
    var trip := Trip(res.lastId, driver, vehicleId.v, start.v, end.v, d.value, f.value, h.value, Some(efficiency), now);
    FindTripAppended(old(db.trips), trip);
    var created := FindTrip(db.trips, res.lastId);
    r := Success(Created, Joined(db.Snapshot(), created.value));
  }

  /** `field !== undefined ? parseFloat(field) : current`, `None` standing for NaN. */
  function FinalNumber(f: Field<Num>, current: real, parse: string -> Option<real>): (r: Option<real>)
    ensures f.Undefined? ==> r == Some(current)
    ensures f.Null? ==> r == None
    ensures f.Value? && f.v.Number? ==> r == Some(f.v.n)
    ensures f.Value? && f.v.Text? ==> r == parse(f.v.s)
  {
    if f.Undefined? then Some(current) else ParseFloat(f, parse)
  }

  /**
   * `distance / fuel` as stored: a real quotient, or NULL when either is NaN
   * or the fuel is zero.
   */
  function Efficiency(distance: Option<real>, fuel: Option<real>): (r: Option<real>)
    ensures r.Some? <==> distance.Some? && fuel.Some? && fuel.value != 0.0
    ensures r.Some? ==> r.value * fuel.value == distance.value
  {
    if distance.Some? && fuel.Some? && fuel.value != 0.0 then Some(distance.value / fuel.value) else None
  }

  /**
   * The row `PUT /:id` writes: vehicle and locations keep their values when
   * the new ones are falsy, the numbers are the final ones, the efficiency
   * is recomputed from them, and the driver, id and date never change.
   */
  function MergeTrip(trip: Trip, vehicleId: Field<int>, start: Field<string>, end: Field<string>,
                     distance: real, fuel: real, time: real): (r: Trip)
    ensures r.id == trip.id && r.driverId == trip.driverId && r.date == trip.date
    ensures r.vehicleId == (if TruthyId(vehicleId) then vehicleId.v else trip.vehicleId)
    ensures r.startLocation == TextOr(start, trip.startLocation) && r.endLocation == TextOr(end, trip.endLocation)
    ensures r.distance == distance && r.fuel == fuel && r.time == time
    ensures r.efficiency == Efficiency(Some(distance), Some(fuel))
  {
    trip.(vehicleId := if TruthyId(vehicleId) then vehicleId.v else trip.vehicleId,
          startLocation := TextOr(start, trip.startLocation), endLocation := TextOr(end, trip.endLocation),
          distance := distance, fuel := fuel, time := time, efficiency := Efficiency(Some(distance), Some(fuel)))
  }

  /**
   * The row `PUT /:id` writes over `trip`, or `None` when a number does not
   * parse (NaN reaches a NOT NULL column and the statement fails).
   */
  function UpdatedRow(trip: Trip, vehicleId: Field<int>, start: Field<string>, end: Field<string>,
                      distance: Field<Num>, fuel: Field<Num>, time: Field<Num>, parse: string -> Option<real>)
    : Option<Trip>
  {
    var d, f, h := FinalNumber(distance, trip.distance, parse), FinalNumber(fuel, trip.fuel, parse),
                   FinalNumber(time, trip.time, parse);
    if d.None? || f.None? || h.None? then None
    else Some(MergeTrip(trip, vehicleId, start, end, d.value, f.value, h.value))
  }

  /**
   * `PUT /:id`: 404 unless the scoped lookup finds the trip; no positivity
   * check; a value that does not parse gives a 500.
   */
  method UpdateTrip(db: Database, p: Principal, id: int, vehicleId: Field<int>, start: Field<string>, end: Field<string>,
                    distance: Field<Num>, fuel: Field<Num>, time: Field<Num>, parse: string -> Option<real>)
    returns (r: Reply<Option<TripView>>)
    requires db.Valid()
    modifies db
    ensures db.Valid()
    ensures ScopedTrip(old(db.trips), p, id).None? ==> r == Failure(NotFound, NOT_FOUND_OR_DENIED) && unchanged(db)
    ensures ScopedTrip(old(db.trips), p, id).Some? ==>
      var row := UpdatedRow(ScopedTrip(old(db.trips), p, id).value, vehicleId, start, end, distance, fuel, time, parse);
      if row.None? then
        r == Failure(ServerError, SERVER_ERROR) && unchanged(db)
      else
        && r == Success(Ok, Joined(db.Snapshot(), row.value))
        && db.Snapshot() == old(db.Snapshot()).(trips := ReplaceTrip(old(db.trips), row.value))
        && db.sequence == old(db.sequence)
  {
    var found := ScopedTrip(db.trips, p, id);
    if found.None? {
      return Failure(NotFound, NOT_FOUND_OR_DENIED);
    }
    ScopedTripIsTrip(db.trips, db.sequence.trip, p, id);
    r := WriteTrip(db, found.value, vehicleId, start, end, distance, fuel, time, parse);
  }

  /** The statements of `PUT /:id` once the trip is found: parse, write, read back. */
  method WriteTrip(db: Database, trip: Trip, vehicleId: Field<int>, start: Field<string>, end: Field<string>,
                   distance: Field<Num>, fuel: Field<Num>, time: Field<Num>, parse: string -> Option<real>)
    returns (r: Reply<Option<TripView>>)
    requires db.Valid() && FindTrip(db.trips, trip.id) == Some(trip)
    modifies db
    ensures db.Valid()
    ensures var row := UpdatedRow(trip, vehicleId, start, end, distance, fuel, time, parse);
      if row.None? then
        r == Failure(ServerError, SERVER_ERROR) && unchanged(db)
      else
        && r == Success(Ok, Joined(db.Snapshot(), row.value))
        && db.Snapshot() == old(db.Snapshot()).(trips := ReplaceTrip(old(db.trips), row.value))
        && db.sequence == old(db.sequence)
  {
    var d, f, h := FinalNumber(distance, trip.distance, parse), FinalNumber(fuel, trip.fuel, parse),
                   FinalNumber(time, trip.time, parse);
    var vid := if TruthyId(vehicleId) then vehicleId.v else trip.vehicleId;
    var from, to := TextOr(start, trip.startLocation), TextOr(end, trip.endLocation);
    ghost var t0 := db.trips;
    var res := db.UpdateTrip(trip.id, vid, from, to, d, f, h, Efficiency(d, f));
    UpdatedRowWritten(trip, vehicleId, start, end, distance, fuel, time, parse);
    if res.Rejected? {
      return Failure(ServerError, SERVER_ERROR);
    }
    var updated := MergeTrip(trip, vehicleId, start, end, d.value, f.value, h.value);
    FindTripReplaced(t0, updated);
    r := Success(Ok, Joined(db.Snapshot(), FindTrip(db.trips, trip.id).value));
  }

  /** The row `UpdatedRow` names is the stored trip with the values the statement binds. */
  lemma UpdatedRowWritten(trip: Trip, vehicleId: Field<int>, start: Field<string>, end: Field<string>,
                          distance: Field<Num>, fuel: Field<Num>, time: Field<Num>, parse: string -> Option<real>)
    ensures var d, f, h := FinalNumber(distance, trip.distance, parse), FinalNumber(fuel, trip.fuel, parse),
                           FinalNumber(time, trip.time, parse);
      var row := UpdatedRow(trip, vehicleId, start, end, distance, fuel, time, parse);
      && (row.None? <==> d.None? || f.None? || h.None?)
      && (row.Some? ==>
            && row.value == MergeTrip(trip, vehicleId, start, end, d.value, f.value, h.value)
            && row.value == trip.(vehicleId := if TruthyId(vehicleId) then vehicleId.v else trip.vehicleId,
                                  startLocation := TextOr(start, trip.startLocation),
                                  endLocation := TextOr(end, trip.endLocation),
                                  distance := d.value, fuel := f.value, time := h.value, efficiency := Efficiency(d, f)))
  {
  }

  /** `DELETE /:id`: 404 unless the scoped lookup finds the trip; then exactly that trip goes. */
  method DeleteTrip(db: Database, p: Principal, id: int) returns (r: Reply<string>)
    requires db.Valid()
    modifies db
    ensures db.Valid()
    ensures ScopedTrip(old(db.trips), p, id).None? ==> r == Failure(NotFound, NOT_FOUND_OR_DENIED) && unchanged(db)
    ensures ScopedTrip(old(db.trips), p, id).Some? ==>
      && r == Success(Ok, DELETED)
      && db.Snapshot() == old(db.Snapshot()).(trips := TripsWithout(old(db.trips), id))
      && |db.trips| == |old(db.trips)| - 1
      && db.sequence == old(db.sequence)
  {
    var found := ScopedTrip(db.trips, p, id);
    if found.None? {
      return Failure(NotFound, NOT_FOUND_OR_DENIED);
    }
    TripsWithoutOne(db.trips, db.sequence.trip, found.value);
    var _ := db.DeleteTrip(id);
    r := Success(Ok, DELETED);
  }

  /** Ids are unique, so deleting by the id of a stored trip removes exactly one row. */
  lemma {:induction false} TripsWithoutOne(ts: seq<Trip>, next: int, trip: Trip)
    requires TripsValid(ts, next) && trip in ts
    ensures |TripsWithout(ts, trip.id)| == |ts| - 1
  {
    var tail := ts[1..];
    assert TripsValid(tail, next) by {
      forall i, j | 0 <= i < j < |tail| ensures TripRowsOrdered(tail[i], tail[j]) {
        assert tail[i] == ts[i + 1] && tail[j] == ts[j + 1];
      }
      forall w | w in tail ensures 1 <= w.id < next {
        assert w in ts;
      }
    }
    var keep := (w: Trip) => w.id != trip.id;
    assert TripsWithout(ts, trip.id) == (if keep(ts[0]) then [ts[0]] else []) + TripsWithout(tail, trip.id);
    if ts[0] == trip {
      forall w | w in tail ensures w.id != trip.id {
        var k :| 0 <= k < |tail| && tail[k] == w;
        assert TripRowsOrdered(ts[0], ts[k + 1]);
      }
      FilterAll(tail, keep);
    } else {
      assert trip in tail;
      TripIdUnique(ts, next, ts[0], trip);
      TripsWithoutOne(tail, next, trip);
    }
  }
}
