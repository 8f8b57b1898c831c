/**
 * The read-only handlers of routes/dashboard.js: SQL aggregates over the
 * trips, vehicles, users and vehicle_drivers tables, and the JavaScript that
 * reshapes the rows before answering.
 *
 * `round` stands for `x => parseFloat(x.toFixed(2))`; dates are whole day
 * numbers, `today` the day `date('now')` names, and `strftime` SQLite's
 * date formatter.
 */
module Dashboard {
  import opened Wrappers
  import opened Seqs
  import opened Http
  import opened Db

  const SERVER_ERROR := "Server error"

  // ----- SQL aggregates -----

  /** The non-NULL values of a nullable column, in order. */
  function Present(xs: seq<Option<real>>): (r: seq<real>)
    ensures |r| <= |xs|
    ensures forall y :: y in r <==> Some(y) in xs
  {
    Collect(xs, (x: Option<real>) => x)
  }

  /** SQL `AVG`: the mean of the non-NULL values, NULL when there are none. */
  function Avg(xs: seq<Option<real>>): (r: Option<real>)
    ensures r.None? <==> forall x :: x in xs ==> x.None?
  {
    var vs := Present(xs);
    assert forall x :: x in xs && x.Some? ==> x.value in vs;
    assert vs != [] ==> Some(vs[0]) in xs;
    if vs == [] then None else Some(Sum(vs) / |vs| as real)
  }

  /** An average lies between the least and the greatest value averaged. */
  lemma AvgWithin(xs: seq<Option<real>>, lo: real, hi: real)
    requires forall x :: x in xs && x.Some? ==> lo <= x.value <= hi
    requires Avg(xs).Some?
    ensures lo <= Avg(xs).value <= hi
  {
    var vs := Present(xs);
    forall y | y in vs ensures lo <= y <= hi {
      assert Some(y) in xs;
    }
    MeanWithin(vs, lo, hi);
  }

  /** The mean of non-empty values lies between their bounds. */
  lemma MeanWithin(vs: seq<real>, lo: real, hi: real)
    requires vs != [] && forall y :: y in vs ==> lo <= y <= hi
    ensures lo <= Sum(vs) / |vs| as real <= hi
  {
    SumAtMost(vs, hi);
    SumAtLeast(vs, lo);
    MeanBounds(Sum(vs), |vs| as real, lo, hi);
  }

  lemma MeanBounds(total: real, n: real, lo: real, hi: real)
    requires n > 0.0 && n * lo <= total <= n * hi
    ensures lo <= total / n <= hi
  {
    var a := total / n;
    assert a * n == total;
    assert (a - hi) * n <= 0.0;
    assert (a - lo) * n >= 0.0;
  }

  /** `x ? parseFloat(x.toFixed(2)) : null`: NULL and 0 both become `null`. */
  function RoundOrNull(x: Option<real>, round: real -> real): (r: Option<real>)
    ensures r.Some? <==> x.Some? && x.value != 0.0
  {
    if x.Some? && x.value != 0.0 then Some(round(x.value)) else None
  }

  /** `x ? parseFloat(x.toFixed(2)) : 0`. */
  function RoundOrZero(x: Option<real>, round: real -> real): real {
    if x.Some? && x.value != 0.0 then round(x.value) else 0.0
  }

  /** `SUM(col)`, which is NULL over no rows. */
  function SumOrNull(ts: seq<Trip>, w: Trip -> real): (r: Option<real>)
    ensures r.None? <==> ts == []
  {
    if ts == [] then None else Some(SumOf(ts, w))
  }

  function TripFuel(t: Trip): real { t.fuel }

  function TripDistance(t: Trip): real { t.distance }

  function TripEfficiency(t: Trip): Option<real> { t.efficiency }

  /** `distance_km / time_taken_hr`: SQLite yields NULL for a zero divisor. */
  function TripSpeed(t: Trip): Option<real> {
    if t.time == 0.0 then None else Some(t.distance / t.time)
  }

  /** `AVG(efficiency)` over some trips. */
  function AvgEfficiency(ts: seq<Trip>): Option<real> {
    Avg(Map(ts, TripEfficiency))
  }

  /** `AVG(efficiency)` over the trips of one driver, before rounding. */
  function DriverAvg(t: Tables, driverId: int): Option<real> {
    AvgEfficiency(TripsOfDriver(t.trips, driverId))
  }

  /** `AVG(efficiency)` over the trips of one vehicle, before rounding. */
  function VehicleAvg(t: Tables, vehicleId: int): Option<real> {
    AvgEfficiency(TripsOfVehicle(t.trips, vehicleId))
  }

  /** `ORDER BY avg DESC`: larger first, NULL last. */
  predicate OptGe(a: Option<real>, b: Option<real>) {
    b.None? || (a.Some? && a.value >= b.value)
  }

  /** `ORDER BY col ASC` on a nullable column: NULL first. */
  predicate OptLe(a: Option<real>, b: Option<real>) {
    a.None? || (b.Some? && a.value <= b.value)
  }

  function IsDriver(u: User): bool { u.role == DRIVER }

  // ----- GET /stats -----

  datatype Stats = Stats(totalTrips: nat, totalDrivers: nat, totalVehicles: nat, totalFuelUsed: real,
                         totalDistance: real, averageEfficiency: real, averageSpeed: real)

  function PositiveTime(t: Trip): bool { t.time > 0.0 }

  /** `GET /stats`: fleet-wide counts, sums and rounded averages; every missing figure is 0. */
  function GetStats(t: Tables, p: Principal, round: real -> real): (r: Reply<Stats>)
    ensures !Authorized(p, [ADMIN, MANAGER]) ==> r == Denied
    ensures Authorized(p, [ADMIN, MANAGER]) ==> r.Success? && r.status == Ok
    ensures r.Success? ==>
      && r.body.totalTrips == |t.trips| && r.body.totalVehicles == |t.vehicles|
      && r.body.totalDrivers == |Filter(t.users, IsDriver)| <= |t.users|
      && r.body.totalFuelUsed == SumOf(t.trips, TripFuel)
      && r.body.totalDistance == SumOf(t.trips, TripDistance)
      && r.body.averageEfficiency == RoundOrZero(AvgEfficiency(t.trips), round)
      && r.body.averageSpeed == RoundOrZero(Avg(Map(Filter(t.trips, PositiveTime), TripSpeed)), round)
  {
    if !Authorized(p, [ADMIN, MANAGER]) then Denied
    else
      Success(Ok, Stats(|t.trips|, |Filter(t.users, IsDriver)|, |t.vehicles|,
                        SumOf(t.trips, TripFuel), SumOf(t.trips, TripDistance),
                        RoundOrZero(AvgEfficiency(t.trips), round),
                        RoundOrZero(Avg(Map(Filter(t.trips, PositiveTime), TripSpeed)), round)))
  }

  /** With no trips every trip figure is 0, never `null`. */
  lemma StatsWithoutTrips(t: Tables, p: Principal, round: real -> real)
    requires t.trips == [] && Authorized(p, [ADMIN, MANAGER])
    ensures var s := GetStats(t, p, round).body;
      s.totalTrips == 0 && s.totalFuelUsed == 0.0 && s.totalDistance == 0.0
      && s.averageEfficiency == 0.0 && s.averageSpeed == 0.0
  {
    assert Filter(t.trips, PositiveTime) == [];
  }

  // ----- GET /assigned-drivers -----

  /** One row of the assigned-drivers query: an assignment with its vehicle, driver and their common trips. */
  datatype AssignmentRow = AssignmentRow(vehicleId: int, vehicleNumber: string, model: string,
                                         driverId: int, driverName: string, driverEmail: string,
                                         assignedAt: int, tripCount: nat, avgEfficiency: Option<real>)

  /** The trips a driver made in a vehicle (`LEFT JOIN trips ON` both ids). */
  function PairTrips(ts: seq<Trip>, vehicleId: int, driverId: int): (r: seq<Trip>)
    ensures forall x :: x in r <==> x in ts && x.vehicleId == vehicleId && x.driverId == driverId
  {
    Filter(ts, (x: Trip) => x.vehicleId == vehicleId && x.driverId == driverId)
  }

  /** The inner JOINs with `vehicles` and `users` of one assignment, grouped with its trips. */
  function AssignmentRowOf(t: Tables, a: Assignment): Option<AssignmentRow> {
    match FindVehicle(t.vehicles, a.vehicleId)
    case None => None
    case Some(v) =>
      match FindUser(t.users, a.driverId)
      case None => None
      case Some(u) =>
        var ts := PairTrips(t.trips, v.id, u.id);
        Some(AssignmentRow(v.id, v.number, v.model, u.id, u.name, u.email, a.assignedAt, |ts|, AvgEfficiency(ts)))
  }

  /** `ORDER BY v.vehicle_number, u.name`. */
  predicate NumberThenName(a: AssignmentRow, b: AssignmentRow) {
    if a.vehicleNumber == b.vehicleNumber then StrLe(a.driverName, b.driverName)
    else StrLe(a.vehicleNumber, b.vehicleNumber)
  }

  lemma NumberThenNameOrder()
    ensures TotalPreorder(NumberThenName)
  {
    forall a, b ensures NumberThenName(a, b) || NumberThenName(b, a) {
      StrLeTotal(a.vehicleNumber, b.vehicleNumber);
      StrLeTotal(a.driverName, b.driverName);
    }
    forall a, b, c | NumberThenName(a, b) && NumberThenName(b, c) ensures NumberThenName(a, c) {
      if a.vehicleNumber == b.vehicleNumber && b.vehicleNumber == c.vehicleNumber {
        StrLeTrans(a.driverName, b.driverName, c.driverName);
      } else if a.vehicleNumber != b.vehicleNumber && b.vehicleNumber != c.vehicleNumber {
        StrLeTrans(a.vehicleNumber, b.vehicleNumber, c.vehicleNumber);
        if a.vehicleNumber == c.vehicleNumber {
          StrLeAntisymmetric(a.vehicleNumber, b.vehicleNumber);
        }
      }
    }
  }

  /** The inner join of each `vehicle_drivers` row with its vehicle and driver. */
  function JoinLink(t: Tables): Assignment -> Option<AssignmentRow> {
    (a: Assignment) => AssignmentRowOf(t, a)
  }

  /**
   * The rows of the assigned-drivers query, in their ORDER BY order: one
   * per assignment whose vehicle and driver exist, and no row twice while
   * the store keeps each (vehicle, driver) pair once.
   */
  function AssignmentRows(t: Tables): (r: seq<AssignmentRow>)
    ensures forall row :: row in r <==> exists a :: a in t.links && AssignmentRowOf(t, a) == Some(row)
    ensures |r| == |Filter(t.links, Defined(JoinLink(t)))|
    ensures Pairwise(t.links, LinkRowsOrdered) ==> NoDup(r)
    ensures Pairwise(r, NumberThenName)
  {
    NumberThenNameOrder();
    var joined := Collect(t.links, JoinLink(t));
    var r := SortBy(joined, NumberThenName);
    JoinedRowsDistinct(t, r);
    r
  }

  /** Two links of different (vehicle, driver) pairs join to different rows, in any order of the rows. */
  lemma JoinedRowsDistinct(t: Tables, r: seq<AssignmentRow>)
    requires multiset(r) == multiset(Collect(t.links, JoinLink(t)))
    ensures Pairwise(t.links, LinkRowsOrdered) ==> NoDup(r)
  {
    if Pairwise(t.links, LinkRowsOrdered) {
      var f := JoinLink(t);
      forall i, j | 0 <= i < j < |t.links| && f(t.links[i]).Some? && f(t.links[j]).Some?
        ensures f(t.links[i]) != f(t.links[j])
      {
        var a, b := t.links[i], t.links[j];
        assert LinkRowsOrdered(a, b);
        assert f(a).value.vehicleId == a.vehicleId && f(a).value.driverId == a.driverId;
        assert f(b).value.vehicleId == b.vehicleId && f(b).value.driverId == b.driverId;
      }
      CollectNoDup(t.links, f);
      NoDupPermutation(Collect(t.links, f), r);
    }
  }

  /** One entry of a vehicle's `drivers` array. */
  datatype DriverEntry = DriverEntry(driverId: int, driverName: string, driverEmail: string, assignedAt: int,
                                     tripCount: nat, avgEfficiency: Option<real>)

  /** One value of the `vehicleDrivers` object. */
  datatype VehicleGroup = VehicleGroup(vehicleId: int, vehicleNumber: string, model: string, drivers: seq<DriverEntry>)

  /** The entry pushed for a row (`trip_count || 0` is the count itself: COUNT is never NULL). */
  function Entry(row: AssignmentRow, round: real -> real): DriverEntry {
    DriverEntry(row.driverId, row.driverName, row.driverEmail, row.assignedAt, row.tripCount,
                RoundOrNull(row.avgEfficiency, round))
  }

  function RowOfVehicle(vehicleId: int): AssignmentRow -> bool {
    (row: AssignmentRow) => row.vehicleId == vehicleId
  }

  function EntryRounded(round: real -> real): AssignmentRow -> DriverEntry {
    (row: AssignmentRow) => Entry(row, round)
  }

  /** Reference definition: a vehicle's drivers are the entries of its rows, in row order. */
  function DriversOf(rows: seq<AssignmentRow>, vehicleId: int, round: real -> real): seq<DriverEntry> {
    Map(Filter(rows, RowOfVehicle(vehicleId)), EntryRounded(round))
  }

  predicate HasVehicle(rows: seq<AssignmentRow>, vehicleId: int) {
    exists row :: row in rows && row.vehicleId == vehicleId
  }

  /** A group's vehicle number and model are those of one of its vehicle's rows. */
  predicate HeaderFrom(rows: seq<AssignmentRow>, g: VehicleGroup) {
    exists row :: row in rows && row.vehicleId == g.vehicleId && row.vehicleNumber == g.vehicleNumber && row.model == g.model
  }

  lemma {:induction false} DriversOfAppend(rows: seq<AssignmentRow>, row: AssignmentRow, vehicleId: int, round: real -> real)
    ensures DriversOf(rows + [row], vehicleId, round)
         == DriversOf(rows, vehicleId, round) + (if row.vehicleId == vehicleId then [Entry(row, round)] else [])
  {
    var p := RowOfVehicle(vehicleId);
    FilterAppend(rows, [row], p);
    assert [row][1..] == [];
    assert Filter([row], p) == (if p(row) then [row] else []);
  }

  lemma DriversOfAbsent(rows: seq<AssignmentRow>, vehicleId: int, round: real -> real)
    requires !HasVehicle(rows, vehicleId)
    ensures DriversOf(rows, vehicleId, round) == []
  {
    FilterNone(rows, RowOfVehicle(vehicleId));
  }

  /** Object keys that are integers enumerate in ascending order. */
  predicate KeyBefore(a: VehicleGroup, b: VehicleGroup) { a.vehicleId < b.vehicleId }

  /** `vehicleDrivers[vehicleId]`. */
  function Lookup(gs: seq<VehicleGroup>, vehicleId: int): (r: Option<VehicleGroup>)
    ensures r.Some? ==> r.value in gs && r.value.vehicleId == vehicleId
    ensures r.None? ==> forall g :: g in gs ==> g.vehicleId != vehicleId
  {
    if gs == [] then None
    else if gs[0].vehicleId == vehicleId then Some(gs[0])
    else Lookup(gs[1..], vehicleId)
  }

  /** In a dictionary kept in key order, every value is found under its own key. */
  lemma {:induction false} LookupSorted(gs: seq<VehicleGroup>, g: VehicleGroup)
    requires Pairwise(gs, KeyBefore) && g in gs
    ensures Lookup(gs, g.vehicleId) == Some(g)
  {
    var k :| 0 <= k < |gs| && gs[k] == g;
    if k > 0 {
      assert KeyBefore(gs[0], gs[k]);
      TailKeepsPairwise(gs, KeyBefore);
      assert gs[1..][k - 1] == g;
      LookupSorted(gs[1..], g);
    }
  }

  /** The number of driver entries over all groups. */
  function TotalDrivers(gs: seq<VehicleGroup>): nat {
    if gs == [] then 0 else |gs[0].drivers| + TotalDrivers(gs[1..])
  }

  /** `vehicleDrivers[id]` after `if (!vehicleDrivers[id]) { ... drivers: [] }`, with the row's entry pushed. */
  function Pushed(g: Option<VehicleGroup>, row: AssignmentRow, round: real -> real): VehicleGroup {
    var base := if g.Some? then g.value else VehicleGroup(row.vehicleId, row.vehicleNumber, row.model, []);
    base.(drivers := base.drivers + [Entry(row, round)])
  }

  /** One step of the `forEach`: the dictionary with the row's entry filed under its vehicle. */
  function Upsert(gs: seq<VehicleGroup>, row: AssignmentRow, round: real -> real): seq<VehicleGroup> {
    if gs == [] then [Pushed(None, row, round)]
    else if row.vehicleId < gs[0].vehicleId then [Pushed(None, row, round)] + gs
    else if row.vehicleId == gs[0].vehicleId then [Pushed(Some(gs[0]), row, round)] + gs[1..]
    else [gs[0]] + Upsert(gs[1..], row, round)
  }

  /** All keys of a dictionary kept in key order are at least its first key. */
  lemma KeysAfterFirst(gs: seq<VehicleGroup>)
    requires gs != [] && Pairwise(gs, KeyBefore)
    ensures forall g :: g in gs ==> gs[0].vehicleId <= g.vehicleId
  {
    forall g | g in gs ensures gs[0].vehicleId <= g.vehicleId {
      var k :| 0 <= k < |gs| && gs[k] == g;
      if k > 0 {
        assert KeyBefore(gs[0], gs[k]);
      }
    }
  }

  /** Filing a row changes only its vehicle's group. */
  lemma {:induction false} UpsertLookup(gs: seq<VehicleGroup>, row: AssignmentRow, round: real -> real)
    requires Pairwise(gs, KeyBefore)
    ensures Lookup(Upsert(gs, row, round), row.vehicleId) == Some(Pushed(Lookup(gs, row.vehicleId), row, round))
    ensures forall id :: id != row.vehicleId ==> Lookup(Upsert(gs, row, round), id) == Lookup(gs, id)
  {
    var r := Upsert(gs, row, round);
    if gs == [] {
      assert r[1..] == [];
    } else if row.vehicleId < gs[0].vehicleId {
      assert r[1..] == gs;
      KeysAfterFirst(gs);
    } else if row.vehicleId == gs[0].vehicleId {
      assert r[1..] == gs[1..];
    } else {
      TailKeepsPairwise(gs, KeyBefore);
      UpsertLookup(gs[1..], row, round);
      assert r[1..] == Upsert(gs[1..], row, round);
    }
  }

  /** Filing a row adds exactly one entry. */
  lemma {:induction false} UpsertCount(gs: seq<VehicleGroup>, row: AssignmentRow, round: real -> real)
    ensures TotalDrivers(Upsert(gs, row, round)) == TotalDrivers(gs) + 1
  {
    var r := Upsert(gs, row, round);
    if gs == [] {
      assert r[1..] == [];
    } else if row.vehicleId < gs[0].vehicleId {
      assert r[1..] == gs;
    } else if row.vehicleId == gs[0].vehicleId {
      assert r[1..] == gs[1..];
    } else {
      UpsertCount(gs[1..], row, round);
      assert r[1..] == Upsert(gs[1..], row, round);
    }
  }

  /** Filing a row keeps the keys in ascending order. */
  lemma {:induction false} UpsertSorted(gs: seq<VehicleGroup>, row: AssignmentRow, round: real -> real)
    requires Pairwise(gs, KeyBefore)
    ensures Pairwise(Upsert(gs, row, round), KeyBefore)
  {
    if gs == [] {
    } else if row.vehicleId < gs[0].vehicleId {
      KeysAfterFirst(gs);
      PrependKeepsPairwise(Pushed(None, row, round), gs, KeyBefore);
    } else if row.vehicleId == gs[0].vehicleId {
      var tail := gs[1..];
      TailKeepsPairwise(gs, KeyBefore);
      forall h | h in tail ensures gs[0].vehicleId < h.vehicleId {
        var k :| 0 <= k < |tail| && tail[k] == h;
        assert KeyBefore(gs[0], gs[k + 1]);
      }
      PrependKeepsPairwise(Pushed(Some(gs[0]), row, round), tail, KeyBefore);
    } else {
      var tail := gs[1..];
      TailKeepsPairwise(gs, KeyBefore);
      UpsertSorted(tail, row, round);
      UpsertLookup(tail, row, round);
      var rest := Upsert(tail, row, round);
      forall g | g in rest ensures gs[0].vehicleId < g.vehicleId {
        LookupSorted(rest, g);
        if g.vehicleId != row.vehicleId {
          var k :| 0 <= k < |tail| && tail[k] == g;
          assert KeyBefore(gs[0], gs[k + 1]);
        }
      }
      PrependKeepsPairwise(gs[0], rest, KeyBefore);
    }
  }

  /**
   * The dictionary built from `rows`: keys in ascending order, a key for
   * exactly the vehicles that have rows, under each key the entries of that
   * vehicle's rows in row order and a header taken from one of them, and one
   * entry per row in all.
   */
  ghost predicate GroupsOf(gs: seq<VehicleGroup>, rows: seq<AssignmentRow>, round: real -> real) {
    && Pairwise(gs, KeyBefore)
    && (forall id :: Lookup(gs, id).Some? <==> HasVehicle(rows, id))
    && (forall id :: Lookup(gs, id).Some? ==>
          Lookup(gs, id).value.drivers == DriversOf(rows, id, round) && HeaderFrom(rows, Lookup(gs, id).value))
    && TotalDrivers(gs) == |rows|
  }

  lemma GroupsStep(gs: seq<VehicleGroup>, rows: seq<AssignmentRow>, row: AssignmentRow, round: real -> real)
    requires GroupsOf(gs, rows, round)
    ensures GroupsOf(Upsert(gs, row, round), rows + [row], round)
  {
    UpsertSorted(gs, row, round);
    UpsertLookup(gs, row, round);
    UpsertCount(gs, row, round);
    var r := Upsert(gs, row, round);
    var more := rows + [row];
    assert row in more;
    forall id ensures HasVehicle(more, id) <==> HasVehicle(rows, id) || id == row.vehicleId {
      if HasVehicle(more, id) && id != row.vehicleId {
        var x :| x in more && x.vehicleId == id;
        assert x in rows;
      }
    }
    forall id | Lookup(r, id).Some?
      ensures Lookup(r, id).value.drivers == DriversOf(more, id, round) && HeaderFrom(more, Lookup(r, id).value)
    {
      DriversOfAppend(rows, row, id, round);
      if id == row.vehicleId {
        match Lookup(gs, id)
        case Some(g) =>
          var x :| x in rows && x.vehicleId == g.vehicleId && x.vehicleNumber == g.vehicleNumber && x.model == g.model;
          assert x in more;
        case None =>
          DriversOfAbsent(rows, id, round);
      } else {
        var g := Lookup(gs, id).value;
        var x :| x in rows && x.vehicleId == g.vehicleId && x.vehicleNumber == g.vehicleNumber && x.model == g.model;
        assert x in more;
      }
    }
  }

  /** The `forEach` over the rows that fills the `vehicleDrivers` object, then `Object.values`. */
  method GroupByVehicle(rows: seq<AssignmentRow>, round: real -> real) returns (groups: seq<VehicleGroup>)
    ensures GroupsOf(groups, rows, round)
  {
    groups := [];
    var i := 0;
    while i < |rows|
      invariant 0 <= i <= |rows|
      invariant GroupsOf(groups, rows[..i], round)
    {
      GroupsStep(groups, rows[..i], rows[i], round);
      assert rows[..i + 1] == rows[..i] + [rows[i]];
      groups := Upsert(groups, rows[i], round);
      i := i + 1;
    }
    assert rows[..i] == rows;
  }

  /** What the grouping means for each value of the answer. */
  lemma GroupsMeaning(gs: seq<VehicleGroup>, rows: seq<AssignmentRow>, round: real -> real)
    requires GroupsOf(gs, rows, round)
    ensures forall i, j :: 0 <= i < j < |gs| ==> gs[i].vehicleId < gs[j].vehicleId
    ensures forall g :: g in gs ==> g.drivers == DriversOf(rows, g.vehicleId, round) && |g.drivers| > 0 && HeaderFrom(rows, g)
    ensures forall row :: row in rows ==> Lookup(gs, row.vehicleId).Some?
  {
    forall i, j | 0 <= i < j < |gs| ensures gs[i].vehicleId < gs[j].vehicleId {
      assert KeyBefore(gs[i], gs[j]);
    }
    forall g | g in gs ensures g.drivers == DriversOf(rows, g.vehicleId, round) && |g.drivers| > 0 && HeaderFrom(rows, g) {
      GroupMeaning(gs, rows, round, g);
    }
    forall row | row in rows ensures Lookup(gs, row.vehicleId).Some? {
      assert HasVehicle(rows, row.vehicleId);
    }
  }

  /** One group: its entries are its vehicle's rows, and there is at least one. */
  lemma GroupMeaning(gs: seq<VehicleGroup>, rows: seq<AssignmentRow>, round: real -> real, g: VehicleGroup)
    requires GroupsOf(gs, rows, round) && g in gs
    ensures g.drivers == DriversOf(rows, g.vehicleId, round) && |g.drivers| > 0 && HeaderFrom(rows, g)
  {
    LookupSorted(gs, g);
    var x :| x in rows && x.vehicleId == g.vehicleId;
    assert x in Filter(rows, RowOfVehicle(g.vehicleId));
  }

  /**
   * `GET /assigned-drivers`: one object per assigned vehicle, in ascending
   * vehicle id, each listing the entries of its assignment rows in the
   * query's order.
   */
  method AssignedDrivers(t: Tables, p: Principal, round: real -> real) returns (r: Reply<seq<VehicleGroup>>)
    ensures !Authorized(p, [ADMIN, MANAGER]) ==> r == Denied
    ensures Authorized(p, [ADMIN, MANAGER]) ==> r.Success? && r.status == Ok && GroupsOf(r.body, AssignmentRows(t), round)
  {
    if !Authorized(p, [ADMIN, MANAGER]) {
      return Denied;
    }
    var groups := GroupByVehicle(AssignmentRows(t), round);
    r := Success(Ok, groups);
  }

  // ----- GET /top-drivers -----

  /** One row of the top-drivers query, before rounding. */
  datatype DriverTotals = DriverTotals(userId: int, name: string, tripCount: nat, avgEfficiency: Option<real>,
                                       totalDistance: real, totalFuel: real)

  function DriverTotalsOf(t: Tables, u: User): DriverTotals {
    var ts := TripsOfDriver(t.trips, u.id);
    DriverTotals(u.id, u.name, |ts|, AvgEfficiency(ts), SumOf(ts, TripDistance), SumOf(ts, TripFuel))
  }

  /** A driver the inner JOIN `users u JOIN trips t` keeps: one with at least one trip. */
  predicate ActiveDriver(t: Tables, u: User) {
    u.role == DRIVER && TripsOfDriver(t.trips, u.id) != []
  }

  predicate HigherDriverAvg(a: DriverTotals, b: DriverTotals) { OptGe(a.avgEfficiency, b.avgEfficiency) }

  lemma HigherDriverAvgOrder()
    ensures TotalPreorder(HigherDriverAvg)
  {
  }

  /** `parseInt(req.query.limit) || 10`, with `None` for NaN. */
  function TopLimit(limit: Option<int>): int {
    if limit.None? || limit.value == 0 then 10 else limit.value
  }

  /** The drivers the JOIN keeps, in table order. */
  function ActiveDrivers(t: Tables): seq<User> {
    Filter(t.users, (u: User) => ActiveDriver(t, u))
  }

  /** `LIMIT n` over `count` rows: all of them for a negative `n`. */
  function Capped(n: int, count: nat): nat {
    if 0 <= n < count then n else count
  }

  /** The rows of the query: drivers with trips by descending average, cut at `LIMIT`. */
  function TopDriverRows(t: Tables, limit: Option<int>): seq<DriverTotals> {
    HigherDriverAvgOrder();
    Limit(SortBy(Map(ActiveDrivers(t), (u: User) => DriverTotalsOf(t, u)), HigherDriverAvg), TopLimit(limit))
  }

  /**
   * The query answers `limit` drivers, or every driver with trips when
   * there are fewer; each row is such a driver's totals, no driver's more
   * often than the JOIN groups it, best average first.
   */
  lemma TopDriverRowsFacts(t: Tables, limit: Option<int>)
    ensures |TopDriverRows(t, limit)| == Capped(TopLimit(limit), |ActiveDrivers(t)|)
    ensures multiset(TopDriverRows(t, limit)) <= multiset(Map(ActiveDrivers(t), (u: User) => DriverTotalsOf(t, u)))
    ensures forall row :: row in TopDriverRows(t, limit) ==>
      exists u :: u in t.users && ActiveDriver(t, u) && row == DriverTotalsOf(t, u)
    ensures Pairwise(TopDriverRows(t, limit), HigherDriverAvg)
  {
    HigherDriverAvgOrder();
    var active := ActiveDrivers(t);
    var totals := Map(active, (u: User) => DriverTotalsOf(t, u));
    var sorted := SortBy(totals, HigherDriverAvg);
    var rows := TopDriverRows(t, limit);
    assert rows == Limit(sorted, TopLimit(limit));
    assert rows <= sorted;
    TopSubMultiset(totals, HigherDriverAvg, TopLimit(limit));
    forall row | row in rows ensures exists u :: u in t.users && ActiveDriver(t, u) && row == DriverTotalsOf(t, u) {
      TopDriverRowFrom(t, limit, row);
    }
    forall i, j | 0 <= i < j < |rows| ensures HigherDriverAvg(rows[i], rows[j]) {
      assert rows[i] == sorted[i] && rows[j] == sorted[j];
    }
  }

  /** One row of the query, as `TopDriverRowsFacts` states it for all. */
  lemma TopDriverRowFrom(t: Tables, limit: Option<int>, row: DriverTotals)
    requires row in TopDriverRows(t, limit)
    ensures exists u :: u in t.users && ActiveDriver(t, u) && row == DriverTotalsOf(t, u)
  {
    HigherDriverAvgOrder();
    var active := ActiveDrivers(t);
    var totals := Map(active, (u: User) => DriverTotalsOf(t, u));
    var sorted := SortBy(totals, HigherDriverAvg);
    assert TopDriverRows(t, limit) <= sorted;
    assert row in sorted;
    var u :| u in active && row == DriverTotalsOf(t, u);
    assert u in t.users && ActiveDriver(t, u);
  }

  /** With user ids unique, as the users table keeps them, no driver is answered twice. */
  lemma TopDriverIdsDistinct(t: Tables, limit: Option<int>)
    requires Pairwise(t.users, UserRowsOrdered)
    ensures forall i, j :: 0 <= i < j < |TopDriverRows(t, limit)| ==>
      TopDriverRows(t, limit)[i].userId != TopDriverRows(t, limit)[j].userId
  {
    var totals := Map(ActiveDrivers(t), (u: User) => DriverTotalsOf(t, u));
    ActiveDriverIdsDistinct(t);
    TopDriverRowsFacts(t, limit);
    SubMultisetKeysDistinct(TopDriverRows(t, limit), totals, DriverTotalsId);
  }

  function DriverTotalsId(row: DriverTotals): int { row.userId }

  /** One group per driver: the JOIN's groups carry different user ids. */
  lemma ActiveDriverIdsDistinct(t: Tables)
    requires Pairwise(t.users, UserRowsOrdered)
    ensures var totals := Map(ActiveDrivers(t), (u: User) => DriverTotalsOf(t, u));
      forall a, b :: 0 <= a < b < |totals| ==> DriverTotalsId(totals[a]) != DriverTotalsId(totals[b])
  {
    var active := ActiveDrivers(t);
    FilterKeepsPairwise(t.users, (u: User) => ActiveDriver(t, u), UserRowsOrdered);
    forall a, b | 0 <= a < b < |active| ensures active[a].id != active[b].id {
      assert UserRowsOrdered(active[a], active[b]);
    }
  }

  /**
   * Every driver with trips that the answer leaves out averages no more
   * than any driver it lists: the cut keeps the top of the ranking.
   */
  lemma TopDriversAreTop(t: Tables, limit: Option<int>, u: User)
    requires u in t.users && ActiveDriver(t, u)
    requires forall row :: row in TopDriverRows(t, limit) ==> row.userId != u.id
    ensures forall row :: row in TopDriverRows(t, limit) ==> OptGe(row.avgEfficiency, DriverAvg(t, u.id))
  {
    HigherDriverAvgOrder();
    var totals := Map(ActiveDrivers(t), (w: User) => DriverTotalsOf(t, w));
    var x := DriverTotalsOf(t, u);
    assert u in ActiveDrivers(t);
    assert x in totals;
    assert TopDriverRows(t, limit) == Limit(SortBy(totals, HigherDriverAvg), TopLimit(limit));
    TopComesFirst(totals, HigherDriverAvg, TopLimit(limit), x);
  }

  /** A row of the answer: `avg_efficiency` rounded. */
  datatype TopDriver = TopDriver(userId: int, name: string, tripCount: nat, avgEfficiency: real,
                                 totalDistance: real, totalFuel: real)

  function TopDriverOf(row: DriverTotals, round: real -> real): TopDriver {
    TopDriver(row.userId, row.name, row.tripCount, round(row.avgEfficiency.GetOr(0.0)), row.totalDistance, row.totalFuel)
  }

  function RoundedTop(round: real -> real): DriverTotals -> TopDriver {
    (row: DriverTotals) => TopDriverOf(row, round)
  }

  /** What each answered row says about its driver, and the order of the rows. */
  ghost predicate TopDriversBody(t: Tables, body: seq<TopDriver>, round: real -> real) {
    && (forall d :: d in body ==> TopDriverRow(t, d, round))
    && (forall i, j :: 0 <= i < j < |body| ==> OptGe(DriverAvg(t, body[i].userId), DriverAvg(t, body[j].userId)))
  }

  /**
   * One answered row: a driver with trips, under its own name, with its trip
   * count, its rounded average and the SUMs of its distances and fuel.
   */
  ghost predicate TopDriverRow(t: Tables, d: TopDriver, round: real -> real) {
    var ts := TripsOfDriver(t.trips, d.userId);
    && (exists u :: u in t.users && u.id == d.userId && u.name == d.name && ActiveDriver(t, u))
    && d.tripCount == |ts| > 0
    && DriverAvg(t, d.userId).Some? && d.avgEfficiency == round(DriverAvg(t, d.userId).value)
    && d.totalDistance == SumOf(ts, TripDistance) && d.totalFuel == SumOf(ts, TripFuel)
  }

  /** The rounded rows are what `TopDriversBody` states. */
  lemma TopDriversBodyFacts(t: Tables, limit: Option<int>, round: real -> real)
    requires forall row :: row in TopDriverRows(t, limit) ==> row.avgEfficiency.Some?
    ensures TopDriversBody(t, Map(TopDriverRows(t, limit), RoundedTop(round)), round)
  {
    var rows := TopDriverRows(t, limit);
    var body := Map(rows, RoundedTop(round));
    TopDriverRowsFacts(t, limit);
    forall row | row in rows ensures row.avgEfficiency == DriverAvg(t, row.userId) && row.tripCount == |TripsOfDriver(t.trips, row.userId)| > 0 {
      var u :| u in t.users && ActiveDriver(t, u) && row == DriverTotalsOf(t, u);
    }
    forall d | d in body ensures TopDriverRow(t, d, round) {
      var i :| 0 <= i < |body| && body[i] == d;
      assert rows[i] in rows;
      var u :| u in t.users && ActiveDriver(t, u) && rows[i] == DriverTotalsOf(t, u);
    }
    forall i, j | 0 <= i < j < |body| ensures OptGe(DriverAvg(t, body[i].userId), DriverAvg(t, body[j].userId)) {
      assert rows[i] in rows && rows[j] in rows;
      assert HigherDriverAvg(rows[i], rows[j]);
    }
  }

  /** With user ids unique, the answer names each driver once. */
  lemma TopDriversBodyDistinct(t: Tables, limit: Option<int>, round: real -> real)
    ensures Pairwise(t.users, UserRowsOrdered) ==>
      var body := Map(TopDriverRows(t, limit), RoundedTop(round));
      forall i, j :: 0 <= i < j < |body| ==> body[i].userId != body[j].userId
  {
    if Pairwise(t.users, UserRowsOrdered) {
      TopDriverIdsDistinct(t, limit);
    }
  }

  /**
   * `GET /top-drivers`: drivers with trips ranked by average efficiency, at
   * most `limit` of them; `d.avg_efficiency.toFixed` throws on a listed
   * driver without an average, which answers 500.
   */
  function TopDrivers(t: Tables, p: Principal, limit: Option<int>, round: real -> real): (r: Reply<seq<TopDriver>>)
    ensures !Authorized(p, [ADMIN, MANAGER]) ==> r == Denied
    ensures Authorized(p, [ADMIN, MANAGER]) ==> r.Success? || r == Failure(ServerError, SERVER_ERROR)
    ensures r.Success? ==> r.status == Ok && |r.body| == Capped(TopLimit(limit), |ActiveDrivers(t)|)
    ensures r.Success? ==> TopDriversBody(t, r.body, round)
    ensures r.Success? && Pairwise(t.users, UserRowsOrdered) ==>
      forall i, j :: 0 <= i < j < |r.body| ==> r.body[i].userId != r.body[j].userId
    ensures r.Failure? ==> exists u :: u in t.users && ActiveDriver(t, u) && DriverAvg(t, u.id).None?
    ensures Authorized(p, [ADMIN, MANAGER]) && (forall u :: u in t.users && ActiveDriver(t, u) ==> DriverAvg(t, u.id).Some?)
      ==> r.Success?
  {
    if !Authorized(p, [ADMIN, MANAGER]) then Denied
    else
      var rows := TopDriverRows(t, limit);
      TopDriverRowsFacts(t, limit);
      if exists row :: row in rows && row.avgEfficiency.None? then
        var row :| row in rows && row.avgEfficiency.None?;
        var u :| u in t.users && ActiveDriver(t, u) && row == DriverTotalsOf(t, u);
        Failure(ServerError, SERVER_ERROR)
      else
        TopDriversBodyFacts(t, limit, round);
        TopDriversBodyDistinct(t, limit, round);
        Success(Ok, Map(rows, RoundedTop(round)))
  }

  // ----- GET /vehicle-efficiency -----

  /** One row of the vehicle-efficiency query (a LEFT JOIN: every vehicle, with or without trips). */
  datatype VehicleTotals = VehicleTotals(vehicleId: int, number: string, model: string, fuelType: string,
                                         tripCount: nat, avgEfficiency: Option<real>, totalDistance: real, totalFuel: real)

  /** The group of one vehicle; `SUM(...) || 0` makes the sums over no trips 0. */
  function VehicleTotalsOf(t: Tables, v: Vehicle): VehicleTotals {
    var ts := TripsOfVehicle(t.trips, v.id);
    VehicleTotals(v.id, v.number, v.model, v.fuelType, |ts|, AvgEfficiency(ts), SumOf(ts, TripDistance), SumOf(ts, TripFuel))
  }

  predicate HigherVehicleAvg(a: VehicleTotals, b: VehicleTotals) { OptGe(a.avgEfficiency, b.avgEfficiency) }

  lemma HigherVehicleAvgOrder()
    ensures TotalPreorder(HigherVehicleAvg)
  {
  }

  function RoundedTotals(round: real -> real): VehicleTotals -> VehicleTotals {
    (x: VehicleTotals) => x.(avgEfficiency := RoundOrNull(x.avgEfficiency, round))
  }

  /** `GET /vehicle-efficiency`: every vehicle with its trip totals, by descending average efficiency. */
  function VehicleEfficiency(t: Tables, p: Principal, round: real -> real): (r: Reply<seq<VehicleTotals>>)
    ensures !Authorized(p, [ADMIN, MANAGER]) ==> r == Denied
    ensures Authorized(p, [ADMIN, MANAGER]) ==> r.Success? && r.status == Ok && |r.body| == |t.vehicles|
    ensures r.Success? ==> forall v :: v in t.vehicles ==> RoundedTotals(round)(VehicleTotalsOf(t, v)) in r.body
    ensures r.Success? ==> forall x :: x in r.body ==>
      exists v :: v in t.vehicles && x == RoundedTotals(round)(VehicleTotalsOf(t, v))
    ensures r.Success? ==> forall i, j :: 0 <= i < j < |r.body| ==>
      OptGe(VehicleAvg(t, r.body[i].vehicleId), VehicleAvg(t, r.body[j].vehicleId))
  {
    if !Authorized(p, [ADMIN, MANAGER]) then Denied
    else
      RankedTotalsFacts(t, round);
      Success(Ok, Map(ByEfficiency(t), RoundedTotals(round)))
  }

  /** Rounding the ranked groups keeps one row per vehicle and the ranking. */
  lemma RankedTotalsFacts(t: Tables, round: real -> real)
    ensures |Map(ByEfficiency(t), RoundedTotals(round))| == |t.vehicles|
    ensures forall v :: v in t.vehicles ==> RoundedTotals(round)(VehicleTotalsOf(t, v)) in Map(ByEfficiency(t), RoundedTotals(round))
    ensures forall x :: x in Map(ByEfficiency(t), RoundedTotals(round)) ==>
      exists v :: v in t.vehicles && x == RoundedTotals(round)(VehicleTotalsOf(t, v))
    ensures forall i, j :: 0 <= i < j < |Map(ByEfficiency(t), RoundedTotals(round))| ==>
      OptGe(VehicleAvg(t, Map(ByEfficiency(t), RoundedTotals(round))[i].vehicleId),
            VehicleAvg(t, Map(ByEfficiency(t), RoundedTotals(round))[j].vehicleId))
  {
    var sorted := ByEfficiency(t);
    var body := Map(sorted, RoundedTotals(round));
    assert forall i :: 0 <= i < |sorted| ==> body[i].vehicleId == sorted[i].vehicleId;
    forall x | x in body ensures exists v :: v in t.vehicles && x == RoundedTotals(round)(VehicleTotalsOf(t, v)) {
      var w :| w in sorted && x == RoundedTotals(round)(w);
      var v :| v in t.vehicles && w == VehicleTotalsOf(t, v);
    }
  }

  /** The vehicle groups of the query, before rounding, by descending average efficiency. */
  function ByEfficiency(t: Tables): (r: seq<VehicleTotals>)
    ensures |r| == |t.vehicles|
    ensures forall v :: v in t.vehicles ==> VehicleTotalsOf(t, v) in r
    ensures forall x :: x in r ==> exists v :: v in t.vehicles && x == VehicleTotalsOf(t, v)
    ensures forall i, j :: 0 <= i < j < |r| ==> OptGe(VehicleAvg(t, r[i].vehicleId), VehicleAvg(t, r[j].vehicleId))
  {
    HigherVehicleAvgOrder();
    var sorted := SortBy(Map(t.vehicles, (v: Vehicle) => VehicleTotalsOf(t, v)), HigherVehicleAvg);
    assert forall x :: x in sorted ==> x.avgEfficiency == VehicleAvg(t, x.vehicleId);
    assert forall i :: 0 <= i < |sorted| ==> sorted[i] in sorted;
    sorted
  }

  // ----- GET /fuel-usage -----

  /** The `strftime` format for `req.query.period || 'month'`. */
  function PeriodFormat(period: Field<string>): (r: string)
    ensures TextOr(period, "month") == "day" ==> r == "%Y-%m-%d"
    ensures TextOr(period, "month") == "week" ==> r == "%Y-%W"
    ensures TextOr(period, "month") != "day" && TextOr(period, "month") != "week" ==> r == "%Y-%m"
  {
    var kind := TextOr(period, "month");
    if kind == "day" then "%Y-%m-%d" else if kind == "week" then "%Y-%W" else "%Y-%m"
  }

  /** The group key `strftime(format, trip_date)`. */
  function TripPeriod(format: string, strftime: (string, int) -> string): Trip -> string {
    (x: Trip) => strftime(format, x.date)
  }

  /** One group of the fuel-usage query. */
  datatype PeriodUsage = PeriodUsage(period: string, totalFuel: real, totalDistance: real, avgEfficiency: Option<real>)

  function UsageOf(ts: seq<Trip>, key: Trip -> string, k: string): PeriodUsage {
    var g := Filter(ts, KeyIs(key, k));
    PeriodUsage(k, SumOf(g, TripFuel), SumOf(g, TripDistance), AvgEfficiency(g))
  }

  /** The groups with keys `ks`, in that order. */
  function UsageRows(ts: seq<Trip>, key: Trip -> string, ks: seq<string>): (r: seq<PeriodUsage>)
    ensures |r| == |ks|
    ensures forall i :: 0 <= i < |ks| ==> r[i] == UsageOf(ts, key, ks[i])
  {
    if ks == [] then [] else [UsageOf(ts, key, ks[0])] + UsageRows(ts, key, ks[1..])
  }

  /** `GROUP BY period`: one group per period some trip falls in. */
  function PeriodRows(ts: seq<Trip>, key: Trip -> string): seq<PeriodUsage> {
    UsageRows(ts, key, Distinct(Map(ts, key)))
  }

  /** The groups are distinct, each is the group of its own period, and every trip's period has one. */
  lemma PeriodRowsFacts(ts: seq<Trip>, key: Trip -> string)
    ensures NoDup(PeriodRows(ts, key))
    ensures forall x :: x in PeriodRows(ts, key) ==> x == UsageOf(ts, key, x.period) && exists y :: y in ts && key(y) == x.period
    ensures forall y :: y in ts ==> UsageOf(ts, key, key(y)) in PeriodRows(ts, key)
  {
    var keys := Map(ts, key);
    var ks := Distinct(keys);
    var r := PeriodRows(ts, key);
    forall i, j | 0 <= i < j < |r| ensures r[i] != r[j] {
      assert r[i].period == ks[i] && r[j].period == ks[j];
    }
    forall x | x in r ensures x == UsageOf(ts, key, x.period) && exists y :: y in ts && key(y) == x.period {
      var i :| 0 <= i < |r| && r[i] == x;
      assert ks[i] in ks && ks[i] in keys;
      var y :| y in ts && ks[i] == key(y);
    }
    forall y | y in ts ensures UsageOf(ts, key, key(y)) in r {
      assert key(y) in keys;
      var i :| 0 <= i < |ks| && ks[i] == key(y);
      assert r[i] == UsageOf(ts, key, key(y));
    }
  }

  predicate LaterPeriod(a: PeriodUsage, b: PeriodUsage) { StrLe(b.period, a.period) }

  lemma LaterPeriodOrder()
    ensures TotalPreorder(LaterPeriod)
  {
    forall a, b ensures LaterPeriod(a, b) || LaterPeriod(b, a) {
      StrLeTotal(a.period, b.period);
    }
    forall a, b, c | LaterPeriod(a, b) && LaterPeriod(b, c) ensures LaterPeriod(a, c) {
      StrLeTrans(c.period, b.period, a.period);
    }
  }

  function UsageFuel(u: PeriodUsage): real { u.totalFuel }

  lemma {:induction false} UsageRowsFuel(ts: seq<Trip>, key: Trip -> string, ks: seq<string>)
    ensures SumOf(UsageRows(ts, key, ks), UsageFuel) == GroupTotal(ts, key, ks, TripFuel)
  {
    if ks != [] {
      UsageRowsFuel(ts, key, ks[1..]);
      var r := UsageRows(ts, key, ks);
      assert r[1..] == UsageRows(ts, key, ks[1..]);
    }
  }

  /** The periods' fuel totals add up to the fuel of all trips: every trip is counted in exactly one period. */
  lemma PeriodFuelPartition(ts: seq<Trip>, key: Trip -> string)
    ensures SumOf(PeriodRows(ts, key), UsageFuel) == SumOf(ts, TripFuel)
  {
    var ks := Distinct(Map(ts, key));
    assert forall y :: y in ts ==> key(y) in ks;
    UsageRowsFuel(ts, key, ks);
    GroupTotalPartition(ts, key, ks, TripFuel);
  }

  function RoundedUsage(round: real -> real): PeriodUsage -> PeriodUsage {
    (x: PeriodUsage) => x.(avgEfficiency := RoundOrNull(x.avgEfficiency, round))
  }

  /** The groups in descending period order, cut at 12. */
  function LatestPeriods(ts: seq<Trip>, key: Trip -> string): seq<PeriodUsage> {
    LaterPeriodOrder();
    Limit(SortBy(PeriodRows(ts, key), LaterPeriod), 12)
  }

  /**
   * The twelve latest periods, or all of them when there are fewer: a trip
   * whose period is not listed falls before every listed period.
   */
  lemma LatestPeriodsFacts(ts: seq<Trip>, key: Trip -> string)
    ensures |LatestPeriods(ts, key)| == Capped(12, |Distinct(Map(ts, key))|)
    ensures forall y :: y in ts && (forall x :: x in LatestPeriods(ts, key) ==> x.period != key(y)) ==>
      forall x :: x in LatestPeriods(ts, key) ==> StrLe(key(y), x.period)
    ensures forall i, j :: 0 <= i < j < |LatestPeriods(ts, key)| ==>
      StrLe(LatestPeriods(ts, key)[j].period, LatestPeriods(ts, key)[i].period)
      && LatestPeriods(ts, key)[i].period != LatestPeriods(ts, key)[j].period
    ensures forall x :: x in LatestPeriods(ts, key) ==> x in PeriodRows(ts, key)
  {
    LaterPeriodOrder();
    PeriodRowsFacts(ts, key);
    var all := PeriodRows(ts, key);
    var sorted := SortBy(all, LaterPeriod);
    NoDupPermutation(all, sorted);
    var r := LatestPeriods(ts, key);
    assert r <= sorted;
    forall i, j | 0 <= i < j < |r| ensures StrLe(r[j].period, r[i].period) && r[i].period != r[j].period {
      assert r[i] == sorted[i] && r[j] == sorted[j];
      assert sorted[i] in all && sorted[j] in all;
      assert LaterPeriod(sorted[i], sorted[j]);
    }
    forall x | x in r ensures x in all {
      var i :| 0 <= i < |r| && r[i] == x;
      assert sorted[i] in sorted;
    }
    forall y | y in ts && (forall x :: x in r ==> x.period != key(y))
      ensures forall x :: x in r ==> StrLe(key(y), x.period)
    {
      LatestPeriodOmitted(ts, key, y);
    }
  }

  /** One trip whose period is not among the latest: it falls before each of them. */
  lemma LatestPeriodOmitted(ts: seq<Trip>, key: Trip -> string, y: Trip)
    requires y in ts && forall x :: x in LatestPeriods(ts, key) ==> x.period != key(y)
    ensures forall x :: x in LatestPeriods(ts, key) ==> StrLe(key(y), x.period)
  {
    LaterPeriodOrder();
    PeriodRowsFacts(ts, key);
    var all := PeriodRows(ts, key);
    var cut := UsageOf(ts, key, key(y));
    assert cut in all && cut !in LatestPeriods(ts, key);
    TopComesFirst(all, LaterPeriod, 12, cut);
  }

  /** The answered groups: the latest periods, averages rounded. */
  function UsageBody(ts: seq<Trip>, key: Trip -> string, round: real -> real): seq<PeriodUsage> {
    Map(LatestPeriods(ts, key), RoundedUsage(round))
  }

  /** The answer lists as many periods as the query keeps, latest first, each once. */
  lemma UsageBodyOrder(ts: seq<Trip>, key: Trip -> string, round: real -> real)
    ensures |UsageBody(ts, key, round)| == Capped(12, |Distinct(Map(ts, key))|)
    ensures forall i, j :: 0 <= i < j < |UsageBody(ts, key, round)| ==>
      StrLe(UsageBody(ts, key, round)[j].period, UsageBody(ts, key, round)[i].period)
      && UsageBody(ts, key, round)[i].period != UsageBody(ts, key, round)[j].period
  {
    var rows := LatestPeriods(ts, key);
    var body := UsageBody(ts, key, round);
    LatestPeriodsFacts(ts, key);
    forall i, j | 0 <= i < j < |body| ensures StrLe(body[j].period, body[i].period) && body[i].period != body[j].period {
      assert body[i].period == rows[i].period && body[j].period == rows[j].period;
    }
  }

  /** A trip whose period the answer leaves out falls before every answered period. */
  lemma UsageBodyLatest(ts: seq<Trip>, key: Trip -> string, round: real -> real)
    ensures forall y :: y in ts && (forall x :: x in UsageBody(ts, key, round) ==> x.period != key(y)) ==>
      forall x :: x in UsageBody(ts, key, round) ==> StrLe(key(y), x.period)
  {
    forall y | y in ts && (forall x :: x in UsageBody(ts, key, round) ==> x.period != key(y))
      ensures forall x :: x in UsageBody(ts, key, round) ==> StrLe(key(y), x.period)
    {
      UsageBodyOmitted(ts, key, round, y);
    }
  }

  lemma UsageBodyOmitted(ts: seq<Trip>, key: Trip -> string, round: real -> real, y: Trip)
    requires y in ts && forall x :: x in UsageBody(ts, key, round) ==> x.period != key(y)
    ensures forall x :: x in UsageBody(ts, key, round) ==> StrLe(key(y), x.period)
  {
    var rows := LatestPeriods(ts, key);
    var body := UsageBody(ts, key, round);
    forall w | w in rows ensures w.period != key(y) {
      var i :| 0 <= i < |rows| && rows[i] == w;
      assert body[i] in body && body[i].period == w.period;
    }
    LatestPeriodOmitted(ts, key, y);
    forall x | x in body ensures StrLe(key(y), x.period) {
      var i :| 0 <= i < |body| && body[i] == x;
      assert rows[i] in rows && rows[i].period == x.period;
    }
  }

  /** Each answered period carries the totals of its own, non-empty, group of trips. */
  lemma UsageBodyTotals(ts: seq<Trip>, key: Trip -> string, round: real -> real)
    ensures forall x :: x in UsageBody(ts, key, round) ==>
      var g := Filter(ts, KeyIs(key, x.period));
      && g != []
      && x.totalFuel == SumOf(g, TripFuel) && x.totalDistance == SumOf(g, TripDistance)
      && x.avgEfficiency == RoundOrNull(AvgEfficiency(g), round)
  {
    var rows := LatestPeriods(ts, key);
    var body := UsageBody(ts, key, round);
    LatestPeriodsFacts(ts, key);
    PeriodRowsFacts(ts, key);
    forall x | x in body
      ensures var g := Filter(ts, KeyIs(key, x.period));
              && g != []
              && x.totalFuel == SumOf(g, TripFuel) && x.totalDistance == SumOf(g, TripDistance)
              && x.avgEfficiency == RoundOrNull(AvgEfficiency(g), round)
    {
      var i :| 0 <= i < |body| && body[i] == x;
      var w := rows[i];
      assert w in rows;
      var y :| y in ts && key(y) == w.period;
      assert y in Filter(ts, KeyIs(key, w.period));
    }
  }

  /**
   * `GET /fuel-usage`: the fuel, distance and average efficiency of each
   * day, week or month with trips, latest first: the 12 latest periods, or
   * every period when there are fewer.
   */
  function FuelUsage(t: Tables, p: Principal, period: Field<string>, strftime: (string, int) -> string,
                     round: real -> real): (r: Reply<seq<PeriodUsage>>)
    ensures !Authorized(p, [ADMIN, MANAGER]) ==> r == Denied
    ensures Authorized(p, [ADMIN, MANAGER]) ==> r.Success? && r.status == Ok
    ensures r.Success? ==>
      var key := TripPeriod(PeriodFormat(period), strftime);
      && |r.body| == Capped(12, |Distinct(Map(t.trips, key))|)
      && (forall y :: y in t.trips && (forall x :: x in r.body ==> x.period != key(y)) ==>
            forall x :: x in r.body ==> StrLe(key(y), x.period))
    ensures r.Success? ==> forall i, j :: 0 <= i < j < |r.body| ==>
      StrLe(r.body[j].period, r.body[i].period) && r.body[i].period != r.body[j].period
    ensures r.Success? ==> forall x :: x in r.body ==>
      var key := TripPeriod(PeriodFormat(period), strftime);
      var g := Filter(t.trips, KeyIs(key, x.period));
      && g != []
      && x.totalFuel == SumOf(g, TripFuel) && x.totalDistance == SumOf(g, TripDistance)
      && x.avgEfficiency == RoundOrNull(AvgEfficiency(g), round)
  {
    if !Authorized(p, [ADMIN, MANAGER]) then Denied
    else
      var key := TripPeriod(PeriodFormat(period), strftime);
      UsageBodyOrder(t.trips, key, round);
      UsageBodyLatest(t.trips, key, round);
      UsageBodyTotals(t.trips, key, round);
      Success(Ok, UsageBody(t.trips, key, round))
  }

  // ----- GET /maintenance-reminders -----

  const NO_SERVICE_RECORD := "No service record"
  const DUE_FOR_SERVICE := "Due for service"
  const SERVICE_OK := "OK"

  /** `parseInt(req.query.days) || 30`, with `None` for NaN. */
  function DaysThreshold(days: Option<int>): int {
    if days.None? || days.value == 0 then 30 else days.value
  }

  /**
   * The CASE of the reminders query. `date('now', '-' || n || ' days')` is
   * `today - n`; for a negative `n` the modifier reads `--n days`, which
   * SQLite does not parse, so the date is NULL, the comparison NULL and the
   * status falls to `ELSE 'OK'`.
   */
  function ReminderStatus(lastService: Option<int>, today: int, threshold: int): (r: string)
    ensures r == NO_SERVICE_RECORD <==> lastService.None?
    ensures r == DUE_FOR_SERVICE <==> lastService.Some? && threshold >= 0 && today - lastService.value >= threshold
    ensures r == SERVICE_OK <==> lastService.Some? && !(threshold >= 0 && today - lastService.value >= threshold)
  {
    match lastService
    case None => NO_SERVICE_RECORD
    case Some(last) =>
      if threshold >= 0 && today - threshold >= last then DUE_FOR_SERVICE else SERVICE_OK
  }

  /** A vehicle row with `service_status` and `days_since_service` (NULL without a service date). */
  datatype Reminder = Reminder(vehicle: Vehicle, serviceStatus: string, daysSinceService: Option<int>)

  function ReminderOf(today: int, threshold: int): Vehicle -> Reminder {
    (v: Vehicle) => Reminder(v, ReminderStatus(v.lastService, today, threshold),
                             if v.lastService.Some? then Some(today - v.lastService.value) else None)
  }

  function ReminderVehicle(x: Reminder): Vehicle { x.vehicle }

  /** `ORDER BY v.last_service_date ASC`: vehicles never serviced first, then the longest unserviced. */
  predicate EarlierService(a: Reminder, b: Reminder) {
    a.vehicle.lastService.None? || (b.vehicle.lastService.Some? && a.vehicle.lastService.value <= b.vehicle.lastService.value)
  }

  lemma EarlierServiceOrder()
    ensures TotalPreorder(EarlierService)
  {
  }

  /** `GET /maintenance-reminders`: every vehicle once, with its service status, never serviced first. */
  function MaintenanceReminders(t: Tables, p: Principal, days: Option<int>, today: int): (r: Reply<seq<Reminder>>)
    ensures !Authorized(p, [ADMIN, MANAGER]) ==> r == Denied
    ensures Authorized(p, [ADMIN, MANAGER]) ==> r.Success? && r.status == Ok
    ensures r.Success? ==> multiset(Map(r.body, ReminderVehicle)) == multiset(t.vehicles)
    ensures r.Success? ==> forall x :: x in r.body ==>
      && x.serviceStatus == ReminderStatus(x.vehicle.lastService, today, DaysThreshold(days))
      && (x.daysSinceService.Some? <==> x.vehicle.lastService.Some?)
      && (x.daysSinceService.Some? ==> x.daysSinceService.value == today - x.vehicle.lastService.value)
    ensures r.Success? ==> Pairwise(r.body, EarlierService)
  {
    if !Authorized(p, [ADMIN, MANAGER]) then Denied
    else
      EarlierServiceOrder();
      var rows := Map(t.vehicles, ReminderOf(today, DaysThreshold(days)));
      var body := SortBy(rows, EarlierService);
      VehiclesOfReminders(t.vehicles, today, DaysThreshold(days));
      MapPermutation(rows, body, ReminderVehicle);
      Success(Ok, body)
  }

  lemma VehiclesOfReminders(vs: seq<Vehicle>, today: int, threshold: int)
    ensures Map(Map(vs, ReminderOf(today, threshold)), ReminderVehicle) == vs
  {
  }

  // ----- GET /low-efficiency-vehicles -----

  /** `parseFloat(req.query.threshold) || 10`, with `None` for NaN. */
  function LowThreshold(threshold: Option<real>): real {
    if threshold.None? || threshold.value == 0.0 then 10.0 else threshold.value
  }

  /** One row of the low-efficiency query, before rounding. */
  datatype LowEfficiency = LowEfficiency(vehicleId: int, number: string, model: string, fuelType: string,
                                         avgEfficiency: real, tripCount: nat)

  /**
   * The group of a vehicle if it passes `HAVING avg_efficiency < ?`: the
   * inner JOIN drops vehicles without trips, and a NULL average never passes.
   */
  function LowRowOf(t: Tables, threshold: real, v: Vehicle): Option<LowEfficiency> {
    var ts := TripsOfVehicle(t.trips, v.id);
    var avg := AvgEfficiency(ts);
    if avg.Some? && avg.value < threshold then Some(LowEfficiency(v.id, v.number, v.model, v.fuelType, avg.value, |ts|))
    else None
  }

  predicate LowerAvg(a: LowEfficiency, b: LowEfficiency) { a.avgEfficiency <= b.avgEfficiency }

  lemma LowerAvgOrder()
    ensures TotalPreorder(LowerAvg)
  {
  }

  function RoundedLow(round: real -> real): LowEfficiency -> LowEfficiency {
    (x: LowEfficiency) => x.(avgEfficiency := round(x.avgEfficiency))
  }

  /** The rows of the query in `ORDER BY avg_efficiency ASC` order. */
  function LowRows(t: Tables, threshold: real): seq<LowEfficiency> {
    LowerAvgOrder();
    SortBy(Collect(t.vehicles, (v: Vehicle) => LowRowOf(t, threshold, v)), LowerAvg)
  }

  /** Each listed row is a vehicle averaging under the threshold, with its rounded average and trip count. */
  ghost predicate LowSound(t: Tables, threshold: real, body: seq<LowEfficiency>, round: real -> real) {
    forall x :: x in body ==>
      && (exists v :: v in t.vehicles && v.id == x.vehicleId && v.number == x.number && v.model == x.model && v.fuelType == x.fuelType)
      && VehicleAvg(t, x.vehicleId).Some? && VehicleAvg(t, x.vehicleId).value < threshold
      && x.avgEfficiency == round(VehicleAvg(t, x.vehicleId).value)
      && x.tripCount == |TripsOfVehicle(t.trips, x.vehicleId)| > 0
  }

  /** Every vehicle averaging under the threshold is listed. */
  ghost predicate LowComplete(t: Tables, threshold: real, body: seq<LowEfficiency>) {
    forall v :: v in t.vehicles && VehicleAvg(t, v.id).Some? && VehicleAvg(t, v.id).value < threshold ==>
      exists x :: x in body && x.vehicleId == v.id
  }

  /** Least efficient first. */
  ghost predicate LowAscending(t: Tables, body: seq<LowEfficiency>) {
    forall i, j :: 0 <= i < j < |body| ==>
      VehicleAvg(t, body[i].vehicleId).GetOr(0.0) <= VehicleAvg(t, body[j].vehicleId).GetOr(0.0)
  }

  /** A vehicle's row, when it has one, carries its own average and trip count. */
  lemma LowRowOfFacts(t: Tables, threshold: real, v: Vehicle)
    ensures LowRowOf(t, threshold, v).Some? <==> VehicleAvg(t, v.id).Some? && VehicleAvg(t, v.id).value < threshold
    ensures LowRowOf(t, threshold, v).Some? ==>
      var x := LowRowOf(t, threshold, v).value;
      && x.vehicleId == v.id && x.number == v.number && x.model == v.model && x.fuelType == v.fuelType
      && VehicleAvg(t, v.id) == Some(x.avgEfficiency)
      && x.tripCount == |TripsOfVehicle(t.trips, v.id)| > 0
  {
    var ts := TripsOfVehicle(t.trips, v.id);
    if ts == [] {
      assert Map(ts, TripEfficiency) == [];
    }
  }

  /** A vehicle the query keeps: one whose trips average under the threshold. */
  function LowVehicle(t: Tables, threshold: real): Vehicle -> bool {
    (v: Vehicle) => VehicleAvg(t, v.id).Some? && VehicleAvg(t, v.id).value < threshold
  }

  /**
   * The query's rows: one per vehicle averaging under the threshold, each
   * carrying that vehicle's columns, average and trip count, ascending.
   */
  lemma LowRowsMembers(t: Tables, threshold: real)
    ensures |LowRows(t, threshold)| == |Filter(t.vehicles, LowVehicle(t, threshold))|
    ensures forall x :: x in LowRows(t, threshold) ==>
      && (exists v :: v in t.vehicles && v.id == x.vehicleId && v.number == x.number && v.model == x.model && v.fuelType == x.fuelType)
      && VehicleAvg(t, x.vehicleId) == Some(x.avgEfficiency) && x.avgEfficiency < threshold
      && x.tripCount == |TripsOfVehicle(t.trips, x.vehicleId)| > 0
    ensures forall v :: v in t.vehicles && VehicleAvg(t, v.id).Some? && VehicleAvg(t, v.id).value < threshold ==>
      LowRowOf(t, threshold, v).Some? && LowRowOf(t, threshold, v).value in LowRows(t, threshold)
    ensures Pairwise(LowRows(t, threshold), LowerAvg)
  {
    LowerAvgOrder();
    var f := (v: Vehicle) => LowRowOf(t, threshold, v);
    var rows := LowRows(t, threshold);
    assert rows == SortBy(Collect(t.vehicles, f), LowerAvg);
    forall v | v in t.vehicles ensures Defined(f)(v) == LowVehicle(t, threshold)(v) {
      LowRowOfFacts(t, threshold, v);
    }
    FilterSame(t.vehicles, Defined(f), LowVehicle(t, threshold));
    forall x | x in rows
      ensures && (exists v :: v in t.vehicles && v.id == x.vehicleId && v.number == x.number && v.model == x.model && v.fuelType == x.fuelType)
              && VehicleAvg(t, x.vehicleId) == Some(x.avgEfficiency) && x.avgEfficiency < threshold
              && x.tripCount == |TripsOfVehicle(t.trips, x.vehicleId)| > 0
    {
      var v :| v in t.vehicles && f(v) == Some(x);
      LowRowOfFacts(t, threshold, v);
    }
    forall v | v in t.vehicles && VehicleAvg(t, v.id).Some? && VehicleAvg(t, v.id).value < threshold
      ensures LowRowOf(t, threshold, v).Some? && LowRowOf(t, threshold, v).value in rows
    {
      LowRowOfFacts(t, threshold, v);
      assert f(v) == Some(LowRowOf(t, threshold, v).value);
    }
  }

  lemma LowBodySound(t: Tables, threshold: real, round: real -> real)
    ensures LowSound(t, threshold, Map(LowRows(t, threshold), RoundedLow(round)), round)
  {
    var rows := LowRows(t, threshold);
    var body := Map(rows, RoundedLow(round));
    forall x | x in body
      ensures && (exists v :: v in t.vehicles && v.id == x.vehicleId && v.number == x.number && v.model == x.model && v.fuelType == x.fuelType)
              && VehicleAvg(t, x.vehicleId).Some? && VehicleAvg(t, x.vehicleId).value < threshold
              && x.avgEfficiency == round(VehicleAvg(t, x.vehicleId).value)
              && x.tripCount == |TripsOfVehicle(t.trips, x.vehicleId)| > 0
    {
      var i :| 0 <= i < |body| && body[i] == x;
      var y := rows[i];
      LowRowMember(t, threshold, y);
      var v :| v in t.vehicles && v.id == y.vehicleId && v.number == y.number && v.model == y.model && v.fuelType == y.fuelType;
      assert x == y.(avgEfficiency := round(y.avgEfficiency));
    }
  }

  /** One row of the query, as `LowRowsMembers` states it for all. */
  lemma LowRowMember(t: Tables, threshold: real, y: LowEfficiency)
    requires y in LowRows(t, threshold)
    ensures exists v :: v in t.vehicles && v.id == y.vehicleId && v.number == y.number && v.model == y.model && v.fuelType == y.fuelType
    ensures VehicleAvg(t, y.vehicleId) == Some(y.avgEfficiency) && y.avgEfficiency < threshold
    ensures y.tripCount == |TripsOfVehicle(t.trips, y.vehicleId)| > 0
  {
    LowRowsMembers(t, threshold);
  }

  lemma LowBodyComplete(t: Tables, threshold: real, round: real -> real)
    ensures LowComplete(t, threshold, Map(LowRows(t, threshold), RoundedLow(round)))
  {
    var rows := LowRows(t, threshold);
    var body := Map(rows, RoundedLow(round));
    LowRowsMembers(t, threshold);
    forall v | v in t.vehicles && VehicleAvg(t, v.id).Some? && VehicleAvg(t, v.id).value < threshold
      ensures exists x :: x in body && x.vehicleId == v.id
    {
      var y := LowRowOf(t, threshold, v).value;
      var i :| 0 <= i < |rows| && rows[i] == y;
      LowRowOfFacts(t, threshold, v);
      assert body[i] in body;
    }
  }

  lemma LowBodyAscending(t: Tables, threshold: real, round: real -> real)
    ensures LowAscending(t, Map(LowRows(t, threshold), RoundedLow(round)))
  {
    var rows := LowRows(t, threshold);
    var body := Map(rows, RoundedLow(round));
    LowRowsMembers(t, threshold);
    forall i, j | 0 <= i < j < |body|
      ensures VehicleAvg(t, body[i].vehicleId).GetOr(0.0) <= VehicleAvg(t, body[j].vehicleId).GetOr(0.0)
    {
      assert rows[i] in rows && rows[j] in rows;
      assert LowerAvg(rows[i], rows[j]);
    }
  }

  /** `GET /low-efficiency-vehicles`: the vehicles whose trips average under the threshold, least efficient first. */
  function LowEfficiencyVehicles(t: Tables, p: Principal, threshold: Option<real>, round: real -> real)
    : (r: Reply<seq<LowEfficiency>>)
    ensures !Authorized(p, [ADMIN, MANAGER]) ==> r == Denied
    ensures Authorized(p, [ADMIN, MANAGER]) ==> r.Success? && r.status == Ok
    ensures r.Success? ==> LowSound(t, LowThreshold(threshold), r.body, round)
    ensures r.Success? ==> LowComplete(t, LowThreshold(threshold), r.body)
    ensures r.Success? ==> LowAscending(t, r.body)
    ensures r.Success? ==> |r.body| == |Filter(t.vehicles, LowVehicle(t, LowThreshold(threshold)))|
  {
    if !Authorized(p, [ADMIN, MANAGER]) then Denied
    else
      LowRowsMembers(t, LowThreshold(threshold));
      LowBodySound(t, LowThreshold(threshold), round);
      LowBodyComplete(t, LowThreshold(threshold), round);
      LowBodyAscending(t, LowThreshold(threshold), round);
      Success(Ok, Map(LowRows(t, LowThreshold(threshold)), RoundedLow(round)))
  }

  // ----- GET /reports -----

  const SUMMARY := "summary"
  const DRIVER_PERFORMANCE := "driver-performance"
  const VEHICLE_PERFORMANCE := "vehicle-performance"

  /** A row of `SELECT role, COUNT(*) as count FROM users GROUP BY role`. */
  datatype RoleCount = RoleCount(role: string, count: nat)

  function UserRole(u: User): string { u.role }

  function UsersWithRole(us: seq<User>, role: string): seq<User> {
    Filter(us, KeyIs(UserRole, role))
  }

  function RoleCountRows(us: seq<User>, roles: seq<string>): (r: seq<RoleCount>)
    ensures |r| == |roles|
    ensures forall i :: 0 <= i < |roles| ==> r[i] == RoleCount(roles[i], |UsersWithRole(us, roles[i])|)
  {
    if roles == [] then [] else [RoleCount(roles[0], |UsersWithRole(us, roles[0])|)] + RoleCountRows(us, roles[1..])
  }

  /** The role groups, in the role order SQLite's grouping sorter produces. */
  function RoleCounts(us: seq<User>): seq<RoleCount> {
    StrLeOrder();
    RoleCountRows(us, SortBy(Distinct(Map(us, UserRole)), StrLe))
  }

  function CountTotal(rs: seq<RoleCount>): nat {
    if rs == [] then 0 else rs[0].count + CountTotal(rs[1..])
  }

  lemma {:induction false} CountTotalRows(us: seq<User>, roles: seq<string>)
    ensures CountTotal(RoleCountRows(us, roles)) as real == GroupTotal(us, UserRole, roles, One)
  {
    if roles != [] {
      CountTotalRows(us, roles[1..]);
      SumOfOne(UsersWithRole(us, roles[0]));
      var r := RoleCountRows(us, roles);
      assert r[1..] == RoleCountRows(us, roles[1..]);
    }
  }

  /**
   * One group per role that some user has, in ascending role order, each
   * counting the users with that role; the counts add up to all users.
   */
  lemma RoleCountsFacts(us: seq<User>)
    ensures forall i, j :: 0 <= i < j < |RoleCounts(us)| ==>
      StrLe(RoleCounts(us)[i].role, RoleCounts(us)[j].role) && RoleCounts(us)[i].role != RoleCounts(us)[j].role
    ensures forall c :: c in RoleCounts(us) ==> c.count == |UsersWithRole(us, c.role)| > 0
    ensures forall u :: u in us ==> exists c :: c in RoleCounts(us) && c.role == u.role
    ensures CountTotal(RoleCounts(us)) == |us|
  {
    StrLeOrder();
    var roles := Map(us, UserRole);
    var ks := SortBy(Distinct(roles), StrLe);
    var rc := RoleCounts(us);
    NoDupPermutation(Distinct(roles), ks);
    forall i, j | 0 <= i < j < |rc| ensures StrLe(rc[i].role, rc[j].role) && rc[i].role != rc[j].role {
      assert rc[i].role == ks[i] && rc[j].role == ks[j];
    }
    forall c | c in rc ensures c.count == |UsersWithRole(us, c.role)| > 0 {
      var i :| 0 <= i < |rc| && rc[i] == c;
      assert ks[i] in ks && ks[i] in roles;
      var u :| u in us && ks[i] == UserRole(u);
      assert u in UsersWithRole(us, c.role);
    }
    forall u | u in us ensures exists c :: c in rc && c.role == u.role {
      assert UserRole(u) in roles && UserRole(u) in ks;
      var i :| 0 <= i < |ks| && ks[i] == u.role;
      assert rc[i] in rc;
    }
    assert forall u :: u in us ==> UserRole(u) in ks;
    CountTotalRows(us, ks);
    GroupTotalPartition(us, UserRole, ks, One);
    SumOfOne(us);
  }

  /** The summary report; every missing figure is 0. */
  datatype Summary = Summary(trips: nat, totalDistance: real, totalFuel: real, avgEfficiency: real,
                             users: seq<RoleCount>, totalVehicles: nat)

  function SummaryOf(t: Tables, round: real -> real): Summary {
    Summary(|t.trips|, SumOf(t.trips, TripDistance), SumOf(t.trips, TripFuel),
            RoundOrZero(AvgEfficiency(t.trips), round), RoleCounts(t.users), |t.vehicles|)
  }

  /** A row of the driver-performance report (a LEFT JOIN: drivers without trips have NULL sums and averages). */
  datatype DriverPerformance = DriverPerformance(userId: int, name: string, email: string, tripCount: nat,
                                                 totalDistance: Option<real>, totalFuel: Option<real>,
                                                 avgEfficiency: Option<real>, avgSpeed: Option<real>)

  function PerformanceOf(t: Tables, u: User): DriverPerformance {
    var ts := TripsOfDriver(t.trips, u.id);
    DriverPerformance(u.id, u.name, u.email, |ts|, SumOrNull(ts, TripDistance), SumOrNull(ts, TripFuel),
                      AvgEfficiency(ts), Avg(Map(ts, TripSpeed)))
  }

  predicate HigherPerformance(a: DriverPerformance, b: DriverPerformance) { OptGe(a.avgEfficiency, b.avgEfficiency) }

  lemma HigherPerformanceOrder()
    ensures TotalPreorder(HigherPerformance)
  {
  }

  function RoundedPerformance(round: real -> real): DriverPerformance -> DriverPerformance {
    (x: DriverPerformance) => x.(avgEfficiency := RoundOrNull(x.avgEfficiency, round), avgSpeed := RoundOrNull(x.avgSpeed, round))
  }

  /** The driver-performance rows, by descending average efficiency, averages rounded. */
  function DriverPerformanceRows(t: Tables, round: real -> real): seq<DriverPerformance> {
    HigherPerformanceOrder();
    var drivers := Filter(t.users, IsDriver);
    Map(SortBy(Map(drivers, (u: User) => PerformanceOf(t, u)), HigherPerformance), RoundedPerformance(round))
  }

  /** One row per driver user, trips or not. */
  lemma DriverPerformanceRowsCover(t: Tables, round: real -> real)
    ensures |DriverPerformanceRows(t, round)| == |Filter(t.users, IsDriver)|
    ensures forall u :: u in t.users && IsDriver(u) ==> RoundedPerformance(round)(PerformanceOf(t, u)) in DriverPerformanceRows(t, round)
  {
    HigherPerformanceOrder();
    var drivers := Filter(t.users, IsDriver);
    var perf := Map(drivers, (u: User) => PerformanceOf(t, u));
    var sorted := SortBy(perf, HigherPerformance);
    var rows := DriverPerformanceRows(t, round);
    assert rows == Map(sorted, RoundedPerformance(round));
    forall u | u in t.users && IsDriver(u) ensures RoundedPerformance(round)(PerformanceOf(t, u)) in rows {
      assert u in drivers;
      assert PerformanceOf(t, u) in perf;
      assert PerformanceOf(t, u) in sorted;
    }
  }

  /** Every row is the rounded performance of a driver user. */
  lemma DriverPerformanceRowsFrom(t: Tables, round: real -> real)
    ensures forall x :: x in DriverPerformanceRows(t, round) ==>
      exists u :: u in t.users && IsDriver(u) && x == RoundedPerformance(round)(PerformanceOf(t, u))
  {
    HigherPerformanceOrder();
    var drivers := Filter(t.users, IsDriver);
    var perf := Map(drivers, (u: User) => PerformanceOf(t, u));
    var sorted := SortBy(perf, HigherPerformance);
    var rows := DriverPerformanceRows(t, round);
    assert rows == Map(sorted, RoundedPerformance(round));
    forall x | x in rows ensures exists u :: u in t.users && IsDriver(u) && x == RoundedPerformance(round)(PerformanceOf(t, u)) {
      var i :| 0 <= i < |rows| && rows[i] == x;
      assert sorted[i] in sorted;
      assert sorted[i] in perf;
      var u :| u in drivers && sorted[i] == PerformanceOf(t, u);
      assert u in t.users && IsDriver(u);
    }
  }

  /** A driver without trips has NULL sums and averages. */
  lemma DriverPerformanceWithoutTrips(t: Tables, round: real -> real)
    ensures forall x :: x in DriverPerformanceRows(t, round) && x.tripCount == 0 ==>
      x.totalDistance.None? && x.totalFuel.None? && x.avgEfficiency.None? && x.avgSpeed.None?
  {
    DriverPerformanceRowsFrom(t, round);
    forall x | x in DriverPerformanceRows(t, round) && x.tripCount == 0
      ensures x.totalDistance.None? && x.totalFuel.None? && x.avgEfficiency.None? && x.avgSpeed.None?
    {
      var u :| u in t.users && IsDriver(u) && x == RoundedPerformance(round)(PerformanceOf(t, u));
      var ts := TripsOfDriver(t.trips, u.id);
      assert ts == [];
      assert Map(ts, TripEfficiency) == [] && Map(ts, TripSpeed) == [];
    }
  }

  /** Rows come by descending average efficiency, drivers without an average last. */
  lemma DriverPerformanceOrdered(t: Tables, round: real -> real)
    ensures forall i, j :: 0 <= i < j < |DriverPerformanceRows(t, round)| ==>
      OptGe(DriverAvg(t, DriverPerformanceRows(t, round)[i].userId), DriverAvg(t, DriverPerformanceRows(t, round)[j].userId))
  {
    HigherPerformanceOrder();
    var drivers := Filter(t.users, IsDriver);
    var perf := Map(drivers, (u: User) => PerformanceOf(t, u));
    var sorted := SortBy(perf, HigherPerformance);
    var rows := DriverPerformanceRows(t, round);
    assert rows == Map(sorted, RoundedPerformance(round));
    forall y | y in sorted ensures y.avgEfficiency == DriverAvg(t, y.userId) {
      assert y in perf;
      var u :| u in drivers && y == PerformanceOf(t, u);
    }
    forall i, j | 0 <= i < j < |rows| ensures OptGe(DriverAvg(t, rows[i].userId), DriverAvg(t, rows[j].userId)) {
      assert sorted[i] in sorted && sorted[j] in sorted;
      assert HigherPerformance(sorted[i], sorted[j]);
    }
  }

  /** A row of the vehicle-performance report (a LEFT JOIN: vehicles without trips have NULL sums and average). */
  datatype VehiclePerformance = VehiclePerformance(vehicleId: int, number: string, model: string, fuelType: string,
                                                   lastService: Option<int>, tripCount: nat,
                                                   totalDistance: Option<real>, totalFuel: Option<real>,
                                                   avgEfficiency: Option<real>)

  function VehiclePerformanceOf(t: Tables, v: Vehicle): VehiclePerformance {
    var ts := TripsOfVehicle(t.trips, v.id);
    VehiclePerformance(v.id, v.number, v.model, v.fuelType, v.lastService, |ts|,
                       SumOrNull(ts, TripDistance), SumOrNull(ts, TripFuel), AvgEfficiency(ts))
  }

  /** `ORDER BY v.vehicle_number`. */
  predicate ByVehicleNumber(a: VehiclePerformance, b: VehiclePerformance) { StrLe(a.number, b.number) }

  lemma ByVehicleNumberOrder()
    ensures TotalPreorder(ByVehicleNumber)
  {
    StrLeByKey((x: VehiclePerformance) => x.number, ByVehicleNumber);
  }

  function RoundedVehiclePerformance(round: real -> real): VehiclePerformance -> VehiclePerformance {
    (x: VehiclePerformance) => x.(avgEfficiency := RoundOrNull(x.avgEfficiency, round))
  }

  /** The vehicle-performance groups before rounding, by vehicle number. */
  function VehiclesByNumber(t: Tables): seq<VehiclePerformance> {
    ByVehicleNumberOrder();
    SortBy(Map(t.vehicles, (v: Vehicle) => VehiclePerformanceOf(t, v)), ByVehicleNumber)
  }

  /** The vehicle-performance rows, by vehicle number, average rounded. */
  function VehiclePerformanceRows(t: Tables, round: real -> real): seq<VehiclePerformance> {
    Map(VehiclesByNumber(t), RoundedVehiclePerformance(round))
  }

  /** A vehicle without trips has NULL sums and average. */
  lemma NoTripsNoTotals(t: Tables, v: Vehicle)
    ensures VehiclePerformanceOf(t, v).tripCount == 0 ==>
      var x := VehiclePerformanceOf(t, v); x.totalDistance.None? && x.totalFuel.None? && x.avgEfficiency.None?
  {
    if TripsOfVehicle(t.trips, v.id) == [] {
      assert Map(TripsOfVehicle(t.trips, v.id), TripEfficiency) == [];
    }
  }

  lemma VehiclesByNumberFacts(t: Tables)
    ensures |VehiclesByNumber(t)| == |t.vehicles|
    ensures forall v :: v in t.vehicles ==> VehiclePerformanceOf(t, v) in VehiclesByNumber(t)
    ensures forall x :: x in VehiclesByNumber(t) ==> exists v :: v in t.vehicles && x == VehiclePerformanceOf(t, v)
    ensures forall x :: x in VehiclesByNumber(t) && x.tripCount == 0 ==>
      x.totalDistance.None? && x.totalFuel.None? && x.avgEfficiency.None?
    ensures Pairwise(VehiclesByNumber(t), ByVehicleNumber)
  {
    var sorted := VehiclesByNumber(t);
    forall x | x in sorted && x.tripCount == 0 ensures x.totalDistance.None? && x.totalFuel.None? && x.avgEfficiency.None? {
      var v :| v in t.vehicles && x == VehiclePerformanceOf(t, v);
      NoTripsNoTotals(t, v);
    }
  }

  /** One row per vehicle, trips or not, a vehicle without trips with NULL sums and average, by vehicle number. */
  lemma VehiclePerformanceFacts(t: Tables, round: real -> real)
    ensures |VehiclePerformanceRows(t, round)| == |t.vehicles|
    ensures forall v :: v in t.vehicles ==> RoundedVehiclePerformance(round)(VehiclePerformanceOf(t, v)) in VehiclePerformanceRows(t, round)
    ensures forall x :: x in VehiclePerformanceRows(t, round) ==>
      exists v :: v in t.vehicles && x == RoundedVehiclePerformance(round)(VehiclePerformanceOf(t, v))
    ensures forall x :: x in VehiclePerformanceRows(t, round) && x.tripCount == 0 ==>
      x.totalDistance.None? && x.totalFuel.None? && x.avgEfficiency.None?
    ensures forall i, j :: 0 <= i < j < |VehiclePerformanceRows(t, round)| ==>
      StrLe(VehiclePerformanceRows(t, round)[i].number, VehiclePerformanceRows(t, round)[j].number)
  {
    VehiclesByNumberFacts(t);
    var sorted := VehiclesByNumber(t);
    var rows := VehiclePerformanceRows(t, round);
    forall x | x in rows ensures exists v :: v in t.vehicles && x == RoundedVehiclePerformance(round)(VehiclePerformanceOf(t, v)) {
      var i :| 0 <= i < |rows| && rows[i] == x;
      assert sorted[i] in sorted;
      var v :| v in t.vehicles && sorted[i] == VehiclePerformanceOf(t, v);
    }
    forall x | x in rows && x.tripCount == 0 ensures x.totalDistance.None? && x.totalFuel.None? && x.avgEfficiency.None? {
      var i :| 0 <= i < |rows| && rows[i] == x;
      assert sorted[i] in sorted;
    }
    forall i, j | 0 <= i < j < |rows| ensures StrLe(rows[i].number, rows[j].number) {
      assert ByVehicleNumber(sorted[i], sorted[j]);
    }
  }

  /** What `GET /reports` answers: one of the three reports, or `{}` for any other type. */
  datatype Report = SummaryReport(summary: Summary) | DriverReport(drivers: seq<DriverPerformance>)
                  | VehicleReport(vehicles: seq<VehiclePerformance>) | EmptyReport

  /** `GET /reports`: admins only; the report named by `req.query.type || 'summary'`. */
  function Reports(t: Tables, p: Principal, kind: Field<string>, round: real -> real): (r: Reply<Report>)
    ensures !Authorized(p, [ADMIN]) ==> r == Denied
    ensures Authorized(p, [ADMIN]) ==> r.Success? && r.status == Ok
    ensures r.Success? ==> (r.body.SummaryReport? <==> TextOr(kind, SUMMARY) == SUMMARY)
    ensures r.Success? ==> (r.body.DriverReport? <==> TextOr(kind, SUMMARY) == DRIVER_PERFORMANCE)
    ensures r.Success? ==> (r.body.VehicleReport? <==> TextOr(kind, SUMMARY) == VEHICLE_PERFORMANCE)
    ensures r.Success? && r.body.SummaryReport? ==> r.body.summary == SummaryOf(t, round)
    ensures r.Success? && r.body.DriverReport? ==> r.body.drivers == DriverPerformanceRows(t, round)
    ensures r.Success? && r.body.VehicleReport? ==> r.body.vehicles == VehiclePerformanceRows(t, round)
  {
    if !Authorized(p, [ADMIN]) then Denied
    else
      var kindName := TextOr(kind, SUMMARY);
      if kindName == SUMMARY then Success(Ok, SummaryReport(SummaryOf(t, round)))
      else if kindName == DRIVER_PERFORMANCE then Success(Ok, DriverReport(DriverPerformanceRows(t, round)))
      else if kindName == VEHICLE_PERFORMANCE then Success(Ok, VehicleReport(VehiclePerformanceRows(t, round)))
      else Success(Ok, EmptyReport)
  }
}
