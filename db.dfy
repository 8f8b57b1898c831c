/**
 * The SQLite store of database/db.js: the four tables, the constraints their
 * DDL declares (which SQLite enforces on every statement), and the statements
 * the route handlers run through `runAsync`.
 *
 * Foreign keys are declared in the DDL but `PRAGMA foreign_keys` is never
 * switched on, so SQLite does not enforce them: no invariant here relates a
 * trip or an assignment to an existing user or vehicle, and no delete cascades.
 */
module Db {
  import opened Wrappers
  import opened Seqs

  const ADMIN := "admin"
  const MANAGER := "manager"
  const DRIVER := "driver"

  /** The CHECK on `users.role`. */
  predicate IsRole(role: string) {
    role == ADMIN || role == MANAGER || role == DRIVER
  }

  /** A `users` row; `password` holds the bcrypt hash, `createdAt` the insertion time. */
  datatype User = User(id: int, name: string, role: string, email: string, password: string,
                       mobile: Option<string>, createdAt: int)

  /** A `vehicles` row; `lastService` is a day number. */
  datatype Vehicle = Vehicle(id: int, number: string, model: string, fuelType: string,
                             lastService: Option<int>, createdAt: int)

  /** A `trips` row; `date` is the insertion time (`trip_date DEFAULT CURRENT_TIMESTAMP`). */
  datatype Trip = Trip(id: int, driverId: int, vehicleId: int, startLocation: string, endLocation: string,
                       distance: real, fuel: real, time: real, efficiency: Option<real>, date: int)

  /** A `vehicle_drivers` row. */
  datatype Assignment = Assignment(id: int, vehicleId: int, driverId: int, assignedAt: int)

  /** The contents of the four tables, as the read-only queries see them. */
  datatype Tables = Tables(users: seq<User>, vehicles: seq<Vehicle>, trips: seq<Trip>, links: seq<Assignment>)

  /** SQLite's `sqlite_sequence`: the next AUTOINCREMENT id of each table. */
  datatype Sequence = Sequence(user: int, vehicle: int, trip: int, link: int)

  /**
   * The settlement of `runAsync`'s promise: resolved with `{lastID, changes}`,
   * or rejected because a statement violated a constraint. `lastId` is only
   * meaningful after an INSERT.
   */
  datatype Run = Done(lastId: int, changes: nat) | Rejected(error: string)

  // ----- Row ordering and uniqueness: each table is kept in rowid order -----

  predicate UserRowsOrdered(a: User, b: User) {
    a.id < b.id && a.email != b.email
  }

  predicate VehicleRowsOrdered(a: Vehicle, b: Vehicle) {
    a.id < b.id && a.number != b.number
  }

  predicate TripRowsOrdered(a: Trip, b: Trip) {
    a.id < b.id
  }

  predicate LinkRowsOrdered(a: Assignment, b: Assignment) {
    a.id < b.id && !(a.vehicleId == b.vehicleId && a.driverId == b.driverId)
  }

  /** users: role in the CHECK list, ids from the sequence, UNIQUE email. */
  ghost predicate UsersValid(us: seq<User>, next: int) {
    && (forall u :: u in us ==> IsRole(u.role) && 1 <= u.id < next)
    && Pairwise(us, UserRowsOrdered)
  }

  /** vehicles: ids from the sequence, UNIQUE vehicle_number. */
  ghost predicate VehiclesValid(vs: seq<Vehicle>, next: int) {
    && (forall v :: v in vs ==> 1 <= v.id < next)
    && Pairwise(vs, VehicleRowsOrdered)
  }

  /** trips: ids from the sequence (NOT NULL columns are non-optional fields). */
  ghost predicate TripsValid(ts: seq<Trip>, next: int) {
    && (forall t :: t in ts ==> 1 <= t.id < next)
    && Pairwise(ts, TripRowsOrdered)
  }

  /** vehicle_drivers: ids from the sequence, UNIQUE(vehicle_id, driver_id). */
  ghost predicate LinksValid(ls: seq<Assignment>, next: int) {
    && (forall a :: a in ls ==> 1 <= a.id < next)
    && Pairwise(ls, LinkRowsOrdered)
  }

  // ----- Single-row reads (`getAsync`) -----

  function FindUser(us: seq<User>, id: int): (r: Option<User>)
    ensures r.Some? ==> r.value in us && r.value.id == id
    ensures r.None? <==> forall u :: u in us ==> u.id != id
  {
    if us == [] then None
    else if us[0].id == id then Some(us[0])
    else FindUser(us[1..], id)
  }

  function FindUserByEmail(us: seq<User>, email: string): (r: Option<User>)
    ensures r.Some? ==> r.value in us && r.value.email == email
    ensures r.None? <==> forall u :: u in us ==> u.email != email
  {
    if us == [] then None
    else if us[0].email == email then Some(us[0])
    else FindUserByEmail(us[1..], email)
  }

  function FindVehicle(vs: seq<Vehicle>, id: int): (r: Option<Vehicle>)
    ensures r.Some? ==> r.value in vs && r.value.id == id
    ensures r.None? <==> forall v :: v in vs ==> v.id != id
  {
    if vs == [] then None
    else if vs[0].id == id then Some(vs[0])
    else FindVehicle(vs[1..], id)
  }

  function FindVehicleByNumber(vs: seq<Vehicle>, number: string): (r: Option<Vehicle>)
    ensures r.Some? ==> r.value in vs && r.value.number == number
    ensures r.None? <==> forall v :: v in vs ==> v.number != number
  {
    if vs == [] then None
    else if vs[0].number == number then Some(vs[0])
    else FindVehicleByNumber(vs[1..], number)
  }

  function FindTrip(ts: seq<Trip>, id: int): (r: Option<Trip>)
    ensures r.Some? ==> r.value in ts && r.value.id == id
    ensures r.None? <==> forall t :: t in ts ==> t.id != id
  {
    if ts == [] then None
    else if ts[0].id == id then Some(ts[0])
    else FindTrip(ts[1..], id)
  }

  /** `SELECT * FROM users WHERE user_id = ? AND role = 'driver'`. */
  function FindDriver(us: seq<User>, id: int): (r: Option<User>)
    ensures r.Some? ==> r.value in us && r.value.id == id && r.value.role == DRIVER
    ensures r.None? <==> forall u :: u in us ==> !(u.id == id && u.role == DRIVER)
  {
    if us == [] then None
    else if us[0].id == id && us[0].role == DRIVER then Some(us[0])
    else FindDriver(us[1..], id)
  }

  /** `SELECT ... FROM vehicle_drivers WHERE vehicle_id = ? AND driver_id = ?` finds a row. */
  predicate Linked(ls: seq<Assignment>, vehicleId: int, driverId: int) {
    exists a :: a in ls && a.vehicleId == vehicleId && a.driverId == driverId
  }

  /** `WHERE vehicle_id = ?` on trips. */
  function TripsOfVehicle(ts: seq<Trip>, vehicleId: int): (r: seq<Trip>)
    ensures forall t :: t in r <==> t in ts && t.vehicleId == vehicleId
  {
    Filter(ts, (t: Trip) => t.vehicleId == vehicleId)
  }

  /** `WHERE driver_id = ?` on trips. */
  function TripsOfDriver(ts: seq<Trip>, driverId: int): (r: seq<Trip>)
    ensures forall t :: t in r <==> t in ts && t.driverId == driverId
  {
    Filter(ts, (t: Trip) => t.driverId == driverId)
  }

  // ----- The rows left by a DELETE, the rows after an UPDATE -----

  function UsersWithout(us: seq<User>, id: int): (r: seq<User>)
    ensures forall u :: u in r <==> u in us && u.id != id
  {
    Filter(us, (u: User) => u.id != id)
  }

  function VehiclesWithout(vs: seq<Vehicle>, id: int): (r: seq<Vehicle>)
    ensures forall v :: v in r <==> v in vs && v.id != id
  {
    Filter(vs, (v: Vehicle) => v.id != id)
  }

  function TripsWithout(ts: seq<Trip>, id: int): (r: seq<Trip>)
    ensures forall t :: t in r <==> t in ts && t.id != id
  {
    Filter(ts, (t: Trip) => t.id != id)
  }

  function LinksWithout(ls: seq<Assignment>, vehicleId: int, driverId: int): (r: seq<Assignment>)
    ensures forall a :: a in r <==> a in ls && !(a.vehicleId == vehicleId && a.driverId == driverId)
    ensures !Linked(r, vehicleId, driverId)
    ensures !Linked(ls, vehicleId, driverId) ==> r == ls
  {
    var keep := (a: Assignment) => !(a.vehicleId == vehicleId && a.driverId == driverId);
    if Linked(ls, vehicleId, driverId) then Filter(ls, keep)
    else
      FilterAll(ls, keep);
      Filter(ls, keep)
  }

  function LinksWithoutDriver(ls: seq<Assignment>, driverId: int): (r: seq<Assignment>)
    ensures forall a :: a in r <==> a in ls && a.driverId != driverId
  {
    Filter(ls, (a: Assignment) => a.driverId != driverId)
  }

  /** Every row whose id is `u.id` becomes `u`; the others stay. */
  function ReplaceUser(us: seq<User>, u: User): (r: seq<User>)
    ensures |r| == |us|
    ensures forall i :: 0 <= i < |us| ==> r[i] == if us[i].id == u.id then u else us[i]
  {
    Map(us, (w: User) => if w.id == u.id then u else w)
  }

  function ReplaceVehicle(vs: seq<Vehicle>, v: Vehicle): (r: seq<Vehicle>)
    ensures |r| == |vs|
    ensures forall i :: 0 <= i < |vs| ==> r[i] == if vs[i].id == v.id then v else vs[i]
  {
    Map(vs, (w: Vehicle) => if w.id == v.id then v else w)
  }

  function ReplaceTrip(ts: seq<Trip>, t: Trip): (r: seq<Trip>)
    ensures |r| == |ts|
    ensures forall i :: 0 <= i < |ts| ==> r[i] == if ts[i].id == t.id then t else ts[i]
  {
    Map(ts, (w: Trip) => if w.id == t.id then t else w)
  }

  // ----- Why each statement keeps the constraints -----

  /**
   * Replacing the row whose id is `u.id` keeps `users` valid when the new row
   * has a listed role and no other row has its e-mail.
   */
  lemma ReplaceUserValid(us: seq<User>, next: int, u: User)
    requires UsersValid(us, next) && IsRole(u.role)
    requires exists w :: w in us && w.id == u.id
    requires forall w :: w in us && w.id != u.id ==> w.email != u.email
    ensures UsersValid(ReplaceUser(us, u), next)
  {
    var r := ReplaceUser(us, u);
    forall i, j | 0 <= i < j < |r| ensures UserRowsOrdered(r[i], r[j]) {
      assert UserRowsOrdered(us[i], us[j]);
      assert us[i] in us && us[j] in us;
    }
    forall x | x in r ensures IsRole(x.role) && 1 <= x.id < next {
      var i :| 0 <= i < |r| && r[i] == x;
      assert us[i] in us;
    }
  }

  lemma ReplaceVehicleValid(vs: seq<Vehicle>, next: int, v: Vehicle)
    requires VehiclesValid(vs, next)
    requires exists w :: w in vs && w.id == v.id
    requires forall w :: w in vs && w.id != v.id ==> w.number != v.number
    ensures VehiclesValid(ReplaceVehicle(vs, v), next)
  {
    var r := ReplaceVehicle(vs, v);
    forall i, j | 0 <= i < j < |r| ensures VehicleRowsOrdered(r[i], r[j]) {
      assert VehicleRowsOrdered(vs[i], vs[j]);
      assert vs[i] in vs && vs[j] in vs;
    }
    forall x | x in r ensures 1 <= x.id < next {
      var i :| 0 <= i < |r| && r[i] == x;
      assert vs[i] in vs;
    }
  }

  lemma ReplaceTripValid(ts: seq<Trip>, next: int, t: Trip)
    requires TripsValid(ts, next)
    requires exists w :: w in ts && w.id == t.id
    ensures TripsValid(ReplaceTrip(ts, t), next)
  {
    var r := ReplaceTrip(ts, t);
    forall i, j | 0 <= i < j < |r| ensures TripRowsOrdered(r[i], r[j]) {
      assert TripRowsOrdered(ts[i], ts[j]);
    }
    forall x | x in r ensures 1 <= x.id < next {
      var i :| 0 <= i < |r| && r[i] == x;
      assert ts[i] in ts;
    }
  }

  /** An INSERT whose id comes from the sequence and whose e-mail is free keeps `users` valid. */
  lemma AppendUserValid(us: seq<User>, next: int, u: User)
    requires UsersValid(us, next) && IsRole(u.role) && u.id == next && 1 <= next
    requires forall w :: w in us ==> w.email != u.email
    ensures UsersValid(us + [u], next + 1)
  {
    forall i | 0 <= i < |us| ensures UserRowsOrdered(us[i], u) {
      assert us[i] in us;
    }
    AppendKeepsPairwise(us, u, UserRowsOrdered);
  }

  lemma AppendVehicleValid(vs: seq<Vehicle>, next: int, v: Vehicle)
    requires VehiclesValid(vs, next) && v.id == next && 1 <= next
    requires forall w :: w in vs ==> w.number != v.number
    ensures VehiclesValid(vs + [v], next + 1)
  {
    forall i | 0 <= i < |vs| ensures VehicleRowsOrdered(vs[i], v) {
      assert vs[i] in vs;
    }
    AppendKeepsPairwise(vs, v, VehicleRowsOrdered);
  }

  lemma AppendTripValid(ts: seq<Trip>, next: int, t: Trip)
    requires TripsValid(ts, next) && t.id == next && 1 <= next
    ensures TripsValid(ts + [t], next + 1)
  {
    forall i | 0 <= i < |ts| ensures TripRowsOrdered(ts[i], t) {
      assert ts[i] in ts;
    }
    AppendKeepsPairwise(ts, t, TripRowsOrdered);
  }

  lemma AppendLinkValid(ls: seq<Assignment>, next: int, a: Assignment)
    requires LinksValid(ls, next) && a.id == next && 1 <= next
    requires !Linked(ls, a.vehicleId, a.driverId)
    ensures LinksValid(ls + [a], next + 1)
  {
    forall i | 0 <= i < |ls| ensures LinkRowsOrdered(ls[i], a) {
      assert ls[i] in ls;
    }
    AppendKeepsPairwise(ls, a, LinkRowsOrdered);
  }

  /** A row appended with a fresh id is what a lookup of that id finds (`getAsync` by `lastID`). */
  lemma {:induction false} FindVehicleAppended(vs: seq<Vehicle>, v: Vehicle)
    requires forall w :: w in vs ==> w.id != v.id
    ensures FindVehicle(vs + [v], v.id) == Some(v)
  {
    if vs != [] {
      assert (vs + [v])[1..] == vs[1..] + [v];
      FindVehicleAppended(vs[1..], v);
    }
  }

  lemma {:induction false} FindTripAppended(ts: seq<Trip>, t: Trip)
    requires forall w :: w in ts ==> w.id != t.id
    ensures FindTrip(ts + [t], t.id) == Some(t)
  {
    if ts != [] {
      assert (ts + [t])[1..] == ts[1..] + [t];
      FindTripAppended(ts[1..], t);
    }
  }

  /** Replacing the row with id `u.id` makes a lookup of that id find the new row. */
  lemma {:induction false} FindUserReplaced(us: seq<User>, u: User)
    requires exists w :: w in us && w.id == u.id
    ensures FindUser(ReplaceUser(us, u), u.id) == Some(u)
  {
    if us[0].id != u.id {
      assert ReplaceUser(us, u)[1..] == ReplaceUser(us[1..], u);
      FindUserReplaced(us[1..], u);
    }
  }

  lemma {:induction false} FindVehicleReplaced(vs: seq<Vehicle>, v: Vehicle)
    requires exists w :: w in vs && w.id == v.id
    ensures FindVehicle(ReplaceVehicle(vs, v), v.id) == Some(v)
  {
    if vs[0].id != v.id {
      assert ReplaceVehicle(vs, v)[1..] == ReplaceVehicle(vs[1..], v);
      FindVehicleReplaced(vs[1..], v);
    }
  }

  lemma {:induction false} FindTripReplaced(ts: seq<Trip>, t: Trip)
    requires exists w :: w in ts && w.id == t.id
    ensures FindTrip(ReplaceTrip(ts, t), t.id) == Some(t)
  {
    if ts[0].id != t.id {
      assert ReplaceTrip(ts, t)[1..] == ReplaceTrip(ts[1..], t);
      FindTripReplaced(ts[1..], t);
    }
  }

  /** UNIQUE(email): two rows with the same e-mail are the same row. */
  lemma UserEmailUnique(us: seq<User>, next: int, a: User, b: User)
    requires UsersValid(us, next) && a in us && b in us
    ensures a.email == b.email ==> a == b
  {
    if a != b {
      var i :| 0 <= i < |us| && us[i] == a;
      var j :| 0 <= j < |us| && us[j] == b;
      if i < j {
        assert UserRowsOrdered(us[i], us[j]);
      } else {
        assert UserRowsOrdered(us[j], us[i]);
      }
    }
  }

  /** UNIQUE(vehicle_number): two rows with the same number are the same row. */
  lemma VehicleNumberUnique(vs: seq<Vehicle>, next: int, a: Vehicle, b: Vehicle)
    requires VehiclesValid(vs, next) && a in vs && b in vs
    ensures a.number == b.number ==> a == b
  {
    if a != b {
      var i :| 0 <= i < |vs| && vs[i] == a;
      var j :| 0 <= j < |vs| && vs[j] == b;
      if i < j {
        assert VehicleRowsOrdered(vs[i], vs[j]);
      } else {
        assert VehicleRowsOrdered(vs[j], vs[i]);
      }
    }
  }

  /** INTEGER PRIMARY KEY: two trips with the same id are the same row. */
  lemma TripIdUnique(ts: seq<Trip>, next: int, a: Trip, b: Trip)
    requires TripsValid(ts, next) && a in ts && b in ts
    ensures a.id == b.id ==> a == b
  {
    if a != b {
      var i :| 0 <= i < |ts| && ts[i] == a;
      var j :| 0 <= j < |ts| && ts[j] == b;
      if i < j {
        assert TripRowsOrdered(ts[i], ts[j]);
      } else {
        assert TripRowsOrdered(ts[j], ts[i]);
      }
    }
  }

  /** The database handle every route module shares. */
  class Database {
    var users: seq<User>
    var vehicles: seq<Vehicle>
    var trips: seq<Trip>
    var links: seq<Assignment>
    var sequence: Sequence

    /** The constraints of the DDL, which SQLite enforces on every statement. */
    ghost predicate Valid()
      reads this
    {
      && 1 <= sequence.user && 1 <= sequence.vehicle && 1 <= sequence.trip && 1 <= sequence.link
      && UsersValid(users, sequence.user)
      && VehiclesValid(vehicles, sequence.vehicle)
      && TripsValid(trips, sequence.trip)
      && LinksValid(links, sequence.link)
    }

    function Snapshot(): Tables
      reads this
    {
      Tables(users, vehicles, trips, links)
    }

    /** The freshly created database: four empty tables. */
    constructor ()
      ensures Valid()
      ensures Snapshot() == Tables([], [], [], [])
    {
      users, vehicles, trips, links := [], [], [], [];
      sequence := Sequence(1, 1, 1, 1);
    }

    /** `INSERT INTO users (...)`. */
    method InsertUser(name: string, role: string, email: string, password: string, mobile: Option<string>, now: int)
      returns (r: Run)
      requires Valid()
      modifies this
      ensures Valid()
      ensures r.Rejected? <==> !IsRole(role) || FindUserByEmail(old(users), email).Some?
      ensures r.Rejected? ==> unchanged(this)
      ensures r.Done? ==>
        && r == Done(old(sequence.user), 1)
        && Snapshot() == old(Snapshot()).(users := old(users) + [User(old(sequence.user), name, role, email, password, mobile, now)])
        && sequence == old(sequence).(user := old(sequence.user) + 1)
    {
      if !IsRole(role) {
        return Rejected("CHECK constraint failed: users");
      }
      if FindUserByEmail(users, email).Some? {
        return Rejected("UNIQUE constraint failed: users.email");
      }
      var u := User(sequence.user, name, role, email, password, mobile, now);
      AppendUserValid(users, sequence.user, u);
      users := users + [u];
      r := Done(sequence.user, 1);
      sequence := sequence.(user := sequence.user + 1);
    }

    /**
     * `UPDATE users SET name, role, email, mobile_number[, password] WHERE user_id = ?`;
     * the password column is only written when `password` is given.
     */
    method UpdateUser(id: int, name: string, role: string, email: string, mobile: Option<string>, password: Option<string>)
      returns (r: Run)
      requires Valid()
      modifies this
      ensures Valid()
      ensures FindUser(old(users), id).None? ==> r.Done? && r.changes == 0 && unchanged(this)
      ensures FindUser(old(users), id).Some? ==>
        var old_u := FindUser(old(users), id).value;
        && (r.Rejected? <==> !IsRole(role) || exists w :: w in old(users) && w.id != id && w.email == email)
        && (r.Rejected? ==> unchanged(this))
        && (r.Done? ==>
              && r.changes == 1
              && Snapshot() == old(Snapshot()).(users := ReplaceUser(old(users),
                   old_u.(name := name, role := role, email := email, mobile := mobile,
                          password := password.GetOr(old_u.password))))
              && sequence == old(sequence))
    {
      var found := FindUser(users, id);
      if found.None? {
        return Done(0, 0);
      }
      var u := found.value;
      if !IsRole(role) {
        return Rejected("CHECK constraint failed: users");
      }
      if exists w :: w in users && w.id != id && w.email == email {
        return Rejected("UNIQUE constraint failed: users.email");
      }
      var updated := u.(name := name, role := role, email := email, mobile := mobile,
                        password := password.GetOr(u.password));
      assert u in users && updated.id == u.id;
      ReplaceUserValid(users, sequence.user, updated);
      ghost var before := Snapshot();
      users := ReplaceUser(users, updated);
      assert Snapshot() == before.(users := users);
      r := Done(0, 1);
    }

    /** `DELETE FROM users WHERE user_id = ?`. */
    method DeleteUser(id: int) returns (r: Run)
      requires Valid()
      modifies this
      ensures Valid()
      ensures r.Done? && r.changes == |old(users)| - |users|
      ensures Snapshot() == old(Snapshot()).(users := UsersWithout(old(users), id))
      ensures sequence == old(sequence)
    {
      FilterKeepsPairwise(users, (u: User) => u.id != id, UserRowsOrdered);
      var before := |users|;
      users := UsersWithout(users, id);
      r := Done(0, before - |users|);
    }

    /** `DELETE FROM vehicle_drivers WHERE driver_id = ?`. */
    method DeleteLinksOfDriver(driverId: int) returns (r: Run)
      requires Valid()
      modifies this
      ensures Valid()
      ensures r.Done? && r.changes == |old(links)| - |links|
      ensures Snapshot() == old(Snapshot()).(links := LinksWithoutDriver(old(links), driverId))
      ensures sequence == old(sequence)
    {
      FilterKeepsPairwise(links, (a: Assignment) => a.driverId != driverId, LinkRowsOrdered);
      var before := |links|;
      links := LinksWithoutDriver(links, driverId);
      r := Done(0, before - |links|);
    }

    /** `INSERT INTO vehicles (...)`. */
    method InsertVehicle(number: string, model: string, fuelType: string, lastService: Option<int>, now: int)
      returns (r: Run)
      requires Valid()
      modifies this
      ensures Valid()
      ensures r.Rejected? <==> FindVehicleByNumber(old(vehicles), number).Some?
      ensures r.Rejected? ==> unchanged(this)
      ensures r.Done? ==>
        && r == Done(old(sequence.vehicle), 1)
        && Snapshot() == old(Snapshot()).(vehicles := old(vehicles) + [Vehicle(old(sequence.vehicle), number, model, fuelType, lastService, now)])
        && sequence == old(sequence).(vehicle := old(sequence.vehicle) + 1)
    {
      if FindVehicleByNumber(vehicles, number).Some? {
        return Rejected("UNIQUE constraint failed: vehicles.vehicle_number");
      }
      var v := Vehicle(sequence.vehicle, number, model, fuelType, lastService, now);
      AppendVehicleValid(vehicles, sequence.vehicle, v);
      vehicles := vehicles + [v];
      r := Done(sequence.vehicle, 1);
      sequence := sequence.(vehicle := sequence.vehicle + 1);
    }

    /** `UPDATE vehicles SET vehicle_number, model, fuel_type, last_service_date WHERE vehicle_id = ?`. */
    method UpdateVehicle(id: int, number: string, model: string, fuelType: string, lastService: Option<int>)
      returns (r: Run)
      requires Valid()
      modifies this
      ensures Valid()
      ensures FindVehicle(old(vehicles), id).None? ==> r.Done? && r.changes == 0 && unchanged(this)
      ensures FindVehicle(old(vehicles), id).Some? ==>
        var old_v := FindVehicle(old(vehicles), id).value;
        && (r.Rejected? <==> exists w :: w in old(vehicles) && w.id != id && w.number == number)
        && (r.Rejected? ==> unchanged(this))
        && (r.Done? ==>
              && r.changes == 1
              && Snapshot() == old(Snapshot()).(vehicles := ReplaceVehicle(old(vehicles),
                   old_v.(number := number, model := model, fuelType := fuelType, lastService := lastService)))
              && sequence == old(sequence))
    {
      var found := FindVehicle(vehicles, id);
      if found.None? {
        return Done(0, 0);
      }
      if exists w :: w in vehicles && w.id != id && w.number == number {
        return Rejected("UNIQUE constraint failed: vehicles.vehicle_number");
      }
      var updated := found.value.(number := number, model := model, fuelType := fuelType, lastService := lastService);
      assert found.value in vehicles && updated.id == found.value.id;
      ReplaceVehicleValid(vehicles, sequence.vehicle, updated);
      ghost var before := Snapshot();
      vehicles := ReplaceVehicle(vehicles, updated);
      assert Snapshot() == before.(vehicles := vehicles);
      r := Done(0, 1);
    }

    /** `DELETE FROM vehicles WHERE vehicle_id = ?`: no cascade reaches `vehicle_drivers`. */
    method DeleteVehicle(id: int) returns (r: Run)
      requires Valid()
      modifies this
      ensures Valid()
      ensures r.Done? && r.changes == |old(vehicles)| - |vehicles|
      ensures Snapshot() == old(Snapshot()).(vehicles := VehiclesWithout(old(vehicles), id))
      ensures sequence == old(sequence)
    {
      FilterKeepsPairwise(vehicles, (v: Vehicle) => v.id != id, VehicleRowsOrdered);
      var before := |vehicles|;
      vehicles := VehiclesWithout(vehicles, id);
      r := Done(0, before - |vehicles|);
    }

    /** `INSERT INTO trips (...)`; every value is bound, so no NOT NULL can fail. */
    method InsertTrip(driverId: int, vehicleId: int, startLocation: string, endLocation: string,
                      distance: real, fuel: real, time: real, efficiency: Option<real>, now: int)
      returns (r: Run)
      requires Valid()
      modifies this
      ensures Valid()
      ensures r == Done(old(sequence.trip), 1)
      ensures Snapshot() == old(Snapshot()).(trips := old(trips) +
        [Trip(old(sequence.trip), driverId, vehicleId, startLocation, endLocation, distance, fuel, time, efficiency, now)])
      ensures sequence == old(sequence).(trip := old(sequence.trip) + 1)
    {
      var t := Trip(sequence.trip, driverId, vehicleId, startLocation, endLocation, distance, fuel, time, efficiency, now);
      AppendTripValid(trips, sequence.trip, t);
      trips := trips + [t];
      r := Done(sequence.trip, 1);
      sequence := sequence.(trip := sequence.trip + 1);
    }

    /**
     * `UPDATE trips SET ... WHERE trip_id = ?`. A NaN bound to a NOT NULL
     * column (`None` here) is stored as NULL by SQLite and rejected.
     */
    method UpdateTrip(id: int, vehicleId: int, startLocation: string, endLocation: string,
                      distance: Option<real>, fuel: Option<real>, time: Option<real>, efficiency: Option<real>)
      returns (r: Run)
      requires Valid()
      modifies this
      ensures Valid()
      ensures FindTrip(old(trips), id).None? ==> r.Done? && r.changes == 0 && unchanged(this)
      ensures FindTrip(old(trips), id).Some? ==>
        var old_t := FindTrip(old(trips), id).value;
        && (r.Rejected? <==> distance.None? || fuel.None? || time.None?)
        && (r.Rejected? ==> unchanged(this))
        && (r.Done? ==>
              && r.changes == 1
              && Snapshot() == old(Snapshot()).(trips := ReplaceTrip(old(trips),
                   old_t.(vehicleId := vehicleId, startLocation := startLocation, endLocation := endLocation,
                          distance := distance.value, fuel := fuel.value, time := time.value, efficiency := efficiency)))
              && sequence == old(sequence))
    {
      var found := FindTrip(trips, id);
      if found.None? {
        return Done(0, 0);
      }
      if distance.None? || fuel.None? || time.None? {
        return Rejected("NOT NULL constraint failed: trips");
      }
      var updated := found.value.(vehicleId := vehicleId, startLocation := startLocation, endLocation := endLocation,
                                  distance := distance.value, fuel := fuel.value, time := time.value, efficiency := efficiency);
      ReplaceTripValid(trips, sequence.trip, updated);
      trips := ReplaceTrip(trips, updated);
      r := Done(0, 1);
    }

    /** `DELETE FROM trips WHERE trip_id = ?`. */
    method DeleteTrip(id: int) returns (r: Run)
      requires Valid()
      modifies this
      ensures Valid()
      ensures r.Done? && r.changes == |old(trips)| - |trips|
      ensures Snapshot() == old(Snapshot()).(trips := TripsWithout(old(trips), id))
      ensures sequence == old(sequence)
    {
      FilterKeepsPairwise(trips, (t: Trip) => t.id != id, TripRowsOrdered);
      var before := |trips|;
      trips := TripsWithout(trips, id);
      r := Done(0, before - |trips|);
    }

    /** `INSERT INTO vehicle_drivers (vehicle_id, driver_id)`. */
    method InsertLink(vehicleId: int, driverId: int, now: int) returns (r: Run)
      requires Valid()
      modifies this
      ensures Valid()
      ensures r.Rejected? <==> Linked(old(links), vehicleId, driverId)
      ensures r.Rejected? ==> unchanged(this)
      ensures r.Done? ==>
        && r == Done(old(sequence.link), 1)
        && Snapshot() == old(Snapshot()).(links := old(links) + [Assignment(old(sequence.link), vehicleId, driverId, now)])
        && sequence == old(sequence).(link := old(sequence.link) + 1)
    {
      if exists a :: a in links && a.vehicleId == vehicleId && a.driverId == driverId {
        return Rejected("UNIQUE constraint failed: vehicle_drivers.vehicle_id, vehicle_drivers.driver_id");
      }
      var a := Assignment(sequence.link, vehicleId, driverId, now);
      AppendLinkValid(links, sequence.link, a);
      links := links + [a];
      r := Done(sequence.link, 1);
      sequence := sequence.(link := sequence.link + 1);
    }

    /** `DELETE FROM vehicle_drivers WHERE vehicle_id = ? AND driver_id = ?`. */
    method DeleteLink(vehicleId: int, driverId: int) returns (r: Run)
      requires Valid()
      modifies this
      ensures Valid()
      ensures r.Done? && r.changes == |old(links)| - |links|
      ensures Snapshot() == old(Snapshot()).(links := LinksWithout(old(links), vehicleId, driverId))
      ensures sequence == old(sequence)
      ensures !Linked(old(links), vehicleId, driverId) ==> unchanged(this)
    {
      FilterKeepsPairwise(links, (a: Assignment) => !(a.vehicleId == vehicleId && a.driverId == driverId), LinkRowsOrdered);
      var before := |links|;
      links := LinksWithout(links, vehicleId, driverId);
      r := Done(0, before - |links|);
    }
  }

  /**
   * `runAsync`'s `changes` after deleting a pair is 0 exactly when the pair
   * was not stored, and 1 when it was (the pair is UNIQUE): this is what
   * lets the unassign handler answer 404.
   */
  lemma {:induction false} DeleteLinkChanges(ls: seq<Assignment>, next: int, vehicleId: int, driverId: int)
    requires LinksValid(ls, next)
    ensures |ls| - |LinksWithout(ls, vehicleId, driverId)| == if Linked(ls, vehicleId, driverId) then 1 else 0
  {
    if ls != [] {
      var tail := ls[1..];
      assert LinksValid(tail, next) by {
        forall i, j | 0 <= i < j < |tail| ensures LinkRowsOrdered(tail[i], tail[j]) {
          assert tail[i] == ls[i + 1] && tail[j] == ls[j + 1];
        }
        forall a | a in tail ensures 1 <= a.id < next {
          assert a in ls;
        }
      }
      DeleteLinkChanges(tail, next, vehicleId, driverId);
      var p := (a: Assignment) => !(a.vehicleId == vehicleId && a.driverId == driverId);
      assert LinksWithout(ls, vehicleId, driverId) == (if p(ls[0]) then [ls[0]] else []) + LinksWithout(tail, vehicleId, driverId);
      if !p(ls[0]) {
        forall a | a in tail ensures !(a.vehicleId == vehicleId && a.driverId == driverId) {
          var k :| 0 <= k < |tail| && tail[k] == a;
          assert LinkRowsOrdered(ls[0], ls[k + 1]);
        }
        assert !Linked(tail, vehicleId, driverId);
      } else {
        assert Linked(ls, vehicleId, driverId) <==> Linked(tail, vehicleId, driverId) by {
          assert ls == [ls[0]] + tail;
        }
      }
    }
  }
}
