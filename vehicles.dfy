/**
 * The handlers of routes/vehicles.js. Every route runs behind
 * `authenticateToken`, so each handler receives the caller as a `Principal`;
 * `authorizeRoles` refusals are `Denied`. Handlers that only read are
 * functions of the tables; the others are methods on the shared `Database`.
 */
module VehicleRoutes {
  import opened Wrappers
  import opened Seqs
  import opened Http
  import opened Db

  const VEHICLE_NOT_FOUND := "Vehicle not found"
  const NUMBER_TAKEN := "Vehicle number already exists"
  const FIELDS_REQUIRED := "Vehicle number, model, and fuel type are required"
  const HAS_TRIPS := "Cannot delete vehicle with existing trips"
  const NO_ACCESS := "You do not have access to this vehicle"
  const ACCESS_DENIED := "Access denied"
  const DRIVERS_ONLY := "Only drivers can view their assigned vehicles"
  const IDS_REQUIRED := "Vehicle ID and Driver ID are required"
  const DRIVER_NOT_FOUND := "Driver not found"
  const ALREADY_ASSIGNED := "Vehicle already assigned to this driver"
  const ASSIGNMENT_NOT_FOUND := "Assignment not found"
  const DELETED := "Vehicle deleted successfully"
  const UNASSIGNED := "Vehicle unassigned successfully"
  const ASSIGNED := "Vehicle assigned successfully"

  /** The columns `GET /driver/available` selects. */
  datatype VehicleBrief = VehicleBrief(id: int, number: string, model: string, fuelType: string)

  /** A row of `GET /driver/assigned`: the vehicle and when it was assigned to the caller. */
  datatype AssignedVehicle = AssignedVehicle(vehicle: Vehicle, assignedAt: int)

  /** The columns `GET /drivers/list` selects. */
  datatype DriverBrief = DriverBrief(id: int, name: string, email: string, mobile: Option<string>)

  /** The joined row `POST /assign` answers with. */
  datatype AssignmentDetail = AssignmentDetail(assignment: Assignment, vehicleNumber: string, model: string,
                                               driverName: string, driverEmail: string)

  // ----- Orders of the listings -----

  predicate NewerVehicle(a: Vehicle, b: Vehicle) { a.createdAt >= b.createdAt }

  predicate ByNumber(a: VehicleBrief, b: VehicleBrief) { StrLe(a.number, b.number) }

  predicate LaterAssigned(a: AssignedVehicle, b: AssignedVehicle) { a.assignedAt >= b.assignedAt }

  predicate ByName(a: DriverBrief, b: DriverBrief) { StrLe(a.name, b.name) }

  lemma ByNumberOrder()
    ensures TotalPreorder(ByNumber)
  {
    StrLeByKey((b: VehicleBrief) => b.number, ByNumber);
  }

  lemma ByNameOrder()
    ensures TotalPreorder(ByName)
  {
    StrLeByKey((d: DriverBrief) => d.name, ByName);
  }

  // ----- Read-only handlers -----

  /** `GET /`: admins and managers get every vehicle, newest first. */
  function ListVehicles(t: Tables, p: Principal): (r: Reply<seq<Vehicle>>)
    ensures !Authorized(p, [ADMIN, MANAGER]) ==> r == Denied
    ensures Authorized(p, [ADMIN, MANAGER]) ==>
      && r.Success? && r.status == Ok
      && multiset(r.body) == multiset(t.vehicles)
      && Pairwise(r.body, NewerVehicle)
  {
    if !Authorized(p, [ADMIN, MANAGER]) then Denied
    else Success(Ok, SortBy(t.vehicles, NewerVehicle))
  }

  /**
   * `GET /:id`: admins and managers see any vehicle; a driver sees a vehicle
   * only through an assignment to themself; any other role is refused.
   */
  function GetVehicle(t: Tables, p: Principal, id: int): (r: Reply<Vehicle>)
    ensures r.Success? ==> r.status == Ok && r.body in t.vehicles && r.body.id == id
    ensures (p.role == ADMIN || p.role == MANAGER) ==>
      (r.Success? <==> exists v :: v in t.vehicles && v.id == id)
      && (!r.Success? ==> r == Failure(NotFound, VEHICLE_NOT_FOUND))
    ensures p.role == DRIVER ==>
      (r.Success? <==> (exists v :: v in t.vehicles && v.id == id) && Linked(t.links, id, p.userId))
      && (!r.Success? ==> r == Failure(Forbidden, NO_ACCESS))
    ensures !IsRole(p.role) ==> r == Failure(Forbidden, ACCESS_DENIED)
  {
    if p.role == ADMIN || p.role == MANAGER then
      match FindVehicle(t.vehicles, id)
      case None => Failure(NotFound, VEHICLE_NOT_FOUND)
      case Some(v) => Success(Ok, v)
    else if p.role == DRIVER then
      match FindVehicle(t.vehicles, id)
      case Some(v) =>
        if Linked(t.links, id, p.userId) then Success(Ok, v) else Failure(Forbidden, NO_ACCESS)
      case None => Failure(Forbidden, NO_ACCESS)
    else Failure(Forbidden, ACCESS_DENIED)
  }

  function Brief(v: Vehicle): VehicleBrief {
    VehicleBrief(v.id, v.number, v.model, v.fuelType)
  }

  /** `GET /driver/available`: any signed-in caller gets every vehicle, by number. */
  function AvailableVehicles(t: Tables): (r: seq<VehicleBrief>)
    ensures |r| == |t.vehicles|
    ensures forall b :: b in r <==> exists v :: v in t.vehicles && Brief(v) == b
    ensures Pairwise(r, ByNumber)
  {
    ByNumberOrder();
    var briefs := Map(t.vehicles, Brief);
    assert forall b :: b in briefs <==> exists v :: v in t.vehicles && Brief(v) == b by {
      forall b ensures b in briefs <==> exists v :: v in t.vehicles && Brief(v) == b {
        if b in briefs {
          var i :| 0 <= i < |briefs| && briefs[i] == b;
          assert t.vehicles[i] in t.vehicles;
        }
        if exists v :: v in t.vehicles && Brief(v) == b {
          var v :| v in t.vehicles && Brief(v) == b;
          var i :| 0 <= i < |t.vehicles| && t.vehicles[i] == v;
          assert briefs[i] == b;
        }
      }
    }
    SortBy(briefs, ByNumber)
  }

  /** The joined row of one assignment, when its vehicle exists. */
  function AssignedRow(vs: seq<Vehicle>, a: Assignment): Option<AssignedVehicle> {
    match FindVehicle(vs, a.vehicleId)
    case Some(v) => Some(AssignedVehicle(v, a.assignedAt))
    case None => None
  }

  /** The assignments of one driver, in table order. */
  function DriverLinks(ls: seq<Assignment>, driverId: int): (r: seq<Assignment>)
    ensures forall a :: a in r <==> a in ls && a.driverId == driverId
  {
    Filter(ls, (a: Assignment) => a.driverId == driverId)
  }

  /** The JOIN with `vehicles` as a function of the assignment. */
  function AssignedRowIn(vs: seq<Vehicle>): Assignment -> Option<AssignedVehicle> {
    (a: Assignment) => AssignedRow(vs, a)
  }

  /** The caller's assignments joined with their vehicles: one row for each assignment whose vehicle exists. */
  function AssignedRows(t: Tables, driverId: int): (r: seq<AssignedVehicle>)
    ensures |r| == |Filter(DriverLinks(t.links, driverId), Defined(AssignedRowIn(t.vehicles)))|
    ensures forall x :: x in r ==>
      x.vehicle in t.vehicles && exists a :: a in t.links && a.driverId == driverId && a.vehicleId == x.vehicle.id && a.assignedAt == x.assignedAt
    ensures forall a :: a in t.links && a.driverId == driverId && FindVehicle(t.vehicles, a.vehicleId).Some? ==>
      AssignedVehicle(FindVehicle(t.vehicles, a.vehicleId).value, a.assignedAt) in r
  {
    Collect(DriverLinks(t.links, driverId), AssignedRowIn(t.vehicles))
  }

  /**
   * `GET /driver/assigned`: drivers only; exactly the vehicles assigned to
   * the caller, most recent assignment first.
   */
  function AssignedVehicles(t: Tables, p: Principal): (r: Reply<seq<AssignedVehicle>>)
    ensures p.role != DRIVER ==> r == Failure(Forbidden, DRIVERS_ONLY)
    ensures p.role == DRIVER ==>
      && r.Success? && r.status == Ok
      && |r.body| == |Filter(DriverLinks(t.links, p.userId), Defined(AssignedRowIn(t.vehicles)))|
      && (forall x :: x in r.body ==>
            (x.vehicle in t.vehicles &&
             exists a :: a in t.links && a.driverId == p.userId && a.vehicleId == x.vehicle.id && a.assignedAt == x.assignedAt))
      && (forall a :: a in t.links && a.driverId == p.userId && FindVehicle(t.vehicles, a.vehicleId).Some? ==>
            AssignedVehicle(FindVehicle(t.vehicles, a.vehicleId).value, a.assignedAt) in r.body)
      && Pairwise(r.body, LaterAssigned)
  {
    if p.role != DRIVER then Failure(Forbidden, DRIVERS_ONLY)
    else Success(Ok, SortBy(AssignedRows(t, p.userId), LaterAssigned))
  }

  function DriverBriefOf(u: User): DriverBrief {
    DriverBrief(u.id, u.name, u.email, u.mobile)
  }

  /** The users whose role is driver, in table order. */
  function DriverUsers(t: Tables): (r: seq<User>)
    ensures forall u :: u in r <==> u in t.users && u.role == DRIVER
  {
    Filter(t.users, (u: User) => u.role == DRIVER)
  }

  /** The summary of each driver user, in table order. */
  function DriverBriefs(t: Tables): (r: seq<DriverBrief>)
    ensures |r| == |DriverUsers(t)|
    ensures forall d :: d in r <==> exists u :: u in t.users && u.role == DRIVER && DriverBriefOf(u) == d
  {
    Map(DriverUsers(t), DriverBriefOf)
  }

  /** `GET /drivers/list`: admins and managers get one entry per user whose role is driver, by name. */
  function DriversList(t: Tables, p: Principal): (r: Reply<seq<DriverBrief>>)
    ensures !Authorized(p, [ADMIN, MANAGER]) ==> r == Denied
    ensures Authorized(p, [ADMIN, MANAGER]) ==>
      && r.Success? && r.status == Ok
      && |r.body| == |DriverUsers(t)|
      && (forall d :: d in r.body <==> exists u :: u in t.users && u.role == DRIVER && DriverBriefOf(u) == d)
      && Pairwise(r.body, ByName)
  {
    if !Authorized(p, [ADMIN, MANAGER]) then Denied
    else
      ByNameOrder();
      Success(Ok, SortBy(DriverBriefs(t), ByName))
  }

  // ----- Handlers that write -----

  /** `POST /`: create a vehicle after the required-field and duplicate-number checks. */
  method CreateVehicle(db: Database, p: Principal, number: Field<string>, model: Field<string>,
                       fuelType: Field<string>, lastService: Field<int>, now: int)
    returns (r: Reply<Vehicle>)
    requires db.Valid()
    modifies db
    ensures db.Valid()
    ensures !Authorized(p, [ADMIN, MANAGER]) ==> r == Denied && unchanged(db)
    ensures Authorized(p, [ADMIN, MANAGER]) && !(TruthyText(number) && TruthyText(model) && TruthyText(fuelType)) ==>
      r == Failure(BadRequest, FIELDS_REQUIRED) && unchanged(db)
    ensures Authorized(p, [ADMIN, MANAGER]) && TruthyText(number) && TruthyText(model) && TruthyText(fuelType) ==>
      if FindVehicleByNumber(old(db.vehicles), number.v).Some? then
        r == Failure(BadRequest, NUMBER_TAKEN) && unchanged(db)
      else
        var v := Vehicle(old(db.sequence.vehicle), number.v, model.v, fuelType.v, PresentOrNull(lastService), now);
        && r == Success(Created, v)
        && db.Snapshot() == old(db.Snapshot()).(vehicles := old(db.vehicles) + [v])
  {
    if !Authorized(p, [ADMIN, MANAGER]) {
      return Denied;
    }
    if !TruthyText(number) || !TruthyText(model) || !TruthyText(fuelType) {
      return Failure(BadRequest, FIELDS_REQUIRED);
    }
    if FindVehicleByNumber(db.vehicles, number.v).Some? {
      return Failure(BadRequest, NUMBER_TAKEN);
    }
    var res := db.InsertVehicle(number.v, model.v, fuelType.v, PresentOrNull(lastService), now);
    assert res.Done?;
    var v := Vehicle(res.lastId, number.v, model.v, fuelType.v, PresentOrNull(lastService), now);
    FindVehicleAppended(old(db.vehicles), v);
    var created := FindVehicle(db.vehicles, res.lastId);
    r := Success(Created, created.value);
  }

  /**
   * The row `PUT /:id` writes: number, model and fuel type keep their old
   * values when the new ones are omitted or falsy; the service date is
   * replaced whenever one is sent, `null` included.
   */
  function MergeVehicle(existing: Vehicle, number: Field<string>, model: Field<string>,
                        fuelType: Field<string>, lastService: Field<int>): (r: Vehicle)
    ensures r.id == existing.id && r.createdAt == existing.createdAt
    ensures r.number == (if TruthyText(number) then number.v else existing.number)
    ensures r.model == (if TruthyText(model) then model.v else existing.model)
    ensures r.fuelType == (if TruthyText(fuelType) then fuelType.v else existing.fuelType)
    ensures lastService.Undefined? ==> r.lastService == existing.lastService
    ensures lastService.Null? ==> r.lastService.None?
    ensures lastService.Value? ==> r.lastService == Some(lastService.v)
  {
    existing.(number := TextOr(number, existing.number), model := TextOr(model, existing.model),
              fuelType := TextOr(fuelType, existing.fuelType),
              lastService := DefinedOr(lastService, existing.lastService))
  }

  /** `PUT /:id`: 404 for an absent vehicle, 400 for a number another vehicle holds. */
  method UpdateVehicle(db: Database, p: Principal, id: int, number: Field<string>, model: Field<string>,
                       fuelType: Field<string>, lastService: Field<int>)
    returns (r: Reply<Vehicle>)
    requires db.Valid()
    modifies db
    ensures db.Valid()
    ensures !Authorized(p, [ADMIN, MANAGER]) ==> r == Denied && unchanged(db)
    ensures Authorized(p, [ADMIN, MANAGER]) && FindVehicle(old(db.vehicles), id).None? ==>
      r == Failure(NotFound, VEHICLE_NOT_FOUND) && unchanged(db)
    ensures Authorized(p, [ADMIN, MANAGER]) && FindVehicle(old(db.vehicles), id).Some? ==>
      var existing := FindVehicle(old(db.vehicles), id).value;
      if TruthyText(number) && number.v != existing.number && FindVehicleByNumber(old(db.vehicles), number.v).Some? then
        r == Failure(BadRequest, NUMBER_TAKEN) && unchanged(db)
      else
        var v := MergeVehicle(existing, number, model, fuelType, lastService);
        && r == Success(Ok, v)
        && db.Snapshot() == old(db.Snapshot()).(vehicles := ReplaceVehicle(old(db.vehicles), v))
        && db.sequence == old(db.sequence)
  {
    if !Authorized(p, [ADMIN, MANAGER]) {
      return Denied;
    }
    var found := FindVehicle(db.vehicles, id);
    if found.None? {
      return Failure(NotFound, VEHICLE_NOT_FOUND);
    }
    var existing := found.value;
    if TruthyText(number) && number.v != existing.number {
      if FindVehicleByNumber(db.vehicles, number.v).Some? {
        return Failure(BadRequest, NUMBER_TAKEN);
      }
    }
    var v := MergeVehicle(existing, number, model, fuelType, lastService);
    forall w | w in db.vehicles && w.id != id
      ensures w.number != v.number
    {
      VehicleNumberUnique(db.vehicles, db.sequence.vehicle, w, existing);
    }
    var res := db.UpdateVehicle(id, v.number, v.model, v.fuelType, v.lastService);
    assert res.Done?;
    FindVehicleReplaced(old(db.vehicles), v);
    var updated := FindVehicle(db.vehicles, id);
    r := Success(Ok, updated.value);
  }

  /** `DELETE /:id`: admins only; 404 for an absent vehicle, 400 while trips use it. */
  method DeleteVehicle(db: Database, p: Principal, id: int) returns (r: Reply<string>)
    requires db.Valid()
    modifies db
    ensures db.Valid()
    ensures !Authorized(p, [ADMIN]) ==> r == Denied && unchanged(db)
    ensures Authorized(p, [ADMIN]) && FindVehicle(old(db.vehicles), id).None? ==>
      r == Failure(NotFound, VEHICLE_NOT_FOUND) && unchanged(db)
    ensures Authorized(p, [ADMIN]) && FindVehicle(old(db.vehicles), id).Some? && TripsOfVehicle(old(db.trips), id) != [] ==>
      r == Failure(BadRequest, HAS_TRIPS) && unchanged(db)
    ensures Authorized(p, [ADMIN]) && FindVehicle(old(db.vehicles), id).Some? && TripsOfVehicle(old(db.trips), id) == [] ==>
      && r == Success(Ok, DELETED)
      && db.Snapshot() == old(db.Snapshot()).(vehicles := VehiclesWithout(old(db.vehicles), id))
      && db.sequence == old(db.sequence)
  {
    if !Authorized(p, [ADMIN]) {
      return Denied;
    }
    if FindVehicle(db.vehicles, id).None? {
      return Failure(NotFound, VEHICLE_NOT_FOUND);
    }
    if |TripsOfVehicle(db.trips, id)| > 0 {
      return Failure(BadRequest, HAS_TRIPS);
    }
    var _ := db.DeleteVehicle(id);
    r := Success(Ok, DELETED);
  }

  /**
   * `POST /assign`, whose checks run in order: both ids present, the vehicle
   * exists, the user exists with role driver, the pair is not stored yet.
   */
  method Assign(db: Database, p: Principal, vehicleId: Field<int>, driverId: Field<int>, now: int)
    returns (r: Reply<AssignmentDetail>)
    requires db.Valid()
    modifies db
    ensures db.Valid()
    ensures !Authorized(p, [ADMIN, MANAGER]) ==> r == Denied && unchanged(db)
    ensures Authorized(p, [ADMIN, MANAGER]) && !(TruthyId(vehicleId) && TruthyId(driverId)) ==>
      r == Failure(BadRequest, IDS_REQUIRED) && unchanged(db)
    ensures Authorized(p, [ADMIN, MANAGER]) && TruthyId(vehicleId) && TruthyId(driverId) ==>
      var v, d := vehicleId.v, driverId.v;
      if FindVehicle(old(db.vehicles), v).None? then
        r == Failure(NotFound, VEHICLE_NOT_FOUND) && unchanged(db)
      else if FindDriver(old(db.users), d).None? then
        r == Failure(NotFound, DRIVER_NOT_FOUND) && unchanged(db)
      else if Linked(old(db.links), v, d) then
        r == Failure(BadRequest, ALREADY_ASSIGNED) && unchanged(db)
      else
        var a := Assignment(old(db.sequence.link), v, d, now);
        var vehicle := FindVehicle(old(db.vehicles), v).value;
        var driver := FindDriver(old(db.users), d).value;
        && r == Success(Created, AssignmentDetail(a, vehicle.number, vehicle.model, driver.name, driver.email))
        && db.Snapshot() == old(db.Snapshot()).(links := old(db.links) + [a])
        && Linked(db.links, v, d)
  {
    if !Authorized(p, [ADMIN, MANAGER]) {
      return Denied;
    }
    if !TruthyId(vehicleId) || !TruthyId(driverId) {
      return Failure(BadRequest, IDS_REQUIRED);
    }
    var vehicle := FindVehicle(db.vehicles, vehicleId.v);
    if vehicle.None? {
      return Failure(NotFound, VEHICLE_NOT_FOUND);
    }
    var driver := FindDriver(db.users, driverId.v);
    if driver.None? {
      return Failure(NotFound, DRIVER_NOT_FOUND);
    }
    if exists a :: a in db.links && a.vehicleId == vehicleId.v && a.driverId == driverId.v {
      return Failure(BadRequest, ALREADY_ASSIGNED);
    }
    var res := db.InsertLink(vehicleId.v, driverId.v, now);
    assert res.Done?;
    var a := Assignment(res.lastId, vehicleId.v, driverId.v, now);
    assert a in db.links;
    r := Success(Created, AssignmentDetail(a, vehicle.value.number, vehicle.value.model,
                                           driver.value.name, driver.value.email));
  }

  /**
   * `DELETE /assign/:vehicleId/:driverId`: the DELETE's `changes` tells
   * whether the pair was stored; 0 answers 404. Either way the pair is absent
   * afterwards, so repeating the call answers 404.
   */
  method Unassign(db: Database, p: Principal, vehicleId: int, driverId: int) returns (r: Reply<string>)
    requires db.Valid()
    modifies db
    ensures db.Valid()
    ensures !Authorized(p, [ADMIN, MANAGER]) ==> r == Denied && unchanged(db)
    ensures Authorized(p, [ADMIN, MANAGER]) && !Linked(old(db.links), vehicleId, driverId) ==>
      r == Failure(NotFound, ASSIGNMENT_NOT_FOUND) && unchanged(db)
    ensures Authorized(p, [ADMIN, MANAGER]) && Linked(old(db.links), vehicleId, driverId) ==>
      && r == Success(Ok, UNASSIGNED)
      && db.Snapshot() == old(db.Snapshot()).(links := LinksWithout(old(db.links), vehicleId, driverId))
      && |db.links| == |old(db.links)| - 1
      && db.sequence == old(db.sequence)
    ensures !Linked(db.links, vehicleId, driverId) || !Authorized(p, [ADMIN, MANAGER])
  {
    if !Authorized(p, [ADMIN, MANAGER]) {
      return Denied;
    }
    DeleteLinkChanges(db.links, db.sequence.link, vehicleId, driverId);
    var res := db.DeleteLink(vehicleId, driverId);
    if res.changes == 0 {
      return Failure(NotFound, ASSIGNMENT_NOT_FOUND);
    }
    r := Success(Ok, UNASSIGNED);
  }
}
