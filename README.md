# Fleet management: store, handlers and reports

A Dafny model of the core of a small fleet-management web application. Its
Express back end keeps four SQLite tables: users, vehicles, trips, and the
vehicle–driver assignments in `vehicle_drivers`. The route handlers guard
and update those tables, and the dashboard routes derive reports from them.
Two React pages compute further figures from what the API returns: the
admin dashboard builds charts and a CSV export, and the vehicle-details
page shows a vehicle's mileage, totals and service status.

The model has one module per core file:

- `Db` (`db.dfy`, database/db.js) is the store.
  - Class `Database` holds the four tables as sequences, plus SQLite's AUTOINCREMENT counters.
  - `Valid()` is the class invariant taken from the DDL:
    - a user's role is admin, manager or driver;
    - e-mails, vehicle numbers and (vehicle, driver) pairs are unique;
    - ids come from the counters.
  - Each SQL statement a handler runs is a method that returns `runAsync`'s settlement. It is either `Done(lastId, changes)` or `Rejected` (a constraint violation).
- `VehicleRoutes` (`vehicles.dfy`), `TripRoutes` (`trips.dfy`) and `AuthRoutes` (`auth.dfy`) model the handlers.
  - A handler that writes is a method on the store.
  - A handler that only reads is a function of the tables.
  - Each one takes the caller as a `Principal(userId, role)` and returns a `Reply`: a status with a body, or a status with an error message.
- `Dashboard` (`dashboard.dfy`, routes/dashboard.js) models the reports.
  - Each aggregate query is a pure function over the tables.
  - The `forEach` that groups assignment rows by vehicle is a method with a loop.
- `AdminDashboard` (`admin_dashboard.dfy`) and `VehicleDetails` (`vehicle_details.dfy`) model the two pages.
  - The chart helpers are filter/map/sort/slice functions.
  - The CSV export appends line by line in a loop.
  - The mileage figures and the service badges are functions.
- `Wrappers`, `Seqs` and `Http` are shared vocabulary:
  - `Option`;
  - filtering, mapping and summing;
  - a stable insertion sort standing for `ORDER BY`/`Array.sort`;
  - `LIMIT`/`slice`;
  - the HTTP statuses;
  - request fields that may be absent, `null` or a value.

What the platform supplies is not modelled directly. These are parameters instead:

- the rounding of `toFixed(2)`;
- `parseFloat` of text;
- SQLite's `strftime`;
- bcrypt's hash and compare;
- the current time.

Dates are whole day numbers.

## Model

| member | source | states |
|---|---|---|
| Db.Database.constructor | database/db.js:8-68 | the freshly created store has four empty tables and satisfies the table invariants |
| Db.Database.InsertUser | database/db.js:10-18 | the insert is rejected exactly when the role fails the CHECK or the e-mail is already taken; otherwise exactly one row with the next id is appended, `changes` is 1 and the invariants still hold |
| Db.Database.UpdateUser | routes/auth.js:141-158 | no row matches an absent id (0 changes, nothing altered); otherwise the row is replaced in place, rejected when the new role or e-mail breaks a constraint |
| Db.Database.DeleteUser | routes/auth.js:199 | removes exactly the rows with that id; `changes` is the number removed |
| Db.Database.DeleteLinksOfDriver | routes/auth.js:197 | removes exactly the driver's assignment pairs; `changes` is the number removed |
| Db.Database.InsertVehicle | database/db.js:21-28 | rejected exactly when the number is already used (UNIQUE); otherwise one row appended with the next id |
| Db.Database.UpdateVehicle | routes/vehicles.js:91-100 | 0 changes for an absent id; otherwise the row is replaced, rejected when the new number belongs to another vehicle |
| Db.Database.DeleteVehicle | routes/vehicles.js:122 | removes only the vehicle row: trips and assignments are left as they were, since foreign keys are not enforced |
| Db.Database.InsertTrip | routes/trips.js:98-102 | always succeeds with `lastID` = the next trip id and appends exactly that row |
| Db.Database.UpdateTrip | routes/trips.js:141-161 | 0 changes for an absent id; otherwise exactly that trip is replaced, driver and date kept |
| Db.Database.DeleteTrip | routes/trips.js:192 | removes exactly the trip with that id, nothing else |
| Db.Database.InsertLink | database/db.js:47-55 | rejected exactly when the (vehicle, driver) pair already exists; otherwise one pair appended |
| Db.Database.DeleteLink | routes/vehicles.js:216-219 | removes the pair if present; `changes` counts the rows removed; an absent pair changes nothing |
| Db.DeleteLinkChanges | database/db.js:71-78 | under the pair-uniqueness invariant, deleting a pair changes exactly 1 row when it is present and 0 otherwise |
| Db.FindUser | routes/auth.js:129 | a hit is a row of the table with that id; no hit exactly when no row has it |
| Db.FindUserByEmail | routes/auth.js:39 | a hit is a row with that e-mail; no hit exactly when no row has it |
| Db.FindVehicle | routes/vehicles.js:22 | a hit is a row with that id; no hit exactly when no row has it |
| Db.FindVehicleByNumber | routes/vehicles.js:57 | a hit is a row with that number; no hit exactly when none has it |
| Db.FindTrip | routes/trips.js:126 | a hit is a row with that trip id; no hit exactly when none has it |
| Db.FindDriver | routes/vehicles.js:175 | a hit is a user with that id whose role is driver; no hit exactly when there is none |
| Db.TripsOfVehicle | routes/vehicles.js:117 | exactly the trips on that vehicle |
| Db.TripsOfDriver | routes/auth.js:192 | exactly the trips of that driver |
| Db.UsersWithout | routes/auth.js:199 | exactly the users with another id |
| Db.VehiclesWithout | routes/vehicles.js:122 | exactly the vehicles with another id |
| Db.TripsWithout | routes/trips.js:192 | exactly the trips with another id |
| Db.LinksWithout | routes/vehicles.js:216-219 | exactly the pairs other than (vehicle, driver) |
| Db.LinksWithoutDriver | routes/auth.js:197 | exactly the pairs of other drivers |
| Db.ReplaceUser | routes/auth.js:158 | same length; the row with the id becomes the new row, every other row is kept |
| Db.ReplaceVehicle | routes/vehicles.js:91-100 | same length; only the row with the id is replaced |
| Db.ReplaceTrip | routes/trips.js:141-161 | same length; only the row with the id is replaced |
| Db.ReplaceUserValid | database/db.js:13-14 | replacing a user by one with a valid role and an e-mail no other user holds keeps the users invariant |
| Db.ReplaceVehicleValid | database/db.js:23 | replacing a vehicle by one whose number no other vehicle holds keeps the vehicles invariant |
| Db.ReplaceTripValid | database/db.js:31-44 | replacing a trip under the same id keeps the trips invariant |
| Db.AppendUserValid | database/db.js:10-18 | appending a valid-role user with a fresh e-mail and the next id keeps the invariant for the advanced counter |
| Db.AppendVehicleValid | database/db.js:21-28 | appending a vehicle with a fresh number and the next id keeps the invariant |
| Db.AppendTripValid | database/db.js:31-44 | appending a trip with the next id keeps the invariant |
| Db.AppendLinkValid | database/db.js:47-55 | appending a fresh pair with the next id keeps the invariant |
| Db.FindVehicleAppended | routes/vehicles.js:62-67 | the vehicle just inserted is found again by its `lastID` |
| Db.FindTripAppended | routes/trips.js:98-104 | the trip just inserted is found again by its `lastID` |
| Db.FindUserReplaced | routes/auth.js:158-160 | after an update the user is read back as the new row |
| Db.FindVehicleReplaced | routes/vehicles.js:91-102 | after an update the vehicle is read back as the new row |
| Db.FindTripReplaced | routes/trips.js:141-163 | after an update the trip is read back as the new row |
| Db.UserEmailUnique | database/db.js:14 | in a valid users table, two rows with the same e-mail are the same row |
| Db.VehicleNumberUnique | database/db.js:23 | in a valid vehicles table, two rows with the same number are the same row |
| Db.TripIdUnique | database/db.js:32 | in a valid trips table, two rows with the same id are the same row |
| VehicleRoutes.ListVehicles | routes/vehicles.js:9-17 | admins and managers get a permutation of the vehicles table, newest first; any other role is denied |
| VehicleRoutes.GetVehicle | routes/vehicles.js:19-47 | admins and managers get the vehicle or 404; a driver gets it only when assigned to it, else 403; any other role gets 403 "Access denied" |
| VehicleRoutes.AvailableVehicles | routes/vehicles.js:130-138 | one brief per vehicle, exactly the vehicles, ordered by number |
| VehicleRoutes.DriverLinks | routes/vehicles.js:146-152 | exactly the assignments of the given driver |
| VehicleRoutes.DriverUsers | routes/vehicles.js:234-237 | exactly the users whose role is driver |
| VehicleRoutes.AssignedRows | routes/vehicles.js:146-153 | one row for each of the caller's assignments whose vehicle exists (the count), each joining that assignment with its vehicle, and every such assignment appears |
| VehicleRoutes.AssignedVehicles | routes/vehicles.js:140-160 | drivers only (403 otherwise); one row per assignment of the caller whose vehicle exists, exactly those vehicles, newest assignment first |
| VehicleRoutes.DriversList | routes/vehicles.js:232-243 | admins and managers get one entry per user whose role is driver (the count), exactly those users, ordered by name |
| VehicleRoutes.CreateVehicle | routes/vehicles.js:49-73 | missing field gives 400, duplicate number gives 400, both with the store unchanged; otherwise 201 with exactly one vehicle appended |
| VehicleRoutes.MergeVehicle | routes/vehicles.js:91-100 | number, model and fuel type are kept when the new value is omitted or falsy; the service date is replaced whenever one is sent, even null |
| VehicleRoutes.UpdateVehicle | routes/vehicles.js:75-108 | 404 for an absent vehicle; 400 when the number belongs to another vehicle (keeping its own number is allowed); otherwise the merged row replaces it and nothing else changes |
| VehicleRoutes.DeleteVehicle | routes/vehicles.js:110-128 | admin only; 404 when absent; 400 while any trip uses it, store unchanged; otherwise only the vehicle row is removed |
| VehicleRoutes.Assign | routes/vehicles.js:162-210 | checks in order: missing ids 400, unknown vehicle 404, no such driver 404, pair present 400 (store unchanged each time); otherwise exactly one pair is added |
| VehicleRoutes.Unassign | routes/vehicles.js:212-230 | an absent pair gives 404 with no change; otherwise exactly that pair is removed, so the pair is never left linked |
| TripRoutes.Joined | routes/trips.js:13-30 | a trip joins with its driver and vehicle exactly when both rows exist |
| TripRoutes.VisibleTrips | routes/trips.js:12-29 | exactly the stored trips the caller may see: a driver's own, or all for other roles |
| TripRoutes.ListTrips | routes/trips.js:9-36 | one row per visible trip whose driver and vehicle exist (the count); every listed trip is visible to the caller (a driver sees exactly their own) and every visible joined trip is listed, newest first |
| TripRoutes.FindOwnTrip | routes/trips.js:124 | a hit has that id and that driver; no hit exactly when no such trip exists |
| TripRoutes.ScopedTrip | routes/trips.js:122-127 | a hit has that id and is visible to the caller; no hit exactly when no trip with that id is visible |
| TripRoutes.OthersTripLooksAbsent | routes/trips.js:41-63 | for a driver, another driver's trip is not found, exactly as if it had been deleted |
| TripRoutes.ScopedTripIsTrip | routes/trips.js:122-127 | in a valid table, a trip the caller may see is the one row with that id |
| TripRoutes.GetTrip | routes/trips.js:38-69 | 200 exactly when a visible trip with the id exists and joins; otherwise 404 "Trip not found" |
| TripRoutes.GetOthersTripIsNotFound | routes/trips.js:41-63 | a driver fetching another driver's trip gets the same 404 as for a trip that does not exist |
| TripRoutes.TripDriver | routes/trips.js:94-96 | a driver's trip is theirs; an admin or manager's goes to `driver_id` when given, else to the caller |
| TripRoutes.CreateTrip | routes/trips.js:71-118 | a missing or falsy field gives 400 "All fields are required"; NaN or non-positive numbers give 400; an unknown vehicle gives 404 (store unchanged each time); otherwise one trip is appended with efficiency = distance / fuel |
| TripRoutes.FinalNumber | routes/trips.js:135-137 | an omitted number keeps the stored value, a number is used as is, text goes through `parseFloat`; no positivity check |
| TripRoutes.Efficiency | routes/trips.js:139 | efficiency is present exactly when distance and fuel are, and fuel is not 0; then efficiency × fuel = distance |
| TripRoutes.MergeTrip | routes/trips.js:135-161 | id, driver and date never change; omitted fields keep old values; efficiency is recomputed from the final distance and fuel |
| TripRoutes.UpdateTrip | routes/trips.js:120-177 | a trip the caller may not see gives 404 with no change; an unparseable number gives 500 with no change; otherwise exactly that trip is replaced |
| TripRoutes.DeleteTrip | routes/trips.js:179-198 | a trip the caller may not see gives 404 with no change; otherwise exactly that trip is removed, one row fewer, nothing else touched |
| TripRoutes.TripsWithoutOne | routes/trips.js:192 | in a valid table, deleting an existing trip removes exactly one row |
| AuthRoutes.ListUsers | routes/auth.js:9-20 | non-admins get 403; an admin gets one password-free profile per user, newest first |
| AuthRoutes.Register | routes/auth.js:23-65 | non-admins 403; missing fields 400; a role outside admin/manager/driver 400; a taken e-mail 400 (store unchanged each time); otherwise one user appended, mobile defaulting to null |
| AuthRoutes.Login | routes/auth.js:67-105 | missing e-mail or password gives 400; success exactly when the user with that e-mail exists and the password matches; otherwise the same 401 "Invalid credentials" |
| AuthRoutes.LoginSucceedsIff | routes/auth.js:75-83 | with unique e-mails, login succeeds exactly when some user has that e-mail and a matching password |
| AuthRoutes.FindUserByEmailAppended | routes/auth.js:39-48 | a user registered with a fresh e-mail is found by it |
| AuthRoutes.RegisterThenLogin | routes/auth.js:44-89 | after registering a fresh e-mail, logging in with the same password returns that user's identity |
| AuthRoutes.Me | routes/auth.js:107-118 | the caller's own profile when the row exists, else 404 "User not found" |
| AuthRoutes.MergeUser | routes/auth.js:141-156 | omitted fields keep old values; mobile is replaced whenever sent; the password changes only when one is supplied (hashed) |
| AuthRoutes.UpdateUser | routes/auth.js:120-173 | non-admins 403; absent user 404; an e-mail another user holds 400 (store unchanged each time); otherwise only that user row is replaced |
| AuthRoutes.DeleteUser | routes/auth.js:175-206 | non-admins 403; self-deletion 400 before the existence check; absent 404; a user with trips 400; otherwise the user and all their assignment pairs are removed |
| Dashboard.Present | routes/dashboard.js:21 | the non-NULL values of a column, exactly |
| Dashboard.Avg | routes/dashboard.js:21 | `AVG` is NULL exactly when every value is NULL |
| Dashboard.AvgWithin | routes/dashboard.js:21 | an average lies between any lower and upper bound of the averaged values |
| Dashboard.RoundOrNull | routes/dashboard.js:79 | a rounded average is present exactly when the SQL average is present and not 0 |
| Dashboard.SumOrNull | routes/dashboard.js:268-269 | `SUM` is NULL exactly over no rows |
| Dashboard.GetStats | routes/dashboard.js:9-40 | admins and managers get the trip, vehicle and driver counts, the fuel and distance sums and the rounded averages; anyone else is denied |
| Dashboard.StatsWithoutTrips | routes/dashboard.js:27-35 | with no trips every count, sum and average reported is 0 |
| Dashboard.PairTrips | routes/dashboard.js:44-59 | exactly the trips of that vehicle with that driver |
| Dashboard.JoinedRowsDistinct | routes/dashboard.js:44-60 | assignments of different (vehicle, driver) pairs join to different rows, in any order of the rows |
| Dashboard.AssignmentRows | routes/dashboard.js:44-60 | exactly the joins of the assignments whose vehicle and driver exist: as many rows as such assignments, none repeated while each (vehicle, driver) pair is stored once, ordered by vehicle number then driver name |
| Dashboard.DriversOfAppend | routes/dashboard.js:63-81 | adding a row adds its entry to its own vehicle's drivers only |
| Dashboard.LookupSorted | routes/dashboard.js:63-81 | in a dictionary kept in key order, a group is found by its own vehicle id |
| Dashboard.UpsertLookup | routes/dashboard.js:64-73 | filing a row creates or extends its vehicle's group and leaves every other vehicle's group as it was |
| Dashboard.UpsertCount | routes/dashboard.js:73 | each row filed adds exactly one driver entry overall |
| Dashboard.UpsertSorted | routes/dashboard.js:64-72 | filing a row keeps the dictionary in ascending vehicle-id order |
| Dashboard.GroupsStep | routes/dashboard.js:64-81 | one loop step turns the grouping of a prefix into the grouping of the prefix plus the row |
| Dashboard.GroupByVehicle | routes/dashboard.js:63-83 | the loop's result is the grouping of all the rows |
| Dashboard.GroupsMeaning | routes/dashboard.js:63-83 | one group per assigned vehicle in ascending id order; each holds exactly its rows' entries in row order, never empty; every row appears under its vehicle |
| Dashboard.AssignedDrivers | routes/dashboard.js:42-88 | admins and managers get the grouping of the assignment rows; anyone else is denied |
| Dashboard.TopDriverRowsFacts | routes/dashboard.js:93-107 | `limit` rows, or one per driver with trips when there are fewer (all of them for a negative limit); the rows are drawn from the drivers' totals, none more often than the JOIN groups it; in descending average efficiency |
| Dashboard.TopDriversAreTop | routes/dashboard.js:93-107 | an active driver left out of the top list averages no more than any driver listed |
| Dashboard.TopDriverIdsDistinct | routes/dashboard.js:101-106 | with user ids unique, `GROUP BY u.user_id` gives no driver two rows: the answered user ids are pairwise different |
| Dashboard.ActiveDriverIdsDistinct | routes/dashboard.js:101-104 | with user ids unique, the drivers the JOIN keeps have pairwise different ids |
| Dashboard.TopDriversBodyFacts | routes/dashboard.js:99-113 | each answered row is a driver with trips under its own name, with its trip count, rounded average, total distance and total fuel (the SUMs over its trips), in descending order |
| Dashboard.TopDriversBodyDistinct | routes/dashboard.js:101-113 | with user ids unique, the answer names each driver at most once |
| Dashboard.TopDrivers | routes/dashboard.js:90-118 | limit 10 when missing or 0; exactly `limit` rows of drivers with trips, or all of them when there are fewer, by descending average, each with its name, count, average and SUMs, and no driver twice when user ids are unique; 500 only when such a driver's average is NULL (the `toFixed` on NULL throws) |
| Dashboard.VehicleEfficiency | routes/dashboard.js:120-149 | one row per vehicle with its trip totals, exactly the vehicles, by descending average |
| Dashboard.RankedTotalsFacts | routes/dashboard.js:120-149 | rounding the ranked per-vehicle totals keeps exactly one row per vehicle, each the totals of some vehicle, in descending order of average efficiency |
| Dashboard.PeriodFormat | routes/dashboard.js:153-162 | 'day' maps to %Y-%m-%d, 'week' to %Y-%W, anything else (default 'month') to %Y-%m |
| Dashboard.UsageRows | routes/dashboard.js:164-171 | one group per key, in key order, each the totals of the trips with that key |
| Dashboard.PeriodRowsFacts | routes/dashboard.js:164-171 | the groups are distinct; each is its own period's totals; every trip's period has a group |
| Dashboard.UsageRowsFuel | routes/dashboard.js:164-171 | the groups' fuel totals sum to the fuel of the trips with those keys |
| Dashboard.PeriodFuelPartition | routes/dashboard.js:164-171 | the periods partition the trips: their fuel totals sum to the total fuel |
| Dashboard.LatestPeriodsFacts | routes/dashboard.js:172-173 | the 12 latest periods, or all of them when there are fewer: periods strictly descending, each a group of the query, and any trip whose period is left out falls before every listed period |
| Dashboard.LatestPeriodOmitted | routes/dashboard.js:172-173 | a trip whose period is not among the kept groups falls before each of them |
| Dashboard.UsageBodyOrder | routes/dashboard.js:164-173 | the answer has min(12, distinct periods) groups, periods strictly descending |
| Dashboard.UsageBodyLatest | routes/dashboard.js:164-173 | after rounding, a trip's period is still left out only when it falls before every answered period |
| Dashboard.UsageBodyTotals | routes/dashboard.js:164-180 | each answered period carries the fuel, distance and rounded average of its own non-empty group of trips |
| Dashboard.FuelUsage | routes/dashboard.js:151-185 | the 12 latest periods with trips, or every such period when there are fewer, distinct and in descending order, each with the totals of its non-empty group of trips; a trip's period is left out only when it falls before every listed one |
| Dashboard.ReminderStatus | routes/dashboard.js:194-199 | 'No service record' exactly without a date; 'Due for service' exactly when the days since service reach a non-negative threshold; 'OK' otherwise |
| Dashboard.MaintenanceReminders | routes/dashboard.js:187-210 | every vehicle exactly once, with its status at threshold (default 30) and its day count, never-serviced first then oldest service |
| Dashboard.VehiclesOfReminders | routes/dashboard.js:191-201 | the reminders carry exactly the vehicles table, in its order |
| Dashboard.LowRowOfFacts | routes/dashboard.js:216-227 | a vehicle has a row exactly when it has trips whose average is strictly below the threshold |
| Dashboard.LowRowsMembers | routes/dashboard.js:216-228 | one row per vehicle averaging below the threshold (the count); every row is such a vehicle, every such vehicle has a row, ascending by average |
| Dashboard.LowBodySound | routes/dashboard.js:216-234 | each listed vehicle averages strictly below the threshold and has at least one trip |
| Dashboard.LowBodyComplete | routes/dashboard.js:216-228 | every vehicle averaging below the threshold is listed |
| Dashboard.LowBodyAscending | routes/dashboard.js:228 | the least efficient vehicle comes first |
| Dashboard.LowEfficiencyVehicles | routes/dashboard.js:212-240 | threshold 10 when missing or 0; one row per vehicle with trips averaging strictly below it and no other, ascending |
| Dashboard.RoleCountRows | routes/dashboard.js:250 | one count per role, each the number of users with that role |
| Dashboard.CountTotalRows | routes/dashboard.js:250 | the role counts add up to the users with those roles |
| Dashboard.RoleCountsFacts | routes/dashboard.js:250 | one row per role in use, by role name, each count positive, every user's role counted, totals equal the number of users |
| Dashboard.DriverPerformanceRowsCover | routes/dashboard.js:261-283 | one row per driver, trips or not |
| Dashboard.DriverPerformanceRowsFrom | routes/dashboard.js:261-283 | every row is a driver's own totals |
| Dashboard.DriverPerformanceWithoutTrips | routes/dashboard.js:262-283 | a driver without trips has NULL sums and averages |
| Dashboard.DriverPerformanceOrdered | routes/dashboard.js:276 | rows by descending average efficiency |
| Dashboard.VehiclePerformanceFacts | routes/dashboard.js:284-305 | one row per vehicle, trips or not, NULL sums for a vehicle without trips, ordered by vehicle number |
| Dashboard.Reports | routes/dashboard.js:242-313 | admin only; the type defaults to summary; summary, driver-performance and vehicle-performance give their payload; any other type gives the empty object |
| AdminDashboard.FirstWord | src/components/AdminDashboard.js:105 | the chart label is a prefix of the name without a space, cut at the first space |
| AdminDashboard.TopFacts | src/components/AdminDashboard.js:102-110 | a filter/map/sort/slice chain yields min(n, kept) points, in order, each from a kept row and none more often than the kept rows give it; a kept row that is cut comes after every point shown |
| AdminDashboard.DriverChart | src/components/AdminDashboard.js:98-111 | empty unless the report is a driver-performance array; at most 10 bars, efficiency descending |
| AdminDashboard.DriverChartFacts | src/components/AdminDashboard.js:102-110 | exactly min(10, charted drivers) bars, none more often than the charted drivers give it; each bar is a charted driver's `split(' ')[0]`, average and trip count; a driver left out averages no more than any bar |
| AdminDashboard.VehicleChart | src/components/AdminDashboard.js:113-127 | empty unless the report is a vehicle-performance array; at most 10 bars, efficiency descending |
| AdminDashboard.VehicleChartFacts | src/components/AdminDashboard.js:117-126 | exactly min(10, charted vehicles) bars, none more often than the charted vehicles give it, each a charted vehicle by number with distance and fuel 0 when NULL; a vehicle left out averages no more than any bar |
| AdminDashboard.DistanceChart | src/components/AdminDashboard.js:129-140 | empty unless vehicle-performance; at most 8 bars, distance descending |
| AdminDashboard.DistanceChartFacts | src/components/AdminDashboard.js:133-139 | every vehicle is eligible: exactly min(8, vehicles) bars, none more often than the vehicles give it; a vehicle left out has no more distance than any bar |
| AdminDashboard.AppendLines | src/components/AdminDashboard.js:66-85 | the `forEach` loop appends exactly one newline-terminated line per row, in row order |
| AdminDashboard.ExportCsv | src/components/AdminDashboard.js:49-88 | no report gives no file; otherwise the text is the report's lines, each ended by a newline |
| AdminDashboard.SplitJoinLines | src/components/AdminDashboard.js:58-86 | newline-free lines joined this way read back as the same lines, plus the empty tail after the last newline |
| AdminDashboard.DriverCsvLayout | src/components/AdminDashboard.js:71-78 | driver CSV: the title, a blank line, the header, then exactly one line per driver in report order |
| AdminDashboard.VehicleCsvLayout | src/components/AdminDashboard.js:79-86 | vehicle CSV: the title, a blank line, the header, then one line per vehicle in report order |
| AdminDashboard.SummaryCsvLayout | src/components/AdminDashboard.js:58-70 | summary CSV: the title, a blank line, the metric header and five metric lines, a blank line, the role header, then one line per role |
| AdminDashboard.Breakdown | src/components/AdminDashboard.js:166-171 | the total is the number of users; the three role counts sum to at most the total, exactly the total when every role is valid; no admins exactly when no user is an admin |
| AdminDashboard.BreakdownOfListing | src/components/AdminDashboard.js:166-171 | over the user listing of a valid store the three counts sum exactly to the number of users |
| VehicleDetails.VehicleTrips | src/components/VehicleDetails.js:29 | exactly the trips whose vehicle is the page's id; none when the id does not parse |
| VehicleDetails.AvgMileage | src/components/VehicleDetails.js:63-66 | null exactly when there are no trips; otherwise average × count = the sum of efficiencies, a missing one counting 0 |
| VehicleDetails.AvgMileageMatchesSql | src/components/VehicleDetails.js:63-66 | when every trip has an efficiency, the page's average equals the SQL `AVG(efficiency)` |
| VehicleDetails.VehicleTotalsMatchSql | src/components/VehicleDetails.js:68-69 | the page's distance and fuel totals equal the SQL sums over the vehicle's trips |
| VehicleDetails.DaysSinceService | src/components/VehicleDetails.js:72-74 | a day count exactly when a service date is set |
| VehicleDetails.ServiceBadge | src/components/VehicleDetails.js:144-152 | 'No Service Record' without a date; 'Due for Service' exactly above 90 days; 'Service Due Soon' exactly above 60 up to 90; 'Service Up to Date' at 60 or fewer |
| VehicleDetails.BadgeMonotone | src/components/VehicleDetails.js:144-152 | more days since service never gives a less urgent badge |
| VehicleDetails.Recommendation | src/components/VehicleDetails.js:153-160 | the four recommendation texts follow the same split on the day count |
| VehicleDetails.RecommendationFollowsBadge | src/components/VehicleDetails.js:144-160 | the recommendation is determined by the badge: each badge has its own text |
| VehicleDetails.BadgeWithinReminders | src/components/VehicleDetails.js:144-152 | a vehicle the page flags (due or due soon) is also due in the API's reminders at the default 30-day threshold |
| VehicleDetails.RemindersFlagEarlier | src/components/VehicleDetails.js:144-152 | a vehicle serviced 45 days ago is due in the reminders but up to date on the page |
| VehicleDetails.DaysLabel | src/components/VehicleDetails.js:134-138 | no label without a date; 'Today' exactly when the count is at most 0; otherwise the count followed by " days ago" |
| VehicleDetails.DaysLabelReadsBack | src/components/VehicleDetails.js:134-138 | the digits of a positive label read back as the day count |
| VehicleDetails.MileageLabel | src/components/VehicleDetails.js:100 | 'No trips recorded' exactly when the average is missing or 0; otherwise the rounded figure and " km/L" |
| VehicleDetails.NoTripsLabelWithTrips | src/components/VehicleDetails.js:63-66 | a vehicle whose trips all lack an efficiency shows 'No trips recorded' |
| Http.NatText | src/components/VehicleDetails.js:136 | a day count's decimal text is non-empty digits with no leading zero |
| Http.NatTextValue | src/components/VehicleDetails.js:136 | the decimal text reads back as the number |

## Left out

- Concurrency: each handler is atomic. The source's check-then-insert sequences can race; that race is not modelled.
- The middleware that verifies the JWT and applies `authorizeRoles` is not part of this model. A request is admitted exactly when the caller's role is in the handler's list, and the caller arrives as a `Principal`.
- bcrypt hashing and comparison are parameters (`hash`, `matches`). JWT signing is left out: a successful login returns the identity the token would carry.
- `toFixed(2)` followed by `parseFloat` is an uninterpreted `round: real -> real`. The CSV's `String(x)`, `toFixed(2)` and date text are an uninterpreted `Format`.
- `parseFloat`/`parseInt` of request text is a parameter, or an `Option` already parsed.
- Distances, fuel and efficiency are exact reals. When fuel is 0, JavaScript's `distance / fuel` is `Infinity` or `NaN`; the model stores a missing efficiency instead. Only the trip update (routes/trips.js:135-161) can store fuel 0. `0 / 0` is bound as NULL, so there the model agrees. For a non-zero distance, though, SQLite stores `Infinity` as a real. Then `AVG(efficiency)` is `Infinity` in the stats, top-drivers, vehicle-efficiency, low-efficiency and report queries, and that trip's driver or vehicle sorts first. The model leaves such a trip out of every average instead.
- Dates and timestamps are whole day numbers, and "now" is a parameter. `julianday` fractions and the time-of-day part of the page's day count are not modelled.
- `strftime` is a parameter.
- Dashboard.FuelUsage: `ORDER BY period DESC` is taken as descending by code point. SQLite's collation of the formatted text is not modelled beyond that.
- Ties in `ORDER BY` are broken by table order. SQLite leaves their order unspecified.
- The role rows of `GROUP BY role` are assumed to come in role-name order.
- `Dashboard.ReminderStatus`: a negative threshold makes SQLite's `date()` modifier unparseable, so the status falls to 'OK'. The model states this reading.
- The `ALTER TABLE` that adds `mobile_number` and the index creation only shape the schema, so they are left out. The `getAsync`/`allAsync` promise wrappers are the read functions of the model.
- Foreign keys are declared but not enforced (no `PRAGMA foreign_keys`). Nothing relates a trip or an assignment to an existing row, and no delete cascades.
- A 500 from a failing statement is modelled only where a constraint can fail. Driver faults (disk, locking) are left out.
- AdminDashboard.DriverChart: while a reload is pending, a payload of another report kind is treated as no rows. The page would read missing fields from it, and `split` on a missing name would throw.
- AdminDashboard.VehicleChart: a payload of another report kind is treated as no rows, for the same reason.
- AdminDashboard.ExportCsv: a payload of another report kind is treated as no rows. The file name, the `Blob`, the link and `alert` are UI, and the export result stands in for them.
- CSV fields are not escaped in the source, and the model does the same. The layout lemmas need names and e-mails without newlines.
- The dashboard's `loadDashboardData` fetch and its error path are UI: a failed load leaves no report, which is `None`.
- React rendering, state hooks, routing, the axios client, server wiring and the seeding script are UI or I/O.
- The API flags a vehicle from 30 days since service, while the vehicle page warns only from 60 and 90 days. Both are modelled as written; `RemindersFlagEarlier` shows the difference.
