/**
 * The logic of src/components/AdminDashboard.js: the three chart series
 * derived from the report the page holds, the CSV export of that report,
 * and the user count by role. The page holds the report of the type the
 * selector names (`reportType`), or nothing when loading failed.
 */
module AdminDashboard {
  import opened Wrappers
  import opened Seqs
  import opened Http
  import opened Db
  import opened Dashboard
  import AuthRoutes

  // ----- Chart series -----

  /** `x.avg_efficiency && x.avg_efficiency !== 'N/A'`: a non-null, non-zero average. */
  predicate Charted(avg: Option<real>) {
    avg.Some? && avg.value != 0.0
  }

  /** `name.split(' ')[0]`: the text before the first space. */
  function FirstWord(s: string): (r: string)
    ensures r <= s
    ensures ' ' !in r
    ensures |r| < |s| ==> s[|r|] == ' '
  {
    if s == [] || s[0] == ' ' then []
    else
      var rest := FirstWord(s[1..]);
      assert s == [s[0]] + s[1..];
      [s[0]] + rest
  }

  /** `parseFloat(x.avg_efficiency) || 0`. */
  function ChartEfficiency(avg: Option<real>): real {
    avg.GetOr(0.0)
  }

  /**
   * The report type and report the page holds, when the report is the array
   * of `kind`. Any other payload makes the chart helpers answer `[]`.
   */
  predicate HoldsDriverRows(reportType: string, reports: Option<Report>) {
    reportType == DRIVER_PERFORMANCE && reports.Some? && reports.value.DriverReport?
  }

  predicate HoldsVehicleRows(reportType: string, reports: Option<Report>) {
    reportType == VEHICLE_PERFORMANCE && reports.Some? && reports.value.VehicleReport?
  }

  /** The first `n` of `rows` that `keep` admits, as points, best first by `le`. */
  function Top<T(!new), P(!new)>(rows: seq<T>, keep: T -> bool, point: T -> P, le: (P, P) -> bool, n: nat): seq<P>
    requires TotalPreorder(le)
  {
    Limit(SortBy(Map(Filter(rows, keep), point), le), n)
  }

  /**
   * What a top-`n` series is: as many points as admitted rows up to `n`,
   * ordered by `le`, each the point of an admitted row and no point more
   * often than the admitted rows give it, and every admitted row whose
   * point was cut coming after every point kept.
   */
  lemma TopFacts<T(!new), P(!new)>(rows: seq<T>, keep: T -> bool, point: T -> P, le: (P, P) -> bool, n: nat)
    requires TotalPreorder(le)
    ensures |Top(rows, keep, point, le, n)| == if |Filter(rows, keep)| < n then |Filter(rows, keep)| else n
    ensures Pairwise(Top(rows, keep, point, le, n), le)
    ensures forall y :: y in Top(rows, keep, point, le, n) ==> exists x :: x in rows && keep(x) && y == point(x)
    ensures multiset(Top(rows, keep, point, le, n)) <= multiset(Map(Filter(rows, keep), point))
    ensures forall x :: x in rows && keep(x) && point(x) !in Top(rows, keep, point, le, n) ==>
      forall y :: y in Top(rows, keep, point, le, n) ==> le(y, point(x))
  {
    var kept := Filter(rows, keep);
    var points := Map(kept, point);
    var sorted := SortBy(points, le);
    var top := Limit(sorted, n);
    assert top == Top(rows, keep, point, le, n);
    TopSubMultiset(points, le, n);
    forall i, j | 0 <= i < j < |top| ensures le(top[i], top[j]) {
      assert top[i] == sorted[i] && top[j] == sorted[j];
    }
    forall y | y in top ensures exists x :: x in rows && keep(x) && y == point(x) {
      assert y in sorted;
      var x :| x in kept && y == point(x);
    }
    forall x | x in rows && keep(x) && point(x) !in top ensures forall y :: y in top ==> le(y, point(x)) {
      assert point(x) in points;
      TopComesFirst(points, le, n, point(x));
    }
  }

  /** A bar of the driver efficiency chart. */
  datatype DriverPoint = DriverPoint(name: string, efficiency: real, trips: nat)

  predicate ChartedDriver(d: DriverPerformance) { Charted(d.avgEfficiency) }

  function DriverPointOf(d: DriverPerformance): DriverPoint {
    DriverPoint(FirstWord(d.name), ChartEfficiency(d.avgEfficiency), d.tripCount)
  }

  /** `sort((a, b) => b.efficiency - a.efficiency)`: the most efficient first. */
  predicate MoreEfficientDriver(a: DriverPoint, b: DriverPoint) { a.efficiency >= b.efficiency }

  lemma MoreEfficientDriverOrder()
    ensures TotalPreorder(MoreEfficientDriver)
  {
  }

  /**
   * `getDriverEfficiencyData`: the ten most efficient drivers with a
   * non-zero average, best first, each named by the first word of the name;
   * nothing unless the page holds the driver-performance rows.
   */
  function DriverChart(reportType: string, reports: Option<Report>): (r: seq<DriverPoint>)
    ensures !HoldsDriverRows(reportType, reports) ==> r == []
    ensures |r| <= 10
    ensures forall i, j :: 0 <= i < j < |r| ==> r[i].efficiency >= r[j].efficiency
  {
    if HoldsDriverRows(reportType, reports) then
      MoreEfficientDriverOrder();
      TopFacts(reports.value.drivers, ChartedDriver, DriverPointOf, MoreEfficientDriver, 10);
      var r := Top(reports.value.drivers, ChartedDriver, DriverPointOf, MoreEfficientDriver, 10);
      assert forall i, j :: 0 <= i < j < |r| ==> MoreEfficientDriver(r[i], r[j]);
      r
    else []
  }

  /**
   * Over the driver-performance rows: ten bars when at least ten drivers
   * have a non-zero average, otherwise one per such driver; each bar is such
   * a driver, named by the first word of the name, and no bar more often
   * than such drivers give it; and a driver left out averages no more than
   * any driver shown.
   */
  lemma DriverChartFacts(rows: seq<DriverPerformance>)
    ensures var r := DriverChart(DRIVER_PERFORMANCE, Some(DriverReport(rows)));
      |r| == if |Filter(rows, ChartedDriver)| < 10 then |Filter(rows, ChartedDriver)| else 10
    ensures forall y :: y in DriverChart(DRIVER_PERFORMANCE, Some(DriverReport(rows))) ==>
      exists d :: (d in rows && Charted(d.avgEfficiency) && y.name == FirstWord(d.name) &&
                   y.efficiency == d.avgEfficiency.value && y.trips == d.tripCount)
    ensures multiset(DriverChart(DRIVER_PERFORMANCE, Some(DriverReport(rows)))) <= multiset(Map(Filter(rows, ChartedDriver), DriverPointOf))
    ensures forall d :: (d in rows && Charted(d.avgEfficiency) && DriverPointOf(d) !in DriverChart(DRIVER_PERFORMANCE, Some(DriverReport(rows)))) ==>
      forall y :: y in DriverChart(DRIVER_PERFORMANCE, Some(DriverReport(rows))) ==> y.efficiency >= d.avgEfficiency.value
  {
    DriverChartIsTop(rows);
    var r := Top(rows, ChartedDriver, DriverPointOf, MoreEfficientDriver, 10);
    TopFacts(rows, ChartedDriver, DriverPointOf, MoreEfficientDriver, 10);
    forall y | y in r ensures exists d :: (d in rows && Charted(d.avgEfficiency) && y.name == FirstWord(d.name) &&
                                           y.efficiency == d.avgEfficiency.value && y.trips == d.tripCount)
    {
      var d :| d in rows && ChartedDriver(d) && y == DriverPointOf(d);
    }
    forall d | d in rows && Charted(d.avgEfficiency) && DriverPointOf(d) !in r
      ensures forall y :: y in r ==> y.efficiency >= d.avgEfficiency.value
    {
      assert ChartedDriver(d);
    }
  }

  lemma DriverChartIsTop(rows: seq<DriverPerformance>)
    ensures DriverChart(DRIVER_PERFORMANCE, Some(DriverReport(rows))) ==
            Top(rows, ChartedDriver, DriverPointOf, MoreEfficientDriver, 10)
    ensures TotalPreorder(MoreEfficientDriver)
  {
    MoreEfficientDriverOrder();
  }

  /** A bar of the vehicle performance chart. */
  datatype VehiclePoint = VehiclePoint(name: string, efficiency: real, distance: real, fuel: real)

  predicate ChartedVehicle(v: VehiclePerformance) { Charted(v.avgEfficiency) }

  /** `total_distance || 0` and `total_fuel || 0`: a vehicle without trips charts zero. */
  function VehiclePointOf(v: VehiclePerformance): VehiclePoint {
    VehiclePoint(v.number, ChartEfficiency(v.avgEfficiency), v.totalDistance.GetOr(0.0), v.totalFuel.GetOr(0.0))
  }

  predicate MoreEfficientVehicle(a: VehiclePoint, b: VehiclePoint) { a.efficiency >= b.efficiency }

  lemma MoreEfficientVehicleOrder()
    ensures TotalPreorder(MoreEfficientVehicle)
  {
  }

  /** `getVehiclePerformanceData`: the ten most efficient vehicles with a non-zero average, best first. */
  function VehicleChart(reportType: string, reports: Option<Report>): (r: seq<VehiclePoint>)
    ensures !HoldsVehicleRows(reportType, reports) ==> r == []
    ensures |r| <= 10
    ensures forall i, j :: 0 <= i < j < |r| ==> r[i].efficiency >= r[j].efficiency
  {
    if HoldsVehicleRows(reportType, reports) then
      MoreEfficientVehicleOrder();
      TopFacts(reports.value.vehicles, ChartedVehicle, VehiclePointOf, MoreEfficientVehicle, 10);
      var r := Top(reports.value.vehicles, ChartedVehicle, VehiclePointOf, MoreEfficientVehicle, 10);
      assert forall i, j :: 0 <= i < j < |r| ==> MoreEfficientVehicle(r[i], r[j]);
      r
    else []
  }

  /**
   * The same rule over the vehicle-performance rows, each bar named by its
   * vehicle number and carrying its distance and fuel, zero when NULL.
   */
  lemma VehicleChartFacts(rows: seq<VehiclePerformance>)
    ensures var r := VehicleChart(VEHICLE_PERFORMANCE, Some(VehicleReport(rows)));
      |r| == if |Filter(rows, ChartedVehicle)| < 10 then |Filter(rows, ChartedVehicle)| else 10
    ensures forall y :: y in VehicleChart(VEHICLE_PERFORMANCE, Some(VehicleReport(rows))) ==>
      exists v :: (v in rows && Charted(v.avgEfficiency) && y.name == v.number &&
                   y.efficiency == v.avgEfficiency.value && y.distance == v.totalDistance.GetOr(0.0) &&
                   y.fuel == v.totalFuel.GetOr(0.0))
    ensures multiset(VehicleChart(VEHICLE_PERFORMANCE, Some(VehicleReport(rows)))) <= multiset(Map(Filter(rows, ChartedVehicle), VehiclePointOf))
    ensures forall v :: (v in rows && Charted(v.avgEfficiency) && VehiclePointOf(v) !in VehicleChart(VEHICLE_PERFORMANCE, Some(VehicleReport(rows)))) ==>
      forall y :: y in VehicleChart(VEHICLE_PERFORMANCE, Some(VehicleReport(rows))) ==> y.efficiency >= v.avgEfficiency.value
  {
    VehicleChartIsTop(rows);
    var r := Top(rows, ChartedVehicle, VehiclePointOf, MoreEfficientVehicle, 10);
    TopFacts(rows, ChartedVehicle, VehiclePointOf, MoreEfficientVehicle, 10);
    forall y | y in r ensures exists v :: (v in rows && Charted(v.avgEfficiency) && y.name == v.number &&
                                           y.efficiency == v.avgEfficiency.value && y.distance == v.totalDistance.GetOr(0.0) &&
                                           y.fuel == v.totalFuel.GetOr(0.0))
    {
      var v :| v in rows && ChartedVehicle(v) && y == VehiclePointOf(v);
    }
    forall v | v in rows && Charted(v.avgEfficiency) && VehiclePointOf(v) !in r
      ensures forall y :: y in r ==> y.efficiency >= v.avgEfficiency.value
    {
      assert ChartedVehicle(v);
    }
  }

  lemma VehicleChartIsTop(rows: seq<VehiclePerformance>)
    ensures VehicleChart(VEHICLE_PERFORMANCE, Some(VehicleReport(rows))) ==
            Top(rows, ChartedVehicle, VehiclePointOf, MoreEfficientVehicle, 10)
    ensures TotalPreorder(MoreEfficientVehicle)
  {
    MoreEfficientVehicleOrder();
  }

  /** A bar of the vehicle distance chart. */
  datatype DistancePoint = DistancePoint(name: string, distance: real)

  predicate EveryVehicle(v: VehiclePerformance) { true }

  function DistancePointOf(v: VehiclePerformance): DistancePoint {
    DistancePoint(v.number, v.totalDistance.GetOr(0.0))
  }

  predicate FartherVehicle(a: DistancePoint, b: DistancePoint) { a.distance >= b.distance }

  lemma FartherVehicleOrder()
    ensures TotalPreorder(FartherVehicle)
  {
  }

  /** `getVehicleDistanceData`: the eight vehicles that went farthest, every vehicle eligible. */
  function DistanceChart(reportType: string, reports: Option<Report>): (r: seq<DistancePoint>)
    ensures !HoldsVehicleRows(reportType, reports) ==> r == []
    ensures |r| <= 8
    ensures forall i, j :: 0 <= i < j < |r| ==> r[i].distance >= r[j].distance
  {
    if HoldsVehicleRows(reportType, reports) then
      FartherVehicleOrder();
      TopFacts(reports.value.vehicles, EveryVehicle, DistancePointOf, FartherVehicle, 8);
      var r := Top(reports.value.vehicles, EveryVehicle, DistancePointOf, FartherVehicle, 8);
      assert forall i, j :: 0 <= i < j < |r| ==> FartherVehicle(r[i], r[j]);
      r
    else []
  }

  /**
   * Eight bars, or one per vehicle when there are fewer, vehicles without
   * trips at distance 0, no bar more often than the vehicles give it; a
   * vehicle left out went no farther than any shown.
   */
  lemma DistanceChartFacts(rows: seq<VehiclePerformance>)
    ensures |DistanceChart(VEHICLE_PERFORMANCE, Some(VehicleReport(rows)))| == if |rows| < 8 then |rows| else 8
    ensures forall y :: y in DistanceChart(VEHICLE_PERFORMANCE, Some(VehicleReport(rows))) ==>
      exists v :: v in rows && y.name == v.number && y.distance == v.totalDistance.GetOr(0.0)
    ensures multiset(DistanceChart(VEHICLE_PERFORMANCE, Some(VehicleReport(rows)))) <= multiset(Map(rows, DistancePointOf))
    ensures forall v :: (v in rows && DistancePointOf(v) !in DistanceChart(VEHICLE_PERFORMANCE, Some(VehicleReport(rows)))) ==>
      forall y :: y in DistanceChart(VEHICLE_PERFORMANCE, Some(VehicleReport(rows))) ==> y.distance >= v.totalDistance.GetOr(0.0)
  {
    FartherVehicleOrder();
    TopFacts(rows, EveryVehicle, DistancePointOf, FartherVehicle, 8);
    FilterAll(rows, EveryVehicle);
    var r := DistanceChart(VEHICLE_PERFORMANCE, Some(VehicleReport(rows)));
    assert r == Top(rows, EveryVehicle, DistancePointOf, FartherVehicle, 8);
    forall y | y in r ensures exists v :: v in rows && y.name == v.number && y.distance == v.totalDistance.GetOr(0.0) {
      var v :| v in rows && EveryVehicle(v) && y == DistancePointOf(v);
    }
  }

  // ----- CSV export -----

  /** Text without a line break. */
  predicate OneLine(s: string) { '\n' !in s }

  type Line = s: string | OneLine(s) witness ""

  /**
   * How numbers and dates become text: `String(x)`, `x.toFixed(2)`, and a
   * stored service date; none of them writes a line break.
   */
  datatype Format = Format(show: real -> Line, fixed2: real -> Line, date: int -> Line)

  /** `s || fallback` for a string. */
  function Or(s: string, fallback: string): string {
    if s != "" then s else fallback
  }

  /** `x?.toFixed(2) || 0`. */
  function FixedOrZero(x: Option<real>, fmt: Format): string {
    if x.Some? then Or(fmt.fixed2(x.value), "0") else "0"
  }

  /** `x || fallback` for a number written with `String`. */
  function ShowOr(x: Option<real>, fallback: string, fmt: Format): string {
    if x.Some? && x.value != 0.0 then fmt.show(x.value) else fallback
  }

  /** The fields of one CSV line, separated by commas. */
  function CsvRecord(fields: seq<string>): string {
    if fields == [] then "" else if |fields| == 1 then fields[0] else fields[0] + "," + CsvRecord(fields[1..])
  }

  /** `"..."` around a field. */
  function Quoted(s: string): string {
    "\"" + s + "\""
  }

  const SUMMARY_TITLE: Line := "Summary Report"
  const METRIC_COLUMNS: seq<Line> := ["Metric", "Value"]
  const METRIC_HEADER := CsvRecord(METRIC_COLUMNS)
  const TOTAL_TRIPS: Line := "Total Trips"
  const TOTAL_DISTANCE: Line := "Total Distance (km)"
  const TOTAL_FUEL: Line := "Total Fuel (L)"
  const AVERAGE_EFFICIENCY: Line := "Average Efficiency (km/L)"
  const TOTAL_VEHICLES: Line := "Total Vehicles"
  const ROLES_TITLE: Line := "Users by Role"
  const ROLE_COLUMNS: seq<Line> := ["Role", "Count"]
  const ROLE_HEADER := CsvRecord(ROLE_COLUMNS)
  const DRIVER_TITLE: Line := "Driver Performance Report"
  const DRIVER_NAME: Line := "Driver Name"
  const EMAIL: Line := "Email"
  const TRIPS: Line := "Trips"
  const AVG_EFFICIENCY: Line := "Avg Efficiency (km/L)"
  const AVG_SPEED: Line := "Avg Speed (km/h)"
  const DRIVER_COLUMNS: seq<Line> := [DRIVER_NAME, EMAIL, TRIPS, TOTAL_DISTANCE, TOTAL_FUEL, AVG_EFFICIENCY, AVG_SPEED]
  const DRIVER_HEADER := CsvRecord(DRIVER_COLUMNS)
  const VEHICLE_TITLE: Line := "Vehicle Performance Report"
  const VEHICLE_NUMBER: Line := "Vehicle Number"
  const MODEL: Line := "Model"
  const FUEL_TYPE: Line := "Fuel Type"
  const LAST_SERVICE: Line := "Last Service"
  const VEHICLE_COLUMNS: seq<Line> := [VEHICLE_NUMBER, MODEL, FUEL_TYPE, TRIPS, TOTAL_DISTANCE, TOTAL_FUEL, AVG_EFFICIENCY, LAST_SERVICE]
  const VEHICLE_HEADER := CsvRecord(VEHICLE_COLUMNS)
  /** What a template literal writes for a missing property. */
  const UNDEFINED: Line := "undefined"

  /**
   * The lines before the role counts. The page reads the summary's
   * properties off whatever report it holds; on any other payload the
   * counts read `undefined` and the `||` defaults apply.
   */
  function SummaryHead(rep: Report, fmt: Format): seq<string> {
    match rep
    case SummaryReport(s) =>
      [SUMMARY_TITLE, "", METRIC_HEADER,
       CsvRecord([TOTAL_TRIPS, NatText(s.trips)]),
       CsvRecord([TOTAL_DISTANCE, FixedOrZero(Some(s.totalDistance), fmt)]),
       CsvRecord([TOTAL_FUEL, FixedOrZero(Some(s.totalFuel), fmt)]),
       CsvRecord([AVERAGE_EFFICIENCY, ShowOr(Some(s.avgEfficiency), "0", fmt)]),
       CsvRecord([TOTAL_VEHICLES, NatText(s.totalVehicles)]), "",
       ROLES_TITLE, ROLE_HEADER]
    case _ =>
      [SUMMARY_TITLE, "", METRIC_HEADER,
       CsvRecord([TOTAL_TRIPS, UNDEFINED]),
       CsvRecord([TOTAL_DISTANCE, "0"]),
       CsvRecord([TOTAL_FUEL, "0"]),
       CsvRecord([AVERAGE_EFFICIENCY, "0"]),
       CsvRecord([TOTAL_VEHICLES, UNDEFINED]), "",
       ROLES_TITLE, ROLE_HEADER]
  }

  function RoleLine(u: RoleCount): string {
    CsvRecord([u.role, NatText(u.count)])
  }

  function DriverLine(fmt: Format): DriverPerformance -> string {
    (d: DriverPerformance) =>
      CsvRecord([Quoted(d.name), Quoted(d.email), NatText(d.tripCount),
                 FixedOrZero(d.totalDistance, fmt), FixedOrZero(d.totalFuel, fmt),
                 Quoted(ShowOr(d.avgEfficiency, "N/A", fmt)), Quoted(ShowOr(d.avgSpeed, "N/A", fmt))])
  }

  function VehicleLine(fmt: Format): VehiclePerformance -> string {
    (v: VehiclePerformance) =>
      CsvRecord([Quoted(v.number), Quoted(v.model), Quoted(v.fuelType), NatText(v.tripCount),
                 FixedOrZero(v.totalDistance, fmt), FixedOrZero(v.totalFuel, fmt),
                 Quoted(ShowOr(v.avgEfficiency, "N/A", fmt)),
                 Quoted(if v.lastService.Some? then Or(fmt.date(v.lastService.value), "Never") else "Never")])
  }

  /** The lines of the exported file, by report type; no lines for any other type. */
  function CsvLines(reportType: string, rep: Report, fmt: Format): seq<string> {
    if reportType == SUMMARY then
      SummaryHead(rep, fmt) + (if rep.SummaryReport? then Map(rep.summary.users, RoleLine) else [])
    else if reportType == DRIVER_PERFORMANCE then
      [DRIVER_TITLE, "", DRIVER_HEADER] + (if rep.DriverReport? then Map(rep.drivers, DriverLine(fmt)) else [])
    else if reportType == VEHICLE_PERFORMANCE then
      [VEHICLE_TITLE, "", VEHICLE_HEADER] + (if rep.VehicleReport? then Map(rep.vehicles, VehicleLine(fmt)) else [])
    else []
  }

  /** Each line followed by `\n`. */
  function JoinLines(ls: seq<string>): string {
    if ls == [] then "" else ls[0] + "\n" + JoinLines(ls[1..])
  }

  lemma {:induction false} JoinLinesAppend(a: seq<string>, b: seq<string>)
    ensures JoinLines(a + b) == JoinLines(a) + JoinLines(b)
  {
    if a == [] {
      assert a + b == b;
    } else {
      assert (a + b)[0] == a[0] && (a + b)[1..] == a[1..] + b;
      JoinLinesAppend(a[1..], b);
    }
  }

  /** One more row adds its line and a newline at the end. */
  lemma JoinLinesStep<T>(rows: seq<T>, i: int, line: T -> string)
    requires 0 <= i < |rows|
    ensures JoinLines(Map(rows[..i + 1], line)) == JoinLines(Map(rows[..i], line)) + (line(rows[i]) + "\n")
  {
    var l := line(rows[i]);
    assert rows[..i + 1] == rows[..i] + [rows[i]];
    MapAppend(rows[..i], [rows[i]], line);
    assert Map([rows[i]], line) == [l];
    JoinLinesAppend(Map(rows[..i], line), [l]);
    assert JoinLines([l]) == l + "\n";
  }

  /** `rows.forEach(x => { csvContent += line(x) + '\n'; })`. */
  method AppendLines<T>(text: string, rows: seq<T>, line: T -> string) returns (r: string)
    ensures r == text + JoinLines(Map(rows, line))
  {
    r := text;
    var i := 0;
    while i < |rows|
      invariant 0 <= i <= |rows|
      invariant r == text + JoinLines(Map(rows[..i], line))
    {
      JoinLinesStep(rows, i, line);
      r := r + (line(rows[i]) + "\n");
      i := i + 1;
    }
    assert rows[..|rows|] == rows;
  }

  /**
   * `exportReportToCSV`: nothing without report data (the page alerts
   * instead), otherwise the text of the file, built line by line.
   */
  method ExportCsv(reportType: string, reports: Option<Report>, fmt: Format) returns (csv: Option<string>)
    ensures reports.None? <==> csv.None?
    ensures reports.Some? ==> csv == Some(JoinLines(CsvLines(reportType, reports.value, fmt)))
  {
    if reports.None? {
      return None;
    }
    var rep := reports.value;
    var text := "";
    if reportType == SUMMARY {
      var head := SummaryHead(rep, fmt);
      text := JoinLines(head);
      if rep.SummaryReport? {
        text := AppendLines(text, rep.summary.users, RoleLine);
        JoinLinesAppend(head, Map(rep.summary.users, RoleLine));
      } else {
        assert head + [] == head;
      }
    } else if reportType == DRIVER_PERFORMANCE {
      var head := [DRIVER_TITLE, "", DRIVER_HEADER];
      text := JoinLines(head);
      if rep.DriverReport? {
        text := AppendLines(text, rep.drivers, DriverLine(fmt));
        JoinLinesAppend(head, Map(rep.drivers, DriverLine(fmt)));
      } else {
        assert head + [] == head;
      }
    } else if reportType == VEHICLE_PERFORMANCE {
      var head := [VEHICLE_TITLE, "", VEHICLE_HEADER];
      text := JoinLines(head);
      if rep.VehicleReport? {
        text := AppendLines(text, rep.vehicles, VehicleLine(fmt));
        JoinLinesAppend(head, Map(rep.vehicles, VehicleLine(fmt)));
      } else {
        assert head + [] == head;
      }
    }
    return Some(text);
  }

  // ----- Reading the file back -----

  /** `text.split('\n')`. */
  function SplitLines(s: string): (r: seq<string>)
    ensures |r| >= 1
  {
    if s == [] then [""]
    else
      var rest := SplitLines(s[1..]);
      if s[0] == '\n' then [""] + rest else [[s[0]] + rest[0]] + rest[1..]
  }

  lemma {:induction false} SplitAfterLine(l: string, rest: string)
    requires OneLine(l)
    ensures SplitLines(l + "\n" + rest) == [l] + SplitLines(rest)
  {
    if l == [] {
      assert l + "\n" + rest == "\n" + rest;
      assert ("\n" + rest)[1..] == rest;
    } else {
      var s := l + "\n" + rest;
      assert s[0] == l[0] && s[1..] == l[1..] + "\n" + rest;
      SplitAfterLine(l[1..], rest);
      assert [l[0]] + l[1..] == l;
    }
  }

  /** Lines without a newline of their own read back as themselves, then the empty text after the last `\n`. */
  lemma {:induction false} SplitJoinLines(ls: seq<string>)
    requires forall l :: l in ls ==> OneLine(l)
    ensures SplitLines(JoinLines(ls)) == ls + [""]
  {
    if ls != [] {
      assert ls[0] in ls;
      SplitJoinLines(ls[1..]);
      SplitAfterLine(ls[0], JoinLines(ls[1..]));
      assert ls == [ls[0]] + ls[1..];
    }
  }

  lemma NatTextOneLine(n: nat)
    ensures OneLine(NatText(n))
  {
    forall c | c in NatText(n) ensures c != '\n' {
      assert '0' <= c <= '9';
    }
  }

  /** Joining one-line fields with commas gives one line. */
  lemma {:induction false} RecordOneLine(fields: seq<string>)
    requires forall f :: f in fields ==> OneLine(f)
    ensures OneLine(CsvRecord(fields))
  {
    if |fields| > 1 {
      assert fields[0] in fields;
      assert forall f :: f in fields[1..] ==> f in fields;
      RecordOneLine(fields[1..]);
    } else if |fields| == 1 {
      assert fields[0] in fields;
    }
  }

  lemma QuotedOneLine(s: string)
    requires OneLine(s)
    ensures OneLine(Quoted(s))
  {
  }

  lemma FieldsOneLine(x: Option<real>, fallback: string, fmt: Format)
    requires OneLine(fallback)
    ensures OneLine(FixedOrZero(x, fmt))
    ensures OneLine(ShowOr(x, fallback, fmt))
    ensures OneLine(Quoted(ShowOr(x, fallback, fmt)))
  {
  }

  /** The titles and headers of the three files are single lines. */
  lemma HeadersOneLine()
    ensures OneLine(SUMMARY_TITLE) && OneLine(METRIC_HEADER) && OneLine(ROLES_TITLE) && OneLine(ROLE_HEADER)
    ensures OneLine(DRIVER_TITLE) && OneLine(DRIVER_HEADER) && OneLine(VEHICLE_TITLE) && OneLine(VEHICLE_HEADER)
  {
    RecordOneLine(METRIC_COLUMNS);
    RecordOneLine(ROLE_COLUMNS);
    RecordOneLine(DRIVER_COLUMNS);
    RecordOneLine(VEHICLE_COLUMNS);
  }

  lemma DriverLineOneLine(d: DriverPerformance, fmt: Format)
    requires OneLine(d.name) && OneLine(d.email)
    ensures OneLine(DriverLine(fmt)(d))
  {
    NatTextOneLine(d.tripCount);
    QuotedOneLine(d.name);
    QuotedOneLine(d.email);
    FieldsOneLine(d.totalDistance, "N/A", fmt);
    FieldsOneLine(d.totalFuel, "N/A", fmt);
    FieldsOneLine(d.avgEfficiency, "N/A", fmt);
    FieldsOneLine(d.avgSpeed, "N/A", fmt);
    RecordOneLine([Quoted(d.name), Quoted(d.email), NatText(d.tripCount),
                   FixedOrZero(d.totalDistance, fmt), FixedOrZero(d.totalFuel, fmt),
                   Quoted(ShowOr(d.avgEfficiency, "N/A", fmt)), Quoted(ShowOr(d.avgSpeed, "N/A", fmt))]);
  }

  lemma VehicleLineOneLine(v: VehiclePerformance, fmt: Format)
    requires OneLine(v.number) && OneLine(v.model) && OneLine(v.fuelType)
    ensures OneLine(VehicleLine(fmt)(v))
  {
    var last := if v.lastService.Some? then Or(fmt.date(v.lastService.value), "Never") else "Never";
    NatTextOneLine(v.tripCount);
    QuotedOneLine(v.number);
    QuotedOneLine(v.model);
    QuotedOneLine(v.fuelType);
    FieldsOneLine(v.totalDistance, "N/A", fmt);
    FieldsOneLine(v.totalFuel, "N/A", fmt);
    FieldsOneLine(v.avgEfficiency, "N/A", fmt);
    QuotedOneLine(last);
    RecordOneLine([Quoted(v.number), Quoted(v.model), Quoted(v.fuelType), NatText(v.tripCount),
                   FixedOrZero(v.totalDistance, fmt), FixedOrZero(v.totalFuel, fmt),
                   Quoted(ShowOr(v.avgEfficiency, "N/A", fmt)), Quoted(last)]);
  }

  /**
   * A driver-performance file reads back as its title, a blank line, the
   * header, then exactly one line per driver in report order, provided no
   * name or email holds a line break.
   */
  lemma DriverCsvLayout(rows: seq<DriverPerformance>, fmt: Format)
    requires forall d :: d in rows ==> OneLine(d.name) && OneLine(d.email)
    ensures SplitLines(JoinLines(CsvLines(DRIVER_PERFORMANCE, DriverReport(rows), fmt)))
            == [DRIVER_TITLE, "", DRIVER_HEADER] + Map(rows, DriverLine(fmt)) + [""]
  {
    var ls := CsvLines(DRIVER_PERFORMANCE, DriverReport(rows), fmt);
    HeadersOneLine();
    forall l | l in ls ensures OneLine(l) {
      if l in Map(rows, DriverLine(fmt)) {
        var d :| d in rows && l == DriverLine(fmt)(d);
        DriverLineOneLine(d, fmt);
      }
    }
    SplitJoinLines(ls);
  }

  /** The same layout for the vehicle-performance file, one line per vehicle. */
  lemma VehicleCsvLayout(rows: seq<VehiclePerformance>, fmt: Format)
    requires forall v :: v in rows ==> OneLine(v.number) && OneLine(v.model) && OneLine(v.fuelType)
    ensures SplitLines(JoinLines(CsvLines(VEHICLE_PERFORMANCE, VehicleReport(rows), fmt)))
            == [VEHICLE_TITLE, "", VEHICLE_HEADER] + Map(rows, VehicleLine(fmt)) + [""]
  {
    var ls := CsvLines(VEHICLE_PERFORMANCE, VehicleReport(rows), fmt);
    HeadersOneLine();
    forall l | l in ls ensures OneLine(l) {
      if l in Map(rows, VehicleLine(fmt)) {
        var v :| v in rows && l == VehicleLine(fmt)(v);
        VehicleLineOneLine(v, fmt);
      }
    }
    SplitJoinLines(ls);
  }

  /** The eleven head lines are single lines once the five metric lines are. */
  lemma HeadLinesOneLine(trips: string, distance: string, fuel: string, efficiency: string, vehicles: string)
    requires OneLine(trips) && OneLine(distance) && OneLine(fuel) && OneLine(efficiency) && OneLine(vehicles)
    ensures var head := [SUMMARY_TITLE, "", METRIC_HEADER, trips, distance, fuel, efficiency, vehicles, "",
                         ROLES_TITLE, ROLE_HEADER];
            forall l :: l in head ==> OneLine(l)
  {
    HeadersOneLine();
  }

  lemma SummaryHeadOneLine(s: Summary, fmt: Format)
    ensures forall l :: l in SummaryHead(SummaryReport(s), fmt) ==> OneLine(l)
  {
    NatTextOneLine(s.trips);
    NatTextOneLine(s.totalVehicles);
    FieldsOneLine(Some(s.totalDistance), "0", fmt);
    FieldsOneLine(Some(s.totalFuel), "0", fmt);
    FieldsOneLine(Some(s.avgEfficiency), "0", fmt);
    var trips := CsvRecord([TOTAL_TRIPS, NatText(s.trips)]);
    var distance := CsvRecord([TOTAL_DISTANCE, FixedOrZero(Some(s.totalDistance), fmt)]);
    var fuel := CsvRecord([TOTAL_FUEL, FixedOrZero(Some(s.totalFuel), fmt)]);
    var efficiency := CsvRecord([AVERAGE_EFFICIENCY, ShowOr(Some(s.avgEfficiency), "0", fmt)]);
    var vehicles := CsvRecord([TOTAL_VEHICLES, NatText(s.totalVehicles)]);
    RecordOneLine([TOTAL_TRIPS, NatText(s.trips)]);
    RecordOneLine([TOTAL_DISTANCE, FixedOrZero(Some(s.totalDistance), fmt)]);
    RecordOneLine([TOTAL_FUEL, FixedOrZero(Some(s.totalFuel), fmt)]);
    RecordOneLine([AVERAGE_EFFICIENCY, ShowOr(Some(s.avgEfficiency), "0", fmt)]);
    RecordOneLine([TOTAL_VEHICLES, NatText(s.totalVehicles)]);
    HeadLinesOneLine(trips, distance, fuel, efficiency, vehicles);
    assert SummaryHead(SummaryReport(s), fmt) ==
      [SUMMARY_TITLE, "", METRIC_HEADER, trips, distance, fuel, efficiency, vehicles, "", ROLES_TITLE, ROLE_HEADER];
  }

  /** The summary file: eleven fixed lines, then one `role,count` line per role. */
  lemma SummaryCsvLayout(s: Summary, fmt: Format)
    requires forall u :: u in s.users ==> OneLine(u.role)
    ensures SplitLines(JoinLines(CsvLines(SUMMARY, SummaryReport(s), fmt)))
            == SummaryHead(SummaryReport(s), fmt) + Map(s.users, RoleLine) + [""]
    ensures |SummaryHead(SummaryReport(s), fmt)| == 11
  {
    var ls := CsvLines(SUMMARY, SummaryReport(s), fmt);
    SummaryHeadOneLine(s, fmt);
    forall l | l in ls ensures OneLine(l) {
      if l in Map(s.users, RoleLine) {
        var u :| u in s.users && l == RoleLine(u);
        NatTextOneLine(u.count);
        RecordOneLine([u.role, NatText(u.count)]);
      }
    }
    SplitJoinLines(ls);
  }

  // ----- Users by role -----

  /** The "Total Users" card: the user count and the admins, managers and drivers among them. */
  datatype RoleBreakdown = RoleBreakdown(total: nat, admins: nat, managers: nat, drivers: nat)

  function HasRole(role: string): AuthRoutes.Profile -> bool {
    (u: AuthRoutes.Profile) => u.role == role
  }

  lemma {:induction false} RoleFiltersSum(us: seq<AuthRoutes.Profile>)
    ensures |Filter(us, HasRole(ADMIN))| + |Filter(us, HasRole(MANAGER))| + |Filter(us, HasRole(DRIVER))| <= |us|
    ensures (forall u :: u in us ==> IsRole(u.role)) ==>
      |Filter(us, HasRole(ADMIN))| + |Filter(us, HasRole(MANAGER))| + |Filter(us, HasRole(DRIVER))| == |us|
  {
    if us != [] {
      var tail := us[1..];
      assert forall u :: u in tail ==> u in us;
      RoleFiltersSum(tail);
      FilterLengthStep(us, HasRole(ADMIN));
      FilterLengthStep(us, HasRole(MANAGER));
      FilterLengthStep(us, HasRole(DRIVER));
      OneRoleEach(us[0].role);
    }
  }

  /** A user counts under at most one of the three roles, and under exactly one when the CHECK admits the role. */
  lemma OneRoleEach(role: string)
    ensures (if role == ADMIN then 1 else 0) + (if role == MANAGER then 1 else 0) + (if role == DRIVER then 1 else 0)
            == if IsRole(role) then 1 else 0
  {
    assert ADMIN[0] != MANAGER[0] && ADMIN[0] != DRIVER[0] && MANAGER[0] != DRIVER[0];
  }

  /** `users.length` and `users.filter(u => u.role === r).length` for the three roles. */
  function Breakdown(us: seq<AuthRoutes.Profile>): (r: RoleBreakdown)
    ensures r.total == |us|
    ensures r.admins + r.managers + r.drivers <= r.total
    ensures (forall u :: u in us ==> IsRole(u.role)) ==> r.admins + r.managers + r.drivers == r.total
    ensures r.admins == 0 <==> forall u :: u in us ==> u.role != ADMIN
  {
    RoleFiltersSum(us);
    FilterEmpty(us, HasRole(ADMIN));
    RoleBreakdown(|us|, |Filter(us, HasRole(ADMIN))|, |Filter(us, HasRole(MANAGER))|, |Filter(us, HasRole(DRIVER))|)
  }

  /** Over the user list an admin gets from the store, whose CHECK admits only the three roles, the counts add up exactly. */
  lemma BreakdownOfListing(t: Tables, next: int, p: Principal)
    requires UsersValid(t.users, next) && p.role == ADMIN
    ensures AuthRoutes.ListUsers(t, p).Success?
    ensures var b := Breakdown(AuthRoutes.ListUsers(t, p).body); b.admins + b.managers + b.drivers == b.total == |t.users|
  {
    var body := AuthRoutes.ListUsers(t, p).body;
    forall x | x in body ensures IsRole(x.role) {
      var u :| u in t.users && AuthRoutes.ProfileOf(u) == x;
    }
  }
}
