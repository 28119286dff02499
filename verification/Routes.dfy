/** Route versions: numbered per route, never edited in place, the newest one active. */
module Routes {
  import opened Wrappers
  import O = Ordering

  type AppId = nat
  type RouteId = nat
  type VersionId = nat

  datatype Error = NotFound | BadRequest

  datatype LocationPoint = LocationPoint(address: string, placeId: Option<string>, lat: real, lng: real)

  datatype CreateVersionDto = CreateVersionDto(
    start: LocationPoint,
    destination: LocationPoint,
    points: Option<seq<LocationPoint>>,
    changeReason: Option<string>)

  datatype PointType = Start | Waypoint | Destination

  datatype RoutePoint = RoutePoint(
    sequenceNo: nat,
    pointType: PointType,
    address: Option<string>,
    placeId: Option<string>,
    lat: real,
    lng: real)

  datatype Coordinate = Coordinate(lng: real, lat: real)

  datatype Measure = Measure(path: seq<Coordinate>, distance: real, duration: int)

  datatype Version = Version(
    route: RouteId,
    number: nat,
    startAddress: string,
    destinationAddress: string,
    changeReason: Option<string>,
    measure: Option<Measure>)

  /** Rows in insertion order; a row's position is its id. active holds every application's active_route_id. */
  datatype Tables = Tables(
    routes: seq<AppId>,
    versions: seq<Version>,
    points: seq<seq<RoutePoint>>,
    active: map<AppId, Option<VersionId>>)

  // ---- creating a version ----

  function AllPoints(dto: CreateVersionDto): seq<LocationPoint> {
    [dto.start] + (if dto.points.Some? then dto.points.value else []) + [dto.destination]
  }

  function TypeAt(i: nat, count: nat): PointType {
    if i == 0 then Start else if i == count - 1 then Destination else Waypoint
  }

  function PointRow(p: LocationPoint, i: nat, pointType: PointType): RoutePoint {
    RoutePoint(i, pointType, Some(p.address), p.placeId, p.lat, p.lng)
  }

  /** The rows a version is stored with: start, waypoints in order, destination. */
  function StoredPoints(dto: CreateVersionDto): (rows: seq<RoutePoint>)
    ensures |rows| == |AllPoints(dto)| >= 2
    ensures forall i :: 0 <= i < |rows| ==> rows[i].sequenceNo == i
  {
    var all := AllPoints(dto);
    seq(|all|, i requires 0 <= i < |all| => PointRow(all[i], i, TypeAt(i, |all|)))
  }

  /** The position of the application's route, or |routes|. */
  function RouteOf(routes: seq<AppId>, app: AppId): (r: nat)
    ensures r <= |routes| && (r < |routes| ==> routes[r] == app)
    ensures forall i :: 0 <= i < r ==> routes[i] != app
  {
    if routes == [] || routes[0] == app then 0 else 1 + RouteOf(routes[1..], app)
  }

  /** SELECT COALESCE(MAX(version_number), 0) of one route. */
  function MaxNumber(versions: seq<Version>, r: RouteId): nat {
    if versions == [] then 0
    else
      var init, last := MaxNumber(versions[..|versions| - 1], r), versions[|versions| - 1];
      if last.route == r && last.number > init then last.number else init
  }

  function Created(t: Tables, app: AppId, dto: CreateVersionDto): Result<Tables, Error> {
    var r := RouteOf(t.routes, app);
    if r == |t.routes| && app !in t.active then Err(NotFound) else
    var number := MaxNumber(t.versions, r) + 1;
    var v := Version(r, number, dto.start.address, dto.destination.address, dto.changeReason, None);
    Ok(Tables(if r == |t.routes| then t.routes + [app] else t.routes,
              t.versions + [v],
              t.points + [StoredPoints(dto)],
              if app in t.active then t.active[app := Some(|t.versions|)] else t.active))
  }

  // ---- calculating ----

  predicate Earlier(p: RoutePoint, q: RoutePoint) { p.sequenceNo < q.sequenceNo }

  predicate Increasing(ps: seq<RoutePoint>) { O.Sorted(Earlier, ps) }

  /** Rows in the order of their sequence numbers. */
  function BySequence(ps: seq<RoutePoint>): seq<RoutePoint> { O.Sort(Earlier, ps) }

  function PathOf(ps: seq<RoutePoint>): seq<Coordinate> {
    var sorted := BySequence(ps);
    seq(|sorted|, i requires 0 <= i < |sorted| => Coordinate(sorted[i].lng, sorted[i].lat))
  }

  /** ST_Length of a path, and the duration Math.round makes of it: any two functions. */
  datatype Geometry = Geometry(length: seq<Coordinate> -> real, seconds: real -> int)

  function Measured(g: Geometry, ps: seq<RoutePoint>): Measure {
    Measure(PathOf(ps), g.length(PathOf(ps)), g.seconds(g.length(PathOf(ps))))
  }

  /** An unknown version has no points, so it is refused like one with too few. */
  function Calculated(g: Geometry, t: Tables, v: VersionId): Result<Tables, Error> {
    if v >= |t.versions| || v >= |t.points| || |t.points[v]| < 2 then Err(BadRequest)
    else Ok(t.(versions := t.versions[v := t.versions[v].(measure := Some(Measured(g, t.points[v])))]))
  }

  // ---- what every run keeps ----

  function CountOf(versions: seq<Version>, r: RouteId): nat {
    if versions == [] then 0
    else CountOf(versions[..|versions| - 1], r) + (if versions[|versions| - 1].route == r then 1 else 0)
  }

  /** The newest version of a route. */
  function Newest(versions: seq<Version>, r: RouteId): Option<VersionId> {
    if versions == [] then None
    else if versions[|versions| - 1].route == r then Some(|versions| - 1)
    else Newest(versions[..|versions| - 1], r)
  }

  predicate NumberedInOrder(versions: seq<Version>) {
    forall i :: 0 <= i < |versions| ==> versions[i].number == CountOf(versions[..i], versions[i].route) + 1
  }

  predicate OneRouteEach(routes: seq<AppId>) { forall i, j :: 0 <= i < j < |routes| ==> routes[i] != routes[j] }

  predicate Sound(t: Tables) {
    && |t.points| == |t.versions|
    && OneRouteEach(t.routes)
    && (forall i :: 0 <= i < |t.routes| ==> t.routes[i] in t.active)
    && (forall i :: 0 <= i < |t.versions| ==> t.versions[i].route < |t.routes|)
    && NumberedInOrder(t.versions)
    && (forall app :: app in t.active ==> t.active[app] == Newest(t.versions, RouteOf(t.routes, app)))
  }

  lemma {:induction false} CountSnoc(versions: seq<Version>, v: Version, r: RouteId)
    ensures CountOf(versions + [v], r) == CountOf(versions, r) + (if v.route == r then 1 else 0)
    ensures Newest(versions + [v], r) == if v.route == r then Some(|versions|) else Newest(versions, r)
    ensures MaxNumber(versions + [v], r) ==
      if v.route == r && v.number > MaxNumber(versions, r) then v.number else MaxNumber(versions, r)
  {
    assert (versions + [v])[..|versions|] == versions;
  }

  /** The largest version number of a route is how many versions it has. */
  lemma {:induction false} MaxIsCount(versions: seq<Version>, r: RouteId)
    requires NumberedInOrder(versions)
    ensures MaxNumber(versions, r) == CountOf(versions, r)
  {
    if versions != [] {
      var n := |versions| - 1;
      assert forall i :: 0 <= i < n ==> versions[..n][..i] == versions[..i];
      MaxIsCount(versions[..n], r);
    }
  }

  lemma {:induction false} RouteOfAppend(routes: seq<AppId>, app: AppId, other: AppId)
    requires RouteOf(routes, app) == |routes|
    ensures RouteOf(routes + [app], other) ==
      if other == app || RouteOf(routes, other) < |routes| then RouteOf(routes, other) else |routes| + 1
  {
    if routes != [] {
      assert (routes + [app])[1..] == routes[1..] + [app];
      RouteOfAppend(routes[1..], app, other);
    }
  }

  lemma NumberedAppend(versions: seq<Version>, v: Version)
    requires NumberedInOrder(versions) && v.number == CountOf(versions, v.route) + 1
    ensures NumberedInOrder(versions + [v])
  {
    var all := versions + [v];
    assert forall i :: 0 <= i <= |versions| ==> all[..i] == versions[..i];
  }

  lemma {:induction false} NoVersionsBeyond(versions: seq<Version>, r: RouteId)
    requires forall i :: 0 <= i < |versions| ==> versions[i].route < r
    ensures Newest(versions, r) == None && CountOf(versions, r) == 0
  {
    if versions != [] { NoVersionsBeyond(versions[..|versions| - 1], r); }
  }

  /** A version of an existing route leaves every other application's newest version alone. */
  lemma NewestInOldRoute(t: Tables, app: AppId, dto: CreateVersionDto, other: AppId)
    requires Sound(t) && Created(t, app, dto).Ok? && RouteOf(t.routes, app) < |t.routes| && other in t.active
    ensures var u := Created(t, app, dto).value;
      other in u.active && u.active[other] == Newest(u.versions, RouteOf(u.routes, other))
  {
    var u := Created(t, app, dto).value;
    CountSnoc(t.versions, u.versions[|t.versions|], RouteOf(t.routes, other));
    if other != app { assert RouteOf(t.routes, other) != RouteOf(t.routes, app); }
  }

  /** So does the first version of a new one. */
  lemma NewestInNewRoute(t: Tables, app: AppId, dto: CreateVersionDto, other: AppId)
    requires Sound(t) && Created(t, app, dto).Ok? && RouteOf(t.routes, app) == |t.routes| && other in t.active
    ensures var u := Created(t, app, dto).value;
      other in u.active && u.active[other] == Newest(u.versions, RouteOf(u.routes, other))
  {
    var u := Created(t, app, dto).value;
    CountSnoc(t.versions, u.versions[|t.versions|], RouteOf(u.routes, other));
    RouteOfAppend(t.routes, app, other);
    NoVersionsBeyond(t.versions, |t.routes|);
    NoVersionsBeyond(t.versions, |t.routes| + 1);
  }

  lemma NumberedCreate(t: Tables, app: AppId, dto: CreateVersionDto)
    requires Sound(t) && Created(t, app, dto).Ok?
    ensures NumberedInOrder(Created(t, app, dto).value.versions)
  {
    MaxIsCount(t.versions, RouteOf(t.routes, app));
    NumberedAppend(t.versions, Created(t, app, dto).value.versions[|t.versions|]);
  }

  lemma SoundCreate(t: Tables, app: AppId, dto: CreateVersionDto)
    requires Sound(t) && Created(t, app, dto).Ok?
    ensures Sound(Created(t, app, dto).value)
  {
    var u := Created(t, app, dto).value;
    NumberedCreate(t, app, dto);
    forall other | other in u.active ensures u.active[other] == Newest(u.versions, RouteOf(u.routes, other)) {
      if RouteOf(t.routes, app) < |t.routes| {
        NewestInOldRoute(t, app, dto, other);
      } else {
        NewestInNewRoute(t, app, dto, other);
      }
    }
  }

  /** Measuring one version leaves every number and the newest version as they were. */
  lemma {:induction false} MeasureKeeps(versions: seq<Version>, v: VersionId, m: Option<Measure>, r: RouteId)
    requires v < |versions|
    ensures var changed := versions[v := versions[v].(measure := m)];
      CountOf(changed, r) == CountOf(versions, r) && Newest(changed, r) == Newest(versions, r)
  {
    var n := |versions| - 1;
    var changed := versions[v := versions[v].(measure := m)];
    if v == n {
      assert changed[..n] == versions[..n];
    } else {
      MeasureKeeps(versions[..n], v, m, r);
      assert changed[..n] == versions[..n][v := versions[..n][v].(measure := m)];
    }
  }

  lemma SoundCalculate(g: Geometry, t: Tables, v: VersionId)
    requires Sound(t) && Calculated(g, t, v).Ok?
    ensures Sound(Calculated(g, t, v).value)
  {
    var u := Calculated(g, t, v).value;
    var m := u.versions[v].measure;
    forall i | 0 <= i < |u.versions| ensures u.versions[i].number == CountOf(u.versions[..i], u.versions[i].route) + 1 {
      if v < i {
        assert u.versions[..i] == t.versions[..i][v := t.versions[..i][v].(measure := m)];
        MeasureKeeps(t.versions[..i], v, m, t.versions[i].route);
      } else {
        assert u.versions[..i] == t.versions[..i];
      }
    }
    forall app | app in u.active ensures u.active[app] == Newest(u.versions, RouteOf(u.routes, app)) {
      MeasureKeeps(t.versions, v, m, RouteOf(t.routes, app));
    }
  }

  datatype Call =
    | AddApplication(app: AppId)
    | Create(app: AppId, dto: CreateVersionDto)
    | CalculateOne(version: VersionId)

  /** A call that throws leaves the tables as they were. */
  function OrBefore(r: Result<Tables, Error>, before: Tables): Tables { if r.Ok? then r.value else before }

  function Apply(g: Geometry, t: Tables, c: Call): Tables {
    match c
    case AddApplication(app) => AddApp(t, app)
    case Create(app, dto) => OrBefore(Created(t, app, dto), t)
    case CalculateOne(v) => OrBefore(Calculated(g, t, v), t)
  }

  /** A new application has no route yet. */
  function AddApp(t: Tables, app: AppId): Tables {
    if app in t.active then t else t.(active := t.active[app := None])
  }

  const EMPTY := Tables([], [], [], map[])

  function Run(g: Geometry, calls: seq<Call>): Tables {
    if calls == [] then EMPTY else Apply(g, Run(g, calls[..|calls| - 1]), calls[|calls| - 1])
  }

  lemma SoundApply(g: Geometry, t: Tables, c: Call)
    requires Sound(t)
    ensures Sound(Apply(g, t, c))
  {
    match c
    case AddApplication(app) => NoVersionsBeyond(t.versions, |t.routes|);
    case Create(app, dto) => if Created(t, app, dto).Ok? { SoundCreate(t, app, dto); }
    case CalculateOne(v) => if Calculated(g, t, v).Ok? { SoundCalculate(g, t, v); }
  }

  lemma {:induction false} SoundRun(g: Geometry, calls: seq<Call>)
    ensures Sound(Run(g, calls))
  {
    if calls != [] {
      SoundRun(g, calls[..|calls| - 1]);
      SoundApply(g, Run(g, calls[..|calls| - 1]), calls[|calls| - 1]);
    }
  }

  // ---- what that means ----

  /** A route's version numbers, in order of creation. */
  function NumbersOf(versions: seq<Version>, r: RouteId): (ns: seq<nat>)
    ensures |ns| == CountOf(versions, r)
  {
    if versions == [] then []
    else
      NumbersOf(versions[..|versions| - 1], r)
      + (if versions[|versions| - 1].route == r then [versions[|versions| - 1].number] else [])
  }

  lemma {:induction false} NumbersCountUp(versions: seq<Version>, r: RouteId)
    requires NumberedInOrder(versions)
    ensures forall k :: 0 <= k < |NumbersOf(versions, r)| ==> NumbersOf(versions, r)[k] == k + 1
  {
    if versions != [] {
      var n := |versions| - 1;
      assert forall i :: 0 <= i < n ==> versions[..n][..i] == versions[..i];
      NumbersCountUp(versions[..n], r);
    }
  }

  lemma {:induction false} NewestIsLast(versions: seq<Version>, r: RouteId)
    requires NumberedInOrder(versions) && CountOf(versions, r) > 0
    ensures Newest(versions, r).Some? && Newest(versions, r).value < |versions|
    ensures versions[Newest(versions, r).value].route == r
      && versions[Newest(versions, r).value].number == CountOf(versions, r)
  {
    var n := |versions| - 1;
    if versions[n].route != r {
      assert forall i :: 0 <= i < n ==> versions[..n][..i] == versions[..i];
      NewestIsLast(versions[..n], r);
    }
  }

  /** In every run a route's versions are numbered 1..n, and the application's active route is the one numbered n. */
  lemma VersionsNumberedAndNewestActive(g: Geometry, calls: seq<Call>, app: AppId)
    ensures var t := Run(g, calls);
      var r := RouteOf(t.routes, app);
      && (forall k :: 0 <= k < |NumbersOf(t.versions, r)| ==> NumbersOf(t.versions, r)[k] == k + 1)
      && (app in t.active && CountOf(t.versions, r) > 0 ==>
            && t.active[app].Some? && t.active[app].value < |t.versions|
            && t.versions[t.active[app].value].route == r
            && t.versions[t.active[app].value].number == CountOf(t.versions, r))
  {
    var t := Run(g, calls);
    SoundRun(g, calls);
    NumbersCountUp(t.versions, RouteOf(t.routes, app));
    if CountOf(t.versions, RouteOf(t.routes, app)) > 0 {
      NewestIsLast(t.versions, RouteOf(t.routes, app));
    }
  }

  /** Nothing of t's versions but their measures is different in u. */
  predicate Frozen(t: Tables, u: Tables) {
    && t.points <= u.points && |t.versions| <= |u.versions|
    && forall v :: 0 <= v < |t.versions| ==> u.versions[v] == t.versions[v].(measure := u.versions[v].measure)
  }

  lemma FrozenTransitive(t: Tables, u: Tables, w: Tables)
    requires Frozen(t, u) && Frozen(u, w)
    ensures Frozen(t, w)
  {
  }

  lemma FrozenOneMore(g: Geometry, t: Tables, u: Tables, c: Call)
    requires Sound(u) && Frozen(t, u)
    ensures Frozen(t, Apply(g, u, c))
  {
    FrozenStep(g, u, c);
    FrozenTransitive(t, u, Apply(g, u, c));
  }

  lemma RunSnoc(g: Geometry, calls: seq<Call>, c: Call)
    ensures Run(g, calls + [c]) == Apply(g, Run(g, calls), c)
  {
    assert (calls + [c])[..|calls|] == calls;
  }

  lemma {:induction false} FrozenBy(g: Geometry, calls: seq<Call>, more: seq<Call>)
    ensures Frozen(Run(g, calls), Run(g, calls + more))
  {
    if more == [] {
      assert calls + more == calls;
    } else {
      var init, last := more[..|more| - 1], more[|more| - 1];
      FrozenBy(g, calls, init);
      assert calls + more == calls + init + [last];
      RunSnoc(g, calls + init, last);
      SoundRun(g, calls + init);
      FrozenOneMore(g, Run(g, calls), Run(g, calls + init), last);
    }
  }

  /** No later call changes the points, the number or the addresses of a stored version. */
  lemma VersionsFrozen(g: Geometry, calls: seq<Call>, k: nat)
    requires k <= |calls|
    ensures Frozen(Run(g, calls[..k]), Run(g, calls))
  {
    FrozenBy(g, calls[..k], calls[k..]);
    assert calls[..k] + calls[k..] == calls;
  }

  lemma FrozenStep(g: Geometry, t: Tables, c: Call)
    requires Sound(t)
    ensures Frozen(t, Apply(g, t, c))
  {
  }

  // ---- ordering by sequence number ----

  /** UNIQUE (route_version_id, sequence_no). */
  predicate DistinctNumbers(ps: seq<RoutePoint>) {
    forall i, j :: 0 <= i < j < |ps| ==> ps[i].sequenceNo != ps[j].sequenceNo
  }

  lemma BySequenceFits(ps: seq<RoutePoint>)
    requires DistinctNumbers(ps)
    ensures Increasing(BySequence(ps))
    ensures forall q :: q in BySequence(ps) <==> q in ps
  {
    O.SortSorts(Earlier, ps);
    forall q ensures q in BySequence(ps) <==> q in ps { O.SortMembers(Earlier, ps, q); }
  }

  /** A list in increasing order is determined by its rows. */
  lemma IncreasingUnique(a: seq<RoutePoint>, b: seq<RoutePoint>)
    requires Increasing(a) && Increasing(b) && forall q :: q in a <==> q in b
    ensures a == b
  {
    O.SortedUnique(Earlier, a, b);
  }

  /** The same rows, whatever order they come back in. */
  predicate SameRows(ps: seq<RoutePoint>, stored: seq<RoutePoint>) {
    DistinctNumbers(ps) && (forall q :: q in ps ==> q in stored) && (forall q :: q in stored ==> q in ps)
  }

  /** The calculated path visits start, waypoints and destination as given, in whatever order the rows come back. */
  lemma PathFollowsRequest(dto: CreateVersionDto, ps: seq<RoutePoint>)
    requires SameRows(ps, StoredPoints(dto))
    ensures BySequence(ps) == StoredPoints(dto)
    ensures |PathOf(ps)| == |AllPoints(dto)|
    ensures forall i :: 0 <= i < |PathOf(ps)| ==>
      PathOf(ps)[i] == Coordinate(AllPoints(dto)[i].lng, AllPoints(dto)[i].lat)
  {
    BySequenceFits(ps);
    IncreasingUnique(BySequence(ps), StoredPoints(dto));
  }

  // ---- what a save stores, and what a calculation makes of it ----

  /** Call k is a save that goes through. */
  predicate SavesAt(g: Geometry, calls: seq<Call>, k: nat, app: AppId, dto: CreateVersionDto) {
    k < |calls| && calls[k] == Create(app, dto) && app in Run(g, calls[..k]).active
  }

  /** The version it makes. */
  function SavedBy(g: Geometry, calls: seq<Call>, k: nat): VersionId
    requires k <= |calls|
  {
    |Run(g, calls[..k]).versions|
  }

  /** The version has the request's points, and their measure or none. */
  predicate Stored(g: Geometry, t: Tables, v: VersionId, dto: CreateVersionDto, calculated: bool) {
    && v < |t.versions| == |t.points| && t.points[v] == StoredPoints(dto)
    && t.versions[v].measure == if calculated then Some(Measured(g, StoredPoints(dto))) else None
  }

  /** Only a calculation of this very version gives it its measure. */
  lemma StoredStep(g: Geometry, t: Tables, v: VersionId, dto: CreateVersionDto, calculated: bool, c: Call)
    requires Sound(t) && Stored(g, t, v, dto, calculated)
    ensures Stored(g, Apply(g, t, c), v, dto, calculated || c == CalculateOne(v))
  {
  }

  lemma SaveStep(g: Geometry, t: Tables, app: AppId, dto: CreateVersionDto)
    requires Sound(t) && app in t.active
    ensures var v, u := |t.versions|, Apply(g, t, Create(app, dto));
      && Stored(g, u, v, dto, false) && u.versions[v].startAddress == dto.start.address
      && u.versions[v].destinationAddress == dto.destination.address && u.versions[v].changeReason == dto.changeReason
  {
  }

  lemma {:induction false} StoredBy(g: Geometry, calls: seq<Call>, more: seq<Call>, v: VersionId,
                                    dto: CreateVersionDto)
    requires Stored(g, Run(g, calls), v, dto, false)
    ensures Stored(g, Run(g, calls + more), v, dto, CalculateOne(v) in more)
  {
    if more == [] {
      assert calls + more == calls;
    } else {
      var init, last := more[..|more| - 1], more[|more| - 1];
      StoredBy(g, calls, init, v, dto);
      StoredSnoc(g, calls + init, v, dto, CalculateOne(v) in init, last);
      assert calls + more == calls + init + [last];
      assert more == init + [last];
    }
  }

  lemma StoredSnoc(g: Geometry, calls: seq<Call>, v: VersionId, dto: CreateVersionDto, calculated: bool, c: Call)
    requires Stored(g, Run(g, calls), v, dto, calculated)
    ensures Stored(g, Run(g, calls + [c]), v, dto, calculated || c == CalculateOne(v))
  {
    SoundRun(g, calls);
    RunSnoc(g, calls, c);
    StoredStep(g, Run(g, calls), v, dto, calculated, c);
  }

  lemma StoredFirst(g: Geometry, calls: seq<Call>, app: AppId, dto: CreateVersionDto)
    requires app in Run(g, calls).active
    ensures Stored(g, Run(g, calls + [Create(app, dto)]), |Run(g, calls).versions|, dto, false)
  {
    RunSnoc(g, calls, Create(app, dto));
    SoundRun(g, calls);
    SaveStep(g, Run(g, calls), app, dto);
  }

  lemma StoredInTheEnd(g: Geometry, calls: seq<Call>, k: nat, app: AppId, dto: CreateVersionDto)
    requires SavesAt(g, calls, k, app, dto)
    ensures var v := SavedBy(g, calls, k); Stored(g, Run(g, calls), v, dto, CalculateOne(v) in calls[k + 1..])
  {
    StoredFirst(g, calls[..k], app, dto);
    StoredBy(g, calls[..k] + [Create(app, dto)], calls[k + 1..], SavedBy(g, calls, k), dto);
    assert calls == calls[..k] + [Create(app, dto)] + calls[k + 1..];
  }

  function PointCount(dto: CreateVersionDto): nat { if dto.points.Some? then 2 + |dto.points.value| else 2 }

  /** The i-th point of a request: start, waypoints, destination. */
  function Requested(dto: CreateVersionDto, i: nat): LocationPoint
    requires i < PointCount(dto)
  {
    if i == 0 then dto.start else if i == PointCount(dto) - 1 then dto.destination else dto.points.value[i - 1]
  }

  lemma RequestedPoints(dto: CreateVersionDto, i: nat)
    requires i < PointCount(dto)
    ensures |AllPoints(dto)| == PointCount(dto) && AllPoints(dto)[i] == Requested(dto, i)
  {
  }

  function TypeOf(dto: CreateVersionDto, i: nat): PointType {
    if i == 0 then Start else if i == PointCount(dto) - 1 then Destination else Waypoint
  }

  /** The rows of a saved version are its points, numbered from 0, each with everything it was given. */
  lemma SavedPoints(g: Geometry, calls: seq<Call>, k: nat, app: AppId, dto: CreateVersionDto, i: nat)
    requires SavesAt(g, calls, k, app, dto) && i < PointCount(dto)
    ensures var v, t, p := SavedBy(g, calls, k), Run(g, calls), Requested(dto, i);
      && v < |t.points| && |t.points[v]| == PointCount(dto)
      && t.points[v][i] == RoutePoint(i, TypeOf(dto, i), Some(p.address), p.placeId, p.lat, p.lng)
  {
    RequestedPoints(dto, i);
    StoredInTheEnd(g, calls, k, app, dto);
  }

  /** And its row keeps the two addresses and the reason for the change. */
  lemma SavedVersion(g: Geometry, calls: seq<Call>, k: nat, app: AppId, dto: CreateVersionDto)
    requires SavesAt(g, calls, k, app, dto)
    ensures var v, t := SavedBy(g, calls, k), Run(g, calls);
      && v < |t.versions| && t.versions[v].startAddress == dto.start.address
      && t.versions[v].destinationAddress == dto.destination.address && t.versions[v].changeReason == dto.changeReason
  {
    SoundRun(g, calls[..k]);
    SaveStep(g, Run(g, calls[..k]), app, dto);
    RunSnoc(g, calls[..k], calls[k]);
    assert calls[..k] + [calls[k]] == calls[..k + 1];
    VersionsFrozen(g, calls, k + 1);
  }

  /** One coordinate for each point of the request, in its order; distance and duration are that path's. */
  predicate Follows(g: Geometry, dto: CreateVersionDto, m: Measure) {
    && |m.path| == PointCount(dto)
    && (forall i :: 0 <= i < PointCount(dto) ==>
          m.path[i] == Coordinate(Requested(dto, i).lng, Requested(dto, i).lat))
    && m.distance == g.length(m.path) && m.duration == g.seconds(m.distance)
  }

  lemma MeasuredFollows(g: Geometry, dto: CreateVersionDto)
    ensures Follows(g, dto, Measured(g, StoredPoints(dto)))
  {
    var path := PathOf(StoredPoints(dto));
    PathFollowsRequest(dto, StoredPoints(dto));
    RequestedPoints(dto, 0);
    forall i | 0 <= i < PointCount(dto)
      ensures path[i] == Coordinate(Requested(dto, i).lng, Requested(dto, i).lat)
    {
      RequestedPoints(dto, i);
    }
  }

  /**
   * A saved version has a measure if and only if it has been calculated since;
   * whatever else was saved or calculated, the measure is that of its own points.
   */
  lemma MeasuredExactly(g: Geometry, calls: seq<Call>, k: nat, app: AppId, dto: CreateVersionDto)
    requires SavesAt(g, calls, k, app, dto)
    ensures var v, t := SavedBy(g, calls, k), Run(g, calls);
      && v < |t.versions|
      && (t.versions[v].measure.Some? <==> CalculateOne(v) in calls[k + 1..])
      && (t.versions[v].measure.Some? ==> Follows(g, dto, t.versions[v].measure.value))
  {
    StoredInTheEnd(g, calls, k, app, dto);
    MeasuredFollows(g, dto);
  }

  // ---- the service ----

  class Service {
    var routes: seq<AppId>
    var versions: seq<Version>
    var points: seq<seq<RoutePoint>>
    var active: map<AppId, Option<VersionId>>

    ghost function Snapshot(): Tables
      reads this
    {
      Tables(routes, versions, points, active)
    }

    constructor ()
      ensures Snapshot() == EMPTY
    {
      routes, versions, points, active := [], [], [], map[];
    }

    method FindOrCreateRoute(app: AppId) returns (r: RouteId, thrown: Option<Error>)
      modifies this`routes
      ensures thrown.None? ==> r == RouteOf(old(routes), app) && (r < |old(routes)| || app in active)
      ensures thrown.None? ==> routes == if r < |old(routes)| then old(routes) else old(routes) + [app]
      ensures thrown.Some? ==>
        routes == old(routes) && RouteOf(routes, app) == |routes| && app !in active && thrown.value == NotFound
    {
      r := 0;
      while r < |routes| && routes[r] != app
        invariant r <= |routes| && forall i :: 0 <= i < r ==> routes[i] != app
      {
        r := r + 1;
      }
      if r < |routes| { return r, None; }
      if app !in active { return r, Some(NotFound); }
      routes := routes + [app];
      return r, None;
    }

    /** COALESCE(MAX(version_number), 0) + 1. */
    method NextNumber(r: RouteId) returns (number: nat)
      ensures number == MaxNumber(versions, r) + 1
    {
      var max := 0;
      for i := 0 to |versions|
        invariant max == MaxNumber(versions[..i], r)
      {
        assert versions[..i + 1][..i] == versions[..i];
        if versions[i].route == r && versions[i].number > max { max := versions[i].number; }
      }
      assert versions[..|versions|] == versions;
      number := max + 1;
    }

    /** One row per point, numbered and typed by its place. */
    method PointRows(dto: CreateVersionDto) returns (rows: seq<RoutePoint>)
      ensures rows == StoredPoints(dto)
    {
      var all := AllPoints(dto);
      rows := [];
      for i := 0 to |all|
        invariant rows == StoredPoints(dto)[..i]
      {
        rows := rows + [PointRow(all[i], i, TypeAt(i, |all|))];
      }
      assert rows == StoredPoints(dto);
    }

    /** The version row, then its points one by one, then the application's active route. */
    method CreateVersion(app: AppId, dto: CreateVersionDto) returns (thrown: Option<Error>)
      modifies this
      ensures thrown.None? ==> Created(old(Snapshot()), app, dto) == Ok(Snapshot())
      ensures thrown.Some? ==> Created(old(Snapshot()), app, dto) == Err(thrown.value) && Snapshot() == old(Snapshot())
    {
      var r;
      r, thrown := FindOrCreateRoute(app);
      if thrown.Some? { return; }
      var number := NextNumber(r);
      var id := |versions|;
      versions := versions + [Version(r, number, dto.start.address, dto.destination.address, dto.changeReason, None)];
      var rows := PointRows(dto);
      points := points + [rows];
      if app in active { active := active[app := Some(id)]; }
    }

    /** Path and distance first, then the duration derived from the stored distance. */
    method Calculate(g: Geometry, v: VersionId) returns (thrown: Option<Error>)
      modifies this`versions
      ensures thrown.None? ==> Calculated(g, old(Snapshot()), v) == Ok(Snapshot())
      ensures thrown.Some? ==> Calculated(g, old(Snapshot()), v) == Err(thrown.value) && versions == old(versions)
    {
      if v >= |versions| || v >= |points| { return Some(BadRequest); }
      if |points[v]| < 2 { return Some(BadRequest); }
      var path := PathOf(points[v]);
      var before := versions[v];
      versions := versions[v := before.(measure := Some(Measure(path, g.length(path), 0)))];
      var distance := versions[v].measure.value.distance;
      versions := versions[v := before.(measure := Some(Measure(path, distance, g.seconds(distance))))];
      assert versions == old(versions)[v := before.(measure := Some(Measured(g, points[v])))];
      return None;
    }
  }
}
