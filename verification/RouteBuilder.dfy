/** The organizer's route form: what it saves, and what it shows when a stored version is loaded again. */
module RouteBuilder {
  import opened Wrappers
  import R = Routes

  datatype Form = Form(
    startAddress: string, startLat: real, startLng: real,
    destinationAddress: string, destinationLat: real, destinationLng: real,
    changeReason: string)

  datatype Waypoint = Waypoint(address: string, lat: real, lng: real)

  function Given(w: Waypoint): R.LocationPoint {
    R.LocationPoint(w.address, None, w.lat, w.lng)
  }

  /** An empty change reason is not sent; the list of points is, even when it is empty. */
  function Payload(form: Form, waypoints: seq<Waypoint>): R.CreateVersionDto {
    R.CreateVersionDto(
      R.LocationPoint(form.startAddress, None, form.startLat, form.startLng),
      R.LocationPoint(form.destinationAddress, None, form.destinationLat, form.destinationLng),
      Some(seq(|waypoints|, i requires 0 <= i < |waypoints| => Given(waypoints[i]))),
      if form.changeReason == "" then None else Some(form.changeReason))
  }

  /** Validators.required on every address. */
  predicate Complete(form: Form, waypoints: seq<Waypoint>) {
    form.startAddress != "" && form.destinationAddress != "" && forall w :: w in waypoints ==> w.address != ""
  }

  // ---- loading a version ----

  /** find: the first point of a type. */
  function First(ps: seq<R.RoutePoint>, pointType: R.PointType): Option<R.RoutePoint> {
    if ps == [] then None
    else if ps[0].pointType == pointType then Some(ps[0])
    else First(ps[1..], pointType)
  }

  /** filter: the waypoints, in the order they came. */
  function Mids(ps: seq<R.RoutePoint>): seq<R.RoutePoint> {
    if ps == [] then []
    else
      Mids(ps[..|ps| - 1]) + (if ps[|ps| - 1].pointType == R.PointType.Waypoint then [ps[|ps| - 1]] else [])
  }

  function Shown(p: R.RoutePoint): Waypoint {
    Waypoint(if p.address.Some? then p.address.value else "", p.lat, p.lng)
  }

  function LatOf(p: Option<R.RoutePoint>): real { if p.Some? then p.value.lat else 0.0 }

  function LngOf(p: Option<R.RoutePoint>): real { if p.Some? then p.value.lng else 0.0 }

  /** patchValue: everything but the change reason. */
  function PatchedForm(form: Form, v: R.Version, ps: seq<R.RoutePoint>): Form {
    var start, destination := First(ps, R.Start), First(ps, R.Destination);
    Form(v.startAddress, LatOf(start), LngOf(start), v.destinationAddress, LatOf(destination), LngOf(destination),
         form.changeReason)
  }

  function LoadedWaypoints(ps: seq<R.RoutePoint>): seq<Waypoint> {
    var mids := R.BySequence(Mids(ps));
    seq(|mids|, i requires 0 <= i < |mids| => Shown(mids[i]))
  }

  lemma {:induction false} FirstOnly(ps: seq<R.RoutePoint>, p: R.RoutePoint)
    requires p in ps && forall q :: q in ps && q.pointType == p.pointType ==> q == p
    ensures First(ps, p.pointType) == Some(p)
  {
    if ps[0].pointType != p.pointType {
      assert ps == [ps[0]] + ps[1..];
      FirstOnly(ps[1..], p);
    } else {
      assert ps[0] in ps;
    }
  }

  lemma {:induction false} MidsFit(ps: seq<R.RoutePoint>)
    requires R.DistinctNumbers(ps)
    ensures forall q :: q in Mids(ps) <==> q in ps && q.pointType == R.PointType.Waypoint
    ensures R.DistinctNumbers(Mids(ps))
  {
    if ps != [] {
      var n := |ps| - 1;
      assert ps == ps[..n] + [ps[n]];
      MidsFit(ps[..n]);
      forall i | 0 <= i < |Mids(ps[..n])| ensures Mids(ps[..n])[i].sequenceNo != ps[n].sequenceNo {
        assert Mids(ps[..n])[i] in Mids(ps[..n]);
      }
    }
  }

  /** Between the first and the last stored point lie exactly the waypoints. */
  lemma StoredMiddle(dto: R.CreateVersionDto, q: R.RoutePoint)
    ensures var stored := R.StoredPoints(dto);
      q in stored[1..|stored| - 1] <==> q in stored && q.pointType == R.PointType.Waypoint
  {
    var stored := R.StoredPoints(dto);
    var middle := stored[1..|stored| - 1];
    if q in middle {
      var i :| 0 <= i < |middle| && middle[i] == q;
      assert stored[i + 1] == q;
    }
    if q in stored && q.pointType == R.PointType.Waypoint {
      var i :| 0 <= i < |stored| && stored[i] == q;
      assert middle[i - 1] == q;
    }
  }

  lemma MidsComeBack(dto: R.CreateVersionDto, ps: seq<R.RoutePoint>)
    requires R.SameRows(ps, R.StoredPoints(dto))
    ensures R.BySequence(Mids(ps)) == R.StoredPoints(dto)[1..|R.StoredPoints(dto)| - 1]
  {
    var stored := R.StoredPoints(dto);
    MidsFit(ps);
    R.BySequenceFits(Mids(ps));
    forall q ensures q in R.BySequence(Mids(ps)) <==> q in stored[1..|stored| - 1] {
      StoredMiddle(dto, q);
    }
    R.IncreasingUnique(R.BySequence(Mids(ps)), stored[1..|stored| - 1]);
  }

  /** Whatever order the stored points come back in, their waypoints load in the order they were saved. */
  lemma WaypointsComeBack(form: Form, waypoints: seq<Waypoint>, ps: seq<R.RoutePoint>)
    requires R.SameRows(ps, R.StoredPoints(Payload(form, waypoints)))
    ensures LoadedWaypoints(ps) == waypoints
  {
    var dto := Payload(form, waypoints);
    MidsComeBack(dto, ps);
    forall i | 0 <= i < |waypoints| ensures Shown(R.StoredPoints(dto)[i + 1]) == waypoints[i] {
      assert R.AllPoints(dto)[i + 1] == Given(waypoints[i]);
    }
  }

  lemma FormComesBack(form: Form, waypoints: seq<Waypoint>, ps: seq<R.RoutePoint>, v: R.Version, shown: Form)
    requires R.SameRows(ps, R.StoredPoints(Payload(form, waypoints)))
    requires v.startAddress == form.startAddress && v.destinationAddress == form.destinationAddress
    ensures PatchedForm(shown, v, ps) == form.(changeReason := shown.changeReason)
  {
    var stored := R.StoredPoints(Payload(form, waypoints));
    var n := |stored| - 1;
    assert stored[0] in stored && stored[n] in stored;
    forall q | q in ps ensures q.pointType == R.Start ==> q == stored[0]
                       ensures q.pointType == R.Destination ==> q == stored[n]
    {
      var i :| 0 <= i < |stored| && stored[i] == q;
    }
    FirstOnly(ps, stored[0]);
    FirstOnly(ps, stored[n]);
  }

  /**
   * A route that was saved at step k of any run, and is loaded after any further saves and calculations by anybody,
   * shows the same start, waypoints and destination: however its points come back, whatever the form held before.
   */
  lemma SavedRouteReloads(g: R.Geometry, calls: seq<R.Call>, k: nat, app: R.AppId, form: Form, waypoints: seq<Waypoint>,
                          ps: seq<R.RoutePoint>, shown: Form)
    requires k < |calls| && calls[k] == R.Create(app, Payload(form, waypoints))
    requires app in R.Run(g, calls[..k]).active
    ensures var id, t := |R.Run(g, calls[..k]).versions|, R.Run(g, calls);
      && id < |t.versions| == |t.points|
      && t.points[id] == R.StoredPoints(Payload(form, waypoints))
      && (R.SameRows(ps, t.points[id]) ==>
            && PatchedForm(shown, t.versions[id], ps) == form.(changeReason := shown.changeReason)
            && LoadedWaypoints(ps) == waypoints)
  {
    var before := R.Run(g, calls[..k]);
    R.SoundRun(g, calls);
    assert calls[..k + 1][..k] == calls[..k] && calls[..k + 1][k] == calls[k];
    var after := R.Run(g, calls[..k + 1]);
    assert after == R.Created(before, app, Payload(form, waypoints)).value;
    R.VersionsFrozen(g, calls, k + 1);
    var id := |before.versions|;
    assert R.Run(g, calls).points[id] == after.points[id];
    if R.SameRows(ps, after.points[id]) {
      FormComesBack(form, waypoints, ps, R.Run(g, calls).versions[id], shown);
      WaypointsComeBack(form, waypoints, ps);
    }
  }

  // ---- editing the list of waypoints ----

  /** Two neighbours change places; at either end nothing moves. */
  function Moved(waypoints: seq<Waypoint>, i: nat, dir: int): seq<Waypoint>
    requires i < |waypoints|
  {
    if 0 <= i + dir < |waypoints| then waypoints[i := waypoints[i + dir]][i + dir := waypoints[i]] else waypoints
  }

  /** The two waypoints change places and no other moves; past either end none does. */
  predicate Swapped(before: seq<Waypoint>, after: seq<Waypoint>, i: int, j: int)
    requires 0 <= i < |before|
  {
    if 0 <= j < |before| then
      && |after| == |before| && after[i] == before[j] && after[j] == before[i]
      && forall k :: 0 <= k < |before| && k != i && k != j ==> after[k] == before[k]
    else after == before
  }

  /** Moving swaps two neighbours, loses and repeats none, and the way back undoes it. */
  lemma MoveThereAndBack(waypoints: seq<Waypoint>, i: nat, dir: int)
    requires i < |waypoints| && (dir == 1 || dir == -1)
    ensures Swapped(waypoints, Moved(waypoints, i, dir), i, i + dir)
    ensures multiset(Moved(waypoints, i, dir)) == multiset(waypoints)
    ensures 0 <= i + dir < |waypoints| ==> Moved(Moved(waypoints, i, dir), i + dir, -dir) == waypoints
  {
    if 0 <= i + dir < |waypoints| {
      SwapKeeps(waypoints, i, i + dir);
      assert Moved(Moved(waypoints, i, dir), i + dir, -dir) == waypoints;
    }
  }

  lemma SwapKeeps(waypoints: seq<Waypoint>, i: nat, j: nat)
    requires i < |waypoints| && j < |waypoints|
    ensures multiset(waypoints[i := waypoints[j]][j := waypoints[i]]) == multiset(waypoints)
  {
  }

  /** A request asks for the route the form shows; a place has no id, and no reason is given when none is written. */
  predicate Asks(dto: R.CreateVersionDto, form: Form, waypoints: seq<Waypoint>) {
    && dto.start == R.LocationPoint(form.startAddress, None, form.startLat, form.startLng)
    && dto.destination == R.LocationPoint(form.destinationAddress, None, form.destinationLat, form.destinationLng)
    && dto.points.Some? && |dto.points.value| == |waypoints|
    && (forall i :: 0 <= i < |waypoints| ==>
          dto.points.value[i] == R.LocationPoint(waypoints[i].address, None, waypoints[i].lat, waypoints[i].lng))
    && (form.changeReason == "" ==> dto.changeReason == None)
    && (form.changeReason != "" ==> dto.changeReason == Some(form.changeReason))
  }

  class Component {
    var form: Form
    var waypoints: seq<Waypoint>

    constructor ()
      ensures waypoints == []
    {
      form := Form("", 0.0, 0.0, "", 0.0, 0.0, "");
      waypoints := [];
    }

    method PrefillFrom(v: R.Version, ps: seq<R.RoutePoint>)
      modifies this
      ensures form == PatchedForm(old(form), v, ps) && waypoints == LoadedWaypoints(ps)
    {
      var start := Find(ps, R.Start);
      var destination := Find(ps, R.Destination);
      var kept: seq<R.RoutePoint> := [];
      for i := 0 to |ps|
        invariant kept == Mids(ps[..i])
      {
        assert ps[..i + 1][..i] == ps[..i];
        if ps[i].pointType == R.PointType.Waypoint { kept := kept + [ps[i]]; }
      }
      assert ps[..|ps|] == ps;
      var mids := R.BySequence(kept);

      form := form.(startAddress := v.startAddress, startLat := LatOf(start), startLng := LngOf(start),
                    destinationAddress := v.destinationAddress, destinationLat := LatOf(destination),
                    destinationLng := LngOf(destination));
      waypoints := [];
      for i := 0 to |mids|
        invariant form == PatchedForm(old(form), v, ps)
        invariant waypoints == LoadedWaypoints(ps)[..i]
      {
        waypoints := waypoints + [Shown(mids[i])];
      }
    }

    method AddWaypoint()
      modifies this`waypoints
      ensures waypoints == old(waypoints) + [Waypoint("", 0.0, 0.0)]
    {
      waypoints := waypoints + [Waypoint("", 0.0, 0.0)];
    }

    method MoveWaypoint(i: nat, dir: int)
      requires i < |waypoints| && (dir == 1 || dir == -1)
      modifies this`waypoints
      ensures waypoints == Moved(old(waypoints), i, dir)
      ensures Swapped(old(waypoints), waypoints, i, i + dir)
    {
      var j := i + dir;
      if j < 0 || j >= |waypoints| { return; }
      var a, b := waypoints[i], waypoints[j];
      waypoints := waypoints[i := b];
      waypoints := waypoints[j := a];
    }

    /** Nothing is sent while an address is missing. */
    method SaveRoute() returns (request: Option<R.CreateVersionDto>)
      ensures request == if Complete(form, waypoints) then Some(Payload(form, waypoints)) else None
      ensures request.None? <==>
        form.startAddress == "" || form.destinationAddress == "" || exists w :: w in waypoints && w.address == ""
      ensures request.Some? ==> Asks(request.value, form, waypoints)
    {
      if form.startAddress == "" || form.destinationAddress == "" { return None; }
      var points: seq<R.LocationPoint> := [];
      for i := 0 to |waypoints|
        invariant points == Payload(form, waypoints).points.value[..i]
        invariant forall k :: 0 <= k < i ==> waypoints[k].address != ""
      {
        if waypoints[i].address == "" { return None; }
        points := points + [Given(waypoints[i])];
      }
      assert points == Payload(form, waypoints).points.value;
      request := Some(R.CreateVersionDto(
        R.LocationPoint(form.startAddress, None, form.startLat, form.startLng),
        R.LocationPoint(form.destinationAddress, None, form.destinationLat, form.destinationLng),
        Some(points),
        if form.changeReason == "" then None else Some(form.changeReason)));
    }
  }

  method Find(ps: seq<R.RoutePoint>, pointType: R.PointType) returns (found: Option<R.RoutePoint>)
    ensures found == First(ps, pointType)
  {
    var i := 0;
    while i < |ps|
      invariant i <= |ps| && First(ps, pointType) == First(ps[i..], pointType)
    {
      if ps[i].pointType == pointType { return Some(ps[i]); }
      assert ps[i..][1..] == ps[i + 1..];
      i := i + 1;
    }
    found := None;
  }
}
