/** Which police stations answer for a route: coverage per station, responsibility flags, the table of suggestions. */
module RouteAnalysis {
  import opened Wrappers
  import C = Casework

  type AppId = nat
  type StationId = nat
  type VersionId = nat

  datatype Error = NotFound | BadRequest

  type Length = x: real | 0.0 <= x witness 0.0

  /** One row of the CTE: an area the path crosses, and how much of the path lies inside it. */
  datatype Hit = Hit(station: StationId, overlap: Length)

  /** total is ST_Length of the path; nearest lists the active stations by distance. */
  datatype Route = Route(hasPath: bool, total: Length, hits: seq<Hit>, nearest: seq<StationId>)

  /** coverage is None where the SQL gives NULL. */
  datatype Coverage = Coverage(station: StationId, coverage: Option<real>)

  datatype Suggestion = Suggestion(station: StationId, coverage: Option<real>, isResponsible: bool)

  const THRESHOLD := 15.0

  /** ROUND(x::numeric, 2) of a non-negative x. */
  function Round2(x: Length): real { (x * 100.0 + 0.5).Floor as real / 100.0 }

  function SumOf(hits: seq<Hit>, st: StationId): Length {
    if hits == [] then 0.0
    else SumOf(hits[..|hits| - 1], st) + (if hits[|hits| - 1].station == st then hits[|hits| - 1].overlap else 0.0)
  }

  function Overlaps(hits: seq<Hit>): Length {
    if hits == [] then 0.0 else Overlaps(hits[..|hits| - 1]) + hits[|hits| - 1].overlap
  }

  predicate Crosses(hits: seq<Hit>, st: StationId) { exists h :: h in hits && h.station == st }

  function Raw(route: Route, st: StationId): Length
    requires route.total > 0.0
  {
    SumOf(route.hits, st) / route.total * 100.0
  }

  /** Division by NULLIF(total, 0). */
  function CoverageOf(route: Route, st: StationId): Option<real> {
    if route.total == 0.0 then None else Some(Round2(Raw(route, st)))
  }

  /** DESC puts NULL first. */
  predicate NotAbove(a: Option<real>, b: Option<real>) { b.None? || (a.Some? && a.value <= b.value) }

  /** What the query may return: one row per crossed station, highest coverage first, ties in any order. */
  ghost predicate ByJurisdiction(route: Route, rows: seq<Coverage>) {
    && (forall i, j :: 0 <= i < j < |rows| ==> rows[i].station != rows[j].station)
    && (forall i :: 0 <= i < |rows| ==> Crosses(route.hits, rows[i].station))
    && (forall st :: Crosses(route.hits, st) ==> exists i :: 0 <= i < |rows| && rows[i].station == st)
    && (forall i :: 0 <= i < |rows| ==> rows[i].coverage == CoverageOf(route, rows[i].station))
    && (forall i, j :: 0 <= i < j < |rows| ==> NotAbove(rows[j].coverage, rows[i].coverage))
  }

  /** Number(null) is 0. */
  predicate IsResponsible(index: nat, coverage: Option<real>) {
    index == 0 || C.OrElse(coverage, 0.0) >= THRESHOLD
  }

  method Analyze(route: Option<Route>, byJurisdiction: seq<Coverage>) returns (r: Result<seq<Suggestion>, Error>)
    requires route.Some? ==> ByJurisdiction(route.value, byJurisdiction)
    ensures route.None? ==> r == Err(NotFound)
    ensures route.Some? && !route.value.hasPath ==> r == Err(BadRequest)
    ensures route.Some? && route.value.hasPath ==> r.Ok? && Answers(route.value, r.value)
  {
    if route.None? { return Err(NotFound); }
    if !route.value.hasPath { return Err(BadRequest); }
    var suggestions: seq<Suggestion> := [];
    if |byJurisdiction| > 0 {
      for i := 0 to |byJurisdiction|
        invariant suggestions == Flagged(byJurisdiction)[..i]
      {
        var row := byJurisdiction[i];
        suggestions := suggestions + [Suggestion(row.station, row.coverage, IsResponsible(i, row.coverage))];
      }
      assert suggestions == Flagged(byJurisdiction);
      assert Crosses(route.value.hits, byJurisdiction[0].station);
      return Ok(suggestions);
    }
    var nearest := route.value.nearest;
    for i := 0 to if |nearest| < 5 then |nearest| else 5
      invariant suggestions == Nearest(nearest)[..i]
    {
      suggestions := suggestions + [Suggestion(nearest[i], Some(0.0), false)];
    }
    assert suggestions == Nearest(nearest);
    assert route.value.hits == [] by {
      if route.value.hits != [] { assert Crosses(route.value.hits, route.value.hits[0].station); }
    }
    return Ok(suggestions);
  }

  function Flagged(rows: seq<Coverage>): seq<Suggestion> {
    seq(|rows|, i requires 0 <= i < |rows| =>
      Suggestion(rows[i].station, rows[i].coverage, IsResponsible(i, rows[i].coverage)))
  }

  function Nearest(nearest: seq<StationId>): seq<Suggestion> {
    var n := if |nearest| < 5 then |nearest| else 5;
    seq(n, i requires 0 <= i < n => Suggestion(nearest[i], Some(0.0), false))
  }

  /** The suggestions of a calculated route. */
  ghost predicate Answers(route: Route, found: seq<Suggestion>) {
    if route.hits == [] then found == Nearest(route.nearest)
    else exists rows :: ByJurisdiction(route, rows) && found == Flagged(rows)
  }

  function Responsible(found: seq<Suggestion>): nat {
    if found == [] then 0 else Responsible(found[..|found| - 1]) + (if found[|found| - 1].isResponsible then 1 else 0)
  }

  // ---- the flags ----

  /** Half a hundredth below the threshold is enough. */
  lemma ThresholdRounded(x: Length)
    ensures Round2(x) >= THRESHOLD <==> x >= 14.995
  {
    var n := (x * 100.0 + 0.5).Floor;
    assert n >= 1500 <==> x * 100.0 + 0.5 >= 1500.0;
  }

  /** The flags form a prefix, and behind the first row a flag means at least 14.995 % of the path. */
  lemma FlagsArePrefix(route: Route, found: seq<Suggestion>)
    requires Answers(route, found) && route.total > 0.0
    ensures forall i, j :: 0 <= i < j < |found| && found[j].isResponsible ==> found[i].isResponsible
    ensures route.hits != [] ==>
      forall i :: 0 < i < |found| ==> (found[i].isResponsible <==> Raw(route, found[i].station) >= 14.995)
    ensures route.hits != [] ==> forall i, j :: 0 <= i < j < |found| && found[j].isResponsible ==>
      Raw(route, found[i].station) >= 14.995
  {
    if route.hits != [] {
      var rows: seq<Coverage> :| ByJurisdiction(route, rows) && found == Flagged(rows);
      forall i | 0 <= i < |rows|
        ensures C.OrElse(rows[i].coverage, 0.0) >= THRESHOLD <==> Raw(route, rows[i].station) >= 14.995
      {
        ThresholdRounded(Raw(route, rows[i].station));
      }
    }
  }

  /** A path without length has no coverage to compare: the one station that comes first is flagged. */
  lemma FlagsWithoutLength(route: Route, found: seq<Suggestion>)
    requires Answers(route, found) && route.total == 0.0
    ensures forall i :: 0 <= i < |found| ==> (found[i].isResponsible <==> i == 0 && route.hits != [])
  {
    if route.hits != [] {
      var rows: seq<Coverage> :| ByJurisdiction(route, rows) && found == Flagged(rows);
    }
  }

  /** Somebody is responsible exactly when the route crosses a jurisdiction. */
  lemma SomebodyResponsible(route: Route, found: seq<Suggestion>)
    requires Answers(route, found)
    ensures (exists s :: s in found && s.isResponsible) <==> route.hits != []
  {
    if route.hits != [] {
      var rows: seq<Coverage> :| ByJurisdiction(route, rows) && found == Flagged(rows);
      assert Crosses(route.hits, route.hits[0].station);
      assert found[0] in found && found[0].isResponsible;
    }
  }

  /** A route that crosses nothing gets the five nearest stations at most, in that order, nobody responsible. */
  lemma NearestExactly(route: Route, found: seq<Suggestion>)
    requires Answers(route, found) && route.hits == []
    ensures |found| == |route.nearest| || (|found| == 5 && |route.nearest| > 5)
    ensures |found| <= |route.nearest|
    ensures forall i :: 0 <= i < |found| ==>
      found[i].station == route.nearest[i] && found[i].coverage == Some(0.0) && !found[i].isResponsible
  {
  }

  /** Rounding moves a share by no more than half a hundredth, to a whole number of hundredths. */
  lemma RoundExactly(x: Length) returns (n: int)
    ensures Round2(x) == n as real / 100.0
    ensures x - 0.005 <= Round2(x) <= x + 0.005
  {
    n := (x * 100.0 + 0.5).Floor;
  }

  /** Each crossed station is listed once with its share of the path in percent, the larger shares first. */
  lemma SharesExactly(route: Route, found: seq<Suggestion>)
    requires Answers(route, found) && route.hits != [] && route.total > 0.0
    ensures forall st :: Crosses(route.hits, st) <==> exists i :: 0 <= i < |found| && found[i].station == st
    ensures forall i :: 0 <= i < |found| ==>
      && found[i].coverage.Some?
      && Raw(route, found[i].station) - 0.005 <= found[i].coverage.value <= Raw(route, found[i].station) + 0.005
    ensures forall i, j :: 0 <= i < j < |found| && found[i].coverage.Some? && found[j].coverage.Some? ==>
      found[j].coverage.value <= found[i].coverage.value
  {
    var rows: seq<Coverage> :| ByJurisdiction(route, rows) && found == Flagged(rows);
    forall i | 0 <= i < |found|
      ensures found[i].coverage == Some(Round2(Raw(route, found[i].station)))
      ensures Raw(route, found[i].station) - 0.005 <= Round2(Raw(route, found[i].station))
           <= Raw(route, found[i].station) + 0.005
    {
      var n := RoundExactly(Raw(route, rows[i].station));
    }
    forall st ensures Crosses(route.hits, st) <==> exists i :: 0 <= i < |found| && found[i].station == st {
      if i :| 0 <= i < |rows| && rows[i].station == st { assert found[i].station == st; }
      if i :| 0 <= i < |found| && found[i].station == st { assert rows[i].station == st; }
    }
  }

  // ---- how many can be flagged ----

  /** Shares of different stations: the first n rows together. */
  function SharesOf(hits: seq<Hit>, stations: seq<StationId>): Length {
    if stations == [] then 0.0
    else SharesOf(hits, stations[..|stations| - 1]) + SumOf(hits, stations[|stations| - 1])
  }

  predicate Different(stations: seq<StationId>) {
    forall i, j :: 0 <= i < j < |stations| ==> stations[i] != stations[j]
  }

  lemma {:induction false} OneMoreHit(hits: seq<Hit>, stations: seq<StationId>)
    requires hits != [] && Different(stations)
    ensures SharesOf(hits, stations) == SharesOf(hits[..|hits| - 1], stations)
      + (if hits[|hits| - 1].station in stations then hits[|hits| - 1].overlap else 0.0)
  {
    if stations != [] {
      var n := |stations| - 1;
      assert stations == stations[..n] + [stations[n]];
      OneMoreHit(hits, stations[..n]);
    }
  }

  /** Every crossing belongs to one station, so different stations share what there is. */
  lemma {:induction false} SharesBounded(hits: seq<Hit>, stations: seq<StationId>)
    requires Different(stations)
    ensures SharesOf(hits, stations) <= Overlaps(hits)
  {
    if hits == [] {
      NoShares(stations);
    } else {
      OneMoreHit(hits, stations);
      SharesBounded(hits[..|hits| - 1], stations);
    }
  }

  lemma {:induction false} NoShares(stations: seq<StationId>)
    ensures SharesOf([], stations) == 0.0
  {
    if stations != [] { NoShares(stations[..|stations| - 1]); }
  }

  /** n equal shares. */
  function Times(n: nat, share: real): real { if n == 0 then 0.0 else Times(n - 1, share) + share }

  lemma {:induction false} SharesAtLeast(hits: seq<Hit>, stations: seq<StationId>, least: real)
    requires forall i :: 0 <= i < |stations| ==> SumOf(hits, stations[i]) >= least
    ensures SharesOf(hits, stations) >= Times(|stations|, least)
  {
    if stations != [] { SharesAtLeast(hits, stations[..|stations| - 1], least); }
  }

  lemma {:induction false} ResponsiblePrefix(found: seq<Suggestion>)
    requires forall i, j :: 0 <= i < j < |found| && found[j].isResponsible ==> found[i].isResponsible
    ensures Responsible(found) <= |found|
    ensures forall i :: 0 <= i < |found| ==> (found[i].isResponsible <==> i < Responsible(found))
  {
    if found != [] {
      var n := |found| - 1;
      ResponsiblePrefix(found[..n]);
      assert forall i :: 0 <= i < n ==> found[i] == found[..n][i];
    }
  }

  lemma CrossedOnce(route: Route, found: seq<Suggestion>)
    requires Answers(route, found) && route.hits != []
    ensures Once(found)
  {
    var rows: seq<Coverage> :| ByJurisdiction(route, rows) && found == Flagged(rows);
  }

  predicate Once(found: seq<Suggestion>) {
    forall i, j :: 0 <= i < j < |found| ==> found[i].station != found[j].station
  }

  lemma SomeCrossed(route: Route, found: seq<Suggestion>)
    requires Answers(route, found) && Responsible(found) > 0
    ensures route.hits != []
  {
    if route.hits == [] { NoneFlagged(found); }
  }

  lemma {:induction false} NoneFlagged(found: seq<Suggestion>)
    requires forall i :: 0 <= i < |found| ==> !found[i].isResponsible
    ensures Responsible(found) == 0
  {
    if found != [] { NoneFlagged(found[..|found| - 1]); }
  }

  /** Where more than one station is flagged, each of them holds at least 14.995 % of the path. */
  lemma EachHoldsItsShare(route: Route, found: seq<Suggestion>, i: nat)
    requires Answers(route, found) && route.total > 0.0
    requires i < Responsible(found) && Responsible(found) > 1
    ensures Responsible(found) <= |found|
    ensures SumOf(route.hits, found[i].station) >= 0.14995 * route.total
  {
    FlagsArePrefix(route, found);
    ResponsiblePrefix(found);
    SomeCrossed(route, found);
    assert found[1].isResponsible && found[i].isResponsible;
    RawToSum(SumOf(route.hits, found[i].station), route.total);
  }

  lemma RawToSum(sum: real, total: real)
    requires total > 0.0 && sum / total * 100.0 >= 14.995
    ensures sum >= 0.14995 * total
  {
    assert sum / total * total == sum;
    assert sum / total >= 0.14995;
  }

  /** They hold different parts, so together that many shares fit into what is covered. */
  lemma ResponsibleShare(route: Route, found: seq<Suggestion>)
    requires Answers(route, found) && route.total > 0.0 && Responsible(found) > 1
    ensures Times(Responsible(found), 0.14995 * route.total) <= Overlaps(route.hits)
  {
    var n := Responsible(found);
    EachHoldsItsShare(route, found, 0);
    var stations := seq(n, i requires 0 <= i < n => found[i].station);
    var least := 0.14995 * route.total;
    forall i | 0 <= i < n
      ensures SumOf(route.hits, stations[i]) >= least
    {
      EachHoldsItsShare(route, found, i);
    }
    SomeCrossed(route, found);
    CrossedOnce(route, found);
    SharesAtLeast(route.hits, stations, least);
    SharesBounded(route.hits, stations);
  }

  lemma {:induction false} SevenShares(n: nat, share: real)
    requires n >= 7 && share > 0.0
    ensures Times(n, share) >= 7.0 * share
  {
    if n == 7 {
      assert Times(n - 7, share) == 0.0;
      assert Times(n - 6, share) == share;
      assert Times(n - 5, share) == share + share;
      assert Times(n - 4, share) == 3.0 * share;
      assert Times(n - 3, share) == 4.0 * share;
      assert Times(n - 2, share) == 5.0 * share;
      assert Times(n - 1, share) == 6.0 * share;
    } else {
      SevenShares(n - 1, share);
    }
  }

  /** Where jurisdictions do not overlap, at most six stations are responsible for one route. */
  lemma AtMostSix(route: Route, found: seq<Suggestion>)
    requires Answers(route, found)
    requires route.total > 0.0 ==> Overlaps(route.hits) <= route.total
    ensures Responsible(found) <= 6
  {
    if route.total == 0.0 {
      FlagsWithoutLength(route, found);
      ResponsiblePrefix(found);
      assert |found| > 1 ==> !found[1].isResponsible;
    } else if Responsible(found) > 1 {
      ResponsibleShare(route, found);
      if Responsible(found) >= 7 { SevenShares(Responsible(found), 0.14995 * route.total); }
    }
  }

  /** Six can be: each station holds a sixth of the path. */
  lemma SixReached()
    ensures exists route, found ::
      Answers(route, found) && Overlaps(route.hits) <= route.total && Responsible(found) == 6
  {
    var hits := seq(6, i requires 0 <= i < 6 => Hit(i, 1.0));
    var route := Route(true, 6.0, hits, []);
    var rows := seq(6, i requires 0 <= i < 6 => Coverage(i, CoverageOf(route, i)));
    forall st: StationId ensures Crosses(hits, st) <==> st < 6
                         ensures st < 6 ==> CoverageOf(route, st) == Some(Round2(1.0 / 6.0 * 100.0))
    {
      if st < 6 { assert hits[st] in hits && hits[st].station == st; }
      EqualHits(6, st);
    }
    assert forall i :: 0 <= i < 6 ==> rows[i].station == i;
    AllHits(6);
    forall st: StationId | Crosses(hits, st) ensures exists i :: 0 <= i < |rows| && rows[i].station == st {
      assert rows[st].station == st;
    }
    assert ByJurisdiction(route, rows);
    var found := Flagged(rows);
    ThresholdRounded(1.0 / 6.0 * 100.0);
    ResponsiblePrefix(found);
    assert found[5].isResponsible;
    assert Answers(route, found);
  }

  lemma {:induction false} EqualHits(n: nat, st: StationId)
    ensures SumOf(seq(n, i requires 0 <= i < n => Hit(i, 1.0)), st) == if st < n then 1.0 else 0.0
  {
    if n > 0 {
      var hits := seq(n, i requires 0 <= i < n => Hit(i, 1.0));
      assert hits[..n - 1] == seq(n - 1, i requires 0 <= i < n - 1 => Hit(i, 1.0));
      EqualHits(n - 1, st);
    }
  }

  lemma {:induction false} AllHits(n: nat)
    ensures Overlaps(seq(n, i requires 0 <= i < n => Hit(i, 1.0))) == n as real
  {
    if n > 0 {
      var hits := seq(n, i requires 0 <= i < n => Hit(i, 1.0));
      assert hits[..n - 1] == seq(n - 1, i requires 0 <= i < n - 1 => Hit(i, 1.0));
      AllHits(n - 1);
    }
  }

  // ---- the table of suggestions ----

  datatype Row = Row(app: AppId, version: VersionId, suggestion: Suggestion, isConfirmed: bool)

  /** UNIQUE (application_id, police_station_id, route_version_id). */
  predicate UniqueRows(rows: seq<Row>) {
    forall i, j :: 0 <= i < j < |rows| ==>
      !(rows[i].app == rows[j].app && rows[i].version == rows[j].version
        && rows[i].suggestion.station == rows[j].suggestion.station)
  }

  /** The rows of one version, or all the others. */
  function Select(rows: seq<Row>, app: AppId, v: VersionId, own: bool): (r: seq<Row>)
    ensures forall x :: x in r ==> x in rows && (x.app == app && x.version == v) == own
  {
    if rows == [] then []
    else
      var last := rows[|rows| - 1];
      Select(rows[..|rows| - 1], app, v, own) + (if (last.app == app && last.version == v) == own then [last] else [])
  }

  function Inserted(app: AppId, v: VersionId, found: seq<Suggestion>): seq<Row> {
    seq(|found|, i requires 0 <= i < |found| => Row(app, v, found[i], false))
  }

  lemma {:induction false} SelectConcat(a: seq<Row>, b: seq<Row>, app: AppId, v: VersionId, own: bool)
    ensures Select(a + b, app, v, own) == Select(a, app, v, own) + Select(b, app, v, own)
  {
    if b == [] {
      assert a + b == a;
    } else {
      assert (a + b)[..|a + b| - 1] == a + b[..|b| - 1];
      SelectConcat(a, b[..|b| - 1], app, v, own);
    }
  }

  lemma {:induction false} SelectAllOrNothing(rows: seq<Row>, app: AppId, v: VersionId, own: bool)
    requires forall x :: x in rows ==> (x.app == app && x.version == v) == own
    ensures Select(rows, app, v, own) == rows && Select(rows, app, v, !own) == []
  {
    if rows != [] {
      assert rows == rows[..|rows| - 1] + [rows[|rows| - 1]];
      SelectAllOrNothing(rows[..|rows| - 1], app, v, own);
    }
  }

  lemma {:induction false} SelectUnique(rows: seq<Row>, app: AppId, v: VersionId, own: bool)
    requires UniqueRows(rows)
    ensures UniqueRows(Select(rows, app, v, own))
  {
    if rows != [] {
      var n := |rows| - 1;
      SelectUnique(rows[..n], app, v, own);
      var init := Select(rows[..n], app, v, own);
      forall i | 0 <= i < |init| ensures init[i].app != rows[n].app || init[i].version != rows[n].version
                                      || init[i].suggestion.station != rows[n].suggestion.station
      {
        assert init[i] in rows[..n];
        var j :| 0 <= j < n && rows[j] == init[i];
      }
    }
  }

  /** An analysis names a station once, so no insert violates the table's UNIQUE constraint. */
  lemma FoundOnce(route: Route, found: seq<Suggestion>)
    requires Answers(route, found) && Different(route.nearest)
    ensures Once(found)
  {
    if route.hits != [] { CrossedOnce(route, found); }
  }

  lemma UniqueAppend(others: seq<Row>, app: AppId, v: VersionId, found: seq<Suggestion>)
    requires UniqueRows(others) && forall x :: x in others ==> !(x.app == app && x.version == v)
    requires Once(found)
    ensures UniqueRows(others + Inserted(app, v, found))
  {
    assert forall i :: 0 <= i < |others| ==> others[i] in others;
  }

  lemma SaveReplaces(rows: seq<Row>, app: AppId, v: VersionId, found: seq<Suggestion>)
    requires UniqueRows(rows) && Once(found)
    ensures var saved := Select(rows, app, v, false) + Inserted(app, v, found);
      && UniqueRows(saved)
      && Select(saved, app, v, true) == Inserted(app, v, found)
      && Select(saved, app, v, false) == Select(rows, app, v, false)
  {
    var others, inserted := Select(rows, app, v, false), Inserted(app, v, found);
    SelectUnique(rows, app, v, false);
    SelectAllOrNothing(others, app, v, false);
    SelectAllOrNothing(inserted, app, v, true);
    SelectConcat(others, inserted, app, v, true);
    SelectConcat(others, inserted, app, v, false);
    UniqueAppend(others, app, v, found);
  }

  /** The version's rows are the suggestions, unconfirmed; the other rows are the ones that were there. */
  predicate Replaced(before: seq<Row>, after: seq<Row>, app: AppId, v: VersionId, found: seq<Suggestion>) {
    && (forall s :: s in found ==> Row(app, v, s, false) in after)
    && (forall x :: x in after && x.app == app && x.version == v ==> !x.isConfirmed && x.suggestion in found)
    && (forall x :: x in after && !(x.app == app && x.version == v) ==> x in before)
    && (forall x :: x in before && !(x.app == app && x.version == v) ==> x in after)
  }

  lemma {:induction false} SelectHas(rows: seq<Row>, app: AppId, v: VersionId, own: bool, x: Row)
    ensures x in Select(rows, app, v, own) <==> x in rows && (x.app == app && x.version == v) == own
  {
    if rows != [] { SelectHas(rows[..|rows| - 1], app, v, own, x); }
  }

  lemma SavedIsReplaced(rows: seq<Row>, app: AppId, v: VersionId, found: seq<Suggestion>)
    ensures Replaced(rows, Select(rows, app, v, false) + Inserted(app, v, found), app, v, found)
  {
    var others, inserted := Select(rows, app, v, false), Inserted(app, v, found);
    forall s | s in found ensures Row(app, v, s, false) in inserted {
      var i :| 0 <= i < |found| && found[i] == s;
      assert inserted[i] == Row(app, v, s, false);
    }
    forall x | x in inserted ensures x.app == app && x.version == v && !x.isConfirmed && x.suggestion in found {
      var i :| 0 <= i < |inserted| && inserted[i] == x;
      assert found[i] in found;
    }
    forall x ensures x in others <==> x in rows && !(x.app == app && x.version == v) {
      SelectHas(rows, app, v, false, x);
    }
  }

  function AfterConfirming(row: Row, app: AppId, st: StationId): Row {
    row.(isConfirmed := row.isConfirmed || (row.app == app && row.suggestion.station == st))
  }

  class Table {
    var rows: seq<Row>

    constructor ()
      ensures rows == []
    {
      rows := [];
    }

    /** Afterwards the version has exactly these suggestions, none of them confirmed; no other row has moved. */
    method AnalyzeAndSave(app: AppId, v: VersionId, found: seq<Suggestion>)
      requires UniqueRows(rows) && Once(found)
      modifies this
      ensures UniqueRows(rows)
      ensures Select(rows, app, v, true) == Inserted(app, v, found)
      ensures Select(rows, app, v, false) == Select(old(rows), app, v, false)
      ensures Replaced(old(rows), rows, app, v, found)
    {
      rows := Select(rows, app, v, false);
      ghost var others := rows;
      for i := 0 to |found|
        invariant rows == others + Inserted(app, v, found)[..i]
      {
        rows := rows + [Row(app, v, found[i], false)];
      }
      assert rows == others + Inserted(app, v, found);
      SaveReplaces(old(rows), app, v, found);
      SavedIsReplaced(old(rows), app, v, found);
    }

    /** Every version's row of the station is confirmed. */
    method ConfirmStation(app: AppId, st: StationId)
      modifies this
      ensures |rows| == |old(rows)|
      ensures forall i :: 0 <= i < |rows| ==> rows[i] == AfterConfirming(old(rows)[i], app, st)
      ensures forall i :: 0 <= i < |rows| && old(rows)[i].app == app && old(rows)[i].suggestion.station == st ==>
        rows[i] == old(rows)[i].(isConfirmed := true)
      ensures forall i :: 0 <= i < |rows| && !(old(rows)[i].app == app && old(rows)[i].suggestion.station == st) ==>
        rows[i] == old(rows)[i]
    {
      for i := 0 to |rows|
        invariant |rows| == |old(rows)|
        invariant forall k :: 0 <= k < i ==> rows[k] == AfterConfirming(old(rows)[k], app, st)
        invariant forall k :: i <= k < |rows| ==> rows[k] == old(rows)[k]
      {
        if rows[i].app == app && rows[i].suggestion.station == st {
          rows := rows[i := rows[i].(isConfirmed := true)];
        }
      }
    }
  }

  // ---- what that means for submitting ----

  /** Analyzing the active version again withdraws every confirmation on it: the application cannot be submitted ... */
  lemma ReanalysisWithdraws(d: C.Dossier, v: C.VersionId, stations: set<C.StationId>, next: string)
    requires d.route == Some(v)
    ensures C.Confirmed(C.Analyze(d, v, stations)) == {}
    ensures C.Submit(C.Analyze(d, v, stations), d.organizer, next).Err?
  {
  }

  /** ... until one of the suggested stations is confirmed; then exactly that station is asked to decide. */
  lemma OneConfirmationIsEnough(d: C.Dossier, v: C.VersionId, stations: set<C.StationId>, st: C.StationId)
    requires d.route == Some(v) && C.Editable(d.status)
    ensures C.Confirmed(C.Confirm(C.Analyze(d, v, stations), st)) == if st in stations then {st} else {}
    ensures C.SubmitRefusal(C.Confirm(C.Analyze(d, v, stations), st), d.organizer).None? <==> st in stations
  {
    var e := C.Confirm(C.Analyze(d, v, stations), st);
    assert C.Confirmed(e) <= {st};
    if st in stations {
      assert (st, v) in e.suggestions.Keys && e.suggestions[(st, v)];
      assert st in C.Confirmed(e);
    }
  }
}
