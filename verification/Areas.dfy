/** areas.update: a SET list assembled from the fields that were given, and the id as its last parameter. */
module Areas {
  import opened Wrappers

  datatype Error = NotFound | BadRequest

  datatype Point = Point(lng: real, lat: real)

  datatype Field = Null | Text(text: string) | Polygon(points: seq<Point>)

  datatype Area = Area(columns: map<string, Field>, updatedAt: int)

  /** undefined is None; an explicit null is Some(Null). */
  datatype UpdateArea = UpdateArea(
    name: Option<Field>,
    code: Option<Field>,
    city: Option<Field>,
    policeStationId: Option<Field>,
    boundary: Option<seq<Point>>)

  /** One entry of the SET list; the last one is updated_at = now(). */
  datatype Assignment = Assign(column: string, n: nat) | Touch

  /** A polygon ring ends where it starts. */
  function CloseRing(ring: seq<Point>): seq<Point> {
    if ring != [] && ring[0] != ring[|ring| - 1] then ring + [ring[0]] else ring
  }

  /** toWkt: refused below four points, closing point included. */
  function ToWkt(ring: seq<Point>): Result<Field, Error> {
    if |CloseRing(ring)| < 4 then Err(BadRequest) else Ok(Polygon(CloseRing(ring)))
  }

  /** Every polygon that is stored is closed and has at least three corners. */
  lemma StoredRingsAreClosed(ring: seq<Point>)
    requires ring != []
    ensures ToWkt(ring).Ok? <==> |ring| >= 4 || (|ring| == 3 && ring[0] != ring[2])
    ensures ToWkt(ring).Ok? ==>
      var points := ToWkt(ring).value.points;
      && |points| >= 4 && points[0] == points[|points| - 1] && ring <= points && |points| <= |ring| + 1
      && (ring[0] == ring[|ring| - 1] ==> points == ring)
  {
  }

  // ---- what the statement does ----

  function Param(params: seq<Field>, n: nat): Field { if 1 <= n <= |params| then params[n - 1] else Null }

  function Assigned(sets: seq<Assignment>, params: seq<Field>): map<string, Field> {
    if sets == [] then map[]
    else
      var init, last := Assigned(sets[..|sets| - 1], params), sets[|sets| - 1];
      if last.Assign? then init[last.column := Param(params, last.n)] else init
  }

  /** Assignments use $1..$count, each once and in order. */
  predicate Numbered(sets: seq<Assignment>, count: nat) {
    |sets| == count && forall i :: 0 <= i < count ==> sets[i].Assign? && sets[i].n == i + 1
  }

  lemma {:induction false} AssignedPrefix(sets: seq<Assignment>, params: seq<Field>, more: seq<Field>)
    requires Numbered(sets, |sets|) && |sets| <= |params|
    ensures Assigned(sets, params + more) == Assigned(sets, params)
  {
    if sets != [] {
      AssignedPrefix(sets[..|sets| - 1], params, more);
      assert Param(params + more, |sets|) == Param(params, |sets|);
    }
  }

  /** The fields a request gives, under their column names. */
  function Single(column: string, value: Option<Field>): map<string, Field> {
    if value.Some? then map[column := value.value] else map[]
  }

  function Boundary(u: UpdateArea): Option<Field> {
    if u.boundary.None? || ToWkt(u.boundary.value).Err? then None else Some(ToWkt(u.boundary.value).value)
  }

  function Provided(u: UpdateArea): map<string, Field> {
    Single("name", u.name) + Single("code", u.code) + Single("city", u.city)
    + Single("police_station_id", u.policeStationId) + Single("boundary", Boundary(u))
  }

  /** A column after the request: what it gives for it, or what was there. */
  predicate Written(given: Option<Field>, column: string, before: map<string, Field>, after: map<string, Field>) {
    && (given.Some? ==> column in after && after[column] == given.value)
    && (given.None? ==> (column in after <==> column in before))
    && (given.None? && column in before ==> after[column] == before[column])
  }

  /** What the request gives for a column: one of its five fields, the boundary closed, or nothing. */
  function Asked(u: UpdateArea, column: string): Option<Field> {
    if column == "name" then u.name
    else if column == "code" then u.code
    else if column == "city" then u.city
    else if column == "police_station_id" then u.policeStationId
    else if column == "boundary" && u.boundary.Some? && ToWkt(u.boundary.value).Ok? then
      Some(ToWkt(u.boundary.value).value)
    else None
  }

  /** One more assignment, to a column that has none yet. */
  lemma WrittenThen(given: Option<Field>, value: Option<Field>, column: string, c: string, before: map<string, Field>,
                    put: map<string, Field>)
    requires Written(given, column, before, before + put) && (column == c ==> given == None)
    ensures Written(if column == c then value else given, column, before, before + (put + Single(c, value)))
  {
    if column != c {
      assert column in before + (put + Single(c, value)) <==> column in before + put;
    }
  }

  /** Five assignments to different columns do not get in each other's way. */
  lemma FiveWritten(before: map<string, Field>, column: string, c1: string, v1: Option<Field>, c2: string,
                    v2: Option<Field>, c3: string, v3: Option<Field>, c4: string, v4: Option<Field>, c5: string,
                    v5: Option<Field>)
    requires c1 != c2 && c1 != c3 && c1 != c4 && c1 != c5 && c2 != c3 && c2 != c4 && c2 != c5
    requires c3 != c4 && c3 != c5 && c4 != c5
    ensures Written(if column == c1 then v1 else if column == c2 then v2 else if column == c3 then v3
                    else if column == c4 then v4 else if column == c5 then v5 else None, column, before,
                    before + (Single(c1, v1) + Single(c2, v2) + Single(c3, v3) + Single(c4, v4) + Single(c5, v5)))
  {
    var p1 := Single(c1, v1);
    var p2 := p1 + Single(c2, v2);
    var p3 := p2 + Single(c3, v3);
    var p4 := p3 + Single(c4, v4);
    var g1 := if column == c1 then v1 else None;
    var g2 := if column == c2 then v2 else g1;
    var g3 := if column == c3 then v3 else g2;
    var g4 := if column == c4 then v4 else g3;
    WrittenThen(g1, v2, column, c2, before, p1);
    WrittenThen(g2, v3, column, c3, before, p2);
    WrittenThen(g3, v4, column, c4, before, p3);
    WrittenThen(g4, v5, column, c5, before, p4);
  }

  lemma ColumnsDiffer()
    ensures "name" != "code" && "name" != "city" && "name" != "police_station_id" && "name" != "boundary"
    ensures "code" != "city" && "code" != "police_station_id" && "code" != "boundary"
    ensures "city" != "police_station_id" && "city" != "boundary" && "police_station_id" != "boundary"
  {
    assert "name"[0] == 'n' && "code"[0] == 'c' && "city"[0] == 'c' && "code"[1] == 'o' && "city"[1] == 'i';
    assert "police_station_id"[0] == 'p' && "boundary"[0] == 'b';
  }

  /** Each column gets its own field, and no other column is touched. */
  lemma ProvidedExactly(u: UpdateArea, before: map<string, Field>, column: string)
    ensures Written(Asked(u, column), column, before, before + Provided(u))
  {
    ColumnsDiffer();
    FiveWritten(before, column, "name", u.name, "code", u.code, "city", u.city, "police_station_id", u.policeStationId,
                "boundary", Boundary(u));
  }

  method PushSet(value: Option<Field>, column: string, sets: seq<Assignment>, params: seq<Field>, i: nat)
    returns (sets': seq<Assignment>, params': seq<Field>, i': nat)
    requires Numbered(sets, |params|) && i == |params| + 1
    ensures Numbered(sets', |params'|) && i' == |params'| + 1
    ensures Assigned(sets', params') == Assigned(sets, params) + Single(column, value)
    ensures |sets'| == |sets| + if value.Some? then 1 else 0
  {
    sets', params', i' := sets, params, i;
    if value.Some? {
      sets', i' := sets + [Assign(column, i)], i + 1;
      params' := params + [value.value];
      assert sets'[..|sets|] == sets;
      AssignedPrefix(sets, params, [value.value]);
    }
  }

  /** The SET list and its parameters, or the refusal of a boundary with too few points. */
  method Build(u: UpdateArea) returns (sets: seq<Assignment>, params: seq<Field>, i: nat, thrown: Option<Error>)
    ensures thrown.Some? <==> u.boundary.Some? && ToWkt(u.boundary.value).Err?
    ensures thrown.Some? ==> thrown == Some(BadRequest)
    ensures thrown.None? ==> Numbered(sets, |params|) && i == |params| + 1 && Assigned(sets, params) == Provided(u)
    ensures thrown.None? ==> (sets == [] <==> Provided(u) == map[])
  {
    sets, params, i := PushSet(u.name, "name", [], [], 1);
    sets, params, i := PushSet(u.code, "code", sets, params, i);
    sets, params, i := PushSet(u.city, "city", sets, params, i);
    sets, params, i := PushSet(u.policeStationId, "police_station_id", sets, params, i);
    if u.boundary.Some? && ToWkt(u.boundary.value).Err? {
      return sets, params, i, Some(BadRequest);
    }
    sets, params, i := PushSet(Boundary(u), "boundary", sets, params, i);
    thrown := None;
    AssignedEmpty(sets, params);
  }

  lemma AssignedEmpty(sets: seq<Assignment>, params: seq<Field>)
    requires Numbered(sets, |params|)
    ensures sets == [] <==> Assigned(sets, params) == map[]
  {
    if sets != [] {
      assert sets[|sets| - 1].column in Assigned(sets, params);
    }
  }

  class Table {
    var rows: map<string, Area>

    constructor ()
      ensures rows == map[]
    {
      rows := map[];
    }

    /** UPDATE areas SET ... WHERE id = $idIndex. */
    method Execute(sets: seq<Assignment>, params: seq<Field>, idIndex: nat, now: int)
      modifies this
      ensures rows == map k | k in old(rows) ::
        if Param(params, idIndex) == Text(k) && sets != [] then
          Area(old(rows)[k].columns + Assigned(sets, params), if Touch in sets then now else old(rows)[k].updatedAt)
        else old(rows)[k]
    {
      if sets == [] { return; }
      rows := map k | k in rows ::
        if Param(params, idIndex) == Text(k) then
          Area(rows[k].columns + Assigned(sets, params), if Touch in sets then now else rows[k].updatedAt)
        else rows[k];
    }

    /** Exactly the given fields of exactly the named area change; with none given, nothing at all. */
    method Update(id: string, u: UpdateArea, now: int) returns (thrown: Option<Error>)
      modifies this
      ensures id !in old(rows) ==> thrown == Some(NotFound)
      ensures id in old(rows) ==> (thrown.Some? <==> u.boundary.Some? && ToWkt(u.boundary.value).Err?)
      ensures thrown.Some? ==> rows == old(rows)
      ensures thrown.None? && Provided(u) == map[] ==> rows == old(rows)
      ensures thrown.None? && Provided(u) != map[] ==>
        rows == old(rows)[id := Area(old(rows)[id].columns + Provided(u), now)]
    {
      if id !in rows { return Some(NotFound); }
      var sets, params, i;
      sets, params, i, thrown := Build(u);
      if thrown.Some? { return; }
      ghost var assignments := sets;
      sets := sets + [Touch];
      if |sets| > 1 {
        AssignedPrefix(assignments, params, [Text(id)]);
        assert sets[..|sets| - 1] == assignments;
        params := params + [Text(id)];
        assert Param(params, i) == Text(id);
        assert Touch == sets[|sets| - 1];
        Execute(sets, params, i, now);
      }
    }
  }
}
