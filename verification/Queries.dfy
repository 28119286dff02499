/** The services' dynamic queries: what they push, and that it selects what the filter asks for. */
module AuditLogs {
  import opened Wrappers
  import opened Sql

  datatype Filters = Filters(
    entityType: Option<string>,
    entityId: Option<string>,
    userId: Option<string>,
    action: Option<string>,
    from: Option<int>,
    to: Option<int>,
    page: Option<int>,
    pageSize: Option<int>)

  predicate Asked(f: Option<string>, v: Value) { f.Some? && f.value != "" ==> v == Text(f.value) }

  predicate Matches(f: Filters, row: Row) {
    && Asked(f.entityType, Column(row, "entity_type"))
    && Asked(f.entityId, Column(row, "entity_id"))
    && Asked(f.userId, Column(row, "user_id"))
    && Asked(f.action, Column(row, "action"))
    && (f.from.Some? ==> Column(row, "created_at").Stamp? && Column(row, "created_at").stamp >= f.from.value)
    && (f.to.Some? ==> Column(row, "created_at").Stamp? && Column(row, "created_at").stamp <= f.to.value)
  }

  /** The clause assembled for the filter selects the rows the filter describes, with $1..$n each used once. */
  method Build(f: Filters) returns (conditions: seq<Cond>, params: seq<Value>)
    ensures Numbered(conditions, |params|)
    ensures forall env, row :: EvalAll(env, conditions, params, row) <==> Matches(f, row)
  {
    conditions, params := [], [];
    conditions, params := PushText(f.entityType, "entity_type", conditions, params);
    conditions, params := PushText(f.entityId, "entity_id", conditions, params);
    conditions, params := PushText(f.userId, "user_id", conditions, params);
    conditions, params := PushText(f.action, "action", conditions, params);
    conditions, params := PushBound(f.from, true, "created_at", conditions, params);
    conditions, params := PushBound(f.to, false, "created_at", conditions, params);
  }

  /** A filter that is given adds its parameter first; the number of parameters is then its placeholder. */
  method PushText(filter: Option<string>, column: string, conditions: seq<Cond>, params: seq<Value>)
    returns (conditions': seq<Cond>, params': seq<Value>)
    requires Numbered(conditions, |params|)
    ensures Numbered(conditions', |params'|)
    ensures forall env, row :: EvalAll(env, conditions', params', row) <==>
      EvalAll(env, conditions, params, row) && Asked(filter, Column(row, column))
  {
    conditions', params' := conditions, params;
    if Given(filter) {
      params' := params + [Text(filter.value)];
      conditions' := conditions + [Equals(column, |params'|)];
      Push(conditions, params, Equals(column, |params'|), [Text(filter.value)]);
    }
  }

  function Max(a: int, b: int): int { if a >= b then a else b }
  function Min(a: int, b: int): int { if a <= b then a else b }

  ghost function Matching(f: Filters): Row -> bool { row => Matches(f, row) }

  /** One page of the matching entries, newest first, and how many match in all. */
  method Query(env: Env, table: seq<Row>, f: Filters) returns (data: seq<Row>, total: nat, page: nat, pageSize: nat)
    ensures page == if f.page.Some? && f.page.value >= 1 then f.page.value else 1
    ensures f.pageSize.None? ==> pageSize == 25
    ensures f.pageSize.Some? && f.pageSize.value < 1 ==> pageSize == 1
    ensures f.pageSize.Some? && f.pageSize.value > 100 ==> pageSize == 100
    ensures f.pageSize.Some? && 1 <= f.pageSize.value <= 100 ==> pageSize == f.pageSize.value
    ensures total == |Selected(Matching(f), table)|
    ensures data == PageOf(Selected(Matching(f), table), page, pageSize)
  {
    page := Max(1, if f.page.Some? then f.page.value else 1);
    pageSize := Min(100, Max(1, if f.pageSize.Some? then f.pageSize.value else 25));
    var offset := (page - 1) * pageSize;
    var conditions, params := Build(f);
    WhereSelects(env, Matching(f), table, conditions, params);
    var all := params + [Number(pageSize), Number(offset)];
    ParamsMayGrow(conditions, params, [Number(pageSize), Number(offset)]);
    WhereSelects(env, Matching(f), table, conditions, all);
    assert Param(all, |params| + 1) == Number(pageSize) && Param(all, |params| + 2) == Number(offset);
    data := Select(env, table, conditions, all, |params| + 1, |params| + 2);
    total := |Where(env, table, conditions, params)|;
  }
}

module PublicPortal {
  import opened Wrappers
  import opened Sql

  const PUBLIC_STATUSES := ["APPROVED", "LIVE", "COMPLETED"]

  /** Ids are validated UUIDs, never the empty string. */
  type Uuid = s: string | s != "" witness "0"

  function TextOf(id: Option<Uuid>): (v: Option<Value>)
    ensures v != Some(Null)
  {
    if id.Some? then Some(Text(id.value)) else None
  }

  datatype Timeframe = Upcoming | LiveNow | Past | Any

  datatype Filters = Filters(
    timeframe: Timeframe,
    festivalId: Option<Uuid>,
    eventTypeId: Option<Uuid>,
    date: Option<int>,
    policeStationId: Option<Uuid>)

  predicate InTimeframe(env: Env, t: Timeframe, row: Row) {
    match t
    case LiveNow => Column(row, "status") == Text("LIVE")
    case Past => Column(row, "status") == Text("COMPLETED")
    case Upcoming => Column(row, "status") == Text("APPROVED")
                     && Column(row, "event_date").Stamp? && Column(row, "event_date").stamp >= env.today
    case Any => Column(row, "status") in [Text("APPROVED"), Text("LIVE"), Text("COMPLETED")]
  }

  predicate Matches(env: Env, f: Filters, row: Row) {
    && InTimeframe(env, f.timeframe, row)
    && (f.festivalId.Some? ==> Column(row, "festival_id") == Text(f.festivalId.value))
    && (f.eventTypeId.Some? ==> Column(row, "event_type_id") == Text(f.eventTypeId.value))
    && (f.date.Some? ==> Column(row, "event_date") == Stamp(f.date.value))
    && (f.policeStationId.Some? ==> f.policeStationId.value in row.confirmed)
  }

  /** The counter i names the next placeholder; it stays one ahead of the parameters. */
  method Build(f: Filters) returns (conditions: seq<Cond>, params: seq<Value>, i: nat)
    ensures Numbered(conditions, |params|) && i == |params| + 1 && conditions != []
    ensures forall env, row :: EvalAll(env, conditions, params, row) <==> Matches(env, f, row)
  {
    conditions, params, i := PushTimeframe(f.timeframe);
    conditions, params, i := PushEquals(TextOf(f.festivalId), "festival_id", conditions, params, i);
    conditions, params, i := PushEquals(TextOf(f.eventTypeId), "event_type_id", conditions, params, i);
    conditions, params, i :=
      PushEquals(if f.date.Some? then Some(Stamp(f.date.value)) else None, "event_date", conditions, params, i);
    if f.policeStationId.Some? {
      Push(conditions, params, HasStation(i), [Text(f.policeStationId.value)]);
      conditions, params, i := conditions + [HasStation(i)], params + [Text(f.policeStationId.value)], i + 1;
    }
  }

  method PushTimeframe(t: Timeframe) returns (conditions: seq<Cond>, params: seq<Value>, i: nat)
    ensures Numbered(conditions, |params|) && i == |params| + 1 && conditions != []
    ensures forall env, row :: EvalAll(env, conditions, params, row) <==> InTimeframe(env, t, row)
  {
    i := 1;
    var c, v;
    match t {
      case LiveNow => c, v := Equals("status", i), Text("LIVE");
      case Past => c, v := Equals("status", i), Text("COMPLETED");
      case Upcoming => c, v := EqualsFromToday("status", i, "event_date"), Text("APPROVED");
      case Any => c, v := AnyOf("status", i), Texts(PUBLIC_STATUSES);
    }
    Push([], [], c, [v]);
    conditions, params, i := [] + [c], [] + [v], i + 1;
    assert Param(params, 1) == v;
  }

  ghost function Matching(env: Env, f: Filters): Row -> bool { row => Matches(env, f, row) }

  /** LIMIT and OFFSET take the two placeholders after the last condition. */
  method ListProcessions(env: Env, table: seq<Row>, f: Filters, page: Option<nat>, pageSize: Option<nat>)
    returns (items: seq<Row>, total: nat)
    requires page.Some? ==> page.value >= 1
    ensures total == |Selected(Matching(env, f), table)|
    ensures items == PageOf(Selected(Matching(env, f), table), if page.Some? then page.value else 1,
                            if pageSize.Some? then pageSize.value else 20)
  {
    var p, size := if page.Some? then page.value else 1, if pageSize.Some? then pageSize.value else 20;
    var conditions, params, i := Build(f);
    WhereSelects(env, Matching(env, f), table, conditions, params);
    total := |Where(env, table, conditions, params)|;
    var limit := i;
    i := i + 1;
    var offset := i;
    var tail := [Number(size), Number((p - 1) * size)];
    var all := params + tail;
    ParamsMayGrow(conditions, params, tail);
    WhereSelects(env, Matching(env, f), table, conditions, all);
    assert Param(all, limit) == tail[0] && Param(all, offset) == tail[1];
    items := Select(env, table, conditions, all, limit, offset);
  }

  /** Nothing private is ever listed: whatever the filter, each listed application is APPROVED, LIVE or COMPLETED. */
  lemma OnlyPublicStatuses(env: Env, f: Filters, table: seq<Row>)
    ensures forall row :: row in Selected(Matching(env, f), table) ==>
      row in table && Column(row, "status") in [Text("APPROVED"), Text("LIVE"), Text("COMPLETED")]
  {
    SelectedOnly(Matching(env, f), table);
    forall row | row in Selected(Matching(env, f), table) ensures InTimeframe(env, f.timeframe, row) {
      assert Matching(env, f)(row);
    }
  }
}

module ControlRoom {
  import opened Wrappers
  import opened Sql
  import opened PublicPortal

  const DEFAULT_ACTIVE_STATUSES := ["LIVE", "GPS_WARNING", "GPS_LOST"]

  datatype Query = Query(
    status: Option<Uuid>,
    deviationStatus: Option<Uuid>,
    festivalId: Option<Uuid>,
    eventTypeId: Option<Uuid>,
    policeStationId: Option<Uuid>,
    areaId: Option<Uuid>)

  /** The station asked for, or else the one the area belongs to. */
  function StationAsked(env: Env, q: Query): Option<string> {
    if q.policeStationId.Some? then Some(q.policeStationId.value)
    else if q.areaId.Some? && q.areaId.value in env.areas then Some(env.areas[q.areaId.value])
    else None
  }

  predicate Shown(env: Env, q: Query, row: Row) {
    && StatusShown(q.status, row)
    && (q.deviationStatus.Some? ==> Column(row, "deviation_status") == Text(q.deviationStatus.value))
    && (q.festivalId.Some? ==> Column(row, "festival_id") == Text(q.festivalId.value))
    && (q.eventTypeId.Some? ==> Column(row, "event_type_id") == Text(q.eventTypeId.value))
    && StationShown(env, q, row)
  }

  predicate StationShown(env: Env, q: Query, row: Row) {
    q.policeStationId.Some? || q.areaId.Some? ==>
      StationAsked(env, q).Some? && StationAsked(env, q).value in row.confirmed
  }

  function OrNull(id: Option<Uuid>): Value { if id.Some? then Text(id.value) else Null }

  /** Station and area share one condition with two placeholders, so i advances by two. */
  method Build(q: Query) returns (conditions: seq<Cond>, params: seq<Value>)
    ensures Numbered(conditions, |params|) && conditions != []
    ensures forall env, row :: EvalAll(env, conditions, params, row) <==> Shown(env, q, row)
  {
    var i;
    conditions, params, i := PushStatus(q.status);
    conditions, params, i := PushEquals(TextOf(q.deviationStatus), "deviation_status", conditions, params, i);
    conditions, params, i := PushEquals(TextOf(q.festivalId), "festival_id", conditions, params, i);
    conditions, params, i := PushEquals(TextOf(q.eventTypeId), "event_type_id", conditions, params, i);
    conditions, params, i := PushStation(q, conditions, params, i);
  }

  /** The condition with both parameters in place asks what the query asks. */
  lemma StationCondition(env: Env, q: Query, i: nat, params: seq<Value>, row: Row)
    requires Param(params, i) == OrNull(q.policeStationId) && Param(params, i + 1) == OrNull(q.areaId)
    requires q.policeStationId.Some? || q.areaId.Some?
    ensures Eval(env, HasStationOrArea(i, i + 1), params, row) <==> StationShown(env, q, row)
  {
  }

  method PushStation(q: Query, conditions: seq<Cond>, params: seq<Value>, i: nat)
    returns (conditions': seq<Cond>, params': seq<Value>, i': nat)
    requires Numbered(conditions, |params|) && i == |params| + 1
    ensures Numbered(conditions', |params'|) && i' == |params'| + 1 && |conditions'| >= |conditions|
    ensures forall env, row :: EvalAll(env, conditions', params', row) <==>
      EvalAll(env, conditions, params, row) && StationShown(env, q, row)
  {
    conditions', params', i' := conditions, params, i;
    if q.policeStationId.Some? || q.areaId.Some? {
      var both := [OrNull(q.policeStationId), OrNull(q.areaId)];
      Push(conditions, params, HasStationOrArea(i, i + 1), both);
      conditions', params', i' := conditions + [HasStationOrArea(i, i + 1)], params + both, i + 2;
      forall env, row
        ensures Eval(env, HasStationOrArea(i, i + 1), params', row) <==> StationShown(env, q, row)
      {
        StationCondition(env, q, i, params', row);
      }
    }
  }

  predicate StatusShown(status: Option<Uuid>, row: Row) {
    if status.Some? then Column(row, "status") == Text(status.value)
    else Column(row, "status") in [Text("LIVE"), Text("GPS_WARNING"), Text("GPS_LOST")]
  }

  method PushStatus(status: Option<Uuid>) returns (conditions: seq<Cond>, params: seq<Value>, i: nat)
    ensures Numbered(conditions, |params|) && i == |params| + 1 && conditions != []
    ensures forall env, row :: EvalAll(env, conditions, params, row) <==> StatusShown(status, row)
  {
    i := 1;
    var c, v;
    if status.Some? {
      c, v := Equals("status", i), Text(status.value);
    } else {
      c, v := AnyOf("status", i), Texts(DEFAULT_ACTIVE_STATUSES);
    }
    Push([], [], c, [v]);
    conditions, params, i := [] + [c], [] + [v], i + 1;
    assert Param(params, 1) == v;
  }
}
