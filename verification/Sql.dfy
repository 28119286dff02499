/** The fragment of SQL the services assemble at run time: conditions over numbered placeholders. */
module Sql {
  import opened Wrappers

  datatype Value = Null | Text(text: string) | Stamp(stamp: int) | Texts(texts: seq<string>) | Number(number: int)

  /** A row of the driving table, with the stations confirmed for its application. */
  datatype Row = Row(columns: map<string, Value>, confirmed: set<string>)

  /** What clauses look up outside the row: CURRENT_DATE and the station of each area. */
  datatype Env = Env(today: int, areas: map<string, string>)

  datatype Cond =
    | Equals(column: string, n: nat)
    | AtLeast(column: string, n: nat)
    | AtMost(column: string, n: nat)
    | AnyOf(column: string, n: nat)
    | EqualsFromToday(column: string, n: nat, dateColumn: string)
    | HasStation(n: nat)
    | HasStationOrArea(n: nat, m: nat)

  /** The placeholders of a condition, as they stand in its text. */
  function Placeholders(c: Cond): seq<nat> {
    if c.HasStationOrArea? then [c.n, c.m] else [c.n]
  }

  function Column(row: Row, name: string): Value { if name in row.columns then row.columns[name] else Null }

  /** $n: parameters are numbered from 1. */
  function Param(params: seq<Value>, n: nat): Value { if 1 <= n <= |params| then params[n - 1] else Null }

  /** Comparisons with NULL are not true. */
  predicate Same(a: Value, b: Value) { a != Null && a == b }

  predicate NotBefore(a: Value, b: Value) { a.Stamp? && b.Stamp? && a.stamp >= b.stamp }

  /** (SELECT police_station_id FROM areas WHERE id = ...) */
  function StationOfArea(env: Env, area: Value): Value {
    if area.Text? && area.text in env.areas then Text(env.areas[area.text]) else Null
  }

  predicate Eval(env: Env, c: Cond, params: seq<Value>, row: Row) {
    match c
    case Equals(column, n) => Same(Column(row, column), Param(params, n))
    case AtLeast(column, n) => NotBefore(Column(row, column), Param(params, n))
    case AtMost(column, n) => NotBefore(Param(params, n), Column(row, column))
    case AnyOf(column, n) =>
      Column(row, column).Text? && Param(params, n).Texts? && Column(row, column).text in Param(params, n).texts
    case EqualsFromToday(column, n, dateColumn) =>
      Same(Column(row, column), Param(params, n)) && NotBefore(Column(row, dateColumn), Stamp(env.today))
    case HasStation(n) => Param(params, n).Text? && Param(params, n).text in row.confirmed
    case HasStationOrArea(n, m) =>
      var station := if Param(params, n) != Null then Param(params, n) else StationOfArea(env, Param(params, m));
      station.Text? && station.text in row.confirmed
  }

  /** No equation holds of NULL, neither in the row nor as the parameter. */
  lemma NullEqualsNothing(env: Env, c: Cond, params: seq<Value>, row: Row)
    requires c.Equals? && Null in {Column(row, c.column), Param(params, c.n)}
    ensures !Eval(env, c, params, row)
  {
  }

  /** conditions.join(' AND '); no condition at all selects every row. */
  predicate EvalAll(env: Env, conditions: seq<Cond>, params: seq<Value>, row: Row) {
    forall i :: 0 <= i < |conditions| ==> Eval(env, conditions[i], params, row)
  }

  function AllPlaceholders(conditions: seq<Cond>): seq<nat> {
    if conditions == [] then []
    else AllPlaceholders(conditions[..|conditions| - 1]) + Placeholders(conditions[|conditions| - 1])
  }

  /** $1, $2, ... $count, each once and in order: every parameter has its own place. */
  predicate Numbered(conditions: seq<Cond>, count: nat) {
    AllPlaceholders(conditions) == seq(count, i => i + 1)
  }

  lemma {:induction false} PlaceholdersBounded(conditions: seq<Cond>, count: nat, i: nat)
    requires i < |conditions| && forall n :: n in AllPlaceholders(conditions) ==> 1 <= n <= count
    ensures forall n :: n in Placeholders(conditions[i]) ==> 1 <= n <= count
  {
    var k := |conditions| - 1;
    if i == k {
      forall n | n in Placeholders(conditions[i]) ensures n in AllPlaceholders(conditions) {}
    } else {
      forall n | n in AllPlaceholders(conditions[..k]) ensures n in AllPlaceholders(conditions) {}
      PlaceholdersBounded(conditions[..k], count, i);
    }
  }

  /** More parameters at the end change nothing about a condition whose placeholders are already served. */
  lemma EvalPrefix(env: Env, c: Cond, params: seq<Value>, more: seq<Value>, row: Row)
    requires forall n :: n in Placeholders(c) ==> 1 <= n <= |params|
    ensures Eval(env, c, params + more, row) <==> Eval(env, c, params, row)
  {
    assert c.n in Placeholders(c);
    assert Param(params + more, c.n) == Param(params, c.n);
    if c.HasStationOrArea? {
      assert c.m in Placeholders(c);
      assert Param(params + more, c.m) == Param(params, c.m);
    }
  }

  lemma ParamsMayGrow(conditions: seq<Cond>, params: seq<Value>, more: seq<Value>)
    requires Numbered(conditions, |params|)
    ensures forall env, row :: EvalAll(env, conditions, params + more, row) <==> EvalAll(env, conditions, params, row)
  {
    forall env, row ensures EvalAll(env, conditions, params + more, row) <==> EvalAll(env, conditions, params, row) {
      forall i | 0 <= i < |conditions|
        ensures Eval(env, conditions[i], params + more, row) <==> Eval(env, conditions[i], params, row)
      {
        PlaceholdersBounded(conditions, |params|, i);
        EvalPrefix(env, conditions[i], params, more, row);
      }
    }
  }

  /** Pushing one condition with its parameters narrows the selection by exactly that condition. */
  lemma Push(conditions: seq<Cond>, params: seq<Value>, c: Cond, values: seq<Value>)
    requires Numbered(conditions, |params|)
    requires Placeholders(c) == seq(|values|, i => |params| + i + 1)
    ensures Numbered(conditions + [c], |params + values|)
    ensures forall env, row :: EvalAll(env, conditions + [c], params + values, row) <==>
      EvalAll(env, conditions, params, row) && Eval(env, c, params + values, row)
  {
    var all, k := conditions + [c], |conditions|;
    assert all[..k] == conditions && all[k] == c;
    ParamsMayGrow(conditions, params, values);
    forall env, row
      ensures EvalAll(env, all, params + values, row) <==>
        EvalAll(env, conditions, params, row) && Eval(env, c, params + values, row)
    {
      assert EvalAll(env, conditions, params + values, row) <==> EvalAll(env, conditions, params, row);
      if EvalAll(env, conditions, params + values, row) && Eval(env, c, params + values, row) {
        forall i | 0 <= i < |all| ensures Eval(env, all[i], params + values, row) {
          if i < k { assert all[i] == conditions[i]; }
        }
      }
      if EvalAll(env, all, params + values, row) {
        forall i | 0 <= i < k ensures Eval(env, conditions[i], params + values, row) {
          assert all[i] == conditions[i];
        }
        assert Eval(env, all[k], params + values, row);
      }
    }
  }

  /** A text filter that is missing or empty asks for nothing. */
  predicate Given(s: Option<string>) { s.Some? && s.value != "" }

  /** A filter that is given adds one equation; i stays the number of the next placeholder. */
  method PushEquals(value: Option<Value>, column: string, conditions: seq<Cond>, params: seq<Value>, i: nat)
    returns (conditions': seq<Cond>, params': seq<Value>, i': nat)
    requires Numbered(conditions, |params|) && i == |params| + 1 && value != Some(Null)
    ensures Numbered(conditions', |params'|) && i' == |params'| + 1 && |conditions'| >= |conditions|
    ensures forall env, row :: EvalAll(env, conditions', params', row) <==>
      EvalAll(env, conditions, params, row) && (value.Some? ==> Column(row, column) == value.value)
  {
    conditions', params', i' := conditions, params, i;
    if value.Some? {
      Push(conditions, params, Equals(column, i), [value.value]);
      conditions', params', i' := conditions + [Equals(column, i)], params + [value.value], i + 1;
    }
  }

  /** The lower and the upper end of a date range. */
  predicate InBound(value: Option<int>, lower: bool, v: Value) {
    value.Some? ==> v.Stamp? && if lower then v.stamp >= value.value else v.stamp <= value.value
  }

  method PushBound(value: Option<int>, lower: bool, column: string, conditions: seq<Cond>, params: seq<Value>)
    returns (conditions': seq<Cond>, params': seq<Value>)
    requires Numbered(conditions, |params|)
    ensures Numbered(conditions', |params'|)
    ensures forall env, row :: EvalAll(env, conditions', params', row) <==>
      EvalAll(env, conditions, params, row) && InBound(value, lower, Column(row, column))
  {
    conditions', params' := conditions, params;
    if value.Some? {
      params' := params + [Stamp(value.value)];
      var c := if lower then AtLeast(column, |params'|) else AtMost(column, |params'|);
      conditions' := conditions + [c];
      Push(conditions, params, c, [Stamp(value.value)]);
    }
  }

  // ---- running a query ----

  function Where(env: Env, table: seq<Row>, conditions: seq<Cond>, params: seq<Value>): seq<Row> {
    if table == [] then []
    else
      var init, last := Where(env, table[..|table| - 1], conditions, params), table[|table| - 1];
      if EvalAll(env, conditions, params, last) then init + [last] else init
  }

  /** The rows a filter asks for, in the order of the table. */
  ghost function Selected(asked: Row -> bool, table: seq<Row>): seq<Row> {
    if table == [] then []
    else
      var init, last := Selected(asked, table[..|table| - 1]), table[|table| - 1];
      if asked(last) then init + [last] else init
  }

  /** A clause that means the filter selects what the filter asks for. */
  lemma {:induction false} WhereSelects(env: Env, asked: Row -> bool, table: seq<Row>, conditions: seq<Cond>,
                                        params: seq<Value>)
    requires forall row :: EvalAll(env, conditions, params, row) <==> asked(row)
    ensures Where(env, table, conditions, params) == Selected(asked, table)
  {
    if table != [] {
      WhereSelects(env, asked, table[..|table| - 1], conditions, params);
    }
  }

  lemma {:induction false} SelectedOnly(asked: Row -> bool, table: seq<Row>)
    ensures forall row :: row in Selected(asked, table) <==> row in table && asked(row)
  {
    if table != [] {
      SelectedOnly(asked, table[..|table| - 1]);
      assert table == table[..|table| - 1] + [table[|table| - 1]];
    }
  }

  function LimitOffset(rows: seq<Row>, limit: int, offset: int): seq<Row> {
    var from := if offset < 0 then 0 else if offset > |rows| then |rows| else offset;
    var left := |rows| - from;
    var size := if limit < 0 then 0 else if limit > left then left else limit;
    rows[from..from + size]
  }

  function NumberOf(v: Value): int { if v.Number? then v.number else 0 }

  /** SELECT ... WHERE ... ORDER BY ... LIMIT $limit OFFSET $offset over a table already in that order. */
  function Select(env: Env, table: seq<Row>, conditions: seq<Cond>, params: seq<Value>, limit: nat, offset: nat)
    : seq<Row>
  {
    LimitOffset(Where(env, table, conditions, params), NumberOf(Param(params, limit)), NumberOf(Param(params, offset)))
  }

  // ---- pages ----

  function PageOf(rows: seq<Row>, page: nat, pageSize: nat): seq<Row>
    requires page >= 1
  {
    LimitOffset(rows, pageSize, (page - 1) * pageSize)
  }

  /** Pages 1..count, one after the other. */
  function Pages(rows: seq<Row>, count: nat, pageSize: nat): seq<Row> {
    if count == 0 then [] else Pages(rows, count - 1, pageSize) + PageOf(rows, count, pageSize)
  }

  function Ceil(total: nat, size: nat): nat
    requires size >= 1
  {
    (total + size - 1) / size
  }

  function AtMostLength(rows: seq<Row>, n: nat): nat { if n > |rows| then |rows| else n }

  lemma TakeNext(rows: seq<Row>, offset: nat, size: nat)
    ensures rows[..AtMostLength(rows, offset)] + LimitOffset(rows, size, offset) ==
      rows[..AtMostLength(rows, offset + size)]
  {
  }

  lemma {:induction false} PagesArePrefix(rows: seq<Row>, count: nat, pageSize: nat)
    ensures Pages(rows, count, pageSize) == rows[..AtMostLength(rows, count * pageSize)]
  {
    if count > 0 {
      PagesArePrefix(rows, count - 1, pageSize);
      var offset := (count - 1) * pageSize;
      assert count * pageSize == offset + pageSize;
      TakeNext(rows, offset, pageSize);
    }
  }

  /** Pages 1..ceil(total / pageSize), one after the other, are exactly the selected rows; later pages are empty. */
  lemma PagesCoverAll(rows: seq<Row>, pageSize: nat)
    requires pageSize >= 1
    ensures Pages(rows, Ceil(|rows|, pageSize), pageSize) == rows
    ensures forall page :: page > Ceil(|rows|, pageSize) ==> PageOf(rows, page, pageSize) == []
  {
    var count := Ceil(|rows|, pageSize);
    PagesArePrefix(rows, count, pageSize);
    CeilCovers(|rows|, pageSize);
    assert rows[..|rows|] == rows;
    forall page | page > count ensures PageOf(rows, page, pageSize) == [] {
      MulGrows(count, page - 1, pageSize);
    }
  }

  lemma CeilCovers(total: nat, size: nat)
    requires size >= 1
    ensures Ceil(total, size) * size >= total
  {
    var n := total + size - 1;
    assert n == (n / size) * size + n % size;
  }

  lemma MulGrows(a: nat, b: nat, c: nat)
    requires a <= b
    ensures a * c <= b * c
  {
  }
}
