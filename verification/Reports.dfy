/** Report counts over one scope of applications, and that no application is lost or counted twice. */
module Reports {
  import opened Wrappers
  import opened Sql

  datatype Filters = Filters(from: Option<int>, to: Option<int>, festivalId: Option<string>,
    eventTypeId: Option<string>)

  predicate InScope(f: Filters, row: Row) {
    && (f.from.Some? ==> Column(row, "event_date").Stamp? && Column(row, "event_date").stamp >= f.from.value)
    && (f.to.Some? ==> Column(row, "event_date").Stamp? && Column(row, "event_date").stamp <= f.to.value)
    && (f.festivalId.Some? && f.festivalId.value != "" ==> Column(row, "festival_id") == Text(f.festivalId.value))
    && (f.eventTypeId.Some? && f.eventTypeId.value != "" ==> Column(row, "event_type_id") == Text(f.eventTypeId.value))
  }

  function GivenText(s: Option<string>): (v: Option<Value>)
    ensures v != Some(Null)
  {
    if Given(s) then Some(Text(s.value)) else None
  }

  /** The scope every report shares; each placeholder is params.length at the moment of its push. */
  method ScopeApplications(f: Filters) returns (conditions: seq<Cond>, params: seq<Value>)
    ensures Numbered(conditions, |params|)
    ensures forall env, row :: EvalAll(env, conditions, params, row) <==> InScope(f, row)
  {
    conditions, params := PushBound(f.from, true, "event_date", [], []);
    conditions, params := PushBound(f.to, false, "event_date", conditions, params);
    var i;
    conditions, params, i := PushEquals(GivenText(f.festivalId), "festival_id", conditions, params, |params| + 1);
    conditions, params, i := PushEquals(GivenText(f.eventTypeId), "event_type_id", conditions, params, i);
  }

  // ---- counting ----

  /** Applications in scope whose column holds the key. */
  function CountOf(f: Filters, table: seq<Row>, column: string, key: Value): nat {
    if table == [] then 0
    else
      var last := table[|table| - 1];
      CountOf(f, table[..|table| - 1], column, key) + (if InScope(f, last) && Column(last, column) == key then 1 else 0)
  }

  function Total(f: Filters, table: seq<Row>): nat {
    if table == [] then 0
    else Total(f, table[..|table| - 1]) + (if InScope(f, table[|table| - 1]) then 1 else 0)
  }

  datatype Group = Group(key: Value, count: nat)

  function Sum(groups: seq<Group>): nat {
    if groups == [] then 0 else Sum(groups[..|groups| - 1]) + groups[|groups| - 1].count
  }

  function Counts(f: Filters, table: seq<Row>, column: string, keys: seq<Value>): seq<Group> {
    seq(|keys|, i requires 0 <= i < |keys| => Group(keys[i], CountOf(f, table, column, keys[i])))
  }

  predicate Distinct(keys: seq<Value>) { forall i, j :: 0 <= i < j < |keys| ==> keys[i] != keys[j] }

  /** Every application in scope has one of the keys. */
  predicate Covers(f: Filters, table: seq<Row>, column: string, keys: seq<Value>) {
    forall r :: r in table && InScope(f, r) ==> Column(r, column) in keys
  }

  lemma {:induction false} SumOfNoRows(f: Filters, column: string, keys: seq<Value>)
    ensures Sum(Counts(f, [], column, keys)) == 0
  {
    if keys != [] {
      SumOfNoRows(f, column, keys[..|keys| - 1]);
      assert Counts(f, [], column, keys)[..|keys| - 1] == Counts(f, [], column, keys[..|keys| - 1]);
    }
  }

  /** One more row adds one to the sum when it is in scope and its key is listed. */
  lemma {:induction false} SumOfOneMore(f: Filters, table: seq<Row>, row: Row, column: string, keys: seq<Value>)
    requires Distinct(keys)
    ensures Sum(Counts(f, table + [row], column, keys)) ==
      Sum(Counts(f, table, column, keys)) + (if InScope(f, row) && Column(row, column) in keys then 1 else 0)
  {
    if keys != [] {
      var k := |keys| - 1;
      SumOfOneMore(f, table, row, column, keys[..k]);
      assert (table + [row])[..|table|] == table;
      assert Counts(f, table, column, keys)[..k] == Counts(f, table, column, keys[..k]);
      assert Counts(f, table + [row], column, keys)[..k] == Counts(f, table + [row], column, keys[..k]);
      assert keys == keys[..k] + [keys[k]];
    }
  }

  /** Conservation: over distinct keys that cover the scope, the counts add up to the total. */
  lemma {:induction false} CountsAddUp(f: Filters, table: seq<Row>, column: string, keys: seq<Value>)
    requires Distinct(keys) && Covers(f, table, column, keys)
    ensures Sum(Counts(f, table, column, keys)) == Total(f, table)
  {
    if table == [] {
      SumOfNoRows(f, column, keys);
    } else {
      var n := |table| - 1;
      CountsAddUp(f, table[..n], column, keys);
      SumOfOneMore(f, table[..n], table[n], column, keys);
      assert table == table[..n] + [table[n]];
    }
  }

  // ---- GROUP BY and LEFT JOIN ----

  /** The distinct keys of a list, in order of first appearance. */
  function Groups(keys: seq<Value>): (gs: seq<Value>)
    ensures Distinct(gs) && forall k :: k in gs <==> k in keys
  {
    if keys == [] then []
    else
      var init, last := Groups(keys[..|keys| - 1]), keys[|keys| - 1];
      assert keys == keys[..|keys| - 1] + [last];
      if last in init then init else init + [last]
  }

  lemma {:induction false} GroupsAppendSame(keys: seq<Value>, k: Value, n: nat)
    requires k !in keys && n >= 1
    ensures Groups(keys + seq(n, i => k)) == Groups(keys) + [k]
  {
    var all := keys + seq(n, i => k);
    assert all[..|all| - 1] == keys + seq(n - 1, i => k) && all[|all| - 1] == k;
    if n == 1 {
      assert keys + seq(0, i => k) == keys;
    } else {
      GroupsAppendSame(keys, k, n - 1);
    }
  }

  /** SELECT status, count(*) ... GROUP BY status: one row per status that occurs in scope. */
  function StatusesInScope(f: Filters, table: seq<Row>): seq<Value> {
    if table == [] then []
    else
      StatusesInScope(f, table[..|table| - 1])
      + (if InScope(f, table[|table| - 1]) then [Column(table[|table| - 1], "status")] else [])
  }

  lemma {:induction false} StatusesCover(f: Filters, table: seq<Row>)
    ensures forall r :: r in table && InScope(f, r) ==> Column(r, "status") in StatusesInScope(f, table)
  {
    if table != [] {
      StatusesCover(f, table[..|table| - 1]);
      assert table == table[..|table| - 1] + [table[|table| - 1]];
    }
  }

  /** A status is a group exactly when some application in scope has it. */
  lemma {:induction false} StatusesExactly(f: Filters, table: seq<Row>, status: Value)
    ensures status in Groups(StatusesInScope(f, table)) <==>
      exists i :: 0 <= i < |table| && InScope(f, table[i]) && Column(table[i], "status") == status
  {
    if table != [] {
      var n := |table| - 1;
      StatusesExactly(f, table[..n], status);
      if i :| 0 <= i < n && InScope(f, table[..n][i]) && Column(table[..n][i], "status") == status {
        assert table[i] == table[..n][i];
      }
      if i :| 0 <= i < n && InScope(f, table[i]) && Column(table[i], "status") == status {
        assert table[..n][i] == table[i];
      }
    }
  }

  /** A row of LEFT JOIN: the left key, and an application or none. */
  datatype Joined = Joined(key: Value, app: Option<Row>)

  /** The matches of one left row; the scope stands in the ON clause, so a row without any survives as a null row. */
  function Matches(env: Env, table: seq<Row>, conditions: seq<Cond>, params: seq<Value>, column: string, key: Value)
    : seq<Joined>
  {
    if table == [] then []
    else
      var last := table[|table| - 1];
      Matches(env, table[..|table| - 1], conditions, params, column, key)
      + (if Column(last, column) == key && EvalAll(env, conditions, params, last)
         then [Joined(key, Some(last))] else [])
  }

  function JoinOne(env: Env, table: seq<Row>, conditions: seq<Cond>, params: seq<Value>, column: string, key: Value)
    : seq<Joined>
  {
    var found := Matches(env, table, conditions, params, column, key);
    if found == [] then [Joined(key, None)] else found
  }

  function LeftJoin(env: Env, left: seq<Value>, table: seq<Row>, conditions: seq<Cond>, params: seq<Value>,
                    column: string): seq<Joined>
  {
    if left == [] then []
    else
      LeftJoin(env, left[..|left| - 1], table, conditions, params, column)
      + JoinOne(env, table, conditions, params, column, left[|left| - 1])
  }

  function KeysOf(rows: seq<Joined>): (keys: seq<Value>)
    ensures |keys| == |rows|
  {
    seq(|rows|, i requires 0 <= i < |rows| => rows[i].key)
  }

  /** count(a.id): null rows do not count. */
  function CountApps(rows: seq<Joined>, key: Value): nat {
    if rows == [] then 0
    else
      CountApps(rows[..|rows| - 1], key)
      + (if rows[|rows| - 1].key == key && rows[|rows| - 1].app.Some? then 1 else 0)
  }

  function GroupByKey(rows: seq<Joined>): seq<Group> {
    var keys := Groups(KeysOf(rows));
    seq(|keys|, i requires 0 <= i < |keys| => Group(keys[i], CountApps(rows, keys[i])))
  }

  lemma {:induction false} CountAppsConcat(a: seq<Joined>, b: seq<Joined>, key: Value)
    ensures CountApps(a + b, key) == CountApps(a, key) + CountApps(b, key)
  {
    if b == [] {
      assert a + b == a;
    } else {
      CountAppsConcat(a, b[..|b| - 1], key);
      assert (a + b)[..|a + b| - 1] == a + b[..|b| - 1];
    }
  }

  lemma CountAppsSnoc(rows: seq<Joined>, j: Joined, k: Value)
    ensures CountApps(rows + [j], k) == CountApps(rows, k) + (if j.key == k && j.app.Some? then 1 else 0)
  {
    assert (rows + [j])[..|rows|] == rows;
  }

  lemma {:induction false} MatchesCount(env: Env, f: Filters, table: seq<Row>, conditions: seq<Cond>,
          params: seq<Value>, column: string, key: Value, k: Value)
    requires forall row :: EvalAll(env, conditions, params, row) <==> InScope(f, row)
    ensures CountApps(Matches(env, table, conditions, params, column, key), k) ==
      if k == key then CountOf(f, table, column, key) else 0
  {
    if table != [] {
      var n := |table| - 1;
      MatchesCount(env, f, table[..n], conditions, params, column, key, k);
      var found := Matches(env, table[..n], conditions, params, column, key);
      CountAppsSnoc(found, Joined(key, Some(table[n])), k);
      assert found + [] == found;
    }
  }

  lemma JoinOneFits(env: Env, f: Filters, table: seq<Row>, conditions: seq<Cond>, params: seq<Value>, column: string,
          key: Value, k: Value)
    requires forall row :: EvalAll(env, conditions, params, row) <==> InScope(f, row)
    ensures var rows := JoinOne(env, table, conditions, params, column, key);
      CountApps(rows, k) == (if k == key then CountOf(f, table, column, key) else 0)
  {
    MatchesCount(env, f, table, conditions, params, column, key, k);
    assert [Joined(key, None)][..0] == [];
  }

  lemma GroupsExtend(a: seq<Joined>, b: seq<Joined>, groups: seq<Value>, key: Value)
    requires Groups(KeysOf(a)) == groups && key !in groups
    requires b != [] && KeysOf(b) == seq(|b|, i => key)
    ensures Groups(KeysOf(a + b)) == groups + [key]
  {
    assert KeysOf(a + b) == KeysOf(a) + seq(|b|, i => key);
    GroupsAppendSame(KeysOf(a), key, |b|);
  }

  /** Every left key is one group, in the order of the left table, zero counts included. */
  lemma {:induction false} LeftJoinGroups(env: Env, left: seq<Value>, table: seq<Row>, conditions: seq<Cond>,
          params: seq<Value>, column: string)
    requires Distinct(left)
    ensures Groups(KeysOf(LeftJoin(env, left, table, conditions, params, column))) == left
  {
    if left != [] {
      var n := |left| - 1;
      var init, key := left[..n], left[n];
      assert left == init + [key] && key !in init;
      LeftJoinGroups(env, init, table, conditions, params, column);
      var a := LeftJoin(env, init, table, conditions, params, column);
      var b := JoinOne(env, table, conditions, params, column, key);
      JoinOneKeys(env, table, conditions, params, column, key);
      GroupsExtend(a, b, init, key);
      LeftJoinStep(env, init, key, table, conditions, params, column);
    }
  }

  lemma LeftJoinStep(env: Env, init: seq<Value>, key: Value, table: seq<Row>, conditions: seq<Cond>,
          params: seq<Value>, column: string)
    ensures LeftJoin(env, init + [key], table, conditions, params, column) ==
      LeftJoin(env, init, table, conditions, params, column) + JoinOne(env, table, conditions, params, column, key)
  {
    assert (init + [key])[..|init|] == init;
  }

  lemma {:induction false} MatchesKeys(env: Env, table: seq<Row>, conditions: seq<Cond>, params: seq<Value>,
          column: string, key: Value)
    ensures forall j :: j in Matches(env, table, conditions, params, column, key) ==> j.key == key
  {
    if table != [] { MatchesKeys(env, table[..|table| - 1], conditions, params, column, key); }
  }

  lemma JoinOneKeys(env: Env, table: seq<Row>, conditions: seq<Cond>, params: seq<Value>, column: string, key: Value)
    ensures var rows := JoinOne(env, table, conditions, params, column, key);
      rows != [] && KeysOf(rows) == seq(|rows|, i => key)
  {
    MatchesKeys(env, table, conditions, params, column, key);
    var rows := JoinOne(env, table, conditions, params, column, key);
    assert forall i :: 0 <= i < |rows| ==> rows[i] in rows;
  }

  /** Each group counts exactly its applications in scope. */
  lemma {:induction false} LeftJoinCounts(env: Env, f: Filters, left: seq<Value>, table: seq<Row>,
          conditions: seq<Cond>, params: seq<Value>, column: string, k: Value)
    requires Distinct(left)
    requires forall row :: EvalAll(env, conditions, params, row) <==> InScope(f, row)
    ensures CountApps(LeftJoin(env, left, table, conditions, params, column), k) ==
      if k in left then CountOf(f, table, column, k) else 0
  {
    if left != [] {
      var n := |left| - 1;
      var init, key := left[..n], left[n];
      LeftJoinCounts(env, f, init, table, conditions, params, column, k);
      JoinOneFits(env, f, table, conditions, params, column, key, k);
      CountAppsConcat(LeftJoin(env, init, table, conditions, params, column),
        JoinOne(env, table, conditions, params, column, key), k);
      assert left == init + [key] && key !in init;
    }
  }

  // ---- the reports ----

  lemma {:induction false} WhereCounts(env: Env, f: Filters, table: seq<Row>, conditions: seq<Cond>, params: seq<Value>)
    requires forall row :: EvalAll(env, conditions, params, row) <==> InScope(f, row)
    ensures |Where(env, table, conditions, params)| == Total(f, table)
  {
    if table != [] {
      WhereCounts(env, f, table[..|table| - 1], conditions, params);
    }
  }

  /** Total applications and their breakdown by status: the breakdown adds up. */
  method Summary(env: Env, f: Filters, table: seq<Row>) returns (total: nat, byStatus: seq<Group>)
    ensures total == Total(f, table) == Sum(byStatus)
    ensures byStatus == Counts(f, table, "status", Groups(StatusesInScope(f, table)))
  {
    var conditions, params := ScopeApplications(f);
    WhereCounts(env, f, table, conditions, params);
    total := |Where(env, table, conditions, params)|;
    byStatus := Counts(f, table, "status", Groups(StatusesInScope(f, table)));
    StatusesCover(f, table);
    CountsAddUp(f, table, "status", Groups(StatusesInScope(f, table)));
  }

  /** festivals or event types LEFT JOIN applications ON key AND scope GROUP BY key. */
  method ByKey(env: Env, f: Filters, left: seq<Value>, table: seq<Row>, column: string) returns (groups: seq<Group>)
    requires Distinct(left)
    ensures groups == Counts(f, table, column, left)
    ensures Covers(f, table, column, left) ==> Sum(groups) == Total(f, table)
  {
    var conditions, params := ScopeApplications(f);
    var rows := LeftJoin(env, left, table, conditions, params, column);
    groups := GroupByKey(rows);
    LeftJoinGroups(env, left, table, conditions, params, column);
    forall i | 0 <= i < |left| ensures groups[i] == Group(left[i], CountOf(f, table, column, left[i])) {
      assert left[i] in left;
      LeftJoinCounts(env, f, left, table, conditions, params, column, left[i]);
    }
    assert groups == Counts(f, table, column, left);
    if Covers(f, table, column, left) { CountsAddUp(f, table, column, left); }
  }

  /** The total is the sum of the counts by status, by festival and by event type, in every database and scope. */
  lemma Conservation(f: Filters, table: seq<Row>, festivals: seq<Value>, eventTypes: seq<Value>)
    requires Distinct(festivals) && Distinct(eventTypes)
    requires forall r :: r in table ==>
      Column(r, "festival_id") in festivals && Column(r, "event_type_id") in eventTypes
    ensures Total(f, table) == Sum(Counts(f, table, "status", Groups(StatusesInScope(f, table))))
    ensures Total(f, table) == Sum(Counts(f, table, "festival_id", festivals))
    ensures Total(f, table) == Sum(Counts(f, table, "event_type_id", eventTypes))
  {
    StatusesCover(f, table);
    CountsAddUp(f, table, "status", Groups(StatusesInScope(f, table)));
    CountsAddUp(f, table, "festival_id", festivals);
    CountsAddUp(f, table, "event_type_id", eventTypes);
  }
}
