/** Route conflicts: who conflicts with whom, and the table that keeps one row per pair. */
module Conflicts {
  import opened Wrappers
  import C = Casework

  type AppId = nat

  datatype Severity = Low | Medium | High

  datatype Resolution = Unresolved | Allowed | TimeChanged | RouteChanged | Rejected

  datatype Error = NotFound | Forbidden | BadRequest

  datatype Config = Config(high: real, medium: real)

  /** What detection reads of an application; path is None until the active route is calculated. */
  datatype App = App(
    id: AppId,
    organizer: nat,
    date: int,
    startTime: int,
    endTime: int,
    status: C.Status,
    path: Option<nat>)

  datatype Row = Row(id: nat, application: AppId, conflicting: AppId, overlap: real, severity: Severity,
    resolution: Resolution)

  datatype Candidate = Candidate(other: AppId, overlap: real)

  datatype State = State(rows: seq<Row>, nextId: nat)

  function SeverityFor(cfg: Config, overlap: real): Severity {
    if overlap >= cfg.high then High else if overlap >= cfg.medium then Medium else Low
  }

  /** Which overlap is how severe, whatever order the two limits are in. */
  lemma SeverityExactly(cfg: Config, overlap: real)
    ensures SeverityFor(cfg, overlap) == High <==> overlap >= cfg.high
    ensures SeverityFor(cfg, overlap) == Medium <==> cfg.medium <= overlap < cfg.high
    ensures SeverityFor(cfg, overlap) == Low <==> overlap < cfg.high && overlap < cfg.medium
  {
  }

  // ---- candidates ----

  /** The statuses worth a conflict: not a draft, not turned down, not over. */
  predicate Active(s: C.Status) {
    s in {C.Status.Submitted, C.Status.UnderReview, C.Status.ChangesRequested, C.Status.Resubmitted,
          C.Status.Approved, C.Status.Live}
  }

  /** other.start_time < a.end_time AND other.end_time > a.start_time, on the same date. */
  predicate TimesOverlap(a: App, other: App) {
    other.date == a.date && other.startTime < a.endTime && other.endTime > a.startTime
  }

  ghost predicate HappensAt(a: App, date: int, t: int) { a.date == date && a.startTime <= t < a.endTime }

  /** The test is symmetric, and true exactly when the two events share an instant. */
  lemma TimesOverlapExactly(a: App, b: App)
    requires a.startTime < a.endTime && b.startTime < b.endTime
    ensures TimesOverlap(a, b) <==> TimesOverlap(b, a)
    ensures TimesOverlap(a, b) <==> exists date, t :: HappensAt(a, date, t) && HappensAt(b, date, t)
  {
    if TimesOverlap(a, b) {
      var t := if a.startTime >= b.startTime then a.startTime else b.startTime;
      assert HappensAt(a, a.date, t) && HappensAt(b, a.date, t);
    }
  }

  /** The metres of a's path inside the buffer around the other's: any function of the two routes. */
  type Overlap = (nat, nat) -> real

  predicate IsCandidate(overlap: Overlap, a: App, other: App) {
    && other.id != a.id && TimesOverlap(a, other) && Active(a.status) && Active(other.status)
    && a.path.Some? && other.path.Some? && overlap(a.path.value, other.path.value) > 0.0
  }

  function Candidates(overlap: Overlap, a: App, apps: seq<App>): seq<Candidate> {
    if apps == [] then []
    else
      var init, other := Candidates(overlap, a, apps[..|apps| - 1]), apps[|apps| - 1];
      if !IsCandidate(overlap, a, other) then init
      else init + [Candidate(other.id, overlap(a.path.value, other.path.value))]
  }

  predicate DistinctIds(apps: seq<App>) { forall i, j :: 0 <= i < j < |apps| ==> apps[i].id != apps[j].id }

  /** No candidate is listed twice, and none is the application itself. */
  predicate ProperList(me: AppId, cs: seq<Candidate>) {
    && (forall i, j :: 0 <= i < j < |cs| ==> cs[i].other != cs[j].other)
    && (forall i :: 0 <= i < |cs| ==> cs[i].other != me)
  }

  lemma {:induction false} CandidatesProper(overlap: Overlap, a: App, apps: seq<App>)
    requires DistinctIds(apps)
    ensures ProperList(a.id, Candidates(overlap, a, apps))
    ensures forall c :: c in Candidates(overlap, a, apps) ==>
      exists i :: 0 <= i < |apps| && apps[i].id == c.other && IsCandidate(overlap, a, apps[i])
  {
    if apps != [] {
      var n := |apps| - 1;
      CandidatesProper(overlap, a, apps[..n]);
      var init, all := Candidates(overlap, a, apps[..n]), Candidates(overlap, a, apps);
      forall c | c in all
        ensures exists i :: 0 <= i < |apps| && apps[i].id == c.other && IsCandidate(overlap, a, apps[i])
      {
        if c in init {
          var i :| 0 <= i < n && apps[..n][i].id == c.other && IsCandidate(overlap, a, apps[..n][i]);
          assert apps[i].id == c.other;
        } else {
          assert apps[n].id == c.other && IsCandidate(overlap, a, apps[n]);
        }
      }
      forall i | 0 <= i < |init| ensures init[i].other != apps[n].id {
        assert init[i] in init;
      }
    }
  }

  predicate Inactive(s: C.Status) { s == C.Status.Draft || s == C.Status.Rejected || s == C.Status.Completed }

  /** Another application, on the same date, at an overlapping time, both active and both with paths that come close. */
  predicate InConflict(overlap: Overlap, a: App, other: App) {
    && other.id != a.id && other.date == a.date
    && other.startTime < a.endTime && a.startTime < other.endTime
    && !Inactive(a.status) && !Inactive(other.status)
    && a.path.Some? && other.path.Some? && overlap(a.path.value, other.path.value) > 0.0
  }

  /** The candidate is this one of the applications, with its own overlap. */
  predicate Is(overlap: Overlap, a: App, other: App, c: Candidate) {
    InConflict(overlap, a, other) && c.other == other.id && c.overlap == overlap(a.path.value, other.path.value)
  }

  /** The list has exactly the applications in conflict, each with its own overlap. */
  lemma {:induction false} CandidatesExactly(overlap: Overlap, a: App, apps: seq<App>, c: Candidate)
    ensures c in Candidates(overlap, a, apps) <==> exists i :: 0 <= i < |apps| && Is(overlap, a, apps[i], c)
  {
    if apps != [] {
      var n := |apps| - 1;
      CandidatesExactly(overlap, a, apps[..n], c);
      if i :| 0 <= i < n && Is(overlap, a, apps[..n][i], c) { assert Is(overlap, a, apps[i], c); }
      if i :| 0 <= i < n && Is(overlap, a, apps[i], c) { assert Is(overlap, a, apps[..n][i], c); }
      assert InConflict(overlap, a, apps[n]) <==> IsCandidate(overlap, a, apps[n]);
    }
  }

  // ---- the upsert ----

  predicate OfPair(r: Row, x: AppId, y: AppId) {
    (r.application == x && r.conflicting == y) || (r.application == y && r.conflicting == x)
  }

  /** The first row of the pair, in either orientation; |rows| if there is none. */
  function Find(rows: seq<Row>, x: AppId, y: AppId): (i: nat)
    ensures i <= |rows| && (i < |rows| ==> OfPair(rows[i], x, y))
    ensures forall j :: 0 <= j < i ==> !OfPair(rows[j], x, y)
  {
    if rows == [] || OfPair(rows[0], x, y) then 0 else 1 + Find(rows[1..], x, y)
  }

  function Upsert(cfg: Config, st: State, me: AppId, c: Candidate): State {
    var i := Find(st.rows, me, c.other);
    var severity := SeverityFor(cfg, c.overlap);
    if i < |st.rows| then st.(rows := st.rows[i := st.rows[i].(overlap := c.overlap, severity := severity)])
    else State(st.rows + [Row(st.nextId, me, c.other, c.overlap, severity, Unresolved)], st.nextId + 1)
  }

  function Detect(cfg: Config, st: State, me: AppId, cs: seq<Candidate>): State {
    if cs == [] then st else Upsert(cfg, Detect(cfg, st, me, cs[..|cs| - 1]), me, cs[|cs| - 1])
  }

  /** The row with this id gets the resolution; None when there is no such row. */
  function Resolve(st: State, id: nat, resolution: Resolution): Option<State> {
    if exists r :: r in st.rows && r.id == id then
      Some(st.(rows := seq(|st.rows|, i requires 0 <= i < |st.rows| =>
        if st.rows[i].id == id then st.rows[i].(resolution := resolution) else st.rows[i])))
    else None
  }

  // ---- what every run keeps ----

  /** No two rows are about the same two applications, whichever of them each was detected for. */
  predicate OneRowEach(rows: seq<Row>) {
    forall i, j :: 0 <= i < j < |rows| ==>
      && !(rows[i].application == rows[j].application && rows[i].conflicting == rows[j].conflicting)
      && !(rows[i].application == rows[j].conflicting && rows[i].conflicting == rows[j].application)
  }

  predicate Sound(cfg: Config, st: State) {
    && OneRowEach(st.rows)
    && (forall i :: 0 <= i < |st.rows| ==> st.rows[i].severity == SeverityFor(cfg, st.rows[i].overlap))
    && (forall i :: 0 <= i < |st.rows| ==>
          st.rows[i].application != st.rows[i].conflicting && st.rows[i].id < st.nextId)
    && (forall i, j :: 0 <= i < j < |st.rows| ==> st.rows[i].id != st.rows[j].id)
  }

  lemma SoundUpsert(cfg: Config, st: State, me: AppId, c: Candidate)
    requires Sound(cfg, st) && me != c.other
    ensures Sound(cfg, Upsert(cfg, st, me, c))
  {
  }

  lemma {:induction false} SoundDetect(cfg: Config, st: State, me: AppId, cs: seq<Candidate>)
    requires Sound(cfg, st) && forall i :: 0 <= i < |cs| ==> cs[i].other != me
    ensures Sound(cfg, Detect(cfg, st, me, cs))
  {
    if cs != [] {
      SoundDetect(cfg, st, me, cs[..|cs| - 1]);
      SoundUpsert(cfg, Detect(cfg, st, me, cs[..|cs| - 1]), me, cs[|cs| - 1]);
    }
  }

  lemma SoundResolve(cfg: Config, st: State, id: nat, resolution: Resolution)
    requires Sound(cfg, st) && Resolve(st, id, resolution).Some?
    ensures Sound(cfg, Resolve(st, id, resolution).value)
  {
  }

  datatype Call = DetectFor(me: AppId, candidates: seq<Candidate>) | ResolveTo(id: nat, resolution: Resolution)

  function Run(cfg: Config, calls: seq<Call>): State {
    if calls == [] then State([], 0)
    else
      var st, call := Run(cfg, calls[..|calls| - 1]), calls[|calls| - 1];
      match call
      case DetectFor(me, cs) => Detect(cfg, st, me, cs)
      case ResolveTo(id, resolution) => var r := Resolve(st, id, resolution); if r.Some? then r.value else st
  }

  /** One row per unordered pair and severities that fit, after any calls from either side. */
  lemma {:induction false} SoundRun(cfg: Config, calls: seq<Call>)
    requires forall i :: 0 <= i < |calls| && calls[i].DetectFor? ==> ProperList(calls[i].me, calls[i].candidates)
    ensures Sound(cfg, Run(cfg, calls))
  {
    if calls != [] {
      var n := |calls| - 1;
      SoundRun(cfg, calls[..n]);
      match calls[n]
      case DetectFor(me, cs) => SoundDetect(cfg, Run(cfg, calls[..n]), me, cs);
      case ResolveTo(id, resolution) =>
        if Resolve(Run(cfg, calls[..n]), id, resolution).Some? {
          SoundResolve(cfg, Run(cfg, calls[..n]), id, resolution);
        }
    }
  }

  // ---- what one detection does ----

  /** The row is a pair of me and a listed candidate. */
  predicate Touches(r: Row, me: AppId, cs: seq<Candidate>) {
    exists i :: 0 <= i < |cs| && OfPair(r, me, cs[i].other)
  }

  /** Old rows keep their place, their pair and their resolution; rows of other pairs keep everything. */
  predicate Preserves(before: seq<Row>, after: seq<Row>, me: AppId, cs: seq<Candidate>) {
    && |before| <= |after|
    && forall i :: 0 <= i < |before| ==>
         && after[i] == before[i].(overlap := after[i].overlap, severity := after[i].severity)
         && (!Touches(before[i], me, cs) ==> after[i] == before[i])
  }

  lemma {:induction false} DetectPreserves(cfg: Config, st: State, me: AppId, cs: seq<Candidate>)
    ensures Preserves(st.rows, Detect(cfg, st, me, cs).rows, me, cs)
  {
    if cs != [] {
      var n := |cs| - 1;
      var mid, end := Detect(cfg, st, me, cs[..n]), Detect(cfg, st, me, cs);
      DetectPreserves(cfg, st, me, cs[..n]);
      forall i | 0 <= i < |st.rows|
        ensures end.rows[i] == st.rows[i].(overlap := end.rows[i].overlap, severity := end.rows[i].severity)
        ensures !Touches(st.rows[i], me, cs) ==> end.rows[i] == st.rows[i]
      {
        TouchesPrefix(st.rows[i], me, cs, n);
        if !Touches(st.rows[i], me, cs) {
          assert !OfPair(st.rows[i], me, cs[n].other);
        }
      }
    }
  }

  lemma TouchesPrefix(r: Row, me: AppId, cs: seq<Candidate>, n: nat)
    requires n <= |cs|
    ensures Touches(r, me, cs[..n]) ==> Touches(r, me, cs)
  {
    if i :| 0 <= i < n && OfPair(r, me, cs[..n][i].other) {
      assert OfPair(r, me, cs[i].other);
    }
  }

  /** The row now stored for a pair. */
  predicate Stores(cfg: Config, rows: seq<Row>, me: AppId, c: Candidate) {
    var i := Find(rows, me, c.other);
    i < |rows| && rows[i].overlap == c.overlap && rows[i].severity == SeverityFor(cfg, c.overlap)
  }

  lemma {:induction false} FindStable(rows: seq<Row>, after: seq<Row>, x: AppId, y: AppId)
    requires |rows| <= |after| && Find(rows, x, y) < |rows|
    requires forall i :: 0 <= i < |rows| ==>
      after[i].application == rows[i].application && after[i].conflicting == rows[i].conflicting
    ensures Find(after, x, y) == Find(rows, x, y)
  {
    var i, j := Find(rows, x, y), Find(after, x, y);
    assert OfPair(after[i], x, y);
    assert j < |rows| ==> (OfPair(rows[j], x, y) <==> OfPair(after[j], x, y));
  }

  lemma UpsertStores(cfg: Config, st: State, me: AppId, c: Candidate)
    ensures Stores(cfg, Upsert(cfg, st, me, c).rows, me, c)
  {
    var r := Upsert(cfg, st, me, c);
    var i := Find(st.rows, me, c.other);
    assert OfPair(r.rows[i], me, c.other);
    assert forall j :: 0 <= j < i ==> r.rows[j] == st.rows[j];
    assert Find(r.rows, me, c.other) == i by {
      var k := Find(r.rows, me, c.other);
      assert k <= i;
    }
  }

  /** Upserting one candidate leaves the row of another alone. */
  lemma UpsertKeeps(cfg: Config, st: State, me: AppId, c: Candidate, d: Candidate)
    requires Stores(cfg, st.rows, me, d) && c.other != d.other && me != c.other && me != d.other
    ensures Stores(cfg, Upsert(cfg, st, me, c).rows, me, d)
  {
    var r := Upsert(cfg, st, me, c);
    FindStable(st.rows, r.rows, me, d.other);
  }

  /** After a detection every candidate's pair has a row with the overlap just measured. */
  lemma {:induction false} DetectStores(cfg: Config, st: State, me: AppId, cs: seq<Candidate>, k: nat)
    requires ProperList(me, cs) && k < |cs|
    ensures Stores(cfg, Detect(cfg, st, me, cs).rows, me, cs[k])
  {
    var n := |cs| - 1;
    var mid := Detect(cfg, st, me, cs[..n]);
    if k == n {
      UpsertStores(cfg, mid, me, cs[n]);
    } else {
      DetectStores(cfg, st, me, cs[..n], k);
      UpsertKeeps(cfg, mid, me, cs[n], cs[k]);
    }
  }

  lemma UpsertIdle(cfg: Config, st: State, me: AppId, c: Candidate)
    requires Stores(cfg, st.rows, me, c)
    ensures Upsert(cfg, st, me, c) == st
  {
  }

  lemma {:induction false} DetectIdle(cfg: Config, st: State, me: AppId, cs: seq<Candidate>)
    requires forall k :: 0 <= k < |cs| ==> Stores(cfg, st.rows, me, cs[k])
    ensures Detect(cfg, st, me, cs) == st
  {
    if cs != [] {
      DetectIdle(cfg, st, me, cs[..|cs| - 1]);
      UpsertIdle(cfg, st, me, cs[|cs| - 1]);
    }
  }

  /** Repeating a detection changes nothing. */
  lemma DetectIdempotent(cfg: Config, st: State, me: AppId, cs: seq<Candidate>)
    requires ProperList(me, cs)
    ensures Detect(cfg, Detect(cfg, st, me, cs), me, cs) == Detect(cfg, st, me, cs)
  {
    var once := Detect(cfg, st, me, cs);
    forall k | 0 <= k < |cs| ensures Stores(cfg, once.rows, me, cs[k]) {
      DetectStores(cfg, st, me, cs, k);
    }
    DetectIdle(cfg, once, me, cs);
  }

  /** The row of a pair after a detection, whichever of the two it was first detected for. */
  predicate HasRow(rows: seq<Row>, x: AppId, y: AppId, overlap: real) {
    exists i :: 0 <= i < |rows| && rows[i].overlap == overlap
      && ((rows[i].application == x && rows[i].conflicting == y)
          || (rows[i].application == y && rows[i].conflicting == x))
  }

  /** Every application in conflict with this one has a row with their overlap. */
  predicate AllStored(rows: seq<Row>, overlap: Overlap, apps: seq<App>, a: App) {
    forall i :: 0 <= i < |apps| && InConflict(overlap, a, apps[i]) ==>
      HasRow(rows, a.id, apps[i].id, overlap(a.path.value, apps[i].path.value))
  }

  /** After a detection all are stored, however many there are. */
  lemma DetectedAll(cfg: Config, st: State, overlap: Overlap, apps: seq<App>, a: App)
    requires DistinctIds(apps)
    ensures AllStored(Detect(cfg, st, a.id, Candidates(overlap, a, apps)).rows, overlap, apps, a)
  {
    var rows := Detect(cfg, st, a.id, Candidates(overlap, a, apps)).rows;
    forall i | 0 <= i < |apps| && InConflict(overlap, a, apps[i])
      ensures HasRow(rows, a.id, apps[i].id, overlap(a.path.value, apps[i].path.value))
    {
      DetectedOne(cfg, st, overlap, apps, a, i);
    }
  }

  lemma DetectedOne(cfg: Config, st: State, overlap: Overlap, apps: seq<App>, a: App, i: nat)
    requires DistinctIds(apps) && i < |apps| && InConflict(overlap, a, apps[i])
    ensures HasRow(Detect(cfg, st, a.id, Candidates(overlap, a, apps)).rows, a.id, apps[i].id,
                   overlap(a.path.value, apps[i].path.value))
  {
    var cs, c := Candidates(overlap, a, apps), Candidate(apps[i].id, overlap(a.path.value, apps[i].path.value));
    assert Is(overlap, a, apps[i], c);
    CandidatesExactly(overlap, a, apps, c);
    CandidatesProper(overlap, a, apps);
    var k :| 0 <= k < |cs| && cs[k] == c;
    DetectStores(cfg, st, a.id, cs, k);
    var rows := Detect(cfg, st, a.id, cs).rows;
    assert OfPair(rows[Find(rows, a.id, c.other)], a.id, c.other);
  }

  /** A row that was not there is of a listed candidate, detected for this application and unresolved. */
  lemma {:induction false} DetectAdds(cfg: Config, st: State, me: AppId, cs: seq<Candidate>, i: nat)
    requires |st.rows| <= i < |Detect(cfg, st, me, cs).rows|
    ensures var r := Detect(cfg, st, me, cs).rows[i];
      r.application == me && r.resolution == Unresolved && exists k :: 0 <= k < |cs| && cs[k].other == r.conflicting
  {
    var n := |cs| - 1;
    var mid := Detect(cfg, st, me, cs[..n]);
    if i < |mid.rows| {
      DetectAdds(cfg, st, me, cs[..n], i);
      var k :| 0 <= k < n && cs[..n][k].other == mid.rows[i].conflicting;
      assert cs[k].other == mid.rows[i].conflicting;
    } else {
      assert cs[n].other == Detect(cfg, st, me, cs).rows[i].conflicting;
    }
  }

  // ---- the service ----

  class Table {
    var rows: seq<Row>
    var nextId: nat

    ghost function Snapshot(): State
      reads this
    {
      State(rows, nextId)
    }

    constructor ()
      ensures Snapshot() == State([], 0)
    {
      rows, nextId := [], 0;
    }

    /** SELECT id ... WHERE the pair matches in either orientation: scans for the first row. */
    method FindExisting(x: AppId, y: AppId) returns (i: nat)
      ensures i == Find(rows, x, y)
    {
      i := 0;
      while i < |rows| && !OfPair(rows[i], x, y)
        invariant i <= |rows|
        invariant forall j :: 0 <= j < i ==> !OfPair(rows[j], x, y)
      {
        i := i + 1;
      }
    }

    /** Refused for an unknown application, to a stranger, or without a route; else one upsert per candidate. */
    method DetectForApplication(cfg: Config, overlap: Overlap, apps: seq<App>, id: AppId, user: nat, staff: bool)
      returns (thrown: Option<Error>)
      requires DistinctIds(apps)
      modifies this
      ensures (forall i :: 0 <= i < |apps| ==> apps[i].id != id) ==>
        thrown == Some(NotFound) && Snapshot() == old(Snapshot())
      ensures forall i :: 0 <= i < |apps| && apps[i].id == id ==>
        if !staff && apps[i].organizer != user then thrown == Some(Forbidden) && Snapshot() == old(Snapshot())
        else if apps[i].path.None? then thrown == Some(BadRequest) && Snapshot() == old(Snapshot())
        else thrown.None? && Snapshot() == Detect(cfg, old(Snapshot()), id, Candidates(overlap, apps[i], apps))
      ensures thrown.None? ==>
        forall i :: 0 <= i < |apps| && apps[i].id == id ==> AllStored(rows, overlap, apps, apps[i])
    {
      var at := 0;
      while at < |apps| && apps[at].id != id
        invariant at <= |apps| && forall i :: 0 <= i < at ==> apps[i].id != id
      {
        at := at + 1;
      }
      if at == |apps| { return Some(NotFound); }
      var me := apps[at];
      if !staff && me.organizer != user { return Some(Forbidden); }
      if me.path.None? { return Some(BadRequest); }
      var candidates := Candidates(overlap, me, apps);
      Store(cfg, id, candidates);
      DetectedAll(cfg, old(Snapshot()), overlap, apps, me);
      return None;
    }

    /** One upsert per candidate. */
    method Store(cfg: Config, me: AppId, candidates: seq<Candidate>)
      modifies this
      ensures Snapshot() == Detect(cfg, old(Snapshot()), me, candidates)
    {
      for k := 0 to |candidates|
        invariant Snapshot() == Detect(cfg, old(Snapshot()), me, candidates[..k])
      {
        var candidate := candidates[k];
        var severity := SeverityFor(cfg, candidate.overlap);
        var i := FindExisting(me, candidate.other);
        if i < |rows| {
          rows := rows[i := rows[i].(overlap := candidate.overlap, severity := severity)];
        } else {
          rows := rows + [Row(nextId, me, candidate.other, candidate.overlap, severity, Unresolved)];
          nextId := nextId + 1;
        }
        assert candidates[..k + 1][..k] == candidates[..k];
      }
      assert candidates[..|candidates|] == candidates;
    }

    /** UPDATE ... WHERE id = $3 RETURNING id. */
    method ResolveConflict(id: nat, resolution: Resolution) returns (thrown: Option<Error>)
      modifies this`rows
      ensures thrown.None? ==> Resolve(old(Snapshot()), id, resolution) == Some(Snapshot())
      ensures thrown.None? <==> exists i :: 0 <= i < |old(rows)| && old(rows)[i].id == id
      ensures |rows| == |old(rows)| && forall i :: 0 <= i < |rows| ==>
        rows[i] == if old(rows)[i].id == id then old(rows)[i].(resolution := resolution) else old(rows)[i]
      ensures thrown.Some? ==>
        Resolve(old(Snapshot()), id, resolution).None? && rows == old(rows) && thrown.value == NotFound
    {
      var found := false;
      var before := rows;
      for i := 0 to |before|
        invariant |rows| == |before|
        invariant found <==> exists j :: 0 <= j < i && before[j].id == id
        invariant forall j :: 0 <= j < i ==>
          rows[j] == if before[j].id == id then before[j].(resolution := resolution) else before[j]
        invariant forall j :: i <= j < |before| ==> rows[j] == before[j]
      {
        if before[i].id == id {
          found := true;
          rows := rows[i := before[i].(resolution := resolution)];
        }
      }
      if !found {
        assert rows == before;
        return Some(NotFound);
      }
      ghost var j :| 0 <= j < |before| && before[j].id == id;
      assert before[j] in before;
      assert rows == Resolve(State(before, nextId), id, resolution).value.rows;
      return None;
    }
  }
}
