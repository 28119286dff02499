/**
 * One application and every row that hangs off it - approvals, status history,
 * permit, station suggestions, live procession, cache key - together with the
 * effect each service call has on them. A call that throws leaves the rows as
 * they were (its transaction rolls back).
 */
module Casework {
  import opened Wrappers

  type UserId = nat
  type StationId = nat
  type VersionId = nat
  type FestivalId = nat
  type Time = int

  /** The other columns an edit can change, as one value: event type, day, crowd, vehicles, names and texts. */
  type Details = string

  datatype Status = Draft | Submitted | UnderReview | ChangesRequested | Resubmitted
                  | Approved | Rejected | Live | Completed

  datatype Decision = Pending | Approved | Rejected | ChangesRequested

  /** What a station may decide: the request validator refuses PENDING. */
  type Verdict = d: Decision | d != Decision.Pending witness Decision.Approved

  datatype LiveStatus = NotStarted | Live | GpsWarning | GpsLost | Completed

  datatype DeviationStatus = Normal | Warning | Deviation

  datatype Alert = GpsWarning | GpsLost | GpsRecovered | RouteDeviation | RouteDeviationResolved

  /** What the watchdog raises. */
  type SignalAlert = a: Alert | a == Alert.GpsWarning || a == Alert.GpsLost witness Alert.GpsWarning

  datatype Error = NotFound | Forbidden | BadRequest | Conflict | Database

  datatype Approval = Approval(decision: Decision, reason: string)

  datatype HistoryRow = HistoryRow(from: Option<Status>, to: Status)

  datatype Permit = Permit(number: string, route: VersionId)

  datatype Position = Position(lat: real, lng: real)

  /** A row of live_locations, with the distance from the route that was active when it came in. */
  datatype Fix = Fix(lat: real, lng: real, distance: real)

  /** last_latitude, last_longitude and last_update_at are only ever written together. */
  datatype Seen = Seen(lat: real, lng: real, at: Time)

  datatype Procession = Procession(status: LiveStatus, deviation: DeviationStatus, seen: Option<Seen>)

  /** The part of the broadcast that Redis and the Postgres fallback have in common. */
  datatype Location = Location(lat: real, lng: real, deviation: DeviationStatus)

  /** distance: metres from a route's path to a position, any function; 0 in practice for a route without a path. */
  datatype Config = Config(
    warningAge: int,
    lostAge: int,
    warningMeters: real,
    alertMeters: real,
    distance: (Option<VersionId>, Position) -> real)

  datatype Dossier = Dossier(
    organizer: UserId,
    festival: FestivalId,
    year: nat,
    startTime: int,
    endTime: int,
    details: Details,
    status: Status,
    number: Option<string>,
    route: Option<VersionId>,
    suggestions: map<(StationId, VersionId), bool>,
    approvals: map<StationId, Approval>,
    history: seq<HistoryRow>,
    permits: seq<Permit>,
    procession: Option<Procession>,
    fixes: seq<Fix>,
    cache: Option<Location>,
    alerts: seq<Alert>,
    owed: seq<SignalAlert>,
    clock: Time)

  // ---- applications ----

  /** VARCHAR(50): both application_no and permission_number. */
  const NUMBER_WIDTH := 50

  function Open(organizer: UserId, festival: FestivalId, year: nat, startTime: int, endTime: int, details: Details,
                clock: Time): Result<Dossier, Error>
  {
    if startTime >= endTime then Err(BadRequest) else
    Ok(Dossier(organizer, festival, year, startTime, endTime, details, Draft, None, None, map[], map[],
               [HistoryRow(None, Draft)], [], None, [], None, [], [], clock))
  }

  predicate Editable(s: Status) { s == Draft || s == Status.ChangesRequested }

  function OrElse<T>(o: Option<T>, default: T): T { if o.Some? then o.value else default }

  function Update(d: Dossier, user: UserId, festival: Option<FestivalId>, year: Option<nat>,
                  startTime: Option<int>, endTime: Option<int>, details: Option<Details>): Result<Dossier, Error>
  {
    if user != d.organizer then Err(Forbidden)
    else if !Editable(d.status) then Err(BadRequest)
    else if OrElse(startTime, d.startTime) >= OrElse(endTime, d.endTime) then Err(BadRequest)
    else Ok(d.(festival := OrElse(festival, d.festival), year := OrElse(year, d.year),
               startTime := OrElse(startTime, d.startTime), endTime := OrElse(endTime, d.endTime),
               details := OrElse(details, d.details)))
  }

  /** The stations confirmed on the active route version. */
  function Confirmed(d: Dossier): set<StationId> {
    set k | k in d.suggestions.Keys && d.suggestions[k] && d.route == Some(k.1) :: k.0
  }

  /** Everything submit checks before it touches the number. */
  function SubmitRefusal(d: Dossier, user: UserId): Option<Error> {
    if user != d.organizer then Some(Forbidden)
    else if !Editable(d.status) then Some(BadRequest)
    else if d.route.None? then Some(BadRequest)
    else if Confirmed(d) == {} then Some(BadRequest)
    else None
  }

  /** One pending row per station. */
  function Undecided(stations: set<StationId>): map<StationId, Approval> {
    map st | st in stations :: Approval(Pending, "")
  }

  /** next is the number the application gets if it has none yet. */
  function Submit(d: Dossier, user: UserId, next: string): Result<Dossier, Error> {
    var refusal := SubmitRefusal(d, user);
    if refusal.Some? then Err(refusal.value) else
    var number := OrElse(d.number, next);
    if |number| > NUMBER_WIDTH then Err(Database) else
    var to := if d.status == Status.ChangesRequested then Resubmitted else Submitted;
    Ok(d.(number := Some(number),
          status := to,
          history := d.history + [HistoryRow(Some(d.status), to)],
          approvals := Undecided(d.approvals.Keys + Confirmed(d))))
  }

  // ---- routes and suggestions ----

  function NewVersion(d: Dossier, v: VersionId): Dossier { d.(route := Some(v)) }

  /** Replaces the suggestions of one version by unconfirmed ones. */
  function Analyze(d: Dossier, v: VersionId, stations: set<StationId>): Dossier {
    var kept := map k | k in d.suggestions.Keys && k.1 != v :: d.suggestions[k];
    d.(suggestions := kept + map st | st in stations :: (st, v) := false)
  }

  /** Confirms a station on every version it was suggested for. */
  function Confirm(d: Dossier, st: StationId): Dossier {
    d.(suggestions := map k | k in d.suggestions.Keys :: d.suggestions[k] || k.0 == st)
  }

  // ---- approvals and permits ----

  predicate SomeRow(rows: map<StationId, Approval>, x: Decision) {
    exists st :: st in rows && rows[st].decision == x
  }

  predicate EveryRow(rows: map<StationId, Approval>, x: Decision) {
    forall st :: st in rows ==> rows[st].decision == x
  }

  /** Any rejection wins, then any request for changes; approved only when everyone approved. */
  function Aggregate(rows: map<StationId, Approval>): Status {
    if SomeRow(rows, Decision.Rejected) then Status.Rejected
    else if SomeRow(rows, Decision.ChangesRequested) then Status.ChangesRequested
    else if EveryRow(rows, Decision.Approved) then Status.Approved
    else UnderReview
  }

  function PermitNumber(number: Option<string>): string { "PMT-" + OrElse(number, "null") }

  function IssuePermit(d: Dossier): Result<seq<Permit>, Error> {
    if d.permits != [] then Ok(d.permits)
    else if d.route.None? then Err(Conflict)
    else if |PermitNumber(d.number)| > NUMBER_WIDTH then Err(Database)
    else Ok([Permit(PermitNumber(d.number), d.route.value)])
  }

  function Decide(d: Dossier, st: StationId, verdict: Verdict, reason: string): Result<Dossier, Error> {
    if verdict != Decision.Approved && reason == "" then Err(BadRequest)
    else if st !in d.approvals then Err(NotFound) else
    var rows := d.approvals[st := Approval(verdict, reason)];
    var to := Aggregate(rows);
    if to == d.status then Ok(d.(approvals := rows)) else
    var moved := d.(approvals := rows, status := to, history := d.history + [HistoryRow(Some(d.status), to)]);
    if to != Status.Approved then Ok(moved) else
    match IssuePermit(d)
    case Err(e) => Err(e)
    case Ok(permits) => Ok(moved.(permits := permits))
  }

  // ---- the live procession ----

  function Start(d: Dossier, user: UserId): Result<Dossier, Error> {
    if user != d.organizer then Err(Forbidden)
    else if d.status != Status.Approved then Err(BadRequest)
    else if d.route.None? then Err(BadRequest)
    else if d.procession.Some? && d.procession.value.status == LiveStatus.Live then Err(BadRequest)
    else
      var p := if d.procession.Some? then d.procession.value.(status := LiveStatus.Live)
               else Procession(LiveStatus.Live, Normal, None);
      Ok(d.(procession := Some(p), status := Status.Live,
            history := d.history + [HistoryRow(Some(d.status), Status.Live)]))
  }

  /** A crash after the commit leaves the cache key behind. */
  function Complete(d: Dossier, user: UserId, staff: bool, crash: bool): Result<Dossier, Error> {
    if !staff && user != d.organizer then Err(Forbidden)
    else if d.procession.None? || d.procession.value.status != LiveStatus.Live then Err(BadRequest)
    else Ok(d.(procession := Some(d.procession.value.(status := LiveStatus.Completed)),
               status := Status.Completed,
               history := d.history + [HistoryRow(Some(Status.Live), Status.Completed)],
               cache := if crash then d.cache else None))
  }

  predicate Underway(s: LiveStatus) { s == LiveStatus.Live || s == LiveStatus.GpsWarning || s == LiveStatus.GpsLost }

  function Classify(cfg: Config, distance: real): (off: DeviationStatus)
    ensures off == Deviation <==> distance > cfg.alertMeters
    ensures off == Warning <==> cfg.warningMeters < distance <= cfg.alertMeters
    ensures off == Normal <==> distance <= cfg.warningMeters && distance <= cfg.alertMeters
  {
    if distance > cfg.alertMeters then Deviation
    else if distance > cfg.warningMeters then Warning
    else Normal
  }

  /** Any ping ends a weak or lost signal, whichever of the two the watchdog had noted. */
  function Recovery(before: LiveStatus): seq<Alert> {
    if before == LiveStatus.GpsWarning || before == LiveStatus.GpsLost then [GpsRecovered] else []
  }

  /** Alerts on entering DEVIATION and on leaving it, not on every ping in between. */
  function DeviationChange(before: DeviationStatus, now: DeviationStatus): seq<Alert> {
    if now == Deviation && before != Deviation then [RouteDeviation]
    else if now != Deviation && before == Deviation then [RouteDeviationResolved]
    else []
  }

  /** The statement recordLocation stops after when it throws or dies inside: they are not one transaction. */
  datatype Extent = Inserted | Updated | RecoverySent | Alerted | Done

  /** Alerts of one ping that gets so far, from the state the procession row was in before it. */
  function PingAlerts(before: Procession, now: DeviationStatus, extent: Extent): seq<Alert> {
    (if extent == Inserted || extent == Updated then [] else Recovery(before.status))
    + (if extent == Alerted || extent == Done then DeviationChange(before.deviation, now) else [])
  }

  /** The ping as it is stored: measured against the application's active route, not the permit's. */
  function Measured(cfg: Config, d: Dossier, ping: Position): Fix {
    Fix(ping.lat, ping.lng, cfg.distance(d.route, ping))
  }

  function Record(cfg: Config, d: Dossier, user: UserId, ping: Position, extent: Extent): Result<Dossier, Error> {
    if user != d.organizer then Err(Forbidden)
    else if d.procession.None? || !Underway(d.procession.value.status) then Err(BadRequest) else
    var p, fix := d.procession.value, Measured(cfg, d, ping);
    var deviation := Classify(cfg, fix.distance);
    var inserted := d.(fixes := d.fixes + [fix]);
    if extent == Inserted then Ok(inserted) else
    var moved := Procession(LiveStatus.Live, deviation, Some(Seen(fix.lat, fix.lng, d.clock)));
    var alerted := inserted.(procession := Some(moved), alerts := d.alerts + PingAlerts(p, deviation, extent));
    if extent != Done then Ok(alerted) else
    Ok(alerted.(cache := Some(Location(fix.lat, fix.lng, deviation))))
  }

  function GetCurrentLocation(d: Dossier): Option<Location> {
    if d.cache.Some? then d.cache
    else if d.procession.Some? && d.procession.value.status == LiveStatus.Live && d.procession.value.seen.Some? then
      var p := d.procession.value;
      Some(Location(p.seen.value.lat, p.seen.value.lng, p.deviation))
    else None
  }

  // ---- the GPS watchdog's statements, seen by one row ----

  /** last_update_at < now - limit; false for a row that was never updated. */
  predicate OlderThan(p: Procession, limit: int, now: Time) { p.seen.Some? && now - p.seen.value.at > limit }

  predicate GoesLost(cfg: Config, p: Procession, now: Time) {
    (p.status == LiveStatus.Live || p.status == LiveStatus.GpsWarning) && OlderThan(p, cfg.lostAge, now)
  }

  predicate GoesWarning(cfg: Config, p: Procession, now: Time) {
    p.status == LiveStatus.Live && OlderThan(p, cfg.warningAge, now)
  }

  /** The UPDATE changes the row; the alert for it is a later statement, owed until then. */
  function SweepLost(cfg: Config, d: Dossier): Dossier {
    if d.procession.Some? && GoesLost(cfg, d.procession.value, d.clock) then
      d.(procession := Some(d.procession.value.(status := LiveStatus.GpsLost)), owed := d.owed + [Alert.GpsLost])
    else d
  }

  function SweepWarning(cfg: Config, d: Dossier): Dossier {
    if d.procession.Some? && GoesWarning(cfg, d.procession.value, d.clock) then
      d.(procession := Some(d.procession.value.(status := LiveStatus.GpsWarning)),
         owed := d.owed + [Alert.GpsWarning])
    else d
  }

  function Without<T>(s: seq<T>, i: nat): seq<T>
    requires i < |s|
  {
    s[..i] + s[i + 1..]
  }

  /** One owed alert is raised. Sweeps may overlap, so it need not be the oldest. */
  function Deliver(d: Dossier, i: nat): Dossier {
    if i < |d.owed| then d.(alerts := d.alerts + [d.owed[i]], owed := Without(d.owed, i)) else d
  }

  /** One owed alert is never raised: its insert throws, one before it in the loop does, or the process dies. */
  function Lose(d: Dossier, i: nat): Dossier {
    if i < |d.owed| then d.(owed := Without(d.owed, i)) else d
  }

  // ---- runs ----

  datatype Op =
    | OpUpdate(user: UserId, festival: Option<FestivalId>, year: Option<nat>,
               startTime: Option<int>, endTime: Option<int>, details: Option<Details>)
    | OpNewVersion(version: VersionId)
    | OpAnalyze(version: VersionId, stations: set<StationId>)
    | OpConfirm(station: StationId)
    | OpSubmit(user: UserId, next: string)
    | OpDecide(station: StationId, verdict: Verdict, reason: string)
    | OpStart(user: UserId)
    | OpComplete(user: UserId, staff: bool, crash: bool)
    | OpRecord(user: UserId, ping: Position, extent: Extent)
    | OpSweepLost
    | OpSweepWarning
    | OpDeliver(index: nat)
    | OpLose(index: nat)
    | OpEvict

  /** A call, made some time after the previous one: the database clock never runs backwards. */
  datatype Event = Event(wait: nat, op: Op)

  function Apply(cfg: Config, d: Dossier, op: Op): Result<Dossier, Error> {
    match op
    case OpUpdate(user, festival, year, startTime, endTime, details) =>
      Update(d, user, festival, year, startTime, endTime, details)
    case OpNewVersion(v) => Ok(NewVersion(d, v))
    case OpAnalyze(v, stations) => Ok(Analyze(d, v, stations))
    case OpConfirm(st) => Ok(Confirm(d, st))
    case OpSubmit(user, next) => Submit(d, user, next)
    case OpDecide(st, verdict, reason) => Decide(d, st, verdict, reason)
    case OpStart(user) => Start(d, user)
    case OpComplete(user, staff, crash) => Complete(d, user, staff, crash)
    case OpRecord(user, ping, extent) => Record(cfg, d, user, ping, extent)
    case OpSweepLost => Ok(SweepLost(cfg, d))
    case OpSweepWarning => Ok(SweepWarning(cfg, d))
    case OpDeliver(i) => Ok(Deliver(d, i))
    case OpLose(i) => Ok(Lose(d, i))
    case OpEvict => Ok(d.(cache := None))
  }

  function After(d: Dossier, wait: nat): Dossier { d.(clock := d.clock + wait) }

  /** Whether the event's call goes through. */
  predicate Succeeds(cfg: Config, d: Dossier, e: Event) { Apply(cfg, After(d, e.wait), e.op).Ok? }

  function Step(cfg: Config, d: Dossier, e: Event): Dossier {
    match Apply(cfg, After(d, e.wait), e.op)
    case Ok(next) => next
    case Err(_) => After(d, e.wait)
  }

  function Run(cfg: Config, d: Dossier, es: seq<Event>): Dossier {
    if es == [] then d else Step(cfg, Run(cfg, d, es[..|es| - 1]), es[|es| - 1])
  }

  /** The state after the first k events. */
  function At(cfg: Config, d: Dossier, es: seq<Event>, k: nat): Dossier
    requires k <= |es|
  {
    Run(cfg, d, es[..k])
  }

  /** What create leaves behind. */
  predicate Opened(d: Dossier) {
    Open(d.organizer, d.festival, d.year, d.startTime, d.endTime, d.details, d.clock) == Ok(d)
  }
}
