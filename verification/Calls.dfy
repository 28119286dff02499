/**
 * When each call on an application goes through and what it leaves, told from
 * the rows alone: without the functions that compute it.
 */
module Calls {
  import opened Wrappers
  import opened Casework
  import opened Lifecycle

  // ---- who may call ----

  /** A call that names a user who is neither the organizer nor, for a completion, staff. */
  predicate ByStranger(d: Dossier, op: Op) {
    match op
    case OpUpdate(user, _, _, _, _, _) => user != d.organizer
    case OpSubmit(user, _) => user != d.organizer
    case OpStart(user) => user != d.organizer
    case OpRecord(user, _, _) => user != d.organizer
    case OpComplete(user, staff, _) => !staff && user != d.organizer
    case _ => false
  }

  /** A stranger changes nothing, in whatever state the application is. */
  lemma StrangersRefused(cfg: Config, d: Dossier, e: Event)
    requires ByStranger(d, e.op)
    ensures Apply(cfg, d, e.op) == Err(Forbidden)
    ensures Step(cfg, d, e) == d.(clock := d.clock + e.wait)
  {
  }

  // ---- the application ----

  /** create: refused exactly when the event would not end after it starts; a draft with nothing but its particulars. */
  lemma CreateExactly(organizer: UserId, festival: FestivalId, year: nat, startTime: int, endTime: int,
                      details: Details, clock: Time)
    ensures var made := Open(organizer, festival, year, startTime, endTime, details, clock);
      && (made.Ok? <==> startTime < endTime)
      && (made.Ok? ==>
            var d := made.value;
            && d.organizer == organizer && d.festival == festival && d.year == year
            && d.startTime == startTime && d.endTime == endTime && d.details == details && d.clock == clock
            && d.status == Draft && d.history == [HistoryRow(None, Draft)]
            && d.number == None && d.route == None && d.procession == None && d.cache == None
            && d.suggestions.Keys == {} && d.approvals.Keys == {}
            && d.permits == [] && d.fixes == [] && d.alerts == [] && d.owed == [])
  {
  }

  /** A field after an edit: the value given, or the old one. */
  predicate Edited<T(==)>(given: Option<T>, before: T, after: T) {
    (given.Some? ==> after == given.value) && (given.None? ==> after == before)
  }

  /** update: the organizer edits a draft, or an application sent back, as long as the times stay in order. */
  lemma UpdateExactly(d: Dossier, user: UserId, festival: Option<FestivalId>, year: Option<nat>,
                      startTime: Option<int>, endTime: Option<int>, details: Option<Details>)
    ensures var r := Update(d, user, festival, year, startTime, endTime, details);
      && (r.Ok? <==>
            && user == d.organizer && (d.status == Draft || d.status == Status.ChangesRequested)
            && exists s, e :: Edited(startTime, d.startTime, s) && Edited(endTime, d.endTime, e) && s < e)
      && (r.Ok? ==>
            var u := r.value;
            && u == d.(festival := u.festival, year := u.year, startTime := u.startTime, endTime := u.endTime,
                       details := u.details)
            && Edited(festival, d.festival, u.festival) && Edited(year, d.year, u.year)
            && Edited(startTime, d.startTime, u.startTime) && Edited(endTime, d.endTime, u.endTime)
            && Edited(details, d.details, u.details))
  {
    var s := if startTime.Some? then startTime.value else d.startTime;
    var e := if endTime.Some? then endTime.value else d.endTime;
    assert Edited(startTime, d.startTime, s) && Edited(endTime, d.endTime, e);
  }

  // ---- suggestions ----

  /** analyze: the version has exactly these stations, none confirmed; every other version keeps its rows. */
  lemma AnalyzeExactly(d: Dossier, v: VersionId, stations: set<StationId>, st: StationId, other: VersionId)
    ensures var r := Analyze(d, v, stations);
      && r == d.(suggestions := r.suggestions)
      && ((st, v) in r.suggestions <==> st in stations)
      && (st in stations ==> !r.suggestions[(st, v)])
      && (other != v ==> ((st, other) in r.suggestions <==> (st, other) in d.suggestions))
      && (other != v && (st, other) in d.suggestions ==> r.suggestions[(st, other)] == d.suggestions[(st, other)])
  {
  }

  /** confirm: every row of the station, and no other, becomes confirmed. */
  lemma ConfirmExactly(d: Dossier, st: StationId, other: StationId, v: VersionId)
    ensures var r := Confirm(d, st);
      && r == d.(suggestions := r.suggestions)
      && ((other, v) in r.suggestions <==> (other, v) in d.suggestions)
      && ((other, v) in d.suggestions ==>
            (r.suggestions[(other, v)] <==> d.suggestions[(other, v)] || other == st))
  {
  }

  // ---- submission ----

  /** The station has a confirmed row on the active route version. */
  predicate ConfirmedOnRoute(d: Dossier, st: StationId) {
    d.route.Some? && (st, d.route.value) in d.suggestions && d.suggestions[(st, d.route.value)]
  }

  lemma ConfirmedExactly(d: Dossier, st: StationId)
    ensures st in Confirmed(d) <==> ConfirmedOnRoute(d, st)
  {
    if ConfirmedOnRoute(d, st) { assert (st, d.route.value) in d.suggestions.Keys; }
  }

  lemma SomebodyConfirmed(d: Dossier)
    ensures Confirmed(d) != {} <==> exists st :: ConfirmedOnRoute(d, st)
  {
    if Confirmed(d) != {} {
      var st :| st in Confirmed(d);
      ConfirmedExactly(d, st);
    }
    if st :| ConfirmedOnRoute(d, st) { ConfirmedExactly(d, st); }
  }

  /** submit: the organizer, while it is editable, a station confirmed on the active route, room for the number. */
  lemma SubmitExactly(d: Dossier, user: UserId, next: string)
    ensures Submit(d, user, next).Ok? <==>
      && user == d.organizer && (d.status == Draft || d.status == Status.ChangesRequested)
      && (exists st :: ConfirmedOnRoute(d, st))
      && (d.number.Some? ==> |d.number.value| <= 50) && (d.number.None? ==> |next| <= 50)
  {
    SomebodyConfirmed(d);
  }

  /** What it leaves: the number it had or gets, everybody asked or to be asked PENDING, one history row. */
  lemma SubmitLeaves(d: Dossier, user: UserId, next: string, st: StationId)
    requires Submit(d, user, next).Ok?
    ensures var r := Submit(d, user, next).value;
      && r == d.(number := r.number, status := r.status, history := r.history, approvals := r.approvals)
      && (d.number.Some? ==> r.number == d.number) && (d.number.None? ==> r.number == Some(next))
      && (d.status == Draft ==> r.status == Submitted) && (d.status != Draft ==> r.status == Resubmitted)
      && r.history == d.history + [HistoryRow(Some(d.status), r.status)]
      && (st in r.approvals <==> st in d.approvals || ConfirmedOnRoute(d, st))
      && (st in r.approvals ==> r.approvals[st] == Approval(Pending, ""))
  {
    ConfirmedExactly(d, st);
  }

  // ---- decisions ----

  predicate Has(rows: map<StationId, Approval>, x: Decision) { exists st :: st in rows && rows[st].decision == x }

  predicate All(rows: map<StationId, Approval>, x: Decision) { forall st :: st in rows ==> rows[st].decision == x }

  /** The status these rows call for: a rejection before a request for changes before anything still pending. */
  predicate Shows(status: Status, rows: map<StationId, Approval>) {
    && (status == Status.Rejected <==> Has(rows, Decision.Rejected))
    && (status == Status.ChangesRequested <==> !Has(rows, Decision.Rejected) && Has(rows, Decision.ChangesRequested))
    && (status == Status.Approved <==> All(rows, Decision.Approved))
    && (status == UnderReview <==>
          !Has(rows, Decision.Rejected) && !Has(rows, Decision.ChangesRequested) && Has(rows, Pending))
  }

  lemma AggregateShows(rows: map<StationId, Approval>)
    requires rows != map[]
    ensures Shows(Aggregate(rows), rows)
  {
    var st :| st in rows;
    if rows[st].decision == Decision.Approved { assert !All(rows, Decision.Rejected); }
    if SomeRow(rows, Decision.Rejected) { assert Has(rows, Decision.Rejected); }
    if SomeRow(rows, Decision.ChangesRequested) { assert Has(rows, Decision.ChangesRequested); }
    if !All(rows, Decision.Approved) && !Has(rows, Decision.Rejected) && !Has(rows, Decision.ChangesRequested) {
      var other :| other in rows && rows[other].decision != Decision.Approved;
      assert rows[other].decision == Pending;
    }
  }

  /** A decision that goes through: its row, the status the rows then call for, history, and perhaps the permit. */
  lemma DecideLeaves(d: Dossier, st: StationId, verdict: Verdict, reason: string)
    requires Decide(d, st, verdict, reason).Ok?
    ensures var r := Decide(d, st, verdict, reason).value;
      && r == d.(approvals := r.approvals, status := r.status, history := r.history, permits := r.permits)
      && r.approvals == d.approvals[st := Approval(verdict, reason)] && Shows(r.status, r.approvals)
      && r.history == (if r.status == d.status then d.history else d.history + [HistoryRow(Some(d.status), r.status)])
      && (r.status != Status.Approved || d.status == Status.Approved || d.permits != [] ==> r.permits == d.permits)
      && (r.status == Status.Approved != d.status && d.permits == [] && d.number.Some? ==>
            && d.route.Some? && |d.number.value| <= 46
            && r.permits == [Permit("PMT-" + d.number.value, d.route.value)])
  {
    DecideEffect(d, st, verdict, reason);
    var rows := Decide(d, st, verdict, reason).value.approvals;
    assert st in rows;
    AggregateShows(rows);
  }

  /** decide: a listed station, with a reason unless it approves, and room for the permit it would issue. */
  lemma DecideExactly(d: Dossier, st: StationId, verdict: Verdict, reason: string)
    requires Sound(d)
    ensures Decide(d, st, verdict, reason).Ok? <==>
      && st in d.approvals && (verdict == Decision.Approved || reason != "")
      && (|d.number.value| <= 46 || d.permits != [] || d.status == Status.Approved
          || !All(d.approvals[st := Approval(verdict, reason)], Decision.Approved))
  {
    if st in d.approvals && (verdict == Decision.Approved || reason != "") {
      IssuingFailsExactly(d, st, verdict, reason);
      AggregateShows(d.approvals[st := Approval(verdict, reason)]);
    }
  }

  /** In every run a decided status is the one its rows call for; submitted means all pending, LIVE all approved. */
  lemma StatusShowsRows(cfg: Config, d: Dossier, es: seq<Event>)
    requires Opened(d)
    ensures var r := Run(cfg, d, es);
      && (r.status in {Status.Rejected, Status.ChangesRequested, Status.Approved, UnderReview} ==>
            Shows(r.status, r.approvals))
      && (r.status in {Submitted, Resubmitted} ==> All(r.approvals, Pending))
      && (r.status == Status.Live ==> All(r.approvals, Decision.Approved))
  {
    SoundOpen(d);
    SoundRun(cfg, d, es);
    var r := Run(cfg, d, es);
    if r.status in {Status.Rejected, Status.ChangesRequested, Status.Approved, UnderReview} {
      AggregateShows(r.approvals);
    }
  }

  /** With which error the organizer's calls, and the stations', are refused. */
  lemma RefusedWith(cfg: Config, d: Dossier, op: Op)
    requires Sound(d) && !ByStranger(d, op) && Apply(cfg, d, op).Err?
    ensures var thrown := Apply(cfg, d, op).error;
      && thrown in {NotFound, Database, BadRequest}
      && (thrown == NotFound <==>
            op.OpDecide? && op.station !in d.approvals && (op.verdict == Decision.Approved || op.reason != ""))
      && (thrown == Database <==>
            || (op.OpDecide? && op.station in d.approvals && (op.verdict == Decision.Approved || op.reason != ""))
            || (op.OpSubmit? && (d.status == Draft || d.status == Status.ChangesRequested)
                && exists st :: ConfirmedOnRoute(d, st)))
  {
    match op
    case OpSubmit(_, _) => SomebodyConfirmed(d);
    case OpDecide(st, verdict, reason) =>
      if st in d.approvals && (verdict == Decision.Approved || reason != "") {
        IssuingFailsExactly(d, st, verdict, reason);
      }
    case _ =>
  }

  // ---- the procession ----

  /** start: the organizer, an APPROVED application with a route, and no procession LIVE already. */
  lemma StartExactly(d: Dossier, user: UserId)
    ensures var r := Start(d, user);
      && (r.Ok? <==>
            && user == d.organizer && d.status == Status.Approved && d.route.Some?
            && !(d.procession.Some? && d.procession.value.status == LiveStatus.Live))
      && (r.Ok? ==>
            var s := r.value;
            && s == d.(procession := s.procession, status := Status.Live,
                       history := d.history + [HistoryRow(Some(Status.Approved), Status.Live)])
            && s.procession.Some? && s.procession.value.status == LiveStatus.Live
            && (d.procession.Some? ==> s.procession.value.seen == d.procession.value.seen)
            && (d.procession.Some? ==> s.procession.value.deviation == d.procession.value.deviation)
            && (d.procession.None? ==> s.procession.value.seen == None && s.procession.value.deviation == Normal))
  {
  }

  /** complete: the organizer or staff, while the procession is LIVE - not while its signal is weak or lost. */
  lemma CompleteExactly(d: Dossier, user: UserId, staff: bool, crash: bool)
    ensures var r := Complete(d, user, staff, crash);
      && (r.Ok? <==>
            && (staff || user == d.organizer)
            && d.procession.Some? && d.procession.value.status == LiveStatus.Live)
      && (r.Ok? ==>
            var s := r.value;
            && s == d.(procession := Some(d.procession.value.(status := LiveStatus.Completed)),
                       status := Status.Completed, cache := s.cache,
                       history := d.history + [HistoryRow(Some(Status.Live), Status.Completed)])
            && (crash ==> s.cache == d.cache) && (!crash ==> s.cache == None))
  {
  }

  /** How far off a position that many metres from the route is. */
  predicate IsOff(cfg: Config, metres: real, off: DeviationStatus) {
    && (off == Deviation <==> metres > cfg.alertMeters)
    && (off == Warning <==> cfg.warningMeters < metres <= cfg.alertMeters)
    && (off == Normal <==> metres <= cfg.warningMeters && metres <= cfg.alertMeters)
  }

  /** recordLocation: the organizer, while the procession is under way, its signal good, weak or lost. */
  lemma RecordExactly(cfg: Config, d: Dossier, user: UserId, ping: Position, extent: Extent)
    ensures Record(cfg, d, user, ping, extent).Ok? <==>
      && user == d.organizer && d.procession.Some?
      && d.procession.value.status in {LiveStatus.Live, LiveStatus.GpsWarning, LiveStatus.GpsLost}
  {
  }

  /** A ping stores its position and its distance from the active route; past the row update the row says how far. */
  lemma RecordLeaves(cfg: Config, d: Dossier, user: UserId, ping: Position, extent: Extent)
    requires Record(cfg, d, user, ping, extent).Ok?
    ensures var r, metres := Record(cfg, d, user, ping, extent).value, cfg.distance(d.route, ping);
      && r == d.(fixes := r.fixes, procession := r.procession, alerts := r.alerts, cache := r.cache)
      && r.fixes == d.fixes + [Fix(ping.lat, ping.lng, metres)]
      && (extent == Inserted ==> r.procession == d.procession)
      && (extent != Inserted ==>
            && r.procession.Some? && r.procession.value.status == LiveStatus.Live
            && r.procession.value.seen == Some(Seen(ping.lat, ping.lng, d.clock))
            && IsOff(cfg, metres, r.procession.value.deviation))
      && (extent != Done ==> r.cache == d.cache)
  {
  }

  /** A complete ping is what is shown from then on: cached, and through the row if the key is evicted. */
  lemma RecordShown(cfg: Config, d: Dossier, user: UserId, ping: Position)
    requires Record(cfg, d, user, ping, Done).Ok?
    ensures var r := Record(cfg, d, user, ping, Done).value;
      && r.cache.Some? && r.cache.value.lat == ping.lat && r.cache.value.lng == ping.lng
      && IsOff(cfg, cfg.distance(d.route, ping), r.cache.value.deviation)
      && GetCurrentLocation(r) == r.cache && GetCurrentLocation(r.(cache := None)) == r.cache
  {
  }

  /** The alerts of a ping, statement by statement. */
  lemma RecordAlerts(cfg: Config, d: Dossier, user: UserId, ping: Position, extent: Extent)
    requires Record(cfg, d, user, ping, extent).Ok?
    ensures var r, metres := Record(cfg, d, user, ping, extent).value, cfg.distance(d.route, ping);
      var unwell := d.procession.value.status in {LiveStatus.GpsWarning, LiveStatus.GpsLost};
      var was, now := d.procession.value.deviation == Deviation, metres > cfg.alertMeters;
      exists recovery, edge ::
        && r.alerts == d.alerts + recovery + edge
        && recovery == (if unwell && extent in {RecoverySent, Alerted, Done} then [GpsRecovered] else [])
        && (extent !in {Alerted, Done} || was == now ==> edge == [])
        && (extent in {Alerted, Done} && now && !was ==> edge == [RouteDeviation])
        && (extent in {Alerted, Done} && was && !now ==> edge == [RouteDeviationResolved])
  {
    var p, metres := d.procession.value, cfg.distance(d.route, ping);
    var recovery := if extent == Inserted || extent == Updated then [] else Recovery(p.status);
    var edge := if extent == Alerted || extent == Done then DeviationChange(p.deviation, Classify(cfg, metres)) else [];
    var r := Record(cfg, d, user, ping, extent).value;
    assert r.alerts == d.alerts + recovery + edge;
  }

  // ---- the watchdog ----

  /** The first update: LIVE or weak, and silent for longer than the limit. */
  lemma SweepLostExactly(cfg: Config, d: Dossier)
    ensures var r := SweepLost(cfg, d);
      var p := d.procession;
      var silent := && p.Some? && p.value.status in {LiveStatus.Live, LiveStatus.GpsWarning}
                    && p.value.seen.Some? && d.clock - p.value.seen.value.at > cfg.lostAge;
      && (silent ==> r == d.(procession := Some(p.value.(status := LiveStatus.GpsLost)),
                             owed := d.owed + [Alert.GpsLost]))
      && (!silent ==> r == d)
  {
  }

  /** The second: LIVE, and silent for longer than the shorter limit. */
  lemma SweepWarningExactly(cfg: Config, d: Dossier)
    ensures var r := SweepWarning(cfg, d);
      var p := d.procession;
      var silent := && p.Some? && p.value.status == LiveStatus.Live
                    && p.value.seen.Some? && d.clock - p.value.seen.value.at > cfg.warningAge;
      && (silent ==> r == d.(procession := Some(p.value.(status := LiveStatus.GpsWarning)),
                             owed := d.owed + [Alert.GpsWarning]))
      && (!silent ==> r == d)
  {
  }

  /** An owed alert that is raised goes to the end of the log, a lost one nowhere; the others stay in order. */
  lemma OwedExactly(d: Dossier, before: seq<SignalAlert>, alert: SignalAlert, after: seq<SignalAlert>)
    requires d.owed == before + [alert] + after
    ensures Deliver(d, |before|) == d.(alerts := d.alerts + [alert], owed := before + after)
    ensures Lose(d, |before|) == d.(owed := before + after)
  {
    assert Without(d.owed, |before|) == before + after;
  }
}
