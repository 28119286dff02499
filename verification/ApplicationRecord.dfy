/** The service calls on one application, statement by statement, over the rows they change in place. */
module ApplicationRecord {
  import opened Wrappers
  import opened C = Casework
  import Calls

  /** A call either goes through as specified, or throws what the specification says and changes nothing. */
  predicate Outcome(spec: Result<Dossier, Error>, before: Dossier, after: Dossier, thrown: Option<Error>) {
    if thrown.None? then spec == Ok(after) else spec == Err(thrown.value) && after == before
  }

  class Record {
    const organizer: UserId
    var festival: FestivalId
    var year: nat
    var startTime: int
    var endTime: int
    var details: Details
    var status: Status
    var number: Option<string>
    var route: Option<VersionId>
    var suggestions: map<(StationId, VersionId), bool>
    var approvals: map<StationId, Approval>
    var history: seq<HistoryRow>
    var permits: seq<Permit>
    var procession: Option<Procession>
    var fixes: seq<Fix>
    var cache: Option<Location>
    var alerts: seq<Alert>
    var owed: seq<SignalAlert>
    var clock: Time

    ghost function Snapshot(): Dossier
      reads this
    {
      Dossier(organizer, festival, year, startTime, endTime, details, status, number, route, suggestions, approvals,
              history, permits, procession, fixes, cache, alerts, owed, clock)
    }

    /** What create inserts; Create below refuses times out of order first. */
    constructor (organizer: UserId, festival: FestivalId, year: nat, startTime: int, endTime: int, details: Details,
                 clock: Time)
      requires startTime < endTime
      ensures C.Open(organizer, festival, year, startTime, endTime, details, clock) == Ok(Snapshot())
    {
      this.organizer := organizer;
      this.festival, this.year, this.startTime, this.endTime := festival, year, startTime, endTime;
      this.details, this.clock := details, clock;
      status, number, route := Draft, None, None;
      suggestions, approvals, permits := map[], map[], [];
      procession, fixes, cache, alerts, owed := None, [], None, [], [];
      history := [HistoryRow(None, Draft)];
    }

    static method Create(organizer: UserId, festival: FestivalId, year: nat, startTime: int, endTime: int,
                         details: Details, clock: Time) returns (made: Result<Record, Error>)
      ensures made.Ok? ==> fresh(made.value)
      ensures made.Ok? ==>
        C.Open(organizer, festival, year, startTime, endTime, details, clock) == Ok(made.value.Snapshot())
      ensures made.Err? ==> C.Open(organizer, festival, year, startTime, endTime, details, clock) == Err(made.error)
    {
      if startTime >= endTime { return Err(BadRequest); }
      var record := new Record(organizer, festival, year, startTime, endTime, details, clock);
      return Ok(record);
    }

    /** Object.assign: the given fields, and only those. */
    method Assign(newFestival: Option<FestivalId>, newYear: Option<nat>, newStart: Option<int>, newEnd: Option<int>,
                  newDetails: Option<Details>)
      modifies this`festival, this`year, this`startTime, this`endTime, this`details
      ensures festival == OrElse(newFestival, old(festival)) && year == OrElse(newYear, old(year))
      ensures startTime == OrElse(newStart, old(startTime)) && endTime == OrElse(newEnd, old(endTime))
      ensures details == OrElse(newDetails, old(details))
    {
      festival, year := OrElse(newFestival, festival), OrElse(newYear, year);
      startTime, endTime := OrElse(newStart, startTime), OrElse(newEnd, endTime);
      details := OrElse(newDetails, details);
    }

    method Update(user: UserId, newFestival: Option<FestivalId>, newYear: Option<nat>,
                  newStart: Option<int>, newEnd: Option<int>, newDetails: Option<Details>)
      returns (thrown: Option<Error>)
      modifies this
      ensures Outcome(C.Update(old(Snapshot()), user, newFestival, newYear, newStart, newEnd, newDetails),
                      old(Snapshot()), Snapshot(), thrown)
    {
      if user != organizer { return Some(Forbidden); }
      if !Editable(status) { return Some(BadRequest); }
      var s, e := OrElse(newStart, startTime), OrElse(newEnd, endTime);
      if s >= e { return Some(BadRequest); }
      Assign(newFestival, newYear, newStart, newEnd, newDetails);
      return None;
    }

    /** Every old row back to PENDING, then one PENDING row per confirmed station, ON CONFLICT DO NOTHING. */
    method ResetApprovals(stations: set<StationId>)
      modifies this`approvals
      ensures approvals == Undecided(old(approvals).Keys + stations)
    {
      ghost var listed := approvals.Keys;
      approvals := map st | st in approvals :: Approval(Pending, "");
      var todo := stations;
      while todo != {}
        invariant todo <= stations
        invariant approvals == Undecided(listed + (stations - todo))
        decreases todo
      {
        var st :| st in todo;
        todo := todo - {st};
        if st !in approvals { approvals := approvals[st := Approval(Pending, "")]; }
      }
      assert stations - todo == stations;
    }

    /** Everything submit checks before it writes, and the stations it will ask. */
    method CheckSubmit(user: UserId) returns (thrown: Option<Error>, stations: set<StationId>)
      ensures thrown == SubmitRefusal(Snapshot(), user)
      ensures thrown.None? ==> stations == Confirmed(Snapshot())
    {
      stations := {};
      if user != organizer { return Some(Forbidden), {}; }
      if !Editable(status) { return Some(BadRequest), {}; }
      if route.None? { return Some(BadRequest), {}; }
      stations := set k | k in suggestions.Keys && suggestions[k] && route == Some(k.1) :: k.0;
      assert stations == Confirmed(Snapshot());
      thrown := if stations == {} then Some(BadRequest) else None;
    }

    /** The writes of the submission transaction. */
    method File(newNumber: string, stations: set<StationId>)
      modifies this`number, this`status, this`history, this`approvals
      ensures number == Some(newNumber)
      ensures status == if old(status) == Status.ChangesRequested then Resubmitted else Submitted
      ensures history == old(history) + [HistoryRow(Some(old(status)), status)]
      ensures approvals == Undecided(old(approvals).Keys + stations)
    {
      var from := status;
      number := Some(newNumber);
      status := if from == Status.ChangesRequested then Resubmitted else Submitted;
      history := history + [HistoryRow(Some(from), status)];
      ResetApprovals(stations);
    }

    /** The submission transaction; next is the number to assign if there is none yet. */
    method Submit(user: UserId, next: string) returns (thrown: Option<Error>)
      modifies this
      ensures Outcome(C.Submit(old(Snapshot()), user, next), old(Snapshot()), Snapshot(), thrown)
    {
      var stations;
      thrown, stations := CheckSubmit(user);
      if thrown.Some? { return; }
      var newNumber := OrElse(number, next);
      if |newNumber| > NUMBER_WIDTH { return Some(Database); }
      File(newNumber, stations);
    }

    /** The newest version becomes the active one. */
    method ActivateVersion(v: VersionId)
      modifies this
      ensures Snapshot() == NewVersion(old(Snapshot()), v)
    {
      route := Some(v);
    }

    method InsertSuggestions(v: VersionId, stations: set<StationId>)
      modifies this`suggestions
      ensures suggestions == old(suggestions) + map st | st in stations :: (st, v) := false
    {
      var todo := stations;
      while todo != {}
        invariant todo <= stations
        invariant suggestions == old(suggestions) + map st | st in stations - todo :: (st, v) := false
        decreases todo
      {
        var st :| st in todo;
        todo := todo - {st};
        suggestions := suggestions[(st, v) := false];
      }
      assert stations - todo == stations;
    }

    /** analyzeAndSave: delete this version's rows, then insert one row per suggestion. */
    method AnalyzeAndSave(v: VersionId, stations: set<StationId>)
      modifies this
      ensures Snapshot() == Analyze(old(Snapshot()), v, stations)
    {
      suggestions := map k | k in suggestions.Keys && k.1 != v :: suggestions[k];
      InsertSuggestions(v, stations);
    }

    method ConfirmStation(st: StationId)
      modifies this
      ensures Snapshot() == Confirm(old(Snapshot()), st)
    {
      suggestions := map k | k in suggestions.Keys :: if k.0 == st then true else suggestions[k];
    }

    /** Returns the permit that exists, or inserts one. */
    method IssueForApplication() returns (thrown: Option<Error>)
      modifies this`permits
      ensures thrown.None? ==> C.IssuePermit(old(Snapshot())) == Ok(permits)
      ensures thrown.Some? ==> C.IssuePermit(old(Snapshot())) == Err(thrown.value) && permits == old(permits)
    {
      if permits != [] { return None; }
      if route.None? { return Some(Conflict); }
      var permissionNumber := "PMT-" + OrElse(number, "null");
      if |permissionNumber| > NUMBER_WIDTH { return Some(Database); }
      permits := [Permit(permissionNumber, route.value)];
      return None;
    }

    /** some REJECTED, some CHANGES_REQUESTED, every APPROVED, in that order. */
    method AggregateStatus() returns (newStatus: Status)
      ensures newStatus == Aggregate(approvals)
      ensures approvals.Keys != {} ==> Calls.Shows(newStatus, approvals)
    {
      if approvals.Keys != {} { Calls.AggregateShows(approvals); }
      if exists st :: st in approvals && approvals[st].decision == Decision.Rejected { return Status.Rejected; }
      if exists st :: st in approvals && approvals[st].decision == Decision.ChangesRequested {
        return Status.ChangesRequested;
      }
      if forall st :: st in approvals ==> approvals[st].decision == Decision.Approved { return Status.Approved; }
      return UnderReview;
    }

    /** The move to a new status, its history entry, and on reaching APPROVED the permit; or nothing at all. */
    method MoveTo(newStatus: Status) returns (thrown: Option<Error>)
      modifies this`status, this`history, this`permits
      ensures thrown.Some? ==>
        newStatus == Status.Approved != status && C.IssuePermit(old(Snapshot())) == Err(thrown.value)
      ensures thrown.Some? ==> status == old(status) && history == old(history) && permits == old(permits)
      ensures thrown.None? ==> status == newStatus
      ensures thrown.None? ==>
        history == if newStatus == old(status) then old(history)
                   else old(history) + [HistoryRow(Some(old(status)), newStatus)]
      ensures thrown.None? ==>
        if newStatus == Status.Approved != old(status) then C.IssuePermit(old(Snapshot())) == Ok(permits)
        else permits == old(permits)
    {
      if status == newStatus { return None; }
      if newStatus == Status.Approved {
        thrown := IssueForApplication();
        if thrown.Some? { return; }
      }
      history := history + [HistoryRow(Some(status), newStatus)];
      status := newStatus;
      thrown := None;
    }

    /** One station's decision, the status it leads to, and the permit, in one transaction. */
    method Decide(station: StationId, verdict: Verdict, reason: string) returns (thrown: Option<Error>)
      modifies this
      ensures Outcome(C.Decide(old(Snapshot()), station, verdict, reason), old(Snapshot()), Snapshot(), thrown)
    {
      if verdict != Decision.Approved && reason == "" { return Some(BadRequest); }
      if station !in approvals { return Some(NotFound); }
      thrown := Enter(station, Approval(verdict, reason));
    }

    /** The transaction of a decision: its row, and the move it leads to. */
    method Enter(station: StationId, approval: Approval) returns (thrown: Option<Error>)
      modifies this`approvals, this`status, this`history, this`permits
      ensures var rows := old(approvals)[station := approval];
        var to := Aggregate(rows);
        && (thrown.Some? ==> to == Status.Approved != old(status))
        && (thrown.Some? ==> C.IssuePermit(old(Snapshot())) == Err(thrown.value) && Snapshot() == old(Snapshot()))
        && (thrown.None? ==> approvals == rows && status == to)
        && (thrown.None? ==>
              history == if to == old(status) then old(history)
                         else old(history) + [HistoryRow(Some(old(status)), to)])
        && (thrown.None? ==>
              if to == Status.Approved != old(status) then C.IssuePermit(old(Snapshot())) == Ok(permits)
              else permits == old(permits))
    {
      var saved := approvals;
      approvals := approvals[station := approval];
      var newStatus := AggregateStatus();
      thrown := MoveTo(newStatus);
      if thrown.Some? { approvals := saved; }
    }

    method Start(user: UserId) returns (thrown: Option<Error>)
      modifies this
      ensures Outcome(C.Start(old(Snapshot()), user), old(Snapshot()), Snapshot(), thrown)
    {
      if user != organizer { return Some(Forbidden); }
      if status != Status.Approved { return Some(BadRequest); }
      if route.None? { return Some(BadRequest); }
      if procession.Some? {
        if procession.value.status == LiveStatus.Live { return Some(BadRequest); }
        procession := Some(procession.value.(status := LiveStatus.Live));
      } else {
        procession := Some(Procession(LiveStatus.Live, Normal, None));
      }
      history := history + [HistoryRow(Some(status), Status.Live)];
      status := Status.Live;
      return None;
    }

    /** crash: the process dies after the commit, before the cache key is dropped. */
    method Complete(user: UserId, staff: bool, crash: bool) returns (thrown: Option<Error>)
      modifies this
      ensures Outcome(C.Complete(old(Snapshot()), user, staff, crash), old(Snapshot()), Snapshot(), thrown)
    {
      if !staff && user != organizer { return Some(Forbidden); }
      if procession.None? || procession.value.status != LiveStatus.Live { return Some(BadRequest); }
      procession := Some(procession.value.(status := LiveStatus.Completed));
      status := Status.Completed;
      history := history + [HistoryRow(Some(Status.Live), Status.Completed)];
      if crash { return None; }
      cache := None;
      return None;
    }

    /** The alert that a weak or lost signal is over. */
    method RaiseRecovery(live: Procession)
      modifies this`alerts
      ensures alerts == old(alerts) + Recovery(live.status)
    {
      if live.status == LiveStatus.GpsWarning || live.status == LiveStatus.GpsLost {
        alerts := alerts + [GpsRecovered];
      }
    }

    /** Alerts on entering DEVIATION and on leaving it. */
    method RaiseDeviation(live: Procession, deviation: DeviationStatus)
      modifies this`alerts
      ensures alerts == old(alerts) + DeviationChange(live.deviation, deviation)
    {
      if deviation == Deviation && live.deviation != Deviation {
        alerts := alerts + [RouteDeviation];
      } else if deviation != Deviation && live.deviation == Deviation {
        alerts := alerts + [RouteDeviationResolved];
      }
    }

    /** The statements of recordLocation from the INSERT on. */
    method Ingest(live: Procession, fix: Fix, deviation: DeviationStatus, extent: Extent)
      modifies this`fixes, this`procession, this`alerts, this`cache
      ensures fixes == old(fixes) + [fix]
      ensures procession == if extent == Inserted then old(procession)
                            else Some(Procession(LiveStatus.Live, deviation, Some(Seen(fix.lat, fix.lng, clock))))
      ensures alerts == old(alerts) + PingAlerts(live, deviation, extent)
      ensures cache == if extent == Done then Some(Location(fix.lat, fix.lng, deviation)) else old(cache)
    {
      fixes := fixes + [fix];
      if extent == Inserted { return; }
      procession := Some(Procession(LiveStatus.Live, deviation, Some(Seen(fix.lat, fix.lng, clock))));
      if extent == Updated { return; }
      RaiseRecovery(live);
      if extent == RecoverySent { return; }
      RaiseDeviation(live, deviation);
      if extent == Alerted { return; }
      cache := Some(Location(fix.lat, fix.lng, deviation));
    }

    /** Everything recordLocation checks before it measures. */
    method CheckPing(user: UserId) returns (thrown: Option<Error>)
      ensures thrown == if user != organizer then Some(Forbidden)
                        else if procession.None? || !Underway(procession.value.status) then Some(BadRequest) else None
    {
      if user != organizer { return Some(Forbidden); }
      if procession.None? { return Some(BadRequest); }
      var status := procession.value.status;
      if status != LiveStatus.Live && status != LiveStatus.GpsWarning && status != LiveStatus.GpsLost {
        return Some(BadRequest);
      }
      return None;
    }

    /** One GPS point; extent says after which statement the process dies, if it does. */
    method RecordLocation(cfg: Config, user: UserId, ping: Position, extent: Extent) returns (thrown: Option<Error>)
      modifies this
      ensures Outcome(C.Record(cfg, old(Snapshot()), user, ping, extent), old(Snapshot()), Snapshot(), thrown)
    {
      thrown := CheckPing(user);
      if thrown.Some? { return; }
      var live, fix := procession.value, Fix(ping.lat, ping.lng, cfg.distance(route, ping));
      var deviation := if fix.distance > cfg.alertMeters then Deviation
                       else if fix.distance > cfg.warningMeters then Warning else Normal;
      assert deviation == Classify(cfg, fix.distance);
      Ingest(live, fix, deviation, extent);
      assert old(alerts) + PingAlerts(live, deviation, Inserted) == old(alerts);
    }

    /** The fast cache first, Postgres if it is cold. */
    method GetCurrentLocation() returns (location: Option<Location>)
      ensures location == C.GetCurrentLocation(Snapshot())
    {
      if cache.Some? { return cache; }
      if procession.None? || procession.value.status != LiveStatus.Live { return None; }
      if procession.value.seen.None? { return None; }
      var seen := procession.value.seen.value;
      return Some(Location(seen.lat, seen.lng, procession.value.deviation));
    }
  }
}
