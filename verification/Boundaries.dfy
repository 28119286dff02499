/** Runs of new applications to the edge of what runs in general keep. */
module Boundaries {
  import opened Wrappers
  import opened Casework
  import opened Lifecycle
  import opened Filing
  import opened LiveTracking
  import opened AlertLogs

  // ---- numbers without room for their permit ----

  /**
   * A number that fits its own column can still be too long for its permit:
   * the approval that completes this run goes through exactly when the number
   * has at most 46 characters - for the sequence numbers in use, a festival
   * code of at most 35.
   */
  lemma FirstApprovalExactly(cfg: Config, d: Dossier, v: VersionId, st: StationId, next: string)
    requires Opened(d) && |next| <= NUMBER_WIDTH
    ensures var filed := Run(cfg, d, ToSubmission(d.organizer, v, [st], next));
      && filed.status == Submitted && filed.number == Some(next)
      && (Decide(filed, st, Decision.Approved, "").Ok? <==> |next| <= 46)
  {
    FiledReached(cfg, d, v, [st], next);
    var filed := AsFiled(d, v, [st], next);
    assert EveryRow(filed.approvals[st := Approval(Decision.Approved, "")], Decision.Approved);
  }

  lemma PermitRoom(d: Dossier)
    requires PermitFits(d) && d.number.Some?
    ensures d.permits != [] ==> |d.number.value| <= 46
  {
    assert d.permits != [] ==> d.permits[0] in d.permits;
  }

  /** An application with a longer number is never approved, however often its stations decide. */
  lemma LongNumbersNeverApproved(cfg: Config, d: Dossier, es: seq<Event>)
    requires Opened(d) && Run(cfg, d, es).number.Some? && |Run(cfg, d, es).number.value| > 46
    ensures !MovedTo(Run(cfg, d, es).history, Status.Approved) && Run(cfg, d, es).permits == []
  {
    SoundOpen(d);
    SoundRun(cfg, d, es);
    PermitRoom(Run(cfg, d, es));
  }

  // ---- an application whose procession has just begun ----

  /** Approved by its one station, started, and pinged this very moment. */
  predicate JustLive(d: Dossier, st: StationId) {
    && d.status == Status.Live && d.approvals == map[st := Approval(Decision.Approved, "")]
    && d.procession.Some? && d.procession.value.status == LiveStatus.Live
    && d.procession.value.seen.Some? && d.procession.value.seen.value.at == d.clock
    && d.procession.value.deviation != Deviation && d.cache.Some?
    && d.alerts == [] && d.owed == [] && d.permits != [] && d.history != [] && d.route.Some?
  }

  function ApproveCall(st: StationId): Event { Now(OpDecide(st, Decision.Approved, "")) }

  function ToLive(user: UserId, v: VersionId, st: StationId, next: string, ping: Position): seq<Event> {
    ToSubmission(user, v, [st], next) + [ApproveCall(st)] + [Now(OpStart(user))] + [Now(OpRecord(user, ping, Done))]
  }

  lemma ApproveEffect(cfg: Config, d: Dossier, st: StationId)
    requires d.status == Submitted && d.approvals.Keys == {st} && d.permits == [] && d.route.Some?
    requires d.number.Some? && |d.number.value| <= 46
    ensures var r := Step(cfg, d, ApproveCall(st));
      && r == d.(status := Status.Approved, approvals := r.approvals, history := r.history, permits := r.permits)
      && r.approvals == map[st := Approval(Decision.Approved, "")]
      && r.history != [] && r.permits != []
  {
    var rows := d.approvals[st := Approval(Decision.Approved, "")];
    assert rows == map[st := Approval(Decision.Approved, "")];
    assert Aggregate(rows) == Status.Approved;
    assert After(d, 0) == d;
  }

  lemma StartEffect(cfg: Config, d: Dossier)
    requires d.status == Status.Approved && d.route.Some? && d.procession.None?
    ensures var r := Step(cfg, d, Now(OpStart(d.organizer)));
      && r == d.(status := Status.Live, history := r.history, procession := r.procession) && r.history != []
      && r.procession == Some(Procession(LiveStatus.Live, Normal, None))
  {
    assert After(d, 0) == d;
  }

  lemma PingEffect(cfg: Config, d: Dossier, ping: Position)
    requires d.procession == Some(Procession(LiveStatus.Live, Normal, None)) && d.alerts == []
    requires cfg.distance(d.route, ping) <= cfg.alertMeters
    ensures var r := Step(cfg, d, Now(OpRecord(d.organizer, ping, Done)));
      && r == d.(procession := r.procession, fixes := r.fixes, cache := r.cache)
      && r.procession.Some? && r.procession.value.status == LiveStatus.Live && r.procession.value.deviation != Deviation
      && r.procession.value.seen == Some(Seen(ping.lat, ping.lng, d.clock)) && r.cache.Some?
  {
    assert After(d, 0) == d;
  }

  /** A number with room for its permit, and a first ping near the route. */
  predicate Reaches(cfg: Config, d: Dossier, v: VersionId, next: string, ping: Position) {
    Opened(d) && |next| <= 46 && cfg.distance(Some(v), ping) <= cfg.alertMeters
  }

  /** Every new application gets there. */
  lemma JustLiveReached(cfg: Config, d: Dossier, v: VersionId, st: StationId, next: string, ping: Position)
    requires Reaches(cfg, d, v, next, ping)
    ensures var r := Run(cfg, d, ToLive(d.organizer, v, st, next, ping));
      JustLive(r, st) && r.organizer == d.organizer && r.route == Some(v)
  {
    var filing := ToSubmission(d.organizer, v, [st], next);
    FiledReached(cfg, d, v, [st], next);
    RunSnoc(cfg, d, filing, ApproveCall(st));
    RunSnoc(cfg, d, filing + [ApproveCall(st)], Now(OpStart(d.organizer)));
    RunSnoc(cfg, d, filing + [ApproveCall(st)] + [Now(OpStart(d.organizer))], Now(OpRecord(d.organizer, ping, Done)));
    ApproveEffect(cfg, AsFiled(d, v, [st], next), st);
    StartEffect(cfg, Run(cfg, d, filing + [ApproveCall(st)]));
    PingEffect(cfg, Run(cfg, d, filing + [ApproveCall(st)] + [Now(OpStart(d.organizer))]), ping);
  }

  // ---- decisions after the start ----

  /** A rejection while LIVE, then completion: the history claims LIVE -> COMPLETED after -> REJECTED. */
  lemma LateDecisionBreaksHistory(cfg: Config, d: Dossier, st: StationId)
    requires JustLive(d, st)
    ensures var late := Step(cfg, Step(cfg, d, Now(OpDecide(st, Decision.Rejected, "late"))),
                             Now(OpComplete(0, true, false)));
      late.status == Status.Completed && !Connected(late.history)
  {
    var rejected := Step(cfg, d, Now(OpDecide(st, Decision.Rejected, "late")));
    assert st in rejected.approvals && rejected.approvals[st].decision == Decision.Rejected;
    assert rejected.status == Status.Rejected;
    var n := |d.history|;
    var late := Step(cfg, rejected, Now(OpComplete(0, true, false)));
    assert late.history[n] == HistoryRow(Some(Status.Live), Status.Rejected);
    assert late.history[n + 1] == HistoryRow(Some(Status.Live), Status.Completed);
  }

  // ---- sweeps, alerts and pings, one at a time ----

  lemma WeakEffect(cfg: Config, d: Dossier, wait: nat)
    requires d.procession.Some? && d.procession.value.status == LiveStatus.Live && d.procession.value.seen.Some?
    requires d.procession.value.seen.value.at + cfg.warningAge < d.clock + wait
    ensures Step(cfg, d, Event(wait, OpSweepWarning)) ==
      d.(clock := d.clock + wait, procession := Some(d.procession.value.(status := LiveStatus.GpsWarning)),
         owed := d.owed + [Alert.GpsWarning])
  {
  }

  lemma LostEffect(cfg: Config, d: Dossier, wait: nat)
    requires d.procession.Some? && d.procession.value.seen.Some?
    requires d.procession.value.status == LiveStatus.Live || d.procession.value.status == LiveStatus.GpsWarning
    requires d.procession.value.seen.value.at + cfg.lostAge < d.clock + wait
    ensures Step(cfg, d, Event(wait, OpSweepLost)) ==
      d.(clock := d.clock + wait, procession := Some(d.procession.value.(status := LiveStatus.GpsLost)),
         owed := d.owed + [Alert.GpsLost])
  {
  }

  lemma DeliverEffect(cfg: Config, d: Dossier, i: nat)
    requires i < |d.owed|
    ensures Step(cfg, d, Now(OpDeliver(i))) ==
      d.(alerts := d.alerts + [d.owed[i]], owed := Without(d.owed, i))
    ensures Step(cfg, d, Now(OpLose(i))) == d.(owed := Without(d.owed, i))
    ensures |d.owed| == 1 ==> Without(d.owed, i) == []
  {
    assert After(d, 0) == d;
  }

  /** A ping of the organizer's on a procession under way. */
  lemma PingAgain(cfg: Config, d: Dossier, ping: Position, extent: Extent)
    requires d.procession.Some? && Underway(d.procession.value.status) && extent != Inserted
    ensures var r, fix := Step(cfg, d, Now(OpRecord(d.organizer, ping, extent))), Measured(cfg, d, ping);
      var now := Classify(cfg, fix.distance);
      && r.alerts == d.alerts + PingAlerts(d.procession.value, now, extent) && r.owed == d.owed
      && r.fixes == d.fixes + [fix] && r.organizer == d.organizer && r.clock == d.clock
      && r.procession == Some(Procession(LiveStatus.Live, now, Some(Seen(fix.lat, fix.lng, d.clock))))
  {
    assert After(d, 0) == d;
  }

  /** Without the alert for a change of health, or with one too many, the log is out of step. */
  lemma OutOfStep(cfg: Config, d: Dossier, es: seq<Event>)
    requires Opened(d) && Health(Raised(Run(cfg, d, es))) != Some(HealthOf(Run(cfg, d, es).procession))
    ensures !AlertsFit(cfg, d, es)
  {
    ChangesRead(cfg, d, es);
  }

  lemma HealthOfOne(a: Alert)
    ensures Only([a], true) == (if IsGps(a) then [a] else []) && Health([a]) == NextHealth(LiveStatus.Live, a)
  {
    assert [a][..0] == [];
  }

  lemma HealthOfTwo(a: Alert, b: Alert)
    requires IsGps(a) && IsGps(b)
    ensures Only([a, b], true) == [a, b]
    ensures Health([a, b]) ==
      if NextHealth(LiveStatus.Live, a).None? then None else NextHealth(NextHealth(LiveStatus.Live, a).value, b)
  {
    HealthOfOne(a);
    assert [a, b] == [a] + [b];
    OnlyAppend([a], b, true);
    HealthAppend([a], b);
  }

  // ---- a start on a weak signal ----

  /** A weak signal is noticed and alerted. */
  function Noticed(wait: nat): seq<Event> { [Event(wait, OpSweepWarning)] + [Now(OpDeliver(0))] }

  lemma WeakRun(cfg: Config, d: Dossier, wait: nat)
    requires d.procession.Some? && d.procession.value.status == LiveStatus.Live && d.procession.value.seen.Some?
    requires d.procession.value.seen.value.at + cfg.warningAge < d.clock + wait && d.owed == []
    ensures Run(cfg, d, Noticed(wait)) ==
      d.(clock := d.clock + wait, procession := Some(d.procession.value.(status := LiveStatus.GpsWarning)),
         alerts := d.alerts + [Alert.GpsWarning])
  {
    RunSnoc(cfg, d, [], Event(wait, OpSweepWarning));
    assert [] + [Event(wait, OpSweepWarning)] == [Event(wait, OpSweepWarning)];
    RunSnoc(cfg, d, [Event(wait, OpSweepWarning)], Now(OpDeliver(0)));
    WeakEffect(cfg, d, wait);
    DeliverEffect(cfg, Step(cfg, d, Event(wait, OpSweepWarning)), 0);
  }

  predicate WeakLive(cfg: Config, d: Dossier, st: StationId) {
    && d.status == Status.Live && d.approvals == map[st := Approval(Decision.Approved, "")]
    && d.permits != [] && d.route.Some? && d.owed == []
    && d.procession.Some? && d.procession.value.status == LiveStatus.GpsWarning
    && d.procession.value.seen.Some? && d.procession.value.seen.value.at + cfg.warningAge < d.clock
  }

  /** A repeated approval takes a LIVE application back to APPROVED; its procession can be started again. */
  lemma RestartRun(cfg: Config, d: Dossier, st: StationId)
    requires d.status == Status.Live && d.approvals == map[st := Approval(Decision.Approved, "")]
    requires d.permits != [] && d.route.Some?
    requires d.procession.Some? && d.procession.value.status == LiveStatus.GpsWarning
    ensures var r := Run(cfg, d, Again(d.organizer, st));
      && r.procession == Some(d.procession.value.(status := LiveStatus.Live))
      && r.alerts == d.alerts && r.owed == d.owed && r.clock == d.clock
  {
    RunSnoc(cfg, d, [], ApproveCall(st));
    RunSnoc(cfg, d, [ApproveCall(st)], Now(OpStart(d.organizer)));
    assert [] + [ApproveCall(st)] == [ApproveCall(st)];
    assert d.approvals[st := Approval(Decision.Approved, "")] == d.approvals;
    assert Aggregate(d.approvals) == Status.Approved;
  }

  function Again(user: UserId, st: StationId): seq<Event> { [ApproveCall(st)] + [Now(OpStart(user))] }

  /** After such a restart the next sweep finds the same silence again. */
  lemma WeakAgain(cfg: Config, d: Dossier, st: StationId)
    requires WeakLive(cfg, d, st)
    ensures var r := Run(cfg, d, Again(d.organizer, st) + Noticed(0));
      r.alerts == d.alerts + [Alert.GpsWarning] && r.owed == []
  {
    RunConcat(cfg, d, Again(d.organizer, st), Noticed(0));
    RestartRun(cfg, d, st);
    WeakRun(cfg, Run(cfg, d, Again(d.organizer, st)), 0);
  }

  lemma WeakFrom(cfg: Config, d: Dossier, st: StationId) returns (first: seq<Event>)
    requires JustLive(d, st) && cfg.warningAge >= 0
    ensures first == Noticed(cfg.warningAge + 1)
    ensures var weak := Run(cfg, d, first);
      WeakLive(cfg, weak, st) && weak.alerts == [Alert.GpsWarning] && weak.organizer == d.organizer
  {
    first := Noticed(cfg.warningAge + 1);
    WeakRun(cfg, d, cfg.warningAge + 1);
    assert d.alerts + [Alert.GpsWarning] == [Alert.GpsWarning];
  }

  lemma ThenWeakAgain(cfg: Config, d: Dossier, first: seq<Event>, st: StationId) returns (es: seq<Event>)
    requires WeakLive(cfg, Run(cfg, d, first), st) && Run(cfg, d, first).organizer == d.organizer
    ensures es == first + (Again(d.organizer, st) + Noticed(0))
    ensures Run(cfg, d, es).alerts == Run(cfg, d, first).alerts + [Alert.GpsWarning] && Run(cfg, d, es).owed == []
  {
    es := first + (Again(d.organizer, st) + Noticed(0));
    RunConcat(cfg, d, first, Again(d.organizer, st) + Noticed(0));
    WeakAgain(cfg, Run(cfg, d, first), st);
  }

  /** Weak signal, a repeated approval, a second start, and a weak signal once more. */
  lemma RestartBreaksGpsLog(cfg: Config, d: Dossier, st: StationId) returns (es: seq<Event>)
    requires JustLive(d, st) && cfg.warningAge >= 0
    ensures es == Noticed(cfg.warningAge + 1) + (Again(d.organizer, st) + Noticed(0))
    ensures Run(cfg, d, es).alerts == [Alert.GpsWarning, Alert.GpsWarning] && Run(cfg, d, es).owed == []
  {
    var first := WeakFrom(cfg, d, st);
    es := ThenWeakAgain(cfg, d, first, st);
  }

  /** So every new application has a run that alerts twice without a recovery. */
  lemma AlertedTwice(cfg: Config, d: Dossier, v: VersionId, st: StationId, next: string, ping: Position)
    returns (es: seq<Event>)
    requires Reaches(cfg, d, v, next, ping) && cfg.warningAge >= 0
    ensures Run(cfg, d, es).alerts == [Alert.GpsWarning, Alert.GpsWarning] && !AlertsFit(cfg, d, es)
  {
    var live := ToLive(d.organizer, v, st, next, ping);
    JustLiveReached(cfg, d, v, st, next, ping);
    var more := RestartBreaksGpsLog(cfg, Run(cfg, d, live), st);
    es := live + more;
    RunConcat(cfg, d, live, more);
    HealthOfTwo(Alert.GpsWarning, Alert.GpsWarning);
    OutOfStep(cfg, d, es);
  }

  // ---- alerts lost or overtaken ----

  /** Three calls on a procession that has just begun. */
  lemma FromJustLive(cfg: Config, d: Dossier, v: VersionId, st: StationId, next: string, ping: Position,
                     x: Event, y: Event, z: Event) returns (live: Dossier, es: seq<Event>)
    requires Reaches(cfg, d, v, next, ping)
    ensures JustLive(live, st) && live.organizer == d.organizer && live.route == Some(v)
    ensures Run(cfg, d, es) == Step(cfg, Step(cfg, Step(cfg, live, x), y), z)
  {
    var init := ToLive(d.organizer, v, st, next, ping);
    JustLiveReached(cfg, d, v, st, next, ping);
    live, es := Run(cfg, d, init), init + [x] + [y] + [z];
    RunThree(cfg, d, init, x, y, z);
  }

  function Silence(cfg: Config): Event
    requires cfg.lostAge >= 0
  {
    Event(cfg.lostAge + 1, OpSweepLost)
  }

  /** The signal of a procession that has just begun is lost, and nobody alerted yet. */
  lemma SilenceEffect(cfg: Config, d: Dossier, st: StationId)
    requires JustLive(d, st) && cfg.lostAge >= 0
    ensures Step(cfg, d, Silence(cfg)) ==
      d.(clock := d.clock + cfg.lostAge + 1, owed := [Alert.GpsLost],
         procession := Some(d.procession.value.(status := LiveStatus.GpsLost)))
  {
    LostEffect(cfg, d, cfg.lostAge + 1);
    assert d.owed + [Alert.GpsLost] == [Alert.GpsLost];
  }

  /** The signal is lost, and the alert for it raised or lost. */
  lemma SilenceSettles(cfg: Config, d: Dossier, st: StationId, raised: bool) returns (settled: Dossier)
    requires JustLive(d, st) && cfg.lostAge >= 0
    ensures settled == Step(cfg, Step(cfg, d, Silence(cfg)), Now(if raised then OpDeliver(0) else OpLose(0)))
    ensures settled ==
      d.(clock := d.clock + cfg.lostAge + 1, alerts := if raised then [Alert.GpsLost] else [],
         procession := Some(d.procession.value.(status := LiveStatus.GpsLost)))
  {
    SilenceEffect(cfg, d, st);
    DeliverEffect(cfg, Step(cfg, d, Silence(cfg)), 0);
    settled := Step(cfg, Step(cfg, d, Silence(cfg)), Now(if raised then OpDeliver(0) else OpLose(0)));
    assert [] + [Alert.GpsLost] == [Alert.GpsLost];
  }

  /** A ping near the route ends the lost signal. */
  lemma PingEnds(cfg: Config, d: Dossier, ping: Position, extent: Extent)
    requires d.procession.Some? && d.procession.value.status == LiveStatus.GpsLost && extent in {Updated, Done}
    requires d.procession.value.deviation != Deviation && cfg.distance(d.route, ping) <= cfg.alertMeters
    ensures var r := Step(cfg, d, Now(OpRecord(d.organizer, ping, extent)));
      && r.alerts == d.alerts + (if extent == Done then [GpsRecovered] else []) && r.owed == d.owed
      && r.procession.Some? && r.procession.value.status == LiveStatus.Live
  {
    PingAgain(cfg, d, ping, extent);
    assert d.alerts + ([GpsRecovered] + []) == d.alerts + [GpsRecovered];
  }

  /** GPS_LOST without its alert, then a ping: a recovery from nothing. */
  lemma AlertLost(cfg: Config, d: Dossier, v: VersionId, st: StationId, next: string, ping: Position)
    returns (es: seq<Event>)
    requires Reaches(cfg, d, v, next, ping) && cfg.lostAge >= 0
    ensures Run(cfg, d, es).alerts == [GpsRecovered] && !AlertsFit(cfg, d, es)
  {
    var live;
    live, es := FromJustLive(cfg, d, v, st, next, ping,
                             Silence(cfg), Now(OpLose(0)), Now(OpRecord(d.organizer, ping, Done)));
    var settled := SilenceSettles(cfg, live, st, false);
    PingEnds(cfg, settled, ping, Done);
    HealthOfOne(GpsRecovered);
    OutOfStep(cfg, d, es);
  }

  lemma CompleteEffect(cfg: Config, d: Dossier, crash: bool)
    requires d.procession.Some? && d.procession.value.status == LiveStatus.Live
    ensures var r := Step(cfg, d, Now(OpComplete(0, true, crash)));
      && r.status == Status.Completed && r.alerts == d.alerts && r.owed == d.owed
      && r.procession == Some(d.procession.value.(status := LiveStatus.Completed))
      && r.cache == if crash then d.cache else None
  {
    assert After(d, 0) == d;
  }

  lemma PingRaces(cfg: Config, d: Dossier, st: StationId, ping: Position)
    requires JustLive(d, st) && cfg.lostAge >= 0 && cfg.distance(d.route, ping) <= cfg.alertMeters
    ensures var pinged := Step(cfg, Step(cfg, d, Silence(cfg)), Now(OpRecord(d.organizer, ping, Done)));
      var r := Step(cfg, pinged, Now(OpDeliver(0)));
      && r.alerts == [GpsRecovered, Alert.GpsLost] && r.owed == []
      && r.procession.Some? && r.procession.value.status == LiveStatus.Live
  {
    SilenceEffect(cfg, d, st);
    PingEnds(cfg, Step(cfg, d, Silence(cfg)), ping, Done);
    var pinged := Step(cfg, Step(cfg, d, Silence(cfg)), Now(OpRecord(d.organizer, ping, Done)));
    assert pinged.alerts == [GpsRecovered] && pinged.owed == [Alert.GpsLost];
    DeliverEffect(cfg, pinged, 0);
  }

  /** A ping between the UPDATE and its alert: the recovery comes first, and the completed log ends with GPS_LOST. */
  lemma AlertAfterRecovery(cfg: Config, d: Dossier, v: VersionId, st: StationId, next: string, ping: Position)
    returns (es: seq<Event>)
    requires Reaches(cfg, d, v, next, ping) && cfg.lostAge >= 0
    ensures Run(cfg, d, es).status == Status.Completed && Run(cfg, d, es).owed == []
    ensures Run(cfg, d, es).alerts == [GpsRecovered, Alert.GpsLost] && !AlertsFit(cfg, d, es)
  {
    var live, raced;
    live, raced := FromJustLive(cfg, d, v, st, next, ping,
                                Silence(cfg), Now(OpRecord(d.organizer, ping, Done)), Now(OpDeliver(0)));
    PingRaces(cfg, live, st, ping);
    es := raced + [Now(OpComplete(0, true, false))];
    RunSnoc(cfg, d, raced, Now(OpComplete(0, true, false)));
    CompleteEffect(cfg, Run(cfg, d, raced), false);
    HealthOfTwo(GpsRecovered, Alert.GpsLost);
    OutOfStep(cfg, d, es);
  }

  lemma WeakThenLostFrom(cfg: Config, d: Dossier, st: StationId) returns (both: Dossier)
    requires JustLive(d, st) && cfg.lostAge >= 0 && cfg.warningAge >= 0
    ensures both == Step(cfg, Step(cfg, d, Event(cfg.warningAge + 1, OpSweepWarning)), Silence(cfg))
    ensures both.alerts == [] && both.owed == [Alert.GpsWarning, Alert.GpsLost]
    ensures both.procession.Some? && both.procession.value.status == LiveStatus.GpsLost
  {
    var weak := Event(cfg.warningAge + 1, OpSweepWarning);
    WeakEffect(cfg, d, cfg.warningAge + 1);
    assert d.owed + [Alert.GpsWarning] == [Alert.GpsWarning];
    LostEffect(cfg, Step(cfg, d, weak), cfg.lostAge + 1);
    both := Step(cfg, Step(cfg, d, weak), Silence(cfg));
  }

  /** Two overlapping sweeps: the later one's alert is raised first. */
  lemma AlertOvertaken(cfg: Config, d: Dossier, v: VersionId, st: StationId, next: string, ping: Position)
    returns (es: seq<Event>)
    requires Reaches(cfg, d, v, next, ping) && cfg.lostAge >= 0 && cfg.warningAge >= 0
    ensures Run(cfg, d, es).alerts == [Alert.GpsLost] && Run(cfg, d, es).owed == [Alert.GpsWarning]
    ensures !AlertsFit(cfg, d, es)
  {
    var live;
    var weak := Event(cfg.warningAge + 1, OpSweepWarning);
    live, es := FromJustLive(cfg, d, v, st, next, ping, weak, Silence(cfg), Now(OpDeliver(1)));
    var both := WeakThenLostFrom(cfg, live, st);
    DeliverEffect(cfg, both, 1);
    HealthOfTwo(Alert.GpsLost, Alert.GpsWarning);
    HealthOfOne(Alert.GpsLost);
    OutOfStep(cfg, d, es);
  }

  /** A ping that ends a lost signal and dies before saying so. */
  lemma RecoveryLost(cfg: Config, d: Dossier, v: VersionId, st: StationId, next: string, ping: Position)
    returns (es: seq<Event>)
    requires Reaches(cfg, d, v, next, ping) && cfg.lostAge >= 0
    ensures Run(cfg, d, es).alerts == [Alert.GpsLost] && Run(cfg, d, es).owed == []
    ensures HealthOf(Run(cfg, d, es).procession) == LiveStatus.Live && !AlertsFit(cfg, d, es)
  {
    var live;
    live, es := FromJustLive(cfg, d, v, st, next, ping,
                             Silence(cfg), Now(OpDeliver(0)), Now(OpRecord(d.organizer, ping, Updated)));
    var settled := SilenceSettles(cfg, live, st, true);
    PingEnds(cfg, settled, ping, Updated);
    HealthOfOne(Alert.GpsLost);
    OutOfStep(cfg, d, es);
  }

  // ---- deviation alerts and the position after completion ----

  /** A position that far from the route. */
  predicate Far(cfg: Config, v: VersionId, ping: Position) { cfg.distance(Some(v), ping) > cfg.alertMeters }

  /** A ping that leaves the route and dies before its alert. */
  lemma EdgeLost(cfg: Config, d: Dossier, v: VersionId, st: StationId, next: string, ping: Position, far: Position)
    returns (es: seq<Event>)
    requires Reaches(cfg, d, v, next, ping) && Far(cfg, v, far)
    ensures Run(cfg, d, es).alerts == [] && !DeviationFits(cfg, Run(cfg, d, es))
  {
    var init, e := ToLive(d.organizer, v, st, next, ping), Now(OpRecord(d.organizer, far, Updated));
    JustLiveReached(cfg, d, v, st, next, ping);
    es := init + [e];
    RunSnoc(cfg, d, init, e);
    PingAgain(cfg, Run(cfg, d, init), far, Updated);
    DeviatesUnalerted(cfg, Run(cfg, d, es));
  }

  /** A procession that deviates has been alerted about at least once. */
  lemma DeviatesUnalerted(cfg: Config, d: Dossier)
    requires d.procession.Some? && d.procession.value.deviation == Deviation && Only(d.alerts, false) == []
    ensures !DeviationFits(cfg, d)
  {
    EdgesAlternate(Classes(cfg, d.fixes));
  }

  /** A ping that ends a lost signal, leaves the route, and dies between its two alerts: only the first log is right. */
  lemma EdgeLostAfterRecovery(cfg: Config, d: Dossier, v: VersionId, st: StationId, next: string, ping: Position,
                              far: Position) returns (es: seq<Event>)
    requires Reaches(cfg, d, v, next, ping) && Far(cfg, v, far) && cfg.lostAge >= 0
    ensures Run(cfg, d, es).alerts == [Alert.GpsLost, GpsRecovered]
    ensures AlertsFit(cfg, d, es) && !DeviationFits(cfg, Run(cfg, d, es))
  {
    var init, e := ToLive(d.organizer, v, st, next, ping), Now(OpRecord(d.organizer, far, RecoverySent));
    JustLiveReached(cfg, d, v, st, next, ping);
    var live, lost := Run(cfg, d, init), init + [Silence(cfg)] + [Now(OpDeliver(0))];
    es := lost + [e];
    RunSnoc(cfg, d, init, Silence(cfg));
    RunSnoc(cfg, d, init + [Silence(cfg)], Now(OpDeliver(0)));
    RunSnoc(cfg, d, lost, e);
    var settled := SilenceSettles(cfg, live, st, true);
    RecoversFar(cfg, Run(cfg, d, lost), far);
    InStepWhenLive(cfg, d, v, st, next, ping);
    FitsNext(cfg, d, init, Silence(cfg));
    FitsNext(cfg, d, init + [Silence(cfg)], Now(OpDeliver(0)));
    FitsNext(cfg, d, lost, e);
  }

  lemma NoEdges(a: Alert, b: Alert)
    requires IsGps(a) && IsGps(b)
    ensures Only([a, b], false) == []
  {
    assert [a, b] == [] + [a] + [b];
    OnlyAppend([], a, false);
    OnlyAppend([] + [a], b, false);
  }

  lemma RecoversFar(cfg: Config, d: Dossier, far: Position)
    requires d.procession.Some? && d.procession.value.status == LiveStatus.GpsLost && d.alerts == [Alert.GpsLost]
    requires cfg.distance(d.route, far) > cfg.alertMeters
    ensures var r := Step(cfg, d, Now(OpRecord(d.organizer, far, RecoverySent)));
      r.alerts == [Alert.GpsLost, GpsRecovered] && !DeviationFits(cfg, r)
  {
    PingAgain(cfg, d, far, RecoverySent);
    var r := Step(cfg, d, Now(OpRecord(d.organizer, far, RecoverySent)));
    assert [Alert.GpsLost] + ([GpsRecovered] + []) == [Alert.GpsLost, GpsRecovered];
    NoEdges(Alert.GpsLost, GpsRecovered);
    DeviatesUnalerted(cfg, r);
  }

  lemma FitsNext(cfg: Config, d: Dossier, es: seq<Event>, e: Event)
    requires Opened(d) && AlertsFit(cfg, d, es)
    ensures AlertsFit(cfg, d, es + [e]) <==> KeepsAlerts(cfg, Run(cfg, d, es), e)
  {
    assert (es + [e])[..|es|] == es && (es + [e])[..|es| + 1] == es + [e];
    AlertsFitNext(cfg, d, es + [e], |es|);
  }

  predicate Sweeps(e: Event) { e.op.OpSweepLost? || e.op.OpSweepWarning? }

  /** Without a sweep nothing happens to the health, and there is nothing to alert. */
  lemma {:induction false} NoSweepNoChange(cfg: Config, d: Dossier, es: seq<Event>)
    requires Opened(d) && forall e :: e in es ==> !Sweeps(e)
    ensures Changes(cfg, d, es) == [] && HealthOf(Run(cfg, d, es).procession) == LiveStatus.Live
  {
    if es != [] {
      NoSweepNoChange(cfg, d, es[..|es| - 1]);
      StaysHealthy(cfg, Run(cfg, d, es[..|es| - 1]), es[|es| - 1]);
    }
  }

  lemma StaysHealthy(cfg: Config, d: Dossier, e: Event)
    requires HealthOf(d.procession) == LiveStatus.Live && !Sweeps(e)
    ensures HealthOf(Step(cfg, d, e).procession) == LiveStatus.Live
  {
  }

  lemma InStepWhenLive(cfg: Config, d: Dossier, v: VersionId, st: StationId, next: string, ping: Position)
    requires Reaches(cfg, d, v, next, ping)
    ensures AlertsFit(cfg, d, ToLive(d.organizer, v, st, next, ping))
  {
    JustLiveReached(cfg, d, v, st, next, ping);
    ConfirmationsOnly([st]);
    NoSweepNoChange(cfg, d, ToLive(d.organizer, v, st, next, ping));
  }

  /** A completion that dies before it drops the key: the last position is still shown. */
  lemma ShownAfterCompletion(cfg: Config, d: Dossier, v: VersionId, st: StationId, next: string, ping: Position)
    returns (es: seq<Event>)
    requires Reaches(cfg, d, v, next, ping)
    ensures Over(Run(cfg, d, es)) && GetCurrentLocation(Run(cfg, d, es)) != None
  {
    var init, e := ToLive(d.organizer, v, st, next, ping), Now(OpComplete(0, true, true));
    JustLiveReached(cfg, d, v, st, next, ping);
    es := init + [e];
    RunSnoc(cfg, d, init, e);
    CompleteEffect(cfg, Run(cfg, d, init), true);
  }
}
