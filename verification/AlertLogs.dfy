/** When the alerts raised along a run are the ones its changes call for: GPS health, and route deviation. */
module AlertLogs {
  import opened Wrappers
  import opened Casework
  import opened Lifecycle

  // ---- the GPS alert log ----

  /** One alert read in some health; None when it does not belong there. */
  function NextHealth(h: LiveStatus, a: Alert): Option<LiveStatus> {
    match a
    case GpsWarning => if h == LiveStatus.Live then Some(LiveStatus.GpsWarning) else None
    case GpsLost => if h == LiveStatus.Live || h == LiveStatus.GpsWarning then Some(LiveStatus.GpsLost) else None
    case GpsRecovered => if h == LiveStatus.GpsWarning || h == LiveStatus.GpsLost then Some(LiveStatus.Live) else None
    case _ => Some(h)
  }

  /** Reads a log of GPS alerts: the health it leaves the procession in, None when it is ill-formed. */
  function Health(log: seq<Alert>): Option<LiveStatus> {
    if log == [] then Some(LiveStatus.Live)
    else
      var h := Health(log[..|log| - 1]);
      if h.None? then None else NextHealth(h.value, log[|log| - 1])
  }

  /** The GPS health the rows stand for; a procession that is over or not begun is healthy. */
  function HealthOf(p: Option<Procession>): LiveStatus {
    if p.Some? && (p.value.status == LiveStatus.GpsWarning || p.value.status == LiveStatus.GpsLost) then p.value.status
    else LiveStatus.Live
  }

  /** The alert a change of GPS health calls for. */
  function HealthChange(before: LiveStatus, now: LiveStatus): seq<Alert> {
    if now == before then []
    else if now == LiveStatus.GpsWarning then [Alert.GpsWarning]
    else if now == LiveStatus.GpsLost then [Alert.GpsLost]
    else [GpsRecovered]
  }

  function Change(cfg: Config, d: Dossier, e: Event): seq<Alert> {
    HealthChange(HealthOf(d.procession), HealthOf(Step(cfg, d, e).procession))
  }

  /** One alert for each change of the row's health along a run, in order. */
  function Changes(cfg: Config, d: Dossier, es: seq<Event>): seq<Alert> {
    if es == [] then [] else
    Changes(cfg, d, es[..|es| - 1]) + Change(cfg, Run(cfg, d, es[..|es| - 1]), es[|es| - 1])
  }

  predicate IsGps(a: Alert) { a.GpsWarning? || a.GpsLost? || a.GpsRecovered? }

  /** The GPS alerts of a log, or the deviation alerts. */
  function Only(log: seq<Alert>, gps: bool): seq<Alert> {
    if log == [] then [] else
    var a := log[|log| - 1];
    Only(log[..|log| - 1], gps) + (if IsGps(a) == gps then [a] else [])
  }

  /** The GPS alerts raised so far, then the ones still owed. */
  function Raised(d: Dossier): seq<Alert> { Only(d.alerts, true) + d.owed }

  /** Each change of health was alerted once, in order, or its alert is still owed. */
  predicate AlertsFit(cfg: Config, d: Dossier, es: seq<Event>) { Raised(Run(cfg, d, es)) == Changes(cfg, d, es) }

  // ---- what breaks it ----

  /** A start that goes through on a procession already under way with a weak or lost signal. */
  predicate RestartsUnhealthy(cfg: Config, d: Dossier, e: Event) {
    e.op.OpStart? && Succeeds(cfg, d, e) && HealthOf(d.procession) != LiveStatus.Live
  }

  /** A ping on a weak or lost signal that dies between its row update and its recovery alert. */
  predicate LosesRecovery(cfg: Config, d: Dossier, e: Event) {
    e.op.OpRecord? && e.op.extent == Updated && Succeeds(cfg, d, e) && HealthOf(d.procession) != LiveStatus.Live
  }

  /** An alert of the watchdog is never raised. */
  predicate LosesOwed(d: Dossier, e: Event) { e.op.OpLose? && e.op.index < |d.owed| }

  /** An alert is raised ahead of one owed for longer: by a ping before the watchdog got to it, or by the watchdog. */
  predicate Overtakes(cfg: Config, d: Dossier, e: Event) {
    || (e.op.OpRecord? && e.op.extent != Inserted && e.op.extent != Updated && Succeeds(cfg, d, e)
        && HealthOf(d.procession) != LiveStatus.Live && d.owed != [])
    || (e.op.OpDeliver? && 0 < e.op.index < |d.owed|)
  }

  /** An alert is lost or overtaken. */
  predicate Misses(cfg: Config, d: Dossier, e: Event) {
    LosesRecovery(cfg, d, e) || LosesOwed(d, e) || Overtakes(cfg, d, e)
  }

  predicate KeepsAlerts(cfg: Config, d: Dossier, e: Event) { !RestartsUnhealthy(cfg, d, e) && !Misses(cfg, d, e) }

  lemma OnlyAppend(log: seq<Alert>, a: Alert, gps: bool)
    ensures Only(log + [a], gps) == Only(log, gps) + (if IsGps(a) == gps then [a] else [])
  {
    assert (log + [a])[..|log|] == log;
  }

  /** At most one alert more. */
  lemma OnlyMaybe(log: seq<Alert>, more: seq<Alert>, gps: bool)
    requires |more| <= 1
    ensures Only(log + more, gps) == Only(log, gps) + (if more != [] && IsGps(more[0]) == gps then more else [])
  {
    if more == [] {
      assert log + more == log && Only(log, gps) + [] == Only(log, gps);
    } else {
      assert more == [more[0]];
      OnlyAppend(log, more[0], gps);
    }
  }

  lemma OnlyOfPing(log: seq<Alert>, p: Procession, now: DeviationStatus, extent: Extent)
    ensures Only(log + PingAlerts(p, now, extent), true) ==
      Only(log, true) + if extent == Inserted || extent == Updated then [] else Recovery(p.status)
    ensures Only(log + PingAlerts(p, now, extent), false) ==
      Only(log, false) + if extent == Alerted || extent == Done then DeviationChange(p.deviation, now) else []
  {
    var recovery := if extent == Inserted || extent == Updated then [] else Recovery(p.status);
    var edge := if extent == Alerted || extent == Done then DeviationChange(p.deviation, now) else [];
    assert log + PingAlerts(p, now, extent) == log + recovery + edge;
    OnlyTwo(log, recovery, edge);
  }

  lemma OnlyTwo(log: seq<Alert>, recovery: seq<Alert>, edge: seq<Alert>)
    requires recovery == [] || recovery == [GpsRecovered]
    requires |edge| <= 1 && (edge != [] ==> !IsGps(edge[0]))
    ensures Only(log + recovery + edge, true) == Only(log, true) + recovery
    ensures Only(log + recovery + edge, false) == Only(log, false) + edge
  {
    OnlyMaybe(log, recovery, true);
    OnlyMaybe(log, recovery, false);
    OnlyMaybe(log + recovery, edge, true);
    OnlyMaybe(log + recovery, edge, false);
  }

  // ---- reading a log ----

  lemma HealthAppend(log: seq<Alert>, a: Alert)
    ensures Health(log + [a]) == if Health(log).None? then None else NextHealth(Health(log).value, a)
  {
    assert (log + [a])[..|log|] == log;
  }

  /** The same watchdog alert twice in a row is never well-formed. */
  lemma {:induction false} NoEcho(log: seq<Alert>, k: nat)
    requires k + 1 < |log| && log[k] == log[k + 1] && (log[k].GpsWarning? || log[k].GpsLost?)
    ensures Health(log).None?
  {
    var n := |log| - 1;
    if k + 1 < n {
      NoEcho(log[..n], k);
    } else {
      assert log[..n][..k] == log[..k];
    }
  }

  /** An alert read where it belongs takes the log from one health to the next. */
  lemma ChangeReads(cfg: Config, d: Dossier, e: Event, log: seq<Alert>)
    requires Health(log) == Some(HealthOf(d.procession))
    ensures Health(log + Change(cfg, d, e)) == Some(HealthOf(Step(cfg, d, e).procession))
  {
    var change := Change(cfg, d, e);
    if change == [] {
      assert log + change == log;
    } else {
      HealthAppend(log, change[0]);
      assert change == [change[0]];
    }
  }

  /** The changes of a run always read as the health of its row. */
  lemma {:induction false} ChangesRead(cfg: Config, d: Dossier, es: seq<Event>)
    requires Opened(d)
    ensures Health(Changes(cfg, d, es)) == Some(HealthOf(Run(cfg, d, es).procession))
  {
    if es != [] {
      ChangesRead(cfg, d, es[..|es| - 1]);
      ChangeReads(cfg, Run(cfg, d, es[..|es| - 1]), es[|es| - 1], Changes(cfg, d, es[..|es| - 1]));
    }
  }

  // ---- when the log keeps up ----

  lemma RaisedByRecord(cfg: Config, d: Dossier, e: Event)
    requires e.op.OpRecord?
    ensures Raised(Step(cfg, d, e)) == Raised(d) + Change(cfg, d, e) <==> KeepsAlerts(cfg, d, e)
  {
    var log, owed := Only(d.alerts, true), d.owed;
    assert log + owed + [] == log + owed;
    if Succeeds(cfg, d, e) {
      PingRaises(cfg, d, e);
      assert log + [] == log;
      RecoveryFirst(log, owed);
    }
  }

  lemma PingLogs(cfg: Config, d: Dossier, e: Event)
    requires e.op.OpRecord? && Succeeds(cfg, d, e)
    ensures var r, p, now := Step(cfg, d, e), d.procession.value, Classify(cfg, cfg.distance(d.route, e.op.ping));
      r.owed == d.owed && r.alerts == d.alerts + PingAlerts(p, now, e.op.extent)
  {
    assert d.alerts + [] == d.alerts;
  }

  lemma PingChanges(cfg: Config, d: Dossier, e: Event)
    requires e.op.OpRecord? && Succeeds(cfg, d, e)
    ensures Change(cfg, d, e) == if e.op.extent == Inserted then [] else Recovery(d.procession.value.status)
  {
  }

  lemma PingRaises(cfg: Config, d: Dossier, e: Event)
    requires e.op.OpRecord? && Succeeds(cfg, d, e)
    ensures var r, recovery := Step(cfg, d, e), Recovery(d.procession.value.status);
      && r.owed == d.owed && recovery in {[], [GpsRecovered]}
      && Change(cfg, d, e) == (if e.op.extent == Inserted then [] else recovery)
      && Only(r.alerts, true) ==
           Only(d.alerts, true) + if e.op.extent == Inserted || e.op.extent == Updated then [] else recovery
  {
    PingLogs(cfg, d, e);
    PingChanges(cfg, d, e);
    OnlyOfPing(d.alerts, d.procession.value, Classify(cfg, cfg.distance(d.route, e.op.ping)), e.op.extent);
  }

  lemma RecoveryFirst(log: seq<Alert>, owed: seq<SignalAlert>)
    ensures log + [GpsRecovered] + owed == log + owed + [GpsRecovered] <==> owed == []
    ensures log + owed != log + owed + [GpsRecovered]
  {
    assert |log + owed| != |log + owed + [GpsRecovered]|;
    assert (log + [GpsRecovered] + owed)[|log|] == GpsRecovered;
    if owed != [] { assert (log + owed + [GpsRecovered])[|log|] == owed[0]; }
  }

  lemma RaisedByDelivery(cfg: Config, d: Dossier, e: Event)
    requires Health(Raised(d)).Some? && e.op.OpDeliver?
    ensures Raised(Step(cfg, d, e)) == Raised(d) + Change(cfg, d, e) <==> KeepsAlerts(cfg, d, e)
  {
    DeliveryKeeps(cfg, d, e);
    DeliveryRaises(cfg, d, e);
    var r := Raised(Step(cfg, d, e));
    assert Raised(d) + [] == Raised(d);
    assert r == Raised(d) <==> !(0 < e.op.index < |d.owed|) by {
      if e.op.index < |d.owed| { InTurnExactly(Only(d.alerts, true), d.owed, e.op.index); }
    }
  }

  lemma DeliveryKeeps(cfg: Config, d: Dossier, e: Event)
    requires e.op.OpDeliver?
    ensures KeepsAlerts(cfg, d, e) <==> !(0 < e.op.index < |d.owed|)
  {
  }

  lemma DeliveryRaises(cfg: Config, d: Dossier, e: Event)
    requires e.op.OpDeliver?
    ensures var i, r := e.op.index, Step(cfg, d, e);
      && Change(cfg, d, e) == []
      && Raised(r) == if i < |d.owed| then Only(d.alerts, true) + [d.owed[i]] + Without(d.owed, i) else Raised(d)
  {
    DeliveryEffect(cfg, d, e);
    if e.op.index < |d.owed| { OnlyAppend(d.alerts, d.owed[e.op.index], true); }
  }

  lemma DeliveryEffect(cfg: Config, d: Dossier, e: Event)
    requires e.op.OpDeliver?
    ensures var i, r := e.op.index, Step(cfg, d, e);
      && r.procession == d.procession
      && r.alerts == (if i < |d.owed| then d.alerts + [d.owed[i]] else d.alerts)
      && r.owed == if i < |d.owed| then Without(d.owed, i) else d.owed
  {
  }

  lemma InTurnExactly(log: seq<Alert>, owed: seq<SignalAlert>, i: nat)
    requires i < |owed| && Health(log + owed).Some?
    ensures log + [owed[i]] + Without(owed, i) == log + owed <==> i == 0
  {
    if i > 0 {
      OutOfTurn(log, owed, i);
    } else {
      assert log + [owed[0]] + Without(owed, 0) == log + owed;
    }
  }

  /** Delivering another than the oldest shows, as long as what is owed is well-formed. */
  lemma OutOfTurn(log: seq<Alert>, owed: seq<SignalAlert>, i: nat)
    requires 0 < i < |owed| && Health(log + owed).Some?
    ensures log + [owed[i]] + Without(owed, i) != log + owed
  {
    var was, now := log + owed, log + [owed[i]] + Without(owed, i);
    if now == was {
      assert now[|log|] == owed[i] && was[|log|] == owed[0];
      assert now[|log| + 1] == owed[0] && was[|log| + 1] == owed[1];
      NoEcho(was, |log|);
    }
  }

  lemma SweepOwes(cfg: Config, d: Dossier, e: Event)
    requires e.op.OpSweepLost? || e.op.OpSweepWarning?
    ensures Step(cfg, d, e).alerts == d.alerts && Step(cfg, d, e).owed == d.owed + Change(cfg, d, e)
  {
  }

  lemma RaisedBySweep(cfg: Config, d: Dossier, e: Event)
    requires e.op.OpSweepLost? || e.op.OpSweepWarning?
    ensures Raised(Step(cfg, d, e)) == Raised(d) + Change(cfg, d, e) && KeepsAlerts(cfg, d, e)
  {
    SweepOwes(cfg, d, e);
    assert Only(d.alerts, true) + (d.owed + Change(cfg, d, e)) == Only(d.alerts, true) + d.owed + Change(cfg, d, e);
  }

  lemma RaisedByLoss(cfg: Config, d: Dossier, e: Event)
    requires e.op.OpLose?
    ensures Raised(Step(cfg, d, e)) == Raised(d) + Change(cfg, d, e) <==> KeepsAlerts(cfg, d, e)
  {
    var r := Step(cfg, d, e);
    assert Change(cfg, d, e) == [] && r.alerts == d.alerts && Raised(d) + [] == Raised(d);
    if LosesOwed(d, e) {
      assert |r.owed| < |d.owed|;
      assert |Raised(r)| < |Raised(d)|;
    }
  }

  /** The remaining calls raise, owe and lose nothing; only a restart changes the health. */
  predicate Silent(e: Event) {
    !e.op.OpRecord? && !e.op.OpDeliver? && !e.op.OpLose? && !e.op.OpSweepLost? && !e.op.OpSweepWarning?
  }

  lemma SilentStep(cfg: Config, d: Dossier, e: Event)
    requires Silent(e)
    ensures Step(cfg, d, e).alerts == d.alerts && Step(cfg, d, e).owed == d.owed
  {
  }

  lemma SilentChange(cfg: Config, d: Dossier, e: Event)
    requires Silent(e)
    ensures Change(cfg, d, e) != [] <==> RestartsUnhealthy(cfg, d, e)
  {
  }

  lemma RaisedBySilent(cfg: Config, d: Dossier, e: Event)
    requires Silent(e)
    ensures Raised(Step(cfg, d, e)) == Raised(d) + Change(cfg, d, e) <==> KeepsAlerts(cfg, d, e)
  {
    SilentStep(cfg, d, e);
    SilentChange(cfg, d, e);
    if Change(cfg, d, e) == [] {
      assert Raised(d) + [] == Raised(d);
    } else {
      assert |Raised(d) + Change(cfg, d, e)| != |Raised(d)|;
    }
  }

  /**
   * A call adds to the log, raised or owed, exactly the alert its change of
   * health calls for - if and only if it neither restarts a weak or lost signal
   * nor loses an alert nor lets one overtake another.
   */
  lemma AlertsFitStep(cfg: Config, d: Dossier, e: Event)
    requires Health(Raised(d)).Some?
    ensures Raised(Step(cfg, d, e)) == Raised(d) + Change(cfg, d, e) <==> KeepsAlerts(cfg, d, e)
  {
    if e.op.OpRecord? {
      RaisedByRecord(cfg, d, e);
    } else if e.op.OpDeliver? {
      RaisedByDelivery(cfg, d, e);
    } else if e.op.OpLose? {
      RaisedByLoss(cfg, d, e);
    } else if e.op.OpSweepLost? || e.op.OpSweepWarning? {
      RaisedBySweep(cfg, d, e);
    } else {
      RaisedBySilent(cfg, d, e);
    }
  }

  lemma AlertsFitNext(cfg: Config, d: Dossier, es: seq<Event>, k: nat)
    requires Opened(d) && k < |es| && AlertsFit(cfg, d, es[..k])
    ensures AlertsFit(cfg, d, es[..k + 1]) <==> KeepsAlerts(cfg, At(cfg, d, es, k), es[k])
  {
    assert es[..k + 1][..k] == es[..k];
    ChangesRead(cfg, d, es[..k]);
    AlertsFitStep(cfg, At(cfg, d, es, k), es[k]);
  }

  lemma {:induction false} AlertsFitUpTo(cfg: Config, d: Dossier, es: seq<Event>, k: nat)
    requires Opened(d) && k <= |es| && forall j :: 0 <= j < k ==> KeepsAlerts(cfg, At(cfg, d, es, j), es[j])
    ensures AlertsFit(cfg, d, es[..k])
  {
    if k == 0 {
      assert es[..0] == [];
    } else {
      AlertsFitUpTo(cfg, d, es, k - 1);
      AlertsFitNext(cfg, d, es, k - 1);
    }
  }

  /**
   * At every moment of a run each change of GPS health so far was alerted once
   * and in order, or its alert is still owed - if and only if no start in the
   * run goes through on a weak or lost signal and no alert is lost or overtaken.
   */
  lemma AlertsFitExactly(cfg: Config, d: Dossier, es: seq<Event>)
    requires Opened(d)
    ensures (forall k :: 0 <= k <= |es| ==> AlertsFit(cfg, d, es[..k])) <==>
      (forall k :: 0 <= k < |es| ==> KeepsAlerts(cfg, At(cfg, d, es, k), es[k]))
  {
    if forall k :: 0 <= k <= |es| ==> AlertsFit(cfg, d, es[..k]) {
      forall k | 0 <= k < |es| ensures KeepsAlerts(cfg, At(cfg, d, es, k), es[k]) {
        assert AlertsFit(cfg, d, es[..k]) && AlertsFit(cfg, d, es[..k + 1]);
        AlertsFitNext(cfg, d, es, k);
      }
    }
    if forall k :: 0 <= k < |es| ==> KeepsAlerts(cfg, At(cfg, d, es, k), es[k]) {
      forall k | 0 <= k <= |es| ensures AlertsFit(cfg, d, es[..k]) {
        AlertsFitUpTo(cfg, d, es, k);
      }
    }
  }

  // ---- the same log as a language: blocks, each closed by one RECOVERED ----

  datatype Trouble = Weak | Lost | WeakThenLost

  function Opening(t: Trouble): seq<Alert> {
    match t
    case Weak => [Alert.GpsWarning]
    case Lost => [Alert.GpsLost]
    case WeakThenLost => [Alert.GpsWarning, Alert.GpsLost]
  }

  function Blocks(ts: seq<Trouble>): seq<Alert> {
    if ts == [] then [] else Blocks(ts[..|ts| - 1]) + Opening(ts[|ts| - 1]) + [GpsRecovered]
  }

  /** The block still open: nothing when healthy. */
  function Unclosed(t: Option<Trouble>): seq<Alert> { if t.Some? then Opening(t.value) else [] }

  function HealthAfter(t: Option<Trouble>): LiveStatus {
    if t.None? then LiveStatus.Live else if t.value == Weak then LiveStatus.GpsWarning else LiveStatus.GpsLost
  }

  ghost predicate InBlocks(log: seq<Alert>, health: LiveStatus) {
    exists ts: seq<Trouble>, open: Option<Trouble> ::
      HealthAfter(open) == health && log == Blocks(ts) + Unclosed(open)
  }

  lemma BlockCloses(ts: seq<Trouble>, t: Trouble)
    ensures Blocks(ts + [t]) == Blocks(ts) + Opening(t) + [GpsRecovered]
  {
    assert (ts + [t])[..|ts|] == ts;
  }

  /** One GPS alert opens a block, worsens the one that is open, or closes it. */
  lemma BlocksGrow(ts: seq<Trouble>, open: Option<Trouble>, a: Alert)
    returns (ts': seq<Trouble>, open': Option<Trouble>)
    requires IsGps(a) && NextHealth(HealthAfter(open), a).Some?
    ensures NextHealth(HealthAfter(open), a) == Some(HealthAfter(open'))
    ensures Blocks(ts) + Unclosed(open) + [a] == Blocks(ts') + Unclosed(open')
  {
    match a {
      case GpsWarning => ts', open' := ts, Some(Weak);
      case GpsLost => ts', open' := ts, Some(if open.None? then Lost else WeakThenLost);
      case GpsRecovered =>
        BlockCloses(ts, open.value);
        ts', open' := ts + [open.value], None;
    }
  }

  /** A well-formed log is blocks and at most one open block, which says the health. */
  lemma {:induction false} HealthIsBlocks(log: seq<Alert>) returns (ts: seq<Trouble>, open: Option<Trouble>)
    requires Health(log).Some?
    ensures Health(log) == Some(HealthAfter(open)) && Only(log, true) == Blocks(ts) + Unclosed(open)
  {
    if log == [] {
      ts, open := [], None;
    } else {
      var init, a := log[..|log| - 1], log[|log| - 1];
      ts, open := HealthIsBlocks(init);
      if IsGps(a) { ts, open := BlocksGrow(ts, open, a); }
    }
  }

  /** Decisions that stop at the start leave nothing to restart. */
  lemma NoRestart(cfg: Config, d: Dossier, es: seq<Event>, k: nat)
    requires Opened(d) && DecisionsStop(cfg, d, es) && k < |es|
    ensures !RestartsUnhealthy(cfg, At(cfg, d, es, k), es[k])
  {
    StopPrefix(cfg, d, es, k);
    DisciplinedRun(cfg, d, es[..k]);
  }

  /** When decisions stop at the start, a lost or overtaken alert is the only way for the log to fall out of step. */
  lemma GpsLogExactly(cfg: Config, d: Dossier, es: seq<Event>)
    requires Opened(d) && DecisionsStop(cfg, d, es)
    ensures (forall k :: 0 <= k <= |es| ==> AlertsFit(cfg, d, es[..k])) <==>
      (forall k :: 0 <= k < |es| ==> !Misses(cfg, At(cfg, d, es, k), es[k]))
  {
    AlertsFitExactly(cfg, d, es);
    forall k | 0 <= k < |es|
      ensures KeepsAlerts(cfg, At(cfg, d, es, k), es[k]) <==> !Misses(cfg, At(cfg, d, es, k), es[k])
    {
      NoRestart(cfg, d, es, k);
    }
  }

  lemma {:induction false} OnlyGps(log: seq<Alert>)
    requires forall a :: a in log ==> IsGps(a)
    ensures Only(log, true) == log
  {
    if log != [] {
      OnlyGps(log[..|log| - 1]);
      assert log == log[..|log| - 1] + [log[|log| - 1]];
    }
  }

  lemma {:induction false} ChangesAreGps(cfg: Config, d: Dossier, es: seq<Event>)
    ensures forall a :: a in Changes(cfg, d, es) ==> IsGps(a)
  {
    if es != [] { ChangesAreGps(cfg, d, es[..|es| - 1]); }
  }

  lemma OwedShows(log: seq<Alert>, owed: seq<SignalAlert>)
    requires owed != []
    ensures Health(log + owed) != Some(LiveStatus.Live)
  {
    var n := |owed| - 1;
    assert log + owed == log + owed[..n] + [owed[n]];
    HealthAppend(log + owed[..n], owed[n]);
  }

  /** A healthy procession owes no alert. */
  lemma NothingOwed(d: Dossier)
    requires Health(Raised(d)) == Some(LiveStatus.Live)
    ensures d.owed == [] && Raised(d) == Only(d.alerts, true)
  {
    if d.owed != [] {
      OwedShows(Only(d.alerts, true), d.owed);
    } else {
      assert Only(d.alerts, true) + [] == Only(d.alerts, true);
    }
  }

  lemma ChangesInBlocks(cfg: Config, d: Dossier, es: seq<Event>)
    requires Opened(d)
    ensures InBlocks(Changes(cfg, d, es), HealthOf(Run(cfg, d, es).procession))
  {
    var log := Changes(cfg, d, es);
    ChangesRead(cfg, d, es);
    ChangesAreGps(cfg, d, es);
    OnlyGps(log);
    var ts, open := HealthIsBlocks(log);
  }

  lemma CompletedIsHealthy(cfg: Config, d: Dossier, es: seq<Event>)
    requires Opened(d) && Run(cfg, d, es).status == Status.Completed
    ensures HealthOf(Run(cfg, d, es).procession) == LiveStatus.Live
  {
    SoundOpen(d);
    SoundRun(cfg, d, es);
  }

  /**
   * A log in step is, with the alerts still owed, blocks of WARNING, LOST or
   * WARNING then LOST, each closed by one RECOVERED, the open one being what the
   * row says; at completion nothing is owed and no block is open.
   */
  lemma GpsLogWellFormed(cfg: Config, d: Dossier, es: seq<Event>)
    requires Opened(d) && AlertsFit(cfg, d, es)
    ensures var r := Run(cfg, d, es); InBlocks(Raised(r), HealthOf(r.procession))
    ensures var r := Run(cfg, d, es);
      r.status == Status.Completed ==> r.owed == [] && InBlocks(Only(r.alerts, true), LiveStatus.Live)
  {
    ChangesInBlocks(cfg, d, es);
    if Run(cfg, d, es).status == Status.Completed {
      CompletedIsHealthy(cfg, d, es);
      ChangesRead(cfg, d, es);
      NothingOwed(Run(cfg, d, es));
    }
  }

  // ---- route deviation alerts ----

  function Classes(cfg: Config, fixes: seq<Fix>): (cs: seq<DeviationStatus>)
    ensures |cs| == |fixes|
  {
    seq(|fixes|, i requires 0 <= i < |fixes| => Classify(cfg, fixes[i].distance))
  }

  /** The class before the k-th ping; processions begin NORMAL. */
  function Before(cs: seq<DeviationStatus>, k: nat): DeviationStatus
    requires k <= |cs|
  {
    if k == 0 then Normal else cs[k - 1]
  }

  /** Rising and falling edges of "is deviating" along the pings. */
  function Edges(cs: seq<DeviationStatus>): seq<Alert> {
    if cs == [] then [] else
    var n := |cs| - 1;
    var was, now := Before(cs, n) == Deviation, cs[n] == Deviation;
    Edges(cs[..n]) + (if now && !was then [RouteDeviation] else if was && !now then [RouteDeviationResolved] else [])
  }

  /** Edges alternate, beginning with a deviation, and an odd number of them means deviating now. */
  lemma {:induction false} EdgesAlternate(cs: seq<DeviationStatus>)
    ensures forall i :: 0 <= i < |Edges(cs)| ==>
      Edges(cs)[i] == (if i % 2 == 0 then RouteDeviation else RouteDeviationResolved)
    ensures |Edges(cs)| % 2 == 1 <==> Before(cs, |cs|) == Deviation
  {
    if cs != [] {
      EdgesAlternate(cs[..|cs| - 1]);
    }
  }

  predicate DeviationFits(cfg: Config, d: Dossier) {
    && (d.procession.None? ==> d.fixes == [])
    && (d.procession.Some? ==> d.procession.value.deviation == Before(Classes(cfg, d.fixes), |d.fixes|))
    && Only(d.alerts, false) == Edges(Classes(cfg, d.fixes))
  }

  /** A ping that dies before its row shows the class it found, or before the alert of an edge. */
  predicate LosesEdge(cfg: Config, d: Dossier, e: Event) {
    e.op.OpRecord? && Succeeds(cfg, d, e) && d.procession.Some? &&
    var before, now := d.procession.value.deviation, Classify(cfg, cfg.distance(d.route, e.op.ping));
    || (e.op.extent == Inserted && now != before)
    || ((e.op.extent == Updated || e.op.extent == RecoverySent) && DeviationChange(before, now) != [])
  }

  lemma EdgesOfPing(cfg: Config, fixes: seq<Fix>, fix: Fix)
    ensures Edges(Classes(cfg, fixes + [fix])) ==
      Edges(Classes(cfg, fixes)) + DeviationChange(Before(Classes(cfg, fixes), |fixes|), Classify(cfg, fix.distance))
    ensures Before(Classes(cfg, fixes + [fix]), |fixes| + 1) == Classify(cfg, fix.distance)
  {
    var cs := Classes(cfg, fixes + [fix]);
    assert cs[..|fixes|] == Classes(cfg, fixes);
  }

  /** What a ping that gets so far leaves of it. */
  lemma RecordShows(cfg: Config, d: Dossier, e: Event)
    requires e.op.OpRecord? && Succeeds(cfg, d, e)
    ensures var r, fix := Step(cfg, d, e), Measured(cfg, d, e.op.ping);
      && d.procession.Some? && Grown(cfg, d, r, fix, e.op.extent)
  {
    OnlyOfPing(d.alerts, d.procession.value, Classify(cfg, Measured(cfg, d, e.op.ping).distance), e.op.extent);
    assert d.alerts + [] == d.alerts;
  }

  predicate Grown(cfg: Config, d: Dossier, r: Dossier, fix: Fix, extent: Extent)
    requires d.procession.Some?
  {
    var before, now := d.procession.value.deviation, Classify(cfg, fix.distance);
    && r.fixes == d.fixes + [fix] && r.procession.Some?
    && r.procession.value.deviation == (if extent == Inserted then before else now)
    && Only(r.alerts, false) ==
         Only(d.alerts, false) + if extent == Alerted || extent == Done then DeviationChange(before, now) else []
  }

  lemma DeviationFitsGrown(cfg: Config, d: Dossier, r: Dossier, fix: Fix, extent: Extent)
    requires DeviationFits(cfg, d) && d.procession.Some? && Grown(cfg, d, r, fix, extent)
    ensures var before, now := d.procession.value.deviation, Classify(cfg, fix.distance);
      DeviationFits(cfg, r) <==>
        if extent == Inserted then now == before
        else extent == Alerted || extent == Done || DeviationChange(before, now) == []
  {
    EdgesOfPing(cfg, d.fixes, fix);
    var change := DeviationChange(d.procession.value.deviation, Classify(cfg, fix.distance));
    if change != [] { assert |Only(d.alerts, false) + []| != |Only(d.alerts, false) + change|; }
  }

  /** Every other call leaves pings and the deviation column alone; a first start begins NORMAL. */
  lemma DeviationUntouched(cfg: Config, d: Dossier, e: Event)
    requires !e.op.OpRecord?
    ensures var r := Step(cfg, d, e);
      && r.fixes == d.fixes
      && (d.procession.Some? ==> r.procession.Some? && r.procession.value.deviation == d.procession.value.deviation)
      && (d.procession.None? && r.procession.Some? ==> r.procession.value.deviation == Normal)
  {
    match e.op
    case OpStart(user) =>
    case OpComplete(_, _, _) =>
    case _ =>
  }

  /** And it raises no deviation alert. */
  lemma NoDeviationAlert(cfg: Config, d: Dossier, e: Event)
    requires !e.op.OpRecord?
    ensures Only(Step(cfg, d, e).alerts, false) == Only(d.alerts, false)
  {
    if e.op.OpDeliver? {
      DeliveryEffect(cfg, d, e);
      if e.op.index < |d.owed| { OnlyAppend(d.alerts, d.owed[e.op.index], false); }
    } else {
      OnlyTwoRaise(cfg, d, e);
    }
  }

  lemma OnlyTwoRaise(cfg: Config, d: Dossier, e: Event)
    requires !e.op.OpRecord? && !e.op.OpDeliver?
    ensures Step(cfg, d, e).alerts == d.alerts
  {
  }

  lemma DeviationFitsStep(cfg: Config, d: Dossier, e: Event)
    requires DeviationFits(cfg, d)
    ensures DeviationFits(cfg, Step(cfg, d, e)) <==> !LosesEdge(cfg, d, e)
  {
    if e.op.OpRecord? {
      if Succeeds(cfg, d, e) {
        RecordShows(cfg, d, e);
        DeviationFitsGrown(cfg, d, Step(cfg, d, e), Measured(cfg, d, e.op.ping), e.op.extent);
      }
    } else {
      DeviationUntouched(cfg, d, e);
      NoDeviationAlert(cfg, d, e);
    }
  }

  lemma {:induction false} DeviationFitsUpTo(cfg: Config, d: Dossier, es: seq<Event>, k: nat)
    requires DeviationFits(cfg, d) && k <= |es|
    requires forall j :: 0 <= j < k ==> !LosesEdge(cfg, At(cfg, d, es, j), es[j])
    ensures DeviationFits(cfg, At(cfg, d, es, k))
  {
    if k > 0 {
      DeviationFitsUpTo(cfg, d, es, k - 1);
      RunNext(cfg, d, es, k - 1);
      DeviationFitsStep(cfg, At(cfg, d, es, k - 1), es[k - 1]);
    }
  }

  lemma DeviationFitsNext(cfg: Config, d: Dossier, es: seq<Event>, k: nat)
    requires k < |es| && DeviationFits(cfg, At(cfg, d, es, k)) && DeviationFits(cfg, At(cfg, d, es, k + 1))
    ensures !LosesEdge(cfg, At(cfg, d, es, k), es[k])
  {
    RunNext(cfg, d, es, k);
    DeviationFitsStep(cfg, At(cfg, d, es, k), es[k]);
  }

  /**
   * At every moment of a run, restarts and late decisions included, the
   * deviation alerts are the edges of the classified pings and the row shows
   * the last class - if and only if no ping dies before it has shown or
   * alerted a change it found.
   */
  lemma DeviationLogExactly(cfg: Config, d: Dossier, es: seq<Event>)
    requires Opened(d)
    ensures (forall k :: 0 <= k <= |es| ==> DeviationFits(cfg, At(cfg, d, es, k))) <==>
      (forall k :: 0 <= k < |es| ==> !LosesEdge(cfg, At(cfg, d, es, k), es[k]))
  {
    if forall k :: 0 <= k <= |es| ==> DeviationFits(cfg, At(cfg, d, es, k)) {
      forall k | 0 <= k < |es| ensures !LosesEdge(cfg, At(cfg, d, es, k), es[k]) {
        DeviationFitsNext(cfg, d, es, k);
      }
    }
    if forall k :: 0 <= k < |es| ==> !LosesEdge(cfg, At(cfg, d, es, k), es[k]) {
      forall k | 0 <= k <= |es| ensures DeviationFits(cfg, At(cfg, d, es, k)) {
        DeviationFitsUpTo(cfg, d, es, k);
      }
    }
  }
}
