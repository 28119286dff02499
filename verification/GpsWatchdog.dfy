/** The watchdog's two UPDATE ... RETURNING statements over the whole procession table, and their alerts. */
module GpsWatchdog {
  import opened Wrappers
  import opened Casework

  type AppId = nat

  datatype Sent = Sent(app: AppId, alert: Alert)

  function LostRow(cfg: Config, p: Procession, now: Time): Procession {
    if GoesLost(cfg, p, now) then p.(status := LiveStatus.GpsLost) else p
  }

  function WarnedRow(cfg: Config, p: Procession, now: Time): Procession {
    if GoesWarning(cfg, p, now) then p.(status := LiveStatus.GpsWarning) else p
  }

  /** The alerts of one application in a log. */
  function For(log: seq<Sent>, a: AppId): seq<Alert> {
    if log == [] then [] else
    For(log[..|log| - 1], a) + (if log[|log| - 1].app == a then [log[|log| - 1].alert] else [])
  }

  /** The log has one alert more for each of these applications, and nothing else. */
  ghost predicate EachAlerted(before: seq<Sent>, after: seq<Sent>, apps: set<AppId>, alert: Alert) {
    forall a :: For(after, a) == For(before, a) + if a in apps then [alert] else []
  }

  lemma AlertOne(before: seq<Sent>, now: seq<Sent>, apps: set<AppId>, app: AppId, alert: Alert)
    requires EachAlerted(before, now, apps, alert) && app !in apps
    ensures EachAlerted(before, now + [Sent(app, alert)], apps + {app}, alert)
  {
    var after := now + [Sent(app, alert)];
    assert after[..|now|] == now;
    forall a ensures For(after, a) == For(before, a) + if a in apps + {app} then [alert] else [] {
      if a == app {
        assert For(before, a) + [] + [alert] == For(before, a) + [alert];
      } else {
        assert For(now, a) + [] == For(now, a);
      }
    }
  }

  /** Silent for longer than the limit; a row at the limit, or never updated, is not. */
  predicate Silent(p: Procession, limit: int, now: Time) { p.seen.Some? && now - p.seen.value.at > limit }

  function LostIn(cfg: Config, rows: map<AppId, Procession>, now: Time): set<AppId> {
    set a | a in rows && rows[a].status in {LiveStatus.Live, LiveStatus.GpsWarning} && Silent(rows[a], cfg.lostAge, now)
  }

  function WeakIn(cfg: Config, rows: map<AppId, Procession>, now: Time): set<AppId> {
    set a | a in rows && rows[a].status == LiveStatus.Live && Silent(rows[a], cfg.warningAge, now)
  }

  /** The table after an update of some rows. */
  function Marked(rows: map<AppId, Procession>, apps: set<AppId>, status: LiveStatus): map<AppId, Procession> {
    map a | a in rows :: if a in apps then rows[a].(status := status) else rows[a]
  }

  function AfterLost(cfg: Config, rows: map<AppId, Procession>, now: Time): map<AppId, Procession> {
    Marked(rows, LostIn(cfg, rows, now), LiveStatus.GpsLost)
  }

  function AfterWarning(cfg: Config, rows: map<AppId, Procession>, now: Time): map<AppId, Procession> {
    Marked(rows, WeakIn(cfg, rows, now), LiveStatus.GpsWarning)
  }

  /** Row by row the two updates are the ones an application sees. */
  lemma RowByRow(cfg: Config, rows: map<AppId, Procession>, now: Time, a: AppId)
    requires a in rows
    ensures AfterLost(cfg, rows, now)[a] == LostRow(cfg, rows[a], now)
    ensures AfterWarning(cfg, rows, now)[a] == WarnedRow(cfg, rows[a], now)
  {
  }

  function LostAlert(cfg: Config, p: Procession, now: Time): seq<Alert> {
    if GoesLost(cfg, p, now) then [Alert.GpsLost] else []
  }

  function WarningAlert(cfg: Config, p: Procession, now: Time): seq<Alert> {
    if GoesWarning(cfg, p, now) then [Alert.GpsWarning] else []
  }

  function RowAlerts(cfg: Config, p: Procession, now1: Time, now2: Time): seq<Alert> {
    LostAlert(cfg, p, now1) + WarningAlert(cfg, LostRow(cfg, p, now1), now2)
  }

  /** The rows a whole sweep changes. */
  function Changing(cfg: Config, rows: map<AppId, Procession>, now1: Time, now2: Time): set<AppId> {
    set a | a in rows && WarnedRow(cfg, LostRow(cfg, rows[a], now1), now2) != rows[a]
  }

  /** Each of these applications has exactly the alerts its row called for, and no other has any. */
  ghost predicate RowsAlerted(cfg: Config, rows: map<AppId, Procession>, before: seq<Sent>, after: seq<Sent>,
                              alerted: set<AppId>, now1: Time, now2: Time)
    requires alerted <= rows.Keys
  {
    && (forall a :: a !in alerted ==> For(after, a) == For(before, a))
    && (forall a :: a in alerted ==> For(after, a) == For(before, a) + RowAlerts(cfg, rows[a], now1, now2))
  }

  lemma ChangingSplits(cfg: Config, rows: map<AppId, Procession>, now1: Time, now2: Time)
    ensures var lost := AfterLost(cfg, rows, now1);
      && LostIn(cfg, rows, now1) !! WeakIn(cfg, lost, now2)
      && Changing(cfg, rows, now1, now2) == LostIn(cfg, rows, now1) + WeakIn(cfg, lost, now2)
  {
  }

  lemma BothLoops(cfg: Config, rows: map<AppId, Procession>, before: seq<Sent>, between: seq<Sent>, after: seq<Sent>,
                  lost: set<AppId>, weak: set<AppId>, now1: Time, now2: Time)
    requires lost <= LostIn(cfg, rows, now1) && weak <= WeakIn(cfg, AfterLost(cfg, rows, now1), now2)
    requires EachAlerted(before, between, lost, Alert.GpsLost) && EachAlerted(between, after, weak, Alert.GpsWarning)
    ensures RowsAlerted(cfg, rows, before, after, lost + weak, now1, now2)
  {
    forall a
      ensures For(after, a) == For(before, a) + if a in lost + weak then RowAlerts(cfg, rows[a], now1, now2) else []
    {
      BothOf(cfg, rows, before, between, after, lost, weak, now1, now2, a);
    }
    forall a | a !in lost + weak ensures For(after, a) == For(before, a) {
      assert For(before, a) + [] == For(before, a);
    }
  }

  lemma BothOf(cfg: Config, rows: map<AppId, Procession>, before: seq<Sent>, between: seq<Sent>, after: seq<Sent>,
               lost: set<AppId>, weak: set<AppId>, now1: Time, now2: Time, a: AppId)
    requires lost <= LostIn(cfg, rows, now1) && weak <= WeakIn(cfg, AfterLost(cfg, rows, now1), now2)
    requires EachAlerted(before, between, lost, Alert.GpsLost) && EachAlerted(between, after, weak, Alert.GpsWarning)
    ensures For(after, a) == For(before, a) + if a in lost + weak then RowAlerts(cfg, rows[a], now1, now2) else []
  {
    assert For(between, a) == For(before, a) + if a in lost then [Alert.GpsLost] else [];
    assert For(after, a) == For(between, a) + if a in weak then [Alert.GpsWarning] else [];
    assert For(between, a) + [] == For(between, a) && For(before, a) + [] == For(before, a);
    if a in lost {
      assert RowAlerts(cfg, rows[a], now1, now2) == [Alert.GpsLost];
    } else if a in weak {
      assert RowAlerts(cfg, rows[a], now1, now2) == [Alert.GpsWarning];
    }
  }

  /** How far a loop over these applications comes when so many inserts go through. */
  predicate Reached(apps: set<AppId>, inserts: nat, thrown: bool, alerted: set<AppId>) {
    && (thrown <==> inserts < |apps|)
    && (if thrown then alerted <= apps && |alerted| == inserts else alerted == apps)
  }

  predicate InParts(apps: set<AppId>, alerted: set<AppId>, todo: set<AppId>) {
    && alerted !! todo && |alerted| + |todo| == |apps| && alerted <= apps && todo <= apps
    && (todo == {} ==> alerted == apps)
  }

  lemma OnePartGrows(apps: set<AppId>, alerted: set<AppId>, todo: set<AppId>, app: AppId)
    requires InParts(apps, alerted, todo) && app in todo
    ensures InParts(apps, alerted + {app}, todo - {app}) && |alerted + {app}| == |alerted| + 1
  {
    if todo - {app} == {} { SubsetOfSize(alerted + {app}, apps); }
  }

  lemma SubsetOfSize(a: set<AppId>, b: set<AppId>)
    requires a <= b && |a| == |b|
    ensures a == b
  {
    assert b == a + (b - a);
    assert |b - a| == 0;
  }

  class Table {
    var rows: map<AppId, Procession>
    var log: seq<Sent>

    constructor ()
      ensures rows == map[] && log == []
    {
      rows, log := map[], [];
    }

    /** First UPDATE: everything too old goes to GPS_LOST. */
    method MarkLost(cfg: Config, now: Time) returns (toLost: set<AppId>)
      modifies this`rows
      ensures rows == AfterLost(cfg, old(rows), now)
      ensures toLost == LostIn(cfg, old(rows), now)
    {
      toLost := set a | a in rows && GoesLost(cfg, rows[a], now);
      rows := map a | a in rows :: if a in toLost then rows[a].(status := LiveStatus.GpsLost) else rows[a];
    }

    /** Second UPDATE: what is LIVE but stale goes to GPS_WARNING. */
    method MarkWarning(cfg: Config, now: Time) returns (toWarning: set<AppId>)
      modifies this`rows
      ensures rows == AfterWarning(cfg, old(rows), now)
      ensures toWarning == WeakIn(cfg, old(rows), now)
    {
      toWarning := set a | a in rows && GoesWarning(cfg, rows[a], now);
      rows := map a | a in rows :: if a in toWarning then rows[a].(status := LiveStatus.GpsWarning) else rows[a];
    }

    /** The loop behind an UPDATE: one insert per row, in no particular order, until one throws after so many. */
    method AlertAll(apps: set<AppId>, alert: Alert, inserts: nat) returns (thrown: bool, alerted: set<AppId>)
      modifies this`log
      ensures Reached(apps, inserts, thrown, alerted)
      ensures EachAlerted(old(log), log, alerted, alert)
    {
      var todo := apps;
      alerted := {};
      while todo != {}
        invariant InParts(apps, alerted, todo) && |alerted| <= inserts
        invariant EachAlerted(old(log), log, alerted, alert)
        decreases todo
      {
        if |alerted| == inserts { return true, alerted; }
        var app :| app in todo;
        AlertOne(old(log), log, alerted, app, alert);
        OnePartGrows(apps, alerted, todo, app);
        log := log + [Sent(app, alert)];
        todo, alerted := todo - {app}, alerted + {app};
      }
      thrown := false;
    }

    /** First UPDATE and its loop. */
    method SweepLost(cfg: Config, now: Time, inserts: nat) returns (thrown: bool, alerted: set<AppId>)
      modifies this
      ensures rows == AfterLost(cfg, old(rows), now)
      ensures forall a :: a in old(rows) ==>
        && a in rows && rows[a] in {old(rows)[a], old(rows)[a].(status := LiveStatus.GpsLost)}
        && (rows[a] != old(rows)[a] <==>
              && old(rows)[a].status in {LiveStatus.Live, LiveStatus.GpsWarning}
              && old(rows)[a].seen.Some? && now - old(rows)[a].seen.value.at > cfg.lostAge)
      ensures Reached(LostIn(cfg, old(rows), now), inserts, thrown, alerted)
      ensures EachAlerted(old(log), log, alerted, Alert.GpsLost)
    {
      var toLost := MarkLost(cfg, now);
      thrown, alerted := AlertAll(toLost, Alert.GpsLost, inserts);
    }

    /** Second UPDATE and its loop. */
    method SweepWarning(cfg: Config, now: Time, inserts: nat) returns (thrown: bool, alerted: set<AppId>)
      modifies this
      ensures rows == AfterWarning(cfg, old(rows), now)
      ensures forall a :: a in old(rows) ==>
        && a in rows && rows[a] in {old(rows)[a], old(rows)[a].(status := LiveStatus.GpsWarning)}
        && (rows[a] != old(rows)[a] <==>
              && old(rows)[a].status == LiveStatus.Live
              && old(rows)[a].seen.Some? && now - old(rows)[a].seen.value.at > cfg.warningAge)
      ensures Reached(WeakIn(cfg, old(rows), now), inserts, thrown, alerted)
      ensures EachAlerted(old(log), log, alerted, Alert.GpsWarning)
    {
      var toWarning := MarkWarning(cfg, now);
      thrown, alerted := AlertAll(toWarning, Alert.GpsWarning, inserts);
    }

    /**
     * checkStaleProcessions, when nothing runs between its statements: an alert
     * that throws leaves the rest of its rows without one, and skips the second
     * UPDATE if it was the first one's.
     */
    method CheckStaleProcessions(cfg: Config, now1: Time, now2: Time, inserts1: nat, inserts2: nat)
      returns (thrown: bool, lost: set<AppId>, weak: set<AppId>)
      modifies this
      ensures inserts1 < |LostIn(cfg, old(rows), now1)| ==>
        thrown && rows == AfterLost(cfg, old(rows), now1) && |lost| == inserts1 && weak == {}
      ensures inserts1 >= |LostIn(cfg, old(rows), now1)| ==>
        && rows == AfterWarning(cfg, AfterLost(cfg, old(rows), now1), now2)
        && lost == LostIn(cfg, old(rows), now1)
        && Reached(WeakIn(cfg, AfterLost(cfg, old(rows), now1), now2), inserts2, thrown, weak)
      ensures lost + weak <= Changing(cfg, old(rows), now1, now2)
      ensures !thrown ==> lost + weak == Changing(cfg, old(rows), now1, now2)
      ensures RowsAlerted(cfg, old(rows), old(log), log, lost + weak, now1, now2)
    {
      ChangingSplits(cfg, rows, now1, now2);
      thrown, lost := SweepLost(cfg, now1, inserts1);
      ghost var logged := log;
      weak := {};
      if thrown {
        BothLoops(cfg, old(rows), old(log), logged, log, lost, {}, now1, now2);
        return;
      }
      thrown, weak := SweepWarning(cfg, now2, inserts2);
      BothLoops(cfg, old(rows), old(log), logged, log, lost, weak, now1, now2);
    }
  }

  /** What becomes of an alert just owed behind n others. */
  function Settle(d: Dossier, n: nat, raised: bool): Dossier { if raised then Deliver(d, n) else Lose(d, n) }

  /**
   * Row by row an UPDATE and its loop do what a sweep does to the application's
   * own dossier, its alert then raised or lost.
   */
  lemma RowsAreDossiers(cfg: Config, d: Dossier, raised: bool)
    requires d.procession.Some?
    ensures var p, r := d.procession.value, Settle(Casework.SweepLost(cfg, d), |d.owed|, raised);
      r == d.(procession := Some(LostRow(cfg, p, d.clock)),
              alerts := d.alerts + if raised then LostAlert(cfg, p, d.clock) else [])
    ensures var p, r := d.procession.value, Settle(Casework.SweepWarning(cfg, d), |d.owed|, raised);
      r == d.(procession := Some(WarnedRow(cfg, p, d.clock)),
              alerts := d.alerts + if raised then WarningAlert(cfg, p, d.clock) else [])
  {
    assert d.alerts + [] == d.alerts;
    LastSettles(d.(owed := d.owed + [Alert.GpsLost]), d.owed, Alert.GpsLost);
    LastSettles(d.(owed := d.owed + [Alert.GpsWarning]), d.owed, Alert.GpsWarning);
  }

  lemma LastSettles(d: Dossier, owed: seq<SignalAlert>, a: SignalAlert)
    requires d.owed == owed + [a]
    ensures Deliver(d, |owed|) == d.(alerts := d.alerts + [a], owed := owed)
    ensures Lose(d, |owed|) == d.(owed := owed)
  {
    assert Without(d.owed, |owed|) == owed;
  }

  /** No sweep raises more than one alert for a row: a row just lost is not weak as well. */
  lemma OneAlertPerSweep(cfg: Config, p: Procession, now1: Time, now2: Time)
    ensures |RowAlerts(cfg, p, now1, now2)| <= 1
    ensures RowAlerts(cfg, p, now1, now2) == [] <==> WarnedRow(cfg, LostRow(cfg, p, now1), now2) == p
  {
  }
}
