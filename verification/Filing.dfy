/** The way from a new application to its first submission, with any stations and any number. */
module Filing {
  import opened Wrappers
  import opened Casework
  import opened Lifecycle

  function Now(op: Op): Event { Event(0, op) }

  lemma RunSnoc(cfg: Config, d: Dossier, es: seq<Event>, e: Event)
    ensures Run(cfg, d, es + [e]) == Step(cfg, Run(cfg, d, es), e)
  {
    assert (es + [e])[..|es|] == es;
  }

  lemma RunConcat(cfg: Config, d: Dossier, es: seq<Event>, fs: seq<Event>)
    ensures Run(cfg, d, es + fs) == Run(cfg, Run(cfg, d, es), fs)
  {
    RunSplit(cfg, d, es + fs, |es|);
    assert (es + fs)[..|es|] == es && (es + fs)[|es|..] == fs;
  }

  lemma RunThree(cfg: Config, d: Dossier, es: seq<Event>, x: Event, y: Event, z: Event)
    ensures Run(cfg, d, es + [x] + [y] + [z]) == Step(cfg, Step(cfg, Step(cfg, Run(cfg, d, es), x), y), z)
  {
    RunSnoc(cfg, d, es, x);
    RunSnoc(cfg, d, es + [x], y);
    RunSnoc(cfg, d, es + [x] + [y], z);
  }

  function Members(stations: seq<StationId>): set<StationId> { set st | st in stations }

  /** All of these suggested on one version, some of them confirmed. */
  function Suggested(all: set<StationId>, v: VersionId, confirmed: set<StationId>): map<(StationId, VersionId), bool> {
    map st | st in all :: (st, v) := st in confirmed
  }

  function Confirmations(stations: seq<StationId>): seq<Event> {
    if stations == [] then []
    else Confirmations(stations[..|stations| - 1]) + [Now(OpConfirm(stations[|stations| - 1]))]
  }

  lemma {:induction false} ConfirmationsOnly(stations: seq<StationId>)
    ensures |Confirmations(stations)| == |stations| && forall e :: e in Confirmations(stations) ==> e.op.OpConfirm?
  {
    if stations != [] { ConfirmationsOnly(stations[..|stations| - 1]); }
  }

  /** A route, an analysis that suggests the stations, and their confirmation one by one. */
  function Prepare(v: VersionId, stations: seq<StationId>): seq<Event> {
    [Now(OpNewVersion(v))] + [Now(OpAnalyze(v, Members(stations)))] + Confirmations(stations)
  }

  function ToSubmission(user: UserId, v: VersionId, stations: seq<StationId>, next: string): seq<Event> {
    Prepare(v, stations) + [Now(OpSubmit(user, next))]
  }

  lemma Analyzed(cfg: Config, d: Dossier, v: VersionId, all: set<StationId>)
    requires d.suggestions == map[]
    ensures Run(cfg, d, [Now(OpNewVersion(v))] + [Now(OpAnalyze(v, all))]) ==
      d.(route := Some(v), suggestions := Suggested(all, v, {}))
  {
    RunSnoc(cfg, d, [], Now(OpNewVersion(v)));
    RunSnoc(cfg, d, [Now(OpNewVersion(v))], Now(OpAnalyze(v, all)));
    assert [] + [Now(OpNewVersion(v))] == [Now(OpNewVersion(v))];
    var d1 := d.(route := Some(v));
    assert After(d, 0) == d && After(d1, 0) == d1;
    assert Analyze(d1, v, all).suggestions == Suggested(all, v, {});
  }

  lemma ConfirmOne(d: Dossier, all: set<StationId>, v: VersionId, confirmed: set<StationId>, st: StationId)
    requires d.suggestions == Suggested(all, v, confirmed)
    ensures Confirm(d, st) == d.(suggestions := Suggested(all, v, confirmed + {st}))
  {
    assert Confirm(d, st).suggestions == Suggested(all, v, confirmed + {st});
  }

  lemma ConfirmNext(cfg: Config, d: Dossier, es: seq<Event>, all: set<StationId>, v: VersionId,
                    confirmed: set<StationId>, st: StationId)
    requires Run(cfg, d, es) == d.(suggestions := Suggested(all, v, confirmed))
    ensures Run(cfg, d, es + [Now(OpConfirm(st))]) == d.(suggestions := Suggested(all, v, confirmed + {st}))
  {
    var before := d.(suggestions := Suggested(all, v, confirmed));
    RunSnoc(cfg, d, es, Now(OpConfirm(st)));
    assert After(before, 0) == before;
    ConfirmOne(before, all, v, confirmed, st);
  }

  lemma {:induction false} ConfirmEach(cfg: Config, d: Dossier, all: set<StationId>, v: VersionId,
                                       stations: seq<StationId>)
    requires d.suggestions == Suggested(all, v, {})
    ensures Run(cfg, d, Confirmations(stations)) == d.(suggestions := Suggested(all, v, Members(stations)))
  {
    if stations == [] {
      assert Members(stations) == {};
    } else {
      var n := |stations| - 1;
      ConfirmEach(cfg, d, all, v, stations[..n]);
      assert stations == stations[..n] + [stations[n]];
      assert Members(stations) == Members(stations[..n]) + {stations[n]};
      ConfirmNext(cfg, d, Confirmations(stations[..n]), all, v, Members(stations[..n]), stations[n]);
    }
  }

  lemma Prepared(cfg: Config, d: Dossier, v: VersionId, stations: seq<StationId>)
    requires d.suggestions == map[]
    ensures var all := Members(stations);
      Run(cfg, d, Prepare(v, stations)) == d.(route := Some(v), suggestions := Suggested(all, v, all))
  {
    var all := Members(stations);
    Analyzed(cfg, d, v, all);
    RunConcat(cfg, d, [Now(OpNewVersion(v))] + [Now(OpAnalyze(v, all))], Confirmations(stations));
    ConfirmEach(cfg, d.(route := Some(v), suggestions := Suggested(all, v, {})), all, v, stations);
  }

  lemma ConfirmedThen(d: Dossier, v: VersionId, all: set<StationId>)
    requires d.route == Some(v) && d.suggestions == Suggested(all, v, all)
    ensures Confirmed(d) == all
  {
    forall st | st in all ensures st in Confirmed(d) {
      assert (st, v) in d.suggestions.Keys && d.suggestions[(st, v)];
    }
  }

  lemma FirstSubmission(d: Dossier, all: set<StationId>, next: string)
    requires d.status == Draft && d.route.Some? && d.number.None? && d.approvals == map[]
    requires Confirmed(d) == all != {} && |next| <= NUMBER_WIDTH
    ensures Submit(d, d.organizer, next) ==
      Ok(d.(number := Some(next), status := Submitted, history := d.history + [HistoryRow(Some(Draft), Submitted)],
            approvals := Undecided(all)))
  {
    assert Undecided(d.approvals.Keys + Confirmed(d)) == Undecided(all);
  }

  /** What this leaves: every station asked, nothing decided, the number given. */
  function AsFiled(d: Dossier, v: VersionId, stations: seq<StationId>, next: string): Dossier {
    var all := Members(stations);
    d.(route := Some(v), suggestions := Suggested(all, v, all), number := Some(next), status := Submitted,
       history := [HistoryRow(None, Draft), HistoryRow(Some(Draft), Submitted)], approvals := Undecided(all))
  }

  /** Any new application gets there, with any stations and any number its column has room for. */
  lemma FiledReached(cfg: Config, d: Dossier, v: VersionId, stations: seq<StationId>, next: string)
    requires Opened(d) && stations != [] && |next| <= NUMBER_WIDTH
    ensures Run(cfg, d, ToSubmission(d.organizer, v, stations, next)) == AsFiled(d, v, stations, next)
    ensures Succeeds(cfg, Run(cfg, d, Prepare(v, stations)), Now(OpSubmit(d.organizer, next)))
    ensures Sound(AsFiled(d, v, stations, next))
  {
    var all := Members(stations);
    Prepared(cfg, d, v, stations);
    var ready := d.(route := Some(v), suggestions := Suggested(all, v, all));
    ConfirmedThen(ready, v, all);
    assert stations[0] in all;
    FirstSubmission(ready, all, next);
    assert After(ready, 0) == ready;
    RunSnoc(cfg, d, Prepare(v, stations), Now(OpSubmit(d.organizer, next)));
    assert d.history == [HistoryRow(None, Draft)];
    SoundOpen(d);
    SoundRun(cfg, d, ToSubmission(d.organizer, v, stations, next));
  }
}
