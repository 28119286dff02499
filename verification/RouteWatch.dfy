/** Which route a procession's deviation alerts are measured against. */
module RouteWatch {
  import opened Wrappers
  import opened Casework
  import opened Lifecycle
  import opened AlertLogs
  import opened ApprovedContent

  /** A ping that is accepted. */
  predicate Pings(cfg: Config, d: Dossier, e: Event) { e.op.OpRecord? && Succeeds(cfg, d, e) }

  lemma NoFix(cfg: Config, d: Dossier, e: Event)
    requires !Pings(cfg, d, e)
    ensures Step(cfg, d, e).fixes == d.fixes
  {
  }

  lemma OneFix(cfg: Config, d: Dossier, e: Event)
    requires Pings(cfg, d, e)
    ensures Step(cfg, d, e).fixes == d.fixes + [Measured(cfg, d, e.op.ping)] && d.procession.Some?
  {
  }

  /** Every stored ping was measured against the route that was active when it came in. */
  lemma {:induction false} FixIsMeasured(cfg: Config, d: Dossier, es: seq<Event>, m: nat, n: nat) returns (j: nat)
    requires d.fixes == [] && m <= |es| && n < |At(cfg, d, es, m).fixes|
    ensures j < m && Pings(cfg, At(cfg, d, es, j), es[j])
    ensures At(cfg, d, es, m).fixes[n] == Measured(cfg, At(cfg, d, es, j), es[j].op.ping)
  {
    assert es[..0] == [];
    var before := At(cfg, d, es, m - 1);
    RunNext(cfg, d, es, m - 1);
    if Pings(cfg, before, es[m - 1]) {
      OneFix(cfg, before, es[m - 1]);
      if n == |before.fixes| { return m - 1; }
    } else {
      NoFix(cfg, before, es[m - 1]);
    }
    j := FixIsMeasured(cfg, d, es, m - 1, n);
  }

  /** No ping is taken before the permit is issued. */
  lemma PingAfterPermit(cfg: Config, d: Dossier, es: seq<Event>, j: nat, k: nat, p: Permit)
    requires Opened(d) && k < |es| && IssuesAt(cfg, d, es, k, p)
    requires j < |es| && Pings(cfg, At(cfg, d, es, j), es[j])
    ensures k < j
  {
    if j <= k {
      OneFix(cfg, At(cfg, d, es, j), es[j]);
      SoundOpen(d);
      SoundRun(cfg, d, es[..j]);
      RunSplit(cfg, d, es[..k], j);
      assert es[..k][..j] == es[..j];
      NumberAndPermitKept(cfg, At(cfg, d, es, j), es[..k][j..]);
    }
  }

  predicate MeasuredFrom(cfg: Config, route: VersionId, fix: Fix) {
    fix.distance == cfg.distance(Some(route), Position(fix.lat, fix.lng))
  }

  /** Until a newer version is saved, every ping is measured against the permit's route. */
  lemma PingsFromPermitRoute(cfg: Config, d: Dossier, es: seq<Event>, k: nat, p: Permit)
    requires Opened(d) && k < |es| && IssuesAt(cfg, d, es, k, p)
    requires forall j :: k < j < |es| ==> !es[j].op.OpNewVersion?
    ensures forall n :: 0 <= n < |Run(cfg, d, es).fixes| ==> MeasuredFrom(cfg, p.route, Run(cfg, d, es).fixes[n])
  {
    assert es[..|es|] == es;
    forall n | 0 <= n < |Run(cfg, d, es).fixes| ensures MeasuredFrom(cfg, p.route, Run(cfg, d, es).fixes[n]) {
      var j := FixIsMeasured(cfg, d, es, |es|, n);
      PingAfterPermit(cfg, d, es, j, k, p);
      RouteStays(cfg, d, es, k, j);
    }
  }

  /** The classes of the positions themselves, as seen from one route. */
  function ClassesFrom(cfg: Config, route: VersionId, fixes: seq<Fix>): seq<DeviationStatus> {
    seq(|fixes|, i requires 0 <= i < |fixes| =>
      Classify(cfg, cfg.distance(Some(route), Position(fixes[i].lat, fixes[i].lng))))
  }

  /**
   * Then the deviation alerts are the edges of the positions' distances from
   * the permit's route - as long as no ping dies before it has shown or
   * alerted a change it found.
   */
  lemma AlertsAgainstPermitRoute(cfg: Config, d: Dossier, es: seq<Event>, k: nat, p: Permit)
    requires Opened(d) && k < |es| && IssuesAt(cfg, d, es, k, p)
    requires forall j :: k < j < |es| ==> !es[j].op.OpNewVersion?
    requires forall j :: 0 <= j < |es| ==> !LosesEdge(cfg, At(cfg, d, es, j), es[j])
    ensures Only(Run(cfg, d, es).alerts, false) == Edges(ClassesFrom(cfg, p.route, Run(cfg, d, es).fixes))
  {
    PingsFromPermitRoute(cfg, d, es, k, p);
    assert es[..|es|] == es;
    DeviationFitsUpTo(cfg, d, es, |es|);
    var fixes := Run(cfg, d, es).fixes;
    forall i | 0 <= i < |fixes| ensures Classes(cfg, fixes)[i] == ClassesFrom(cfg, p.route, fixes)[i] {
      assert MeasuredFrom(cfg, p.route, fixes[i]);
    }
    assert Classes(cfg, fixes) == ClassesFrom(cfg, p.route, fixes);
  }
}
