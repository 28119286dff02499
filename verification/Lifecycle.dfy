/** What every run of calls keeps true of an application's status, approvals, permit and history. */
module Lifecycle {
  import opened Wrappers
  import opened Casework

  // ---- status, approvals and permit agree ----

  predicate MovedTo(h: seq<HistoryRow>, s: Status) {
    exists i :: 0 <= i < |h| && h[i].to == s
  }

  /** The status says what the approval rows say. */
  predicate StatusFits(d: Dossier) {
    match d.status
    case Draft => d.number.None? && d.approvals == map[] && d.permits == []
    case Submitted => EveryRow(d.approvals, Pending)
    case Resubmitted => EveryRow(d.approvals, Pending)
    case Live => EveryRow(d.approvals, Decision.Approved)
    case Completed => d.procession.Some? && d.procession.value.status == LiveStatus.Completed
    case _ => d.status == Aggregate(d.approvals)
  }

  /** Once submitted, an application keeps a number, a route and at least one approval row. */
  predicate Filed(d: Dossier) {
    d.status != Draft ==> d.number.Some? && |d.number.value| <= NUMBER_WIDTH && d.route.Some? && d.approvals != map[]
  }

  /** One permit, named after the application, exactly when the history ever reached APPROVED. */
  predicate PermitFits(d: Dossier) {
    && |d.permits| <= 1
    && (d.permits != [] <==> MovedTo(d.history, Status.Approved))
    && (forall p :: p in d.permits ==> p.number == PermitNumber(d.number) && |p.number| <= NUMBER_WIDTH)
  }

  predicate HistoryFits(d: Dossier) {
    && d.history != []
    && d.history[0] == HistoryRow(None, Draft)
    && d.history[|d.history| - 1].to == d.status
  }

  /** A procession is only ever started with a permit, and a LIVE application always has one under way. */
  predicate ProcessionFits(d: Dossier) {
    && (d.procession.Some? ==> d.status != Draft && d.procession.value.status != NotStarted && d.permits != [])
    && (d.status == Status.Live ==> d.procession.Some? && Underway(d.procession.value.status))
  }

  predicate Sound(d: Dossier) { StatusFits(d) && Filed(d) && PermitFits(d) && HistoryFits(d) && ProcessionFits(d) }

  lemma MovedToAppend(h: seq<HistoryRow>, row: HistoryRow, s: Status)
    ensures MovedTo(h + [row], s) <==> MovedTo(h, s) || row.to == s
  {
    var g := h + [row];
    if MovedTo(h, s) {
      var i :| 0 <= i < |h| && h[i].to == s;
      assert g[i].to == s;
    }
    if row.to == s {
      assert g[|h|].to == s;
    }
  }

  lemma SoundOpen(d: Dossier)
    requires Opened(d)
    ensures Sound(d)
  {
  }

  lemma SoundSubmit(d: Dossier, user: UserId, next: string)
    requires Sound(d) && Submit(d, user, next).Ok?
    ensures Sound(Submit(d, user, next).value)
  {
    var r := Submit(d, user, next).value;
    MovedToAppend(d.history, r.history[|d.history|], Status.Approved);
    var st :| st in Confirmed(d);
    assert st in r.approvals;
  }

  /** What a decision that goes through leaves behind. */
  lemma DecideEffect(d: Dossier, st: StationId, verdict: Verdict, reason: string)
    requires Decide(d, st, verdict, reason).Ok?
    ensures var r := Decide(d, st, verdict, reason).value;
      && st in d.approvals && r.approvals == d.approvals[st := Approval(verdict, reason)]
      && r.status == Aggregate(r.approvals)
      && r.history == (if r.status == d.status then d.history else d.history + [HistoryRow(Some(d.status), r.status)])
      && r.number == d.number && r.route == d.route && r.procession == d.procession
      && (if r.status == Status.Approved != d.status then IssuePermit(d) == Ok(r.permits) else r.permits == d.permits)
  {
  }

  lemma PermitFitsDecide(d: Dossier, st: StationId, verdict: Verdict, reason: string)
    requires PermitFits(d) && HistoryFits(d) && Decide(d, st, verdict, reason).Ok?
    ensures PermitFits(Decide(d, st, verdict, reason).value)
  {
    DecideEffect(d, st, verdict, reason);
    var r := Decide(d, st, verdict, reason).value;
    if r.history != d.history { MovedToAppend(d.history, HistoryRow(Some(d.status), r.status), Status.Approved); }
  }

  lemma SoundDecide(d: Dossier, st: StationId, verdict: Verdict, reason: string)
    requires Sound(d) && Decide(d, st, verdict, reason).Ok?
    ensures Sound(Decide(d, st, verdict, reason).value)
  {
    DecideEffect(d, st, verdict, reason);
    PermitFitsDecide(d, st, verdict, reason);
    var r := Decide(d, st, verdict, reason).value;
    assert st in r.approvals && r.approvals[st].decision == verdict;
    assert StatusFits(r) && Filed(r) by { NeverLiveByDecision(r.approvals); }
  }

  lemma NeverLiveByDecision(rows: map<StationId, Approval>)
    ensures Aggregate(rows) in {Status.Rejected, Status.ChangesRequested, Status.Approved, UnderReview}
  {
  }

  lemma SoundStart(d: Dossier, user: UserId)
    requires Sound(d) && Start(d, user).Ok?
    ensures Sound(Start(d, user).value)
  {
    assert MovedTo(d.history, Status.Approved);
    MovedToAppend(d.history, HistoryRow(Some(d.status), Status.Live), Status.Approved);
  }

  lemma SoundComplete(d: Dossier, user: UserId, staff: bool, crash: bool)
    requires Sound(d) && Complete(d, user, staff, crash).Ok?
    ensures Sound(Complete(d, user, staff, crash).value)
  {
    MovedToAppend(d.history, HistoryRow(Some(Status.Live), Status.Completed), Status.Approved);
  }

  /** What the remaining calls leave alone is all that Sound speaks of. */
  lemma SoundKept(d: Dossier, r: Dossier)
    requires Sound(d)
    requires r.status == d.status && r.number == d.number && r.approvals == d.approvals
    requires r.history == d.history && r.permits == d.permits && (d.route.Some? ==> r.route.Some?)
    requires r.procession == d.procession
      || (d.procession.Some? && Underway(d.procession.value.status) && r.procession.Some?
        && Underway(r.procession.value.status))
    ensures Sound(r)
  {
  }

  lemma SoundStep(cfg: Config, d: Dossier, e: Event)
    requires Sound(d)
    ensures Sound(Step(cfg, d, e))
  {
    var d1 := After(d, e.wait);
    SoundKept(d, d1);
    if Succeeds(cfg, d, e) {
      match e.op
      case OpSubmit(user, next) => SoundSubmit(d1, user, next);
      case OpDecide(st, verdict, reason) => SoundDecide(d1, st, verdict, reason);
      case OpStart(user) => SoundStart(d1, user);
      case OpComplete(user, staff, crash) => SoundComplete(d1, user, staff, crash);
      case _ => SoundKept(d1, Step(cfg, d, e));
    }
  }

  /** In every reachable state status, approval rows, permit, number and history agree. */
  lemma {:induction false} SoundRun(cfg: Config, d: Dossier, es: seq<Event>)
    requires Sound(d)
    ensures Sound(Run(cfg, d, es))
  {
    if es != [] {
      SoundRun(cfg, d, es[..|es| - 1]);
      SoundStep(cfg, Run(cfg, d, es[..|es| - 1]), es[|es| - 1]);
    }
  }

  // ---- runs compose ----

  lemma {:induction false} RunSplit(cfg: Config, d: Dossier, es: seq<Event>, k: nat)
    requires k <= |es|
    ensures Run(cfg, d, es) == Run(cfg, Run(cfg, d, es[..k]), es[k..])
  {
    if k == |es| {
      assert es[..k] == es;
    } else {
      var init, n := es[..|es| - 1], |es| - 1;
      RunSplit(cfg, d, init, k);
      assert init[..k] == es[..k] && init[k..] == es[k..][..n - k];
    }
  }

  lemma PrefixAt(cfg: Config, d: Dossier, es: seq<Event>, n: nat, k: nat)
    requires k <= n <= |es|
    ensures At(cfg, d, es[..n], k) == At(cfg, d, es, k)
  {
    assert es[..n][..k] == es[..k];
  }

  lemma RunNext(cfg: Config, d: Dossier, es: seq<Event>, k: nat)
    requires k < |es|
    ensures At(cfg, d, es, k + 1) == Step(cfg, At(cfg, d, es, k), es[k])
  {
    assert es[..k + 1][..k] == es[..k];
  }

  // ---- the permit ----

  /**
   * Issuing never fails for want of a route or a number. The one decision that
   * is refused although its row exists and its reason is given is the one that
   * would approve, for the first time, an application whose number has more
   * than 46 characters: permission_number has no room for "PMT-" in front.
   */
  lemma IssuingFailsExactly(d: Dossier, st: StationId, verdict: Verdict, reason: string)
    requires Sound(d) && st in d.approvals && (verdict == Decision.Approved || reason != "")
    ensures Decide(d, st, verdict, reason).Err? <==>
      Aggregate(d.approvals[st := Approval(verdict, reason)]) == Status.Approved != d.status
      && d.permits == [] && |d.number.value| > 46
    ensures Decide(d, st, verdict, reason).Err? ==> Decide(d, st, verdict, reason) == Err(Database)
  {
    assert d.status != Draft;
  }

  lemma NumberAndPermitStep(cfg: Config, d: Dossier, e: Event)
    requires d.number.Some? || d.permits == []
    ensures d.number.Some? ==> Step(cfg, d, e).number == d.number
    ensures d.permits != [] ==> Step(cfg, d, e).permits == d.permits
    ensures d.history <= Step(cfg, d, e).history
  {
  }

  /** Once given, the number never changes; once issued, the permit never does. */
  lemma {:induction false} NumberAndPermitKept(cfg: Config, d: Dossier, es: seq<Event>)
    requires Sound(d)
    ensures d.number.Some? ==> Run(cfg, d, es).number == d.number
    ensures d.permits != [] ==> Run(cfg, d, es).permits == d.permits
    ensures d.history <= Run(cfg, d, es).history
  {
    if es != [] {
      NumberAndPermitKept(cfg, d, es[..|es| - 1]);
      SoundRun(cfg, d, es[..|es| - 1]);
      NumberAndPermitStep(cfg, Run(cfg, d, es[..|es| - 1]), es[|es| - 1]);
    }
  }

  // ---- the history is a path ----

  /** Each entry leaves the status the one before it reached, for another one. */
  predicate Connected(h: seq<HistoryRow>) {
    forall i :: 1 <= i < |h| ==> h[i].from == Some(h[i - 1].to) && h[i].to != h[i - 1].to
  }

  /** A completion that goes through while the application is not LIVE: complete always writes LIVE -> COMPLETED. */
  predicate OffPath(cfg: Config, d: Dossier, e: Event) {
    e.op.OpComplete? && Succeeds(cfg, d, e) && d.status != Status.Live
  }

  lemma ConnectedAppend(h: seq<HistoryRow>, row: HistoryRow)
    requires h != []
    ensures Connected(h + [row]) <==> Connected(h) && row.from == Some(h[|h| - 1].to) && row.to != h[|h| - 1].to
  {
    var g := h + [row];
    assert forall i :: 0 <= i < |h| ==> g[i] == h[i];
    assert g[|h|] == row;
    if Connected(g) {
      forall i | 1 <= i < |h| ensures h[i].from == Some(h[i - 1].to) && h[i].to != h[i - 1].to {
        assert g[i] == h[i] && g[i - 1] == h[i - 1];
      }
    }
  }

  /** A call adds at most one entry; only an off-path completion names a status the application was not in. */
  lemma StepHistory(cfg: Config, d: Dossier, e: Event) returns (added: seq<HistoryRow>)
    requires d.status == Status.Completed ==> d.procession.Some? && d.procession.value.status == LiveStatus.Completed
    ensures Step(cfg, d, e).history == d.history + added && |added| <= 1
    ensures added == [] ==> !OffPath(cfg, d, e)
    ensures added != [] ==> added[0].to != d.status && (added[0].from == Some(d.status) <==> !OffPath(cfg, d, e))
  {
    var to := Step(cfg, d, e).status;
    added := [];
    if Succeeds(cfg, d, e) {
      match e.op
      case OpSubmit(_, _) => added := [HistoryRow(Some(d.status), to)];
      case OpDecide(_, _, _) => if to != d.status { added := [HistoryRow(Some(d.status), to)]; }
      case OpStart(_) => added := [HistoryRow(Some(d.status), to)];
      case OpComplete(_, _, _) => added := [HistoryRow(Some(Status.Live), to)];
      case _ =>
    }
  }

  lemma ConnectedStep(cfg: Config, d: Dossier, e: Event)
    requires Sound(d)
    ensures Connected(Step(cfg, d, e).history) <==> Connected(d.history) && !OffPath(cfg, d, e)
  {
    var added := StepHistory(cfg, d, e);
    if added == [] {
      assert d.history + added == d.history;
    } else {
      assert added == [added[0]];
      ConnectedAppend(d.history, added[0]);
    }
  }

  /** One call further along a run. */
  lemma ConnectedNext(cfg: Config, d: Dossier, es: seq<Event>, k: nat)
    requires Opened(d) && k < |es|
    ensures Connected(At(cfg, d, es, k + 1).history) <==>
      Connected(At(cfg, d, es, k).history) && !OffPath(cfg, At(cfg, d, es, k), es[k])
  {
    SoundOpen(d);
    SoundRun(cfg, d, es[..k]);
    RunNext(cfg, d, es, k);
    ConnectedStep(cfg, At(cfg, d, es, k), es[k]);
  }

  lemma {:induction false} ConnectedUpTo(cfg: Config, d: Dossier, es: seq<Event>, k: nat)
    requires Opened(d) && k <= |es| && forall j :: 0 <= j < k ==> !OffPath(cfg, At(cfg, d, es, j), es[j])
    ensures Connected(At(cfg, d, es, k).history)
  {
    if k == 0 {
      assert es[..0] == [];
    } else {
      ConnectedUpTo(cfg, d, es, k - 1);
      ConnectedNext(cfg, d, es, k - 1);
    }
  }

  lemma {:induction false} WasConnected(cfg: Config, d: Dossier, es: seq<Event>, j: nat, k: nat)
    requires Opened(d) && j <= k <= |es| && Connected(At(cfg, d, es, k).history)
    ensures Connected(At(cfg, d, es, j).history)
  {
    if j < k {
      ConnectedNext(cfg, d, es, k - 1);
      WasConnected(cfg, d, es, j, k - 1);
    }
  }

  lemma OnPathBefore(cfg: Config, d: Dossier, es: seq<Event>, j: nat)
    requires Opened(d) && j < |es| && Connected(At(cfg, d, es, |es|).history)
    ensures !OffPath(cfg, At(cfg, d, es, j), es[j])
  {
    WasConnected(cfg, d, es, j + 1, |es|);
    ConnectedNext(cfg, d, es, j);
  }

  /** The history is a connected path exactly in the runs that never complete a procession off LIVE. */
  lemma ConnectedExactly(cfg: Config, d: Dossier, es: seq<Event>)
    requires Opened(d)
    ensures Connected(Run(cfg, d, es).history) <==>
      forall k :: 0 <= k < |es| ==> !OffPath(cfg, At(cfg, d, es, k), es[k])
  {
    assert es[..|es|] == es;
    if Connected(Run(cfg, d, es).history) {
      forall k | 0 <= k < |es| ensures !OffPath(cfg, At(cfg, d, es, k), es[k]) {
        OnPathBefore(cfg, d, es, k);
      }
    } else if forall k :: 0 <= k < |es| ==> !OffPath(cfg, At(cfg, d, es, k), es[k]) {
      ConnectedUpTo(cfg, d, es, |es|);
    }
  }

  // ---- once station decisions stop at the start ----

  /** No station decides after the procession was started. */
  predicate DecisionsStop(cfg: Config, d: Dossier, es: seq<Event>) {
    forall k :: 0 <= k < |es| && es[k].op.OpDecide? ==> At(cfg, d, es, k).procession.None?
  }

  /** A procession row exactly when LIVE or COMPLETED, under way exactly when LIVE. */
  predicate LiveFits(d: Dossier) {
    && (d.procession.Some? <==> d.status == Status.Live || d.status == Status.Completed)
    && (d.procession.Some? && Underway(d.procession.value.status) <==> d.status == Status.Live)
  }

  lemma LiveFitsStep(cfg: Config, d: Dossier, e: Event)
    requires ProcessionFits(d) && LiveFits(d)
    requires e.op.OpDecide? ==> d.procession.None?
    ensures LiveFits(Step(cfg, d, e))
    ensures !OffPath(cfg, d, e)
    ensures d.status == Status.Completed ==>
      Step(cfg, d, e).status == Status.Completed && Step(cfg, d, e).history == d.history
  {
  }

  lemma StopPrefix(cfg: Config, d: Dossier, es: seq<Event>, n: nat)
    requires DecisionsStop(cfg, d, es) && n <= |es|
    ensures DecisionsStop(cfg, d, es[..n])
    ensures forall k :: 0 <= k < n ==> At(cfg, d, es[..n], k) == At(cfg, d, es, k)
  {
    assert forall k :: 0 <= k < n ==> es[..n][..k] == es[..k];
  }

  /** When decisions stop at the start: the history is a path, and procession and status move together. */
  lemma {:induction false} DisciplinedRun(cfg: Config, d: Dossier, es: seq<Event>)
    requires Opened(d) && DecisionsStop(cfg, d, es)
    ensures LiveFits(Run(cfg, d, es)) && Connected(Run(cfg, d, es).history)
  {
    if es != [] {
      var n := |es| - 1;
      StopPrefix(cfg, d, es, n);
      DisciplinedRun(cfg, d, es[..n]);
      SoundOpen(d);
      SoundRun(cfg, d, es[..n]);
      LiveFitsStep(cfg, Run(cfg, d, es[..n]), es[n]);
      ConnectedStep(cfg, Run(cfg, d, es[..n]), es[n]);
    }
  }

  lemma CompletedStays(cfg: Config, d: Dossier, es: seq<Event>)
    requires Opened(d) && DecisionsStop(cfg, d, es) && es != []
    requires At(cfg, d, es, |es| - 1).status == Status.Completed
    ensures Run(cfg, d, es).status == Status.Completed
    ensures Run(cfg, d, es).history == At(cfg, d, es, |es| - 1).history
  {
    var n := |es| - 1;
    StopPrefix(cfg, d, es, n);
    DisciplinedRun(cfg, d, es[..n]);
    SoundOpen(d);
    SoundRun(cfg, d, es[..n]);
    LiveFitsStep(cfg, Run(cfg, d, es[..n]), es[n]);
  }

  /** COMPLETED is final: nothing later in the run adds to the history. */
  lemma {:induction false} CompletedIsFinal(cfg: Config, d: Dossier, es: seq<Event>, k: nat)
    requires Opened(d) && DecisionsStop(cfg, d, es) && k <= |es|
    requires At(cfg, d, es, k).status == Status.Completed
    ensures Run(cfg, d, es).status == Status.Completed
    ensures Run(cfg, d, es).history == At(cfg, d, es, k).history
  {
    if k == |es| {
      assert es[..k] == es;
    } else {
      var n := |es| - 1;
      StopPrefix(cfg, d, es, n);
      assert es[..n][..k] == es[..k];
      CompletedIsFinal(cfg, d, es[..n], k);
      CompletedStays(cfg, d, es);
    }
  }
}
