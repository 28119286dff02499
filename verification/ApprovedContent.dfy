/** What exactly the stations have approved: the particulars of the application, and the route on the permit. */
module ApprovedContent {
  import opened Wrappers
  import opened Casework
  import opened Lifecycle
  import opened Filing
  import opened Decisions

  // ---- the particulars ----

  predicate SameParticulars(a: Dossier, b: Dossier) {
    && a.festival == b.festival && a.year == b.year && a.startTime == b.startTime && a.endTime == b.endTime
    && a.details == b.details
  }

  /** Only the organizer edits, and only a draft or an application sent back for changes. */
  lemma EditStep(cfg: Config, d: Dossier, e: Event)
    ensures SameParticulars(d, Step(cfg, d, e)) || (e.op.OpUpdate? && e.op.user == d.organizer && Editable(d.status))
    ensures Step(cfg, d, e).organizer == d.organizer
    ensures d.startTime < d.endTime ==> Step(cfg, d, e).startTime < Step(cfg, d, e).endTime
  {
  }

  /** In every run the event ends after it starts, and belongs to whoever created it. */
  lemma {:induction false} TimesInOrder(cfg: Config, d: Dossier, es: seq<Event>)
    requires Opened(d)
    ensures Run(cfg, d, es).startTime < Run(cfg, d, es).endTime
    ensures Run(cfg, d, es).organizer == d.organizer
  {
    if es != [] {
      TimesInOrder(cfg, d, es[..|es| - 1]);
      EditStep(cfg, Run(cfg, d, es[..|es| - 1]), es[|es| - 1]);
    }
  }

  /** An edit that goes through with a value the application did not have. */
  predicate Edits(cfg: Config, d: Dossier, e: Event) {
    e.op.OpUpdate? && Succeeds(cfg, d, e) && GivesNew(d, e.op)
  }

  predicate GivesNew(d: Dossier, op: Op)
    requires op.OpUpdate?
  {
    || OrElse(op.festival, d.festival) != d.festival || OrElse(op.year, d.year) != d.year
    || OrElse(op.startTime, d.startTime) != d.startTime || OrElse(op.endTime, d.endTime) != d.endTime
    || OrElse(op.details, d.details) != d.details
  }

  lemma ParticularsStep(cfg: Config, d: Dossier, e: Event)
    ensures SameParticulars(d, Step(cfg, d, e)) <==> !Edits(cfg, d, e)
  {
  }

  lemma {:induction false} UneditedUpTo(cfg: Config, d: Dossier, es: seq<Event>, i: nat, k: nat)
    requires i <= k <= |es| && forall j :: i <= j < k ==> !Edits(cfg, At(cfg, d, es, j), es[j])
    ensures SameParticulars(At(cfg, d, es, i), At(cfg, d, es, k))
  {
    if i < k {
      UneditedUpTo(cfg, d, es, i, k - 1);
      RunNext(cfg, d, es, k - 1);
      ParticularsStep(cfg, At(cfg, d, es, k - 1), es[k - 1]);
    }
  }

  /** From the i-th moment on the particulars stay, if and only if no edit with a new value goes through. */
  lemma ParticularsExactly(cfg: Config, d: Dossier, es: seq<Event>, i: nat)
    requires i <= |es|
    ensures (forall k :: i <= k <= |es| ==> SameParticulars(At(cfg, d, es, i), At(cfg, d, es, k))) <==>
      (forall k :: i <= k < |es| ==> !Edits(cfg, At(cfg, d, es, k), es[k]))
  {
    if forall k :: i <= k <= |es| ==> SameParticulars(At(cfg, d, es, i), At(cfg, d, es, k)) {
      forall k | i <= k < |es| ensures !Edits(cfg, At(cfg, d, es, k), es[k]) {
        RunNext(cfg, d, es, k);
        ParticularsStep(cfg, At(cfg, d, es, k), es[k]);
        assert SameParticulars(At(cfg, d, es, i), At(cfg, d, es, k + 1));
      }
    }
    if forall k :: i <= k < |es| ==> !Edits(cfg, At(cfg, d, es, k), es[k]) {
      forall k | i <= k <= |es| ensures SameParticulars(At(cfg, d, es, i), At(cfg, d, es, k)) {
        UneditedUpTo(cfg, d, es, i, k);
      }
    }
  }

  /** The i-th event is a submission that goes through. */
  predicate SubmitsAt(cfg: Config, d: Dossier, es: seq<Event>, i: nat) {
    i < |es| && es[i].op.OpSubmit? && Succeeds(cfg, At(cfg, d, es, i), es[i])
  }

  /** Unless an edit has gone through since the submission, the particulars are as submitted. */
  lemma ApprovedAsSubmitted(cfg: Config, d: Dossier, es: seq<Event>, i: nat)
    requires SubmitsAt(cfg, d, es, i)
    requires forall k :: i < k < |es| && es[k].op.OpUpdate? ==> !Succeeds(cfg, At(cfg, d, es, k), es[k])
    ensures SameParticulars(At(cfg, d, es, i), Run(cfg, d, es))
  {
    UneditedUpTo(cfg, d, es, i, |es|);
    assert es[..|es|] == es;
  }

  // ---- what an edit after the submission takes ----

  /** Submitted, and nobody has asked for changes since. */
  predicate Untouched(d: Dossier) {
    !Editable(d.status) && forall st :: st in d.approvals ==> d.approvals[st].decision != Decision.ChangesRequested
  }

  predicate AsksForChanges(cfg: Config, d: Dossier, e: Event) {
    e.op.OpDecide? && e.op.verdict == Decision.ChangesRequested && Succeeds(cfg, d, e)
  }

  lemma UntouchedStep(cfg: Config, d: Dossier, e: Event)
    requires Untouched(d) && !AsksForChanges(cfg, d, e)
    ensures Untouched(Step(cfg, d, e)) && Step(cfg, d, e).approvals.Keys == d.approvals.Keys
  {
    if e.op.OpDecide? && Succeeds(cfg, d, e) {
      UntouchedDecide(After(d, e.wait), e.op.station, e.op.verdict, e.op.reason);
    }
  }

  lemma UntouchedDecide(d: Dossier, st: StationId, verdict: Verdict, reason: string)
    requires Untouched(d) && verdict != Decision.ChangesRequested && Decide(d, st, verdict, reason).Ok?
    ensures Untouched(Decide(d, st, verdict, reason).value)
    ensures Decide(d, st, verdict, reason).value.approvals.Keys == d.approvals.Keys
  {
    var r := Decide(d, st, verdict, reason).value;
    assert forall other :: other in r.approvals ==> other == st || other in d.approvals;
  }

  lemma SubmitStep(cfg: Config, d: Dossier, e: Event)
    requires e.op.OpSubmit? && Succeeds(cfg, d, e)
    ensures Untouched(Step(cfg, d, e)) && Step(cfg, d, e).approvals.Keys == d.approvals.Keys + Confirmed(d)
  {
    assert Confirmed(After(d, e.wait)) == Confirmed(d);
  }

  lemma {:induction false} UntouchedFrom(cfg: Config, d: Dossier, es: seq<Event>, n: nat, k: nat)
    requires n <= k <= |es| && Untouched(At(cfg, d, es, n))
    requires forall j :: n <= j < k ==> !AsksForChanges(cfg, At(cfg, d, es, j), es[j])
    ensures Untouched(At(cfg, d, es, k)) && At(cfg, d, es, k).approvals.Keys == At(cfg, d, es, n).approvals.Keys
  {
    if n < k {
      UntouchedFrom(cfg, d, es, n, k - 1);
      RunNext(cfg, d, es, k - 1);
      UntouchedStep(cfg, At(cfg, d, es, k - 1), es[k - 1]);
    }
  }

  /** Until a request for changes goes through, the stations asked stay those of the submission. */
  lemma UntouchedUpTo(cfg: Config, d: Dossier, es: seq<Event>, i: nat, k: nat)
    requires SubmitsAt(cfg, d, es, i) && i < k <= |es|
    requires forall j :: i < j < k ==> !AsksForChanges(cfg, At(cfg, d, es, j), es[j])
    ensures Untouched(At(cfg, d, es, k))
    ensures At(cfg, d, es, k).approvals.Keys == At(cfg, d, es, i).approvals.Keys + Confirmed(At(cfg, d, es, i))
  {
    RunNext(cfg, d, es, i);
    SubmitStep(cfg, At(cfg, d, es, i), es[i]);
    UntouchedFrom(cfg, d, es, i + 1, k);
  }

  lemma UntouchedRefuses(cfg: Config, d: Dossier, e: Event)
    requires Untouched(d) && (e.op.OpUpdate? || e.op.OpSubmit?)
    ensures !Succeeds(cfg, d, e)
  {
  }

  /** An edit or a resubmission goes through only after a station's request for changes has. */
  lemma EditFollowsRequest(cfg: Config, d: Dossier, es: seq<Event>, i: nat, k: nat)
    requires SubmitsAt(cfg, d, es, i) && i < k < |es|
    requires (es[k].op.OpUpdate? || es[k].op.OpSubmit?) && Succeeds(cfg, At(cfg, d, es, k), es[k])
    ensures exists j :: i < j < k && AsksForChanges(cfg, At(cfg, d, es, j), es[j])
  {
    if forall j :: i < j < k ==> !AsksForChanges(cfg, At(cfg, d, es, j), es[j]) {
      UntouchedUpTo(cfg, d, es, i, k);
      UntouchedRefuses(cfg, At(cfg, d, es, k), es[k]);
    }
  }

  // ---- the route on the permit ----

  /** Event k issues the permit, for the route that is active then. */
  predicate IssuesAt(cfg: Config, d: Dossier, es: seq<Event>, k: nat, p: Permit)
    requires k < |es|
  {
    && es[k].op.OpDecide? && At(cfg, d, es, k).permits == [] && At(cfg, d, es, k).route == Some(p.route)
    && Step(cfg, At(cfg, d, es, k), es[k]).permits == [p]
    && Step(cfg, At(cfg, d, es, k), es[k]).status == Status.Approved
  }

  lemma PermitStep(cfg: Config, d: Dossier, e: Event)
    requires d.permits == [] && Step(cfg, d, e).permits != []
    ensures e.op.OpDecide? && Step(cfg, d, e).status == Status.Approved
    ensures |Step(cfg, d, e).permits| == 1 && d.route == Some(Step(cfg, d, e).permits[0].route)
  {
  }

  /** Every permit was issued by a decision that approved the application, for the route active at that moment. */
  lemma {:induction false} PermitIssued(cfg: Config, d: Dossier, es: seq<Event>) returns (k: nat)
    requires Opened(d) && Run(cfg, d, es).permits != []
    ensures k < |es| && IssuesAt(cfg, d, es, k, Run(cfg, d, es).permits[0])
  {
    var n, init := |es| - 1, es[..|es| - 1];
    SoundOpen(d);
    SoundRun(cfg, d, init);
    if Run(cfg, d, init).permits == [] {
      k := n;
      PermitStep(cfg, Run(cfg, d, init), es[n]);
      assert At(cfg, d, es, n) == Run(cfg, d, init);
    } else {
      k := PermitIssued(cfg, d, init);
      NumberAndPermitStep(cfg, Run(cfg, d, init), es[n]);
      assert init[..k] == es[..k];
    }
  }

  lemma RouteStep(cfg: Config, d: Dossier, e: Event)
    requires !e.op.OpNewVersion?
    ensures Step(cfg, d, e).route == d.route
  {
  }

  lemma {:induction false} RouteKept(cfg: Config, d: Dossier, es: seq<Event>)
    requires forall k :: 0 <= k < |es| ==> !es[k].op.OpNewVersion?
    ensures Run(cfg, d, es).route == d.route
  {
    if es != [] {
      RouteKept(cfg, d, es[..|es| - 1]);
      RouteStep(cfg, Run(cfg, d, es[..|es| - 1]), es[|es| - 1]);
    }
  }

  /** Until a newer version is saved, the active route is the one on the permit. */
  lemma PermitFitsRoute(cfg: Config, d: Dossier, es: seq<Event>, k: nat, p: Permit)
    requires k < |es| && IssuesAt(cfg, d, es, k, p)
    requires forall j :: k < j < |es| ==> !es[j].op.OpNewVersion?
    ensures Run(cfg, d, es).route == Some(p.route)
  {
    RunSplit(cfg, d, es, k);
    RouteKept(cfg, At(cfg, d, es, k), es[k..]);
  }

  /** Every save makes a version that was not there before. */
  predicate FreshVersions(es: seq<Event>) {
    forall i, j :: 0 <= i < j < |es| && es[i].op.OpNewVersion? && es[j].op.OpNewVersion? ==>
      es[i].op.version != es[j].op.version
  }

  lemma SaveStep(cfg: Config, d: Dossier, e: Event)
    requires e.op.OpNewVersion?
    ensures Step(cfg, d, e).route == Some(e.op.version)
  {
  }

  /** The active route is the last version saved. */
  lemma {:induction false} RouteIsLastSaved(cfg: Config, d: Dossier, es: seq<Event>, k: nat) returns (j: nat)
    requires k <= |es| && d.route.None? && At(cfg, d, es, k).route.Some?
    ensures j < k && es[j].op.OpNewVersion? && At(cfg, d, es, k).route == Some(es[j].op.version)
    ensures forall n :: j < n < k ==> !es[n].op.OpNewVersion?
  {
    assert es[..0] == [];
    RunNext(cfg, d, es, k - 1);
    if es[k - 1].op.OpNewVersion? {
      SaveStep(cfg, At(cfg, d, es, k - 1), es[k - 1]);
      j := k - 1;
    } else {
      RouteStep(cfg, At(cfg, d, es, k - 1), es[k - 1]);
      j := RouteIsLastSaved(cfg, d, es, k - 1);
    }
  }

  lemma {:induction false} RouteStays(cfg: Config, d: Dossier, es: seq<Event>, i: nat, k: nat)
    requires i <= k <= |es| && forall j :: i <= j < k ==> !es[j].op.OpNewVersion?
    ensures At(cfg, d, es, k).route == At(cfg, d, es, i).route
  {
    if i < k {
      RouteStays(cfg, d, es, i, k - 1);
      RunNext(cfg, d, es, k - 1);
      RouteStep(cfg, At(cfg, d, es, k - 1), es[k - 1]);
    }
  }

  lemma RouteChanges(cfg: Config, d: Dossier, es: seq<Event>, i: nat, n: nat, k: nat)
    requires Opened(d) && FreshVersions(es) && i <= n < k <= |es| && es[n].op.OpNewVersion?
    requires At(cfg, d, es, i).route.Some? && At(cfg, d, es, k).route.Some?
    ensures At(cfg, d, es, k).route != At(cfg, d, es, i).route
  {
    var a := RouteIsLastSaved(cfg, d, es, i);
    var b := RouteIsLastSaved(cfg, d, es, k);
    assert a < i <= n <= b;
  }

  /**
   * The permit names the route that was active at a submission, if and only if
   * no version was saved between that submission and the decision that issued
   * the permit.
   */
  lemma PermitRouteExactly(cfg: Config, d: Dossier, es: seq<Event>, i: nat, k: nat, p: Permit)
    requires Opened(d) && FreshVersions(es)
    requires SubmitsAt(cfg, d, es, i) && i < k < |es| && IssuesAt(cfg, d, es, k, p)
    ensures At(cfg, d, es, i).route == Some(p.route) <==> forall j :: i < j < k ==> !es[j].op.OpNewVersion?
  {
    if forall j :: i < j < k ==> !es[j].op.OpNewVersion? {
      RouteStays(cfg, d, es, i, k);
    } else {
      var n :| i < n < k && es[n].op.OpNewVersion?;
      RouteChanges(cfg, d, es, i, n, k);
    }
  }

  lemma DecidesEarlier(cfg: Config, d: Dossier, es: seq<Event>, n: nat, j: nat, st: StationId, x: Decision)
    requires j < n <= |es| && DecidesAt(cfg, d, es[..n], j, st, x)
    ensures DecidesAt(cfg, d, es, j, st, x)
  {
    PrefixAt(cfg, d, es, n, j);
  }

  lemma SubmitsEarlier(cfg: Config, d: Dossier, es: seq<Event>, n: nat, i: nat)
    requires i < n <= |es|
    ensures SubmitsAt(cfg, d, es[..n], i) <==> SubmitsAt(cfg, d, es, i)
  {
    PrefixAt(cfg, d, es, n, i);
  }

  /** When the permit is issued, every station listed has approved since the submission. */
  lemma ApprovedSince(cfg: Config, d: Dossier, es: seq<Event>, i: nat, k: nat, p: Permit, st: StationId)
    requires Opened(d) && SubmitsAt(cfg, d, es, i) && i < k < |es| && IssuesAt(cfg, d, es, k, p)
    requires st in Confirmed(At(cfg, d, es, i))
    ensures exists j :: i < j <= k && DecidesAt(cfg, d, es, j, st, Decision.Approved)
  {
    var now := es[..k + 1];
    RunNext(cfg, d, es, k);
    PrefixAt(cfg, d, es, k + 1, i);
    SubmitsEarlier(cfg, d, es, k + 1, i);
    NoStaleApprovals(cfg, d, now, i);
    var j :| i < j < |now| && DecidesAt(cfg, d, now, j, st, Decision.Approved);
    DecidesEarlier(cfg, d, es, k + 1, j, st, Decision.Approved);
  }

  /**
   * Then every station that was confirmed on the permit's route at the
   * submission has approved since, the last of them by issuing the permit.
   */
  lemma PermitSeenByAll(cfg: Config, d: Dossier, es: seq<Event>, i: nat, k: nat, p: Permit, st: StationId)
    requires Opened(d) && SubmitsAt(cfg, d, es, i) && i < k < |es| && IssuesAt(cfg, d, es, k, p)
    requires forall j :: i < j < k ==> !es[j].op.OpNewVersion?
    requires (st, p.route) in At(cfg, d, es, i).suggestions && At(cfg, d, es, i).suggestions[(st, p.route)]
    ensures exists j :: i < j <= k && DecidesAt(cfg, d, es, j, st, Decision.Approved)
  {
    var before := At(cfg, d, es, i);
    assert before.route == Some(p.route) by {
      RouteStep(cfg, before, es[i]);
      RouteStays(cfg, d, es, i, k);
    }
    assert st in Confirmed(before) by { assert (st, p.route) in before.suggestions.Keys; }
    ApprovedSince(cfg, d, es, i, k, p, st);
  }

  // ---- runs in which what is approved is not what was submitted ----

  predicate AwaitsOne(d: Dossier, st: StationId) {
    && d.status == Submitted && d.approvals.Keys == {st} && d.permits == []
    && d.number.Some? && |d.number.value| <= 46 && d.route.Some?
  }

  lemma ApproveAlone(d: Dossier, st: StationId)
    requires d.status != Status.Approved && d.approvals.Keys == {st} && d.permits == [] && d.route.Some?
    requires d.number.Some? && |d.number.value| <= 46
    ensures var r := Decide(d, st, Decision.Approved, "");
      && r.Ok? && r.value.status == Status.Approved
      && r.value.permits == [Permit(PermitNumber(d.number), d.route.value)]
      && SameParticulars(d, r.value) && r.value.route == d.route
  {
    var rows := d.approvals[st := Approval(Decision.Approved, "")];
    assert EveryRow(rows, Decision.Approved);
  }

  lemma AwaitsOneReached(cfg: Config, d: Dossier, v: VersionId, st: StationId, next: string)
    requires Opened(d) && |next| <= 46
    ensures AwaitsOne(Run(cfg, d, ToSubmission(d.organizer, v, [st], next)), st)
    ensures var es := ToSubmission(d.organizer, v, [st], next); SubmitsAt(cfg, d, es, |es| - 1)
  {
    FiledReached(cfg, d, v, [st], next);
    var es := ToSubmission(d.organizer, v, [st], next);
    assert es[..|es| - 1] == Prepare(v, [st]);
  }

  lemma AskedThenEdited(d: Dossier, st: StationId, reason: string)
    requires AwaitsOne(d, st) && reason != "" && d.startTime < d.endTime
    ensures var asked := Decide(d, st, Decision.ChangesRequested, reason);
      && asked.Ok?
      && var edited := Update(asked.value, d.organizer, None, None, None, Some(d.endTime + 1), None);
      && edited.Ok?
      && var approved := Decide(edited.value, st, Decision.Approved, "");
      && approved.Ok? && approved.value.status == Status.Approved && approved.value.endTime == d.endTime + 1
  {
    var asked := Decide(d, st, Decision.ChangesRequested, reason).value;
    assert asked.approvals[st].decision == Decision.ChangesRequested;
    assert asked.status == Status.ChangesRequested && asked.approvals.Keys == {st};
    var edited := Update(asked, d.organizer, None, None, None, Some(d.endTime + 1), None).value;
    ApproveAlone(edited, st);
  }

  function Slip(d: Dossier, st: StationId, reason: string): seq<Event> {
    [] + [Now(OpDecide(st, Decision.ChangesRequested, reason))]
    + [Now(OpUpdate(d.organizer, None, None, None, Some(d.endTime + 1), None))]
    + [Now(OpDecide(st, Decision.Approved, ""))]
  }

  lemma SlipRun(cfg: Config, d: Dossier, st: StationId, reason: string)
    requires AwaitsOne(d, st) && reason != "" && d.startTime < d.endTime
    ensures Run(cfg, d, Slip(d, st, reason)).status == Status.Approved
    ensures Run(cfg, d, Slip(d, st, reason)).endTime == d.endTime + 1
  {
    AskedThenEdited(d, st, reason);
    var asked := Decide(d, st, Decision.ChangesRequested, reason).value;
    var edited := Update(asked, d.organizer, None, None, None, Some(d.endTime + 1), None).value;
    assert After(d, 0) == d && After(asked, 0) == asked && After(edited, 0) == edited;
    RunThree(cfg, d, [], Slip(d, st, reason)[0], Slip(d, st, reason)[1], Slip(d, st, reason)[2]);
  }

  lemma SubmitsFirst(cfg: Config, d: Dossier, v: VersionId, st: StationId, next: string, more: seq<Event>)
    requires Opened(d) && |next| <= 46
    ensures var filing := ToSubmission(d.organizer, v, [st], next);
      && SubmitsAt(cfg, d, filing + more, |filing| - 1)
      && SameParticulars(d, At(cfg, d, filing + more, |filing| - 1))
  {
    var filing := ToSubmission(d.organizer, v, [st], next);
    AwaitsOneReached(cfg, d, v, st, next);
    assert (filing + more)[..|filing|] == filing;
    SubmitsEarlier(cfg, d, filing + more, |filing|, |filing| - 1);
    assert (filing + more)[..|filing| - 1] == Prepare(v, [st]);
    Prepared(cfg, d, v, [st]);
  }

  /**
   * From every new application: asked for changes, edited, and approved by the
   * same station, without a second submission.
   */
  lemma EditSlipsThrough(cfg: Config, d: Dossier, v: VersionId, st: StationId, next: string, reason: string)
    returns (es: seq<Event>, i: nat)
    requires Opened(d) && |next| <= 46 && reason != ""
    ensures SubmitsAt(cfg, d, es, i) && forall j :: i < j < |es| ==> !es[j].op.OpSubmit?
    ensures Run(cfg, d, es).status == Status.Approved && !SameParticulars(At(cfg, d, es, i), Run(cfg, d, es))
  {
    var filing := ToSubmission(d.organizer, v, [st], next);
    AwaitsOneReached(cfg, d, v, st, next);
    FiledReached(cfg, d, v, [st], next);
    var filed := Run(cfg, d, filing);
    i, es := |filing| - 1, filing + Slip(filed, st, reason);
    SlipRun(cfg, filed, st, reason);
    RunConcat(cfg, d, filing, Slip(filed, st, reason));
    SubmitsFirst(cfg, d, v, st, next, Slip(filed, st, reason));
  }

  /**
   * From every new application: a version saved after the submission is the
   * one the permit names, though none of its stations was asked.
   */
  lemma PermitForUnseenRoute(cfg: Config, d: Dossier, v: VersionId, newer: VersionId, st: StationId, next: string)
    returns (es: seq<Event>)
    requires Opened(d) && |next| <= 46 && newer != v
    ensures Run(cfg, d, es).status == Status.Approved
    ensures Run(cfg, d, es).permits == [Permit(PermitNumber(Some(next)), newer)]
    ensures Confirmed(Run(cfg, d, es)) == {} && FreshVersions(es)
  {
    var filing := ToSubmission(d.organizer, v, [st], next);
    AwaitsOneReached(cfg, d, v, st, next);
    FiledReached(cfg, d, v, [st], next);
    var filed := Run(cfg, d, filing);
    var save, approve := Now(OpNewVersion(newer)), Now(OpDecide(st, Decision.Approved, ""));
    es := filing + [save] + [approve];
    RunSnoc(cfg, d, filing, save);
    RunSnoc(cfg, d, filing + [save], approve);
    assert After(filed, 0) == filed && After(NewVersion(filed, newer), 0) == NewVersion(filed, newer);
    ApproveAlone(NewVersion(filed, newer), st);
    FilingSavesOnce(d.organizer, v, st, next);
  }

  lemma FilingSavesOnce(user: UserId, v: VersionId, st: StationId, next: string)
    ensures var filing := ToSubmission(user, v, [st], next);
      filing[0] == Now(OpNewVersion(v)) && forall j :: 0 < j < |filing| ==> !filing[j].op.OpNewVersion?
  {
    ConfirmationsOnly([st]);
  }
}
