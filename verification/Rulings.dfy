/** What calls without submission, start or completion come to, and when the order of decisions matters. */
module Rulings {
  import opened Wrappers
  import opened Casework
  import opened Lifecycle
  import opened Filing

  // ---- the decisions among the calls ----

  /** No submission, start or completion goes through. */
  predicate Stretch(cfg: Config, d: Dossier, es: seq<Event>) {
    forall k :: 0 <= k < |es| && (es[k].op.OpSubmit? || es[k].op.OpStart? || es[k].op.OpComplete?) ==>
      !Succeeds(cfg, At(cfg, d, es, k), es[k])
  }

  datatype Ruling = Ruling(station: StationId, verdict: Verdict, reason: string)

  function RowOf(r: Ruling): Approval { Approval(r.verdict, r.reason) }

  /** A decision of a station on the list, with the reason it needs. */
  predicate Counts(listed: set<StationId>, op: Op) {
    op.OpDecide? && op.station in listed && (op.verdict == Decision.Approved || op.reason != "")
  }

  /** Those decisions, in order; all other calls left out. */
  function RulingsIn(listed: set<StationId>, es: seq<Event>): seq<Ruling> {
    if es == [] then []
    else
      var init, op := RulingsIn(listed, es[..|es| - 1]), es[|es| - 1].op;
      if Counts(listed, op) then init + [Ruling(op.station, op.verdict, op.reason)] else init
  }

  predicate Proper(listed: set<StationId>, r: Ruling) {
    r.station in listed && (r.verdict == Decision.Approved || r.reason != "")
  }

  predicate AllProper(listed: set<StationId>, rs: seq<Ruling>) { forall r :: r in rs ==> Proper(listed, r) }

  /** One decision; a refused one changes nothing. */
  function Decided(d: Dossier, r: Ruling): Dossier {
    match Decide(d, r.station, r.verdict, r.reason)
    case Ok(next) => next
    case Err(_) => d
  }

  function DecideAll(d: Dossier, rs: seq<Ruling>): Dossier {
    if rs == [] then d else Decided(DecideAll(d, rs[..|rs| - 1]), rs[|rs| - 1])
  }

  lemma {:induction false} RulingsProper(listed: set<StationId>, es: seq<Event>)
    ensures AllProper(listed, RulingsIn(listed, es))
  {
    if es != [] { RulingsProper(listed, es[..|es| - 1]); }
  }

  lemma DecideSnoc(d: Dossier, rs: seq<Ruling>, r: Ruling)
    ensures DecideAll(d, rs + [r]) == Decided(DecideAll(d, rs), r)
  {
    assert (rs + [r])[..|rs|] == rs;
  }

  // ---- nothing but the decisions counts ----

  /** The same as far as decisions are concerned. */
  predicate SameCase(a: Dossier, b: Dossier) {
    a.approvals == b.approvals && a.status == b.status && a.number == b.number && (a.permits == [] <==> b.permits == [])
  }

  lemma SoundDecided(d: Dossier, r: Ruling)
    requires Sound(d)
    ensures Sound(Decided(d, r)) && Decided(d, r).approvals.Keys == d.approvals.Keys
  {
    if Decide(d, r.station, r.verdict, r.reason).Ok? { SoundDecide(d, r.station, r.verdict, r.reason); }
  }

  lemma DecideSame(a: Dossier, b: Dossier, r: Ruling)
    requires Sound(a) && Sound(b) && SameCase(a, b) && Proper(a.approvals.Keys, r)
    ensures SameCase(Decided(a, r), Decided(b, r))
  {
    IssuingFailsExactly(a, r.station, r.verdict, r.reason);
    IssuingFailsExactly(b, r.station, r.verdict, r.reason);
  }

  lemma OtherCall(cfg: Config, d: Dossier, e: Event)
    requires Sound(d) && !Counts(d.approvals.Keys, e.op)
    requires e.op.OpSubmit? || e.op.OpStart? || e.op.OpComplete? ==> !Succeeds(cfg, d, e)
    ensures SameCase(d, Step(cfg, d, e))
  {
  }

  lemma CountedCall(cfg: Config, d: Dossier, e: Event)
    requires Sound(d) && Counts(d.approvals.Keys, e.op)
    ensures SameCase(Decided(d, Ruling(e.op.station, e.op.verdict, e.op.reason)), Step(cfg, d, e))
  {
    SoundKept(d, After(d, e.wait));
    DecideSame(d, After(d, e.wait), Ruling(e.op.station, e.op.verdict, e.op.reason));
  }

  lemma StretchPrefix(cfg: Config, d: Dossier, es: seq<Event>, n: nat)
    requires n <= |es| && Stretch(cfg, d, es)
    ensures Stretch(cfg, d, es[..n])
  {
    forall k | 0 <= k < n && (es[k].op.OpSubmit? || es[k].op.OpStart? || es[k].op.OpComplete?)
      ensures !Succeeds(cfg, At(cfg, d, es[..n], k), es[k])
    {
      PrefixAt(cfg, d, es, n, k);
    }
  }

  /** Such a stretch comes to its counted decisions alone, taken one after the other. */
  lemma {:induction false} RunIsDecisions(cfg: Config, d: Dossier, es: seq<Event>)
    requires Sound(d) && Stretch(cfg, d, es)
    ensures Sound(Run(cfg, d, es)) && Sound(DecideAll(d, RulingsIn(d.approvals.Keys, es)))
    ensures SameCase(DecideAll(d, RulingsIn(d.approvals.Keys, es)), Run(cfg, d, es))
    ensures Run(cfg, d, es).approvals.Keys == d.approvals.Keys
  {
    if es != [] {
      var n, init := |es| - 1, es[..|es| - 1];
      StretchPrefix(cfg, d, es, n);
      RunIsDecisions(cfg, d, init);
      assert At(cfg, d, es, n) == Run(cfg, d, init);
      SoundRun(cfg, d, es);
      OneMoreCall(cfg, DecideAll(d, RulingsIn(d.approvals.Keys, init)), Run(cfg, d, init), es[n]);
      if Counts(d.approvals.Keys, es[n].op) {
        DecideSnoc(d, RulingsIn(d.approvals.Keys, init), Ruling(es[n].op.station, es[n].op.verdict, es[n].op.reason));
      }
    }
  }

  lemma OneMoreCall(cfg: Config, a: Dossier, b: Dossier, e: Event)
    requires Sound(a) && Sound(b) && SameCase(a, b)
    requires e.op.OpSubmit? || e.op.OpStart? || e.op.OpComplete? ==> !Succeeds(cfg, b, e)
    ensures Counts(b.approvals.Keys, e.op) ==>
      var next := Decided(a, Ruling(e.op.station, e.op.verdict, e.op.reason));
      Sound(next) && SameCase(next, Step(cfg, b, e)) && next.approvals.Keys == a.approvals.Keys
    ensures !Counts(b.approvals.Keys, e.op) ==> SameCase(a, Step(cfg, b, e))
  {
    if Counts(b.approvals.Keys, e.op) {
      var r := Ruling(e.op.station, e.op.verdict, e.op.reason);
      SoundDecided(a, r);
      DecideSame(a, b, r);
      CountedCall(cfg, b, e);
    } else {
      OtherCall(cfg, b, e);
    }
  }

  // ---- each station's last decision ----

  function Last(rs: seq<Ruling>): map<StationId, Approval> {
    if rs == [] then map[] else Last(rs[..|rs| - 1])[rs[|rs| - 1].station := RowOf(rs[|rs| - 1])]
  }

  /** What one station decided, in order. */
  function VerdictsOf(rs: seq<Ruling>, st: StationId): seq<Approval> {
    if rs == [] then []
    else
      var init, r := VerdictsOf(rs[..|rs| - 1], st), rs[|rs| - 1];
      if r.station == st then init + [RowOf(r)] else init
  }

  /** The guard a permit's number has to pass: a permit exists, or its number fits. */
  predicate Issuable(d: Dossier) { d.permits != [] || |PermitNumber(d.number)| <= NUMBER_WIDTH }

  /** A counted decision goes through unless it would issue a permit whose number does not fit. */
  lemma RulingStep(d: Dossier, r: Ruling)
    requires Sound(d) && Proper(d.approvals.Keys, r)
    ensures var rows, next := d.approvals[r.station := RowOf(r)], Decided(d, r);
      && (if Aggregate(rows) == Status.Approved != d.status && !Issuable(d) then next == d
          else next.approvals == rows && next.status == Aggregate(rows))
      && (next.permits == [] <==> d.permits == [] && !(next.status == Status.Approved != d.status))
      && next.number == d.number && Sound(next) && (Issuable(next) <==> Issuable(d))
  {
    IssuingFailsExactly(d, r.station, r.verdict, r.reason);
    SoundDecided(d, r);
  }

  lemma OneMoreRow(rows: map<StationId, Approval>, last: map<StationId, Approval>, st: StationId, row: Approval)
    ensures (rows + last)[st := row] == rows + last[st := row]
  {
  }

  /** As long as a permit can be issued, rows and status are those of each station's last decision. */
  lemma {:induction false} DecideAllFolds(d: Dossier, rs: seq<Ruling>)
    requires Sound(d) && Issuable(d) && AllProper(d.approvals.Keys, rs)
    ensures DecideAll(d, rs).approvals == d.approvals + Last(rs)
    ensures DecideAll(d, rs).status == if rs == [] then d.status else Aggregate(d.approvals + Last(rs))
    ensures Sound(DecideAll(d, rs)) && Issuable(DecideAll(d, rs)) && Last(rs).Keys <= d.approvals.Keys
  {
    if rs != [] {
      var n := |rs| - 1;
      DecideAllFolds(d, rs[..n]);
      assert rs[n] in rs;
      RulingStep(DecideAll(d, rs[..n]), rs[n]);
      OneMoreRow(d.approvals, Last(rs[..n]), rs[n].station, RowOf(rs[n]));
    }
  }

  /** Rows and status after the stretch are those of each station's last counted decision. */
  predicate Folds(cfg: Config, d: Dossier, es: seq<Event>) {
    var rs := RulingsIn(d.approvals.Keys, es);
    && Run(cfg, d, es).approvals == d.approvals + Last(rs)
    && Run(cfg, d, es).status == if rs == [] then d.status else Aggregate(d.approvals + Last(rs))
  }

  lemma FoldsIfIssuable(cfg: Config, d: Dossier, es: seq<Event>)
    requires Sound(d) && Issuable(d) && Stretch(cfg, d, es)
    ensures Folds(cfg, d, es)
  {
    RunIsDecisions(cfg, d, es);
    RulingsProper(d.approvals.Keys, es);
    DecideAllFolds(d, RulingsIn(d.approvals.Keys, es));
  }

  // ---- decisions as calls ----

  function Call(r: Ruling): Event { Now(OpDecide(r.station, r.verdict, r.reason)) }

  function Calls(rs: seq<Ruling>): seq<Event> {
    if rs == [] then [] else Calls(rs[..|rs| - 1]) + [Call(rs[|rs| - 1])]
  }

  lemma RulingsSnoc(listed: set<StationId>, es: seq<Event>, r: Ruling)
    requires Proper(listed, r)
    ensures RulingsIn(listed, es + [Call(r)]) == RulingsIn(listed, es) + [r]
  {
    assert (es + [Call(r)])[..|es|] == es;
  }

  lemma {:induction false} RulingsOfCalls(listed: set<StationId>, rs: seq<Ruling>)
    requires AllProper(listed, rs)
    ensures RulingsIn(listed, Calls(rs)) == rs
  {
    if rs != [] {
      var n := |rs| - 1;
      assert rs[n] in rs && rs == rs[..n] + [rs[n]];
      RulingsOfCalls(listed, rs[..n]);
      RulingsSnoc(listed, Calls(rs[..n]), rs[n]);
    }
  }

  lemma {:induction false} CallsDecide(rs: seq<Ruling>)
    ensures forall e :: e in Calls(rs) ==> e.op.OpDecide?
  {
    if rs != [] { CallsDecide(rs[..|rs| - 1]); }
  }

  lemma CallsAreRulings(cfg: Config, d: Dossier, listed: set<StationId>, rs: seq<Ruling>)
    requires AllProper(listed, rs)
    ensures RulingsIn(listed, Calls(rs)) == rs && Stretch(cfg, d, Calls(rs))
  {
    RulingsOfCalls(listed, rs);
    CallsDecide(rs);
    var es := Calls(rs);
    forall k | 0 <= k < |es| ensures es[k].op.OpDecide? { assert es[k] in es; }
  }

  // ---- when a permit cannot be issued ----

  /** Without room for the permit's number, APPROVED is never reached. */
  lemma {:induction false} NeverApproved(d: Dossier, rs: seq<Ruling>)
    requires Sound(d) && !Issuable(d) && AllProper(d.approvals.Keys, rs)
    ensures Sound(DecideAll(d, rs)) && !Issuable(DecideAll(d, rs)) && DecideAll(d, rs).status != Status.Approved
    ensures DecideAll(d, rs).approvals.Keys == d.approvals.Keys && DecideAll(d, rs).permits == []
  {
    if rs == [] {
      assert d.status == Status.Approved ==> MovedTo(d.history, Status.Approved);
    } else {
      var n := |rs| - 1;
      NeverApproved(d, rs[..n]);
      assert rs[n] in rs;
      RulingStep(DecideAll(d, rs[..n]), rs[n]);
    }
  }

  /** Everybody approves, in some order. */
  lemma {:induction false} Unanimous(stations: set<StationId>) returns (rs: seq<Ruling>)
    ensures AllProper(stations, rs) && Last(rs).Keys == stations && (rs == [] <==> stations == {})
    ensures forall st :: st in stations ==> Last(rs)[st] == Approval(Decision.Approved, "")
    decreases stations
  {
    rs := [];
    if stations != {} {
      var st :| st in stations;
      var rest := Unanimous(stations - {st});
      rs := rest + [Ruling(st, Decision.Approved, "")];
      assert rs[..|rest|] == rest;
    }
  }

  /** Where the permit cannot be issued, the last of everybody's approvals leaves no row. */
  lemma UnanimousLeavesRows(cfg: Config, d: Dossier) returns (es: seq<Event>)
    requires Sound(d) && d.approvals != map[] && !Issuable(d)
    ensures Stretch(cfg, d, es) && Run(cfg, d, es).approvals != d.approvals + Last(RulingsIn(d.approvals.Keys, es))
  {
    var rs := Unanimous(d.approvals.Keys);
    es := Calls(rs);
    CallsAreRulings(cfg, d, d.approvals.Keys, rs);
    RunIsDecisions(cfg, d, es);
    NeverApproved(d, rs);
    AllApprovedShows(Run(cfg, d, es));
    assert EveryRow(d.approvals + Last(rs), Decision.Approved);
  }

  lemma AllApprovedShows(d: Dossier)
    requires Sound(d) && d.permits == [] && d.approvals != map[] && d.status != Status.Approved
    ensures !EveryRow(d.approvals, Decision.Approved)
  {
    var st :| st in d.approvals;
    if d.approvals[st].decision == Decision.Approved { assert d.status == Aggregate(d.approvals); }
  }

  /**
   * Every stretch, from an application that stations have been asked about,
   * ends with the rows and the status of each station's last counted decision -
   * if and only if its permit exists or can be issued.
   */
  lemma DecisionsFoldExactly(cfg: Config, d: Dossier)
    requires Sound(d) && d.approvals != map[]
    ensures (forall es :: Stretch(cfg, d, es) ==> Folds(cfg, d, es)) <==> Issuable(d)
  {
    if Issuable(d) {
      forall es | Stretch(cfg, d, es) ensures Folds(cfg, d, es) {
        FoldsIfIssuable(cfg, d, es);
      }
    } else {
      var es := UnanimousLeavesRows(cfg, d);
      assert !Folds(cfg, d, es);
    }
  }

  // ---- across starts and completions ----

  /** No submission goes through. */
  predicate Unsubmitted(cfg: Config, d: Dossier, es: seq<Event>) {
    forall k :: 0 <= k < |es| && es[k].op.OpSubmit? ==> !Succeeds(cfg, At(cfg, d, es, k), es[k])
  }

  /** The k-th call is a counted decision, and no start or completion goes through after it. */
  predicate DecidesLast(cfg: Config, d: Dossier, es: seq<Event>, k: nat) {
    && k < |es| && Counts(d.approvals.Keys, es[k].op)
    && forall j :: k < j < |es| && (es[j].op.OpStart? || es[j].op.OpComplete?) ==>
         !Succeeds(cfg, At(cfg, d, es, j), es[j])
  }

  /** The rows are those of each station's last decision, and so is the status when a decision had the last word. */
  ghost predicate RunFolds(cfg: Config, d: Dossier, es: seq<Event>) {
    var rows := d.approvals + Last(RulingsIn(d.approvals.Keys, es));
    && Run(cfg, d, es).approvals == rows
    && forall k :: DecidesLast(cfg, d, es, k) ==> Run(cfg, d, es).status == Aggregate(rows)
  }

  /** Any call but a submission that goes through: a counted decision enters its row, all others leave the rows. */
  lemma RowsStep(cfg: Config, d: Dossier, e: Event)
    requires Sound(d) && Issuable(d) && (e.op.OpSubmit? ==> !Succeeds(cfg, d, e))
    ensures Sound(Step(cfg, d, e)) && Issuable(Step(cfg, d, e))
    ensures Step(cfg, d, e).approvals ==
      if Counts(d.approvals.Keys, e.op) then d.approvals[e.op.station := Approval(e.op.verdict, e.op.reason)]
      else d.approvals
  {
    SoundStep(cfg, d, e);
    NumberAndPermitStep(cfg, d, e);
    if Counts(d.approvals.Keys, e.op) {
      SoundKept(d, After(d, e.wait));
      RulingStep(After(d, e.wait), Ruling(e.op.station, e.op.verdict, e.op.reason));
    } else {
      RowsLeft(cfg, d, e);
    }
  }

  lemma RowsLeft(cfg: Config, d: Dossier, e: Event)
    requires !Counts(d.approvals.Keys, e.op) && (e.op.OpSubmit? ==> !Succeeds(cfg, d, e))
    ensures Step(cfg, d, e).approvals == d.approvals
  {
  }

  lemma {:induction false} RowsFold(cfg: Config, d: Dossier, es: seq<Event>, k: nat)
    requires Sound(d) && Issuable(d) && Unsubmitted(cfg, d, es) && k <= |es|
    ensures Sound(At(cfg, d, es, k)) && Issuable(At(cfg, d, es, k))
    ensures At(cfg, d, es, k).approvals == d.approvals + Last(RulingsIn(d.approvals.Keys, es[..k]))
    ensures At(cfg, d, es, k).approvals.Keys == d.approvals.Keys
  {
    if k == 0 {
      assert es[..0] == [] && d.approvals + map[] == d.approvals;
    } else {
      RowsFold(cfg, d, es, k - 1);
      RunNext(cfg, d, es, k - 1);
      RowsStep(cfg, At(cfg, d, es, k - 1), es[k - 1]);
      LastNext(d.approvals, es, k - 1);
    }
  }

  /** How one more call changes the fold. */
  lemma LastNext(rows: map<StationId, Approval>, es: seq<Event>, k: nat)
    requires k < |es|
    ensures rows + Last(RulingsIn(rows.Keys, es[..k + 1])) ==
      if Counts(rows.Keys, es[k].op) then
        (rows + Last(RulingsIn(rows.Keys, es[..k])))[es[k].op.station := Approval(es[k].op.verdict, es[k].op.reason)]
      else rows + Last(RulingsIn(rows.Keys, es[..k]))
  {
    assert es[..k + 1][..k] == es[..k];
    var rs := RulingsIn(rows.Keys, es[..k]);
    if Counts(rows.Keys, es[k].op) {
      var r := Ruling(es[k].op.station, es[k].op.verdict, es[k].op.reason);
      assert (rs + [r])[..|rs|] == rs;
      OneMoreRow(rows, Last(rs), r.station, RowOf(r));
    }
  }

  /** After a decision, and until a start or completion, the status is the rows'. */
  lemma StatusAfter(cfg: Config, d: Dossier, es: seq<Event>, k: nat, m: nat)
    requires Sound(d) && Issuable(d) && Unsubmitted(cfg, d, es) && DecidesLast(cfg, d, es, k) && k < m <= |es|
    ensures At(cfg, d, es, m).status == Aggregate(At(cfg, d, es, m).approvals)
  {
    if m > k + 1 { StatusAfter(cfg, d, es, k, m - 1); }
    RowsFold(cfg, d, es, m - 1);
    StatusNext(cfg, d, es, m - 1);
  }

  lemma StatusNext(cfg: Config, d: Dossier, es: seq<Event>, m: nat)
    requires m < |es| && Sound(At(cfg, d, es, m)) && Issuable(At(cfg, d, es, m))
    requires es[m].op.OpSubmit? || es[m].op.OpStart? || es[m].op.OpComplete? ==>
      !Succeeds(cfg, At(cfg, d, es, m), es[m])
    requires !Counts(At(cfg, d, es, m).approvals.Keys, es[m].op) ==>
      At(cfg, d, es, m).status == Aggregate(At(cfg, d, es, m).approvals)
    ensures At(cfg, d, es, m + 1).status == Aggregate(At(cfg, d, es, m + 1).approvals)
  {
    RunNext(cfg, d, es, m);
    StatusStep(cfg, At(cfg, d, es, m), es[m]);
  }

  lemma StatusStep(cfg: Config, d: Dossier, e: Event)
    requires Sound(d) && Issuable(d)
    requires e.op.OpSubmit? || e.op.OpStart? || e.op.OpComplete? ==> !Succeeds(cfg, d, e)
    requires !Counts(d.approvals.Keys, e.op) ==> d.status == Aggregate(d.approvals)
    ensures Step(cfg, d, e).status == Aggregate(Step(cfg, d, e).approvals)
  {
    if Counts(d.approvals.Keys, e.op) {
      SoundKept(d, After(d, e.wait));
      RulingStep(After(d, e.wait), Ruling(e.op.station, e.op.verdict, e.op.reason));
    } else {
      OtherCall(cfg, d, e);
    }
  }

  lemma RunFoldsIfIssuable(cfg: Config, d: Dossier, es: seq<Event>)
    requires Sound(d) && Issuable(d) && Unsubmitted(cfg, d, es)
    ensures RunFolds(cfg, d, es)
  {
    assert es[..|es|] == es;
    RowsFold(cfg, d, es, |es|);
    forall k | DecidesLast(cfg, d, es, k)
      ensures Run(cfg, d, es).status == Aggregate(Run(cfg, d, es).approvals)
    {
      StatusAfter(cfg, d, es, k, |es|);
    }
  }

  /**
   * In every run without a submission, starts and completions included, the
   * rows are those of each station's last counted decision, and so is the
   * status as long as no start or completion follows a decision - if and only
   * if the permit exists or can be issued.
   */
  lemma RunsFoldExactly(cfg: Config, d: Dossier)
    requires Sound(d) && d.approvals != map[]
    ensures (forall es :: Unsubmitted(cfg, d, es) ==> RunFolds(cfg, d, es)) <==> Issuable(d)
  {
    if Issuable(d) {
      forall es | Unsubmitted(cfg, d, es) ensures RunFolds(cfg, d, es) {
        RunFoldsIfIssuable(cfg, d, es);
      }
    } else {
      var es := UnanimousLeavesRows(cfg, d);
      assert Unsubmitted(cfg, d, es) && !RunFolds(cfg, d, es);
    }
  }

  // ---- the order of decisions ----

  predicate SameResult(cfg: Config, d: Dossier, es: seq<Event>, fs: seq<Event>) {
    Run(cfg, d, es).approvals == Run(cfg, d, fs).approvals && Run(cfg, d, es).status == Run(cfg, d, fs).status
  }

  /** Each listed station decides the same in both, in the same order of its own. */
  ghost predicate SameVerdicts(rs: seq<Ruling>, ss: seq<Ruling>) {
    forall st :: VerdictsOf(rs, st) == VerdictsOf(ss, st)
  }

  /** The same verdicts of each station, in any order between stations, with anything else in between. */
  ghost predicate Reordered(cfg: Config, d: Dossier, es: seq<Event>, fs: seq<Event>) {
    && Stretch(cfg, d, es) && Stretch(cfg, d, fs)
    && SameVerdicts(RulingsIn(d.approvals.Keys, es), RulingsIn(d.approvals.Keys, fs))
  }

  lemma {:induction false} LastOfVerdicts(rs: seq<Ruling>, st: StationId)
    ensures st in Last(rs) <==> VerdictsOf(rs, st) != []
    ensures st in Last(rs) ==> Last(rs)[st] == VerdictsOf(rs, st)[|VerdictsOf(rs, st)| - 1]
  {
    if rs != [] { LastOfVerdicts(rs[..|rs| - 1], st); }
  }

  lemma LastDetermined(rs: seq<Ruling>, ss: seq<Ruling>)
    requires SameVerdicts(rs, ss)
    ensures Last(rs) == Last(ss) && (rs == [] <==> ss == [])
  {
    forall st
      ensures st in Last(rs) <==> st in Last(ss)
      ensures st in Last(rs) ==> Last(rs)[st] == Last(ss)[st]
    {
      LastOfVerdicts(rs, st);
      LastOfVerdicts(ss, st);
    }
    assert rs != [] ==> rs[|rs| - 1].station in Last(rs);
    assert ss != [] ==> ss[|ss| - 1].station in Last(ss);
  }

  /** When only one station decides, there is only one order. */
  lemma {:induction false} OneStation(rs: seq<Ruling>, ss: seq<Ruling>, st: StationId)
    requires VerdictsOf(rs, st) == VerdictsOf(ss, st)
    requires forall r :: r in rs || r in ss ==> r.station == st
    ensures rs == ss
  {
    VerdictsAll(rs, st);
    VerdictsAll(ss, st);
    forall i | 0 <= i < |rs| ensures rs[i] == ss[i] {
      assert RowOf(rs[i]) == RowOf(ss[i]) && rs[i] in rs && ss[i] in ss;
    }
  }

  lemma {:induction false} VerdictsAll(rs: seq<Ruling>, st: StationId)
    requires forall r :: r in rs ==> r.station == st
    ensures |VerdictsOf(rs, st)| == |rs| && forall i :: 0 <= i < |rs| ==> VerdictsOf(rs, st)[i] == RowOf(rs[i])
  {
    if rs != [] {
      assert rs[|rs| - 1] in rs;
      VerdictsAll(rs[..|rs| - 1], st);
    }
  }

  predicate AtMostOne(stations: set<StationId>) { forall a, b :: a in stations && b in stations ==> a == b }

  lemma OrderIrrelevant(cfg: Config, d: Dossier, es: seq<Event>, fs: seq<Event>)
    requires Sound(d) && (Issuable(d) || AtMostOne(d.approvals.Keys)) && Reordered(cfg, d, es, fs)
    ensures SameResult(cfg, d, es, fs)
  {
    var listed := d.approvals.Keys;
    var rs, ss := RulingsIn(listed, es), RulingsIn(listed, fs);
    RunIsDecisions(cfg, d, es);
    RunIsDecisions(cfg, d, fs);
    RulingsProper(listed, es);
    RulingsProper(listed, fs);
    LastDetermined(rs, ss);
    if Issuable(d) {
      DecideAllFolds(d, rs);
      DecideAllFolds(d, ss);
    } else if rs != [] {
      assert rs[0] in rs;
      assert forall r :: r in rs || r in ss ==> r.station == rs[0].station;
      OneStation(rs, ss, rs[0].station);
    }
  }

  // ---- two orders of the same decisions with different results ----

  lemma VerdictsSnoc(rs: seq<Ruling>, r: Ruling, st: StationId)
    ensures VerdictsOf(rs + [r], st) == if r.station == st then VerdictsOf(rs, st) + [RowOf(r)] else VerdictsOf(rs, st)
  {
    assert (rs + [r])[..|rs|] == rs;
  }

  lemma SwapVerdicts(rs: seq<Ruling>, x: Ruling, y: Ruling, z: Ruling)
    requires x.station != y.station
    ensures SameVerdicts(rs + [x] + [y] + [z], rs + [y] + [x] + [z])
  {
    forall st ensures VerdictsOf(rs + [x] + [y] + [z], st) == VerdictsOf(rs + [y] + [x] + [z], st) {
      VerdictsSnoc(rs, x, st);
      VerdictsSnoc(rs + [x], y, st);
      VerdictsSnoc(rs + [x] + [y], z, st);
      VerdictsSnoc(rs, y, st);
      VerdictsSnoc(rs + [y], x, st);
      VerdictsSnoc(rs + [y] + [x], z, st);
    }
  }

  function Approve(st: StationId): Ruling { Ruling(st, Decision.Approved, "") }
  function Reject(st: StationId): Ruling { Ruling(st, Decision.Rejected, "no") }
  function AskAgain(st: StationId): Ruling { Ruling(st, Decision.ChangesRequested, "again") }

  /** Only these stations have not approved: they have rejected. */
  predicate OnlyRejectedBy(d: Dossier, who: set<StationId>) {
    && who <= d.approvals.Keys && who != {} && d.status == Status.Rejected
    && forall st :: st in d.approvals ==>
         d.approvals[st].decision == if st in who then Decision.Rejected else Decision.Approved
  }

  lemma RejectionWins(rows: map<StationId, Approval>, st: StationId)
    requires st in rows && rows[st].decision == Decision.Rejected
    ensures Aggregate(rows) == Status.Rejected
  {
  }

  lemma {:induction false} ApproveEach(d: Dossier, a: StationId, stations: set<StationId>) returns (rs: seq<Ruling>)
    requires Sound(d) && stations <= d.approvals.Keys && a in d.approvals && a !in stations
    requires d.approvals[a].decision == Decision.Rejected && d.status == Status.Rejected
    ensures AllProper(d.approvals.Keys, rs)
    ensures var r := DecideAll(d, rs);
      && Sound(r) && (Issuable(r) <==> Issuable(d)) && r.status == Status.Rejected
      && r.approvals.Keys == d.approvals.Keys
      && forall st :: st in d.approvals ==>
           if st in stations then r.approvals[st].decision == Decision.Approved
           else r.approvals[st] == d.approvals[st]
    decreases stations
  {
    rs := [];
    if stations != {} {
      var st :| st in stations;
      var rest := ApproveEach(d, a, stations - {st});
      rs := rest + [Approve(st)];
      DecideSnoc(d, rest, Approve(st));
      var before := DecideAll(d, rest);
      RejectionWins(before.approvals[st := RowOf(Approve(st))], a);
      RulingStep(before, Approve(st));
    }
  }

  lemma RejectStep(d: Dossier, st: StationId)
    requires Sound(d) && st in d.approvals
    ensures var r := Decided(d, Reject(st));
      && Sound(r) && (Issuable(r) <==> Issuable(d)) && r.status == Status.Rejected
      && r.approvals == d.approvals[st := RowOf(Reject(st))]
  {
    RejectionWins(d.approvals[st := RowOf(Reject(st))], st);
    RulingStep(d, Reject(st));
  }

  lemma BothReject(d: Dossier, a: StationId, b: StationId)
    requires Sound(d) && a in d.approvals && b in d.approvals && a != b
    ensures var r := DecideAll(d, [Reject(a)] + [Reject(b)]);
      && Sound(r) && (Issuable(r) <==> Issuable(d)) && r.status == Status.Rejected
      && r.approvals == d.approvals[a := RowOf(Reject(a))][b := RowOf(Reject(b))]
  {
    DecideSnoc(d, [], Reject(a));
    assert [] + [Reject(a)] == [Reject(a)];
    DecideSnoc(d, [Reject(a)], Reject(b));
    RejectStep(d, a);
    RejectStep(DecideAll(d, [Reject(a)]), b);
  }

  /** The two stations reject, everybody else approves. */
  lemma TwoReject(d: Dossier, a: StationId, b: StationId) returns (rs: seq<Ruling>)
    requires Sound(d) && a in d.approvals && b in d.approvals && a != b
    ensures AllProper(d.approvals.Keys, rs)
    ensures var r := DecideAll(d, rs);
      && Sound(r) && (Issuable(r) <==> Issuable(d)) && r.approvals.Keys == d.approvals.Keys && OnlyRejectedBy(r, {a, b})
  {
    BothReject(d, a, b);
    rs := ThenOthers(d, [Reject(a)] + [Reject(b)], a, b);
  }

  lemma ThenOthers(d: Dossier, both: seq<Ruling>, a: StationId, b: StationId) returns (rs: seq<Ruling>)
    requires Sound(DecideAll(d, both)) && AllProper(d.approvals.Keys, both) && a in d.approvals && b in d.approvals
    requires DecideAll(d, both).approvals.Keys == d.approvals.Keys && DecideAll(d, both).status == Status.Rejected
    requires DecideAll(d, both).approvals[a].decision == DecideAll(d, both).approvals[b].decision == Decision.Rejected
    ensures AllProper(d.approvals.Keys, rs)
    ensures var r := DecideAll(d, rs);
      && Sound(r) && (Issuable(r) <==> Issuable(DecideAll(d, both))) && r.approvals.Keys == d.approvals.Keys
      && OnlyRejectedBy(r, {a, b})
  {
    var rest := OthersApprove(DecideAll(d, both), a, b);
    rs := both + rest;
    DecideConcat(d, both, rest);
  }

  lemma OthersApprove(mid: Dossier, a: StationId, b: StationId) returns (rest: seq<Ruling>)
    requires Sound(mid) && a in mid.approvals && b in mid.approvals && mid.status == Status.Rejected
    requires mid.approvals[a].decision == mid.approvals[b].decision == Decision.Rejected
    ensures AllProper(mid.approvals.Keys, rest)
    ensures var r := DecideAll(mid, rest);
      && Sound(r) && (Issuable(r) <==> Issuable(mid)) && r.approvals.Keys == mid.approvals.Keys
      && OnlyRejectedBy(r, {a, b})
  {
    rest := ApproveEach(mid, a, mid.approvals.Keys - {a, b});
    OnlyTheTwo(mid, DecideAll(mid, rest), a, b);
  }

  lemma OnlyTheTwo(mid: Dossier, d: Dossier, a: StationId, b: StationId)
    requires a in mid.approvals && b in mid.approvals && d.status == Status.Rejected
    requires mid.approvals[a].decision == mid.approvals[b].decision == Decision.Rejected
    requires d.approvals.Keys == mid.approvals.Keys
    requires forall st :: st in mid.approvals && st != a && st != b ==> d.approvals[st].decision == Decision.Approved
    requires d.approvals[a] == mid.approvals[a] && d.approvals[b] == mid.approvals[b]
    ensures OnlyRejectedBy(d, {a, b})
  {
  }

  lemma {:induction false} DecideConcat(d: Dossier, rs: seq<Ruling>, ss: seq<Ruling>)
    ensures DecideAll(d, rs + ss) == DecideAll(DecideAll(d, rs), ss)
  {
    if ss == [] {
      assert rs + ss == rs;
    } else {
      assert (rs + ss)[..|rs + ss| - 1] == rs + ss[..|ss| - 1];
      DecideConcat(d, rs, ss[..|ss| - 1]);
    }
  }

  /** The first of the two to approve is heard; the second would complete the approval and is refused. */
  lemma FirstIsHeard(d: Dossier, a: StationId, b: StationId)
    requires Sound(d) && !Issuable(d) && a != b && OnlyRejectedBy(d, {a, b})
    ensures var r := Decided(Decided(d, Approve(a)), Approve(b));
      Sound(r) && !Issuable(r) && r.approvals.Keys == d.approvals.Keys && OnlyRejectedBy(r, {b})
  {
    RejectionWins(d.approvals[a := RowOf(Approve(a))], b);
    RulingStep(d, Approve(a));
    var d1 := Decided(d, Approve(a));
    assert EveryRow(d1.approvals[b := RowOf(Approve(b))], Decision.Approved);
    RulingStep(d1, Approve(b));
  }

  /** Where it is a alone that has rejected, asking again replaces that; where it is b, b's rejection stands. */
  lemma ThenAskAgain(d: Dossier, a: StationId, b: StationId)
    requires Sound(d) && a in d.approvals && (OnlyRejectedBy(d, {a}) || (a != b && OnlyRejectedBy(d, {b})))
    ensures Decided(d, AskAgain(a)).status ==
      if OnlyRejectedBy(d, {a}) then Status.ChangesRequested else Status.Rejected
  {
    RulingStep(d, AskAgain(a));
    var rows := d.approvals[a := RowOf(AskAgain(a))];
    assert SomeRow(rows, Decision.ChangesRequested) by { assert a in rows; }
    if !OnlyRejectedBy(d, {a}) { RejectionWins(rows, b); }
  }

  lemma TwoApprove(d: Dossier, pre: seq<Ruling>, a: StationId, b: StationId)
    requires Sound(DecideAll(d, pre)) && !Issuable(DecideAll(d, pre)) && a != b
    requires OnlyRejectedBy(DecideAll(d, pre), {a, b})
    ensures var r := DecideAll(d, pre + [Approve(a)] + [Approve(b)]);
      Sound(r) && r.approvals.Keys == DecideAll(d, pre).approvals.Keys && OnlyRejectedBy(r, {b})
  {
    DecideSnoc(d, pre, Approve(a));
    DecideSnoc(d, pre + [Approve(a)], Approve(b));
    FirstIsHeard(DecideAll(d, pre), a, b);
  }

  /** In this order the rejection of the second stands; only if that is a's own does asking again replace it. */
  lemma OneOrder(d: Dossier, pre: seq<Ruling>, x: StationId, y: StationId, a: StationId)
    requires Sound(DecideAll(d, pre)) && !Issuable(DecideAll(d, pre)) && x != y && (a == x || a == y)
    requires OnlyRejectedBy(DecideAll(d, pre), {x, y})
    ensures DecideAll(d, pre + [Approve(x)] + [Approve(y)] + [AskAgain(a)]).status ==
      if a == y then Status.ChangesRequested else Status.Rejected
  {
    var p := pre + [Approve(x)] + [Approve(y)];
    TwoApprove(d, pre, x, y);
    DecideSnoc(d, p, AskAgain(a));
    if a == x { NotBoth(DecideAll(d, p), x, y); }
    ThenAskAgain(DecideAll(d, p), a, y);
  }

  lemma ThreeProper(listed: set<StationId>, rs: seq<Ruling>, x: Ruling, y: Ruling, z: Ruling)
    requires AllProper(listed, rs) && Proper(listed, x) && Proper(listed, y) && Proper(listed, z)
    ensures AllProper(listed, rs + [x] + [y] + [z])
  {
  }

  lemma OrderMattersFrom(d: Dossier, a: StationId, b: StationId) returns (rs: seq<Ruling>, ss: seq<Ruling>)
    requires Sound(d) && !Issuable(d) && a in d.approvals && b in d.approvals && a != b
    ensures AllProper(d.approvals.Keys, rs) && AllProper(d.approvals.Keys, ss) && SameVerdicts(rs, ss)
    ensures DecideAll(d, rs).status == Status.Rejected && DecideAll(d, ss).status == Status.ChangesRequested
  {
    var pre := TwoReject(d, a, b);
    OneOrder(d, pre, a, b, a);
    assert {a, b} == {b, a};
    OneOrder(d, pre, b, a, a);
    ThreeProper(d.approvals.Keys, pre, Approve(a), Approve(b), AskAgain(a));
    ThreeProper(d.approvals.Keys, pre, Approve(b), Approve(a), AskAgain(a));
    SwapVerdicts(pre, Approve(a), Approve(b), AskAgain(a));
    rs := pre + [Approve(a)] + [Approve(b)] + [AskAgain(a)];
    ss := pre + [Approve(b)] + [Approve(a)] + [AskAgain(a)];
  }

  lemma NotBoth(d: Dossier, a: StationId, b: StationId)
    requires a != b && a in d.approvals && OnlyRejectedBy(d, {b})
    ensures !OnlyRejectedBy(d, {a})
  {
    assert d.approvals[a].decision == Decision.Approved;
  }

  /** The same as calls: two stretches with the same verdicts and different statuses. */
  lemma OrderMatters(cfg: Config, d: Dossier, a: StationId, b: StationId) returns (es: seq<Event>, fs: seq<Event>)
    requires Sound(d) && !Issuable(d) && a in d.approvals && b in d.approvals && a != b
    ensures Reordered(cfg, d, es, fs)
    ensures Run(cfg, d, es).status == Status.Rejected && Run(cfg, d, fs).status == Status.ChangesRequested
  {
    var rs, ss := OrderMattersFrom(d, a, b);
    es, fs := Calls(rs), Calls(ss);
    CallsAreRulings(cfg, d, d.approvals.Keys, rs);
    CallsAreRulings(cfg, d, d.approvals.Keys, ss);
    RunIsDecisions(cfg, d, es);
    RunIsDecisions(cfg, d, fs);
  }

  /**
   * Any order of the decisions that keeps each station's own, with any other
   * calls in between, ends in the same rows and the same status - if and only
   * if the permit exists or can be issued, or no more than one station decides.
   */
  lemma DecisionOrderExactly(cfg: Config, d: Dossier)
    requires Sound(d)
    ensures (forall es, fs :: Reordered(cfg, d, es, fs) ==> SameResult(cfg, d, es, fs)) <==>
      Issuable(d) || AtMostOne(d.approvals.Keys)
  {
    if Issuable(d) || AtMostOne(d.approvals.Keys) {
      forall es, fs | Reordered(cfg, d, es, fs) ensures SameResult(cfg, d, es, fs) {
        OrderIrrelevant(cfg, d, es, fs);
      }
    } else {
      var a, b :| a in d.approvals.Keys && b in d.approvals.Keys && a != b;
      var es, fs := OrderMatters(cfg, d, a, b);
      assert !SameResult(cfg, d, es, fs);
    }
  }

  /** Reached by every new application whose number comes to more than 46 characters. */
  lemma OrderMattersReached(cfg: Config, d: Dossier, a: StationId, b: StationId, next: string)
    returns (filing: seq<Event>, es: seq<Event>, fs: seq<Event>)
    requires Opened(d) && a != b && 46 < |next| <= NUMBER_WIDTH
    ensures Run(cfg, d, filing).status == Submitted && EveryRow(Run(cfg, d, filing).approvals, Pending)
    ensures Reordered(cfg, Run(cfg, d, filing), es, fs)
    ensures Run(cfg, d, filing + es).status == Status.Rejected
    ensures Run(cfg, d, filing + fs).status == Status.ChangesRequested
  {
    filing := ToSubmission(d.organizer, 1, [a, b], next);
    FiledReached(cfg, d, 1, [a, b], next);
    var filed := Run(cfg, d, filing);
    assert a in [a, b] && b in [a, b];
    es, fs := OrderMatters(cfg, filed, a, b);
    RunConcat(cfg, d, filing, es);
    RunConcat(cfg, d, filing, fs);
  }
}
