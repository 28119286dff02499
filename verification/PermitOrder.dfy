/** Which orders of the same decisions issue a permit: exactly when one does, when some does, when every one does. */
module PermitOrder {
  import opened Wrappers
  import opened Casework
  import opened Lifecycle
  import opened Filing
  import opened Rulings

  // ---- one order ----

  /** After one of the decisions every row is approved. */
  predicate Passes(d: Dossier, rs: seq<Ruling>) {
    rs != [] && (Aggregate(d.approvals + Last(rs)) == Status.Approved || Passes(d, rs[..|rs| - 1]))
  }

  lemma {:induction false} PassesAt(d: Dossier, rs: seq<Ruling>, k: nat)
    requires 0 < k <= |rs| && Aggregate(d.approvals + Last(rs[..k])) == Status.Approved
    ensures Passes(d, rs)
  {
    if k == |rs| {
      assert rs[..k] == rs;
    } else {
      assert rs[..|rs| - 1][..k] == rs[..k];
      PassesAt(d, rs[..|rs| - 1], k);
    }
  }

  lemma {:induction false} PassesWhen(d: Dossier, rs: seq<Ruling>) returns (k: nat)
    requires Passes(d, rs)
    ensures 0 < k <= |rs| && Aggregate(d.approvals + Last(rs[..k])) == Status.Approved
  {
    if Aggregate(d.approvals + Last(rs)) == Status.Approved {
      k := |rs|;
      assert rs[..k] == rs;
    } else {
      k := PassesWhen(d, rs[..|rs| - 1]);
      assert rs[..|rs| - 1][..k] == rs[..k];
    }
  }

  lemma NotYetApproved(d: Dossier)
    requires Sound(d) && d.permits == []
    ensures d.status != Status.Approved
    ensures d.approvals != map[] ==> !EveryRow(d.approvals, Decision.Approved)
  {
    assert d.status == Status.Approved ==> MovedTo(d.history, Status.Approved);
    if d.approvals != map[] { var st :| st in d.approvals; }
  }

  lemma PassesSnoc(d: Dossier, rs: seq<Ruling>, r: Ruling)
    ensures Passes(d, rs + [r]) <==> Passes(d, rs) || Aggregate(d.approvals + Last(rs + [r])) == Status.Approved
  {
    assert (rs + [r])[..|rs|] == rs;
  }

  lemma {:induction false} PermitIfPasses(d: Dossier, rs: seq<Ruling>)
    requires Sound(d) && Issuable(d) && d.permits == [] && AllProper(d.approvals.Keys, rs)
    ensures DecideAll(d, rs).permits != [] <==> Passes(d, rs)
  {
    if rs != [] {
      var n, init := |rs| - 1, rs[..|rs| - 1];
      PermitIfPasses(d, init);
      DecideAllFolds(d, init);
      DecideAllFolds(d, rs);
      assert rs[n] in rs;
      RulingStep(DecideAll(d, init), rs[n]);
      if DecideAll(d, init).permits == [] { NotYetApproved(DecideAll(d, init)); }
    }
  }

  /** A stretch issues the permit if and only if it can be issued and some decision leaves every row approved. */
  lemma PermitExactly(cfg: Config, d: Dossier, es: seq<Event>)
    requires Sound(d) && d.permits == [] && Stretch(cfg, d, es)
    ensures Run(cfg, d, es).permits != [] <==> Issuable(d) && Passes(d, RulingsIn(d.approvals.Keys, es))
  {
    var rs := RulingsIn(d.approvals.Keys, es);
    RunIsDecisions(cfg, d, es);
    RulingsProper(d.approvals.Keys, es);
    if Issuable(d) { PermitIfPasses(d, rs); } else { NeverApproved(d, rs); }
  }

  // ---- what one station's row comes to ----

  function RowAfter(d: Dossier, st: StationId, vs: seq<Approval>): Approval
    requires st in d.approvals
  {
    if vs == [] then d.approvals[st] else vs[|vs| - 1]
  }

  predicate IsApproval(row: Approval) { row.decision == Decision.Approved }

  lemma RowIs(d: Dossier, rs: seq<Ruling>, st: StationId)
    requires st in d.approvals
    ensures (d.approvals + Last(rs))[st] == RowAfter(d, st, VerdictsOf(rs, st))
  {
    LastOfVerdicts(rs, st);
  }

  /** One row that is not approved is enough against it. */
  lemma OneMissing(d: Dossier, rs: seq<Ruling>, st: StationId)
    requires st in d.approvals && !IsApproval(RowAfter(d, st, VerdictsOf(rs, st)))
    ensures Aggregate(d.approvals + Last(rs)) != Status.Approved
  {
    RowIs(d, rs, st);
    assert st in d.approvals + Last(rs);
  }

  lemma AllThere(d: Dossier, rs: seq<Ruling>)
    requires AllProper(d.approvals.Keys, rs)
    requires forall st :: st in d.approvals ==> IsApproval(RowAfter(d, st, VerdictsOf(rs, st)))
    ensures Aggregate(d.approvals + Last(rs)) == Status.Approved
  {
    forall st | st in d.approvals + Last(rs) ensures (d.approvals + Last(rs))[st].decision == Decision.Approved {
      LastListed(d.approvals.Keys, rs);
      RowIs(d, rs, st);
    }
  }

  lemma {:induction false} LastListed(listed: set<StationId>, rs: seq<Ruling>)
    requires AllProper(listed, rs)
    ensures Last(rs).Keys <= listed
  {
    if rs != [] {
      assert rs[|rs| - 1] in rs;
      LastListed(listed, rs[..|rs| - 1]);
    }
  }

  // ---- rearranging ----

  lemma {:induction false} VerdictsConcat(rs: seq<Ruling>, ss: seq<Ruling>, st: StationId)
    ensures VerdictsOf(rs + ss, st) == VerdictsOf(rs, st) + VerdictsOf(ss, st)
  {
    if ss == [] {
      assert rs + ss == rs;
    } else {
      assert (rs + ss)[..|rs + ss| - 1] == rs + ss[..|ss| - 1];
      VerdictsConcat(rs, ss[..|ss| - 1], st);
    }
  }

  /** The decisions of some stations only. */
  function Part(rs: seq<Ruling>, who: set<StationId>): seq<Ruling> {
    if rs == [] then []
    else
      var init, r := Part(rs[..|rs| - 1], who), rs[|rs| - 1];
      if r.station in who then init + [r] else init
  }

  lemma {:induction false} PartVerdicts(rs: seq<Ruling>, who: set<StationId>, st: StationId)
    ensures VerdictsOf(Part(rs, who), st) == if st in who then VerdictsOf(rs, st) else []
    ensures forall r :: r in Part(rs, who) ==> r.station in who
  {
    if rs != [] {
      var n := |rs| - 1;
      PartVerdicts(rs[..n], who, st);
      if rs[n].station in who { VerdictsSnoc(Part(rs[..n], who), rs[n], st); }
    }
  }

  lemma {:induction false} NoVerdicts(rs: seq<Ruling>, st: StationId)
    requires forall r :: r in rs ==> r.station != st
    ensures VerdictsOf(rs, st) == []
  {
    if rs != [] {
      assert rs[|rs| - 1] in rs;
      NoVerdicts(rs[..|rs| - 1], st);
    }
  }

  lemma CutOwn(p: seq<Ruling>, a: StationId, m: nat)
    requires m <= |p| && forall r :: r in p ==> r.station == a
    ensures |VerdictsOf(p, a)| == |p|
    ensures VerdictsOf(p[..m], a) == VerdictsOf(p, a)[..m] && VerdictsOf(p[m..], a) == VerdictsOf(p, a)[m..]
  {
    var x, y := p[..m], p[m..];
    assert p == x + y;
    VerdictsConcat(x, y, a);
    VerdictsAll(p, a);
    VerdictsAll(x, a);
  }

  /** Cutting one station's decisions in two cuts its verdicts at the same place. */
  lemma CutVerdicts(rs: seq<Ruling>, a: StationId, m: nat, st: StationId)
    requires m <= |VerdictsOf(rs, a)|
    ensures |Part(rs, {a})| == |VerdictsOf(rs, a)|
    ensures VerdictsOf(Part(rs, {a})[..m], st) == if st == a then VerdictsOf(rs, a)[..m] else []
    ensures VerdictsOf(Part(rs, {a})[m..], st) == if st == a then VerdictsOf(rs, a)[m..] else []
  {
    var p := Part(rs, {a});
    PartVerdicts(rs, {a}, a);
    VerdictsAll(p, a);
    if st == a {
      CutOwn(p, a, m);
    } else {
      NoVerdicts(p[..m], st);
      NoVerdicts(p[m..], st);
    }
  }

  lemma {:induction false} VerdictsMember(rs: seq<Ruling>, r: Ruling)
    ensures r in rs <==> RowOf(r) in VerdictsOf(rs, r.station)
  {
    if rs != [] {
      var n := |rs| - 1;
      VerdictsMember(rs[..n], r);
      assert rs == rs[..n] + [rs[n]];
    }
  }

  lemma ProperReordered(listed: set<StationId>, rs: seq<Ruling>, ss: seq<Ruling>)
    requires AllProper(listed, rs) && SameVerdicts(rs, ss)
    ensures AllProper(listed, ss)
  {
    forall r | r in ss ensures Proper(listed, r) {
      VerdictsMember(ss, r);
      VerdictsMember(rs, r);
    }
  }

  lemma PrefixVerdicts(rs: seq<Ruling>, k: nat, st: StationId)
    requires k <= |rs|
    ensures VerdictsOf(rs[..k], st) <= VerdictsOf(rs, st)
  {
    assert rs == rs[..k] + rs[k..];
    VerdictsConcat(rs[..k], rs[k..], st);
  }

  // ---- some order ----

  /** Each row is approved, or its station approves at some time. */
  predicate Possible(d: Dossier, rs: seq<Ruling>) {
    rs != [] && forall st :: st in d.approvals ==> MayApprove(d, rs, st)
  }

  predicate MayApprove(d: Dossier, rs: seq<Ruling>, st: StationId)
    requires st in d.approvals
  {
    IsApproval(d.approvals[st]) || exists i :: 0 <= i < |VerdictsOf(rs, st)| && IsApproval(VerdictsOf(rs, st)[i])
  }

  lemma PassingIsPossible(d: Dossier, rs: seq<Ruling>)
    requires Passes(d, rs)
    ensures Possible(d, rs)
  {
    var k := PassesWhen(d, rs);
    forall st | st in d.approvals ensures MayApprove(d, rs, st) {
      RowIs(d, rs[..k], st);
      PrefixVerdicts(rs, k, st);
      var vs := VerdictsOf(rs[..k], st);
      assert st in d.approvals + Last(rs[..k]);
      assert vs != [] ==> vs[|vs| - 1] == VerdictsOf(rs, st)[|vs| - 1];
    }
  }

  /** One station more, cut at an approval. */
  lemma OneMoreCut(rs: seq<Ruling>, heads: seq<Ruling>, tails: seq<Ruling>, a: StationId, m: nat, st: StationId)
    requires m <= |VerdictsOf(rs, a)| == |Part(rs, {a})|
    requires VerdictsOf(heads, a) == [] && VerdictsOf(tails, a) == []
    ensures VerdictsOf(heads + Part(rs, {a})[..m], st) ==
      if st == a then VerdictsOf(rs, a)[..m] else VerdictsOf(heads, st)
    ensures VerdictsOf(tails + Part(rs, {a})[m..], st) ==
      if st == a then VerdictsOf(rs, a)[m..] else VerdictsOf(tails, st)
  {
    CutVerdicts(rs, a, m, st);
    VerdictsConcat(heads, Part(rs, {a})[..m], st);
    VerdictsConcat(tails, Part(rs, {a})[m..], st);
  }

  /** One station's verdicts, cut in two at an approval if it is one of these; else none at all. */
  predicate CutFor(d: Dossier, rs: seq<Ruling>, stations: set<StationId>, heads: seq<Ruling>, tails: seq<Ruling>,
                   st: StationId)
  {
    && VerdictsOf(heads, st) + VerdictsOf(tails, st) == (if st in stations then VerdictsOf(rs, st) else [])
    && (st in stations ==> st in d.approvals && IsApproval(RowAfter(d, st, VerdictsOf(heads, st))))
  }

  lemma CutHere(d: Dossier, rs: seq<Ruling>, stations: set<StationId>, h: seq<Ruling>, t: seq<Ruling>,
                a: StationId, m: nat)
    requires a in stations && a in d.approvals && m <= |VerdictsOf(rs, a)| == |Part(rs, {a})|
    requires IsApproval(RowAfter(d, a, VerdictsOf(rs, a)[..m]))
    requires VerdictsOf(h, a) == [] && VerdictsOf(t, a) == []
    ensures CutFor(d, rs, stations, h + Part(rs, {a})[..m], t + Part(rs, {a})[m..], a)
  {
    OneMoreCut(rs, h, t, a, m, a);
    CutAtPoint(d, rs, stations, h + Part(rs, {a})[..m], t + Part(rs, {a})[m..], a, m);
  }

  lemma CutAtPoint(d: Dossier, rs: seq<Ruling>, stations: set<StationId>, heads: seq<Ruling>, tails: seq<Ruling>,
                   a: StationId, m: nat)
    requires a in stations && a in d.approvals && m <= |VerdictsOf(rs, a)|
    requires IsApproval(RowAfter(d, a, VerdictsOf(rs, a)[..m]))
    requires VerdictsOf(heads, a) == VerdictsOf(rs, a)[..m] && VerdictsOf(tails, a) == VerdictsOf(rs, a)[m..]
    ensures CutFor(d, rs, stations, heads, tails, a)
  {
    assert VerdictsOf(rs, a)[..m] + VerdictsOf(rs, a)[m..] == VerdictsOf(rs, a);
  }

  lemma CutElsewhere(d: Dossier, rs: seq<Ruling>, stations: set<StationId>, h: seq<Ruling>, t: seq<Ruling>,
                     a: StationId, m: nat, st: StationId)
    requires a in stations && m <= |VerdictsOf(rs, a)| == |Part(rs, {a})| && st != a
    requires VerdictsOf(h, a) == [] && VerdictsOf(t, a) == [] && CutFor(d, rs, stations - {a}, h, t, st)
    ensures CutFor(d, rs, stations, h + Part(rs, {a})[..m], t + Part(rs, {a})[m..], st)
  {
    OneMoreCut(rs, h, t, a, m, st);
  }

  /** Each station's decisions up to an approval first, then the rest of them. */
  lemma {:induction false} HeadsAndTails(d: Dossier, rs: seq<Ruling>, stations: set<StationId>)
    returns (heads: seq<Ruling>, tails: seq<Ruling>)
    requires stations <= d.approvals.Keys && Possible(d, rs)
    ensures forall st :: CutFor(d, rs, stations, heads, tails, st)
    decreases stations
  {
    heads, tails := [], [];
    if stations != {} {
      var a :| a in stations;
      var h, t := HeadsAndTails(d, rs, stations - {a});
      var m := CutAtApproval(d, rs, a);
      CutVerdicts(rs, a, m, a);
      heads, tails := h + Part(rs, {a})[..m], t + Part(rs, {a})[m..];
      assert CutFor(d, rs, stations - {a}, h, t, a);
      forall st ensures CutFor(d, rs, stations, heads, tails, st) {
        if st == a { CutHere(d, rs, stations, h, t, a, m); } else { CutElsewhere(d, rs, stations, h, t, a, m, st); }
      }
    }
  }

  lemma CutAtApproval(d: Dossier, rs: seq<Ruling>, a: StationId) returns (m: nat)
    requires a in d.approvals && MayApprove(d, rs, a)
    ensures m <= |VerdictsOf(rs, a)| && IsApproval(RowAfter(d, a, VerdictsOf(rs, a)[..m]))
    ensures !IsApproval(d.approvals[a]) ==> m > 0
  {
    if IsApproval(d.approvals[a]) {
      m := 0;
    } else {
      var i :| 0 <= i < |VerdictsOf(rs, a)| && IsApproval(VerdictsOf(rs, a)[i]);
      m := i + 1;
    }
  }

  lemma {:induction false} VerdictsListed(listed: set<StationId>, rs: seq<Ruling>, st: StationId)
    requires AllProper(listed, rs) && st !in listed
    ensures VerdictsOf(rs, st) == []
  {
    if rs != [] {
      assert rs[|rs| - 1] in rs;
      VerdictsListed(listed, rs[..|rs| - 1], st);
    }
  }

  lemma PassingOrder(d: Dossier, rs: seq<Ruling>) returns (ss: seq<Ruling>)
    requires AllProper(d.approvals.Keys, rs) && Possible(d, rs) && !EveryRow(d.approvals, Decision.Approved)
    ensures SameVerdicts(rs, ss) && AllProper(d.approvals.Keys, ss) && Passes(d, ss)
  {
    var heads, tails := HeadsAndTails(d, rs, d.approvals.Keys);
    ss := heads + tails;
    forall st ensures VerdictsOf(rs, st) == VerdictsOf(ss, st) {
      VerdictsConcat(heads, tails, st);
      assert CutFor(d, rs, d.approvals.Keys, heads, tails, st);
      if st !in d.approvals { VerdictsListed(d.approvals.Keys, rs, st); }
    }
    ProperReordered(d.approvals.Keys, rs, ss);
    assert ss[..|heads|] == heads;
    var open :| open in d.approvals && d.approvals[open].decision != Decision.Approved;
    assert CutFor(d, rs, d.approvals.Keys, heads, tails, open);
    assert heads != [] by { assert VerdictsOf(heads, open) != []; }
    forall st | st in d.approvals ensures IsApproval(RowAfter(d, st, VerdictsOf(heads, st))) {
      assert CutFor(d, rs, d.approvals.Keys, heads, tails, st);
    }
    forall r | r in heads ensures Proper(d.approvals.Keys, r) { assert r in ss; }
    AllThere(d, heads);
    PassesAt(d, ss, |heads|);
  }

  // ---- every order ----

  /** All others have approved and never decide otherwise; this one approves at some time. */
  predicate Decisive(d: Dossier, rs: seq<Ruling>, a: StationId) {
    && a in d.approvals && MayApprove(d, rs, a) && !IsApproval(d.approvals[a])
    && forall st :: st in d.approvals && st != a ==> AlwaysApproves(d, rs, st)
  }

  predicate AlwaysApproves(d: Dossier, rs: seq<Ruling>, st: StationId)
    requires st in d.approvals
  {
    IsApproval(d.approvals[st]) && forall i :: 0 <= i < |VerdictsOf(rs, st)| ==> IsApproval(VerdictsOf(rs, st)[i])
  }

  /** Everybody's last word is an approval, or it all hangs on one station that approves at some time. */
  predicate Certain(d: Dossier, rs: seq<Ruling>) {
    || (rs != [] && Aggregate(d.approvals + Last(rs)) == Status.Approved)
    || exists a :: a in d.approvals && Decisive(d, rs, a)
  }

  lemma CertainPasses(d: Dossier, rs: seq<Ruling>)
    requires AllProper(d.approvals.Keys, rs) && Certain(d, rs)
    ensures Passes(d, rs)
  {
    if !(rs != [] && Aggregate(d.approvals + Last(rs)) == Status.Approved) {
      var a :| a in d.approvals && Decisive(d, rs, a);
      var m := CutAtApproval(d, rs, a);
      var k := WhenDecided(rs, a, m - 1);
      forall st | st in d.approvals ensures IsApproval(RowAfter(d, st, VerdictsOf(rs[..k], st))) {
        if st != a { StillApproves(d, rs, k, st); }
      }
      forall r | r in rs[..k] ensures Proper(d.approvals.Keys, r) { assert r in rs; }
      AllThere(d, rs[..k]);
      PassesAt(d, rs, k);
    }
  }

  lemma StillApproves(d: Dossier, rs: seq<Ruling>, k: nat, st: StationId)
    requires k <= |rs| && st in d.approvals && AlwaysApproves(d, rs, st)
    ensures IsApproval(RowAfter(d, st, VerdictsOf(rs[..k], st)))
  {
    PrefixVerdicts(rs, k, st);
    var vs := VerdictsOf(rs[..k], st);
    assert vs != [] ==> vs[|vs| - 1] == VerdictsOf(rs, st)[|vs| - 1];
  }

  /** The decision that gave a station's i-th verdict. */
  lemma {:induction false} WhenDecided(rs: seq<Ruling>, a: StationId, i: nat) returns (k: nat)
    requires i < |VerdictsOf(rs, a)|
    ensures 0 < k <= |rs| && VerdictsOf(rs[..k], a) == VerdictsOf(rs, a)[..i + 1]
  {
    var n := |rs| - 1;
    if i < |VerdictsOf(rs[..n], a)| {
      k := WhenDecided(rs[..n], a, i);
      assert rs[..n][..k] == rs[..k];
    } else {
      k := |rs|;
      assert rs[..k] == rs;
    }
  }

  /** What b has decided up to its m-th verdict, then all of a's, then everything else. */
  function Avoiding(rs: seq<Ruling>, all: set<StationId>, a: StationId, b: StationId, m: nat): seq<Ruling>
    requires m <= |Part(rs, {b})|
  {
    Part(rs, {b})[..m] + Part(rs, {a}) + (Part(rs, {b})[m..] + Part(rs, all - {a, b}))
  }

  lemma FourVerdicts(p: seq<Ruling>, q: seq<Ruling>, r: seq<Ruling>, o: seq<Ruling>, st: StationId)
    ensures VerdictsOf(p + q + (r + o), st) ==
      VerdictsOf(p, st) + VerdictsOf(q, st) + (VerdictsOf(r, st) + VerdictsOf(o, st))
  {
    VerdictsConcat(p + q, r + o, st);
    VerdictsConcat(p, q, st);
    VerdictsConcat(r, o, st);
  }

  /** Of the four parts, only those that hold the station's own decisions count. */
  lemma AvoidingVerdict(listed: set<StationId>, rs: seq<Ruling>, a: StationId, b: StationId, m: nat, st: StationId)
    requires AllProper(listed, rs) && a != b && a in listed && b in listed
    requires m <= |VerdictsOf(rs, b)| == |Part(rs, {b})|
    ensures VerdictsOf(Avoiding(rs, listed, a, b, m), st) == VerdictsOf(rs, st)
  {
    FourVerdicts(Part(rs, {b})[..m], Part(rs, {a}), Part(rs, {b})[m..], Part(rs, listed - {a, b}), st);
    CutVerdicts(rs, b, m, st);
    PartVerdicts(rs, {a}, st);
    PartVerdicts(rs, listed - {a, b}, st);
    if st == b {
      CutAgain(VerdictsOf(rs, b), m);
    } else if st !in listed {
      VerdictsListed(listed, rs, st);
    }
  }

  lemma CutAgain(vs: seq<Approval>, m: nat)
    requires m <= |vs|
    ensures vs[..m] + [] + (vs[m..] + []) == vs
  {
  }

  lemma AvoidingVerdicts(listed: set<StationId>, rs: seq<Ruling>, a: StationId, b: StationId, m: nat)
    requires AllProper(listed, rs) && a != b && a in listed && b in listed && m <= |VerdictsOf(rs, b)|
    ensures |Part(rs, {b})| == |VerdictsOf(rs, b)| && SameVerdicts(rs, Avoiding(rs, listed, a, b, m))
  {
    CutVerdicts(rs, b, m, b);
    forall st ensures VerdictsOf(rs, st) == VerdictsOf(Avoiding(rs, listed, a, b, m), st) {
      AvoidingVerdict(listed, rs, a, b, m, st);
    }
  }

  lemma PartPrefix(rs: seq<Ruling>, who: set<StationId>, k: nat, st: StationId)
    requires k <= |Part(rs, who)| && st !in who
    ensures VerdictsOf(Part(rs, who)[..k], st) == []
  {
    PartVerdicts(rs, who, st);
    PrefixVerdicts(Part(rs, who), k, st);
  }

  /** Before b's m-th verdict nothing of a's has come: a's row is as it was. */
  lemma MissingBefore(d: Dossier, rs: seq<Ruling>, a: StationId, b: StationId, m: nat, k: nat)
    requires a != b && a in d.approvals && !IsApproval(d.approvals[a]) && k <= m <= |Part(rs, {b})|
    ensures Aggregate(d.approvals + Last(Part(rs, {b})[..m][..k])) != Status.Approved
  {
    var x := Part(rs, {b})[..m][..k];
    assert VerdictsOf(x, a) == [] by {
      assert x == Part(rs, {b})[..k];
      PartPrefix(rs, {b}, k, a);
    }
    OneMissing(d, x, a);
  }

  /** While a decides, b stands at its m-th verdict. */
  lemma MissingDuring(d: Dossier, rs: seq<Ruling>, a: StationId, b: StationId, m: nat, k: nat)
    requires a != b && b in d.approvals && m <= |VerdictsOf(rs, b)| == |Part(rs, {b})| && k <= |Part(rs, {a})|
    requires !IsApproval(RowAfter(d, b, VerdictsOf(rs, b)[..m]))
    ensures Aggregate(d.approvals + Last(Part(rs, {b})[..m] + Part(rs, {a})[..k])) != Status.Approved
  {
    var p, q := Part(rs, {b})[..m], Part(rs, {a})[..k];
    assert VerdictsOf(p, b) == VerdictsOf(rs, b)[..m] by { CutVerdicts(rs, b, m, b); }
    assert VerdictsOf(q, b) == [] by { PartPrefix(rs, {a}, k, b); }
    VerdictsConcat(p, q, b);
    OneMissing(d, p + q, b);
  }

  /** What comes after a's own decisions holds none of them. */
  lemma NothingLeft(rs: seq<Ruling>, all: set<StationId>, a: StationId, b: StationId, m: nat, k: nat)
    requires a != b && m <= |VerdictsOf(rs, b)| == |Part(rs, {b})|
    requires k <= |Part(rs, {b})[m..] + Part(rs, all - {a, b})|
    ensures VerdictsOf((Part(rs, {b})[m..] + Part(rs, all - {a, b}))[..k], a) == []
  {
    var r, o := Part(rs, {b})[m..], Part(rs, all - {a, b});
    assert VerdictsOf(r, a) == [] by { CutVerdicts(rs, b, m, a); }
    assert VerdictsOf(o, a) == [] by { PartVerdicts(rs, all - {a, b}, a); }
    VerdictsConcat(r, o, a);
    PrefixVerdicts(r + o, k, a);
  }

  lemma ThreeVerdicts(p: seq<Ruling>, q: seq<Ruling>, r: seq<Ruling>, st: StationId)
    ensures VerdictsOf(p + q + r, st) == VerdictsOf(p, st) + VerdictsOf(q, st) + VerdictsOf(r, st)
  {
    VerdictsConcat(p + q, r, st);
    VerdictsConcat(p, q, st);
  }

  /** After a has said all it says, its own row is the one missing. */
  lemma MissingAfter(d: Dossier, rs: seq<Ruling>, a: StationId, p: seq<Ruling>, q: seq<Ruling>, r: seq<Ruling>)
    requires a in d.approvals && !IsApproval(RowAfter(d, a, VerdictsOf(rs, a)))
    requires VerdictsOf(p, a) == [] && VerdictsOf(q, a) == VerdictsOf(rs, a) && VerdictsOf(r, a) == []
    ensures Aggregate(d.approvals + Last(p + q + r)) != Status.Approved
  {
    ThreeVerdicts(p, q, r, a);
    assert [] + VerdictsOf(rs, a) + [] == VerdictsOf(rs, a);
    OneMissing(d, p + q + r, a);
  }

  lemma MissingInRest(d: Dossier, rs: seq<Ruling>, a: StationId, b: StationId, m: nat, k: nat)
    requires a != b && a in d.approvals && m <= |VerdictsOf(rs, b)| == |Part(rs, {b})|
    requires !IsApproval(RowAfter(d, a, VerdictsOf(rs, a)))
    requires k <= |Part(rs, {b})[m..] + Part(rs, d.approvals.Keys - {a, b})|
    ensures Aggregate(d.approvals + Last(Part(rs, {b})[..m] + Part(rs, {a})
      + (Part(rs, {b})[m..] + Part(rs, d.approvals.Keys - {a, b}))[..k])) != Status.Approved
  {
    var p, q := Part(rs, {b})[..m], Part(rs, {a});
    assert VerdictsOf(p, a) == [] by { CutVerdicts(rs, b, m, a); }
    assert VerdictsOf(q, a) == VerdictsOf(rs, a) by { PartVerdicts(rs, {a}, a); }
    NothingLeft(rs, d.approvals.Keys, a, b, m, k);
    MissingAfter(d, rs, a, p, q, (Part(rs, {b})[m..] + Part(rs, d.approvals.Keys - {a, b}))[..k]);
  }

  predicate Missing(d: Dossier, rs: seq<Ruling>) { Aggregate(d.approvals + Last(rs)) != Status.Approved }

  /** A prefix of a concatenation. */
  lemma PrefixOfTwo(x: seq<Ruling>, y: seq<Ruling>, k: nat)
    requires k <= |x + y|
    ensures (x + y)[..k] == if k <= |x| then x[..k] else x + y[..k - |x|]
  {
  }

  /** Further decisions that each leave something missing. */
  lemma StillNotPassed(d: Dossier, x: seq<Ruling>, y: seq<Ruling>)
    requires !Passes(d, x) && forall k :: 0 < k <= |y| ==> Missing(d, x + y[..k])
    ensures !Passes(d, x + y)
  {
    if Passes(d, x + y) {
      var k := PassesWhen(d, x + y);
      PrefixOfTwo(x, y, k);
      if k <= |x| { PassesAt(d, x, k); }
    }
  }

  /** First what b decides up to its m-th verdict. */
  lemma FirstPart(d: Dossier, rs: seq<Ruling>, a: StationId, b: StationId, m: nat)
    requires a != b && a in d.approvals && m <= |Part(rs, {b})| && (m > 0 ==> !IsApproval(d.approvals[a]))
    ensures !Passes(d, Part(rs, {b})[..m])
  {
    if Passes(d, Part(rs, {b})[..m]) {
      var k := PassesWhen(d, Part(rs, {b})[..m]);
      MissingBefore(d, rs, a, b, m, k);
    }
  }

  /** Then all that a decides. */
  lemma SecondPart(d: Dossier, rs: seq<Ruling>, a: StationId, b: StationId, m: nat)
    requires a != b && a in d.approvals && b in d.approvals && m <= |VerdictsOf(rs, b)| == |Part(rs, {b})|
    requires (m > 0 ==> !IsApproval(d.approvals[a])) && !IsApproval(RowAfter(d, b, VerdictsOf(rs, b)[..m]))
    ensures !Passes(d, Part(rs, {b})[..m] + Part(rs, {a}))
  {
    FirstPart(d, rs, a, b, m);
    forall k | 0 < k <= |Part(rs, {a})| ensures Missing(d, Part(rs, {b})[..m] + Part(rs, {a})[..k]) {
      MissingDuring(d, rs, a, b, m, k);
    }
    StillNotPassed(d, Part(rs, {b})[..m], Part(rs, {a}));
  }

  /** Then everything else: until a has had its say a row of a or b is missing, after it a's own. */
  lemma ThirdPart(d: Dossier, rs: seq<Ruling>, a: StationId, b: StationId, m: nat)
    requires a != b && a in d.approvals && b in d.approvals && m <= |VerdictsOf(rs, b)| == |Part(rs, {b})|
    requires (m > 0 ==> !IsApproval(d.approvals[a])) && !IsApproval(RowAfter(d, b, VerdictsOf(rs, b)[..m]))
    requires !IsApproval(RowAfter(d, a, VerdictsOf(rs, a)))
    ensures !Passes(d, Avoiding(rs, d.approvals.Keys, a, b, m))
  {
    var x := Part(rs, {b})[..m] + Part(rs, {a});
    var y := Part(rs, {b})[m..] + Part(rs, d.approvals.Keys - {a, b});
    SecondPart(d, rs, a, b, m);
    forall k | 0 < k <= |y| ensures Missing(d, x + y[..k]) {
      MissingInRest(d, rs, a, b, m, k);
    }
    StillNotPassed(d, x, y);
  }

  lemma AvoidingNeverPasses(d: Dossier, rs: seq<Ruling>, a: StationId, b: StationId, m: nat) returns (ss: seq<Ruling>)
    requires AllProper(d.approvals.Keys, rs) && a != b && a in d.approvals && b in d.approvals
    requires m <= |VerdictsOf(rs, b)| && (m > 0 ==> !IsApproval(d.approvals[a]))
    requires !IsApproval(RowAfter(d, b, VerdictsOf(rs, b)[..m])) && !IsApproval(RowAfter(d, a, VerdictsOf(rs, a)))
    ensures SameVerdicts(rs, ss) && AllProper(d.approvals.Keys, ss) && !Passes(d, ss)
  {
    AvoidingVerdicts(d.approvals.Keys, rs, a, b, m);
    ss := Avoiding(rs, d.approvals.Keys, a, b, m);
    ProperReordered(d.approvals.Keys, rs, ss);
    ThirdPart(d, rs, a, b, m);
  }

  lemma SomeMissing(d: Dossier, rs: seq<Ruling>) returns (a: StationId)
    requires AllProper(d.approvals.Keys, rs) && Aggregate(d.approvals + Last(rs)) != Status.Approved
    ensures a in d.approvals && !IsApproval(RowAfter(d, a, VerdictsOf(rs, a)))
  {
    if forall st :: st in d.approvals ==> IsApproval(RowAfter(d, st, VerdictsOf(rs, st))) {
      AllThere(d, rs);
      assert false;
    }
    a :| a in d.approvals && !IsApproval(RowAfter(d, a, VerdictsOf(rs, a)));
  }

  lemma AvoidingOrder(d: Dossier, rs: seq<Ruling>) returns (ss: seq<Ruling>)
    requires AllProper(d.approvals.Keys, rs) && Possible(d, rs) && !Certain(d, rs)
    requires !EveryRow(d.approvals, Decision.Approved)
    ensures SameVerdicts(rs, ss) && AllProper(d.approvals.Keys, ss) && !Passes(d, ss)
  {
    var a := SomeMissing(d, rs);
    if b :| b in d.approvals && b != a && !IsApproval(d.approvals[b]) {
      ss := AvoidingNeverPasses(d, rs, a, b, 0);
    } else {
      assert !IsApproval(d.approvals[a]);
      assert !Decisive(d, rs, a);
      var b :| b in d.approvals && b != a && !AlwaysApproves(d, rs, b);
      var i :| 0 <= i < |VerdictsOf(rs, b)| && !IsApproval(VerdictsOf(rs, b)[i]);
      ss := AvoidingNeverPasses(d, rs, a, b, i + 1);
    }
  }

  /** Possible and Certain speak of each station's verdicts only. */
  lemma SameProspects(d: Dossier, rs: seq<Ruling>, ss: seq<Ruling>)
    requires SameVerdicts(rs, ss)
    ensures (Possible(d, rs) <==> Possible(d, ss)) && (Certain(d, rs) <==> Certain(d, ss))
  {
    LastDetermined(rs, ss);
    forall st | st in d.approvals
      ensures MayApprove(d, rs, st) <==> MayApprove(d, ss, st)
      ensures AlwaysApproves(d, rs, st) <==> AlwaysApproves(d, ss, st)
    {
      assert VerdictsOf(rs, st) == VerdictsOf(ss, st);
    }
    forall a ensures Decisive(d, rs, a) <==> Decisive(d, ss, a) {}
  }

  ghost predicate EveryOrderAgrees(cfg: Config, d: Dossier, es: seq<Event>) {
    forall fs :: Reordered(cfg, d, es, fs) ==> (Run(cfg, d, fs).permits == [] <==> Run(cfg, d, es).permits == [])
  }

  lemma OrdersAgree(cfg: Config, d: Dossier, es: seq<Event>, fs: seq<Event>)
    requires Sound(d) && d.permits == [] && Reordered(cfg, d, es, fs)
    requires var rs := RulingsIn(d.approvals.Keys, es); !Issuable(d) || !Possible(d, rs) || Certain(d, rs)
    ensures Run(cfg, d, fs).permits == [] <==> Run(cfg, d, es).permits == []
  {
    var rs, ss := RulingsIn(d.approvals.Keys, es), RulingsIn(d.approvals.Keys, fs);
    PermitExactly(cfg, d, es);
    PermitExactly(cfg, d, fs);
    RulingsProper(d.approvals.Keys, es);
    RulingsProper(d.approvals.Keys, fs);
    SameProspects(d, rs, ss);
    if Certain(d, rs) {
      CertainPasses(d, rs);
      CertainPasses(d, ss);
    } else if !Possible(d, rs) {
      if Passes(d, rs) { PassingIsPossible(d, rs); }
      if Passes(d, ss) { PassingIsPossible(d, ss); }
    }
  }

  /** An order of the same decisions as calls. */
  lemma AsCalls(cfg: Config, d: Dossier, es: seq<Event>, ss: seq<Ruling>) returns (fs: seq<Event>)
    requires Sound(d) && d.permits == [] && Stretch(cfg, d, es)
    requires SameVerdicts(RulingsIn(d.approvals.Keys, es), ss) && AllProper(d.approvals.Keys, ss)
    ensures Reordered(cfg, d, es, fs)
    ensures Run(cfg, d, fs).permits != [] <==> Issuable(d) && Passes(d, ss)
  {
    fs := Calls(ss);
    CallsAreRulings(cfg, d, d.approvals.Keys, ss);
    PermitExactly(cfg, d, fs);
  }

  /**
   * All orders of a stretch's decisions agree on whether there is a permit - if
   * and only if none can be issued, or some station neither has approved nor
   * ever does, or everybody's last word is an approval, or it all hangs on one
   * station that approves at some time.
   */
  lemma PermitOrderExactly(cfg: Config, d: Dossier, es: seq<Event>)
    requires Sound(d) && d.permits == [] && Stretch(cfg, d, es)
    ensures var rs := RulingsIn(d.approvals.Keys, es);
      EveryOrderAgrees(cfg, d, es) <==> !Issuable(d) || !Possible(d, rs) || Certain(d, rs)
  {
    var rs := RulingsIn(d.approvals.Keys, es);
    if !Issuable(d) || !Possible(d, rs) || Certain(d, rs) {
      forall fs | Reordered(cfg, d, es, fs)
        ensures Run(cfg, d, fs).permits == [] <==> Run(cfg, d, es).permits == []
      {
        OrdersAgree(cfg, d, es, fs);
      }
    } else {
      RulingsProper(d.approvals.Keys, es);
      NotYetApproved(d);
      assert d.approvals != map[] by { assert rs[0] in rs; }
      var ss := PassingOrder(d, rs);
      var fs := AsCalls(cfg, d, es, ss);
      var ts := AvoidingOrder(d, rs);
      var gs := AsCalls(cfg, d, es, ts);
    }
  }

  // ---- a reached example ----

  /** a approves, b approves, a rejects, b asks again. */
  function ApprovedBetween(a: StationId, b: StationId): seq<Ruling> {
    [Approve(a)] + [Approve(b)] + [Reject(a)] + [AskAgain(b)]
  }

  /** The same, but a rejects before b approves. */
  function NeverBoth(a: StationId, b: StationId): seq<Ruling> {
    [Approve(a)] + [Reject(a)] + [Approve(b)] + [AskAgain(b)]
  }

  lemma BothApproved(d: Dossier, a: StationId, b: StationId)
    requires a != b && d.approvals.Keys == {a, b}
    ensures Passes(d, ApprovedBetween(a, b))
  {
    var two := [Approve(a)] + [Approve(b)];
    VerdictsSnoc([], Approve(a), a);
    VerdictsSnoc([], Approve(a), b);
    assert [] + [Approve(a)] == [Approve(a)];
    VerdictsSnoc([Approve(a)], Approve(b), a);
    VerdictsSnoc([Approve(a)], Approve(b), b);
    AllThere(d, two);
    assert ApprovedBetween(a, b)[..2] == two;
    PassesAt(d, ApprovedBetween(a, b), 2);
  }

  lemma LastMissing(d: Dossier, rs: seq<Ruling>, r: Ruling)
    requires r.station in d.approvals && r.verdict != Decision.Approved
    ensures Aggregate(d.approvals + Last(rs + [r])) != Status.Approved
  {
    VerdictsSnoc(rs, r, r.station);
    OneMissing(d, rs + [r], r.station);
  }

  lemma NeverBothApproved(d: Dossier, a: StationId, b: StationId)
    requires a != b && d.approvals.Keys == {a, b} && EveryRow(d.approvals, Pending)
    ensures !Passes(d, NeverBoth(a, b))
  {
    var one := [Approve(a)];
    var two := one + [Reject(a)];
    var three := two + [Approve(b)];
    assert [] + [Approve(a)] == one;
    VerdictsSnoc([], Approve(a), b);
    OneMissing(d, one, b);
    PassesSnoc(d, [], Approve(a));
    LastMissing(d, one, Reject(a));
    PassesSnoc(d, one, Reject(a));
    VerdictsSnoc(one, Reject(a), a);
    VerdictsSnoc(two, Approve(b), a);
    OneMissing(d, three, a);
    PassesSnoc(d, two, Approve(b));
    LastMissing(d, three, AskAgain(b));
    PassesSnoc(d, three, AskAgain(b));
  }

  lemma ExampleProper(listed: set<StationId>, a: StationId, b: StationId)
    requires a in listed && b in listed
    ensures AllProper(listed, ApprovedBetween(a, b)) && AllProper(listed, NeverBoth(a, b))
  {
    ThreeProper(listed, [Approve(a)], Approve(b), Reject(a), AskAgain(b));
    ThreeProper(listed, [Approve(a)], Reject(a), Approve(b), AskAgain(b));
  }

  /** For any new application with two stations: the same decisions, the same status, and a permit in one order only. */
  lemma PermitDependsOnOrder(cfg: Config, d: Dossier, a: StationId, b: StationId, next: string)
    requires Opened(d) && a != b && |next| <= 46
    ensures var filed := Run(cfg, d, ToSubmission(d.organizer, 1, [a, b], next));
      var es, fs := Calls(ApprovedBetween(a, b)), Calls(NeverBoth(a, b));
      && Reordered(cfg, filed, es, fs) && Run(cfg, filed, es).status == Run(cfg, filed, fs).status
      && Run(cfg, filed, es).permits != [] && Run(cfg, filed, fs).permits == []
  {
    FiledReached(cfg, d, 1, [a, b], next);
    var filed := Run(cfg, d, ToSubmission(d.organizer, 1, [a, b], next));
    assert a in [a, b] && b in [a, b];
    var listed := filed.approvals.Keys;
    assert listed == {a, b};
    var rs, ss := ApprovedBetween(a, b), NeverBoth(a, b);
    ExampleProper(listed, a, b);
    CallsAreRulings(cfg, filed, listed, rs);
    CallsAreRulings(cfg, filed, listed, ss);
    SwapVerdicts([Approve(a)], Approve(b), Reject(a), AskAgain(b));
    OrderIrrelevant(cfg, filed, Calls(rs), Calls(ss));
    PermitExactly(cfg, filed, Calls(rs));
    PermitExactly(cfg, filed, Calls(ss));
    BothApproved(filed, a, b);
    NeverBothApproved(filed, a, b);
  }
}
