/** A run of the whole system in which a festival's first number is 2. */
module GapRuns {
  import opened Wrappers
  import opened ApplicationNumbers
  import opened Casework
  import opened Filing
  import opened Registry
  import opened Interleavings
  import opened Numerals
  import N = NumberLedger

  function Next(m: Registry.Move): Tick { Tick(0, m) }

  lemma PlaySnoc(s: Setting, ts: seq<Tick>, t: Tick)
    ensures Play(s, ts + [t]) == Do(s, Play(s, ts), t)
  {
    assert (ts + [t])[..|ts|] == ts;
  }

  // ---- two festivals, one application each ----

  function New(f: FestivalId, year: nat): Dossier { Open(0, f, year, 0, 1, "", 0).value }

  function Setup(code: string, year: nat): seq<Tick> {
    [] + [Next(SetFestival(1, N.Filled(code)))] + [Next(SetFestival(2, code))]
    + [Next(Create(0, 0, 1, year, 0, 1, ""))] + [Next(Create(1, 0, 2, year, 0, 1, ""))]
  }

  function Codes(code: string): map<FestivalId, string> { map[1 := N.Filled(code), 2 := code] }

  /** Both applications, whatever their files, and no transaction in flight. */
  function Desk(code: string, first: Dossier, second: Dossier, issued: seq<N.Issue>): World {
    World(map[0 := first, 1 := second], Codes(code), map[], map[], issued, 0)
  }

  lemma SetUp(s: Setting, code: string, year: nat)
    requires ValidCode(code) && '_' in code
    ensures Play(s, Setup(code, year)) == Desk(code, New(1, year), New(2, year), [])
  {
    N.FilledIsCounted(code, year);
    var t1, t2 := Next(SetFestival(1, N.Filled(code))), Next(SetFestival(2, code));
    var t3, t4 := Next(Create(0, 0, 1, year, 0, 1, "")), Next(Create(1, 0, 2, year, 0, 1, ""));
    PlaySnoc(s, [], t1);
    PlaySnoc(s, [] + [t1], t2);
    PlaySnoc(s, [] + [t1] + [t2], t3);
    PlaySnoc(s, [] + [t1] + [t2] + [t3], t4);
  }

  // ---- the calls that make them ready ----

  function CallTicks(a: AppId, es: seq<Event>): seq<Tick> {
    if es == [] then [] else CallTicks(a, es[..|es| - 1]) + [Next(Call(a, es[|es| - 1].op))]
  }

  /** A call made at once that is neither a sweep nor a submission. */
  predicate Plain(e: Event) { e.wait == 0 && !Sweeps(e.op) && !e.op.OpSubmit? }

  lemma {:induction false} RunClock(cfg: Config, d: Dossier, es: seq<Event>)
    requires forall e :: e in es ==> Plain(e)
    ensures Run(cfg, d, es).clock == d.clock
  {
    if es != [] {
      RunClock(cfg, d, es[..|es| - 1]);
      assert es[|es| - 1] in es;
      StepClock(cfg, Run(cfg, d, es[..|es| - 1]), es[|es| - 1]);
    }
  }

  /** Calls one after the other on one application are a run of its file. */
  lemma {:induction false} PlayCalls(s: Setting, ts: seq<Tick>, a: AppId, es: seq<Event>)
    requires Idle(Play(s, ts), a) && Play(s, ts).files[a].clock == Play(s, ts).clock
    requires forall e :: e in es ==> Plain(e)
    ensures var w := Play(s, ts);
      Play(s, ts + CallTicks(a, es)) == w.(files := w.files[a := Run(s.cfg, w.files[a], es)])
  {
    var w := Play(s, ts);
    if es == [] {
      assert ts + [] == ts && w.files[a := w.files[a]] == w.files;
    } else {
      var init, e := es[..|es| - 1], es[|es| - 1];
      PlayCalls(s, ts, a, init);
      RunClock(s.cfg, w.files[a], init);
      assert ts + CallTicks(a, es) == ts + CallTicks(a, init) + [Next(Call(a, e.op))];
      PlaySnoc(s, ts + CallTicks(a, init), Next(Call(a, e.op)));
      OneCall(s, w, a, Run(s.cfg, w.files[a], init), e);
    }
  }

  lemma OneCall(s: Setting, w: World, a: AppId, d: Dossier, e: Event)
    requires Idle(w, a) && Plain(e) && d.clock == w.clock
    ensures Do(s, w.(files := w.files[a := d]), Next(Call(a, e.op))) == w.(files := w.files[a := Step(s.cfg, d, e)])
  {
    var now := w.(files := w.files[a := d]);
    assert EventNow(now, d, e.op) == e;
    assert now.files[a := Step(s.cfg, d, e)] == w.files[a := Step(s.cfg, d, e)];
  }

  const STATION: StationId := 7

  /** With a route, and one station confirmed on it. */
  function Ready(d: Dossier): Dossier { d.(route := Some(1), suggestions := Suggested({STATION}, 1, {STATION})) }

  lemma PreparePlain()
    ensures forall e :: e in Prepare(1, [STATION]) ==> Plain(e)
  {
    assert Confirmations([STATION]) == [Now(OpConfirm(STATION))] by {
      assert [STATION][..0] == [] && [] + [Now(OpConfirm(STATION))] == [Now(OpConfirm(STATION))];
    }
  }

  function Calls(a: AppId): seq<Tick> { CallTicks(a, Prepare(1, [STATION])) }

  lemma MadeReady(s: Setting, ts: seq<Tick>, a: AppId)
    requires Idle(Play(s, ts), a) && Play(s, ts).files[a].clock == Play(s, ts).clock
    requires Play(s, ts).files[a].suggestions == map[]
    ensures var w := Play(s, ts);
      Play(s, ts + Calls(a)) == w.(files := w.files[a := Ready(w.files[a])])
  {
    PreparePlain();
    PlayCalls(s, ts, a, Prepare(1, [STATION]));
    Prepared(s.cfg, Play(s, ts).files[a], 1, [STATION]);
    assert Members([STATION]) == {STATION};
  }

  lemma BothReady(s: Setting, code: string, year: nat)
    requires ValidCode(code) && '_' in code
    ensures Play(s, Setup(code, year) + Calls(0) + Calls(1)) == Desk(code, Ready(New(1, year)), Ready(New(2, year)), [])
  {
    SetUp(s, code, year);
    MadeReady(s, Setup(code, year), 0);
    var first := Desk(code, Ready(New(1, year)), New(2, year), []);
    assert first.files == map[0 := New(1, year), 1 := New(2, year)][0 := Ready(New(1, year))];
    MadeReady(s, Setup(code, year) + Calls(0), 1);
    assert Desk(code, Ready(New(1, year)), Ready(New(2, year)), []).files == first.files[1 := Ready(New(2, year))];
  }

  // ---- a submission, statement by statement ----

  function SubmitTicks(a: AppId): seq<Tick> {
    [] + [Next(BeginSubmit(a, 0))] + [Next(TakeLock(a))] + [Next(Count(a))] + [Next(Commit(a))]
  }

  /** Nothing in flight but this application's transaction, and no lock but its own. */
  predicate Only(w: World, a: AppId, tx: N.Tx) {
    a in w.files && w.txs == map[a := tx] && forall k :: k in w.locks ==> w.locks[k] == a
  }

  predicate SameTables(w: World, r: World) {
    r.files == w.files && r.festivals == w.festivals && r.clock == w.clock && r.issued == w.issued
  }

  lemma BeginTick(s: Setting, w: World, a: AppId, code: string)
    requires Submittable(w, a, 0) && w.festivals[w.files[a].festival] == code && ValidCode(code)
    requires w.txs == map[] && w.locks == map[]
    ensures var r := Do(s, w, Next(BeginSubmit(a, 0)));
      SameTables(w, r) && Only(r, a, N.Reading(code, w.files[a].year)) && r.locks == map[]
  {
    assert View(w).numbers[a] == w.files[a].number;
  }

  lemma LockTick(s: Setting, w: World, a: AppId, code: string, year: nat)
    requires Only(w, a, N.Reading(code, year)) && w.locks == map[]
    ensures var r := Do(s, w, Next(TakeLock(a)));
      SameTables(w, r) && Only(r, a, N.Locked(code, year))
  {
    assert w.txs[a].Reading?;
    assert w.txs[a := N.Locked(code, year)] == map[a := N.Locked(code, year)];
  }

  function Counts(w: World, code: string, year: nat): nat { |N.NumberedApps(View(w).numbers, code, year)| }

  lemma CountTick(s: Setting, w: World, a: AppId, code: string, year: nat)
    requires Only(w, a, N.Locked(code, year))
    ensures var r := Do(s, w, Next(Count(a)));
      SameTables(w, r) && Only(r, a, N.Counted(code, year, Counts(w, code, year) + 1))
  {
    assert w.txs[a].Locked?;
    assert w.txs[a := N.Counted(code, year, Counts(w, code, year) + 1)]
        == map[a := N.Counted(code, year, Counts(w, code, year) + 1)];
  }

  lemma CommitTick(s: Setting, w: World, a: AppId, code: string, year: nat, n: nat)
    requires Only(w, a, N.Counted(code, year, n)) && w.files[a].clock == w.clock
    requires w.files[a].number.None? && |Format(code, year, n)| <= NUMBER_WIDTH
    requires SubmitRefusal(w.files[a], w.files[a].organizer).None?
    ensures var r := Do(s, w, Next(Commit(a)));
      && r.txs == map[] && r.locks == map[] && r.festivals == w.festivals && r.clock == w.clock
      && r.issued == w.issued + [N.Issue(a, code, year, n)]
      && a in r.files && r.files == w.files[a := r.files[a]] && r.files[a].number == Some(Format(code, year, n))
  {
    assert w.txs[a].Counted?;
    var next := StepFile(s, w, a, OpSubmit(w.files[a].organizer, Format(code, year, n)));
    SubmitGoesThrough(s, w, a, Format(code, year, n));
    assert w.txs - {a} == map[];
  }

  lemma SubmitGoesThrough(s: Setting, w: World, a: AppId, number: string)
    requires a in w.files && w.files[a].clock == w.clock && w.files[a].number.None? && |number| <= NUMBER_WIDTH
    requires SubmitRefusal(w.files[a], w.files[a].organizer).None?
    ensures StepFile(s, w, a, OpSubmit(w.files[a].organizer, number)).number == Some(number)
  {
    assert After(w.files[a], 0) == w.files[a];
  }

  /** An application that can be submitted, nothing in flight, and a next number its column has room for. */
  predicate CanNumber(w: World, a: AppId, code: string) {
    && Submittable(w, a, 0) && w.festivals[w.files[a].festival] == code && ValidCode(code)
    && w.txs == map[] && w.locks == map[] && w.files[a].clock == w.clock
    && |Format(code, w.files[a].year, Counts(w, code, w.files[a].year) + 1)| <= NUMBER_WIDTH
  }

  /** It has that number now, and nothing else has changed. */
  predicate Numbered(w: World, r: World, a: AppId, code: string)
    requires a in w.files
  {
    var year := w.files[a].year;
    var n := Counts(w, code, year) + 1;
    && r.txs == map[] && r.locks == map[] && r.festivals == w.festivals && r.clock == w.clock
    && r.issued == w.issued + [N.Issue(a, code, year, n)]
    && a in r.files && r.files == w.files[a := r.files[a]] && r.files[a].number == Some(Format(code, year, n))
  }

  lemma NumberingFrom(s: Setting, w: World, a: AppId, code: string) returns (r: World)
    requires CanNumber(w, a, code)
    ensures r ==
      Do(s, Do(s, Do(s, Do(s, w, Next(BeginSubmit(a, 0))), Next(TakeLock(a))), Next(Count(a))), Next(Commit(a)))
    ensures Numbered(w, r, a, code)
  {
    var year := w.files[a].year;
    BeginTick(s, w, a, code);
    var w1 := Do(s, w, Next(BeginSubmit(a, 0)));
    LockTick(s, w1, a, code, year);
    var w2 := Do(s, w1, Next(TakeLock(a)));
    CountTick(s, w2, a, code, year);
    var w3 := Do(s, w2, Next(Count(a)));
    CommitTick(s, w3, a, code, year, Counts(w2, code, year) + 1);
    r := Do(s, w3, Next(Commit(a)));
  }

  /** Four statements with nothing else in between number the application. */
  lemma Numbering(s: Setting, ts: seq<Tick>, a: AppId, code: string)
    requires CanNumber(Play(s, ts), a, code)
    ensures Numbered(Play(s, ts), Play(s, ts + SubmitTicks(a)), a, code)
  {
    var r := NumberingFrom(s, Play(s, ts), a, code);
    FourTicks(s, ts, Next(BeginSubmit(a, 0)), Next(TakeLock(a)), Next(Count(a)), Next(Commit(a)));
  }

  lemma FourTicks(s: Setting, ts: seq<Tick>, t1: Tick, t2: Tick, t3: Tick, t4: Tick)
    ensures Play(s, ts + ([] + [t1] + [t2] + [t3] + [t4])) == Do(s, Do(s, Do(s, Do(s, Play(s, ts), t1), t2), t3), t4)
  {
    PlaySnoc(s, ts, t1);
    PlaySnoc(s, ts + [t1], t2);
    PlaySnoc(s, ts + [t1] + [t2], t3);
    PlaySnoc(s, ts + [t1] + [t2] + [t3], t4);
    assert ts + ([] + [t1] + [t2] + [t3] + [t4]) == ts + [t1] + [t2] + [t3] + [t4];
  }

  // ---- the gap ----

  function GapTicks(code: string, year: nat): seq<Tick> {
    Setup(code, year) + Calls(0) + Calls(1) + SubmitTicks(0) + SubmitTicks(1)
  }

  lemma ReadyToFile(w: World, a: AppId, f: FestivalId, year: nat)
    requires Idle(w, a) && w.files[a] == Ready(New(f, year)) && f in w.festivals
    ensures Submittable(w, a, 0) && w.files[a].clock == 0 && w.files[a].year == year
  {
    ConfirmedThen(w.files[a], 1, {STATION});
  }

  lemma NobodyNumbered(code: string, first: Dossier, second: Dossier, counted: string, year: nat)
    requires first.number.None? && second.number.None?
    ensures Counts(Desk(code, first, second, []), counted, year) == 0
  {
    assert N.NumberedApps(View(Desk(code, first, second, [])).numbers, counted, year) == {};
  }

  lemma OneCounted(code: string, first: Dossier, second: Dossier, issued: seq<N.Issue>, year: nat)
    requires ValidCode(code) && '_' in code
    requires first.number == Some(Format(N.Filled(code), year, 1)) && second.number.None?
    ensures Counts(Desk(code, first, second, issued), code, year) == 1
  {
    N.FilledIsCounted(code, year);
    assert N.NumberedApps(View(Desk(code, first, second, issued)).numbers, code, year) == {0};
  }

  lemma DeskAfter(code: string, first: Dossier, second: Dossier, filed: Dossier, issued: seq<N.Issue>, r: World)
    requires r.txs == map[] && r.locks == map[] && r.festivals == Codes(code) && r.clock == 0 && r.issued == issued
    requires r.files == Desk(code, first, second, []).files[0 := filed]
    ensures r == Desk(code, filed, second, issued)
  {
    assert r.files == map[0 := filed, 1 := second];
  }

  lemma CanNumberFirst(w: World, code: string, year: nat)
    requires ValidCode(code) && '_' in code && |Format(N.Filled(code), year, 1)| <= NUMBER_WIDTH
    requires w == Desk(code, Ready(New(1, year)), Ready(New(2, year)), [])
    ensures CanNumber(w, 0, N.Filled(code)) && Counts(w, N.Filled(code), year) == 0
  {
    assert ValidCode(N.Filled(code)) by { N.FilledIsCounted(code, year); }
    ReadyToFile(w, 0, 1, year);
    NobodyNumbered(code, Ready(New(1, year)), Ready(New(2, year)), N.Filled(code), year);
  }

  lemma NumberedFirst(w: World, r: World, code: string, year: nat)
    requires w == Desk(code, Ready(New(1, year)), Ready(New(2, year)), []) && Numbered(w, r, 0, N.Filled(code))
    requires Counts(w, N.Filled(code), year) == 0
    ensures r.files[0].number == Some(Format(N.Filled(code), year, 1))
    ensures r == Desk(code, r.files[0], Ready(New(2, year)), [N.Issue(0, N.Filled(code), year, 1)])
  {
    var issue := N.Issue(0, N.Filled(code), year, 1);
    assert w.files[0].year == year && [] + [issue] == [issue];
    DeskAfter(code, Ready(New(1, year)), Ready(New(2, year)), r.files[0], [issue], r);
  }

  lemma FirstNumber(s: Setting, ts: seq<Tick>, code: string, year: nat) returns (filed: Dossier)
    requires ValidCode(code) && '_' in code && |Format(N.Filled(code), year, 1)| <= NUMBER_WIDTH
    requires Play(s, ts) == Desk(code, Ready(New(1, year)), Ready(New(2, year)), [])
    ensures filed.number == Some(Format(N.Filled(code), year, 1))
    ensures Play(s, ts + SubmitTicks(0)) ==
      Desk(code, filed, Ready(New(2, year)), [N.Issue(0, N.Filled(code), year, 1)])
  {
    CanNumberFirst(Play(s, ts), code, year);
    Numbering(s, ts, 0, N.Filled(code));
    NumberedFirst(Play(s, ts), Play(s, ts + SubmitTicks(0)), code, year);
    filed := Play(s, ts + SubmitTicks(0)).files[0];
  }

  lemma SecondNumber(s: Setting, ts: seq<Tick>, code: string, year: nat, filed: Dossier)
    requires ValidCode(code) && '_' in code && |Format(code, year, 2)| <= NUMBER_WIDTH
    requires filed.number == Some(Format(N.Filled(code), year, 1))
    requires Play(s, ts) == Desk(code, filed, Ready(New(2, year)), [N.Issue(0, N.Filled(code), year, 1)])
    ensures Play(s, ts + SubmitTicks(1)).issued == [N.Issue(0, N.Filled(code), year, 1)] + [N.Issue(1, code, year, 2)]
  {
    ReadyToFile(Play(s, ts), 1, 2, year);
    OneCounted(code, filed, Ready(New(2, year)), Play(s, ts).issued, year);
    Numbering(s, ts, 1, code);
  }

  /** Two festivals whose codes the pattern confuses: the second one's first application gets number 2. */
  lemma GapInTheSystem(s: Setting, code: string, year: nat)
    requires ValidCode(code) && '_' in code && |Format(N.Filled(code), year, 1)| <= NUMBER_WIDTH
    requires |Format(code, year, 2)| <= NUMBER_WIDTH
    ensures N.SequencesOf(Play(s, GapTicks(code, year)).issued, code, year) == [2]
  {
    var ts := Setup(code, year) + Calls(0) + Calls(1);
    BothReady(s, code, year);
    var filed := FirstNumber(s, ts, code, year);
    SecondNumber(s, ts + SubmitTicks(0), code, year, filed);
    N.FilledIsCounted(code, year);
    N.SequencesOfTwo(N.Issue(0, N.Filled(code), year, 1), N.Issue(1, code, year, 2), code, year);
  }

  /** The column has room for the code's first numbers, up to 99999. */
  predicate Roomy(code: string, year: nat) { |code| + |Decimal(year)| + 7 <= NUMBER_WIDTH }

  lemma NumberLength(code: string, year: nat, n: nat)
    ensures |Format(code, year, n)| >= |code| + |Decimal(year)| + 7
    ensures n < 10 ==> |Format(code, year, n)| == |code| + |Decimal(year)| + 7
  {
  }

  /** Every number ever committed fits its column. */
  lemma IssuesFit(s: Setting, ts: seq<Tick>, i: nat)
    requires i < |Play(s, ts).issued|
    ensures |N.NumberOf(Play(s, ts).issued[i])| <= NUMBER_WIDTH
  {
    var w := Play(s, ts);
    var ms := RunRefines(s, ts);
    N.ProtocolHolds(s.hash, ms);
    var issue := View(w).issued[i];
    assert View(w).numbers[issue.app] == Some(N.NumberOf(issue));
    EveryFileReachable(s, ts);
    NumberFits(s.cfg, w.files[issue.app]);
  }

  lemma NumberFits(cfg: Config, d: Dossier)
    requires Reachable(cfg, d) && d.number.Some?
    ensures |d.number.value| <= NUMBER_WIDTH
  {
    ReachableSound(cfg, d);
    assert d.status != Draft;
  }

  lemma {:induction false} NoneIssued(log: seq<N.Issue>, code: string, year: nat)
    requires forall i :: 0 <= i < |log| ==> !N.Same(log[i], code, year)
    ensures N.SequencesOf(log, code, year) == []
  {
    if log != [] { NoneIssued(log[..|log| - 1], code, year); }
  }

  /** A code without room for its numbers never gets one. */
  lemma NoRoomNoNumbers(s: Setting, ts: seq<Tick>, code: string, year: nat)
    requires !Roomy(code, year)
    ensures N.SequencesOf(Play(s, ts).issued, code, year) == []
  {
    var log := Play(s, ts).issued;
    forall i | 0 <= i < |log| ensures !N.Same(log[i], code, year) {
      IssuesFit(s, ts, i);
      NumberLength(code, year, log[i].sequence);
    }
    NoneIssued(log, code, year);
  }

  lemma GapsIfRoomy(s: Setting, code: string, year: nat)
    requires ValidCode(code) && '_' in code && Roomy(code, year)
    ensures !N.CountsUp(N.SequencesOf(Play(s, GapTicks(code, year)).issued, code, year))
  {
    NumberLength(N.Filled(code), year, 1);
    NumberLength(code, year, 2);
    GapInTheSystem(s, code, year);
    var ns := N.SequencesOf(Play(s, GapTicks(code, year)).issued, code, year);
    assert ns[0] == 2;
  }

  /**
   * In the whole system all runs number a code without gaps, if and only if it
   * has no '_' or is too long to be numbered at all.
   */
  lemma GapFreeSystemExactly(s: Setting, code: string, year: nat)
    requires ValidCode(code)
    ensures (forall ts :: N.CountsUp(N.SequencesOf(Play(s, ts).issued, code, year))) <==>
      '_' !in code || !Roomy(code, year)
  {
    if '_' in code && Roomy(code, year) {
      GapsIfRoomy(s, code, year);
    } else {
      forall ts ensures N.CountsUp(N.SequencesOf(Play(s, ts).issued, code, year)) {
        if '_' in code { NoRoomNoNumbers(s, ts, code, year); } else { SequencesRise(s, ts, code, year); }
      }
    }
  }
}
