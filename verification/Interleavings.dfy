/** What holds of all applications in every interleaving of calls, statements and sweeps. */
module Interleavings {
  import opened Wrappers
  import opened ApplicationNumbers
  import opened Casework
  import opened Lifecycle
  import opened LiveTracking
  import opened Registry
  import Calls
  import N = NumberLedger

  // ---- every file lives its own life ----

  /** The file is what some run of calls makes of a created application. */
  ghost predicate Reachable(cfg: Config, d: Dossier) {
    exists d0: Dossier, es: seq<Event> :: Opened(d0) && d == Run(cfg, d0, es)
  }

  lemma ReachableStep(cfg: Config, d: Dossier, e: Event)
    requires Reachable(cfg, d)
    ensures Reachable(cfg, Step(cfg, d, e))
  {
    var d0: Dossier, es: seq<Event> :| Opened(d0) && d == Run(cfg, d0, es);
    assert (es + [e])[..|es|] == es;
    assert Step(cfg, d, e) == Run(cfg, d0, es + [e]);
  }

  lemma ReachableSound(cfg: Config, d: Dossier)
    requires Reachable(cfg, d)
    ensures Sound(d)
  {
    var d0: Dossier, es: seq<Event> :| Opened(d0) && d == Run(cfg, d0, es);
    SoundOpen(d0);
    SoundRun(cfg, d0, es);
  }

  ghost predicate FilesReachable(s: Setting, w: World) {
    forall a :: a in w.files ==> Reachable(s.cfg, w.files[a])
  }

  lemma CommitFate(s: Setting, w: World, b: AppId, a: AppId) returns (e: Option<Event>)
    requires a in w.files
    ensures e.Some? ==> e.value == EventNow(w, w.files[a], e.value.op)
    ensures CommitStep(s, w, b).files[a] == if e.None? then w.files[a] else Step(s.cfg, w.files[a], e.value)
  {
    e := None;
    if b == a && a in w.txs && w.txs[a].Counted? {
      var number := Format(w.txs[a].code, w.txs[a].year, w.txs[a].sequence);
      e := Some(EventNow(w, w.files[a], OpSubmit(w.files[a].organizer, number)));
    }
  }

  /** A move does to a file that stays one call, or nothing. */
  lemma FileFate(s: Setting, w: World, t: Tick, a: AppId) returns (e: Option<Event>)
    requires a in w.files && a in Do(s, w, t).files
    ensures e.Some? ==> e.value == EventNow(Later(w, t.wait), w.files[a], e.value.op)
    ensures Do(s, w, t).files[a] == (if e.None? then w.files[a] else Step(s.cfg, w.files[a], e.value))
  {
    var w1, d := Later(w, t.wait), w.files[a];
    match t.move
    case Call(b, op) => e := if b == a && Callable(w1, a, op) then Some(EventNow(w1, d, op)) else None;
    case Commit(b) => e := CommitFate(s, w1, b, a);
    case SweepAllLost => e := Some(EventNow(w1, d, OpSweepLost));
    case SweepAllWarning => e := Some(EventNow(w1, d, OpSweepWarning));
    case _ =>
      e := None;
      LeftAlone(s, w, t, a);
  }

  predicate Touches(m: Registry.Move) { m.Call? || m.Commit? || m.SweepAllLost? || m.SweepAllWarning? }

  lemma LeftAlone(s: Setting, w: World, t: Tick, a: AppId)
    requires a in w.files && a in Do(s, w, t).files && !Touches(t.move)
    ensures Do(s, w, t).files[a] == w.files[a]
  {
  }

  /** Only create puts a file there. */
  lemma WhoAppears(s: Setting, w: World, t: Tick, a: AppId)
    requires a !in w.files && a in Do(s, w, t).files
    ensures t.move.Create? && t.move.app == a
    ensures Open(t.move.organizer, t.move.festival, t.move.year, t.move.startTime, t.move.endTime, t.move.details,
                 w.clock + t.wait) == Ok(Do(s, w, t).files[a])
  {
  }

  lemma NewFile(s: Setting, w: World, t: Tick, a: AppId)
    requires a !in w.files && a in Do(s, w, t).files
    ensures Opened(Do(s, w, t).files[a])
  {
    WhoAppears(s, w, t, a);
  }

  lemma FilesReachableStep(s: Setting, w: World, t: Tick)
    requires FilesReachable(s, w)
    ensures FilesReachable(s, Do(s, w, t))
  {
    var r := Do(s, w, t);
    forall a | a in r.files ensures Reachable(s.cfg, r.files[a]) {
      if a in w.files {
        var e := FileFate(s, w, t, a);
        if e.Some? { ReachableStep(s.cfg, w.files[a], e.value); }
      } else {
        NewFile(s, w, t, a);
        assert r.files[a] == Run(s.cfg, r.files[a], []);
      }
    }
  }

  /** Whatever is proved of one application's runs holds of every file in every interleaving. */
  lemma {:induction false} EveryFileReachable(s: Setting, ts: seq<Tick>)
    ensures FilesReachable(s, Play(s, ts))
  {
    if ts != [] {
      EveryFileReachable(s, ts[..|ts| - 1]);
      FilesReachableStep(s, Play(s, ts[..|ts| - 1]), ts[|ts| - 1]);
    }
  }

  // ---- the moves are the numbering protocol's, or do not concern it ----

  /** No call but a first submission gives a file a number. */
  lemma NumberStep(s: Setting, w: World, a: AppId, op: Op) returns (next: Dossier)
    requires FilesReachable(s, w) && a in w.files && (op.OpSubmit? ==> w.files[a].number.Some?)
    ensures next == StepFile(s, w, a, op) && next.number == w.files[a].number
  {
    next := StepFile(s, w, a, op);
    if op.OpSubmit? {
      ReachableSound(s.cfg, w.files[a]);
      NumberAndPermitStep(s.cfg, w.files[a], EventNow(w, w.files[a], op));
    } else {
      OnlySubmitNumbers(s.cfg, w.files[a], EventNow(w, w.files[a], op));
    }
  }

  lemma OnlySubmitNumbers(cfg: Config, d: Dossier, e: Event)
    requires !e.op.OpSubmit?
    ensures Step(cfg, d, e).number == d.number
  {
  }

  lemma SameView(w: World, r: World)
    requires r.files.Keys == w.files.Keys && r.txs == w.txs && r.locks == w.locks && r.issued == w.issued
    requires forall a :: a in w.files ==> r.files[a].number == w.files[a].number
    ensures View(r) == View(w)
  {
    assert View(r).numbers == View(w).numbers;
  }

  lemma ViewOfCall(s: Setting, w: World, a: AppId, op: Op)
    requires FilesReachable(s, w)
    ensures View(CallStep(s, w, a, op)) == View(w)
  {
    if Callable(w, a, op) {
      var next := NumberStep(s, w, a, op);
      SameView(w, w.(files := w.files[a := next]));
    }
  }

  lemma SweepNumber(s: Setting, w: World, op: Op, a: AppId)
    requires FilesReachable(s, w) && Sweeps(op) && a in w.files
    ensures SweepAll(s, w, op).files[a].number == w.files[a].number
  {
    var next := NumberStep(s, w, a, op);
  }

  lemma ViewOfSweep(s: Setting, w: World, op: Op)
    requires FilesReachable(s, w) && Sweeps(op)
    ensures View(SweepAll(s, w, op)) == View(w)
  {
    forall a | a in w.files ensures SweepAll(s, w, op).files[a].number == w.files[a].number {
      SweepNumber(s, w, op, a);
    }
    SameView(w, SweepAll(s, w, op));
  }

  lemma ViewOfRemove(s: Setting, w: World, a: AppId, user: UserId) returns (m: Option<N.Move>)
    requires FilesReachable(s, w)
    ensures View(RemoveStep(w, a, user)) == (if m.None? then View(w) else N.Act(s.hash, View(w), m.value))
  {
    m := None;
    if Idle(w, a) && user == w.files[a].organizer && w.files[a].status == Draft {
      ReachableSound(s.cfg, w.files[a]);
      m := Some(N.Drop(a));
      ViewOfDrop(s, w, a);
    }
  }

  lemma ViewOfDrop(s: Setting, w: World, a: AppId)
    requires Idle(w, a) && w.files[a].number.None?
    ensures View(w.(files := w.files - {a})) == N.Act(s.hash, View(w), N.Drop(a))
  {
    assert View(w.(files := w.files - {a})).numbers == View(w).numbers - {a};
  }

  lemma ViewOfStatement(s: Setting, w: World, m: N.Move)
    requires N.Act(s.hash, View(w), m).numbers == View(w).numbers
    ensures View(Statement(s, w, m)) == N.Act(s.hash, View(w), m)
  {
  }

  lemma ViewOfBegin(s: Setting, w: World, a: AppId, user: UserId) returns (m: Option<N.Move>)
    ensures View(Begin(s, w, a, user)) == (if m.None? then View(w) else N.Act(s.hash, View(w), m.value))
  {
    m := None;
    if Submittable(w, a, user) {
      m := Some(N.Begin(a, w.festivals[w.files[a].festival], w.files[a].year));
      ViewOfStatement(s, w, m.value);
    }
  }

  /** The committed file has the offered number, or - refused by its column - none. */
  lemma SubmitOutcome(cfg: Config, d: Dossier, e: Event)
    requires d.number.None? && e.op.OpSubmit?
    ensures Step(cfg, d, e).number.None? || Step(cfg, d, e).number == Some(e.op.next)
  {
  }

  lemma ViewOfSaved(s: Setting, w: World, a: AppId, next: Dossier)
    requires a in w.files && a in w.txs && w.txs[a].Counted?
    requires next.number == Some(Format(w.txs[a].code, w.txs[a].year, w.txs[a].sequence))
    ensures View(Statement(s, w, N.Commit(a)).(files := w.files[a := next])) == N.Act(s.hash, View(w), N.Commit(a))
  {
    var r := Statement(s, w, N.Commit(a)).(files := w.files[a := next]);
    assert View(r).numbers == View(w).numbers[a := next.number];
  }

  lemma ViewOfRefused(s: Setting, w: World, a: AppId, next: Dossier)
    requires a in w.files && next.number == w.files[a].number
    ensures View(Statement(s, w, N.RollBack(a)).(files := w.files[a := next])) == N.Act(s.hash, View(w), N.RollBack(a))
  {
    var r := Statement(s, w, N.RollBack(a)).(files := w.files[a := next]);
    assert View(r).numbers == View(w).numbers;
  }

  lemma ViewOfCommit(s: Setting, w: World, a: AppId) returns (m: Option<N.Move>)
    requires a in w.txs && a in w.files ==> w.files[a].number.None?
    ensures View(CommitStep(s, w, a)) == (if m.None? then View(w) else N.Act(s.hash, View(w), m.value))
  {
    m := None;
    if a in w.files && a in w.txs && w.txs[a].Counted? {
      var op := OpSubmit(w.files[a].organizer, Format(w.txs[a].code, w.txs[a].year, w.txs[a].sequence));
      SubmitOutcome(s.cfg, w.files[a], EventNow(w, w.files[a], op));
      var next := StepFile(s, w, a, op);
      if next.number.Some? {
        m := Some(N.Commit(a));
        ViewOfSaved(s, w, a, next);
      } else {
        m := Some(N.RollBack(a));
        ViewOfRefused(s, w, a, next);
      }
    }
  }

  lemma ViewOfCreate(s: Setting, w: World, a: AppId, made: Result<Dossier, Error>) returns (m: Option<N.Move>)
    requires made.Ok? ==> made.value.number.None?
    ensures View(CreateStep(w, a, made)) == (if m.None? then View(w) else N.Act(s.hash, View(w), m.value))
  {
    m := None;
    if a !in w.files && made.Ok? {
      m := Some(N.Add(a));
      assert View(CreateStep(w, a, made)).numbers == View(w).numbers[a := None];
    }
  }

  predicate IsStatement(m: Registry.Move) { m.TakeLock? || m.Count? || m.Abort? }

  lemma RefinesStatement(s: Setting, before: World, t: Tick) returns (m: N.Move)
    requires IsStatement(t.move)
    ensures View(Do(s, before, t)) == N.Act(s.hash, View(before), m)
  {
    var w := Later(before, t.wait);
    assert View(w) == View(before);
    match t.move {
      case TakeLock(a) => m := N.TakeLock(a);
      case Count(a) => m := N.Count(a);
      case Abort(a) => m := N.RollBack(a);
    }
    ViewOfStatement(s, w, m);
  }

  lemma RefinesCall(s: Setting, before: World, t: Tick, w: World) returns (m: Option<N.Move>)
    requires w == Later(before, t.wait) && FilesReachable(s, w) && !IsStatement(t.move)
    requires forall a :: a in w.txs && a in w.files ==> w.files[a].number.None?
    ensures View(Do(s, before, t)) == (if m.None? then View(w) else N.Act(s.hash, View(w), m.value))
  {
    m := None;
    match t.move {
      case Create(a, organizer, festival, year, startTime, endTime, details) =>
        m := ViewOfCreate(s, w, a, Open(organizer, festival, year, startTime, endTime, details, w.clock));
      case Remove(a, user) => m := ViewOfRemove(s, w, a, user);
      case Call(a, op) => ViewOfCall(s, w, a, op);
      case BeginSubmit(a, user) => m := ViewOfBegin(s, w, a, user);
      case Commit(a) => m := ViewOfCommit(s, w, a);
      case SetFestival(f, code) =>
      case SweepAllLost => ViewOfSweep(s, w, OpSweepLost);
      case SweepAllWarning => ViewOfSweep(s, w, OpSweepWarning);
    }
  }

  /** Whatever a move does, the numbers see one move of their protocol or none. */
  lemma Refines(s: Setting, before: World, t: Tick) returns (m: Option<N.Move>)
    requires FilesReachable(s, before) && N.Protocol(s.hash, View(before))
    ensures View(Do(s, before, t)) == (if m.None? then View(before) else N.Act(s.hash, View(before), m.value))
  {
    if IsStatement(t.move) {
      var n := RefinesStatement(s, before, t);
      m := Some(n);
    } else {
      var w := Later(before, t.wait);
      forall a | a in w.txs && a in w.files ensures w.files[a].number.None? {
        assert N.TxFits(s.hash, View(before), a);
      }
      m := RefinesCall(s, before, t, w);
    }
  }

  /** Each run of the whole system is, for the numbers, a run of the protocol. */
  lemma {:induction false} RunRefines(s: Setting, ts: seq<Tick>) returns (ms: seq<N.Move>)
    ensures View(Play(s, ts)) == N.Play(s.hash, ms)
  {
    if ts == [] {
      ms := [];
    } else {
      var init := ts[..|ts| - 1];
      ms := RunRefines(s, init);
      EveryFileReachable(s, init);
      N.ProtocolHolds(s.hash, ms);
      var m := Refines(s, Play(s, init), ts[|ts| - 1]);
      if m.Some? {
        assert (ms + [m.value])[..|ms|] == ms;
        ms := ms + [m.value];
      }
    }
  }

  // ---- across applications ----

  /** In every interleaving: no number twice, no permit number twice. */
  lemma NumbersAndPermitsUnique(s: Setting, ts: seq<Tick>, a: AppId, b: AppId)
    requires a in Play(s, ts).files && b in Play(s, ts).files && a != b
    ensures var fs := Play(s, ts).files;
      && (fs[a].number.Some? ==> fs[a].number != fs[b].number)
      && (fs[a].permits != [] && fs[b].permits != [] ==> fs[a].permits[0].number != fs[b].permits[0].number)
  {
    var w := Play(s, ts);
    if w.files[a].number.Some? { NumbersUniqueIn(s, ts, a, b); }
    EveryFileReachable(s, ts);
    PermitIsNumber(s.cfg, w.files[a]);
    PermitIsNumber(s.cfg, w.files[b]);
  }

  lemma NumbersUniqueIn(s: Setting, ts: seq<Tick>, a: AppId, b: AppId)
    requires a in Play(s, ts).files && b in Play(s, ts).files && a != b && Play(s, ts).files[a].number.Some?
    ensures Play(s, ts).files[a].number != Play(s, ts).files[b].number
  {
    var ms := RunRefines(s, ts);
    N.ProtocolHolds(s.hash, ms);
    N.NumbersUnique(s.hash, View(Play(s, ts)), a, b);
  }

  /** The number can be read off the permit. */
  lemma PermitIsNumber(cfg: Config, d: Dossier)
    requires Reachable(cfg, d)
    ensures d.permits != [] ==>
      d.number.Some? && |d.permits[0].number| >= 4 && d.permits[0].number[4..] == d.number.value
  {
    ReachableSound(cfg, d);
    if d.permits != [] {
      assert d.permits[0] in d.permits;
      assert d.status != Draft;
    }
  }

  /** The sequence numbers of a code and year, in the order they were committed. */
  lemma SequencesRise(s: Setting, ts: seq<Tick>, code: string, year: nat)
    ensures N.Increasing(N.SequencesOf(Play(s, ts).issued, code, year))
    ensures '_' !in code ==> N.CountsUp(N.SequencesOf(Play(s, ts).issued, code, year))
  {
    var ms := RunRefines(s, ts);
    N.NumbersRise(s.hash, ms, code, year);
  }

  lemma {:induction false} NumberedStaysBy(s: Setting, ts: seq<Tick>, more: seq<Tick>, a: AppId, number: string)
    requires Holds(Play(s, ts), a, number)
    ensures Holds(Play(s, ts + more), a, number)
  {
    if more == [] {
      assert ts + more == ts;
    } else {
      var init, last := more[..|more| - 1], more[|more| - 1];
      NumberedStaysBy(s, ts, init, a, number);
      NumberedStaysNext(s, ts + init, last, a, number);
      assert ts + more == ts + init + [last];
    }
  }

  predicate Holds(w: World, a: AppId, number: string) { a in w.files && w.files[a].number == Some(number) }

  /** A numbered application is never a draft again, so it is never removed and its number never leaves the count. */
  lemma NumberedStay(s: Setting, ts: seq<Tick>, k: nat, a: AppId)
    requires k <= |ts| && a in Play(s, ts[..k]).files && Play(s, ts[..k]).files[a].number.Some?
    ensures a in Play(s, ts).files && Play(s, ts).files[a].number == Play(s, ts[..k]).files[a].number
  {
    NumberedStaysBy(s, ts[..k], ts[k..], a, Play(s, ts[..k]).files[a].number.value);
    assert ts == ts[..k] + ts[k..];
  }

  lemma NumberedStaysNext(s: Setting, ts: seq<Tick>, t: Tick, a: AppId, number: string)
    requires Holds(Play(s, ts), a, number)
    ensures Holds(Play(s, ts + [t]), a, number)
  {
    assert (ts + [t])[..|ts|] == ts;
    EveryFileReachable(s, ts);
    NumberedStaysStep(s, Play(s, ts), t, a);
  }

  lemma FiledStays(s: Setting, w: World, t: Tick, a: AppId)
    requires a in w.files && w.files[a].status != Draft
    ensures a in Do(s, w, t).files
  {
    match t.move
    case Remove(b, user) => assert a in RemoveStep(Later(w, t.wait), b, user).files;
    case _ =>
  }

  lemma NumberedStaysStep(s: Setting, w: World, t: Tick, a: AppId)
    requires FilesReachable(s, w) && a in w.files && w.files[a].number.Some?
    ensures a in Do(s, w, t).files && Do(s, w, t).files[a].number == w.files[a].number
  {
    assert w.files[a].status != Draft by { ReachableSound(s.cfg, w.files[a]); }
    FiledStays(s, w, t, a);
    var e := FileFate(s, w, t, a);
    if e.Some? { NumberAndPermitStep(s.cfg, w.files[a], e.value); }
  }

  // ---- GPS status against the clock of the whole system ----

  predicate ClocksBehind(w: World) { forall a :: a in w.files ==> w.files[a].clock <= w.clock }

  lemma StepClock(cfg: Config, d: Dossier, e: Event)
    ensures Step(cfg, d, e).clock == d.clock + e.wait
  {
  }

  lemma CommitClock(s: Setting, w: World, a: AppId)
    ensures CommitStep(s, w, a).clock == w.clock
  {
  }

  lemma DoClock(s: Setting, w: World, t: Tick)
    ensures Do(s, w, t).clock == w.clock + t.wait
  {
    match t.move
    case Commit(a) => CommitClock(s, Later(w, t.wait), a);
    case _ =>
  }

  lemma ClocksBehindStep(s: Setting, w: World, t: Tick)
    requires ClocksBehind(w)
    ensures ClocksBehind(Do(s, w, t))
  {
    var r := Do(s, w, t);
    DoClock(s, w, t);
    forall a | a in r.files ensures r.files[a].clock <= r.clock {
      if a in w.files {
        FileClock(s, w, t, a);
      } else {
        NewFileClock(s, w, t, a);
      }
    }
  }

  lemma FileClock(s: Setting, w: World, t: Tick, a: AppId)
    requires a in w.files && a in Do(s, w, t).files && w.files[a].clock <= w.clock
    ensures Do(s, w, t).files[a].clock <= w.clock + t.wait
  {
    var w1, d := Later(w, t.wait), w.files[a];
    var e := FileFate(s, w, t, a);
    if e.Some? {
      StepClock(s.cfg, d, e.value);
      assert e.value.wait == EventNow(w1, d, e.value.op).wait;
    }
  }

  lemma NewFileClock(s: Setting, w: World, t: Tick, a: AppId)
    requires a !in w.files && a in Do(s, w, t).files
    ensures Do(s, w, t).files[a].clock == w.clock + t.wait
  {
    WhoAppears(s, w, t, a);
  }

  lemma {:induction false} ClocksBehindAlways(s: Setting, ts: seq<Tick>)
    ensures ClocksBehind(Play(s, ts))
  {
    if ts != [] {
      ClocksBehindAlways(s, ts[..|ts| - 1]);
      ClocksBehindStep(s, Play(s, ts[..|ts| - 1]), ts[|ts| - 1]);
    }
  }

  /** At any moment of any interleaving, a GPS status is only as bad as the signal's age at that moment. */
  lemma SignalsTrueEverywhere(s: Setting, ts: seq<Tick>, a: AppId)
    requires a in Play(s, ts).files && Play(s, ts).files[a].procession.Some?
    ensures var w := Play(s, ts);
      var p := w.files[a].procession.value;
      && (p.status == LiveStatus.GpsLost ==> p.seen.Some? && w.clock - p.seen.value.at > s.cfg.lostAge)
      && (p.status == LiveStatus.GpsWarning ==> p.seen.Some? && w.clock - p.seen.value.at > s.cfg.warningAge)
  {
    EveryFileReachable(s, ts);
    ClocksBehindAlways(s, ts);
    var d := Play(s, ts).files[a];
    var d0: Dossier, es: seq<Event> :| Opened(d0) && d == Run(s.cfg, d0, es);
    SignalFitsRun(s.cfg, d0, es);
  }

  // ---- what the moves of the whole system do ----

  lemma SweepFile(s: Setting, w: World, a: AppId, op: Op)
    requires Sweeps(op) && a in w.files && w.files[a].clock <= w.clock
    ensures a in SweepAll(s, w, op).files
    ensures var d := w.files[a].(clock := w.clock);
      SweepAll(s, w, op).files[a] == if op.OpSweepLost? then SweepLost(s.cfg, d) else SweepWarning(s.cfg, d)
  {
    assert After(w.files[a], w.clock - w.files[a].clock) == w.files[a].(clock := w.clock);
  }

  /** The first update reaches every application: lost are exactly those silent for too long by the system's clock. */
  lemma SweepLostEverywhere(s: Setting, w: World, wait: nat, a: AppId)
    requires ClocksBehind(w) && a in w.files
    ensures var r, now, d := Do(s, w, Tick(wait, SweepAllLost)), w.clock + wait, w.files[a];
      var silent := && d.procession.Some? && d.procession.value.status in {LiveStatus.Live, LiveStatus.GpsWarning}
                    && d.procession.value.seen.Some? && now - d.procession.value.seen.value.at > s.cfg.lostAge;
      && r == w.(files := r.files, clock := now) && r.files.Keys == w.files.Keys
      && (silent ==> r.files[a] == d.(clock := now, owed := d.owed + [Alert.GpsLost],
                                      procession := Some(d.procession.value.(status := LiveStatus.GpsLost))))
      && (!silent ==> r.files[a] == d.(clock := now))
  {
    SweepFile(s, Later(w, wait), a, OpSweepLost);
  }

  /** So does the second. */
  lemma SweepWarningEverywhere(s: Setting, w: World, wait: nat, a: AppId)
    requires ClocksBehind(w) && a in w.files
    ensures var r, now, d := Do(s, w, Tick(wait, SweepAllWarning)), w.clock + wait, w.files[a];
      var silent := && d.procession.Some? && d.procession.value.status == LiveStatus.Live
                    && d.procession.value.seen.Some? && now - d.procession.value.seen.value.at > s.cfg.warningAge;
      && r == w.(files := r.files, clock := now) && r.files.Keys == w.files.Keys
      && (silent ==> r.files[a] == d.(clock := now, owed := d.owed + [Alert.GpsWarning],
                                      procession := Some(d.procession.value.(status := LiveStatus.GpsWarning))))
      && (!silent ==> r.files[a] == d.(clock := now))
  {
    SweepFile(s, Later(w, wait), a, OpSweepWarning);
  }

  /** A call reaches its application unless a submission of it is in flight; a first submission goes another way. */
  lemma CallExactly(s: Setting, w: World, t: Tick)
    requires t.move.Call? && !t.move.op.OpSweepLost? && !t.move.op.OpSweepWarning? && ClocksBehind(w)
    ensures var r, a, op, now := Do(s, w, t), t.move.app, t.move.op, w.clock + t.wait;
      && r == w.(files := r.files, clock := now)
      && r.files == if a in w.files && a !in w.txs && (op.OpSubmit? ==> w.files[a].number.Some?)
                    then w.files[a := Step(s.cfg, w.files[a], Event(now - w.files[a].clock, op))] else w.files
  {
  }

  /** It begins for the organizer of an unnumbered application that is ready, with the festival's code as it is then. */
  lemma BeginExactly(s: Setting, w: World, t: Tick)
    requires t.move.BeginSubmit? && t.move.app in w.files && w.files[t.move.app].festival in w.festivals
    requires ValidCode(w.festivals[w.files[t.move.app].festival])
    ensures var r, a, d := Do(s, w, t), t.move.app, w.files[t.move.app];
      && r == w.(txs := r.txs, clock := r.clock)
      && r.txs == if && a !in w.txs && d.number.None? && t.move.user == d.organizer
                     && (d.status == Draft || d.status == Status.ChangesRequested)
                     && exists st :: Calls.ConfirmedOnRoute(d, st)
                  then w.txs[a := N.Reading(w.festivals[d.festival], d.year)] else w.txs
  {
    Calls.SomebodyConfirmed(w.files[t.move.app]);
    assert View(Later(w, t.wait)).numbers[t.move.app] == w.files[t.move.app].number;
  }

  /** A number without room in its column ends the transaction, and the application stays unnumbered. */
  lemma CommitRefused(s: Setting, w: World, t: Tick, a: AppId, k: int)
    requires t.move == Commit(a) && a in w.files && a in w.txs && w.txs[a].Counted? && w.files[a].number.None?
    requires |Format(w.txs[a].code, w.txs[a].year, w.txs[a].sequence)| > 50
    ensures var r := Do(s, w, t);
      && a in r.files && r.files[a] == w.files[a].(clock := r.files[a].clock) && r.issued == w.issued
      && a !in r.txs && (k in r.locks <==> k in w.locks && w.locks[k] != a)
  {
    N.RollBackExactly(s.hash, View(Later(w, t.wait)), a, a, k);
  }

  /** Exactly the organizer removes an application, as a draft with no submission in flight; no other is touched. */
  lemma RemoveExactly(s: Setting, w: World, t: Tick, b: AppId)
    requires t.move.Remove? && b in w.files
    ensures var r, a := Do(s, w, t), t.move.app;
      && r == w.(files := r.files, clock := r.clock)
      && (b !in r.files <==> b == a && a !in w.txs && t.move.user == w.files[a].organizer && w.files[a].status == Draft)
      && (b in r.files ==> r.files[b] == w.files[b])
  {
  }

  /** A rolled back submission leaves the files alone, and neither a transaction nor a lock. */
  lemma AbortExactly(s: Setting, w: World, t: Tick, k: int)
    requires t.move.Abort?
    ensures var r, a := Do(s, w, t), t.move.app;
      && r.files == w.files && r.festivals == w.festivals && r.issued == w.issued && a !in r.txs
      && (k in r.locks <==> k in w.locks && w.locks[k] != a)
  {
    N.RollBackExactly(s.hash, View(Later(w, t.wait)), t.move.app, t.move.app, k);
  }

  /** A festival gets a code of capitals, digits and '_' that no other festival has, or keeps its own. */
  lemma SetFestivalExactly(s: Setting, w: World, t: Tick)
    requires t.move.SetFestival?
    ensures var r, f, code := Do(s, w, t), t.move.festival, t.move.code;
      && r == w.(festivals := r.festivals, clock := r.clock)
      && r.festivals == if && code != "" && (forall i :: 0 <= i < |code| ==>
                                             'A' <= code[i] <= 'Z' || '0' <= code[i] <= '9' || code[i] == '_')
                           && (forall g :: g in w.festivals && w.festivals[g] == code ==> g == f)
                        then w.festivals[f := code] else w.festivals
  {
  }
}
