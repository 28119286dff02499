/**
 * All applications together. A first submission is the statements it issues;
 * every other service call is one atomic move on one application, and so is
 * each alert the watchdog raises or loses; its two updates sweep every
 * procession. Calls on one application do not overlap: while it has a
 * submission in flight no other call touches it.
 */
module Registry {
  import opened Wrappers
  import opened ApplicationNumbers
  import opened Casework
  import N = NumberLedger

  type AppId = N.AppId

  datatype World = World(
    files: map<AppId, Dossier>,
    festivals: map<FestivalId, string>,
    txs: map<AppId, N.Tx>,
    locks: map<int, AppId>,
    issued: seq<N.Issue>,
    clock: Time)

  datatype Move =
    | Create(app: AppId, organizer: UserId, festival: FestivalId, year: nat, startTime: int, endTime: int,
             details: Details)
    | Remove(app: AppId, user: UserId)
    | Call(app: AppId, op: Op)
    | BeginSubmit(app: AppId, user: UserId)
    | TakeLock(app: AppId)
    | Count(app: AppId)
    | Commit(app: AppId)
    | Abort(app: AppId)
    | SetFestival(festival: FestivalId, code: string)
    | SweepAllLost
    | SweepAllWarning

  /** A move, some time after the one before it. */
  datatype Tick = Tick(wait: nat, move: Move)

  /** Fixed for a run: thresholds, and the hash that turns lock names into lock ids - any function at all. */
  datatype Setting = Setting(cfg: Config, hash: string -> int)

  /** What the numbering protocol sees of the tables. */
  function View(w: World): N.Ledger {
    N.Ledger(map a | a in w.files :: w.files[a].number, w.txs, w.locks, w.issued)
  }

  /** A call made now on a file last touched earlier. */
  function EventNow(w: World, d: Dossier, op: Op): Event {
    Event(if w.clock >= d.clock then w.clock - d.clock else 0, op)
  }

  function StepFile(s: Setting, w: World, a: AppId, op: Op): Dossier
    requires a in w.files
  {
    Step(s.cfg, w.files[a], EventNow(w, w.files[a], op))
  }

  /** A statement that changes transactions and locks only. */
  function Statement(s: Setting, w: World, m: N.Move): World {
    var l := N.Act(s.hash, View(w), m);
    w.(txs := l.txs, locks := l.locks, issued := l.issued)
  }

  predicate Idle(w: World, a: AppId) { a in w.files && a !in w.txs }

  predicate Sweeps(op: Op) { op.OpSweepLost? || op.OpSweepWarning? }

  /** First submissions go through their transaction; every other call is one atomic move. */
  predicate Callable(w: World, a: AppId, op: Op) {
    Idle(w, a) && !Sweeps(op) && (op.OpSubmit? ==> w.files[a].number.Some?)
  }

  /** submit's own checks, and the festival it reads; the code may change before the lock is taken. */
  predicate Submittable(w: World, a: AppId, user: UserId) {
    Idle(w, a) && w.files[a].number.None? && SubmitRefusal(w.files[a], user).None? && w.files[a].festival in w.festivals
  }

  function Begin(s: Setting, w: World, a: AppId, user: UserId): World {
    if Submittable(w, a, user) then
      Statement(s, w, N.Begin(a, w.festivals[w.files[a].festival], w.files[a].year))
    else w
  }

  /** The save that ends the transaction; a number too long for its column rolls it back. */
  function CommitStep(s: Setting, w: World, a: AppId): World {
    if a in w.files && a in w.txs && w.txs[a].Counted? then
      var number := Format(w.txs[a].code, w.txs[a].year, w.txs[a].sequence);
      var next := StepFile(s, w, a, OpSubmit(w.files[a].organizer, number));
      if next.number.Some? then Statement(s, w, N.Commit(a)).(files := w.files[a := next])
      else Statement(s, w, N.RollBack(a)).(files := w.files[a := next])
    else w
  }

  function CreateStep(w: World, a: AppId, made: Result<Dossier, Error>): World {
    if a !in w.files && made.Ok? then w.(files := w.files[a := made.value]) else w
  }

  function RemoveStep(w: World, a: AppId, user: UserId): World {
    if Idle(w, a) && user == w.files[a].organizer && w.files[a].status == Draft then w.(files := w.files - {a}) else w
  }

  function CallStep(s: Setting, w: World, a: AppId, op: Op): World {
    if Callable(w, a, op) then w.(files := w.files[a := StepFile(s, w, a, op)]) else w
  }

  function SweepAll(s: Setting, w: World, op: Op): World {
    w.(files := map a | a in w.files :: StepFile(s, w, a, op))
  }

  /** Festival codes are validated and unique. */
  predicate CodeFree(w: World, f: FestivalId, code: string) {
    ValidCode(code) && forall g :: g in w.festivals && g != f ==> w.festivals[g] != code
  }

  function Rename(w: World, f: FestivalId, code: string): World {
    if CodeFree(w, f, code) then w.(festivals := w.festivals[f := code]) else w
  }

  function Later(w: World, wait: nat): World { w.(clock := w.clock + wait) }

  function Do(s: Setting, before: World, t: Tick): World {
    var w := Later(before, t.wait);
    match t.move
    case Create(a, organizer, festival, year, startTime, endTime, details) =>
      CreateStep(w, a, Open(organizer, festival, year, startTime, endTime, details, w.clock))
    case Remove(a, user) => RemoveStep(w, a, user)
    case Call(a, op) => CallStep(s, w, a, op)
    case BeginSubmit(a, user) => Begin(s, w, a, user)
    case TakeLock(a) => Statement(s, w, N.TakeLock(a))
    case Count(a) => Statement(s, w, N.Count(a))
    case Commit(a) => CommitStep(s, w, a)
    case Abort(a) => Statement(s, w, N.RollBack(a))
    case SetFestival(f, code) => Rename(w, f, code)
    case SweepAllLost => SweepAll(s, w, OpSweepLost)
    case SweepAllWarning => SweepAll(s, w, OpSweepWarning)
  }

  const EMPTY := World(map[], map[], map[], map[], [], 0)

  function Play(s: Setting, ts: seq<Tick>): World {
    if ts == [] then EMPTY else Do(s, Play(s, ts[..|ts| - 1]), ts[|ts| - 1])
  }
}
