/** The live procession over whole runs: GPS health and the position cache. */
module LiveTracking {
  import opened Wrappers
  import opened Casework
  import opened Lifecycle

  // ---- GPS health ----

  /** What a row's GPS status claims about the age of its last position is true. */
  predicate SignalFits(cfg: Config, d: Dossier) {
    d.procession.Some? ==>
      var p := d.procession.value;
      && (p.status == LiveStatus.GpsLost ==> p.seen.Some? && d.clock - p.seen.value.at > cfg.lostAge)
      && (p.status == LiveStatus.GpsWarning ==> p.seen.Some? && d.clock - p.seen.value.at > cfg.warningAge)
  }

  lemma SignalFitsStep(cfg: Config, d: Dossier, e: Event)
    requires SignalFits(cfg, d)
    ensures SignalFits(cfg, Step(cfg, d, e))
  {
  }

  /** GPS_LOST and GPS_WARNING are never claimed of a fresh signal, whatever runs between the two sweeps. */
  lemma {:induction false} SignalFitsRun(cfg: Config, d: Dossier, es: seq<Event>)
    requires Opened(d)
    ensures SignalFits(cfg, Run(cfg, d, es))
  {
    if es != [] {
      SignalFitsRun(cfg, d, es[..|es| - 1]);
      SignalFitsStep(cfg, Run(cfg, d, es[..|es| - 1]), es[|es| - 1]);
    }
  }

  /** A call that leaves the procession row alone. */
  predicate Quiet(e: Event) {
    !e.op.OpStart? && !e.op.OpComplete? && !e.op.OpRecord? && !e.op.OpSweepLost? && !e.op.OpSweepWarning?
  }

  lemma QuietStep(cfg: Config, d: Dossier, e: Event)
    requires Quiet(e)
    ensures Step(cfg, d, e).procession == d.procession && Step(cfg, d, e).clock >= d.clock
  {
  }

  lemma {:induction false} QuietRun(cfg: Config, d: Dossier, es: seq<Event>)
    requires forall k :: 0 <= k < |es| ==> Quiet(es[k])
    ensures Run(cfg, d, es).procession == d.procession && Run(cfg, d, es).clock >= d.clock
  {
    if es != [] {
      QuietRun(cfg, d, es[..|es| - 1]);
      QuietStep(cfg, Run(cfg, d, es[..|es| - 1]), es[|es| - 1]);
    }
  }

  /** One whole sweep: the first statement, whatever else happens, the second. */
  function Sweep(cfg: Config, d: Dossier, wait1: nat, between: seq<Event>, wait2: nat): Dossier {
    Step(cfg, Run(cfg, Step(cfg, d, Event(wait1, OpSweepLost)), between), Event(wait2, OpSweepWarning))
  }

  /**
   * A sweep with no ping in it leaves exactly the stateless classification of a
   * procession under way: lost by the first statement's clock, else weak by the
   * second's.
   */
  lemma SweepClassifies(cfg: Config, d: Dossier, wait1: nat, between: seq<Event>, wait2: nat)
    requires SignalFits(cfg, d) && d.procession.Some? && Underway(d.procession.value.status)
    requires forall k :: 0 <= k < |between| ==> Quiet(between[k])
    ensures var p, r := d.procession.value, Sweep(cfg, d, wait1, between, wait2);
      r.procession == Some(p.(status :=
        if p.seen.Some? && d.clock + wait1 - p.seen.value.at > cfg.lostAge then LiveStatus.GpsLost
        else if p.seen.Some? && r.clock - p.seen.value.at > cfg.warningAge then LiveStatus.GpsWarning
        else LiveStatus.Live))
  {
    QuietRun(cfg, Step(cfg, d, Event(wait1, OpSweepLost)), between);
  }

  predicate Fresh(cfg: Config, d: Dossier) {
    d.procession.Some? ==> !GoesLost(cfg, d.procession.value, d.clock) && !GoesWarning(cfg, d.procession.value, d.clock)
  }

  lemma SweptIsFresh(cfg: Config, d: Dossier, wait: nat)
    ensures Fresh(cfg, Sweep(cfg, d, wait, [], 0))
  {
    var lost := Step(cfg, d, Event(wait, OpSweepLost));
    assert lost.procession.Some? ==> !GoesLost(cfg, lost.procession.value, lost.clock);
  }

  lemma FreshIsLeft(cfg: Config, d: Dossier)
    requires Fresh(cfg, d)
    ensures Step(cfg, d, Event(0, OpSweepLost)) == d && Step(cfg, d, Event(0, OpSweepWarning)) == d
  {
    assert After(d, 0) == d;
  }

  /** A second sweep at the same instant changes nothing and owes no further alert. */
  lemma SecondSweepIdle(cfg: Config, d: Dossier, wait: nat)
    ensures var once := Sweep(cfg, d, wait, [], 0);
      Sweep(cfg, once, 0, [], 0) == once
  {
    SweptIsFresh(cfg, d, wait);
    FreshIsLeft(cfg, Sweep(cfg, d, wait, [], 0));
  }

  // ---- the position cache ----

  /** A cached position was stored in the location history first. */
  predicate CacheStored(cfg: Config, d: Dossier) {
    d.cache.Some? ==> exists i :: 0 <= i < |d.fixes| && LocationOf(cfg, d.fixes[i]) == d.cache.value
  }

  function LocationOf(cfg: Config, fix: Fix): Location { Location(fix.lat, fix.lng, Classify(cfg, fix.distance)) }

  /** A call keeps the cached position, drops it, or caches the one it has just stored. */
  lemma CacheChange(cfg: Config, d: Dossier, e: Event)
    ensures var r := Step(cfg, d, e);
      && d.fixes <= r.fixes
      && (r.cache == d.cache || r.cache == None
          || (|r.fixes| > |d.fixes| && r.cache == Some(LocationOf(cfg, r.fixes[|d.fixes|]))))
  {
    if e.op.OpRecord? { RecordCaches(cfg, d, e); } else { OthersCacheNothing(cfg, d, e); }
  }

  lemma RecordCaches(cfg: Config, d: Dossier, e: Event)
    requires e.op.OpRecord?
    ensures var r, fix := Step(cfg, d, e), Measured(cfg, d, e.op.ping);
      && r.fixes == (if Succeeds(cfg, d, e) then d.fixes + [fix] else d.fixes)
      && r.cache == if Succeeds(cfg, d, e) && e.op.extent == Done then Some(LocationOf(cfg, fix)) else d.cache
  {
  }

  lemma OthersCacheNothing(cfg: Config, d: Dossier, e: Event)
    requires !e.op.OpRecord?
    ensures Step(cfg, d, e).fixes == d.fixes && Step(cfg, d, e).cache in {d.cache, None}
  {
  }

  lemma CacheStoredStep(cfg: Config, d: Dossier, e: Event)
    requires CacheStored(cfg, d)
    ensures CacheStored(cfg, Step(cfg, d, e))
  {
    var r := Step(cfg, d, e);
    CacheChange(cfg, d, e);
    if r.cache == d.cache && d.cache.Some? {
      var i :| 0 <= i < |d.fixes| && LocationOf(cfg, d.fixes[i]) == d.cache.value;
      assert LocationOf(cfg, r.fixes[i]) == r.cache.value;
    }
  }

  /** Whatever is evicted and wherever a call dies, the cache holds a stored position or nothing. */
  lemma {:induction false} CacheAlwaysStored(cfg: Config, d: Dossier, es: seq<Event>)
    requires Opened(d)
    ensures CacheStored(cfg, Run(cfg, d, es))
  {
    if es != [] {
      CacheAlwaysStored(cfg, d, es[..|es| - 1]);
      CacheStoredStep(cfg, Run(cfg, d, es[..|es| - 1]), es[|es| - 1]);
    }
  }

  /** No call dies between its database writes and the cache write that belongs to them. */
  predicate CrashFree(e: Event) {
    && (e.op.OpRecord? ==> e.op.extent == Inserted || e.op.extent == Done)
    && (e.op.OpComplete? ==> !e.op.crash)
  }

  /** The row's own position. */
  function RowLocation(p: Procession): Option<Location> {
    if p.seen.None? then None else Some(Location(p.seen.value.lat, p.seen.value.lng, p.deviation))
  }

  predicate CacheAgrees(d: Dossier) {
    d.cache.Some? ==>
      d.procession.Some? && Underway(d.procession.value.status) && d.cache == RowLocation(d.procession.value)
  }

  lemma CacheAgreesStep(cfg: Config, d: Dossier, e: Event)
    requires CacheAgrees(d) && CrashFree(e)
    ensures CacheAgrees(Step(cfg, d, e))
  {
  }

  lemma {:induction false} CacheAgreesRun(cfg: Config, d: Dossier, es: seq<Event>)
    requires Opened(d) && forall k :: 0 <= k < |es| ==> CrashFree(es[k])
    ensures CacheAgrees(Run(cfg, d, es))
  {
    if es != [] {
      CacheAgreesRun(cfg, d, es[..|es| - 1]);
      CacheAgreesStep(cfg, Run(cfg, d, es[..|es| - 1]), es[|es| - 1]);
    }
  }

  /**
   * Crash-free: a LIVE procession's position is the row's, cached or not, and
   * before a start or after completion there is none; the cache changes the
   * answer exactly while the GPS is weak or lost.
   */
  lemma CurrentLocationAgrees(cfg: Config, d: Dossier, es: seq<Event>)
    requires Opened(d) && forall k :: 0 <= k < |es| ==> CrashFree(es[k])
    ensures var r := Run(cfg, d, es);
      && (r.procession.Some? && r.procession.value.status == LiveStatus.Live ==>
            GetCurrentLocation(r) == RowLocation(r.procession.value))
      && (r.procession.None? || !Underway(r.procession.value.status) ==> GetCurrentLocation(r) == None)
      && (GetCurrentLocation(r) == GetCurrentLocation(r.(cache := None)) <==>
            r.cache.None? || r.procession.value.status == LiveStatus.Live)
  {
    CacheAgreesRun(cfg, d, es);
  }

  predicate Over(d: Dossier) { d.procession.Some? && d.procession.value.status == LiveStatus.Completed }

  lemma OverShows(d: Dossier)
    requires Over(d)
    ensures GetCurrentLocation(d) != None <==> d.cache.Some?
  {
  }

  predicate Completes(cfg: Config, d: Dossier, e: Event) { e.op.OpComplete? && Succeeds(cfg, d, e) }

  /** While a procession is over, its key is only ever dropped. */
  lemma OverStep(cfg: Config, d: Dossier, e: Event)
    requires Over(d) && Over(Step(cfg, d, e))
    ensures Step(cfg, d, e).cache == (if e.op.OpEvict? then None else d.cache) && !Completes(cfg, d, e)
  {
  }

  lemma OverBegins(cfg: Config, d: Dossier, e: Event)
    requires !Over(d) && Over(Step(cfg, d, e))
    ensures Completes(cfg, d, e) && Step(cfg, d, e).cache == if e.op.crash then d.cache else None
  {
  }

  /** The k-th call is the last completion that went through. */
  predicate CompletedAt(cfg: Config, d: Dossier, es: seq<Event>, k: nat) {
    && k < |es| && Completes(cfg, At(cfg, d, es, k), es[k])
    && forall j :: k < j < |es| ==> !Completes(cfg, At(cfg, d, es, j), es[j])
  }

  /** It died with a key cached, and nothing has evicted the key since. */
  predicate LeftBehind(cfg: Config, d: Dossier, es: seq<Event>, k: nat)
    requires CompletedAt(cfg, d, es, k)
  {
    es[k].op.crash && At(cfg, d, es, k).cache.Some? && forall j :: k < j < |es| ==> !es[j].op.OpEvict?
  }

  lemma OverNext(cfg: Config, d: Dossier, es: seq<Event>, k: nat)
    requires k < |es| && Over(At(cfg, d, es, k + 1))
    ensures Completes(cfg, At(cfg, d, es, k), es[k]) <==> !Over(At(cfg, d, es, k))
  {
    RunNext(cfg, d, es, k);
    if Over(At(cfg, d, es, k)) {
      OverStep(cfg, At(cfg, d, es, k), es[k]);
    } else {
      OverBegins(cfg, At(cfg, d, es, k), es[k]);
    }
  }

  /** The last step up of something that holds in the end. */
  lemma {:induction false} LastRise(holds: seq<bool>, rises: seq<bool>) returns (k: nat)
    requires |holds| == |rises| + 1 && !holds[0] && holds[|rises|]
    requires forall j :: 0 <= j < |rises| && holds[j + 1] ==> (rises[j] <==> !holds[j])
    ensures k < |rises| && rises[k] && forall j :: k < j < |rises| ==> !rises[j]
  {
    var n := |rises| - 1;
    if holds[n] { k := LastRise(holds[..n + 1], rises[..n]); } else { k := n; }
  }

  lemma LastCompletion(cfg: Config, d: Dossier, es: seq<Event>) returns (k: nat)
    requires !Over(d) && Over(Run(cfg, d, es))
    ensures CompletedAt(cfg, d, es, k)
  {
    var over, completes := Overs(cfg, d, es), Completions(cfg, d, es);
    forall j | 0 <= j < |es| && over[j + 1] ensures completes[j] <==> !over[j] { OverNext(cfg, d, es, j); }
    assert es[..|es|] == es && es[..0] == [];
    k := LastRise(over, completes);
    forall j | k < j < |es| ensures !Completes(cfg, At(cfg, d, es, j), es[j]) { assert !completes[j]; }
  }

  function Overs(cfg: Config, d: Dossier, es: seq<Event>): seq<bool> {
    seq(|es| + 1, i requires 0 <= i <= |es| => Over(At(cfg, d, es, i)))
  }

  function Completions(cfg: Config, d: Dossier, es: seq<Event>): seq<bool> {
    seq(|es|, i requires 0 <= i < |es| => Completes(cfg, At(cfg, d, es, i), es[i]))
  }

  lemma {:induction false} StillOver(cfg: Config, d: Dossier, es: seq<Event>, k: nat, m: nat)
    requires CompletedAt(cfg, d, es, k) && k < m <= |es| && Over(Run(cfg, d, es))
    ensures Over(At(cfg, d, es, m))
    decreases |es| - m
  {
    if m == |es| {
      assert es[..m] == es;
    } else {
      StillOver(cfg, d, es, k, m + 1);
      OverNext(cfg, d, es, m);
    }
  }

  lemma KeySince(cfg: Config, d: Dossier, es: seq<Event>, m: nat)
    requires m < |es| && Over(At(cfg, d, es, m)) && Over(At(cfg, d, es, m + 1))
    ensures At(cfg, d, es, m + 1).cache == if es[m].op.OpEvict? then None else At(cfg, d, es, m).cache
  {
    RunNext(cfg, d, es, m);
    OverStep(cfg, At(cfg, d, es, m), es[m]);
  }

  /** The cached position at every moment of a run. */
  function Caches(cfg: Config, d: Dossier, es: seq<Event>): seq<Option<Location>> {
    seq(|es| + 1, i requires 0 <= i <= |es| => At(cfg, d, es, i).cache)
  }

  /** After the k-th call only evictions touch the key. */
  predicate OnlyEvicted(caches: seq<Option<Location>>, es: seq<Event>, k: nat) {
    && |caches| == |es| + 1
    && forall m :: k < m < |es| ==> caches[m + 1] == if es[m].op.OpEvict? then None else caches[m]
  }

  lemma {:induction false} KeyStays(caches: seq<Option<Location>>, es: seq<Event>, k: nat, m: nat)
    requires OnlyEvicted(caches, es, k) && k < m <= |es| && forall j :: k < j < m ==> !es[j].op.OpEvict?
    ensures caches[m] == caches[k + 1]
  {
    if m > k + 1 { KeyStays(caches, es, k, m - 1); }
  }

  lemma {:induction false} KeyGone(caches: seq<Option<Location>>, es: seq<Event>, k: nat, j: nat, m: nat)
    requires OnlyEvicted(caches, es, k) && k < j < m <= |es| && es[j].op.OpEvict?
    ensures caches[m] == None
  {
    if m > j + 1 { KeyGone(caches, es, k, j, m - 1); }
  }

  lemma KeySinceCompletion(cfg: Config, d: Dossier, es: seq<Event>, k: nat)
    requires CompletedAt(cfg, d, es, k) && Over(Run(cfg, d, es))
    ensures OnlyEvicted(Caches(cfg, d, es), es, k)
  {
    forall m | k < m < |es|
      ensures Caches(cfg, d, es)[m + 1] == if es[m].op.OpEvict? then None else Caches(cfg, d, es)[m]
    {
      KeyNext(cfg, d, es, k, m);
    }
  }

  lemma KeyNext(cfg: Config, d: Dossier, es: seq<Event>, k: nat, m: nat)
    requires CompletedAt(cfg, d, es, k) && Over(Run(cfg, d, es)) && k < m < |es|
    ensures At(cfg, d, es, m + 1).cache == if es[m].op.OpEvict? then None else At(cfg, d, es, m).cache
  {
    assert Over(At(cfg, d, es, m)) by { StillOver(cfg, d, es, k, m); }
    assert Over(At(cfg, d, es, m + 1)) by { StillOver(cfg, d, es, k, m + 1); }
    KeySince(cfg, d, es, m);
  }

  /** The key a run leaves is the completion's, unless it has been evicted since. */
  lemma KeyAtEnd(cfg: Config, d: Dossier, es: seq<Event>, k: nat)
    requires CompletedAt(cfg, d, es, k) && Over(Run(cfg, d, es))
    ensures Run(cfg, d, es).cache ==
      if exists j :: k < j < |es| && es[j].op.OpEvict? then None else At(cfg, d, es, k + 1).cache
  {
    var caches := Caches(cfg, d, es);
    KeySinceCompletion(cfg, d, es, k);
    assert es[..|es|] == es;
    assert caches[|es|] == Run(cfg, d, es).cache && caches[k + 1] == At(cfg, d, es, k + 1).cache;
    if j :| k < j < |es| && es[j].op.OpEvict? {
      KeyGone(caches, es, k, j, |es|);
    } else {
      KeyStays(caches, es, k, |es|);
    }
  }

  lemma CompletesOnce(cfg: Config, d: Dossier, e: Event)
    requires Completes(cfg, d, e)
    ensures !Over(d)
  {
  }

  /**
   * In any run that ends with the procession over, the last completion that
   * went through decides: a position is still shown if and only if it left one
   * behind.
   */
  lemma NothingAfterCompletion(cfg: Config, d: Dossier, es: seq<Event>) returns (k: nat)
    requires Opened(d) && Over(Run(cfg, d, es))
    ensures CompletedAt(cfg, d, es, k)
    ensures GetCurrentLocation(Run(cfg, d, es)) != None <==> LeftBehind(cfg, d, es, k)
  {
    k := LastCompletion(cfg, d, es);
    CompletesOnce(cfg, At(cfg, d, es, k), es[k]);
    RunNext(cfg, d, es, k);
    StillOver(cfg, d, es, k, k + 1);
    OverBegins(cfg, At(cfg, d, es, k), es[k]);
    KeyAtEnd(cfg, d, es, k);
    OverShows(Run(cfg, d, es));
  }
}
