/**
 * How first submissions get their numbers, statement by statement: the
 * festival is read, an advisory lock taken, numbers counted, and the row saved
 * and committed - or everything rolled back, at any point. Transactions of
 * different applications interleave freely; an application has at most one.
 */
module NumberLedger {
  import opened Wrappers
  import opened Numerals
  import opened ApplicationNumbers

  type AppId = nat

  /** How far a submission has got: festival read, lock held, numbers counted. */
  datatype Tx =
    | Reading(code: string, year: nat)
    | Locked(code: string, year: nat)
    | Counted(code: string, year: nat, sequence: nat)

  /** A number committed to an application; the log keeps them in commit order. */
  datatype Issue = Issue(app: AppId, code: string, year: nat, sequence: nat)

  datatype Ledger = Ledger(
    numbers: map<AppId, Option<string>>,
    txs: map<AppId, Tx>,
    locks: map<int, AppId>,
    issued: seq<Issue>)

  datatype Move =
    | Add(app: AppId)
    | Drop(app: AppId)
    | Begin(app: AppId, code: string, year: nat)
    | TakeLock(app: AppId)
    | Count(app: AppId)
    | Commit(app: AppId)
    | RollBack(app: AppId)

  function NumberOf(i: Issue): string { Format(i.code, i.year, i.sequence) }

  function LockName(code: string, year: nat): string { code + "-" + Decimal(year) }

  function LockId(hash: string -> int, tx: Tx): int { hash(LockName(tx.code, tx.year)) }

  predicate Numbered(number: Option<string>, code: string, year: nat) {
    number.Some? && Like(Pattern(code, year), number.value)
  }

  /** The ids that SELECT COUNT(*) ... WHERE application_no LIKE 'CODE-YEAR-%' counts, over the committed rows. */
  function NumberedApps(numbers: map<AppId, Option<string>>, code: string, year: nat): set<AppId> {
    set a | a in numbers && Numbered(numbers[a], code, year)
  }

  /** Only an application without a number and without a transaction goes away or begins one. */
  predicate Free(l: Ledger, a: AppId) { a in l.numbers && l.numbers[a].None? && a !in l.txs }

  function Release(l: Ledger, a: AppId): Ledger {
    l.(txs := l.txs - {a}, locks := map k | k in l.locks && l.locks[k] != a :: l.locks[k])
  }

  function Saved(l: Ledger, a: AppId, tx: Tx): Ledger
    requires tx.Counted?
  {
    Release(l, a).(numbers := l.numbers[a := Some(Format(tx.code, tx.year, tx.sequence))],
                   issued := l.issued + [Issue(a, tx.code, tx.year, tx.sequence)])
  }

  /** One statement; a statement that is not due, or waits for a lock, leaves everything as it is. */
  function Act(hash: string -> int, l: Ledger, m: Move): Ledger {
    match m
    case Add(a) => if a in l.numbers then l else l.(numbers := l.numbers[a := None])
    case Drop(a) => if Free(l, a) then l.(numbers := l.numbers - {a}) else l
    case Begin(a, code, year) =>
      if Free(l, a) && ValidCode(code) then l.(txs := l.txs[a := Reading(code, year)]) else l
    case TakeLock(a) =>
      if a in l.txs && l.txs[a].Reading? && LockId(hash, l.txs[a]) !in l.locks then
        l.(txs := l.txs[a := Locked(l.txs[a].code, l.txs[a].year)], locks := l.locks[LockId(hash, l.txs[a]) := a])
      else l
    case Count(a) =>
      if a in l.txs && l.txs[a].Locked? then
        var tx := l.txs[a];
        l.(txs := l.txs[a := Counted(tx.code, tx.year, |NumberedApps(l.numbers, tx.code, tx.year)| + 1)])
      else l
    case Commit(a) => if a in l.txs && l.txs[a].Counted? then Saved(l, a, l.txs[a]) else l
    case RollBack(a) => Release(l, a)
  }

  const BLANK := Ledger(map[], map[], map[], [])

  function Play(hash: string -> int, ms: seq<Move>): Ledger {
    if ms == [] then BLANK else Act(hash, Play(hash, ms[..|ms| - 1]), ms[|ms| - 1])
  }

  /** A rollback ends the transaction and frees its lock; numbers, log and everybody else's transaction stay. */
  lemma RollBackExactly(hash: string -> int, l: Ledger, a: AppId, b: AppId, k: int)
    ensures var r := Act(hash, l, RollBack(a));
      && r.numbers == l.numbers && r.issued == l.issued && a !in r.txs
      && (b != a ==> (b in r.txs <==> b in l.txs) && (b in l.txs ==> r.txs[b] == l.txs[b]))
      && (k in r.locks <==> k in l.locks && l.locks[k] != a) && (k in r.locks ==> r.locks[k] == l.locks[k])
  {
  }

  /** The lock is for exactly the numbers the pattern counts: its name is what they begin with. */
  lemma LockNameExactly(code: string, year: nat)
    ensures Pattern(code, year) == LockName(code, year) + "-%"
  {
    assert Prefix(code, year) + "%" == code + "-" + Decimal(year) + ("-" + "%");
  }

  /** Waiting for the lock ends exactly when nobody holds it: whoever is due then has it. */
  lemma TakeLockExactly(hash: string -> int, l: Ledger, a: AppId)
    requires a in l.txs && l.txs[a].Reading?
    ensures var id, r := hash(LockName(l.txs[a].code, l.txs[a].year)), Act(hash, l, TakeLock(a));
      && (id in l.locks ==> r == l)
      && (id !in l.locks ==>
            && r.txs == l.txs[a := Locked(l.txs[a].code, l.txs[a].year)] && r.locks == l.locks[id := a]
            && r.numbers == l.numbers && r.issued == l.issued)
  {
  }

  // ---- what the count counts ----

  predicate Fits(i: Issue, code: string, year: nat) { i.year == year && Wild(code, i.code) }

  /** How many issued numbers the pattern of code and year matches. */
  function Matching(log: seq<Issue>, code: string, year: nat): nat {
    if log == [] then 0
    else Matching(log[..|log| - 1], code, year) + (if Fits(log[|log| - 1], code, year) then 1 else 0)
  }

  /** The applications those numbers belong to. */
  function Holders(log: seq<Issue>, code: string, year: nat): set<AppId> {
    if log == [] then {}
    else Holders(log[..|log| - 1], code, year) + (if Fits(log[|log| - 1], code, year) then {log[|log| - 1].app} else {})
  }

  predicate OnePerApp(log: seq<Issue>) {
    forall i, j :: 0 <= i < j < |log| ==> log[i].app != log[j].app
  }

  lemma {:induction false} HolderIs(log: seq<Issue>, code: string, year: nat, a: AppId)
    ensures a in Holders(log, code, year) <==> exists i :: 0 <= i < |log| && log[i].app == a && Fits(log[i], code, year)
  {
    if log != [] {
      var n := |log| - 1;
      HolderIs(log[..n], code, year, a);
      if a in Holders(log[..n], code, year) {
        var i :| 0 <= i < n && log[..n][i].app == a && Fits(log[..n][i], code, year);
        assert log[i].app == a && Fits(log[i], code, year);
      }
      if i :| 0 <= i < n && log[i].app == a && Fits(log[i], code, year) {
        assert log[..n][i].app == a && Fits(log[..n][i], code, year);
      }
    }
  }

  lemma {:induction false} HoldersCount(log: seq<Issue>, code: string, year: nat)
    requires OnePerApp(log)
    ensures |Holders(log, code, year)| == Matching(log, code, year)
  {
    if log != [] {
      var n := |log| - 1;
      HoldersCount(log[..n], code, year);
      HolderIs(log[..n], code, year, log[n].app);
      assert log[n].app !in Holders(log[..n], code, year);
    }
  }

  /** The log and the rows tell the same story. */
  predicate LogFits(l: Ledger) {
    && (forall i :: 0 <= i < |l.issued| ==>
          && l.issued[i].app in l.numbers && ValidCode(l.issued[i].code)
          && l.numbers[l.issued[i].app] == Some(NumberOf(l.issued[i])))
    && (forall a :: a in l.numbers && l.numbers[a].Some? ==> exists i :: 0 <= i < |l.issued| && l.issued[i].app == a)
    && OnePerApp(l.issued)
  }

  lemma CountedIsHolder(l: Ledger, code: string, year: nat, a: AppId)
    requires LogFits(l) && ValidCode(code)
    ensures a in NumberedApps(l.numbers, code, year) <==> a in Holders(l.issued, code, year)
  {
    HolderIs(l.issued, code, year, a);
    if a in l.numbers && l.numbers[a].Some? {
      var i :| 0 <= i < |l.issued| && l.issued[i].app == a;
      IssueCounted(l, code, year, i);
      assert forall j :: 0 <= j < |l.issued| && l.issued[j].app == a ==> j == i;
    }
  }

  lemma IssueCounted(l: Ledger, code: string, year: nat, i: nat)
    requires LogFits(l) && ValidCode(code) && i < |l.issued|
    ensures var issue := l.issued[i];
      issue.app in NumberedApps(l.numbers, code, year) <==> Fits(issue, code, year)
  {
    LikeMeans(code, year, l.issued[i].code, l.issued[i].year, l.issued[i].sequence);
  }

  /** So the COUNT is the number of issued numbers that fit. */
  lemma CountIsMatching(l: Ledger, code: string, year: nat)
    requires LogFits(l) && ValidCode(code)
    ensures |NumberedApps(l.numbers, code, year)| == Matching(l.issued, code, year)
  {
    HoldersCount(l.issued, code, year);
    forall a ensures a in NumberedApps(l.numbers, code, year) <==> a in Holders(l.issued, code, year) {
      CountedIsHolder(l, code, year, a);
    }
    assert NumberedApps(l.numbers, code, year) == Holders(l.issued, code, year);
  }

  lemma MatchingGrows(log: seq<Issue>, more: Issue, code: string, year: nat)
    ensures Matching(log + [more], code, year) == Matching(log, code, year) + (if Fits(more, code, year) then 1 else 0)
  {
    assert (log + [more])[..|log|] == log;
  }

  // ---- the protocol's invariant ----

  predicate Same(i: Issue, code: string, year: nat) { i.code == code && i.year == year }

  /** Within one code and year numbers rise, and none exceeds the count it will be compared with. */
  predicate Rising(log: seq<Issue>) {
    && (forall i, j :: 0 <= i < j < |log| && Same(log[i], log[j].code, log[j].year) ==>
          log[i].sequence < log[j].sequence)
    && (forall i :: 0 <= i < |log| ==> log[i].sequence <= Matching(log, log[i].code, log[i].year))
  }

  /** Codes without '_': each number issued is one more than there were. */
  predicate Gapless(log: seq<Issue>) {
    forall i :: 0 <= i < |log| && '_' !in log[i].code ==>
      log[i].sequence == Matching(log[..i], log[i].code, log[i].year) + 1
  }

  /** A counted sequence beats every number issued for its code and year; without '_' it is the next one. */
  predicate Offers(log: seq<Issue>, tx: Tx) {
    tx.Counted? ==>
      && (forall i :: 0 <= i < |log| && Same(log[i], tx.code, tx.year) ==> log[i].sequence < tx.sequence)
      && tx.sequence <= Matching(log, tx.code, tx.year) + 1
      && ('_' !in tx.code ==> tx.sequence == Matching(log, tx.code, tx.year) + 1)
  }

  predicate Holds(hash: string -> int, l: Ledger, a: AppId, tx: Tx) {
    !tx.Reading? ==> LockId(hash, tx) in l.locks && l.locks[LockId(hash, tx)] == a
  }

  predicate TxFits(hash: string -> int, l: Ledger, a: AppId)
    requires a in l.txs
  {
    && a in l.numbers && l.numbers[a].None? && ValidCode(l.txs[a].code)
    && Holds(hash, l, a, l.txs[a]) && Offers(l.issued, l.txs[a])
  }

  predicate Protocol(hash: string -> int, l: Ledger) {
    && LogFits(l) && Rising(l.issued) && Gapless(l.issued)
    && (forall a :: a in l.txs ==> TxFits(hash, l, a))
  }

  lemma RisingAppend(log: seq<Issue>, more: Issue)
    requires Rising(log)
    requires forall i :: 0 <= i < |log| && Same(log[i], more.code, more.year) ==> log[i].sequence < more.sequence
    requires more.sequence <= Matching(log, more.code, more.year) + 1
    ensures Rising(log + [more])
  {
    var g := log + [more];
    forall i | 0 <= i < |g| ensures g[i].sequence <= Matching(g, g[i].code, g[i].year) {
      MatchingGrows(log, more, g[i].code, g[i].year);
    }
  }

  lemma GaplessAppend(log: seq<Issue>, more: Issue)
    requires Gapless(log)
    requires '_' !in more.code ==> more.sequence == Matching(log, more.code, more.year) + 1
    ensures Gapless(log + [more])
  {
    var g := log + [more];
    assert forall i :: 0 <= i <= |log| ==> g[..i] == log[..i];
  }

  lemma LogFitsAppend(l: Ledger, r: Ledger, issue: Issue)
    requires LogFits(l) && issue.app in l.numbers && l.numbers[issue.app].None? && ValidCode(issue.code)
    requires r.numbers == l.numbers[issue.app := Some(NumberOf(issue))] && r.issued == l.issued + [issue]
    ensures LogFits(r)
  {
    assert r.issued[|l.issued|] == issue;
    forall b | b in r.numbers && r.numbers[b].Some? ensures exists i :: 0 <= i < |r.issued| && r.issued[i].app == b {
      if b != issue.app {
        var i :| 0 <= i < |l.issued| && l.issued[i].app == b;
        assert r.issued[i].app == b;
      }
    }
  }

  /** Two transactions past the lock for the same code and year are the same transaction, whatever the hash. */
  lemma LockExcludes(hash: string -> int, l: Ledger, a: AppId, b: AppId)
    requires a in l.txs && b in l.txs && Holds(hash, l, a, l.txs[a]) && Holds(hash, l, b, l.txs[b])
    requires !l.txs[a].Reading? && !l.txs[b].Reading?
    requires l.txs[a].code == l.txs[b].code && l.txs[a].year == l.txs[b].year
    ensures a == b
  {
  }

  lemma OffersAfterIssue(log: seq<Issue>, issue: Issue, tx: Tx)
    requires Offers(log, tx) && !(tx.Counted? && Same(issue, tx.code, tx.year))
    ensures Offers(log + [issue], tx)
  {
    MatchingGrows(log, issue, tx.code, tx.year);
    if '_' !in tx.code && Fits(issue, tx.code, tx.year) {
      assert tx.code == issue.code;
    }
  }

  lemma ProtocolCommit(hash: string -> int, l: Ledger, a: AppId)
    requires Protocol(hash, l) && a in l.txs && l.txs[a].Counted?
    ensures Protocol(hash, Saved(l, a, l.txs[a]))
  {
    var tx, r := l.txs[a], Saved(l, a, l.txs[a]);
    var issue := Issue(a, tx.code, tx.year, tx.sequence);
    assert TxFits(hash, l, a);
    RisingAppend(l.issued, issue);
    GaplessAppend(l.issued, issue);
    LogFitsAppend(l, r, issue);
    forall b | b in r.txs ensures TxFits(hash, r, b) {
      assert TxFits(hash, l, b);
      if l.txs[b].Counted? && Same(issue, l.txs[b].code, l.txs[b].year) {
        LockExcludes(hash, l, a, b);
      }
      OffersAfterIssue(l.issued, issue, l.txs[b]);
    }
  }

  lemma ProtocolCount(hash: string -> int, l: Ledger, a: AppId)
    requires Protocol(hash, l) && a in l.txs && l.txs[a].Locked?
    ensures Protocol(hash, Act(hash, l, Count(a)))
  {
    var tx, r := l.txs[a], Act(hash, l, Count(a));
    assert TxFits(hash, l, a);
    CountIsMatching(l, tx.code, tx.year);
    forall b | b in r.txs ensures TxFits(hash, r, b) {
      if b != a { assert TxFits(hash, l, b); }
    }
  }

  lemma LogFitsRows(l: Ledger, r: Ledger)
    requires LogFits(l) && r.issued == l.issued
    requires forall a :: a in l.numbers && l.numbers[a].Some? ==> a in r.numbers && r.numbers[a] == l.numbers[a]
    requires forall a :: a in r.numbers && r.numbers[a].Some? ==> a in l.numbers
    requires forall a :: a in r.numbers && a in l.numbers ==> r.numbers[a] == l.numbers[a]
    ensures LogFits(r)
  {
  }

  lemma NoNumberInFlight(hash: string -> int, l: Ledger, a: AppId)
    requires Protocol(hash, l) && a in l.txs
    ensures a in l.numbers && l.numbers[a].None?
  {
    assert TxFits(hash, l, a);
  }

  lemma ProtocolKept(hash: string -> int, l: Ledger, r: Ledger)
    requires Protocol(hash, l) && LogFits(r)
    requires r.issued == l.issued && r.txs == l.txs && r.locks == l.locks
    requires forall a :: a in l.txs ==> a in r.numbers && r.numbers[a].None?
    ensures Protocol(hash, r)
  {
    forall b | b in r.txs ensures TxFits(hash, r, b) {
      assert TxFits(hash, l, b);
    }
  }

  /** A row that comes without a number. */
  lemma ProtocolAdd(hash: string -> int, l: Ledger, a: AppId)
    requires Protocol(hash, l) && a !in l.numbers
    ensures Protocol(hash, l.(numbers := l.numbers[a := None]))
  {
    forall b | b in l.txs ensures b in l.numbers && l.numbers[b].None? {
      NoNumberInFlight(hash, l, b);
    }
    LogFitsRows(l, l.(numbers := l.numbers[a := None]));
    ProtocolKept(hash, l, l.(numbers := l.numbers[a := None]));
  }

  /** A row that goes without one. */
  lemma ProtocolDrop(hash: string -> int, l: Ledger, a: AppId)
    requires Protocol(hash, l) && Free(l, a)
    ensures Protocol(hash, l.(numbers := l.numbers - {a}))
  {
    forall b | b in l.txs ensures b in l.numbers && l.numbers[b].None? {
      NoNumberInFlight(hash, l, b);
    }
    LogFitsRows(l, l.(numbers := l.numbers - {a}));
    ProtocolKept(hash, l, l.(numbers := l.numbers - {a}));
  }

  lemma ProtocolBegin(hash: string -> int, l: Ledger, m: Move)
    requires Protocol(hash, l) && m.Begin?
    ensures Protocol(hash, Act(hash, l, m))
  {
    var r := Act(hash, l, m);
    assert r.numbers == l.numbers && r.issued == l.issued && r.locks == l.locks;
    forall b | b in r.txs ensures TxFits(hash, r, b) {
      if b in l.txs { assert TxFits(hash, l, b); }
    }
  }

  lemma ProtocolLocks(hash: string -> int, l: Ledger, m: Move)
    requires Protocol(hash, l) && (m.TakeLock? || m.RollBack?)
    ensures Protocol(hash, Act(hash, l, m))
  {
    var r := Act(hash, l, m);
    assert r.issued == l.issued && r.numbers == l.numbers;
    forall b | b in r.txs ensures TxFits(hash, r, b) {
      assert TxFits(hash, l, b);
    }
  }

  lemma ProtocolStep(hash: string -> int, l: Ledger, m: Move)
    requires Protocol(hash, l)
    ensures Protocol(hash, Act(hash, l, m))
  {
    match m
    case Count(a) => if a in l.txs && l.txs[a].Locked? { ProtocolCount(hash, l, a); }
    case Commit(a) => if a in l.txs && l.txs[a].Counted? { ProtocolCommit(hash, l, a); }
    case TakeLock(_) => ProtocolLocks(hash, l, m);
    case RollBack(_) => ProtocolLocks(hash, l, m);
    case Begin(_, _, _) => ProtocolBegin(hash, l, m);
    case Add(a) => if a !in l.numbers { ProtocolAdd(hash, l, a); }
    case Drop(a) => if Free(l, a) { ProtocolDrop(hash, l, a); }
  }

  /** Over every interleaving, with rollbacks, deletions, code changes and colliding lock hashes. */
  lemma {:induction false} ProtocolHolds(hash: string -> int, ms: seq<Move>)
    ensures Protocol(hash, Play(hash, ms))
  {
    if ms != [] {
      ProtocolHolds(hash, ms[..|ms| - 1]);
      ProtocolStep(hash, Play(hash, ms[..|ms| - 1]), ms[|ms| - 1]);
    }
  }

  // ---- what that means for the numbers ----

  lemma LoggedNumbersDiffer(l: Ledger, a: AppId, b: AppId)
    requires LogFits(l) && Rising(l.issued)
    requires a in l.numbers && b in l.numbers && a != b && l.numbers[a].Some? && l.numbers[b].Some?
    ensures l.numbers[a] != l.numbers[b]
  {
    var i :| 0 <= i < |l.issued| && l.issued[i].app == a;
    var j :| 0 <= j < |l.issued| && l.issued[j].app == b;
    var x, y := l.issued[i], l.issued[j];
    if NumberOf(x) == NumberOf(y) {
      FormatInjective(x.code, x.year, x.sequence, y.code, y.year, y.sequence);
    }
  }

  /** No two applications ever hold the same number, so the save never meets the UNIQUE constraint. */
  lemma NumbersUnique(hash: string -> int, l: Ledger, a: AppId, b: AppId)
    requires Protocol(hash, l) && a in l.numbers && b in l.numbers && a != b && l.numbers[a].Some?
    ensures l.numbers[a] != l.numbers[b]
  {
    if l.numbers[b].Some? { LoggedNumbersDiffer(l, a, b); }
  }

  /** The sequence numbers issued for one code and year, in commit order. */
  function SequencesOf(log: seq<Issue>, code: string, year: nat): seq<nat> {
    if log == [] then []
    else
      var last := log[|log| - 1];
      SequencesOf(log[..|log| - 1], code, year) + (if Same(last, code, year) then [last.sequence] else [])
  }

  predicate Increasing(ns: seq<nat>) { forall i, j :: 0 <= i < j < |ns| ==> ns[i] < ns[j] }

  predicate CountsUp(ns: seq<nat>) { forall i :: 0 <= i < |ns| ==> ns[i] == i + 1 }

  lemma {:induction false} SequencesFromLog(log: seq<Issue>, code: string, year: nat)
    ensures forall n :: n in SequencesOf(log, code, year) ==>
      exists i :: 0 <= i < |log| && Same(log[i], code, year) && log[i].sequence == n
  {
    if log != [] {
      var k := |log| - 1;
      SequencesFromLog(log[..k], code, year);
      forall n | n in SequencesOf(log, code, year)
        ensures exists i :: 0 <= i < |log| && Same(log[i], code, year) && log[i].sequence == n
      {
        if n in SequencesOf(log[..k], code, year) {
          var i :| 0 <= i < k && Same(log[..k][i], code, year) && log[..k][i].sequence == n;
          assert Same(log[i], code, year) && log[i].sequence == n;
        } else {
          assert Same(log[k], code, year) && log[k].sequence == n;
        }
      }
    }
  }

  lemma {:induction false} RisingMeansIncreasing(log: seq<Issue>, code: string, year: nat)
    requires forall i, j :: 0 <= i < j < |log| && Same(log[i], log[j].code, log[j].year) ==>
      log[i].sequence < log[j].sequence
    ensures Increasing(SequencesOf(log, code, year))
  {
    if log != [] {
      var k := |log| - 1;
      RisingMeansIncreasing(log[..k], code, year);
      SequencesFromLog(log[..k], code, year);
      var ns := SequencesOf(log[..k], code, year);
      if Same(log[k], code, year) {
        forall j | 0 <= j < |ns| ensures ns[j] < log[k].sequence {
          assert ns[j] in ns;
          var i :| 0 <= i < k && Same(log[..k][i], code, year) && log[..k][i].sequence == ns[j];
          assert Same(log[i], log[k].code, log[k].year);
        }
      }
    }
  }

  lemma {:induction false} MatchingIsLength(log: seq<Issue>, code: string, year: nat)
    requires '_' !in code
    ensures Matching(log, code, year) == |SequencesOf(log, code, year)|
  {
    if log != [] {
      MatchingIsLength(log[..|log| - 1], code, year);
      var last := log[|log| - 1];
      if Fits(last, code, year) { assert last.code == code; }
    }
  }

  lemma {:induction false} GaplessCountsUp(log: seq<Issue>, code: string, year: nat)
    requires Gapless(log) && '_' !in code
    ensures CountsUp(SequencesOf(log, code, year))
  {
    if log != [] {
      var k := |log| - 1;
      var init := log[..k];
      assert forall i :: 0 <= i < k ==> init[..i] == log[..i];
      GaplessCountsUp(init, code, year);
      MatchingIsLength(init, code, year);
    }
  }

  /** Numbers of one code and year are assigned in strictly increasing order; without '_' they are 1, 2, 3, ... */
  lemma NumbersRise(hash: string -> int, ms: seq<Move>, code: string, year: nat)
    ensures Increasing(SequencesOf(Play(hash, ms).issued, code, year))
    ensures '_' !in code ==> CountsUp(SequencesOf(Play(hash, ms).issued, code, year))
  {
    ProtocolHolds(hash, ms);
    RisingMeansIncreasing(Play(hash, ms).issued, code, year);
    if '_' !in code { GaplessCountsUp(Play(hash, ms).issued, code, year); }
  }

  // ---- '_' is a wildcard to LIKE: it can open gaps ----

  /** The same code with every '_' made an 'A': another festival's code the pattern also matches. */
  function Filled(code: string): (r: string)
    ensures |r| == |code| && forall i :: 0 <= i < |code| ==> r[i] == if code[i] == '_' then 'A' else code[i]
  {
    seq(|code|, i requires 0 <= i < |code| => if code[i] == '_' then 'A' else code[i])
  }

  /** One undisturbed submission. */
  function Submission(a: AppId, code: string, year: nat): seq<Move> {
    [Begin(a, code, year), TakeLock(a), Count(a), Commit(a)]
  }

  function ActAll(hash: string -> int, l: Ledger, ms: seq<Move>): Ledger
    decreases |ms|
  {
    if ms == [] then l else ActAll(hash, Act(hash, l, ms[0]), ms[1..])
  }

  lemma {:induction false} PlayAppend(hash: string -> int, ms: seq<Move>, more: seq<Move>)
    ensures Play(hash, ms + more) == ActAll(hash, Play(hash, ms), more)
    decreases |more|
  {
    if more == [] {
      assert ms + more == ms;
    } else {
      assert (ms + [more[0]])[..|ms|] == ms;
      PlayAppend(hash, ms + [more[0]], more[1..]);
      assert ms + [more[0]] + more[1..] == ms + more;
    }
  }

  lemma SubmissionIssues(hash: string -> int, l: Ledger, a: AppId, code: string, year: nat)
    requires Free(l, a) && ValidCode(code) && l.txs == map[] && l.locks == map[]
    ensures var n := |NumberedApps(l.numbers, code, year)| + 1;
      var r := ActAll(hash, l, Submission(a, code, year));
      && r.issued == l.issued + [Issue(a, code, year, n)]
      && r.numbers == l.numbers[a := Some(Format(code, year, n))]
      && r.txs == map[] && r.locks == map[]
  {
    var l1 := Act(hash, l, Begin(a, code, year));
    var l2 := Act(hash, l1, TakeLock(a));
    var l3 := Act(hash, l2, Count(a));
    ActFour(hash, l, Begin(a, code, year), TakeLock(a), Count(a), Commit(a));
    assert l3.txs == map[a := Counted(code, year, |NumberedApps(l.numbers, code, year)| + 1)];
    assert l3.locks.Values == {a};
  }

  lemma ActFour(hash: string -> int, l: Ledger, m1: Move, m2: Move, m3: Move, m4: Move)
    ensures ActAll(hash, l, [m1, m2, m3, m4]) == Act(hash, Act(hash, Act(hash, Act(hash, l, m1), m2), m3), m4)
  {
    var ms := [m1, m2, m3, m4];
    assert ms[1..] == [m2, m3, m4];
    assert [m2, m3, m4][1..] == [m3, m4];
    assert [m3, m4][1..] == [m4];
    assert [m4][1..] == [];
    ActCons(hash, l, ms);
    ActCons(hash, Act(hash, l, m1), [m2, m3, m4]);
    ActCons(hash, Act(hash, Act(hash, l, m1), m2), [m3, m4]);
    ActCons(hash, Act(hash, Act(hash, Act(hash, l, m1), m2), m3), [m4]);
  }

  lemma ActCons(hash: string -> int, l: Ledger, ms: seq<Move>)
    requires ms != []
    ensures ActAll(hash, l, ms) == ActAll(hash, Act(hash, l, ms[0]), ms[1..])
  {
  }

  function GapRun(code: string, year: nat): seq<Move> {
    [Add(0), Add(1)] + Submission(0, Filled(code), year) + Submission(1, code, year)
  }

  /** The same code filled in is another code, and its number is counted. */
  lemma FilledIsCounted(code: string, year: nat)
    requires ValidCode(code) && '_' in code
    ensures Filled(code) != code && ValidCode(Filled(code))
    ensures Like(Pattern(code, year), Format(Filled(code), year, 1))
  {
    var i :| 0 <= i < |code| && code[i] == '_';
    assert Filled(code)[i] == 'A';
    LikeMeans(code, year, Filled(code), year, 1);
  }

  const TWO_ROWS := Ledger(map[0 := None, 1 := None], map[], map[], [])

  lemma AddTwo(hash: string -> int)
    ensures Play(hash, [Add(0), Add(1)]) == TWO_ROWS
  {
    var start := [Add(0), Add(1)];
    assert start[..1] == [Add(0)] && start[..1][..0] == [];
    assert Play(hash, start[..1]) == BLANK.(numbers := map[0 := None]);
  }

  /** The other festival's application has its number. */
  function OneNumbered(code: string, year: nat): Ledger {
    Ledger(map[0 := Some(Format(Filled(code), year, 1)), 1 := None], map[], map[], [Issue(0, Filled(code), year, 1)])
  }

  lemma FirstSubmission(hash: string -> int, code: string, year: nat)
    requires ValidCode(code) && '_' in code
    ensures ActAll(hash, TWO_ROWS, Submission(0, Filled(code), year)) == OneNumbered(code, year)
    ensures NumberedApps(OneNumbered(code, year).numbers, code, year) == {0}
  {
    FilledIsCounted(code, year);
    assert NumberedApps(TWO_ROWS.numbers, Filled(code), year) == {};
    SubmissionIssues(hash, TWO_ROWS, 0, Filled(code), year);
  }

  lemma GapRunPlays(hash: string -> int, code: string, year: nat)
    ensures Play(hash, GapRun(code, year)) ==
      ActAll(hash, ActAll(hash, TWO_ROWS, Submission(0, Filled(code), year)), Submission(1, code, year))
  {
    AddTwo(hash);
    PlayAppend(hash, [Add(0), Add(1)], Submission(0, Filled(code), year));
    PlayAppend(hash, [Add(0), Add(1)] + Submission(0, Filled(code), year), Submission(1, code, year));
  }

  /** A festival whose code the pattern matches numbers first; the counted code then starts at 2. */
  lemma GapArises(hash: string -> int, code: string, year: nat)
    requires ValidCode(code) && '_' in code
    ensures SequencesOf(Play(hash, GapRun(code, year)).issued, code, year) == [2]
  {
    FilledIsCounted(code, year);
    GapRunPlays(hash, code, year);
    FirstSubmission(hash, code, year);
    SubmissionIssues(hash, OneNumbered(code, year), 1, code, year);
    SequencesOfTwo(Issue(0, Filled(code), year, 1), Issue(1, code, year, 2), code, year);
  }

  lemma SequencesOfTwo(x: Issue, y: Issue, code: string, year: nat)
    requires !Same(x, code, year) && Same(y, code, year)
    ensures SequencesOf([x] + [y], code, year) == [y.sequence]
  {
    var log := [x] + [y];
    assert log[..1] == [x] && [x][..0] == [] && log[1] == y;
    assert SequencesOf([x], code, year) == [];
    assert SequencesOf(log, code, year) == SequencesOf(log[..1], code, year) + [y.sequence];
  }

  /** A code's numbers run 1, 2, 3, ... in every run exactly when it has no '_'. */
  lemma GapFreeExactly(hash: string -> int, code: string, year: nat)
    requires ValidCode(code)
    ensures (forall ms :: CountsUp(SequencesOf(Play(hash, ms).issued, code, year))) <==> '_' !in code
  {
    if '_' in code {
      GapArises(hash, code, year);
      var ns := SequencesOf(Play(hash, GapRun(code, year)).issued, code, year);
      assert ns[0] == 2;
      assert !CountsUp(ns);
    } else {
      forall ms ensures CountsUp(SequencesOf(Play(hash, ms).issued, code, year)) {
        NumbersRise(hash, ms, code, year);
      }
    }
  }
}
