/** The migration runner: every .sql file once, in filename order, each in its own transaction. */
module Migrations {
  import O = Ordering

  // ---- filename order ----

  /** The order of Array.prototype.sort on strings: character by character, a prefix first. */
  predicate Less(a: string, b: string) {
    if b == "" then false
    else if a == "" then true
    else if a[0] != b[0] then a[0] < b[0]
    else Less(a[1..], b[1..])
  }

  lemma {:induction false} LessTotal(a: string, b: string)
    ensures Less(a, b) || Less(b, a) || a == b
    ensures !(Less(a, b) && Less(b, a)) && (a == b ==> !Less(a, b))
  {
    if a != "" && b != "" && a[0] == b[0] {
      LessTotal(a[1..], b[1..]);
      assert a == [a[0]] + a[1..] && b == [b[0]] + b[1..];
    }
  }

  lemma {:induction false} LessTransitive(a: string, b: string, c: string)
    requires Less(a, b) && Less(b, c)
    ensures Less(a, c)
  {
    if a != "" && a[0] == b[0] && b[0] == c[0] {
      LessTransitive(a[1..], b[1..], c[1..]);
    }
  }

  /** They agree up to a place where the one ends, or has the smaller character. */
  predicate FirstDifference(a: string, b: string, k: nat) {
    && k <= |a| && k < |b| && (forall i :: 0 <= i < k ==> a[i] == b[i])
    && (k == |a| || a[k] < b[k])
  }

  lemma {:induction false} LessExactly(a: string, b: string)
    ensures Less(a, b) <==> exists k: nat :: FirstDifference(a, b, k)
  {
    if a != "" && b != "" && a[0] == b[0] {
      LessExactly(a[1..], b[1..]);
      if k: nat :| FirstDifference(a[1..], b[1..], k) {
        assert forall i :: 1 <= i < k + 1 ==> a[i] == a[1..][i - 1] && b[i] == b[1..][i - 1];
        assert FirstDifference(a, b, k + 1);
      }
      if k: nat :| FirstDifference(a, b, k) {
        assert FirstDifference(a[1..], b[1..], k - 1);
      }
    } else if Less(a, b) {
      assert FirstDifference(a, b, 0);
    }
  }

  predicate Sorted(files: seq<string>) {
    forall i, j :: 0 <= i < j < |files| ==> Less(files[i], files[j])
  }

  lemma LessOrders()
    ensures O.StrictOrder(Less)
  {
    forall a ensures !Less(a, a) { LessTotal(a, a); }
    forall a, b, c | Less(a, b) && Less(b, c) ensures Less(a, c) { LessTransitive(a, b, c); }
  }

  predicate IsSql(name: string) { |name| >= 4 && name[|name| - 4..] == ".sql" }

  lemma SqlExactly(name: string)
    ensures IsSql(name) <==> exists stem: string :: name == stem + ".sql"
  {
    if IsSql(name) { assert name == name[..|name| - 4] + ".sql"; }
    if stem: string :| name == stem + ".sql" { assert name[|name| - 4..] == ".sql"; }
  }

  function OnlySql(listing: seq<string>): seq<string> {
    if listing == [] then []
    else
      var init, last := OnlySql(listing[..|listing| - 1]), listing[|listing| - 1];
      if IsSql(last) then init + [last] else init
  }

  /** The .sql files of a directory, sorted; names in a directory are distinct. */
  function SqlFiles(listing: seq<string>): seq<string> { O.Sort(Less, OnlySql(listing)) }

  predicate DistinctNames(names: seq<string>) { forall i, j :: 0 <= i < j < |names| ==> names[i] != names[j] }

  lemma {:induction false} OnlySqlFits(listing: seq<string>)
    requires DistinctNames(listing)
    ensures DistinctNames(OnlySql(listing))
    ensures forall f :: f in OnlySql(listing) <==> f in listing && IsSql(f)
  {
    if listing != [] {
      var n := |listing| - 1;
      OnlySqlFits(listing[..n]);
      assert listing == listing[..n] + [listing[n]];
      assert listing[n] !in listing[..n];
      forall i | 0 <= i < |OnlySql(listing[..n])| ensures OnlySql(listing[..n])[i] != listing[n] {
        assert OnlySql(listing[..n])[i] in OnlySql(listing[..n]);
      }
    }
  }

  /** The files of a run are sorted, distinct, and exactly the .sql files of the directory. */
  lemma SqlFilesFit(listing: seq<string>)
    requires DistinctNames(listing)
    ensures Sorted(SqlFiles(listing))
    ensures forall f :: f in SqlFiles(listing) <==> f in listing && IsSql(f)
  {
    var files := OnlySql(listing);
    OnlySqlFits(listing);
    LessOrders();
    forall i, j | 0 <= i < j < |files| ensures Less(files[i], files[j]) || Less(files[j], files[i]) {
      LessTotal(files[i], files[j]);
    }
    O.SortSorts(Less, files);
    forall f ensures f in SqlFiles(listing) <==> f in files { O.SortMembers(Less, files, f); }
  }

  /** A sorted list without repetition is determined by its elements. */
  lemma SortedUnique(a: seq<string>, b: seq<string>)
    requires Sorted(a) && Sorted(b) && forall f :: f in a <==> f in b
    ensures a == b
  {
    LessOrders();
    O.SortedUnique(Less, a, b);
  }

  lemma TailMembers(a: seq<string>, f: string)
    requires a != [] && Sorted(a)
    ensures f in a[1..] <==> f in a && f != a[0]
  {
    LessOrders();
    O.TailMembers(Less, a, f);
  }

  // ---- the runs ----

  /** What becomes of one file's transaction: committed, failed and rolled back, or cut off by a crash. */
  datatype Fate = Commits | Fails | Crashes

  /** The database, and schema_migrations in the order of its inserts. */
  datatype State<!D> = State(db: D, applied: seq<string>)

  /** What committing a file does to the database. */
  type Effect<!D> = (D, string) -> D

  /** Every remaining file in turn, up to the first that does not commit. */
  function Run<D>(effect: Effect<D>, fate: string -> Fate, st: State<D>, files: seq<string>): State<D>
    decreases |files|
  {
    if files == [] then st
    else if files[0] in st.applied then Run(effect, fate, st, files[1..])
    else if fate(files[0]) != Commits then st
    else Run(effect, fate, State(effect(st.db, files[0]), st.applied + [files[0]]), files[1..])
  }

  /** The database after these files and no others, each exactly once, in this order. */
  function Fold<D>(effect: Effect<D>, db: D, files: seq<string>): D {
    if files == [] then db else effect(Fold(effect, db, files[..|files| - 1]), files[|files| - 1])
  }

  /** Each file took effect at most once, and nothing else did. */
  predicate Clean<D(==)>(effect: Effect<D>, db0: D, st: State<D>) {
    DistinctNames(st.applied) && st.db == Fold(effect, db0, st.applied)
  }

  lemma {:induction false} RunClean<D>(effect: Effect<D>, fate: string -> Fate, db0: D, st: State<D>,
          files: seq<string>)
    requires Clean(effect, db0, st)
    ensures Clean(effect, db0, Run(effect, fate, st, files))
    decreases |files|
  {
    if files != [] {
      if files[0] in st.applied {
        RunClean(effect, fate, db0, st, files[1..]);
      } else if fate(files[0]) == Commits {
        var next := State(effect(st.db, files[0]), st.applied + [files[0]]);
        assert next.applied[..|st.applied|] == st.applied;
        RunClean(effect, fate, db0, next, files[1..]);
      }
    }
  }

  /** Nothing is forgotten, and only files that committed are added. */
  lemma {:induction false} RunApplied<D>(effect: Effect<D>, fate: string -> Fate, st: State<D>, files: seq<string>,
                                         f: string)
    ensures f in st.applied ==> f in Run(effect, fate, st, files).applied
    ensures f in Run(effect, fate, st, files).applied ==> f in st.applied || (f in files && fate(f) == Commits)
    decreases |files|
  {
    if files != [] {
      assert files == [files[0]] + files[1..];
      if files[0] in st.applied {
        RunApplied(effect, fate, st, files[1..], f);
      } else if fate(files[0]) == Commits {
        RunApplied(effect, fate, State(effect(st.db, files[0]), st.applied + [files[0]]), files[1..], f);
      }
    }
  }

  /** One run: the directory as it is then, and the fate of each file. */
  datatype Attempt = Attempt(listing: seq<string>, fate: string -> Fate)

  function Runs<D>(effect: Effect<D>, db0: D, attempts: seq<Attempt>): State<D> {
    if attempts == [] then State(db0, [])
    else
      var last := attempts[|attempts| - 1];
      Run(effect, last.fate, Runs(effect, db0, attempts[..|attempts| - 1]), SqlFiles(last.listing))
  }

  /** Across any runs, failing or crashing anywhere: at most once each, and failed files leave no trace. */
  lemma {:induction false} RunsClean<D>(effect: Effect<D>, db0: D, attempts: seq<Attempt>)
    ensures Clean(effect, db0, Runs(effect, db0, attempts))
  {
    if attempts != [] {
      RunsClean(effect, db0, attempts[..|attempts| - 1]);
      var last := attempts[|attempts| - 1];
      RunClean(effect, last.fate, db0, Runs(effect, db0, attempts[..|attempts| - 1]), SqlFiles(last.listing));
    }
  }

  /** The files not applied yet, in order. */
  function Missing(files: seq<string>, applied: seq<string>): seq<string> {
    if files == [] then []
    else if files[0] in applied then Missing(files[1..], applied)
    else [files[0]] + Missing(files[1..], applied)
  }

  /** A run that is not cut off applies exactly what was missing, in filename order. */
  lemma {:induction false} FullRun<D>(effect: Effect<D>, fate: string -> Fate, st: State<D>, files: seq<string>)
    requires Sorted(files) && forall f :: f in files ==> fate(f) == Commits
    ensures Run(effect, fate, st, files).applied == st.applied + Missing(files, st.applied)
    decreases |files|
  {
    if files != [] {
      var tail := files[1..];
      assert files == [files[0]] + tail;
      if files[0] in st.applied {
        FullRun(effect, fate, st, tail);
      } else {
        var next := State(effect(st.db, files[0]), st.applied + [files[0]]);
        FullRun(effect, fate, next, tail);
        forall f | f in tail ensures f != files[0] {
          TailMembers(files, f);
        }
        MissingIgnores(tail, st.applied, files[0]);
      }
    }
  }

  lemma {:induction false} MissingIgnores(files: seq<string>, applied: seq<string>, f: string)
    requires f !in files
    ensures Missing(files, applied + [f]) == Missing(files, applied)
  {
    if files != [] { MissingIgnores(files[1..], applied, f); }
  }

  lemma {:induction false} MissingNone(files: seq<string>, applied: seq<string>)
    requires forall f :: f in files ==> f !in applied
    ensures Missing(files, applied) == files
  {
    if files != [] {
      assert files == [files[0]] + files[1..];
      MissingNone(files[1..], applied);
    }
  }

  lemma {:induction false} MissingSkips(done: seq<string>, rest: seq<string>, applied: seq<string>)
    requires forall f :: f in done ==> f in applied
    ensures Missing(done + rest, applied) == Missing(rest, applied)
  {
    if done == [] {
      assert done + rest == rest;
    } else {
      assert done[0] in done;
      assert (done + rest)[1..] == done[1..] + rest;
      MissingSkips(done[1..], rest, applied);
    }
  }

  lemma {:induction false} RunSkips<D>(effect: Effect<D>, fate: string -> Fate, st: State<D>, done: seq<string>,
          rest: seq<string>)
    requires forall f :: f in done ==> f in st.applied
    ensures Run(effect, fate, st, done + rest) == Run(effect, fate, st, rest)
  {
    if done == [] {
      assert done + rest == rest;
    } else {
      assert done[0] in done;
      assert (done + rest)[1..] == done[1..] + rest;
      RunSkips(effect, fate, st, done[1..], rest);
    }
  }

  lemma {:induction false} PrefixGrows<D>(effect: Effect<D>, fate: string -> Fate, st: State<D>, files: seq<string>,
          n: nat)
    requires Sorted(files) && n <= |files| && st.applied == files[..n]
    ensures Run(effect, fate, st, files[n..]).applied <= files
    decreases |files| - n
  {
    if n < |files| {
      assert files[n] !in st.applied by {
        forall i | 0 <= i < n ensures files[i] != files[n] { LessTotal(files[i], files[n]); }
      }
      assert files[n..][0] == files[n] && files[n..][1..] == files[n + 1..];
      if fate(files[n]) == Commits {
        PrefixGrows(effect, fate, State(effect(st.db, files[n]), files[..n + 1]), files, n + 1);
        assert files[..n] + [files[n]] == files[..n + 1];
      }
    }
  }

  /** Any run from a prefix ends at a prefix. */
  lemma PrefixKept<D>(effect: Effect<D>, fate: string -> Fate, st: State<D>, files: seq<string>)
    requires Sorted(files) && st.applied <= files
    ensures Run(effect, fate, st, files).applied <= files
  {
    var n := |st.applied|;
    assert files == st.applied + files[n..];
    RunSkips(effect, fate, st, st.applied, files[n..]);
    PrefixGrows(effect, fate, st, files, n);
  }

  // ---- directories that only grow at the end ----

  /** Every file that is new sorts after every file that was there. */
  predicate GrowsAtEnd(before: seq<string>, after: seq<string>) {
    && (forall f :: f in before ==> f in after)
    && (forall f, g :: f in before && g in after && g !in before ==> Less(f, g))
  }

  lemma {:induction false} Remaining(after: seq<string>, before: seq<string>)
    requires Sorted(after)
    ensures Sorted(Missing(after, before))
    ensures forall f :: f in Missing(after, before) <==> f in after && f !in before
  {
    if after != [] {
      Remaining(after[1..], before);
      assert after == [after[0]] + after[1..];
      var rest := Missing(after[1..], before);
      forall i | 0 <= i < |rest| ensures Less(after[0], rest[i]) {
        assert rest[i] in rest;
        assert rest[i] in after[1..];
        var j :| 0 <= j < |after[1..]| && after[1..][j] == rest[i];
        assert after[j + 1] == rest[i];
      }
    }
  }

  /** If added files always sort last, the old list is a prefix of the new one - and only then. */
  lemma PrefixExactly(before: seq<string>, after: seq<string>)
    requires Sorted(before) && Sorted(after)
    ensures GrowsAtEnd(before, after) <==> before <= after
  {
    if before <= after {
      assert forall j :: 0 <= j < |before| ==> after[j] == before[j] && before[j] in before;
      forall f, g | f in before && g in after && g !in before ensures Less(f, g) {
        var i :| 0 <= i < |before| && before[i] == f;
        var j :| 0 <= j < |after| && after[j] == g;
        assert after[i] == f;
      }
    }
    if GrowsAtEnd(before, after) {
      var rest := Missing(after, before);
      Remaining(after, before);
      assert Sorted(before + rest) by {
        forall i, j | 0 <= i < j < |before + rest| ensures Less((before + rest)[i], (before + rest)[j]) {
          if i < |before| <= j { assert before[i] in before && rest[j - |before|] in rest; }
        }
      }
      SortedUnique(before + rest, after);
    }
  }

  /** Each directory has the files of the one before it, and new ones only after them. */
  predicate Growing(attempts: seq<Attempt>) {
    && (forall i :: 0 <= i < |attempts| ==> DistinctNames(attempts[i].listing))
    && (forall i :: 0 < i < |attempts| ==> GrowsAtEnd(SqlFiles(attempts[i - 1].listing), SqlFiles(attempts[i].listing)))
  }

  /** Then the applied files are always a prefix of the sorted ones. */
  lemma {:induction false} AppliedIsPrefix<D>(effect: Effect<D>, db0: D, attempts: seq<Attempt>)
    requires attempts != [] && Growing(attempts)
    ensures Runs(effect, db0, attempts).applied <= SqlFiles(attempts[|attempts| - 1].listing)
  {
    var n := |attempts| - 1;
    var last, init := attempts[n], attempts[..n];
    var st, files := Runs(effect, db0, init), SqlFiles(last.listing);
    SqlFilesFit(last.listing);
    if n > 0 {
      assert forall i :: 0 <= i < n ==> init[i] == attempts[i];
      AppliedIsPrefix(effect, db0, init);
      SqlFilesFit(attempts[n - 1].listing);
      PrefixExactly(SqlFiles(attempts[n - 1].listing), files);
    }
    PrefixKept(effect, last.fate, st, files);
  }

  /** A single undisturbed run. */
  lemma CleanRun<D>(effect: Effect<D>, fate: string -> Fate, db0: D, files: seq<string>)
    requires Sorted(files) && forall f :: f in files ==> fate(f) == Commits
    ensures Run(effect, fate, State(db0, []), files) == State(Fold(effect, db0, files), files)
  {
    FullRun(effect, fate, State(db0, []), files);
    MissingNone(files, []);
    assert [] + files == files;
    RunClean(effect, fate, db0, State(db0, []), files);
  }

  /** What was applied, completed by what is missing, is in filename order exactly if it was a prefix. */
  lemma CompletedExactly(files: seq<string>, applied: seq<string>)
    requires Sorted(files)
    ensures applied + Missing(files, applied) == files <==> applied <= files
  {
    if applied <= files {
      var rest := files[|applied|..];
      assert files == applied + rest;
      MissingSkips(applied, rest, applied);
      forall f | f in rest ensures f !in applied {
        var j :| 0 <= j < |rest| && rest[j] == f;
        forall i | 0 <= i < |applied| ensures applied[i] != f {
          LessTotal(files[i], files[|applied| + j]);
        }
      }
      MissingNone(rest, applied);
    }
  }

  /** The last of several runs, not cut off: whatever was missing is applied on top of what was there. */
  lemma Resumed<D>(effect: Effect<D>, db0: D, attempts: seq<Attempt>, last: Attempt)
    requires DistinctNames(last.listing)
    requires forall f :: f in SqlFiles(last.listing) ==> last.fate(f) == Commits
    ensures var before := Runs(effect, db0, attempts).applied;
      var files := SqlFiles(last.listing);
      var all := before + Missing(files, before);
      Runs(effect, db0, attempts + [last]) == State(Fold(effect, db0, all), all)
  {
    var st, files := Runs(effect, db0, attempts), SqlFiles(last.listing);
    SqlFilesFit(last.listing);
    FullRun(effect, last.fate, st, files);
    RunsClean(effect, db0, attempts + [last]);
    assert (attempts + [last])[..|attempts|] == attempts;
  }

  /**
   * Interrupted runs followed by one that is not leave the same database, and
   * the same record of it, as a single undisturbed run - exactly when what was
   * applied before is a prefix of the final directory's sorted files.
   */
  lemma ResumedExactly<D>(effect: Effect<D>, db0: D, attempts: seq<Attempt>, last: Attempt)
    requires DistinctNames(last.listing)
    requires forall f :: f in SqlFiles(last.listing) ==> last.fate(f) == Commits
    ensures Runs(effect, db0, attempts + [last]) == Run(effect, last.fate, State(db0, []), SqlFiles(last.listing))
      <==> Runs(effect, db0, attempts).applied <= SqlFiles(last.listing)
  {
    var files := SqlFiles(last.listing);
    SqlFilesFit(last.listing);
    Resumed(effect, db0, attempts, last);
    CleanRun(effect, last.fate, db0, files);
    CompletedExactly(files, Runs(effect, db0, attempts).applied);
  }

  lemma OneFile(f: string)
    requires IsSql(f)
    ensures SqlFiles([f]) == [f]
  {
    SqlFilesFit([f]);
    SortedUnique(SqlFiles([f]), [f]);
  }

  lemma TwoFiles(a: string, b: string)
    requires IsSql(a) && IsSql(b) && Less(a, b)
    ensures SqlFiles([a, b]) == [a, b]
  {
    LessTotal(a, b);
    SqlFilesFit([a, b]);
    SortedUnique(SqlFiles([a, b]), [a, b]);
  }

  /** A file added before one that has been applied: the resumed database is not the clean one's, for any two files. */
  lemma LateFile<D>(effect: Effect<D>, db0: D, a: string, b: string) returns (first: Attempt, last: Attempt)
    requires IsSql(a) && IsSql(b) && Less(a, b)
    ensures DistinctNames(last.listing) && forall f :: last.fate(f) == Commits
    ensures Runs(effect, db0, [first] + [last]) == State(Fold(effect, db0, [b, a]), [b, a])
    ensures Run(effect, last.fate, State(db0, []), SqlFiles(last.listing)) == State(Fold(effect, db0, [a, b]), [a, b])
  {
    first, last := Attempt([b], f => Commits), Attempt([a, b], f => Commits);
    OneFile(b);
    TwoFiles(a, b);
    LessTotal(a, b);
    CleanRun(effect, last.fate, db0, [a, b]);
    FirstRun(effect, db0, b);
    Resumed(effect, db0, [first], last);
    MissingFirst(a, b);
  }

  lemma MissingFirst(a: string, b: string)
    requires a != b
    ensures [b] + Missing([a, b], [b]) == [b, a]
  {
    assert [a, b][1..] == [b] && [b][1..] == [];
    assert Missing([b], [b]) == Missing([], [b]) == [];
    assert [a] + [] == [a];
  }

  lemma FirstRun<D>(effect: Effect<D>, db0: D, f: string)
    requires IsSql(f)
    ensures Runs(effect, db0, [Attempt([f], g => Commits)]).applied == [f]
  {
    OneFile(f);
    CleanRun(effect, g => Commits, db0, [f]);
    assert [Attempt([f], g => Commits)][..0] == [];
  }

  /** With directories that only grow at the end, resuming always comes to the clean run. */
  lemma ResumedIsClean<D>(effect: Effect<D>, db0: D, attempts: seq<Attempt>, last: Attempt)
    requires Growing(attempts + [last])
    requires forall f :: f in SqlFiles(last.listing) ==> last.fate(f) == Commits
    ensures var files := SqlFiles(last.listing);
      Runs(effect, db0, attempts + [last]) == State(Fold(effect, db0, files), files)
  {
    var all, n := attempts + [last], |attempts|;
    assert all[n] == last;
    SqlFilesFit(last.listing);
    BeforeIsPrefix(effect, db0, attempts, last);
    Resumed(effect, db0, attempts, last);
    CompletedExactly(SqlFiles(last.listing), Runs(effect, db0, attempts).applied);
  }

  lemma BeforeIsPrefix<D>(effect: Effect<D>, db0: D, attempts: seq<Attempt>, last: Attempt)
    requires Growing(attempts + [last])
    ensures Runs(effect, db0, attempts).applied <= SqlFiles(last.listing)
  {
    var all, n := attempts + [last], |attempts|;
    if n > 0 {
      assert forall i :: 0 <= i < n ==> all[i] == attempts[i];
      assert all[n] == last;
      AppliedIsPrefix(effect, db0, attempts);
      SqlFilesFit(attempts[n - 1].listing);
      SqlFilesFit(last.listing);
      assert GrowsAtEnd(SqlFiles(all[n - 1].listing), SqlFiles(all[n].listing));
      PrefixExactly(SqlFiles(attempts[n - 1].listing), SqlFiles(last.listing));
    }
  }

  // ---- the runner ----

  lemma RunHead<D>(effect: Effect<D>, fate: string -> Fate, st: State<D>, files: seq<string>, i: nat)
    requires i < |files|
    ensures Run(effect, fate, st, files[i..]) ==
      if files[i] in st.applied then Run(effect, fate, st, files[i + 1..])
      else if fate(files[i]) != Commits then st
      else Run(effect, fate, State(effect(st.db, files[i]), st.applied + [files[i]]), files[i + 1..])
  {
    assert files[i..][0] == files[i] && files[i..][1..] == files[i + 1..];
  }

  /** Of the files gone through all are applied, on top of those known at the start. */
  ghost predicate Through(known: seq<string>, applied: seq<string>, done: seq<string>) {
    && (forall f :: f in known ==> f in applied)
    && (forall f :: f in applied ==> f in known || f in done)
    && (forall f :: f in done ==> f in applied)
  }

  lemma ThroughNext(known: seq<string>, applied: seq<string>, files: seq<string>, i: nat)
    requires i < |files| && Through(known, applied, files[..i])
    ensures files[i] in known ==> Through(known, applied, files[..i + 1])
    ensures Through(known, applied + [files[i]], files[..i + 1])
  {
    assert files[..i + 1] == files[..i] + [files[i]];
  }

  class Runner<!D> {
    var db: D
    var applied: seq<string>

    ghost function Snapshot(): State<D>
      reads this
    {
      State(db, applied)
    }

    constructor (db0: D)
      ensures Snapshot() == State(db0, [])
    {
      db, applied := db0, [];
    }

    /** The remaining files in turn, up to the first that does not commit. */
    method ApplyAll(effect: Effect<D>, fate: string -> Fate, files: seq<string>) returns (finished: bool)
      requires Sorted(files)
      modifies this
      ensures Snapshot() == Run(effect, fate, old(Snapshot()), files)
      ensures finished <==> forall f :: f in files ==> f in applied
    {
      var known := applied;
      var i := 0;
      assert files[0..] == files;
      while i < |files|
        invariant i <= |files|
        invariant Run(effect, fate, old(Snapshot()), files) == Run(effect, fate, Snapshot(), files[i..])
        invariant Through(known, applied, files[..i])
      {
        RunHead(effect, fate, Snapshot(), files, i);
        ThroughNext(known, applied, files, i);
        NotBefore(files, i);
        if files[i] in known {
          i := i + 1;
          continue;
        }
        if fate(files[i]) != Commits {
          assert files[i] in files && files[i] !in applied;
          return false;
        }
        db := effect(db, files[i]);
        applied := applied + [files[i]];
        i := i + 1;
      }
      assert files[..i] == files;
      return true;
    }

    /** One run of migrate.js; finished tells whether it printed its last line. */
    method RunAll(effect: Effect<D>, fate: string -> Fate, listing: seq<string>) returns (finished: bool)
      requires DistinctNames(listing)
      modifies this
      ensures Snapshot() == Run(effect, fate, old(Snapshot()), SqlFiles(listing))
      ensures finished <==> forall f :: f in SqlFiles(listing) ==> f in applied
    {
      SqlFilesFit(listing);
      finished := ApplyAll(effect, fate, SqlFiles(listing));
    }
  }

  lemma NotBefore(files: seq<string>, i: nat)
    requires Sorted(files) && i < |files|
    ensures files[i] !in files[..i]
  {
    forall j | 0 <= j < i ensures files[j] != files[i] { LessTotal(files[j], files[i]); }
  }
}
