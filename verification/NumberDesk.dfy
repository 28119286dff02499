/** The submission transaction's statements over the shared tables, as each connection issues them. */
module NumberDesk {
  import opened Wrappers
  import opened ApplicationNumbers
  import N = NumberLedger

  class Desk {
    var numbers: map<N.AppId, Option<string>>
    var txs: map<N.AppId, N.Tx>
    var locks: map<int, N.AppId>
    ghost var issued: seq<N.Issue>

    ghost function Snapshot(): N.Ledger
      reads this
    {
      N.Ledger(numbers, txs, locks, issued)
    }

    constructor ()
      ensures Snapshot() == N.BLANK
    {
      numbers, txs, locks, issued := map[], map[], map[], [];
    }

    method Insert(hash: string -> int, a: N.AppId)
      modifies this
      ensures Snapshot() == N.Act(hash, old(Snapshot()), N.Add(a))
    {
      if a !in numbers { numbers := numbers[a := None]; }
    }

    method Delete(hash: string -> int, a: N.AppId)
      modifies this
      ensures Snapshot() == N.Act(hash, old(Snapshot()), N.Drop(a))
    {
      if a in numbers && numbers[a].None? && a !in txs { numbers := numbers - {a}; }
    }

    method Begin(hash: string -> int, a: N.AppId, code: string, year: nat)
      modifies this
      ensures Snapshot() == N.Act(hash, old(Snapshot()), N.Begin(a, code, year))
    {
      if a in numbers && numbers[a].None? && a !in txs && ValidCode(code) {
        txs := txs[a := N.Reading(code, year)];
      }
    }

    /** pg_advisory_xact_lock(hashtext(name)): taken if free, else the call keeps waiting. */
    method TakeLock(hash: string -> int, a: N.AppId) returns (taken: bool)
      modifies this
      ensures Snapshot() == N.Act(hash, old(Snapshot()), N.TakeLock(a))
      ensures taken <==> old(txs) != txs
    {
      if a !in txs || !txs[a].Reading? { return false; }
      var key := hash(N.LockName(txs[a].code, txs[a].year));
      if key in locks { return false; }
      txs := txs[a := N.Locked(txs[a].code, txs[a].year)];
      locks := locks[key := a];
      return true;
    }

    /** COUNT(*) over the rows, one row at a time. */
    method CountNumbers(code: string, year: nat) returns (count: nat)
      ensures count == |N.NumberedApps(numbers, code, year)|
    {
      count := 0;
      var todo := numbers.Keys;
      ghost var seen := {};
      while todo != {}
        invariant todo <= numbers.Keys
        invariant seen == set a | a in numbers.Keys - todo && N.Numbered(numbers[a], code, year)
        invariant count == |seen|
        decreases todo
      {
        var a :| a in todo;
        todo := todo - {a};
        if N.Numbered(numbers[a], code, year) {
          count := count + 1;
          seen := seen + {a};
        }
      }
      assert seen == N.NumberedApps(numbers, code, year);
    }

    method Count(hash: string -> int, a: N.AppId)
      modifies this
      ensures Snapshot() == N.Act(hash, old(Snapshot()), N.Count(a))
    {
      if a in txs && txs[a].Locked? {
        var count := CountNumbers(txs[a].code, txs[a].year);
        txs := txs[a := N.Counted(txs[a].code, txs[a].year, count + 1)];
      }
    }

    /** The transaction and its lock go together. */
    method Finish(a: N.AppId)
      modifies this`txs, this`locks
      ensures Snapshot() == N.Release(old(Snapshot()), a)
    {
      txs := txs - {a};
      locks := map k | k in locks && locks[k] != a :: locks[k];
    }

    method Commit(hash: string -> int, a: N.AppId)
      modifies this
      ensures Snapshot() == N.Act(hash, old(Snapshot()), N.Commit(a))
    {
      if a in txs && txs[a].Counted? {
        var tx := txs[a];
        numbers := numbers[a := Some(Format(tx.code, tx.year, tx.sequence))];
        issued := issued + [N.Issue(a, tx.code, tx.year, tx.sequence)];
        Finish(a);
      }
    }

    method RollBack(hash: string -> int, a: N.AppId)
      modifies this
      ensures Snapshot() == N.Act(hash, old(Snapshot()), N.RollBack(a))
    {
      Finish(a);
    }
  }
}
