/** Station decisions across a run: none that counts is stale. */
module Decisions {
  import opened Wrappers
  import opened Casework
  import opened Lifecycle

  // ---- no stale approvals ----

  /** Somewhere in the run, station st's decision x went through. */
  ghost predicate DecidedIn(cfg: Config, d: Dossier, es: seq<Event>, st: StationId, x: Decision) {
    exists k :: 0 <= k < |es| && DecidesAt(cfg, d, es, k, st, x)
  }

  predicate DecidesAt(cfg: Config, d: Dossier, es: seq<Event>, k: nat, st: StationId, x: Decision)
    requires k < |es|
  {
    es[k].op.OpDecide? && es[k].op.station == st && es[k].op.verdict == x && Succeeds(cfg, At(cfg, d, es, k), es[k])
  }

  /** What one call may do to the approval rows. */
  lemma ApprovalsStep(cfg: Config, d: Dossier, e: Event)
    ensures d.approvals.Keys <= Step(cfg, d, e).approvals.Keys
    ensures forall st :: st in Step(cfg, d, e).approvals ==>
      var x := Step(cfg, d, e).approvals[st].decision;
      x == Pending || (st in d.approvals && d.approvals[st].decision == x)
      || (e.op.OpDecide? && e.op.station == st && e.op.verdict == x && Succeeds(cfg, d, e))
  {
    if !e.op.OpSubmit? && !e.op.OpDecide? { OthersLeaveRows(cfg, d, e); }
  }

  lemma OthersLeaveRows(cfg: Config, d: Dossier, e: Event)
    requires !e.op.OpSubmit? && !e.op.OpDecide?
    ensures Step(cfg, d, e).approvals == d.approvals
  {
  }

  /** From a state where every row is pending, each decision that shows was made since. */
  lemma {:induction false} DecidedSince(cfg: Config, d: Dossier, es: seq<Event>)
    requires EveryRow(d.approvals, Pending)
    ensures d.approvals.Keys <= Run(cfg, d, es).approvals.Keys
    ensures forall st :: st in Run(cfg, d, es).approvals && Run(cfg, d, es).approvals[st].decision != Pending ==>
      DecidedIn(cfg, d, es, st, Run(cfg, d, es).approvals[st].decision)
  {
    if es != [] {
      var n := |es| - 1;
      var init := es[..n];
      var before, after := Run(cfg, d, init), Run(cfg, d, es);
      DecidedSince(cfg, d, init);
      ApprovalsStep(cfg, before, es[n]);
      forall st | st in after.approvals && after.approvals[st].decision != Pending
        ensures DecidedIn(cfg, d, es, st, after.approvals[st].decision)
      {
        var x := after.approvals[st].decision;
        if st in before.approvals && before.approvals[st].decision == x {
          var k :| 0 <= k < |init| && DecidesAt(cfg, d, init, k, st, x);
          assert init[..k] == es[..k];
          assert DecidesAt(cfg, d, es, k, st, x);
        } else {
          assert DecidesAt(cfg, d, es, n, st, x);
        }
      }
    }
  }

  lemma SubmitSeeds(cfg: Config, d: Dossier, e: Event)
    requires e.op.OpSubmit? && Succeeds(cfg, d, e)
    ensures Confirmed(d) <= Step(cfg, d, e).approvals.Keys
    ensures EveryRow(Step(cfg, d, e).approvals, Pending)
  {
    assert Confirmed(After(d, e.wait)) == Confirmed(d);
  }

  lemma DecidesLater(cfg: Config, d: Dossier, es: seq<Event>, i: nat, j: nat, st: StationId, x: Decision)
    requires i <= |es| && i + j < |es|
    requires DecidesAt(cfg, At(cfg, d, es, i), es[i..], j, st, x)
    ensures DecidesAt(cfg, d, es, i + j, st, x)
  {
    assert es[..i + j][..i] == es[..i] && es[..i + j][i..] == es[i..][..j];
    RunSplit(cfg, d, es[..i + j], i);
  }

  /**
   * Whenever an application is APPROVED, each of its rows was approved after
   * its i-th event, a submission - and there is a row for every station that
   * was confirmed on the route then active.
   */
  lemma NoStaleApprovals(cfg: Config, d: Dossier, es: seq<Event>, i: nat)
    requires Opened(d) && i < |es|
    requires es[i].op.OpSubmit? && Succeeds(cfg, At(cfg, d, es, i), es[i])
    requires Run(cfg, d, es).status == Status.Approved
    ensures Confirmed(At(cfg, d, es, i)) <= Run(cfg, d, es).approvals.Keys
    ensures forall st :: st in Run(cfg, d, es).approvals ==>
      exists k :: i < k < |es| && DecidesAt(cfg, d, es, k, st, Decision.Approved)
  {
    var mid, last, rest := At(cfg, d, es, i + 1), Run(cfg, d, es), es[i + 1..];
    RunSplit(cfg, d, es, i + 1);
    RunNext(cfg, d, es, i);
    SubmitSeeds(cfg, At(cfg, d, es, i), es[i]);
    DecidedSince(cfg, mid, rest);
    AllApproved(cfg, d, es);
    forall st | st in last.approvals
      ensures exists k :: i < k < |es| && DecidesAt(cfg, d, es, k, st, Decision.Approved)
    {
      assert DecidedIn(cfg, mid, rest, st, last.approvals[st].decision);
      var j :| 0 <= j < |rest| && DecidesAt(cfg, mid, rest, j, st, Decision.Approved);
      DecidesLater(cfg, d, es, i + 1, j, st, Decision.Approved);
    }
  }

  lemma AllApproved(cfg: Config, d: Dossier, es: seq<Event>)
    requires Opened(d) && Run(cfg, d, es).status == Status.Approved
    ensures EveryRow(Run(cfg, d, es).approvals, Decision.Approved)
  {
    SoundOpen(d);
    SoundRun(cfg, d, es);
  }
}
