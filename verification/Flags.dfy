/**
 What raises and lowers the flags of a pool over its steps (pkg/pool/pool.go), and what the jobs it emits carry.
 */
module Flags {
  import opened Collections
  import opened GoMath
  import opened PoolState
  import opened Jobs
  import opened Accounting
  import opened PoolOps
  import opened Ownership
  import opened ReSync
  import opened Runs
  import opened Safety

  /** What one step does to the flags, and to the fields that never change. */
  lemma FlagStep(w: World, e: Event, w': World)
    requires Step(w, e, w')
    ensures w'.pool.nodeName == w.pool.nodeName && w'.pool.capacity == w.pool.capacity && w'.pool.isPD == w.pool.isPD
    ensures e.Complete? ==> w'.pool.reSyncRequired == (w.pool.reSyncRequired || !e.didSucceed)
    ensures e.ReSyncDone? ==> !w'.pool.reSyncRequired
    ensures !e.Complete? && !e.ReSyncDone? ==> w'.pool.reSyncRequired == w.pool.reSyncRequired
    ensures e.Complete? && w.pool.isPD ==> w'.pool.prefixAvailable == e.prefixAvailable
    ensures !e.Complete? || !w.pool.isPD ==> w'.pool.prefixAvailable == w.pool.prefixAvailable
  {
    hide AssignStep, ReconcileStep, UpstreamOK, CreatedOK, UndeletedOK, AppendAll, Purge, Remove, UpstreamResources,
         AddGroups, Unit, Freed;
    match e
    case Assign(requester, outcome) => AssignFlags(w.pool, requester, w'.pool, outcome);
    case Free(requester, resourceID) => FreedFrame(w.pool, requester, resourceID, w.now);
    case Reconcile(job) => ReconcileFrame(w.pool, w'.pool, job);
    case ReSyncDone(k, upstream) => ReSyncFlags(w.pool, upstream);
    case _ =>
  }

  lemma AssignFlags(s: Pool, requester: string, s': Pool, out: Assignment)
    requires AssignStep(s, requester, s', out)
    ensures s' == s.(used := s'.used, warm := s'.warm)
  {
    hide HasWarm, Refusal;
  }

  lemma ReSyncFlags(s: Pool, upstream: seq<string>)
    ensures var s' := ReSynced(s, upstream);
            s' == s.(reSyncRequired := false, warm := s'.warm, cooling := s'.cooling)
  {
    hide Purge, PurgeQueue, AppendAll, UpstreamResources, Without, Owned;
  }

  // ------------------------------------------------------------------ the re-sync flag

  lemma {:induction false} FlagStaysUp(ws: seq<World>, es: seq<Event>, i: nat, j: nat)
    requires Steps(ws, es) && i <= j < |ws| && ws[i].pool.reSyncRequired
    requires forall k :: i <= k < j ==> !es[k].ReSyncDone?
    ensures ws[j].pool.reSyncRequired
    decreases j
  {
    hide Step;
    if i < j {
      FlagStaysUp(ws, es, i, j - 1);
      assert Step(ws[j - 1], es[j - 1], ws[j]);
      FlagStep(ws[j - 1], es[j - 1], ws[j]);
    }
  }

  /** A job that fails, whether it creates or deletes, leaves the flag up until a re-sync is done. */
  lemma FailureRaisesFlag(ws: seq<World>, es: seq<Event>, i: nat, j: nat)
    requires Steps(ws, es) && i < |es| && es[i].Complete? && !es[i].didSucceed
    requires i < j < |ws| && forall k :: i < k < j ==> !es[k].ReSyncDone?
    ensures ws[j].pool.reSyncRequired
  {
    hide Step;
    assert Step(ws[i], es[i], ws[i + 1]);
    FlagStep(ws[i], es[i], ws[i + 1]);
    FlagStaysUp(ws, es, i + 1, j);
  }

  /** Nothing but a failed job raises the flag, and a re-sync that is done always lowers it. */
  lemma OnlyFailureRaisesFlag(ws: seq<World>, es: seq<Event>, i: nat)
    requires Steps(ws, es) && i < |es|
    ensures !ws[i].pool.reSyncRequired && ws[i + 1].pool.reSyncRequired ==> es[i].Complete? && !es[i].didSucceed
    ensures ws[i].pool.reSyncRequired && !ws[i + 1].pool.reSyncRequired ==> es[i].ReSyncDone?
    ensures es[i].ReSyncDone? ==> !ws[i + 1].pool.reSyncRequired
  {
    hide Step;
    assert Step(ws[i], es[i], ws[i + 1]);
    FlagStep(ws[i], es[i], ws[i + 1]);
  }

  /** In every run a reconcile asks for a re-sync exactly when the flag is up and no create or delete is in flight. */
  lemma ReSyncIsEmittedIff(ws: seq<World>, es: seq<Event>, i: nat, job: WarmPoolJob)
    requires Run(ws, es) && i < |es| && es[i] == Reconcile(job)
    ensures job.operation.ReSyncPool? <==> ws[i].pool.reSyncRequired && NothingChanging(ws[i].jobs)
  {
    hide *;
    RunStep(ws, es, i);
    RunIsSound(ws, es, i);
    EmittedIff(ws[i], job, ws[i + 1]);
  }

  lemma EmittedIff(w: World, job: WarmPoolJob, w': World)
    requires Sound(w) && Step(w, Reconcile(job), w')
    ensures job.operation.ReSyncPool? <==> w.pool.reSyncRequired && NothingChanging(w.jobs)
  {
    hide Sound, ReconcileStep, NothingChanging;
    ZeroIsQuiet(w);
    EmittedUnderFlag(w.pool, w'.pool, job);
  }

  lemma EmittedUnderFlag(s: Pool, s': Pool, job: WarmPoolJob)
    requires ReconcileStep(s, s', job)
    ensures job.operation.ReSyncPool? <==> s.reSyncRequired && s.pendingCreate == 0 && s.pendingDelete == 0
  {
    hide Deviation, Normal, FreeGroups, NoDup, Total, Unit, Ceiling, GoDiv, Wrap64;
  }

  /** After a failed job the next reconcile that finds nothing in flight asks for a re-sync. */
  lemma FailureIsReSynced(ws: seq<World>, es: seq<Event>, i: nat, j: nat, job: WarmPoolJob)
    requires Run(ws, es) && i < j < |es| && es[i].Complete? && !es[i].didSucceed && es[j] == Reconcile(job)
    requires (forall k :: i < k < j ==> !es[k].ReSyncDone?) && NothingChanging(ws[j].jobs)
    ensures job.operation.ReSyncPool? && job.nodeName == ws[j].pool.nodeName
  {
    RunStep(ws, es, j);
    hide Step, Start, Settled, NothingChanging;
    FailureRaisesFlag(ws, es, i, j);
    hide Run;
    ReSyncIsEmittedIff(ws, es, j, job);
    JobNamesNode(ws[j], job, ws[j + 1]);
  }

  // ------------------------------------------------------------------ whether a prefix is available

  lemma {:induction false} AvailabilityStays(ws: seq<World>, es: seq<Event>, i: nat, j: nat)
    requires Steps(ws, es) && i <= j < |ws| && forall k :: i <= k < j ==> !es[k].Complete?
    ensures ws[j].pool.prefixAvailable == ws[i].pool.prefixAvailable
    decreases j
  {
    hide Step;
    if i < j {
      AvailabilityStays(ws, es, i, j - 1);
      assert Step(ws[j - 1], es[j - 1], ws[j]);
      FlagStep(ws[j - 1], es[j - 1], ws[j]);
    }
  }

  /** A prefix pool believes what the last completed job reported; a secondary pool never changes its mind. */
  lemma AvailabilityIsReported(ws: seq<World>, es: seq<Event>, i: nat, j: nat)
    requires Steps(ws, es) && i < j < |ws| && es[i].Complete? && forall k :: i < k < j ==> !es[k].Complete?
    ensures ws[j].pool.prefixAvailable == if ws[i].pool.isPD then es[i].prefixAvailable else ws[i].pool.prefixAvailable
  {
    hide Step;
    assert Step(ws[i], es[i], ws[i + 1]);
    FlagStep(ws[i], es[i], ws[i + 1]);
    AvailabilityStays(ws, es, i + 1, j);
  }

  // ------------------------------------------------------------------ what never changes

  /** The node, the capacity and the mode of a pool are those it started with. */
  lemma {:induction false} IdentityStays(ws: seq<World>, es: seq<Event>, i: nat)
    requires Steps(ws, es) && i < |ws|
    ensures var s, s0 := ws[i].pool, ws[0].pool;
            s.nodeName == s0.nodeName && s.capacity == s0.capacity && s.isPD == s0.isPD
  {
    hide Step;
    if i > 0 {
      IdentityStays(ws, es, i - 1);
      assert Step(ws[i - 1], es[i - 1], ws[i]);
      FlagStep(ws[i - 1], es[i - 1], ws[i]);
    }
  }

  /** Every job that asks for something names the pool's node, and only deletes name groups. */
  lemma JobNamesNode(w: World, job: WarmPoolJob, w': World)
    requires Step(w, Reconcile(job), w')
    ensures !job.operation.NoReconcile? ==> job.nodeName == w.pool.nodeName
    ensures !job.operation.Deleted? ==> job.resources == []
    ensures job.operation.Deleted? ==> job.resourceCount == |job.resources|
  {
    hide ReconcileStep;
    JobOfStep(w.pool, w'.pool, job);
  }

  lemma JobOfStep(s: Pool, s': Pool, job: WarmPoolJob)
    requires ReconcileStep(s, s', job)
    ensures !job.operation.NoReconcile? ==> job.nodeName == s.nodeName
    ensures !job.operation.Deleted? ==> job.resources == []
    ensures job.operation.Deleted? ==> job.resourceCount == |job.resources|
  {
    hide Deviation, Normal, FreeGroups, NoDup, Total, Unit, Ceiling, GoDiv, Wrap64, Elems;
  }
}
