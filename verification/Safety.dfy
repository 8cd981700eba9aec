/**
 What holds in every run of the pool.
 */
module Safety {
  import opened Collections
  import opened GoMath
  import opened PoolState
  import opened Jobs
  import opened Accounting
  import opened PoolOps
  import opened Ownership
  import opened ReSync
  import opened Runs

  /** A pool as a provider creates it: whole groups within capacity, nothing cooling, nothing in flight. */
  ghost predicate Start(w: World) {
    var s := w.pool;
    && w.jobs == [] && s.cooling == [] && s.pendingCreate == 0 && s.pendingDelete == 0 && !s.reSyncRequired
    && s.config.maxDeviation >= 0
    && Exclusive(s) && Whole(s)
    && s.capacity % Unit(s.isPD) == 0 && Unit(s.isPD) * |Held(s)| <= s.capacity
  }

  ghost predicate Steps(ws: seq<World>, es: seq<Event>) {
    && |ws| == |es| + 1
    && forall i :: 0 <= i < |es| ==> Step(ws[i], es[i], ws[i + 1])
  }

  /** A run in which no re-sync takes effect while a create or delete is in flight. */
  ghost predicate Run(ws: seq<World>, es: seq<Event>) {
    && Steps(ws, es)
    && Start(ws[0])
    && forall i :: 0 <= i < |es| ==> Settled(ws[i], es[i])
  }

  /** A run with at most one re-sync job outstanding at any time. */
  ghost predicate SingleReSyncRun(ws: seq<World>, es: seq<Event>) {
    && Steps(ws, es)
    && Start(ws[0])
    && forall i :: 0 <= i < |ws| ==> SingleReSync(ws[i])
  }

  lemma StartIsSound(w: World)
    requires Start(w)
    ensures Sound(w)
  {
    hide Exclusive, Whole, Held;
  }

  lemma NothingOwned(s: Pool)
    requires s.warm == map[] && s.used == map[] && s.cooling == []
    ensures Owned(s) == {} && Held(s) == {} && Exclusive(s) && Whole(s) && NumResources(s.warm) == 0
  {
    assert WarmSet(s.warm) == {};
    assert s.used.Values == {};
    assert CoolSet(s.cooling) == {};
    assert Expand(s.isPD, {}) == {};
  }

  lemma RunStep(ws: seq<World>, es: seq<Event>, i: nat)
    requires Run(ws, es) && i < |es|
    ensures |ws| == |es| + 1 && Step(ws[i], es[i], ws[i + 1])
  {
    hide Step, Start, Settled;
  }

  /** The invariant holds in every world of every run. */
  lemma {:induction false} RunIsSound(ws: seq<World>, es: seq<Event>, i: nat)
    requires Run(ws, es) && i < |ws|
    ensures Sound(ws[i])
  {
    hide Sound, Step, Start, Settled;
    if i == 0 {
      StartIsSound(ws[0]);
    } else {
      RunIsSound(ws, es, i - 1);
      assert Step(ws[i - 1], es[i - 1], ws[i]) && Settled(ws[i - 1], es[i - 1]);
      StepKeeps(ws[i - 1], es[i - 1], ws[i]);
    }
  }

  // ------------------------------------------------------------------ exclusive ownership

  lemma OwnedAddresses(s: Pool, r: Resource, t: Resource)
    requires Whole(s) && r in Owned(s) && t in Owned(s) && r.resourceID == t.resourceID
    ensures r == t
  {
    hide Owned, Whole, Members, WellFormed;
    OwnedMember(s, r);
    OwnedMember(s, t);
    AddressesIdentify(s.isPD, r.groupID, t.groupID, r, t);
  }

  /** No IP address is ever held by two requesters, or held by one while it is warm or cooling. */
  lemma NoSharedAddress(ws: seq<World>, es: seq<Event>, i: nat, j: string, k: string)
    requires Run(ws, es) && i < |ws|
    requires j in ws[i].pool.used && k in ws[i].pool.used
    ensures ws[i].pool.used[j].resourceID == ws[i].pool.used[k].resourceID ==> j == k
    ensures forall r :: r in WarmSet(ws[i].pool.warm) || r in CoolSet(ws[i].pool.cooling) ==>
                          r.resourceID != ws[i].pool.used[j].resourceID
  {
    RunIsSound(ws, es, i);
    var s := ws[i].pool;
    hide Run, Whole, Pending, Capped, JobsOK, DeletingOK, Queued, WarmSet, CoolSet, Keyed, NoDup;
    var a, b := s.used[j], s.used[k];
    assert a in s.used.Values && b in s.used.Values;
    if a.resourceID == b.resourceID {
      OwnedAddresses(s, a, b);
    }
    forall r | r in WarmSet(s.warm) || r in CoolSet(s.cooling) ensures r.resourceID != a.resourceID {
      if r.resourceID == a.resourceID {
        OwnedAddresses(s, r, a);
      }
    }
  }

  /** The addresses of one group, wherever they are. */
  function OfGroup(s: Pool, g: string): set<Resource> {
    set r | r in Owned(s) && r.groupID == g
  }

  lemma WholeGroup(s: Pool, g: string)
    requires Whole(s) && g in Held(s)
    ensures OfGroup(s, g) == Members(s.isPD, g) && |OfGroup(s, g)| == Unit(s.isPD)
  {
    hide Owned, Members, WellFormed, Unit;
    MembersFacts(s.isPD, g);
    forall r | r in OfGroup(s, g) ensures r in Members(s.isPD, g) {
      OwnedMember(s, r);
    }
    forall r | r in Members(s.isPD, g) ensures r in OfGroup(s, g) {
      assert r in Expand(s.isPD, Held(s));
    }
  }

  /**
   Every held group accounts for exactly its own addresses: sixteen to a prefix, spread over warm, used and cooling.
   */
  lemma GroupsAreWhole(ws: seq<World>, es: seq<Event>, i: nat, g: string)
    requires Run(ws, es) && i < |ws| && g in Held(ws[i].pool)
    ensures OfGroup(ws[i].pool, g) == Members(ws[i].pool.isPD, g)
    ensures |OfGroup(ws[i].pool, g)| == Unit(ws[i].pool.isPD)
  {
    RunIsSound(ws, es, i);
    hide Run, OfGroup, Members, Unit, Whole, Held;
    WholeGroup(ws[i].pool, g);
  }

  // ------------------------------------------------------------------ deletion

  /** As long as a delete job is in flight, no address of its groups is warm, used or cooling. */
  lemma DeletingIsDisjoint(ws: seq<World>, es: seq<Event>, i: nat, k: nat, g: string, ip: string, r: Resource)
    requires Run(ws, es) && i < |ws| && k < |ws[i].jobs|
    requires ws[i].jobs[k].operation.Deleted? && g in ws[i].jobs[k].resources
    requires ip in GroupIDs(ws[i].pool.isPD, g) && r in Owned(ws[i].pool)
    ensures r.groupID != g && r.resourceID != ip
  {
    RunIsSound(ws, es, i);
    var w := ws[i];
    hide Run, Exclusive, Pending, Capped, Queued, Owned, Members, WellFormed, GroupIDs, Deleting;
    DeletingIs(w.jobs, k, g);
    OwnedMember(w.pool, r);
    assert JobOK(w.pool.isPD, w.jobs[k]);
    assert g in Elems(w.jobs[k].resources);
    if r.resourceID == ip {
      MemberOf(w.pool.isPD, g, ip);
      AddressesIdentify(w.pool.isPD, r.groupID, g, r, Resource(g, ip));
    }
  }

  lemma MemberOf(isPD: bool, g: string, ip: string)
    requires ip in GroupIDs(isPD, g)
    ensures Resource(g, ip) in Members(isPD, g)
  {
    hide GroupIDs;
    var i :| 0 <= i < |GroupIDs(isPD, g)| && GroupIDs(isPD, g)[i] == ip;
    assert GroupResources(isPD, g)[i] == Resource(g, ip);
  }

  /** A delete job emitted by a reconcile names no group with a used or cooling address, and only whole warm groups. */
  lemma DeleteTakesFreeGroups(ws: seq<World>, es: seq<Event>, i: nat, job: WarmPoolJob, g: string)
    requires Run(ws, es) && i < |es| && es[i] == Reconcile(job)
    requires job.operation.Deleted? && g in job.resources
    ensures forall r :: r in ws[i].pool.used.Values || r in CoolSet(ws[i].pool.cooling) ==> r.groupID != g
    ensures g in ws[i].pool.warm && Elems(ws[i].pool.warm[g]) == Members(ws[i].pool.isPD, g)
    ensures g !in ws[i + 1].pool.warm
  {
    hide *;
    RunStep(ws, es, i);
    RunIsSound(ws, es, i);
    DeleteStepTakesFree(ws[i], job, ws[i + 1], g);
  }

  lemma DeleteStepTakesFree(w: World, job: WarmPoolJob, w': World, g: string)
    requires Sound(w) && Step(w, Reconcile(job), w') && job.operation.Deleted? && g in job.resources
    ensures forall r :: r in w.pool.used.Values || r in CoolSet(w.pool.cooling) ==> r.groupID != g
    ensures g in w.pool.warm && Elems(w.pool.warm[g]) == Members(w.pool.isPD, g)
    ensures g !in w'.pool.warm
  {
    hide Exclusive, Whole, Pending, Capped, Queued, Members, DeletingOK, JobsOK, CoolSet, Held, ReconcileStep;
    assert g in Elems(job.resources);
    DeletesFree(w.pool, w'.pool, job);
    FreeGroupIsWhole(w.pool, g);
  }

  lemma DeletesFree(s: Pool, s': Pool, job: WarmPoolJob)
    requires ReconcileStep(s, s', job) && job.operation.Deleted?
    ensures Elems(job.resources) <= FreeGroups(s.warm, Unit(s.isPD))
    ensures s'.warm == s.warm - Elems(job.resources)
  {
    hide FreeGroups, Deviation, Normal, NoDup, Total, Unit, Ceiling, GoDiv, Elems;
  }

  // ------------------------------------------------------------------ capacity and pending counters

  /** A pending counter: what the jobs of one kind reserve, never negative, and zero exactly when none is in flight. */
  ghost predicate Tracks(pending: int, isPD: bool, jobs: seq<WarmPoolJob>, op: Operation) {
    && pending == Unit(isPD) * Counts(jobs, op) >= 0
    && (pending == 0 <==> forall k :: 0 <= k < |jobs| ==> jobs[k].operation != op)
  }

  lemma PendingTracks(pending: int, isPD: bool, jobs: seq<WarmPoolJob>, op: Operation)
    requires JobsOK(isPD, jobs) && pending == Unit(isPD) * Counts(jobs, op) && (op.Create? || op.Deleted?)
    ensures Tracks(pending, isPD, jobs, op)
  {
    hide JobsOK, Counts;
    CountsNonNegative(isPD, jobs, op);
    CountsZero(isPD, jobs, op);
  }

  /**
   Everything that exists or is in flight fits the node; what exists is whole groups, and the counters are what is in
   flight.
   */
  ghost predicate Accounted(w: World) {
    var s := w.pool;
    && Total(s) <= s.capacity
    && NumResources(s.warm) + |s.used| + |s.cooling| == Unit(s.isPD) * |Held(s)|
    && Tracks(s.pendingCreate, s.isPD, w.jobs, Create)
    && Tracks(s.pendingDelete, s.isPD, w.jobs, Deleted)
  }

  lemma SoundIsAccounted(w: World)
    requires Sound(w)
    ensures Accounted(w)
  {
    hide Exclusive, Whole, Queued, DeletingOK, JobsOK, Counts, Held, Total, NumResources, Capped, Tracks, Unit;
    SoundTotal(w.pool);
    WholeCount(w.pool);
    PendingTracks(w.pool.pendingCreate, w.pool.isPD, w.jobs, Create);
    PendingTracks(w.pool.pendingDelete, w.pool.isPD, w.jobs, Deleted);
  }

  lemma RunIsAccounted(ws: seq<World>, es: seq<Event>, i: nat)
    requires Run(ws, es) && i < |ws|
    ensures Accounted(ws[i])
  {
    hide Run, Sound, Accounted;
    RunIsSound(ws, es, i);
    SoundIsAccounted(ws[i]);
  }

  /**
   Conservation: moving addresses and starting deletions keep the total, completing a job never raises it,
   and a create raises it by what it reserves. Only a re-sync may change it otherwise.
   */
  lemma TotalIsConserved(ws: seq<World>, es: seq<Event>, i: nat)
    requires Run(ws, es) && i < |es|
    ensures var e, before, after := es[i], Total(ws[i].pool), Total(ws[i + 1].pool);
            && (e.Assign? || e.Free? || e.CoolDown? || e.SetConfig? || e.Tick? || e.ReSyncAborted? ==> after == before)
            && (e.Reconcile? && !e.job.operation.Create? ==> after == before)
            && (e.Reconcile? && e.job.operation.Create? ==>
                  after == before + Unit(ws[i].pool.isPD) * e.job.resourceCount)
            && (e.Complete? ==> after <= before)
  {
    RunIsSound(ws, es, i);
    RunIsSound(ws, es, i + 1);
    assert Step(ws[i], es[i], ws[i + 1]);
    StepTotal(ws[i], es[i], ws[i + 1]);
  }

  lemma StepTotal(w: World, e: Event, w': World)
    requires Sound(w) && Sound(w') && Step(w, e, w')
    ensures var before, after := Total(w.pool), Total(w'.pool);
            && (e.Assign? || e.Free? || e.CoolDown? || e.SetConfig? || e.Tick? || e.ReSyncAborted? ==> after == before)
            && (e.Reconcile? && !e.job.operation.Create? ==> after == before)
            && (e.Reconcile? && e.job.operation.Create? ==> after == before + Unit(w.pool.isPD) * e.job.resourceCount)
            && (e.Complete? ==> after <= before)
  {
    hide Exclusive, Whole, JobsOK, DeletingOK, Queued, Pending, Total, Held, Unit, AssignStep, ReconcileStep,
         CompleteStep, Freed, CooledDown, ReSynced, UpstreamOK, Capped;
    SoundTotal(w.pool);
    SoundTotal(w'.pool);
    match e
    case Assign(requester, outcome) =>
      AssignKeeps(w.pool, requester, w'.pool, outcome);
      SameWhole(w.pool, w'.pool);
    case Free(requester, resourceID) =>
      FreeKeeps(w.pool, requester, resourceID, w.now);
      FreedFrame(w.pool, requester, resourceID, w.now);
      SameWhole(w.pool, w'.pool);
    case CoolDown(clock) =>
      CoolDownKeeps(w.pool, clock);
      CooledFrame(w.pool, clock);
      SameWhole(w.pool, w'.pool);
    case SetConfig(config) =>
      SameContents(w.pool, w'.pool);
      SameWhole(w.pool, w'.pool);
    case Tick(later) =>
    case ReSyncAborted(k) =>
    case ReSyncDone(k, upstream) =>
    case Reconcile(job) =>
      ReconcileTotal(w, job, w');
    case Complete(k, returned, didSucceed, prefixAvailable) =>
      CompleteTotal(w, k, returned, didSucceed, prefixAvailable, w');
  }

  lemma CooledFrame(s: Pool, clock: seq<int>)
    requires |clock| >= |s.cooling|
    ensures var s' := CooledDown(s, clock); s' == s.(warm := s'.warm, cooling := s'.cooling)
  {
  }

  lemma ReconcileTotal(w: World, job: WarmPoolJob, w': World)
    requires Sound(w) && Sound(w') && ReconcileStep(w.pool, w'.pool, job)
    ensures Total(w'.pool) == Total(w.pool) + if job.operation.Create? then Unit(w.pool.isPD) * job.resourceCount else 0
  {
    var s, s' := w.pool, w'.pool;
    hide JobsOK, DeletingOK, Queued, Exclusive, Whole, Held, Unit, Deviation, Normal, CreateStep, DeleteStep, Capped,
         Pending, Total, Wrap64;
    var n := s.(config := Normal(s.isPD, s.config));
    NormalKeepsDeviation(s.isPD, s.config);
    TotalIgnoresConfig(s, n.config);
    if !s.reSyncRequired && !((s' == s || s' == n) && job == NO_RECONCILE) {
      if Deviation(s) > s.config.maxDeviation {
        CreateTotal(w, n, s', job);
      } else {
        DeleteTotal(w, n, Wrap64(-Deviation(s)), s', job);
      }
    }
  }

  lemma CreateTotal(w: World, n: Pool, s': Pool, job: WarmPoolJob)
    requires Sound(w) && n == w.pool.(config := n.config) && Deviation(w.pool) > 0
    requires CreateStep(n, Deviation(w.pool), s', job)
    ensures Total(s') == Total(n) + if job.operation.Create? then Unit(n.isPD) * job.resourceCount else 0
  {
    hide JobsOK, DeletingOK, Queued, Exclusive, Whole, Held, Unit, Deviation, NumResources, Owned;
    if job == NO_RECONCILE {
      NoRoom(n, Deviation(w.pool), s', job);
    } else {
      SameContents(w.pool, n);
      SameWhole(w.pool, n);
      PendingWhole(w);
      DeviationIsWhole(w.pool);
      CreateIsWhole(n, Deviation(w.pool), s', job);
    }
  }

  lemma DeleteTotal(w: World, n: Pool, amount: int, s': Pool, job: WarmPoolJob)
    requires Sound(w) && n == w.pool.(config := n.config)
    requires DeleteStep(n, amount, s', job)
    ensures Total(s') == Total(n) && !job.operation.Create?
  {
    hide JobsOK, DeletingOK, Queued, Exclusive, Whole, Held, Deviation, Owned, FreeGroups, NoDup, Capped, Pending,
         Total, Unit;
    SameContents(w.pool, n);
    SameWhole(w.pool, n);
    if s' != n {
      var gs := Elems(job.resources);
      DeleteKeeps(n, gs, s');
      NoDupCard(job.resources);
      assert Held(n) == Held(s') + gs;
      assert |Held(n)| == |Held(s')| + |gs|;
      Distribute(Unit(n.isPD), |Held(s')|, |gs|);
      TotalIs(n);
      TotalIs(s');
    }
  }

  lemma CompleteTotal(w: World, k: nat, returned: seq<string>, didSucceed: bool, prefixAvailable: bool, w': World)
    requires Sound(w) && CompleteStep(w, k, returned, didSucceed, prefixAvailable, w')
    ensures Total(w'.pool) <= Total(w.pool)
  {
    hide CompleteStep, JobsOK, DeletingOK, Queued, Exclusive, Whole, Held, Unit, Capped, Pending, Total;
    CompleteFrame(w, k, returned, didSucceed, prefixAvailable, w');
    CompletePool(w, k, returned, didSucceed, prefixAvailable, w');
    TotalIs(w.pool);
    TotalIs(w'.pool);
    var u, n := Unit(w.pool.isPD), w.jobs[k].resourceCount;
    Distribute(u, |Held(w.pool)|, |returned|);
    MulMonotone(|returned|, n, u);
  }

  // ------------------------------------------------------------------ the re-sync protocol

  ghost predicate NothingChanging(jobs: seq<WarmPoolJob>) {
    forall k :: 0 <= k < |jobs| ==> !jobs[k].operation.Create? && !jobs[k].operation.Deleted?
  }

  lemma ZeroIsQuiet(w: World)
    requires Sound(w)
    ensures w.pool.pendingCreate == 0 && w.pool.pendingDelete == 0 <==> NothingChanging(w.jobs)
  {
    SoundIsAccounted(w);
    hide Sound, Total, NumResources, Held, Counts, Unit;
  }

  /**
   While the re-sync flag is up a reconcile emits no create or delete, and a re-sync only when nothing is in flight.
   */
  lemma ReSyncHaltsChanges(ws: seq<World>, es: seq<Event>, i: nat, job: WarmPoolJob)
    requires Run(ws, es) && i < |es| && es[i] == Reconcile(job)
    ensures ws[i].pool.reSyncRequired ==> !job.operation.Create? && !job.operation.Deleted?
    ensures job.operation.ReSyncPool? ==> ws[i].pool.reSyncRequired && NothingChanging(ws[i].jobs)
  {
    hide *;
    RunStep(ws, es, i);
    RunIsSound(ws, es, i);
    FlagHalts(ws[i], job, ws[i + 1]);
  }

  lemma FlagHalts(w: World, job: WarmPoolJob, w': World)
    requires Sound(w) && Step(w, Reconcile(job), w')
    ensures w.pool.reSyncRequired ==> !job.operation.Create? && !job.operation.Deleted?
    ensures job.operation.ReSyncPool? ==> w.pool.reSyncRequired && NothingChanging(w.jobs)
  {
    hide Sound, ReconcileStep, NothingChanging;
    ReconcileUnderFlag(w.pool, w'.pool, job);
    ZeroIsQuiet(w);
  }

  lemma ReconcileUnderFlag(s: Pool, s': Pool, job: WarmPoolJob)
    requires ReconcileStep(s, s', job)
    ensures s.reSyncRequired ==> !job.operation.Create? && !job.operation.Deleted?
    ensures job.operation.ReSyncPool? ==> s.reSyncRequired && s.pendingCreate == 0 && s.pendingDelete == 0
  {
    hide Deviation, Normal, FreeGroups, NoDup, Total;
  }

  /** With one re-sync outstanding at a time every world is sound and quiet. */
  lemma {:induction false} SingleReSyncIsQuiet(ws: seq<World>, es: seq<Event>, i: nat)
    requires SingleReSyncRun(ws, es) && i < |ws|
    ensures Sound(ws[i]) && Quiet(ws[i])
  {
    hide Sound, Step, Start, SingleReSync, Quiet, Settled;
    if i == 0 {
      StartIsSound(ws[0]);
      StartIsQuiet(ws[0]);
    } else {
      SingleReSyncIsQuiet(ws, es, i - 1);
      assert Step(ws[i - 1], es[i - 1], ws[i]);
      QuietStep(ws[i - 1], es[i - 1], ws[i]);
      StepKeeps(ws[i - 1], es[i - 1], ws[i]);
    }
  }

  lemma StartIsQuiet(w: World)
    requires Start(w)
    ensures Quiet(w)
  {
    hide Exclusive, Whole, Held;
  }

  /** One re-sync at a time is enough for all that holds of runs. */
  lemma SingleReSyncIsRun(ws: seq<World>, es: seq<Event>)
    requires SingleReSyncRun(ws, es)
    ensures Run(ws, es)
  {
    hide Sound, Step, Start, SingleReSync, Quiet, Settled;
    forall i | 0 <= i < |es| ensures Settled(ws[i], es[i]) {
      SingleReSyncIsQuiet(ws, es, i);
      assert Step(ws[i], es[i], ws[i + 1]);
      QuietStep(ws[i], es[i], ws[i + 1]);
    }
  }

  /** With one re-sync outstanding, ReSync finds the flag up, both counters at zero and nothing in flight but itself. */
  lemma ReSyncRunsQuietly(ws: seq<World>, es: seq<Event>, i: nat, n: nat, upstream: seq<string>)
    requires SingleReSyncRun(ws, es) && i < |es| && es[i] == ReSyncDone(n, upstream)
    ensures ws[i].pool.reSyncRequired && ws[i].pool.pendingCreate == 0 && ws[i].pool.pendingDelete == 0
    ensures |ws[i].jobs| == 1
  {
    SingleReSyncIsQuiet(ws, es, i);
    hide Sound, Quiet, SingleReSync, Start;
    assert SingleReSync(ws[i]);
    assert Step(ws[i], es[i], ws[i + 1]);
    ReSyncInFlight(ws[i], n, upstream, ws[i + 1]);
    hide *;
    ReSyncIsAlone(ws[i], n);
  }

  lemma ReSyncInFlight(w: World, n: nat, upstream: seq<string>, w': World)
    requires Step(w, ReSyncDone(n, upstream), w')
    ensures n < |w.jobs| && w.jobs[n].operation.ReSyncPool?
  {
    hide UpstreamOK, ReSynced, Remove;
  }

  lemma ReSyncIsAlone(w: World, n: nat)
    requires Sound(w) && Quiet(w) && SingleReSync(w) && n < |w.jobs| && w.jobs[n].operation.ReSyncPool?
    ensures w.pool.reSyncRequired && w.pool.pendingCreate == 0 && w.pool.pendingDelete == 0
    ensures |w.jobs| == 1
  {
    hide Sound, Quiet, SingleReSync;
    ReSyncFindsFlag(w, n);
    ZeroIsQuiet(w);
    if |w.jobs| > 1 {
      OnlyReSync(w, n, if n == 0 then 1 else 0);
    }
  }

  lemma ReSyncFindsFlag(w: World, n: nat)
    requires Sound(w) && Quiet(w) && n < |w.jobs| && w.jobs[n].operation.ReSyncPool?
    ensures w.pool.reSyncRequired && w.pool.pendingCreate == 0 && w.pool.pendingDelete == 0
  {
    hide Exclusive, Whole, Queued, Counts, NumReSync, Deleting, DeletingOK, JobsOK, Capped, Remove;
    RemoveJob(w.jobs, n);
  }

  lemma OnlyReSync(w: World, n: nat, k: nat)
    requires Sound(w) && SingleReSync(w) && n < |w.jobs| && k < |w.jobs| && w.jobs[n].operation.ReSyncPool?
    requires !w.jobs[k].operation.Create? && !w.jobs[k].operation.Deleted?
    ensures k == n
  {
    hide Exclusive, Whole, Pending, Capped, DeletingOK, Queued, Counts, Deleting;
    assert JobOK(w.pool.isPD, w.jobs[k]);
    if k != n {
      RemoveCounts(w.jobs, n, Create);
      var k' := if k < n then k else k - 1;
      assert Remove(w.jobs, n)[k'] == w.jobs[k];
      RemoveCounts(Remove(w.jobs, n), k', Create);
    }
  }

  // ------------------------------------------------------------------ requesters

  function Assigns(es: seq<Event>, requester: string): nat {
    if es == [] then 0
    else
      var e := es[|es| - 1];
      Assigns(es[..|es| - 1], requester) + if e.Assign? && e.requester == requester && e.outcome.Assigned? then 1 else 0
  }

  /** The frees of a run that take an address away from its requester. */
  function Frees(ws: seq<World>, es: seq<Event>, requester: string): nat
    requires |ws| == |es| + 1
  {
    if es == [] then 0
    else
      var n := |es| - 1;
      var e := es[n];
      Frees(ws[..|ws| - 1], es[..n], requester)
      + if e.Free? && e.requester == requester && FreeRefusal(ws[n].pool, requester, e.resourceID).None? then 1 else 0
  }

  function Holds(w: World, requester: string): nat {
    if requester in w.pool.used then 1 else 0
  }

  /** Each assignment is freed at most once, however often frees are repeated and whatever else happens. */
  lemma {:induction false} FreedAtMostOnce(ws: seq<World>, es: seq<Event>, requester: string)
    requires Steps(ws, es)
    ensures Frees(ws, es, requester) + Holds(ws[|es|], requester) == Assigns(es, requester) + Holds(ws[0], requester)
    decreases |es|
  {
    hide Step;
    if es != [] {
      var n := |es| - 1;
      forall i | 0 <= i < n ensures Step(ws[..n + 1][i], es[..n][i], ws[..n + 1][i + 1]) {
        assert Step(ws[i], es[i], ws[i + 1]);
      }
      FreedAtMostOnce(ws[..n + 1], es[..n], requester);
      assert Step(ws[n], es[n], ws[n + 1]);
      HolderStep(ws[n], es[n], ws[n + 1], requester);
    }
  }

  lemma HolderStep(w: World, e: Event, w': World, requester: string)
    requires Step(w, e, w')
    ensures Holds(w', requester) == Holds(w, requester)
            + (if e.Assign? && e.requester == requester && e.outcome.Assigned? then 1 else 0)
            - (if e.Free? && e.requester == requester && FreeRefusal(w.pool, requester, e.resourceID).None?
                then 1 else 0)
  {
    hide Deviation, Normal, FreeGroups, NoDup, Total, UpstreamOK, CreatedOK, UndeletedOK, AppendAll, Purge, Remove,
         UpstreamResources, AddGroups;
    if e.Reconcile? {
      ReconcileFrame(w.pool, w'.pool, e.job);
    }
  }

  /** A reconcile never touches the addresses in use or cooling, the capacity or the flags. */
  lemma ReconcileFrame(s: Pool, s': Pool, job: WarmPoolJob)
    requires ReconcileStep(s, s', job)
    ensures s' == s.(config := s'.config, warm := s'.warm, pendingCreate := s'.pendingCreate,
              pendingDelete := s'.pendingDelete)
  {
    hide Deviation, Normal, FreeGroups, NoDup, Total;
  }
}
