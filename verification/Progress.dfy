/**
 What a requester and an operator can count on in every sound world: when an assignment succeeds,
 that an empty pool is refilled, that deletions respect the targets, and that draining drains.
 */
module Progress {
  import opened Collections
  import opened GoMath
  import opened PoolState
  import opened Jobs
  import opened Accounting
  import opened PoolOps
  import opened Ownership
  import opened ReSync
  import opened Runs
  import opened Safety
  import opened Targets

  // ------------------------------------------------------------------ assignment

  lemma WarmCounts(m: Groups)
    ensures NumResources(m) > 0 <==> exists g :: g in m && m[g] != []
  {
    if NumResources(m) > 0 {
      var g := SomeWarm(m, m.Keys);
    } else {
      forall g | g in m ensures m[g] == [] {
        NumOverRemove(m, m.Keys, g);
      }
    }
  }

  lemma {:induction false} SomeWarm(m: Groups, keys: set<string>) returns (g: string)
    requires keys <= m.Keys && NumOver(m, keys) > 0
    ensures g in m && m[g] != []
    decreases keys
  {
    var k :| k in keys;
    NumOverRemove(m, keys, k);
    if m[k] != [] {
      g := k;
    } else {
      g := SomeWarm(m, keys - {k});
    }
  }

  /** In every sound world an assignment succeeds exactly when the requester holds nothing and some address is warm. */
  lemma AssignSucceedsIff(w: World, requester: string, s': Pool, out: Assignment)
    requires Sound(w) && AssignStep(w.pool, requester, s', out)
    ensures out.Assigned? <==> requester !in w.pool.used && NumResources(w.pool.warm) > 0
  {
    var s := w.pool;
    hide JobsOK, DeletingOK, Queued, Exclusive, Whole, Held, NumResources, Unit, Pickable, Counts;
    SoundTotal(s);
    WarmCounts(s.warm);
    CountsNonNegative(s.isPD, w.jobs, Create);
    CountsNonNegative(s.isPD, w.jobs, Deleted);
    PendingNonNegative(w);
    if |s.warm| == 0 {
      assert s.warm == map[];
    }
  }

  lemma PendingNonNegative(w: World)
    requires Pending(w) && JobsOK(w.pool.isPD, w.jobs)
    ensures w.pool.pendingCreate >= 0 && w.pool.pendingDelete >= 0
  {
    hide JobsOK, Counts;
    CountsNonNegative(w.pool.isPD, w.jobs, Create);
    CountsNonNegative(w.pool.isPD, w.jobs, Deleted);
  }

  /** In prefix mode a wholly free prefix is broken only when no partly used prefix has a warm address. */
  lemma FreePrefixBrokenLast(s: Pool, requester: string, s': Pool, out: Assignment, h: string)
    requires s.isPD && AssignStep(s, requester, s', out) && out.Assigned?
    requires h in s.warm && 0 < |s.warm[h]| < NUM_IPV4_ADDR_PER_PREFIX
    ensures exists g :: && g in s.warm && 0 < |s.warm[g]| < NUM_IPV4_ADDR_PER_PREFIX
                        && s' == AfterAssign(s, requester, g) && out == Assigned(s.warm[g][0].resourceID)
  {
    var g :| Pickable(s, g) && s' == AfterAssign(s, requester, g) && out == Assigned(s.warm[g][0].resourceID);
  }

  /** In prefix mode the address comes from the front of a nonempty group that no other nonempty group undercuts. */
  lemma SmallestGroupFirst(s: Pool, requester: string, s': Pool, out: Assignment)
    requires Keyed(s.warm) && s.isPD && AssignStep(s, requester, s', out) && out.Assigned?
    ensures requester in s'.used && s'.used[requester].resourceID == out.resourceID
    ensures var g := s'.used[requester].groupID;
            && g in s.warm && s.warm[g] != [] && s'.used[requester] == s.warm[g][0] && s'.warm[g] == s.warm[g][1..]
            && forall h :: h in s.warm && s.warm[h] != [] ==> |s.warm[g]| <= |s.warm[h]|
  {
    hide HasWarm;
    var g :| Pickable(s, g) && s' == AfterAssign(s, requester, g) && out == Assigned(s.warm[g][0].resourceID);
    assert s.warm[g][0].groupID == g;
  }

  // ------------------------------------------------------------------ targets survive deletion

  /** The pool, counting what is being created, meets its effective targets. */
  ghost predicate MeetsTargets(s: Pool) {
    var warm, least := WarmTarget(s.isPD, s.config), MinTarget(s.isPD, s.config);
    var total := NumResources(s.warm) + |s.used| + |s.cooling| + s.pendingCreate;
    if !s.isPD then NumResources(s.warm) + s.pendingCreate >= warm && total >= least
    else if PrefixTargetOnly(s.config) then 16 * NumFree(s) + s.pendingCreate >= 16 * s.config.warmPrefixTarget
    else total >= |s.used| + warm && total >= least
  }

  /** The part of the change that the targets call for, before a delete without free prefixes is given up. */
  function RawChange(isPD: bool, c: WarmPoolConfig, used: int, held: int, free: int, creating: int): int {
    if isPD && !PrefixTargetOnly(c) then PrefixesWanted(c, used) - (held + creating)
      else Change(isPD, c, used, held, free, creating)
  }

  lemma MeetsWhen(w: World)
    requires Sound(w) && TargetsFit(w.pool.isPD, w.pool.config, |w.pool.used|)
    requires RawChange(w.pool.isPD, w.pool.config, |w.pool.used|, |Held(w.pool)|, NumFree(w.pool),
               Counts(w.jobs, Create)) <= 0
    ensures MeetsTargets(w.pool)
  {
    var s := w.pool;
    hide Exclusive, Whole, JobsOK, DeletingOK, Queued, Held, NumResources, Counts, FreeGroups, NormalPD,
         NormalSecondary, PrefixTargetOnly, TargetsFit, PrefixesWanted;
    WholeCount(s);
    if !s.isPD {
      SecondaryFree(s);
    } else if PrefixTargetOnly(s.config) {
      PrefixTargetKept(s.config);
    } else {
      UsedFitsInt64(w);
      WantedCovers(s.config, |s.used|);
    }
  }

  lemma UsedFitsInt64(w: World)
    requires Sound(w)
    ensures |w.pool.used| <= MAX_INT64
  {
    hide Exclusive, Whole, Queued, DeletingOK, JobsOK, Held, NumResources, Unit, Counts;
    SoundTotal(w.pool);
    CountsNonNegative(w.pool.isPD, w.jobs, Create);
    CountsNonNegative(w.pool.isPD, w.jobs, Deleted);
    PendingNonNegative(w);
  }

  lemma WantedCovers(c: WarmPoolConfig, used: nat)
    requires !PrefixTargetOnly(c) && used <= MAX_INT64 && TargetsFit(true, c, used)
    ensures 16 * PrefixesWanted(c, used) >= used + WarmTarget(true, c)
    ensures 16 * PrefixesWanted(c, used) >= MinTarget(true, c)
  {
    hide PrefixesWanted, NormalPD, PrefixTargetOnly, TargetsFit;
    WantedIsFewest(c, used);
  }

  /** Targets that do not fit are beyond any capacity. */
  lemma MeetsOnlyIf(w: World)
    requires Sound(w) && MeetsTargets(w.pool)
    ensures TargetsFit(w.pool.isPD, w.pool.config, |w.pool.used|)
  {
    var s := w.pool;
    hide Exclusive, Whole, Capped, JobsOK, DeletingOK, Queued, Held, NumResources, Counts, FreeGroups, NormalPD,
         NormalSecondary, PrefixTargetOnly;
    if s.isPD {
      WholeCount(s);
      PrefixesFit(w);
      UsedAndFreeGroups(s);
      if PrefixTargetOnly(s.config) {
        PrefixTargetKept(s.config);
      }
    }
  }

  /** With targets that fit, nothing in the deviation wraps. */
  lemma FitsIsSmall(w: World)
    requires Sound(w) && TargetsFit(w.pool.isPD, w.pool.config, |w.pool.used|)
    ensures SmallChange(w.pool.isPD, ChangeOf(w))
  {
    var s := w.pool;
    hide Sound, Held, NumFree, Counts;
    if s.isPD && PrefixTargetOnly(s.config) {
      PrefixesFit(w);
      FreeIsHeld(w);
    } else {
      hide ChangeOf, PrefixTargetOnly, SmallChange;
      ChangeInRange(w);
    }
  }

  lemma FreeIsHeld(w: World)
    requires Sound(w)
    ensures NumFree(w.pool) <= |Held(w.pool)|
  {
    hide Exclusive, Whole, Capped, JobsOK, DeletingOK, Queued, Held, FreeGroups, UsedGroups, Pending;
    UsedAndFreeGroups(w.pool);
  }

  /** A delete leaves a pool that meets its effective targets, if and only if they fit 64 bits. */
  lemma DeleteKeepsTargets(w: World, job: WarmPoolJob, w': World)
    requires Sound(w) && Step(w, Reconcile(job), w') && job.operation.Deleted?
    ensures Sound(w')
    ensures MeetsTargets(w'.pool) <==> TargetsFit(w.pool.isPD, w.pool.config, |w.pool.used|)
  {
    var s, s' := w.pool, w'.pool;
    var n := s.(config := Normal(s.isPD, s.config));
    hide Sound, Deviation, Normal, CreateStep, DeleteStep, MeetsTargets, InAddresses, ChangeOf, Held, NumFree,
         Counts, Change, RawChange, DeletesGroups, TargetsFit, Wrap64, SmallChange;
    ReconcileKeeps(w, job, w');
    SoundConfig(w);
    DeleteBranch(w, job, w');
    DeleteNothing(n, -Deviation(s), s', job);
    FitIsStable(s.isPD, s.config, |s.used|);
    if TargetsFit(s.isPD, s.config, |s.used|) {
      DeviationIs(w);
      FitsIsSmall(w);
      DeleteShape(w, n, w', job);
      DeleteSize(n, -Deviation(s), s', job);
      SameHeld(s, n);
      DeleteCount(s.isPD, ChangeOf(w), NumFree(s), |job.resources|);
      AddJob(w.jobs, job, Create);
      RawAfterDelete(w, w', |job.resources|);
      MeetsWhen(w');
    } else if MeetsTargets(s') {
      MeetsOnlyIf(w');
    }
  }

  lemma FitIsStable(isPD: bool, c: WarmPoolConfig, used: int)
    ensures TargetsFit(isPD, Normal(isPD, c), used) == TargetsFit(isPD, c, used)
  {
  }

  lemma DeleteBranch(w: World, job: WarmPoolJob, w': World)
    requires Sound(w) && Step(w, Reconcile(job), w') && job.operation.Deleted?
    ensures Deviation(w.pool) < 0 && !w.pool.reSyncRequired
    ensures DeleteStep(w.pool.(config := Normal(w.pool.isPD, w.pool.config)), -Deviation(w.pool), w'.pool, job)
    ensures w'.jobs == w.jobs + [job] && job != NO_RECONCILE
  {
    hide Sound, Deviation, Normal, Total, DeleteStep, Wrap64;
    SoundConfig(w);
    DeviationInRange(w);
    WrapNegative(Deviation(w.pool), w.pool.config.maxDeviation);
  }

  lemma RawAfterDelete(w: World, w': World, k: nat)
    requires w'.pool.isPD == w.pool.isPD && w'.pool.config == Normal(w.pool.isPD, w.pool.config)
             && |w'.pool.used| == |w.pool.used|
    requires |Held(w'.pool)| == |Held(w.pool)| - k && NumFree(w'.pool) == NumFree(w.pool) - k
    requires Counts(w'.jobs, Create) == Counts(w.jobs, Create)
    requires ChangeOf(w) < 0 && k <= -ChangeOf(w)
    ensures RawChange(w'.pool.isPD, w'.pool.config, |w'.pool.used|, |Held(w'.pool)|, NumFree(w'.pool),
              Counts(w'.jobs, Create)) <= 0
  {
    hide Held, NumFree, Counts, CeilDivision, NormalSecondary, NormalPD, Wrap64;
    var s := w.pool;
    WantedIsStable(s.config, |s.used|);
    NormalIsStable(s.isPD, s.config, |s.used|, |Held(w'.pool)|, NumFree(w'.pool), Counts(w'.jobs, Create));
    if PrefixTargetOnly(s.config) {
      PrefixTargetKept(s.config);
    }
  }

  lemma WantedIsStable(c: WarmPoolConfig, used: int)
    ensures PrefixTargetOnly(NormalPD(c)) == PrefixTargetOnly(c)
    ensures PrefixesWanted(NormalPD(c), used) == PrefixesWanted(c, used)
  {
    hide CeilDivision, Wrap64;
    NormalIsStable(true, c, used, 0, 0, 0);
  }

  // ------------------------------------------------------------------ draining

  /** A pool set to draining wants nothing beyond what is in use, and its deviation does not wrap. */
  lemma DrainingChange(w: World)
    requires Sound(w) && w.pool.config.desiredSize == 0
    ensures ChangeOf(w) <= 0
    ensures NumFree(w.pool) <= -ChangeOf(w)
    ensures MIN_INT64 < Deviation(w.pool) == InAddresses(w.pool.isPD, ChangeOf(w)) <= 0
    ensures SmallChange(w.pool.isPD, ChangeOf(w))
  {
    var s := w.pool;
    hide Sound, Held, Counts, NumFree, Deviation, CeilDivision, Wrap64, ChangeOf, SmallChange;
    DrainingFits(w);
    FitsIsSmall(w);
    DrainingWants(w);
    DeviationIs(w);
    NonPositive(s.isPD, ChangeOf(w));
    NoWrap(s.isPD, ChangeOf(w), |Held(s)|, Counts(w.jobs, Create));
  }

  lemma NoWrap(isPD: bool, c: int, held: int, creating: int)
    requires SmallChange(isPD, c) && -(held + creating) <= c <= 0
    requires isPD ==> 16 * (held + creating) <= MAX_INT64 - 15
    ensures Wrap64(InAddresses(isPD, c)) == InAddresses(isPD, c) > MIN_INT64
  {
  }

  lemma DrainingFits(w: World)
    requires Sound(w) && w.pool.config.desiredSize == 0
    ensures TargetsFit(w.pool.isPD, w.pool.config, |w.pool.used|)
    ensures w.pool.isPD ==> |w.pool.used| <= MAX_INT64 - 15
    ensures w.pool.isPD ==> 16 * (|Held(w.pool)| + Counts(w.jobs, Create)) <= MAX_INT64 - 15
  {
    hide Exclusive, Whole, Pending, Capped, JobsOK, DeletingOK, Queued, Held, Counts, NumResources;
    if w.pool.isPD {
      PrefixesFit(w);
      WholeCount(w.pool);
      CountsNonNegative(true, w.jobs, Create);
    }
  }

  lemma DrainingWants(w: World)
    requires Sound(w) && w.pool.config.desiredSize == 0
    requires w.pool.isPD ==> |w.pool.used| <= MAX_INT64 - 15
    ensures NumFree(w.pool) <= -ChangeOf(w) <= |Held(w.pool)| + Counts(w.jobs, Create)
  {
    var s := w.pool;
    hide Pending, Capped, JobsOK, DeletingOK, Queued, Exclusive, Whole, Held, Counts, FreeGroups, UsedGroups,
         PrefixesWanted;
    CountsNonNegative(s.isPD, w.jobs, Create);
    UsedFits(s);
    UsedAndFreeGroups(s);
    if s.isPD {
      DrainingWanted(s.config, |s.used|, |UsedGroups(s)|);
    }
  }

  /** Draining, only the prefixes that the used addresses need are wanted. */
  lemma DrainingWanted(c: WarmPoolConfig, used: nat, groups: int)
    requires c.desiredSize == 0 && used <= MAX_INT64 - 15 && used <= 16 * groups
    ensures 0 <= PrefixesWanted(c, used) <= groups
  {
    hide CeilDivision, Wrap64;
    WrappedQuotient(used);
    WrappedQuotient(0);
    assert Wrap64(0) == 0;
  }

  /** A draining pool never asks for more addresses. */
  lemma DrainingNeverCreates(w: World, job: WarmPoolJob, w': World)
    requires Sound(w) && w.pool.config.desiredSize == 0 && Step(w, Reconcile(job), w')
    ensures !job.operation.Create?
  {
    hide Sound, Deviation, Normal, ChangeOf, InAddresses, Total, CreateStep, FreeGroups, Unit, Ceiling, Wrap64,
         SmallChange;
    DrainingChange(w);
    SoundConfig(w);
  }

  lemma NonPositive(isPD: bool, c: int)
    requires c <= 0
    ensures InAddresses(isPD, c) <= 0
  {
  }

  /**
   After SetToDraining has replaced the configuration, a reconcile leaves no wholly free group: no warm
   address at all in secondary mode, no deletable prefix in prefix mode.
   */
  lemma DrainingDrains(w: World, job: WarmPoolJob, w': World)
    requires Sound(w) && w.pool.config == NO_TARGETS && !w.pool.reSyncRequired && Step(w, Reconcile(job), w')
    ensures Sound(w') && FreeGroups(w'.pool.warm, Unit(w'.pool.isPD)) == {}
    ensures !w'.pool.isPD ==> NumResources(w'.pool.warm) == 0
  {
    hide Sound, Deviation, Normal, ChangeOf, InAddresses, FreeGroups, NumResources, Total, Unit, ReconcileStep;
    ReconcileKeeps(w, job, w');
    var s := w.pool;
    if |s.used| + s.pendingCreate + s.pendingDelete + |s.cooling| == s.capacity {
      FullIsDrained(w, job, w');
    } else {
      DrainsAll(w, job, w');
    }
    SoundFree(w');
  }

  lemma DrainedStays(w: World, e: Event, w': World)
    requires Step(w, e, w') && !e.SetConfig? && w.pool.config == NO_TARGETS
    ensures w'.pool.config == NO_TARGETS
  {
    hide ReconcileStep, UpstreamOK, CreatedOK, UndeletedOK, AppendAll, Purge, Remove, UpstreamResources, AddGroups,
         Unit;
    match e
    case Reconcile(job) => ReconcileConfig(w.pool, w'.pool, job);
    case Assign(requester, outcome) =>
      hide AssignStep;
      AssignConfig(w.pool, requester, w'.pool, outcome);
    case _ =>
  }

  lemma ReconcileConfig(s: Pool, s': Pool, job: WarmPoolJob)
    requires ReconcileStep(s, s', job)
    ensures s'.config == s.config || s'.config == Normal(s.isPD, s.config)
    ensures s.config == NO_TARGETS ==> s'.config == NO_TARGETS
  {
    hide Deviation, FreeGroups, NoDup, Total, Unit, Ceiling, GoDiv, Wrap64;
  }

  lemma AssignConfig(s: Pool, requester: string, s': Pool, out: Assignment)
    requires AssignStep(s, requester, s', out)
    ensures s'.config == s.config
  {
    hide HasWarm, Refusal;
  }

  lemma {:induction false} DrainedThroughout(ws: seq<World>, es: seq<Event>, i: nat, j: nat)
    requires Steps(ws, es) && i <= j < |ws| && ws[i].pool.config == NO_TARGETS
    requires forall k :: i <= k < j ==> !es[k].SetConfig?
    ensures ws[j].pool.config == NO_TARGETS
    decreases j
  {
    hide Step;
    if i < j {
      DrainedThroughout(ws, es, i, j - 1);
      assert Step(ws[j - 1], es[j - 1], ws[j]);
      DrainedStays(ws[j - 1], es[j - 1], ws[j]);
    }
  }

  /**
   SetToDraining lets go of the lock between clearing the configuration and reconciling. Whatever happens in between,
   as long as the pool is not set to active again: a reconcile that finds no re-sync required drains it, and none
   creates anything.
   */
  lemma DrainingSurvivesInterleaving(ws: seq<World>, es: seq<Event>, i: nat, j: nat, job: WarmPoolJob)
    requires Run(ws, es) && i < j < |es| && es[i] == SetConfig(NO_TARGETS) && es[j] == Reconcile(job)
    requires forall k :: i < k < j ==> !es[k].SetConfig?
    ensures !job.operation.Create?
    ensures !ws[j].pool.reSyncRequired ==>
              var s := ws[j + 1].pool;
              FreeGroups(s.warm, Unit(s.isPD)) == {} && (!s.isPD ==> NumResources(s.warm) == 0)
  {
    RunStep(ws, es, i);
    assert ws[i + 1].pool.config == NO_TARGETS;
    hide Step, Start, Settled, Sound, FreeGroups, NumResources;
    DrainedThroughout(ws, es, i + 1, j);
    RunStep(ws, es, j);
    RunIsSound(ws, es, j);
    hide Run, Steps;
    DrainingNeverCreates(ws[j], job, ws[j + 1]);
    if !ws[j].pool.reSyncRequired {
      DrainingDrains(ws[j], job, ws[j + 1]);
    }
  }

  lemma SoundFree(w: World)
    requires Sound(w) && FreeGroups(w.pool.warm, Unit(w.pool.isPD)) == {}
    ensures !w.pool.isPD ==> NumResources(w.pool.warm) == 0
  {
    hide Exclusive, Whole, Pending, Capped, JobsOK, DeletingOK, Queued, FreeGroups, NumResources;
    if !w.pool.isPD {
      SecondaryFree(w.pool);
    }
  }

  /** The early return is harmless: at capacity without a warm address there is nothing to drain. */
  lemma FullIsDrained(w: World, job: WarmPoolJob, w': World)
    requires Sound(w) && !w.pool.reSyncRequired && Step(w, Reconcile(job), w')
    requires |w.pool.used| + w.pool.pendingCreate + w.pool.pendingDelete + |w.pool.cooling| == w.pool.capacity
    ensures w'.pool == w.pool && FreeGroups(w.pool.warm, Unit(w.pool.isPD)) == {}
  {
    hide Exclusive, Whole, Pending, JobsOK, DeletingOK, Queued, Deviation, Normal, NumResources, Held, CreateStep,
         DeleteStep;
    SoundTotal(w.pool);
    WarmCounts(w.pool.warm);
    UnitPositive(w.pool.isPD);
  }

  lemma DrainsAll(w: World, job: WarmPoolJob, w': World)
    requires Sound(w) && w.pool.config == NO_TARGETS && !w.pool.reSyncRequired && Step(w, Reconcile(job), w')
    requires |w.pool.used| + w.pool.pendingCreate + w.pool.pendingDelete + |w.pool.cooling| != w.pool.capacity
    ensures FreeGroups(w'.pool.warm, Unit(w'.pool.isPD)) == {}
  {
    var s, s' := w.pool, w'.pool;
    var n := s.(config := Normal(s.isPD, s.config));
    hide Sound, Deviation, Normal, ChangeOf, InAddresses, FreeGroups, Total, Unit, CreateStep, DeleteStep, Held,
         NoDup, DeletesGroups, Wrap64, SmallChange;
    DrainingChange(w);
    SameHeld(s, n);
    DeviationIs(w);
    DeviationInRange(w);
    WrapNegative(Deviation(s), 0);
    Negative(s.isPD, ChangeOf(w));
    if ChangeOf(w) < 0 {
      DeleteNothing(n, -Deviation(s), s', job);
      if job != NO_RECONCILE {
        DeleteSize(n, -Deviation(s), s', job);
        DeleteCount(s.isPD, ChangeOf(w), NumFree(s), |job.resources|);
        DeleteEmpties(n, -Deviation(s), s', job);
      } else {
        NoneFree(s);
      }
    } else {
      NoneFree(s);
    }
  }

  /** A delete that names as many groups as are free leaves none. */
  lemma DeleteEmpties(s: Pool, amount: int, s': Pool, job: WarmPoolJob)
    requires DeleteStep(s, amount, s', job) && job != NO_RECONCILE && |job.resources| == NumFree(s)
    ensures FreeGroups(s'.warm, Unit(s'.isPD)) == {}
  {
    hide FreeGroups, Unit, CeilDivision, NoDup;
    var gs := Elems(job.resources);
    NoDupCard(job.resources);
    SubsetCard(gs, FreeGroups(s.warm, Unit(s.isPD)));
    FreeAfterDelete(s.warm, gs, Unit(s.isPD));
  }

  lemma Negative(isPD: bool, c: int)
    ensures c < 0 <==> InAddresses(isPD, c) < 0
  {
  }

  // ------------------------------------------------------------------ no starvation

  /** The requester holds nothing and the node is not full, counting what is cooling or in flight. */
  predicate MayAsk(s: Pool, requester: string) {
    && requester !in s.used
    && |s.used| != s.capacity && |s.used| + |s.cooling| != s.capacity
    && |s.used| + |s.cooling| + s.pendingCreate + s.pendingDelete != s.capacity
  }

  /**
   A prefix pool without a warm group refuses; it asks for a reconcile exactly when the subnet is known to have a
   prefix.
   */
  lemma EmptyRefusalReconcilesIff(s: Pool, requester: string, s': Pool, out: Assignment)
    requires s.isPD && s.warm == map[] && AssignStep(s, requester, s', out)
    ensures s' == s && out.Refused?
    ensures out.shouldReconcile <==> s.prefixAvailable && MayAsk(s, requester)
    ensures MayAsk(s, requester) ==> out.error == if s.prefixAvailable then WarmPoolEmpty else InsufficientCidrBlocks
  {
    hide HasWarm;
    assert |s.warm| == 0;
  }

  /**
   The targets make an empty pool worth refilling. In secondary mode either target may call for it; in prefix mode
   any target does, unless its rounding to prefixes wraps.
   */
  predicate Refills(s: Pool) {
    if !s.isPD then WarmTarget(false, s.config) > 0 || MinTarget(false, s.config) > |s.used|
    else if PrefixTargetOnly(s.config) then Wrap64(16 * s.config.warmPrefixTarget) > 0
    else
      |s.used| + WarmTarget(true, s.config) <= MAX_INT64 - 15 || |s.used| < MinTarget(true, s.config) <= MAX_INT64 - 15
  }

  /** A prefix pool whose targets fit is always worth refilling. */
  lemma FittingRefills(s: Pool)
    requires s.isPD && TargetsFit(true, s.config, |s.used|)
    ensures Refills(s)
  {
  }

  /**
   An active pool that reports an empty warm pool, with nothing cooling and nothing being created, asks for
   new addresses at the next reconcile exactly when its targets call for a refill; a prefix pool whose targets fit
   64 bits always does.
   */
  lemma EmptyPoolRefillsIff(w: World, requester: string, s': Pool, job: WarmPoolJob, w': World)
    requires Sound(w) && !w.pool.reSyncRequired
    requires w.pool.config.desiredSize != 0 && w.pool.config.maxDeviation == 0
    requires AssignStep(w.pool, requester, s', Refused(WarmPoolEmpty, true))
    requires |w.pool.cooling| == 0 && w.pool.pendingCreate == 0
    requires Step(w, Reconcile(job), w')
    ensures job.operation.Create? && job.resourceCount >= 1 <==> Refills(w.pool)
    ensures w.pool.isPD && TargetsFit(true, w.pool.config, |w.pool.used|)
            ==> job.operation.Create? && job.resourceCount >= 1
  {
    hide Sound, AssignStep, Refills, Step, TargetsFit;
    EmptyWhenRefused(w, requester, s');
    EmptyReconciles(w, job, w');
    if w.pool.isPD && TargetsFit(true, w.pool.config, |w.pool.used|) {
      FittingRefills(w.pool);
    }
  }

  lemma EmptyReconciles(w: World, job: WarmPoolJob, w': World)
    requires Sound(w) && !w.pool.reSyncRequired
    requires w.pool.config.desiredSize != 0 && w.pool.config.maxDeviation == 0
    requires NumResources(w.pool.warm) == 0 && Total(w.pool) != w.pool.capacity
    requires |w.pool.used| + |w.pool.cooling| + w.pool.pendingCreate + w.pool.pendingDelete != w.pool.capacity
    requires |w.pool.cooling| == 0 && w.pool.pendingCreate == 0
    requires Step(w, Reconcile(job), w')
    ensures job.operation.Create? && job.resourceCount >= 1 <==> Refills(w.pool)
  {
    var s := w.pool;
    var n := s.(config := Normal(s.isPD, s.config));
    hide Sound, Deviation, Normal, ChangeOf, InAddresses, FreeGroups, Total, CreateStep, DeleteStep, Held, Refills,
         Wrap64, NumResources;
    EmptyChange(w);
    DeviationIs(w);
    NormalKeepsDeviation(s.isPD, s.config);
    TotalIgnoresConfig(s, n.config);
    if Deviation(s) > 0 {
      RoomLeft(n, Deviation(s), w'.pool, job);
      CreateShape(w, n, w', job);
    } else if Wrap64(-Deviation(s)) > 0 {
      DeleteNothing(n, Wrap64(-Deviation(s)), w'.pool, job);
    }
  }

  lemma RoomLeft(s: Pool, deviation: int, s': Pool, job: WarmPoolJob)
    requires CreateStep(s, deviation, s', job) && Total(s) != s.capacity
    ensures job != NO_RECONCILE
  {
    hide Total;
  }

  /** What ErrWarmPoolEmpty tells: no warm address, and room in the node. */
  lemma EmptyWhenRefused(w: World, requester: string, s': Pool)
    requires Sound(w) && AssignStep(w.pool, requester, s', Refused(WarmPoolEmpty, true))
    ensures NumResources(w.pool.warm) == 0
    ensures |w.pool.used| + |w.pool.cooling| + w.pool.pendingCreate + w.pool.pendingDelete != w.pool.capacity
    ensures Total(w.pool) != w.pool.capacity
  {
    hide Sound, NumResources;
    AssignSucceedsIff(w, requester, s', Refused(WarmPoolEmpty, true));
  }

  /** With every address in use, whole prefixes leave no slack: one more is wanted. */
  lemma EmptyChange(w: World)
    requires Sound(w) && NumResources(w.pool.warm) == 0 && |w.pool.cooling| == 0 && w.pool.pendingCreate == 0
    requires w.pool.config.desiredSize != 0
    ensures Wrap64(InAddresses(w.pool.isPD, ChangeOf(w))) > 0 <==> Refills(w.pool)
  {
    var s := w.pool;
    hide Sound, Held, Counts, FreeGroups, NumResources, PrefixesWanted, Wrap64, NormalSecondary, NormalPD,
         PrefixTargetOnly;
    EmptyCounts(w);
    NoFree(s);
    if !s.isPD {
      SecondaryChangeInRange(w);
    } else if !PrefixTargetOnly(s.config) {
      PrefixesFit(w);
      PDChangeInRange(w);
      WantedAtLeast(s.config, |Held(s)|);
      NotNegative(ChangeOf(w));
    }
  }

  lemma NotNegative(c: int)
    requires 0 <= c < 0x800_0000_0000_0000
    ensures Wrap64(InAddresses(true, c)) == InAddresses(true, c)
  {
  }

  lemma EmptyCounts(w: World)
    requires Sound(w) && NumResources(w.pool.warm) == 0 && |w.pool.cooling| == 0 && w.pool.pendingCreate == 0
    ensures |w.pool.used| == Unit(w.pool.isPD) * |Held(w.pool)| && Counts(w.jobs, Create) == 0
  {
    hide Exclusive, Whole, Capped, JobsOK, DeletingOK, Queued, Held, Counts, NumResources;
    WholeCount(w.pool);
  }

  lemma NoFree(s: Pool)
    requires NumResources(s.warm) == 0
    ensures NumFree(s) == 0
  {
    hide NumResources;
    WarmCounts(s.warm);
    assert FreeGroups(s.warm, Unit(s.isPD)) == {};
  }

  /**
   When all of `held` prefixes are in use, more are wanted exactly when a target asks for more and its rounding does
   not wrap.
   */
  lemma WantedAtLeast(c: WarmPoolConfig, held: nat)
    requires c.desiredSize != 0 && !PrefixTargetOnly(c) && 16 * held <= MAX_INT64 - 15
    ensures PrefixesWanted(c, 16 * held) > held
            <==> 16 * held + WarmTarget(true, c) <= MAX_INT64 - 15 || 16 * held < MinTarget(true, c) <= MAX_INT64 - 15
  {
    TargetsNotNegative(c);
    NormalIsGiven(true, c);
    ActiveTargets(c);
    hide NormalPD, WarmTarget, MinTarget, PrefixTargetOnly, CeilDivision, Wrap64, GoDiv;
    assert Wrap64(MinTarget(true, c)) == MinTarget(true, c);
    WrappedQuotient(16 * held + WarmTarget(true, c));
    WrappedQuotient(MinTarget(true, c));
  }

  lemma ActiveTargets(c: WarmPoolConfig)
    requires c.desiredSize != 0 && !PrefixTargetOnly(c)
    ensures WarmTarget(true, c) >= 1 && MinTarget(true, c) >= 1
  {
  }
}
