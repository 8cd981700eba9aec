/**
 Where a reconcile takes the pool (pkg/pool/pool.go), in terms of the configuration as it was given and of what the
 pool holds afterwards.
 */
module DesiredState {
  import opened Collections
  import opened GoMath
  import opened PoolState
  import opened Jobs
  import opened Accounting
  import opened PoolOps
  import opened Runs
  import opened Targets
  import opened Progress

  /** Nothing stops a reconcile from comparing the pool with its targets. */
  predicate Compares(s: Pool) {
    && !s.reSyncRequired && s.config.maxDeviation == 0
    && |s.used| + s.pendingCreate + s.pendingDelete + |s.cooling| != s.capacity
  }

  /** `n` prefixes cover a warm target on top of the used addresses, and a minimum. */
  predicate Covers(n: int, used: int, warm: int, least: int) {
    16 * n >= used + warm && 16 * n >= least
  }

  // ------------------------------------------------------------------ the change called for

  /** With targets that fit the deviation is exact. */
  lemma FittingDeviation(w: World)
    requires Sound(w) && TargetsFit(w.pool.isPD, w.pool.config, |w.pool.used|)
    ensures MIN_INT64 < Deviation(w.pool) == InAddresses(w.pool.isPD, ChangeOf(w))
  {
    hide Sound, Deviation, ChangeOf, InAddresses, SmallChange, TargetsFit;
    DeviationIs(w);
    FitsIsSmall(w);
    if w.pool.isPD {
      PrefixesFit(w);
      FittingChange(w);
      ProductInRange(ChangeOf(w), |Held(w.pool)| + Counts(w.jobs, Create));
    } else {
      SingleInRange(ChangeOf(w));
    }
  }

  lemma ProductInRange(c: int, n: int)
    requires SmallChange(true, c) && -n <= c && 16 * n <= MAX_INT64 - 15
    ensures MIN_INT64 < Wrap64(InAddresses(true, c)) == InAddresses(true, c)
  {
  }

  lemma SingleInRange(c: int)
    requires SmallChange(false, c)
    ensures MIN_INT64 < Wrap64(InAddresses(false, c)) == InAddresses(false, c)
  {
  }

  /** No more than everything held or being created is ever too much. */
  lemma FittingChange(w: World)
    requires Sound(w) && w.pool.isPD && TargetsFit(true, w.pool.config, |w.pool.used|)
    ensures -(|Held(w.pool)| + Counts(w.jobs, Create)) <= ChangeOf(w)
  {
    var s := w.pool;
    hide Sound, Held, NumFree, Counts, PrefixesWanted, TargetsFit, ExactlyWanted;
    PrefixesFit(w);
    FreeIsHeld(w);
    if !PrefixTargetOnly(s.config) {
      UsedFitsInt64(w);
      WantedIs(s.config, |s.used|);
      ExactlyWantedIs(s.config, |s.used|);
    }
  }

  lemma ExactlyWantedIs(c: WarmPoolConfig, used: nat)
    requires !PrefixTargetOnly(c)
    ensures var k, warm, least := ExactlyWanted(c, used), WarmTarget(true, c), MinTarget(true, c);
            k >= 0 && Covers(k, used, warm, least) && !Covers(k - 1, used, warm, least)
  {
    TargetsNotNegative(c);
    hide WarmTarget, MinTarget;
  }

  lemma SignIs(isPD: bool, c: int)
    ensures InAddresses(isPD, c) > 0 <==> c > 0
    ensures InAddresses(isPD, c) < 0 <==> c < 0
  {
  }

  /** A reconcile leaves no change to be made, or a full node, or no wholly free group. */
  lemma ChangeIsMade(w: World, job: WarmPoolJob, w': World)
    requires Sound(w) && Step(w, Reconcile(job), w') && Compares(w.pool)
    requires TargetsFit(w.pool.isPD, w.pool.config, |w.pool.used|)
    ensures Sound(w') && ChangeAsGiven(w, w') == ChangeOf(w')
    ensures || ChangeOf(w') == 0
            || (ChangeOf(w') > 0 && Total(w'.pool) == w'.pool.capacity)
            || (ChangeOf(w') < 0 && NumFree(w'.pool) == 0)
  {
    hide Sound, Deviation, ChangeOf, InAddresses, TargetsFit, Normal, Total, NumFree, Step, ChangeAsGiven, Wrap64;
    AfterReconcile(w, job, w');
    FittingDeviation(w);
    DeviationInRange(w);
    WrapNegative(Deviation(w.pool), 0);
    SameUse(w, job, w');
    FitIsStable(w.pool.isPD, w.pool.config, |w.pool.used|);
    FittingDeviation(w');
    SignIs(w'.pool.isPD, ChangeOf(w'));
    AsGiven(w, w');
  }

  lemma SameUse(w: World, job: WarmPoolJob, w': World)
    requires Step(w, Reconcile(job), w')
    ensures w'.pool.isPD == w.pool.isPD && w'.pool.used == w.pool.used && w'.pool.cooling == w.pool.cooling
    ensures w'.pool.capacity == w.pool.capacity
  {
    hide ReconcileStep;
    Frame(w.pool, w'.pool, job);
  }

  lemma Frame(s: Pool, s': Pool, job: WarmPoolJob)
    requires ReconcileStep(s, s', job)
    ensures s'.isPD == s.isPD && s'.used == s.used && s'.cooling == s.cooling && s'.capacity == s.capacity
  {
    hide Deviation, Normal, FreeGroups, NoDup, Total, Unit, Ceiling, GoDiv, Wrap64;
  }

  /** The change that the configuration before the reconcile calls for in the state after it. */
  ghost function ChangeAsGiven(w: World, w': World): int {
    Change(w.pool.isPD, w.pool.config, |w.pool.used|, |Held(w'.pool)|, NumFree(w'.pool), Counts(w'.jobs, Create))
  }

  lemma AsGiven(w: World, w': World)
    requires w'.pool.isPD == w.pool.isPD && w'.pool.used == w.pool.used
    requires w'.pool.config == Normal(w.pool.isPD, w.pool.config)
    ensures ChangeAsGiven(w, w') == ChangeOf(w')
  {
    hide Change, Normal, Held, NumFree, Counts;
    var s, creating := w.pool, Counts(w'.jobs, Create);
    NormalIsStable(s.isPD, s.config, |s.used|, |Held(w'.pool)|, NumFree(w'.pool), creating);
  }

  // ------------------------------------------------------------------ the targets as given

  /**
   An active prefix pool with address targets, or with none at all: after a reconcile the prefixes held or being
   created are the fewest that cover the configured targets, one and three standing in for a target that is not
   positive; or they are too few and the node is full, or too many and none of them is wholly free.
   */
  lemma PrefixesMeetTargets(w: World, job: WarmPoolJob, w': World, warm: int, least: int)
    requires Sound(w) && Step(w, Reconcile(job), w') && w.pool.isPD && Compares(w.pool)
    requires var c := w.pool.config;
             && c.desiredSize != 0 && (c.warmIPTarget > 0 || c.minIPTarget > 0 || c.warmPrefixTarget <= 0)
             && warm == (if c.warmIPTarget > 0 then c.warmIPTarget else 1)
             && least == (if c.minIPTarget > 0 then c.minIPTarget else 3)
    requires |w.pool.used| + warm <= MAX_INT64 - 15 && least <= MAX_INT64 - 15
    ensures var n, used := |Held(w'.pool)| + Counts(w'.jobs, Create), |w.pool.used|;
            || (Covers(n, used, warm, least) && !Covers(n - 1, used, warm, least))
            || (!Covers(n, used, warm, least) && Total(w'.pool) == w.pool.capacity)
            || (Covers(n - 1, used, warm, least) && forall g :: g in w'.pool.warm ==> |w'.pool.warm[g]| != 16)
  {
    var c, s' := w.pool.config, w'.pool;
    hide *;
    AddressTargets(c);
    AddressesFit(w, warm, least);
    ChangeIsMade(w, job, w');
    SameUse(w, job, w');
    UsedFitsInt64(w);
    WantedIs(c, |w.pool.used|);
    ExactlyWantedIs(c, |w.pool.used|);
    NothingFree(s');
    AddressChange(w, w');
    var n, k := |Held(s')| + Counts(w'.jobs, Create), ExactlyWanted(c, |w.pool.used|);
    var change, free, full := ChangeOf(w'), NumFree(s') == 0, Total(s') == s'.capacity;
    assert Unit(s'.isPD) == 16 by { UnitIs(); }
    LeastOrStuck(n, k, |w.pool.used|, warm, least, change, free, full);
  }

  lemma AddressesFit(w: World, warm: int, least: int)
    requires w.pool.isPD && !PrefixTargetOnly(w.pool.config)
    requires WarmTarget(true, w.pool.config) == warm && MinTarget(true, w.pool.config) == least
    requires |w.pool.used| + warm <= MAX_INT64 - 15 && least <= MAX_INT64 - 15
    ensures TargetsFit(true, w.pool.config, |w.pool.used|)
  {
  }

  lemma AddressChange(w: World, w': World)
    requires w.pool.isPD && !PrefixTargetOnly(w.pool.config)
    ensures var change := PrefixesWanted(w.pool.config, |w.pool.used|) - (|Held(w'.pool)| + Counts(w'.jobs, Create));
            ChangeAsGiven(w, w') == if change < 0 && NumFree(w'.pool) == 0 then 0 else change
  {
    hide PrefixesWanted, Held, NumFree, Counts, PrefixTargetOnly;
  }

  /** What no change, or a change that cannot be made, says about `n` prefixes when `k` are the fewest. */
  lemma LeastOrStuck(n: int, k: int, used: int, warm: int, least: int, change: int, noneFree: bool, full: bool)
    requires Covers(k, used, warm, least) && !Covers(k - 1, used, warm, least)
    requires change == if k - n < 0 && noneFree then 0 else k - n
    requires change == 0 || (change > 0 && full) || (change < 0 && noneFree)
    ensures || (Covers(n, used, warm, least) && !Covers(n - 1, used, warm, least))
            || (!Covers(n, used, warm, least) && full)
            || (Covers(n - 1, used, warm, least) && noneFree)
  {
  }

  lemma AddressTargets(c: WarmPoolConfig)
    requires c.desiredSize != 0 && (c.warmIPTarget > 0 || c.minIPTarget > 0 || c.warmPrefixTarget <= 0)
    ensures !PrefixTargetOnly(c)
    ensures WarmTarget(true, c) == if c.warmIPTarget > 0 then c.warmIPTarget else 1
    ensures MinTarget(true, c) == if c.minIPTarget > 0 then c.minIPTarget else 3
  {
  }

  lemma NothingFree(s: Pool)
    ensures NumFree(s) == 0 ==> forall g :: g in s.warm ==> |s.warm[g]| != Unit(s.isPD)
  {
    if NumFree(s) == 0 {
      NoneFree(s);
      forall g | g in s.warm ensures |s.warm[g]| != Unit(s.isPD) {
        assert g !in FreeGroups(s.warm, Unit(s.isPD));
      }
    }
  }

  /**
   An active prefix pool with a warm-prefix target alone: the wholly free prefixes and those being created are as
   many as configured; or too few and the node is full, or too many and none is free.
   */
  lemma WarmPrefixesMeetTarget(w: World, job: WarmPoolJob, w': World)
    requires Sound(w) && Step(w, Reconcile(job), w') && w.pool.isPD && Compares(w.pool)
    requires var c := w.pool.config;
             && c.desiredSize != 0 && c.warmIPTarget <= 0 && c.minIPTarget <= 0 && c.warmPrefixTarget > 0
             && 16 * c.warmPrefixTarget <= MAX_INT64
    ensures var n := |FreeGroups(w'.pool.warm, 16)| + Counts(w'.jobs, Create);
            || n == w.pool.config.warmPrefixTarget
            || (n < w.pool.config.warmPrefixTarget && Total(w'.pool) == w.pool.capacity)
            || (n > w.pool.config.warmPrefixTarget && FreeGroups(w'.pool.warm, 16) == {})
  {
    hide *;
    PrefixTargetAlone(w.pool.config, |w.pool.used|);
    ChangeIsMade(w, job, w');
    SameUse(w, job, w');
    PrefixChange(w, w');
    FreeSixteen(w'.pool);
    NoneFree(w'.pool);
  }

  lemma PrefixTargetAlone(c: WarmPoolConfig, used: int)
    requires c.desiredSize != 0 && c.warmIPTarget <= 0 && c.minIPTarget <= 0 && c.warmPrefixTarget > 0
    requires 16 * c.warmPrefixTarget <= MAX_INT64
    ensures PrefixTargetOnly(c) && TargetsFit(true, c, used)
  {
  }

  lemma PrefixChange(w: World, w': World)
    requires w.pool.isPD && PrefixTargetOnly(w.pool.config)
    ensures ChangeAsGiven(w, w') == w.pool.config.warmPrefixTarget - NumFree(w'.pool) - Counts(w'.jobs, Create)
  {
    hide NumFree, Held, Counts;
  }

  lemma FreeSixteen(s: Pool)
    ensures s.isPD ==> FreeGroups(s.warm, Unit(s.isPD)) == FreeGroups(s.warm, 16)
    ensures s.isPD ==> NumFree(s) == |FreeGroups(s.warm, 16)|
  {
    hide FreeGroups;
  }

  /**
   An active secondary pool: available and assigned addresses meet the configured targets and one less would not,
   three standing in for a negative target; or they are too few and the node is full, or too many and none is warm.
   */
  lemma SecondaryMeetsTargets(w: World, job: WarmPoolJob, w': World, warm: int, least: int)
    requires Sound(w) && Step(w, Reconcile(job), w') && !w.pool.isPD && Compares(w.pool)
    requires var c := w.pool.config;
             && c.desiredSize != 0
             && warm == (if c.warmIPTarget < 0 then 3 else c.warmIPTarget)
             && least == (if c.minIPTarget < 0 then 3 else c.minIPTarget)
    ensures var available := NumResources(w'.pool.warm) + w'.pool.pendingCreate;
            var missing := Max(warm - available, least - (available + |w.pool.used| + |w.pool.cooling|));
            || missing == 0
            || (missing > 0 && Total(w'.pool) == w.pool.capacity)
            || (missing < 0 && NumResources(w'.pool.warm) == 0)
  {
    hide *;
    SecondaryTargets(w.pool.config, warm, least);
    SecondaryFits(w.pool.config, |w.pool.used|);
    ChangeIsMade(w, job, w');
    SameUse(w, job, w');
    SecondaryCounts(w');
    SecondaryAsGiven(w, w', warm, least);
  }

  lemma SecondaryFits(c: WarmPoolConfig, used: int)
    ensures TargetsFit(false, c, used)
  {
  }

  lemma UnitIs()
    ensures Unit(true) == 16
  {
  }

  lemma SecondaryTargets(c: WarmPoolConfig, warm: int, least: int)
    requires c.desiredSize != 0
    requires warm == (if c.warmIPTarget < 0 then 3 else c.warmIPTarget)
    requires least == (if c.minIPTarget < 0 then 3 else c.minIPTarget)
    ensures WarmTarget(false, c) == warm && MinTarget(false, c) == least
  {
  }

  lemma SecondaryAsGiven(w: World, w': World, warm: int, least: int)
    requires !w.pool.isPD && WarmTarget(false, w.pool.config) == warm && MinTarget(false, w.pool.config) == least
    ensures ChangeAsGiven(w, w') == Max(warm - (NumFree(w'.pool) + Counts(w'.jobs, Create)),
                                        least - (|Held(w'.pool)| + Counts(w'.jobs, Create)))
  {
    hide WarmTarget, MinTarget, NumFree, Held, Counts;
  }

  lemma SecondaryCounts(w: World)
    requires Sound(w) && !w.pool.isPD
    ensures NumFree(w.pool) == NumResources(w.pool.warm) && Counts(w.jobs, Create) == w.pool.pendingCreate
    ensures |Held(w.pool)| == NumResources(w.pool.warm) + |w.pool.used| + |w.pool.cooling|
  {
    hide Exclusive, Whole, Capped, JobsOK, DeletingOK, Queued, Held, NumResources, Counts, FreeGroups;
    WholeCount(w.pool);
    SecondaryFree(w.pool);
  }
}
