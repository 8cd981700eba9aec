/**
 What the deviation code of pkg/pool/pool.go computes, and where reconciling leads.
 */
module Targets {
  import opened Collections
  import opened GoMath
  import opened PoolState
  import opened Jobs
  import opened Accounting
  import opened PoolOps
  import opened Ownership
  import opened Runs

  // ------------------------------------------------------------------ deviation in groups

  /** The number of groups to create, or when negative to delete, in terms of group counts alone. */
  function Change(isPD: bool, c: WarmPoolConfig, used: int, held: int, free: int, creating: int): int {
    if !isPD then
      Max(WarmTarget(false, c) - (free + creating), MinTarget(false, c) - (held + creating))
    else if PrefixTargetOnly(c) then c.warmPrefixTarget - free - creating
    else
      var change := PrefixesWanted(c, used) - (held + creating);
      if change < 0 && free == 0 then 0 else change
  }

  /** The fewest prefixes whose addresses cover the warm target on top of the used addresses, and the minimum target. */
  ghost predicate FewestPrefixes(k: int, c: WarmPoolConfig, used: int) {
    && 16 * k >= used + WarmTarget(true, c) && 16 * k >= MinTarget(true, c)
    && forall j {:trigger 16 * j} :: 16 * j >= used + WarmTarget(true, c) && 16 * j >= MinTarget(true, c) ==> k <= j
  }

  /** Rounding the targets of a prefix pool up to whole prefixes stays within 64 bits. */
  predicate TargetsFit(isPD: bool, c: WarmPoolConfig, used: int) {
    if !isPD then true
    else if PrefixTargetOnly(c) then 16 * c.warmPrefixTarget <= MAX_INT64
    else
      used + WarmTarget(true, c) <= MAX_INT64 - 15 && MinTarget(true, c) <= MAX_INT64 - 15
  }

  /** Outside the prefix-target case no operand of the ceiling divisions is negative. */
  lemma TargetsNotNegative(c: WarmPoolConfig)
    requires !PrefixTargetOnly(c)
    ensures WarmTarget(true, c) >= 0 && MinTarget(true, c) >= 0
  {
  }

  /**
   The number of prefixes for `x` addresses as the pool computes it: the ceiling, or after wrap-around nothing or
   less.
   */
  lemma WrappedQuotient(x: int)
    requires 0 <= x <= 2 * MAX_INT64
    ensures x <= MAX_INT64 - 15 ==> CeilDivision(Wrap64(x), 16) == Ceiling(x, 16)
    ensures x > MAX_INT64 - 15 ==> CeilDivision(Wrap64(x), 16) == GoDiv(x + 15 - 0x1_0000_0000_0000_0000, 16) <= 0
  {
    if x > MAX_INT64 {
      assert Wrap64(x) == x - 0x1_0000_0000_0000_0000;
    }
  }

  /** What the two address targets call for, in exact arithmetic. */
  function ExactlyWanted(c: WarmPoolConfig, used: int): int {
    Ceiling(Max(used + WarmTarget(true, c), MinTarget(true, c)), 16)
  }

  lemma ExactlyWantedIsFewest(c: WarmPoolConfig, used: int)
    ensures FewestPrefixes(ExactlyWanted(c, used), c, used)
  {
    hide WarmTarget, MinTarget;
  }

  lemma WantedIs(c: WarmPoolConfig, used: nat)
    requires !PrefixTargetOnly(c) && used <= MAX_INT64
    ensures TargetsFit(true, c, used) ==> PrefixesWanted(c, used) == ExactlyWanted(c, used)
    ensures !TargetsFit(true, c, used) ==> PrefixesWanted(c, used) < 0x800_0000_0000_0000 <= ExactlyWanted(c, used)
  {
    TargetsNotNegative(c);
    NormalIsGiven(true, c);
    hide NormalPD, WarmTarget, MinTarget, PrefixTargetOnly, CeilDivision, Wrap64, GoDiv;
    assert Wrap64(MinTarget(true, c)) == MinTarget(true, c);
    WrappedQuotient(used + WarmTarget(true, c));
    WrappedQuotient(MinTarget(true, c));
  }

  /** The pool wants the fewest prefixes that cover its targets if and only if its targets fit. */
  lemma WantedIsFewest(c: WarmPoolConfig, used: nat)
    requires !PrefixTargetOnly(c) && used <= MAX_INT64
    ensures FewestPrefixes(PrefixesWanted(c, used), c, used) <==> TargetsFit(true, c, used)
  {
    WantedIs(c, used);
    ExactlyWantedIsFewest(c, used);
    hide NormalPD, PrefixTargetOnly, PrefixesWanted, TargetsFit, ExactlyWanted;
  }

  /** Secondary mode: the short/over computation is one maximum, for every pool state. */
  lemma SecondaryDeviationIs(s: Pool)
    ensures var available := NumResources(s.warm) + s.pendingCreate;
            SecondaryDeviation(s) == Max(WarmTarget(false, s.config) - available,
                MinTarget(false, s.config) - (available + |s.used| + |s.cooling|))
  {
    NormalIsGiven(false, s.config);
    hide NormalSecondary, WarmTarget, MinTarget, NumResources;
  }

  lemma WarmIsMember(s: Pool, g: string, r: Resource)
    requires Keyed(s.warm) && Whole(s) && g in s.warm && r in s.warm[g]
    ensures r in WarmSet(s.warm) && g in Held(s) && WellFormed(s.isPD, g) && r in Members(s.isPD, g)
  {
    hide Whole, Members, WellFormed;
    assert r in WarmSet(s.warm);
    assert r in Owned(s);
    assert r.groupID == g;
    OwnedMember(s, r);
  }

  /** In secondary mode the wholly free groups are the warm addresses. */
  lemma SecondaryFree(s: Pool)
    requires Exclusive(s) && Whole(s) && !s.isPD
    ensures |FreeGroups(s.warm, 1)| == NumResources(s.warm)
  {
    hide Whole, Members, WellFormed, Held, CoolSet, Injective, CoolResources;
    var free := FreeGroups(s.warm, 1);
    forall g | g in free ensures WellFormed(false, g) && Elems(s.warm[g]) == Members(false, g) {
      FreeGroupIsWhole(s, g);
    }
    forall r | r in WarmSet(s.warm) ensures r in Expand(false, free) {
      KeyOfWarm(s.warm, s.warm.Keys, r);
      SecondarySingle(s, r.groupID);
      assert r.groupID in free;
      assert r in Elems(s.warm[r.groupID]);
    }
    forall r | r in Expand(false, free) ensures r in WarmSet(s.warm) {
      var g :| g in free && r in Members(false, g);
      assert r in s.warm[g];
    }
    assert WarmSet(s.warm) == Expand(false, free);
    ExpandCard(false, free);
    WarmCountIs(s.warm);
  }

  lemma SecondarySingle(s: Pool, g: string)
    requires Exclusive(s) && Whole(s) && !s.isPD && g in s.warm && s.warm[g] != []
    ensures |s.warm[g]| == 1
  {
    hide Whole, Members, WellFormed, Held, CoolSet, Injective, CoolResources;
    var list := s.warm[g];
    assert list[0] in list;
    WarmIsMember(s, g, list[0]);
    MembersFacts(false, g);
    forall r | r in Elems(list) ensures r in Members(false, g) {
      WarmIsMember(s, g, r);
    }
    NoDupCard(list);
    SubsetCard(Elems(list), Members(false, g));
  }

  /** The group counts of a sound world, as the deviation code sees them. */
  ghost function NumFree(s: Pool): nat {
    |FreeGroups(s.warm, Unit(s.isPD))|
  }

  /** A number of groups, in addresses. */
  function InAddresses(isPD: bool, groups: int): int {
    Unit(isPD) * groups
  }

  /** The change in groups that a world calls for. */
  ghost function ChangeOf(w: World): int {
    Change(w.pool.isPD, w.pool.config, |w.pool.used|, |Held(w.pool)|, NumFree(w.pool), Counts(w.jobs, Create))
  }

  /**
   In every sound world the deviation is the group size times the change in groups, up to the wrap-around of the
   product: none of the pool's divisions by sixteen rounds anything away.
   */
  lemma DeviationIs(w: World)
    requires Sound(w)
    ensures Deviation(w.pool) == Wrap64(InAddresses(w.pool.isPD, ChangeOf(w)))
  {
    var s := w.pool;
    hide Exclusive, Whole, JobsOK, DeletingOK, Queued, Held, NumResources, Counts, FreeGroups, NormalPD,
         NormalSecondary, PrefixTargetOnly, Wrap64;
    WholeCount(s);
    CountsNonNegative(s.isPD, w.jobs, Create);
    if s.isPD {
      PrefixesFit(w);
      PDDeviationIs(s, |Held(s)|, Counts(w.jobs, Create));
    } else {
      SecondaryChangeIs(w);
      DeviationInRange(w);
    }
  }

  /** The capacity is a multiple of sixteen below the bound, so rounding a count up to prefixes cannot wrap. */
  lemma PrefixesFit(w: World)
    requires Sound(w) && w.pool.isPD
    ensures 0 <= 16 * (|Held(w.pool)| + Counts(w.jobs, Create)) <= MAX_INT64 - 15
    ensures 16 * (|Held(w.pool)| + Counts(w.jobs, Create)) <= w.pool.capacity
    ensures Counts(w.jobs, Create) >= 0
  {
    hide Exclusive, Whole, JobsOK, DeletingOK, Queued, Held, Counts;
    CountsNonNegative(true, w.jobs, Create);
    CountsNonNegative(true, w.jobs, Deleted);
  }

  lemma ExactPrefixes(n: int)
    requires 0 <= 16 * n <= MAX_INT64 - 15
    ensures CeilDivision(16 * n, 16) == n
  {
  }

  lemma PDDeviationIs(s: Pool, held: nat, creating: nat)
    requires NumResources(s.warm) + |s.used| + |s.cooling| == 16 * held && s.pendingCreate == 16 * creating
    requires 16 * (held + creating) <= MAX_INT64 - 15
    ensures PDDeviation(s) == Wrap64(16 * Change(true, s.config, |s.used|, held, |FreeGroups(s.warm, 16)|, creating))
  {
    hide NumResources, FreeGroups, NormalPD, PrefixTargetOnly, Wrap64, CeilDivision, PrefixesWanted;
    ExactPrefixes(creating);
    assert |s.used| + s.pendingCreate + NumResources(s.warm) + |s.cooling| == 16 * (held + creating);
    ExactPrefixes(held + creating);
    if PrefixTargetOnly(s.config) {
      WrapMul(s.config.warmPrefixTarget - |FreeGroups(s.warm, 16)| - creating, 16);
    }
  }

  lemma PrefixTargetKept(c: WarmPoolConfig)
    requires PrefixTargetOnly(c)
    ensures NormalPD(c) == c
  {
  }

  /** Defaulting twice is defaulting once, and does not change what is wanted. */
  lemma NormalIsStable(isPD: bool, c: WarmPoolConfig, used: int, held: int, free: int, creating: int)
    ensures Normal(isPD, Normal(isPD, c)) == Normal(isPD, c)
    ensures Change(isPD, Normal(isPD, c), used, held, free, creating) == Change(isPD, c, used, held, free, creating)
  {
    hide CeilDivision, Wrap64;
  }

  /** A create takes its groups off the change; a negative change makes no create unless it wraps. */
  lemma CreateCovers(isPD: bool, c: WarmPoolConfig, used: int, held: int, free: int, creating: int, k: nat)
    requires k <= Change(isPD, c, used, held, free, creating) || Change(isPD, c, used, held, free, creating) < 0
    ensures Change(isPD, c, used, held, free, creating + k) == Change(isPD, c, used, held, free, creating) - k
  {
    hide PrefixesWanted, NormalSecondary;
  }

  /** Deleting free groups takes the change toward zero and never past it. */
  lemma DeleteCovers(isPD: bool, c: WarmPoolConfig, used: int, held: int, free: nat, creating: int, k: nat)
    requires k <= free && (k <= -Change(isPD, c, used, held, free, creating) || (isPD && PrefixTargetOnly(c)))
    ensures var after := Change(isPD, c, used, held - k, free - k, creating);
            after == Change(isPD, c, used, held, free, creating) + k || (k == free && after == 0)
  {
    hide PrefixesWanted, NormalSecondary;
  }

  // ------------------------------------------------------------------ reconciling once is enough

  /** Dropped free groups are the only groups that stop being free. */
  lemma FreeAfterDelete(m: Groups, gs: set<string>, size: int)
    requires gs <= FreeGroups(m, size)
    ensures FreeGroups(m - gs, size) == FreeGroups(m, size) - gs
    ensures |FreeGroups(m - gs, size)| == |FreeGroups(m, size)| - |gs|
  {
    assert FreeGroups(m, size) == FreeGroups(m - gs, size) + gs;
  }

  lemma ExactCeil(k: int, isPD: bool)
    requires k >= 0
    ensures Ceiling(Unit(isPD) * k, Unit(isPD)) == k
  {
  }

  /** The change still wanted after a reconcile: none, or more than there was room or free groups for. */
  lemma AfterReconcile(w: World, job: WarmPoolJob, w': World)
    requires Sound(w) && Step(w, Reconcile(job), w') && !w.pool.reSyncRequired
    requires |w.pool.used| + w.pool.pendingCreate + w.pool.pendingDelete + |w.pool.cooling| != w.pool.capacity
    ensures Sound(w')
    ensures w'.pool.config == Normal(w.pool.isPD, w.pool.config)
    ensures var u, d, d' := Unit(w.pool.isPD), Deviation(w.pool), Deviation(w'.pool);
            if d > w.pool.config.maxDeviation then d' == 0 || (d' > 0 && Total(w'.pool) == w'.pool.capacity)
            else if Wrap64(-d) > w.pool.config.maxDeviation then d' == 0 || (d' < 0 && NumFree(w'.pool) == 0)
            else d' == d && w'.pool == w.pool.(config := Normal(w.pool.isPD, w.pool.config)) && job == NO_RECONCILE
  {
    hide Sound, Deviation, Normal, CreateStep, DeleteStep, Total, Unit, NumFree, Wrap64;
    SoundConfig(w);
    DeviationInRange(w);
    WrapNegative(Deviation(w.pool), w.pool.config.maxDeviation);
    ReconcileKeeps(w, job, w');
    var s, s' := w.pool, w'.pool;
    var n := s.(config := Normal(s.isPD, s.config));
    if Deviation(s) > s.config.maxDeviation {
      AfterCreate(w, job, w');
    } else if Wrap64(-Deviation(s)) > s.config.maxDeviation {
      AfterDelete(w, job, w');
    } else {
      SameDeviation(w, w');
    }
  }

  lemma SoundConfig(w: World)
    requires Sound(w)
    ensures w.pool.config.maxDeviation >= 0
  {
    hide Exclusive, Whole, Pending, Capped, JobsOK, DeletingOK, Queued;
  }

  /** How a reconcile that creates `created` or deletes `deleted` groups affects the change called for. */
  lemma ChangeAfter(w: World, w': World, created: nat, deleted: nat)
    requires w'.pool.isPD == w.pool.isPD && w'.pool.config == Normal(w.pool.isPD, w.pool.config)
             && |w'.pool.used| == |w.pool.used|
    requires |Held(w'.pool)| == |Held(w.pool)| - deleted && NumFree(w'.pool) == NumFree(w.pool) - deleted
    requires Counts(w'.jobs, Create) == Counts(w.jobs, Create) + created
    requires created > 0 ==> deleted == 0 && (created <= ChangeOf(w) || ChangeOf(w) < 0)
    requires deleted > 0 ==>
               created == 0 && (deleted <= -ChangeOf(w) || (w.pool.isPD && PrefixTargetOnly(w.pool.config)))
    ensures || ChangeOf(w') == ChangeOf(w) - created + deleted
            || (deleted > 0 && NumFree(w'.pool) == 0 && ChangeOf(w') == 0)
  {
    hide Change, Normal, Held, NumFree, Counts, PrefixTargetOnly;
    var s, creating := w.pool, Counts(w.jobs, Create);
    NormalIsStable(s.isPD, s.config, |s.used|, |Held(w'.pool)|, NumFree(w'.pool), Counts(w'.jobs, Create));
    if created > 0 {
      CreateCovers(s.isPD, s.config, |s.used|, |Held(s)|, NumFree(s), creating, created);
    } else if deleted > 0 {
      DeleteCovers(s.isPD, s.config, |s.used|, |Held(s)|, NumFree(s), creating, deleted);
    }
  }

  lemma SameDeviation(w: World, w': World)
    requires Sound(w) && Sound(w') && w'.jobs == w.jobs
    requires w'.pool == w.pool.(config := Normal(w.pool.isPD, w.pool.config))
    ensures Deviation(w'.pool) == Deviation(w.pool)
  {
    hide Sound, Deviation, ChangeOf, Normal, InAddresses, Held, NumFree, Counts;
    DeviationIs(w);
    DeviationIs(w');
    SameHeld(w.pool, w'.pool);
    ChangeAfter(w, w', 0, 0);
  }

  lemma SameHeld(s: Pool, s': Pool)
    requires s'.warm == s.warm && s'.used == s.used && s'.cooling == s.cooling && s'.isPD == s.isPD
    ensures Held(s') == Held(s) && NumFree(s') == NumFree(s)
  {
    assert Owned(s') == Owned(s);
  }

  lemma CreateShape(w: World, n: Pool, w': World, job: WarmPoolJob)
    requires Sound(w) && n == w.pool.(config := n.config) && Deviation(w.pool) > 0
    requires CreateStep(n, Deviation(w.pool), w'.pool, job) && job != NO_RECONCILE
    ensures w'.pool == n.(pendingCreate := w'.pool.pendingCreate)
    ensures job.operation.Create?
    ensures InAddresses(n.isPD, job.resourceCount) == Min(Deviation(w.pool), n.capacity - Total(w.pool))
    ensures Total(w'.pool) == Total(w.pool) + InAddresses(n.isPD, job.resourceCount)
    ensures job.resourceCount >= 1
  {
    hide Exclusive, Whole, JobsOK, DeletingOK, Queued, Deviation, Unit, Held, NumResources, Owned;
    var s := w.pool;
    TotalIgnoresConfig(s, n.config);
    SameContents(s, n);
    SameWhole(s, n);
    PendingWhole(w);
    DeviationIsWhole(s);
    CreateIsWhole(n, Deviation(s), w'.pool, job);
  }

  lemma CreateOutcome(isPD: bool, c: int, k: int, room: int)
    requires Wrap64(InAddresses(isPD, c)) > 0 && k >= 0 && room >= 0
    requires InAddresses(isPD, k) == Min(Wrap64(InAddresses(isPD, c)), room)
    ensures k <= c || c < 0
    ensures var d' := Wrap64(InAddresses(isPD, c - k)); d' == 0 || (d' > 0 && InAddresses(isPD, k) == room)
  {
    WrapMinus(InAddresses(isPD, c), InAddresses(isPD, k));
    assert InAddresses(isPD, c - k) == InAddresses(isPD, c) - InAddresses(isPD, k);
    WrapShrinks(InAddresses(isPD, c));
  }

  lemma WrapShrinks(x: int)
    ensures x >= 0 ==> Wrap64(x) <= x
  {
  }

  lemma AfterCreate(w: World, job: WarmPoolJob, w': World)
    requires Sound(w) && Sound(w') && Deviation(w.pool) > 0
    requires CreateStep(w.pool.(config := Normal(w.pool.isPD, w.pool.config)), Deviation(w.pool), w'.pool, job)
    requires w' == World(w'.pool, if job.operation.NoReconcile? then w.jobs else w.jobs + [job], w.now)
    ensures w'.pool.config == Normal(w.pool.isPD, w.pool.config)
    ensures Deviation(w'.pool) == 0 || (Deviation(w'.pool) > 0 && Total(w'.pool) == w'.pool.capacity)
  {
    var s, s' := w.pool, w'.pool;
    var n := s.(config := Normal(s.isPD, s.config));
    hide Sound, CreateStep, Deviation, ChangeOf, Normal, InAddresses, Held, Total, NumFree, Counts, Wrap64;
    if job == NO_RECONCILE {
      NoRoom(n, Deviation(s), s', job);
      TotalIgnoresConfig(s, n.config);
      SameDeviation(w, w');
    } else {
      CreateShape(w, n, w', job);
      SameHeld(s, s');
      AddJob(w.jobs, job, Create);
      DeviationIs(w);
      DeviationIs(w');
      TotalFits(w);
      CreateOutcome(s.isPD, ChangeOf(w), job.resourceCount, s.capacity - Total(s));
      ChangeAfter(w, w', job.resourceCount, 0);
    }
  }

  lemma TotalFits(w: World)
    requires Sound(w)
    ensures Total(w.pool) <= w.pool.capacity
  {
    hide Exclusive, Whole, Pending, JobsOK, DeletingOK, Queued, Total, Held;
    SoundTotal(w.pool);
  }

  lemma AfterDelete(w: World, job: WarmPoolJob, w': World)
    requires Sound(w) && Sound(w') && Deviation(w.pool) < 0
    requires DeleteStep(w.pool.(config := Normal(w.pool.isPD, w.pool.config)), -Deviation(w.pool), w'.pool, job)
    requires w' == World(w'.pool, if job.operation.NoReconcile? then w.jobs else w.jobs + [job], w.now)
    ensures w'.pool.config == Normal(w.pool.isPD, w.pool.config)
    ensures Deviation(w'.pool) == 0 || (Deviation(w'.pool) < 0 && NumFree(w'.pool) == 0)
  {
    var s, s' := w.pool, w'.pool;
    var n := s.(config := Normal(s.isPD, s.config));
    hide Deviation, ChangeOf, Normal, InAddresses, Held, Counts, NumFree, DeletesGroups, Sound, DeleteStep, Wrap64,
         PrefixTargetOnly, SmallChange;
    DeleteNothing(n, -Deviation(s), s', job);
    SameHeld(s, n);
    if job == NO_RECONCILE {
      SameDeviation(w, w');
    } else {
      DeleteShape(w, n, w', job);
      AddJob(w.jobs, job, Create);
      DeviationIs(w);
      DeviationIs(w');
      var k := |job.resources|;
      DeleteSize(n, -Deviation(s), s', job);
      if !(s.isPD && PrefixTargetOnly(s.config)) {
        ChangeInRange(w);
      }
      DeleteCount(s.isPD, ChangeOf(w), NumFree(s), k);
      ChangeAfter(w, w', 0, k);
      DeleteOutcome(s.isPD, ChangeOf(w), NumFree(s), k, ChangeOf(w'));
    }
  }

  lemma DeleteNothing(s: Pool, amount: int, s': Pool, job: WarmPoolJob)
    requires DeleteStep(s, amount, s', job)
    ensures s' == s.(warm := s'.warm, pendingDelete := s'.pendingDelete)
    ensures job == NO_RECONCILE ==> s' == s && (amount > 0 ==> NumFree(s) == 0)
    ensures job != NO_RECONCILE ==> job.operation.Deleted?
  {
    hide NoDup, FreeGroups, Unit, Ceiling;
  }

  /** How many groups a delete names. */
  ghost predicate DeletesGroups(isPD: bool, amount: int, free: int, k: int) {
    k == Min(free, Ceiling(amount, Unit(isPD)))
  }

  lemma DeleteSize(s: Pool, amount: int, s': Pool, job: WarmPoolJob)
    requires DeleteStep(s, amount, s', job) && job != NO_RECONCILE
    ensures DeletesGroups(s.isPD, amount, NumFree(s), |job.resources|)
  {
    hide NoDup, FreeGroups, Unit, Ceiling;
  }

  /** A change in groups whose product with the group size wraps, if at all, from below. */
  predicate SmallChange(isPD: bool, c: int) {
    if isPD then -0x1000_0000_0000_0000 <= c < 0x800_0000_0000_0000 else MIN_INT64 < c <= MAX_INT64
  }

  /** Only a warm-prefix target can make the change itself large. */
  lemma ChangeInRange(w: World)
    requires Sound(w) && !(w.pool.isPD && PrefixTargetOnly(w.pool.config))
    ensures SmallChange(w.pool.isPD, ChangeOf(w))
  {
    hide ChangeOf, SmallChange, Sound;
    if w.pool.isPD {
      PDChangeInRange(w);
    } else {
      SecondaryChangeInRange(w);
    }
  }

  lemma PDChangeInRange(w: World)
    requires Sound(w) && w.pool.isPD && !PrefixTargetOnly(w.pool.config)
    ensures SmallChange(true, ChangeOf(w))
  {
    hide Sound, Held, NumFree, Counts, PrefixTargetOnly, PrefixesWanted;
    PrefixesFit(w);
    WantedInRange(w.pool.config, |w.pool.used|);
  }

  lemma SecondaryChangeInRange(w: World)
    requires Sound(w) && !w.pool.isPD
    ensures SmallChange(false, ChangeOf(w))
  {
    hide Sound, ChangeOf, Wrap64;
    SecondaryInRange(w);
    SecondaryChangeIs(w);
  }

  lemma SecondaryChangeIs(w: World)
    requires Sound(w) && !w.pool.isPD
    ensures SecondaryDeviation(w.pool) == ChangeOf(w)
  {
    var s := w.pool;
    hide Exclusive, Whole, Capped, JobsOK, DeletingOK, Queued, Held, NumResources, Counts, FreeGroups,
         NormalSecondary, SecondaryDeviation;
    WholeCount(s);
    SecondaryDeviationIs(s);
    SecondaryFree(s);
  }

  lemma QuotientInRange(x: int)
    ensures -0x800_0000_0000_0000 <= CeilDivision(x, 16) < 0x800_0000_0000_0000
  {
  }

  lemma WantedInRange(c: WarmPoolConfig, used: int)
    ensures -0x800_0000_0000_0000 <= PrefixesWanted(c, used) < 0x800_0000_0000_0000
  {
    hide CeilDivision, NormalPD, Wrap64;
    var n := NormalPD(c);
    QuotientInRange(Wrap64(used + n.warmIPTarget));
    QuotientInRange(n.minIPTarget);
  }

  lemma DeleteCount(isPD: bool, c: int, free: nat, k: nat)
    requires var d: int := Wrap64(InAddresses(isPD, c)); d < 0 && DeletesGroups(isPD, -d, free, k)
    ensures var d: int := Wrap64(InAddresses(isPD, c));
            InAddresses(isPD, k) <= -d && (k == free || InAddresses(isPD, k) == -d)
    ensures SmallChange(isPD, c) ==> c < 0 && k == Min(free, -c)
  {
    var d: int := Wrap64(InAddresses(isPD, c));
    if isPD {
      WrapWhole(c);
      assert d == 16 * (d / 16);
      ExactCeil(-(d / 16), true);
    }
  }

  lemma DeleteOutcome(isPD: bool, c: int, free: nat, k: nat, c': int)
    requires var d: int := Wrap64(InAddresses(isPD, c));
             d < 0 && InAddresses(isPD, k) <= -d && (k == free || InAddresses(isPD, k) == -d)
    requires c' == c + k || (k == free && c' == 0)
    ensures var d' := Wrap64(InAddresses(isPD, c')); d' == 0 || (d' < 0 && free - k == 0)
  {
    if c' == c + k {
      assert InAddresses(isPD, c') == InAddresses(isPD, c) + InAddresses(isPD, k);
      WrapMinus(InAddresses(isPD, c), -InAddresses(isPD, k));
    }
  }

  lemma DeleteShape(w: World, n: Pool, w': World, job: WarmPoolJob)
    requires Sound(w) && n == w.pool.(config := n.config)
    requires DeleteStep(n, -Deviation(w.pool), w'.pool, job) && job != NO_RECONCILE
    ensures |Held(w'.pool)| == |Held(w.pool)| - |job.resources|
    ensures NumFree(w'.pool) == NumFree(w.pool) - |job.resources|
  {
    hide Exclusive, Whole, Pending, Capped, JobsOK, DeletingOK, Queued, Deviation, FreeGroups, NoDup, Held, Unit,
         Ceiling;
    var s, s', gs := w.pool, w'.pool, Elems(job.resources);
    SameContents(s, n);
    SameWhole(s, n);
    DeleteKeeps(n, gs, s');
    NoDupCard(job.resources);
    assert Held(n) == Held(s') + gs;
    FreeAfterDelete(n.warm, gs, Unit(n.isPD));
  }

  /** A second reconcile right after any reconcile finds nothing to do and changes nothing, in both modes. */
  lemma ReconcileIsFixedPoint(w: World, job: WarmPoolJob, w1: World, job2: WarmPoolJob, w2: World)
    requires Sound(w) && !w.pool.reSyncRequired
    requires Step(w, Reconcile(job), w1) && Step(w1, Reconcile(job2), w2)
    ensures job2 == NO_RECONCILE && w2 == w1
  {
    var s := w.pool;
    hide Sound, Deviation, Normal, Total, Step, Wrap64, NumFree;
    if |s.used| + s.pendingCreate + s.pendingDelete + |s.cooling| != s.capacity {
      AfterReconcile(w, job, w1);
      NormalIsStable(s.isPD, s.config, 0, 0, 0, 0);
      NormalKeepsDeviation(s.isPD, s.config);
      SoundConfig(w);
      ReconcileFrameOf(w, job, w1);
      NothingToDo(w1, job2, w2);
    } else {
      FullIsUnchanged(w, job, w1);
      FullIsUnchanged(w1, job2, w2);
    }
  }

  lemma FullIsUnchanged(w: World, job: WarmPoolJob, w': World)
    requires Step(w, Reconcile(job), w') && !w.pool.reSyncRequired
    requires |w.pool.used| + w.pool.pendingCreate + w.pool.pendingDelete + |w.pool.cooling| == w.pool.capacity
    ensures job == NO_RECONCILE && w' == w
  {
    hide Deviation, Normal, CreateStep, DeleteStep, Wrap64;
  }

  /** A pool that is full when it wants more, has nothing free when it wants less, or wants neither, is left alone. */
  lemma NothingToDo(w: World, job: WarmPoolJob, w': World)
    requires Sound(w) && Step(w, Reconcile(job), w') && !w.pool.reSyncRequired
             && Normal(w.pool.isPD, w.pool.config) == w.pool.config
    requires var d := Deviation(w.pool);
             || (d > 0 && Total(w.pool) == w.pool.capacity)
             || (d <= 0 && NumFree(w.pool) == 0)
             || (d <= w.pool.config.maxDeviation && Wrap64(-d) <= w.pool.config.maxDeviation)
    requires w.pool.config.maxDeviation >= 0
    ensures job == NO_RECONCILE && w' == w
  {
    var s, s' := w.pool, w'.pool;
    hide Sound, Deviation, Normal, Total, CreateStep, DeleteStep, Wrap64, NumFree;
    DeviationInRange(w);
    WrapNegative(Deviation(s), s.config.maxDeviation);
    assert s.(config := Normal(s.isPD, s.config)) == s;
    if CreateStep(s, Deviation(s), s', job) && Total(s) == s.capacity {
      NoRoomNoJob(s, Deviation(s), s', job);
    }
    if DeleteStep(s, Wrap64(-Deviation(s)), s', job) && NumFree(s) == 0 {
      NoFreeNoJob(s, Wrap64(-Deviation(s)), s', job);
    }
  }

  lemma NoRoomNoJob(s: Pool, deviation: int, s': Pool, job: WarmPoolJob)
    requires CreateStep(s, deviation, s', job) && Total(s) == s.capacity
    ensures s' == s && job == NO_RECONCILE
  {
    hide Total;
  }

  lemma NoFreeNoJob(s: Pool, amount: int, s': Pool, job: WarmPoolJob)
    requires DeleteStep(s, amount, s', job) && NumFree(s) == 0
    ensures s' == s && job == NO_RECONCILE
  {
    hide FreeGroups, Unit, NoDup, Ceiling;
    NoneFree(s);
  }

  lemma NoneFree(s: Pool)
    ensures NumFree(s) == 0 ==> FreeGroups(s.warm, Unit(s.isPD)) == {}
  {
  }

  lemma ReconcileFrameOf(w: World, job: WarmPoolJob, w': World)
    requires Step(w, Reconcile(job), w')
    ensures w'.pool.isPD == w.pool.isPD && w'.pool.reSyncRequired == w.pool.reSyncRequired
            && w'.pool.capacity == w.pool.capacity
  {
    hide Deviation, Normal, Total, FreeGroups, NoDup;
  }
}
