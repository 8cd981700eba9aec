/**
 Runs of one pool: the locked methods of pkg/pool/pool.go interleaved with the completion of the
 jobs they emitted. The invariant of every run is stated here and each step is shown to keep it.
 */
module Runs {
  import opened Collections
  import opened GoMath
  import opened PoolState
  import opened Jobs
  import opened Accounting
  import opened PoolOps
  import opened Ownership
  import opened ReSync

  /** The pool, the submitted jobs that have not completed (in no particular order) and the clock. */
  datatype World = World(pool: Pool, jobs: seq<WarmPoolJob>, now: int)

  /** One atomic step. SetToDraining and SetToActive are two: the configuration change, then a reconcile. */
  datatype Event =
    | Assign(requester: string, outcome: Assignment)
    | Free(requester: string, resourceID: string)
    | CoolDown(clock: seq<int>)
    | Reconcile(job: WarmPoolJob)
    | SetConfig(config: WarmPoolConfig)
    | Complete(k: nat, returned: seq<string>, didSucceed: bool, prefixAvailable: bool)
    | ReSyncDone(k: nat, upstream: seq<string>)
    | ReSyncAborted(k: nat)
    | Tick(later: int)

  // ------------------------------------------------------------------ jobs in flight

  /** The number of groups asked for by the jobs of one kind. */
  function Counts(jobs: seq<WarmPoolJob>, op: Operation): int {
    if jobs == [] then 0
    else
      var last := jobs[|jobs| - 1];
      Counts(jobs[..|jobs| - 1], op) + if last.operation == op then last.resourceCount else 0
  }

  function NumReSync(jobs: seq<WarmPoolJob>): nat {
    if jobs == [] then 0
    else NumReSync(jobs[..|jobs| - 1]) + if jobs[|jobs| - 1].operation.ReSyncPool? then 1 else 0
  }

  /** The groups being deleted, with multiplicity. */
  function Deleting(jobs: seq<WarmPoolJob>): multiset<string> {
    if jobs == [] then multiset{}
    else
      var last := jobs[|jobs| - 1];
      Deleting(jobs[..|jobs| - 1]) + if last.operation.Deleted? then multiset(last.resources) else multiset{}
  }

  function Remove(jobs: seq<WarmPoolJob>, k: nat): seq<WarmPoolJob>
    requires k < |jobs|
  {
    jobs[..k] + jobs[k + 1..]
  }

  lemma AddJob(jobs: seq<WarmPoolJob>, j: WarmPoolJob, op: Operation)
    ensures Counts(jobs + [j], op) == Counts(jobs, op) + if j.operation == op then j.resourceCount else 0
    ensures NumReSync(jobs + [j]) == NumReSync(jobs) + if j.operation.ReSyncPool? then 1 else 0
    ensures Deleting(jobs + [j]) == Deleting(jobs) + if j.operation.Deleted? then multiset(j.resources) else multiset{}
  {
    assert (jobs + [j])[..|jobs|] == jobs;
  }

  lemma RemoveLast(jobs: seq<WarmPoolJob>, k: nat)
    requires k < |jobs|
    ensures k == |jobs| - 1 ==> Remove(jobs, k) == jobs[..|jobs| - 1]
    ensures k < |jobs| - 1 ==> Remove(jobs, k) == Remove(jobs[..|jobs| - 1], k) + [jobs[|jobs| - 1]]
  {
  }

  lemma {:induction false} RemoveCounts(jobs: seq<WarmPoolJob>, k: nat, op: Operation)
    requires k < |jobs|
    ensures Counts(jobs, op) == Counts(Remove(jobs, k), op)
            + if jobs[k].operation == op then jobs[k].resourceCount else 0
    ensures NumReSync(jobs) == NumReSync(Remove(jobs, k)) + if jobs[k].operation.ReSyncPool? then 1 else 0
    decreases |jobs|
  {
    hide Deleting, Remove;
    RemoveLast(jobs, k);
    if k < |jobs| - 1 {
      var init := jobs[..|jobs| - 1];
      RemoveCounts(init, k, op);
      AddJob(Remove(init, k), jobs[|jobs| - 1], op);
    }
  }

  lemma {:induction false} RemoveDeleting(jobs: seq<WarmPoolJob>, k: nat)
    requires k < |jobs|
    ensures Deleting(jobs) == Deleting(Remove(jobs, k))
            + if jobs[k].operation.Deleted? then multiset(jobs[k].resources) else multiset{}
    decreases |jobs|
  {
    hide Counts, NumReSync, Remove;
    RemoveLast(jobs, k);
    if k < |jobs| - 1 {
      var init := jobs[..|jobs| - 1];
      RemoveDeleting(init, k);
      AddJob(Remove(init, k), jobs[|jobs| - 1], Deleted);
    }
  }

  lemma RemoveJob(jobs: seq<WarmPoolJob>, k: nat)
    requires k < |jobs|
    ensures Counts(jobs, Create) == Counts(Remove(jobs, k), Create)
            + if jobs[k].operation.Create? then jobs[k].resourceCount else 0
    ensures Counts(jobs, Deleted) == Counts(Remove(jobs, k), Deleted)
            + if jobs[k].operation.Deleted? then jobs[k].resourceCount else 0
    ensures NumReSync(jobs) == NumReSync(Remove(jobs, k)) + if jobs[k].operation.ReSyncPool? then 1 else 0
    ensures Deleting(jobs) == Deleting(Remove(jobs, k))
            + if jobs[k].operation.Deleted? then multiset(jobs[k].resources) else multiset{}
    ensures !jobs[k].operation.Deleted? ==> Deleting(jobs) == Deleting(Remove(jobs, k))
  {
    hide Counts, NumReSync, Remove, Deleting;
    RemoveCounts(jobs, k, Create);
    RemoveCounts(jobs, k, Deleted);
    RemoveDeleting(jobs, k);
  }

  /** A job the pool can have emitted. */
  ghost predicate JobOK(isPD: bool, j: WarmPoolJob) {
    match j.operation
    case Create => j.resourceCount >= 1
    case Deleted => |j.resources| == j.resourceCount >= 1 && AllWellFormed(isPD, Elems(j.resources))
    case ReSyncPool => true
    case NoReconcile => false
  }

  ghost predicate JobsOK(isPD: bool, jobs: seq<WarmPoolJob>) {
    forall i :: 0 <= i < |jobs| ==> JobOK(isPD, jobs[i])
  }

  lemma {:induction false} CountsNonNegative(isPD: bool, jobs: seq<WarmPoolJob>, op: Operation)
    requires JobsOK(isPD, jobs) && (op.Create? || op.Deleted?)
    ensures Counts(jobs, op) >= 0
  {
    if jobs != [] {
      CountsNonNegative(isPD, jobs[..|jobs| - 1], op);
      assert JobOK(isPD, jobs[|jobs| - 1]);
    }
  }

  /** A pending count of zero means that no such job is in flight, and above zero that one is. */
  lemma {:induction false} CountsZero(isPD: bool, jobs: seq<WarmPoolJob>, op: Operation)
    requires JobsOK(isPD, jobs) && (op.Create? || op.Deleted?)
    ensures Counts(jobs, op) == 0 <==> forall i :: 0 <= i < |jobs| ==> jobs[i].operation != op
  {
    if jobs != [] {
      var init, last := jobs[..|jobs| - 1], jobs[|jobs| - 1];
      CountsZero(isPD, init, op);
      CountsNonNegative(isPD, init, op);
      assert JobOK(isPD, last);
      assert forall i :: 0 <= i < |jobs| ==> jobs[i] == if i < |init| then init[i] else last;
    }
  }

  lemma {:induction false} NothingDeleting(jobs: seq<WarmPoolJob>)
    requires forall i :: 0 <= i < |jobs| ==> !jobs[i].operation.Deleted?
    ensures Deleting(jobs) == multiset{}
  {
    if jobs != [] {
      NothingDeleting(jobs[..|jobs| - 1]);
    }
  }

  lemma {:induction false} DeletingIs(jobs: seq<WarmPoolJob>, k: nat, g: string)
    requires k < |jobs| && jobs[k].operation.Deleted? && g in jobs[k].resources
    ensures g in Deleting(jobs)
  {
    RemoveJob(jobs, k);
    assert multiset(jobs[k].resources)[g] > 0;
  }

  // ------------------------------------------------------------------ steps

  /** What a provider may report for a create: at most the requested number of new, well-formed groups. */
  ghost predicate CreatedOK(w: World, job: WarmPoolJob, returned: seq<string>) {
    && |returned| <= job.resourceCount
    && NoDup(returned)
    && AllWellFormed(w.pool.isPD, Elems(returned))
    && Elems(returned) !! Held(w.pool)
    && forall g :: g in returned ==> g !in Deleting(w.jobs)
  }

  /** What a provider may report for a delete: groups of the job that are still attached. */
  ghost predicate UndeletedOK(job: WarmPoolJob, returned: seq<string>) {
    NoDup(returned) && Elems(returned) <= Elems(job.resources)
  }

  /** Readings of a clock that never goes back, taken in order between two times. */
  ghost predicate Reads(clock: seq<int>, from: int, until: int) {
    && from <= until
    && (forall i :: 0 <= i < |clock| ==> from <= clock[i] <= until)
    && (forall i, j :: 0 <= i < j < |clock| ==> clock[i] <= clock[j])
  }

  ghost predicate CompleteStep(w: World, k: nat, returned: seq<string>, didSucceed: bool, prefixAvailable: bool,
                               w': World) {
    && k < |w.jobs|
    && (w.jobs[k].operation.Create? || w.jobs[k].operation.Deleted?)
    && (w.jobs[k].operation.Create? ==> CreatedOK(w, w.jobs[k], returned))
    && (w.jobs[k].operation.Deleted? ==> UndeletedOK(w.jobs[k], returned))
    && w' == World(Updated(w.pool, w.jobs[k].(resources := returned), didSucceed, prefixAvailable),
         Remove(w.jobs, k), w.now)
  }

  ghost predicate Step(w: World, e: Event, w': World) {
    match e
    case Assign(requester, outcome) =>
      AssignStep(w.pool, requester, w'.pool, outcome) && w' == w.(pool := w'.pool)
    case Free(requester, resourceID) =>
      w' == w.(pool := Freed(w.pool, requester, resourceID, w.now))
    case CoolDown(clock) =>
      && |clock| >= |w.pool.cooling| && Reads(clock, w.now, w'.now)
      && w' == World(CooledDown(w.pool, clock), w.jobs, w'.now)
    case Reconcile(job) =>
      && ReconcileStep(w.pool, w'.pool, job)
      && w' == World(w'.pool, if job.operation.NoReconcile? then w.jobs else w.jobs + [job], w.now)
    case SetConfig(config) =>
      config.maxDeviation >= 0 && w' == w.(pool := w.pool.(config := config))
    case Complete(k, returned, didSucceed, prefixAvailable) =>
      CompleteStep(w, k, returned, didSucceed, prefixAvailable, w')
    case ReSyncDone(k, upstream) =>
      && k < |w.jobs| && w.jobs[k].operation.ReSyncPool?
      && UpstreamOK(w.pool, upstream)
      && w' == World(ReSynced(w.pool, upstream), Remove(w.jobs, k), w.now)
    case ReSyncAborted(k) =>
      k < |w.jobs| && w.jobs[k].operation.ReSyncPool? && w' == w.(jobs := Remove(w.jobs, k))
    case Tick(later) =>
      later >= w.now && w' == w.(now := later)
  }

  // ------------------------------------------------------------------ the invariant

  /** The pending counters are the group size times what the jobs in flight ask for. */
  ghost predicate Pending(w: World) {
    && w.pool.pendingCreate == Unit(w.pool.isPD) * Counts(w.jobs, Create)
    && w.pool.pendingDelete == Unit(w.pool.isPD) * Counts(w.jobs, Deleted)
  }

  /** Capacity is whole groups, and everything that exists or is in flight fits. */
  ghost predicate Capped(s: Pool) {
    && s.capacity % Unit(s.isPD) == 0
    && Unit(s.isPD) * |Held(s)| + s.pendingCreate + s.pendingDelete <= s.capacity
  }

  /** No group is being deleted twice, and no address of a group being deleted is in the pool. */
  ghost predicate DeletingOK(w: World) {
    && (forall g :: Deleting(w.jobs)[g] <= 1)
    && (forall g :: g in Deleting(w.jobs) ==> g !in Held(w.pool))
  }

  /** The queue is sorted by deletion time and has no entry from the future. */
  ghost predicate Queued(q: seq<CoolDownResource>, now: int) {
    && (forall i, j :: 0 <= i < j < |q| ==> q[i].deletionTimestamp <= q[j].deletionTimestamp)
    && (forall i :: 0 <= i < |q| ==> q[i].deletionTimestamp <= now)
  }

  ghost predicate Sound(w: World) {
    && w.pool.config.maxDeviation >= 0
    && Exclusive(w.pool) && Whole(w.pool)
    && Pending(w) && Capped(w.pool)
    && JobsOK(w.pool.isPD, w.jobs) && DeletingOK(w)
    && Queued(w.pool.cooling, w.now)
  }

  /** What ReSync does not check itself: when it takes effect, nothing is being created or deleted. */
  ghost predicate Settled(w: World, e: Event) {
    e.ReSyncDone? && w.pool.reSyncRequired ==> w.pool.pendingCreate == 0 && w.pool.pendingDelete == 0
  }

  /** The pool's own total counts whole groups and what is in flight. */
  lemma TotalIs(s: Pool)
    requires Exclusive(s) && Whole(s)
    ensures Total(s) == Unit(s.isPD) * |Held(s)| + s.pendingCreate + s.pendingDelete
  {
    hide Exclusive, Whole, Held, NumResources, Unit;
    WholeCount(s);
  }

  /** In a sound world that total is within capacity. */
  lemma SoundTotal(s: Pool)
    requires Exclusive(s) && Whole(s) && Capped(s)
    ensures Total(s) == Unit(s.isPD) * |Held(s)| + s.pendingCreate + s.pendingDelete
    ensures Total(s) <= s.capacity
  {
    hide Exclusive, Whole, Held, Unit, Total;
    TotalIs(s);
  }

  // ------------------------------------------------------------------ steps that move addresses

  lemma SameOwned(w: World, w': World)
    requires Sound(w)
    requires Exclusive(w'.pool) && Owned(w'.pool) == Owned(w.pool)
    requires w'.pool == w.pool.(used := w'.pool.used, warm := w'.pool.warm, cooling := w'.pool.cooling,
               config := w'.pool.config)
    requires w'.pool.config.maxDeviation >= 0
    requires w'.jobs == w.jobs && Queued(w'.pool.cooling, w'.now)
    ensures Sound(w')
  {
    hide Exclusive, Owned, AllWellFormed, Expand, Unit, Counts, Deleting, NumReSync, JobsOK, Queued;
    assert Held(w'.pool) == Held(w.pool);
  }

  lemma FreeQueued(w: World, requester: string, resourceID: string)
    requires Queued(w.pool.cooling, w.now)
    ensures Queued(Freed(w.pool, requester, resourceID, w.now).cooling, w.now)
  {
  }

  lemma MoveStep(w: World, e: Event, w': World)
    requires Sound(w) && Step(w, e, w')
    requires e.Assign? || e.Free? || e.CoolDown? || e.SetConfig? || e.Tick?
    ensures Sound(w')
  {
    hide Exclusive, Owned, Whole, Pending, Capped, JobsOK, DeletingOK, AssignStep, CooledPrefix, Freed, AppendAll;
    match e
    case Assign(requester, outcome) =>
      AssignKeeps(w.pool, requester, w'.pool, outcome);
      SameOwned(w, w');
    case Free(requester, resourceID) =>
      FreeKeeps(w.pool, requester, resourceID, w.now);
      FreeQueued(w, requester, resourceID);
      FreedFrame(w.pool, requester, resourceID, w.now);
      SameOwned(w, w');
    case CoolDown(clock) =>
      CoolDownKeeps(w.pool, clock);
      SameOwned(w, w');
    case SetConfig(config) =>
      SameContents(w.pool, w'.pool);
      SameOwned(w, w');
    case Tick(later) =>
      SameContents(w.pool, w'.pool);
      SameOwned(w, w');
  }

  lemma FreedFrame(s: Pool, requester: string, resourceID: string, now: int)
    ensures var s' := Freed(s, requester, resourceID, now); s' == s.(used := s'.used, cooling := s'.cooling)
  {
  }

  lemma SameContents(s: Pool, s': Pool)
    requires Exclusive(s) && s'.warm == s.warm && s'.used == s.used && s'.cooling == s.cooling
    ensures Exclusive(s') && Owned(s') == Owned(s)
  {
  }

  // ------------------------------------------------------------------ ReconcilePool

  /** Create amounts and the remaining room are whole groups, so dividing by sixteen loses nothing. */
  lemma CreateIsWhole(s: Pool, deviation: int, s': Pool, job: WarmPoolJob)
    requires Exclusive(s) && Whole(s) && Capped(s)
    requires s.pendingCreate % Unit(s.isPD) == 0 && s.pendingDelete % Unit(s.isPD) == 0
    requires deviation > 0 && deviation % Unit(s.isPD) == 0
    requires CreateStep(s, deviation, s', job) && job != NO_RECONCILE
    ensures job.operation.Create? && job.resourceCount >= 1
    ensures s' == s.(pendingCreate := s.pendingCreate + Unit(s.isPD) * job.resourceCount)
    ensures Unit(s.isPD) * job.resourceCount <= s.capacity - Total(s)
    ensures Unit(s.isPD) * job.resourceCount == Min(deviation, s.capacity - Total(s))
  {
    hide Exclusive, Whole, Held, Total, Capped, GoDiv, Unit;
    RoomIsWhole(s);
    var room := s.capacity - Total(s);
    var amount := if deviation > room then room else deviation;
    WholeGroups(s.isPD, amount);
  }

  lemma RoomIsWhole(s: Pool)
    requires Exclusive(s) && Whole(s) && Capped(s)
    requires s.pendingCreate % Unit(s.isPD) == 0 && s.pendingDelete % Unit(s.isPD) == 0
    ensures s.capacity - Total(s) >= 0 && (s.capacity - Total(s)) % Unit(s.isPD) == 0
  {
    hide Exclusive, Whole, Held, Total, Unit;
    SoundTotal(s);
    RoomInGroups(s.isPD, s.capacity, |Held(s)|, s.pendingCreate, s.pendingDelete);
  }

  lemma RoomInGroups(isPD: bool, capacity: int, held: int, creating: int, deleting: int)
    requires capacity % Unit(isPD) == 0 && creating % Unit(isPD) == 0 && deleting % Unit(isPD) == 0
    ensures (capacity - (Unit(isPD) * held + creating + deleting)) % Unit(isPD) == 0
  {
    if isPD {
      assert (capacity - (16 * held + creating + deleting)) % 16 == 0;
    }
  }

  /** A positive number of addresses that is whole groups is the group size times the count of the create job. */
  lemma WholeGroups(isPD: bool, amount: int)
    requires amount > 0 && amount % Unit(isPD) == 0
    ensures var count := if isPD then GoDiv(amount, NUM_IPV4_ADDR_PER_PREFIX) else amount;
            count >= 1 && Unit(isPD) * count == amount
  {
  }

  lemma WrapWhole(x: int)
    ensures Wrap64(16 * x) % 16 == 0 && Wrap64(x * 16) % 16 == 0
  {
  }

  lemma DeviationIsWhole(s: Pool)
    ensures Deviation(s) % Unit(s.isPD) == 0
  {
    hide SecondaryDeviation, PDChange, Wrap64, NumResources, FreeGroups;
    if s.isPD {
      var total := |s.used| + s.pendingCreate + NumResources(s.warm) + |s.cooling|;
      WrapWhole(PDChange(s.config, |s.used|, total, s.pendingCreate, |FreeGroups(s.warm, NUM_IPV4_ADDR_PER_PREFIX)|));
    }
  }

  /** No value computed on the way to the secondary deviation leaves the range of a 64-bit integer. */
  lemma SecondaryInRange(w: World)
    requires Sound(w) && !w.pool.isPD
    ensures var available := NumResources(w.pool.warm) + w.pool.pendingCreate;
            var total := |w.pool.used| + available + |w.pool.cooling|;
            && WarmTarget(false, w.pool.config) >= 0 && MinTarget(false, w.pool.config) >= 0
            && 0 <= available <= total <= MAX_INT64
            && MIN_INT64 < WarmTarget(false, w.pool.config) - available <= MAX_INT64
            && MIN_INT64 < available - WarmTarget(false, w.pool.config) <= MAX_INT64
            && MIN_INT64 < MinTarget(false, w.pool.config) - total <= MAX_INT64
            && MIN_INT64 < total - MinTarget(false, w.pool.config) <= MAX_INT64
            && MIN_INT64 < SecondaryDeviation(w.pool) <= MAX_INT64
  {
    hide Sound, NormalSecondary, WarmTarget, MinTarget, NumResources, SecondaryDeviation;
    SoundCounts(w);
    TargetsInRange(w.pool.config);
    ShortOverInRange(w.pool);
  }

  lemma SoundCounts(w: World)
    requires Sound(w)
    ensures w.pool.pendingCreate >= 0
    ensures NumResources(w.pool.warm) + w.pool.pendingCreate + |w.pool.used| + |w.pool.cooling| <= MAX_INT64
  {
    hide Exclusive, Whole, DeletingOK, Queued, JobsOK, Counts, NumResources, Held, Unit;
    SoundTotal(w.pool);
    CountsNonNegative(w.pool.isPD, w.jobs, Create);
    CountsNonNegative(w.pool.isPD, w.jobs, Deleted);
    CountTimesUnit(w.pool.isPD, Counts(w.jobs, Create));
    CountTimesUnit(w.pool.isPD, Counts(w.jobs, Deleted));
  }

  lemma CountTimesUnit(isPD: bool, n: int)
    ensures n >= 0 ==> Unit(isPD) * n >= 0
  {
  }

  lemma TargetsInRange(c: WarmPoolConfig)
    ensures 0 <= WarmTarget(false, c) <= MAX_INT64 && 0 <= MinTarget(false, c) <= MAX_INT64
  {
  }

  lemma ShortOverInRange(s: Pool)
    requires !s.isPD && s.pendingCreate >= 0
    requires NumResources(s.warm) + s.pendingCreate + |s.used| + |s.cooling| <= MAX_INT64
    ensures MIN_INT64 < SecondaryDeviation(s) <= MAX_INT64
  {
    NormalIsGiven(false, s.config);
    TargetsInRange(s.config);
    hide NormalSecondary, WarmTarget, MinTarget, NumResources;
  }

  lemma DeviationInRange(w: World)
    requires Sound(w)
    ensures MIN_INT64 <= Deviation(w.pool) <= MAX_INT64
  {
    hide Sound, SecondaryDeviation, NumResources, PDChange;
    if !w.pool.isPD {
      SecondaryInRange(w);
    }
  }

  lemma PendingWhole(w: World)
    requires Pending(w)
    ensures w.pool.pendingCreate % Unit(w.pool.isPD) == 0 && w.pool.pendingDelete % Unit(w.pool.isPD) == 0
  {
  }

  lemma ReconcileCreates(w: World, n: Pool, w': World, job: WarmPoolJob)
    requires Sound(w) && !w.pool.reSyncRequired
    requires n == w.pool.(config := n.config) && n.config.maxDeviation >= 0
    requires Deviation(w.pool) > 0 && CreateStep(n, Deviation(w.pool), w'.pool, job)
    requires w' == World(w'.pool, if job.operation.NoReconcile? then w.jobs else w.jobs + [job], w.now)
    ensures Sound(w')
  {
    var s, s' := w.pool, w'.pool;
    hide Exclusive, Whole, JobsOK, Deviation, Queued, Counts, NumReSync, Deleting, CreateStep, Unit, Held, Total, Owned;
    SameContents(s, n);
    SameWhole(s, n);
    DeviationIsWhole(s);
    PendingWhole(w);
    if job == NO_RECONCILE {
      NoRoom(n, Deviation(s), s', job);
      SameOwned(w, w');
    } else {
      CreateIsWhole(n, Deviation(s), s', job);
      AddJob(w.jobs, job, Create);
      AddJob(w.jobs, job, Deleted);
      SameContents(s, s');
      SameWhole(s, s');
      SoundTotal(n);
      JobAppended(w.jobs, job, s.isPD);
      Distribute(Unit(s.isPD), Counts(w.jobs, Create), job.resourceCount);
    }
  }

  lemma NoRoom(s: Pool, deviation: int, s': Pool, job: WarmPoolJob)
    requires CreateStep(s, deviation, s', job) && job == NO_RECONCILE
    ensures s' == s && Total(s) == s.capacity
  {
    hide Total;
  }

  lemma TotalIgnoresConfig(s: Pool, c: WarmPoolConfig)
    ensures Total(s.(config := c)) == Total(s)
  {
    hide NumResources;
  }

  lemma SameWhole(s: Pool, s': Pool)
    requires s'.isPD == s.isPD && Owned(s') == Owned(s)
    ensures Whole(s) ==> Whole(s')
    ensures Held(s') == Held(s)
  {
    hide Owned, AllWellFormed, Expand;
  }

  lemma JobAppended(jobs: seq<WarmPoolJob>, job: WarmPoolJob, isPD: bool)
    requires JobsOK(isPD, jobs) && JobOK(isPD, job)
    ensures JobsOK(isPD, jobs + [job])
  {
    hide JobOK;
  }

  lemma DeleteAccounts(w: World, job: WarmPoolJob, gone: nat, w': World)
    requires Pending(w) && Capped(w.pool)
    requires job.operation.Deleted? && job.resourceCount == gone
    requires w'.jobs == w.jobs + [job] && |Held(w.pool)| == |Held(w'.pool)| + gone
    requires w'.pool.isPD == w.pool.isPD && w'.pool.capacity == w.pool.capacity
             && w'.pool.pendingCreate == w.pool.pendingCreate
    requires w'.pool.pendingDelete == w.pool.pendingDelete + Unit(w.pool.isPD) * gone
    ensures Pending(w') && Capped(w'.pool)
  {
    hide Counts, Held, Unit;
    AddJob(w.jobs, job, Create);
    AddJob(w.jobs, job, Deleted);
    Distribute(Unit(w.pool.isPD), |Held(w'.pool)|, gone);
    Distribute(Unit(w.pool.isPD), Counts(w.jobs, Deleted), gone);
  }

  lemma ReconcileDeletes(w: World, n: Pool, amount: int, w': World, job: WarmPoolJob)
    requires Sound(w) && !w.pool.reSyncRequired
    requires n == w.pool.(config := n.config) && n.config.maxDeviation >= 0
    requires amount > 0 && DeleteStep(n, amount, w'.pool, job)
    requires w' == World(w'.pool, if job.operation.NoReconcile? then w.jobs else w.jobs + [job], w.now)
    ensures Sound(w')
  {
    hide Sound, FreeGroups, NoDup, Unit, Ceiling, Elems;
    var free := FreeGroups(n.warm, Unit(n.isPD));
    if free == {} {
      ConfigKeeps(w, w');
    } else {
      UnitPositive(n.isPD);
      FreeNonEmpty(free, amount, Unit(n.isPD), |job.resources|);
      hide DeleteStep;
      DeletesSome(w, n, w', job);
    }
  }

  lemma ConfigKeeps(w: World, w': World)
    requires Sound(w) && w' == w.(pool := w.pool.(config := w'.pool.config)) && w'.pool.config.maxDeviation >= 0
    ensures Sound(w')
  {
    hide Exclusive, Whole, Queued, Owned, Pending, Capped, JobsOK, DeletingOK;
    SameContents(w.pool, w'.pool);
    SameOwned(w, w');
  }

  lemma DeletesSome(w: World, n: Pool, w': World, job: WarmPoolJob)
    requires Sound(w) && n == w.pool.(config := n.config) && n.config.maxDeviation >= 0
    requires job == NewWarmPoolDeleteJob(n.nodeName, job.resources) && |job.resources| >= 1
    requires NoDup(job.resources) && Elems(job.resources) <= FreeGroups(n.warm, Unit(n.isPD))
    requires w'.pool == n.(warm := n.warm - Elems(job.resources), pendingDelete := n.pendingDelete
               + Unit(n.isPD) * |job.resources|)
    requires w' == World(w'.pool, w.jobs + [job], w.now)
    ensures Sound(w')
  {
    var s, s', gs := w.pool, w'.pool, Elems(job.resources);
    hide Exclusive, Whole, JobsOK, Queued, Counts, NumReSync, Deleting, FreeGroups, NoDup, Held, Unit, Owned,
         Pending, Capped, Elems;
    SameContents(s, n);
    SameWhole(s, n);
    DeleteKeeps(n, gs, s');
    NoDupCard(job.resources);
    assert |Held(s)| == |Held(s')| + |gs| by {
      assert Held(s) == Held(s') + gs;
    }
    HeldWellFormed(n, gs);
    DeleteAccounts(w, job, |gs|, w');
    JobAppended(w.jobs, job, s.isPD);
    StartDeleting(w.jobs, job, Held(s), Held(s'));
  }

  lemma UnitPositive(isPD: bool)
    ensures Unit(isPD) > 0
  {
  }

  lemma FreeNonEmpty(free: set<string>, amount: int, unit: nat, n: nat)
    requires free != {} && amount > 0 && unit > 0 && n == Min(|free|, Ceiling(amount, unit))
    ensures n >= 1
  {
    assert |free| >= 1 by {
      var g :| g in free;
      assert {g} <= free;
      SubsetCard({g}, free);
    }
    assert (amount + unit - 1) / unit >= 1 by {
      QuotientPositive(amount + unit - 1, unit);
    }
  }

  lemma QuotientPositive(x: int, y: int)
    requires 0 < y <= x
    ensures x / y >= 1
  {
    if x / y < 1 {
      MulMonotone(x / y, 0, y);
    }
  }

  lemma HeldWellFormed(s: Pool, gs: set<string>)
    requires Whole(s) && gs <= Held(s)
    ensures AllWellFormed(s.isPD, gs)
  {
  }

  lemma StartDeleting(jobs: seq<WarmPoolJob>, job: WarmPoolJob, held: set<string>, held': set<string>)
    requires forall g :: Deleting(jobs)[g] <= 1
    requires forall g :: g in Deleting(jobs) ==> g !in held
    requires job.operation.Deleted? && NoDup(job.resources) && Elems(job.resources) <= held
    requires held' == held - Elems(job.resources)
    ensures forall g :: Deleting(jobs + [job])[g] <= 1
    ensures forall g :: g in Deleting(jobs + [job]) ==> g !in held'
  {
    AddJob(jobs, job, Deleted);
    hide Deleting;
    forall g ensures multiset(job.resources)[g] <= 1 {
      NoDupMultiplicity(job.resources, g);
    }
    forall g | g in multiset(job.resources) ensures g in Elems(job.resources) {}
  }

  lemma {:induction false} NoDupMultiplicity<T>(s: seq<T>, x: T)
    requires NoDup(s)
    ensures multiset(s)[x] <= 1
  {
    if s != [] {
      var init, last := s[..|s| - 1], s[|s| - 1];
      assert s == init + [last];
      NoDupMultiplicity(init, x);
      assert last !in init;
    }
  }

  lemma ReconcileKeeps(w: World, job: WarmPoolJob, w': World)
    requires Sound(w) && Step(w, Reconcile(job), w')
    ensures Sound(w')
  {
    var s := w.pool;
    hide Exclusive, Whole, JobsOK, Deviation, Queued, Counts, NumReSync, Deleting, CreateStep, DeleteStep, Normal,
         Capped, DeletingOK, Wrap64;
    var n := s.(config := Normal(s.isPD, s.config));
    NormalKeepsDeviation(s.isPD, s.config);
    if s.reSyncRequired {
      SameContents(s, w'.pool);
      if !job.operation.NoReconcile? {
        AddJob(w.jobs, job, Create);
        AddJob(w.jobs, job, Deleted);
        ReSyncEmitted(w, w', job);
      }
    } else if w'.pool == n && job == NO_RECONCILE {
      SameContents(s, n);
      SameOwned(w, w');
    } else if w'.pool == s && job == NO_RECONCILE {
    } else if Deviation(s) > s.config.maxDeviation {
      ReconcileCreates(w, n, w', job);
    } else {
      ReconcileDeletes(w, n, Wrap64(-Deviation(s)), w', job);
    }
  }

  lemma NormalKeepsDeviation(isPD: bool, c: WarmPoolConfig)
    ensures Normal(isPD, c).maxDeviation == c.maxDeviation && Normal(isPD, c).desiredSize == c.desiredSize
    ensures c.desiredSize != 0 ==> Normal(isPD, c).warmPrefixTarget == c.warmPrefixTarget
  {
  }

  lemma ReSyncEmitted(w: World, w': World, job: WarmPoolJob)
    requires Sound(w) && w.pool.reSyncRequired && w.pool.pendingCreate == 0 && w.pool.pendingDelete == 0
    requires job.operation.ReSyncPool? && w' == World(w.pool, w.jobs + [job], w.now)
    ensures Sound(w')
  {
    hide Exclusive, Whole, JobsOK, Queued, Counts, NumReSync, Deleting, Held;
    AddJob(w.jobs, job, Create);
    AddJob(w.jobs, job, Deleted);
    JobAppended(w.jobs, job, w.pool.isPD);
  }

  // ------------------------------------------------------------------ job completion

  lemma JobRemoved(jobs: seq<WarmPoolJob>, k: nat, isPD: bool)
    requires k < |jobs| && JobsOK(isPD, jobs)
    ensures JobsOK(isPD, Remove(jobs, k))
    ensures JobOK(isPD, jobs[k])
  {
    hide JobOK;
  }

  /** The groups a completed job may bring back: new to the pool, and not being deleted by any other job. */
  lemma ReturnedFresh(w: World, k: nat, returned: seq<string>)
    requires Sound(w) && k < |w.jobs|
    requires w.jobs[k].operation.Create? ==> CreatedOK(w, w.jobs[k], returned)
    requires w.jobs[k].operation.Deleted? ==> UndeletedOK(w.jobs[k], returned)
    requires w.jobs[k].operation.Create? || w.jobs[k].operation.Deleted?
    ensures NoDup(returned) && AllWellFormed(w.pool.isPD, Elems(returned)) && Elems(returned) !! Held(w.pool)
    ensures |returned| <= w.jobs[k].resourceCount
    ensures forall g :: g in returned ==> g !in Deleting(Remove(w.jobs, k))
  {
    hide Exclusive, Whole, Queued, Counts, NumReSync, Deleting, Held, WellFormed, Pending, Capped, Remove;
    var job := w.jobs[k];
    JobRemoved(w.jobs, k, w.pool.isPD);
    RemoveJob(w.jobs, k);
    if job.operation.Deleted? {
      forall g | g in returned ensures g in job.resources && g in Deleting(w.jobs)
        && g !in Deleting(Remove(w.jobs, k)) {
        assert g in Elems(returned);
        assert multiset(job.resources)[g] >= 1;
      }
      NoDupCard(returned);
      NoDupCard(job.resources);
      SubsetCard(Elems(returned), Elems(job.resources));
    }
  }

  /** A completed job gives back its whole reservation and takes at most that much. */
  lemma Settles(u: nat, held: int, back: int, left: int, n: int, pending: int, other: int, capacity: int)
    requires back <= n && pending == u * (left + n) && u * held + pending + other <= capacity
    ensures pending - u * n == u * left
    ensures u * (held + back) + (pending - u * n) + other <= capacity
  {
    Distribute(u, left, n);
    Distribute(u, held, back);
    MulMonotone(back, n, u);
  }

  /** A completed job releases exactly what was reserved for it. */
  ghost predicate Released(s: Pool, job: WarmPoolJob, s': Pool) {
    && s'.pendingCreate == s.pendingCreate - (if job.operation.Create? then Unit(s.isPD) * job.resourceCount else 0)
    && s'.pendingDelete == s.pendingDelete - (if job.operation.Deleted? then Unit(s.isPD) * job.resourceCount else 0)
  }

  lemma CompleteAccounts(w: World, k: nat, returned: seq<string>, w': World)
    requires Pending(w) && Capped(w.pool) && k < |w.jobs|
    requires w.jobs[k].operation.Create? || w.jobs[k].operation.Deleted?
    requires |returned| <= w.jobs[k].resourceCount
    requires w'.jobs == Remove(w.jobs, k) && |Held(w'.pool)| == |Held(w.pool)| + |returned|
    requires w'.pool.isPD == w.pool.isPD && w'.pool.capacity == w.pool.capacity
    requires Released(w.pool, w.jobs[k], w'.pool)
    ensures Pending(w') && Capped(w'.pool)
  {
    hide Counts, NumReSync, Deleting, Held, Remove, Unit;
    RemoveJob(w.jobs, k);
    var s, u, n := w.pool, Unit(w.pool.isPD), w.jobs[k].resourceCount;
    if w.jobs[k].operation.Create? {
      Settles(u, |Held(s)|, |returned|, Counts(w'.jobs, Create), n, s.pendingCreate, s.pendingDelete, s.capacity);
    } else {
      Settles(u, |Held(s)|, |returned|, Counts(w'.jobs, Deleted), n, s.pendingDelete, s.pendingCreate, s.capacity);
    }
  }

  lemma CompletePool(w: World, k: nat, returned: seq<string>, didSucceed: bool, prefixAvailable: bool, w': World)
    requires Sound(w) && CompleteStep(w, k, returned, didSucceed, prefixAvailable, w')
    ensures Exclusive(w'.pool) && Whole(w'.pool)
    ensures Held(w'.pool) == Held(w.pool) + Elems(returned)
    ensures |Held(w'.pool)| == |Held(w.pool)| + |returned|
    ensures forall g :: g in returned ==> g !in Deleting(w'.jobs)
    ensures |returned| <= w.jobs[k].resourceCount
  {
    hide Exclusive, Whole, Queued, Held, AllWellFormed, NoDup, AddGroups, JobsOK, CreatedOK, UndeletedOK, Unit,
         Pending, Capped, DeletingOK, Deleting;
    ReturnedFresh(w, k, returned);
    UpdateKeeps(w.pool, w.jobs[k].(resources := returned), didSucceed, prefixAvailable);
    NoDupCard(returned);
  }

  lemma CompleteFrame(w: World, k: nat, returned: seq<string>, didSucceed: bool, prefixAvailable: bool, w': World)
    requires CompleteStep(w, k, returned, didSucceed, prefixAvailable, w')
    ensures k < |w.jobs| && (w.jobs[k].operation.Create? || w.jobs[k].operation.Deleted?)
    ensures w'.jobs == Remove(w.jobs, k) && w'.now == w.now
    ensures w'.pool.isPD == w.pool.isPD && w'.pool.capacity == w.pool.capacity
    ensures w'.pool.config == w.pool.config && w'.pool.cooling == w.pool.cooling
    ensures Released(w.pool, w.jobs[k], w'.pool)
  {
    hide Unit, AddGroups, CreatedOK, UndeletedOK, Remove;
  }

  lemma CompleteKeeps(w: World, k: nat, returned: seq<string>, didSucceed: bool, prefixAvailable: bool, w': World)
    requires Sound(w) && CompleteStep(w, k, returned, didSucceed, prefixAvailable, w')
    ensures Sound(w')
  {
    hide CompleteStep, Exclusive, Whole, Queued, Counts, NumReSync, Deleting, Held, Remove, JobsOK, Pending, Capped,
         DeletingOK, Released;
    CompleteFrame(w, k, returned, didSucceed, prefixAvailable, w');
    CompletePool(w, k, returned, didSucceed, prefixAvailable, w');
    JobRemoved(w.jobs, k, w.pool.isPD);
    RemoveJob(w.jobs, k);
    CompleteAccounts(w, k, returned, w');
    StillDeleting(w, w', returned);
  }

  lemma StillDeleting(w: World, w': World, returned: seq<string>)
    requires DeletingOK(w) && Held(w'.pool) == Held(w.pool) + Elems(returned)
    requires Deleting(w'.jobs) <= Deleting(w.jobs)
    requires forall g :: g in returned ==> g !in Deleting(w'.jobs)
    ensures DeletingOK(w')
  {
    hide Deleting, Held;
  }

  lemma ReSyncQueued(q: seq<CoolDownResource>, gone: set<Resource>, now: int)
    requires Queued(q, now)
    ensures Queued(PurgeQueue(q, gone), now)
  {
    var q' := PurgeQueue(q, gone);
    forall i, j | 0 <= i < j < |q'| ensures q'[i].deletionTimestamp <= q'[j].deletionTimestamp {
      var a, b := PurgeQueueOrder(q, gone, i, j);
    }
    forall i | 0 <= i < |q'| ensures q'[i].deletionTimestamp <= now {
      var a := PurgeQueueFrom(q, gone, i);
    }
  }

  lemma ReSyncStepKeeps(w: World, k: nat, upstream: seq<string>, w': World)
    requires Sound(w) && Settled(w, ReSyncDone(k, upstream)) && Step(w, ReSyncDone(k, upstream), w')
    ensures Sound(w')
  {
    var s, s' := w.pool, w'.pool;
    hide Exclusive, Whole, Queued, Counts, NumReSync, Deleting, Held, UpstreamOK, Remove, JobsOK, ReSynced, JobOK;
    RemoveJob(w.jobs, k);
    JobRemoved(w.jobs, k, s.isPD);
    if s.reSyncRequired {
      CountsZero(s.isPD, w.jobs, Deleted);
      NothingDeleting(w.jobs);
      ReSyncKeeps(s, upstream);
      ReSyncFixed(s, upstream);
      ReSyncedQueued(s, upstream, w.now);
      UpstreamFits(s, upstream);
    } else {
      ReSyncIgnored(s, upstream);
    }
  }

  /** A re-sync that nobody needs any more is ignored. */
  lemma ReSyncIgnored(s: Pool, upstream: seq<string>)
    requires !s.reSyncRequired
    ensures ReSynced(s, upstream) == s
  {
  }

  lemma UpstreamFits(s: Pool, upstream: seq<string>)
    requires UpstreamOK(s, upstream)
    ensures Unit(s.isPD) * |Attached(s.isPD, upstream) + UsedGroups(s)| <= s.capacity
  {
  }

  lemma ReSyncedQueued(s: Pool, upstream: seq<string>, now: int)
    requires Queued(s.cooling, now)
    ensures Queued(ReSynced(s, upstream).cooling, now)
  {
    hide Queued, PurgeQueue, Purge, AppendAll, UpstreamResources;
    if s.reSyncRequired {
      ReSyncQueued(s.cooling, Owned(s) - Elems(UpstreamResources(s.isPD, upstream)), now);
    }
  }

  lemma AbortKeeps(w: World, k: nat, w': World)
    requires Sound(w) && Step(w, ReSyncAborted(k), w')
    ensures Sound(w')
  {
    hide Exclusive, Whole, Queued, Counts, NumReSync, Deleting, Held, Remove, JobsOK, JobOK;
    RemoveJob(w.jobs, k);
    JobRemoved(w.jobs, k, w.pool.isPD);
  }

  /** Every step keeps the invariant, as long as no re-sync takes effect while a create or delete is in flight. */
  lemma StepKeeps(w: World, e: Event, w': World)
    requires Sound(w) && Settled(w, e) && Step(w, e, w')
    ensures Sound(w')
  {
    hide Sound, CompleteStep;
    match e
    case Reconcile(job) => ReconcileKeeps(w, job, w');
    case Complete(k, returned, didSucceed, prefixAvailable) => CompleteKeeps(w, k, returned, didSucceed,
        prefixAvailable, w');
    case ReSyncDone(k, upstream) => ReSyncStepKeeps(w, k, upstream, w');
    case ReSyncAborted(k) => AbortKeeps(w, k, w');
    case _ => MoveStep(w, e, w');
  }

  // ------------------------------------------------------------------ one re-sync at a time

  /** The discipline that rules such re-syncs out. */
  ghost predicate SingleReSync(w: World) {
    NumReSync(w.jobs) <= 1
  }

  /** While a re-sync is in flight the flag is up and nothing is being created or deleted. */
  ghost predicate Quiet(w: World) {
    NumReSync(w.jobs) > 0 ==> w.pool.reSyncRequired && Counts(w.jobs, Create) == 0 && Counts(w.jobs, Deleted) == 0
  }

  /** A create or delete in flight excludes a re-sync in flight. */
  lemma CompletedCounts(w: World, k: nat)
    requires Quiet(w) && JobsOK(w.pool.isPD, w.jobs) && k < |w.jobs|
    requires w.jobs[k].operation.Create? || w.jobs[k].operation.Deleted?
    ensures NumReSync(w.jobs) == 0
  {
    hide Counts, NumReSync;
    CountsZero(w.pool.isPD, w.jobs, w.jobs[k].operation);
  }

  /** With one re-sync outstanding at a time, a re-sync in flight keeps the pool quiet until it is done. */
  lemma QuietStep(w: World, e: Event, w': World)
    requires Sound(w) && Quiet(w) && SingleReSync(w) && Step(w, e, w')
    ensures Quiet(w') && Settled(w, e)
  {
    hide Exclusive, Whole, Queued, Counts, NumReSync, Deleting, DeletingOK, Held, UpstreamOK, Remove, JobsOK,
         ReSynced, AssignStep, CooledDown, ReconcileStep, Freed, Unit, Capped;
    match e
    case Assign(requester, outcome) => AssignKeeps(w.pool, requester, w'.pool, outcome);
    case Free(requester, resourceID) => FreedFrame(w.pool, requester, resourceID, w.now);
    case CoolDown(clock) => CooledFlag(w.pool, clock);
    case Reconcile(job) => QuietReconcile(w, job, w');
    case SetConfig(config) =>
    case Tick(later) =>
    case Complete(k, returned, didSucceed, prefixAvailable) =>
      CompletedCounts(w, k);
      RemoveJob(w.jobs, k);
    case ReSyncDone(k, upstream) => RemoveJob(w.jobs, k);
    case ReSyncAborted(k) => RemoveJob(w.jobs, k);
  }

  lemma CooledFlag(s: Pool, clock: seq<int>)
    requires |clock| >= |s.cooling|
    ensures CooledDown(s, clock).reSyncRequired == s.reSyncRequired
  {
  }

  lemma QuietReconcile(w: World, job: WarmPoolJob, w': World)
    requires Sound(w) && Quiet(w) && Step(w, Reconcile(job), w')
    ensures Quiet(w')
  {
    hide Exclusive, Whole, Queued, Counts, NumReSync, Deleting, DeletingOK, Held, JobsOK, Deviation, Normal,
         CreateStep, DeleteStep, Capped;
    AddJob(w.jobs, job, Create);
    AddJob(w.jobs, job, Deleted);
    if !w.pool.reSyncRequired {
      ReconcileEmits(w.pool, w'.pool, job);
    }
  }

  lemma ReconcileEmits(s: Pool, s': Pool, job: WarmPoolJob)
    requires ReconcileStep(s, s', job) && !s.reSyncRequired
    ensures !job.operation.ReSyncPool? && !s'.reSyncRequired
  {
    hide Deviation, Normal, FreeGroups, NoDup, Total;
  }
}
