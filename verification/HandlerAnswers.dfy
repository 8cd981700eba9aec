/**
 What pkg/handler/warm.go answers to a pod event and which job it submits, in terms of the pool the event finds.
 */
module HandlerAnswers {
  import opened Collections
  import opened GoMath
  import opened PoolState
  import opened Jobs
  import opened Accounting
  import opened PoolOps
  import opened Ownership
  import opened Runs
  import opened Safety
  import opened Targets
  import opened Progress
  import opened DesiredState
  import opened Handler

  /** Some group has a warm address. */
  ghost predicate WarmAddress(s: Pool) {
    exists g :: g in s.warm && s.warm[g] != []
  }

  /** There is a group in the warm pool, or a new one can be had. */
  predicate Hopeful(s: Pool) {
    s.warm != map[] || !s.isPD || s.prefixAvailable
  }

  // ------------------------------------------------------------------ the answer

  /**
   The answer to a create event, by the counts of the pool: done for a pod that holds an address and is fetched,
   failed on a full node, a retry in twenty seconds while everything else is cooling, in 600 milliseconds while it is
   being created or deleted or when nothing is warm, in two minutes when no prefix is to be had, and otherwise what
   the annotation says.
   */
  lemma CreateAnswers(s: Pool, uid: string, annotates: bool, fetched: bool, now: int, c: Created)
    requires CreateHandled(s, uid, annotates, fetched, now, c)
    ensures c.result ==
            if uid in s.used then if fetched then Done else Failed
            else if |s.used| == s.capacity then Failed
            else if |s.used| + |s.cooling| == s.capacity then Requeue(20_000)
            else if |s.used| + |s.cooling| + s.pendingCreate + s.pendingDelete == s.capacity then Requeue(600)
            else if !Hopeful(s) then Requeue(120_000)
            else if !WarmAddress(s) then Requeue(600)
            else if annotates then Done
            else Failed
  {
    var mid, out :| AssignStep(s, uid, mid, out) && CreateEnds(mid, uid, out, annotates, fetched, now, c);
    hide Reconciled, Freed, CreateHandled;
    Answered(s, uid, mid, out);
    hide AssignStep, WarmAddress, Hopeful;
  }

  /** What the pool answers a request. */
  lemma Answered(s: Pool, uid: string, s': Pool, out: Assignment)
    requires AssignStep(s, uid, s', out)
    ensures if uid in s.used then out == Refused(ResourceAlreadyAssigned, false)
            else if |s.used| == s.capacity then out == Refused(PoolAtMaxCapacity, false)
            else if |s.used| + |s.cooling| == s.capacity then out == Refused(ResourceAreBeingCooledDown, false)
            else if |s.used| + |s.cooling| + s.pendingCreate + s.pendingDelete == s.capacity then
              out == Refused(ResourcesAreBeingCreated, false)
            else if !Hopeful(s) then out == Refused(InsufficientCidrBlocks, false)
            else if !WarmAddress(s) then out == Refused(WarmPoolEmpty, true)
            else out.Assigned?
    ensures out.Refused? ==> s' == s
  {
    NoGroups(s);
  }

  lemma NoGroups(s: Pool)
    ensures |s.warm| == 0 <==> s.warm == map[]
    ensures s.warm == map[] ==> !WarmAddress(s)
  {
    if |s.warm| == 0 {
      assert s.warm.Keys == {};
    }
  }

  // ------------------------------------------------------------------ the job

  /** The event gets as far as looking for a warm address. */
  predicate Looks(s: Pool, uid: string) {
    MayAsk(s, uid) && Hopeful(s)
  }

  /** A pool in which only the holdings of the event's pod may differ. */
  predicate SameButFor(s: Pool, s': Pool) {
    s' == s.(used := s'.used, warm := s'.warm, cooling := s'.cooling)
  }

  /**
   A create event submits exactly one job when it looks for a warm address, whether or not there is one, and none
   otherwise. The job is a reconcile of the pool as the event found it, but for the address it took.
   */
  lemma CreateSubmits(s: Pool, uid: string, annotates: bool, fetched: bool, now: int, c: Created)
    requires CreateHandled(s, uid, annotates, fetched, now, c)
    ensures Looks(s, uid) ==>
              |c.jobs| == 1 && exists ready :: SameButFor(s, ready) && ReconcileStep(ready, c.pool, c.jobs[0])
    ensures Looks(s, uid) && !WarmAddress(s) ==> |c.jobs| == 1 && ReconcileStep(s, c.pool, c.jobs[0])
    ensures !Looks(s, uid) ==> c.jobs == [] && c.pool == s
  {
    var mid, out :| AssignStep(s, uid, mid, out) && CreateEnds(mid, uid, out, annotates, fetched, now, c);
    hide ReconcileStep, Freed, CreateHandled, AfterRefusal, WarmAddress, Hopeful;
    Answered(s, uid, mid, out);
    TakenOnly(s, uid, mid, out);
    hide AssignStep;
    var ready := if out.Assigned? && !annotates then Freed(mid, uid, out.resourceID, now) else mid;
    if out.Assigned? {
      FreedFrame(mid, uid, out.resourceID, now);
    }
    assert SameButFor(s, ready);
    if Looks(s, uid) {
      assert ReconcileStep(ready, c.pool, c.jobs[0]);
    }
  }

  lemma TakenOnly(s: Pool, uid: string, s': Pool, out: Assignment)
    requires AssignStep(s, uid, s', out)
    ensures SameButFor(s, s')
  {
    hide Refusal, HasWarm;
  }

  /**
   A create event on an empty, active pool that may still grow submits a create job exactly when the targets call for
   one: retrying pods fill the pool.
   */
  lemma CreateEventRefillsIff(w: World, uid: string, annotates: bool, fetched: bool, c: Created)
    requires Sound(w) && !w.pool.reSyncRequired && w.pool.config.desiredSize != 0 && w.pool.config.maxDeviation == 0
    requires NumResources(w.pool.warm) == 0 && w.pool.cooling == [] && w.pool.pendingCreate == 0
    requires MayAsk(w.pool, uid) && Hopeful(w.pool)
    requires CreateHandled(w.pool, uid, annotates, fetched, w.now, c)
    ensures |c.jobs| == 1 && (c.jobs[0].operation.Create? && c.jobs[0].resourceCount >= 1 <==> Refills(w.pool))
    ensures w.pool.isPD && TargetsFit(true, w.pool.config, |w.pool.used|) ==> c.jobs[0].operation.Create?
  {
    hide Sound, ReconcileStep, CreateHandled, Refills, TargetsFit, NumResources;
    WarmCounts(w.pool.warm);
    CreateSubmits(w.pool, uid, annotates, fetched, w.now, c);
    EmptyTotal(w.pool);
    var job := c.jobs[0];
    var w' := World(c.pool, if job.operation.NoReconcile? then w.jobs else w.jobs + [job], w.now);
    EmptyReconciles(w, job, w');
    if w.pool.isPD && TargetsFit(true, w.pool.config, |w.pool.used|) {
      FittingRefills(w.pool);
    }
  }

  lemma EmptyTotal(s: Pool)
    requires NumResources(s.warm) == 0
    ensures Total(s) == |s.used| + |s.cooling| + s.pendingCreate + s.pendingDelete
  {
    hide NumResources;
  }

  /**
   A delete event takes effect exactly when the pod holds an address and the event carries it or carries none. Then
   the address goes to the end of the queue and the pool's reconcile is submitted; otherwise nothing happens.
   */
  lemma DeleteSubmits(s: Pool, uid: string, annotation: Option<string>, now: int, s': Pool, jobs: seq<WarmPoolJob>)
    requires DeleteHandled(s, uid, annotation, now, s', jobs)
    ensures if uid in s.used && (annotation.None? || annotation.value == s.used[uid].resourceID) then
              && |jobs| == 1
              && ReconcileStep(s.(used := s.used - {uid}, cooling := s.cooling + [CoolDownResource(s.used[uid], now)]),
                               s', jobs[0])
            else s' == s && jobs == []
  {
    hide ReconcileStep;
  }
}
