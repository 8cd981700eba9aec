/**
 pkg/handler/warm.go: pod events driving the pool, with roll-back when a pod cannot be annotated.
 */
module Handler {
  import opened Collections
  import opened GoMath
  import opened PoolState
  import opened Jobs
  import opened Accounting
  import opened PoolOps
  import opened Ownership
  import opened Safety
  import opened CoolDowns
  import opened Progress
  import opened WarmPools

  /** ctrl.Result and error; the requeue delays are in milliseconds. */
  datatype Outcome = Done | Requeue(after: int) | Failed

  const REQUEUE_AFTER_WHEN_PREFIX_NOT_AVAILABLE := 120_000
  const REQUEUE_AFTER_WHEN_WP_EMPTY := 600
  const REQUEUE_AFTER_WHEN_RESOURCE_COOLING := 20_000

  /** What becomes of the event when the pool refuses. `fetched` is whether the API server returned the pod. */
  function AfterRefusal(err: PoolError, fetched: bool): Outcome {
    match err
    case ResourceAreBeingCooledDown => Requeue(REQUEUE_AFTER_WHEN_RESOURCE_COOLING)
    case ResourcesAreBeingCreated => Requeue(REQUEUE_AFTER_WHEN_WP_EMPTY)
    case WarmPoolEmpty => Requeue(REQUEUE_AFTER_WHEN_WP_EMPTY)
    case InsufficientCidrBlocks => Requeue(REQUEUE_AFTER_WHEN_PREFIX_NOT_AVAILABLE)
    // The error returned for an unannotated pod is that of the successful fetch: none.
    case ResourceAlreadyAssigned => if fetched then Done else Failed
    case _ => Failed
  }

  /** A pool before and after an optional reconcile, and the job that it submits. */
  ghost predicate Reconciled(s: Pool, shouldReconcile: bool, s': Pool, jobs: seq<WarmPoolJob>) {
    if shouldReconcile then |jobs| == 1 && ReconcileStep(s, s', jobs[0]) else s' == s && jobs == []
  }

  /** What a create event does to the pool, the annotation it writes, its outcome and the jobs it submits. */
  datatype Created = Created(pool: Pool, note: Option<string>, result: Outcome, jobs: seq<WarmPoolJob>)

  /** A create event of a pod without annotation: assign, annotate, roll back if that fails, reconcile. */
  ghost predicate CreateHandled(s: Pool, uid: string, annotates: bool, fetched: bool, now: int, c: Created) {
    exists mid, out :: AssignStep(s, uid, mid, out) && CreateEnds(mid, uid, out, annotates, fetched, now, c)
  }

  /** What is left of a create event once the pool has answered. */
  ghost predicate CreateEnds(mid: Pool, uid: string, out: Assignment, annotates: bool, fetched: bool, now: int,
                             c: Created) {
    match out
    case Refused(err, shouldReconcile) =>
      Reconciled(mid, shouldReconcile, c.pool, c.jobs) && c.note == None && c.result == AfterRefusal(err, fetched)
    case Assigned(id) =>
      && Reconciled(if annotates then mid else Freed(mid, uid, id, now), true, c.pool, c.jobs)
      && c.note == (if annotates then Some(id) else None)
      && c.result == if annotates then Done else Failed
  }

  /** The resource a delete event is about: the annotation, else what the pool has on record. */
  function DeletedID(s: Pool, uid: string, annotation: Option<string>): Option<string> {
    if annotation.Some? then annotation
    else if uid in s.used then Some(s.used[uid].resourceID)
    else None
  }

  ghost predicate DeleteHandled(s: Pool, uid: string, annotation: Option<string>, now: int, s': Pool,
                                jobs: seq<WarmPoolJob>) {
    var id := DeletedID(s, uid, annotation);
    if id.None? || FreeRefusal(s, uid, id.value).Some? then s' == s && jobs == []
    else Reconciled(Freed(s, uid, id.value, now), true, s', jobs)
  }

  class WarmResourceHandler {
    const pool: WarmPool
    /** The pods' annotations of this handler's resource, as the API server has them. */
    var annotations: map<string, string>
    /** The jobs handed to the provider's worker. */
    var submitted: seq<WarmPoolJob>

    constructor (pool: WarmPool, annotations: map<string, string>)
      ensures this.pool == pool && this.annotations == annotations && submitted == []
    {
      this.pool, this.annotations, submitted := pool, annotations, [];
    }

    /** reconcilePool; the operation of a returned job is never empty, so every job is submitted. */
    method ReconcilePool(shouldReconcile: bool) returns (ghost jobs: seq<WarmPoolJob>)
      requires pool.Valid()
      modifies this`submitted, pool
      ensures pool.Valid() && Reconciled(old(pool.State()), shouldReconcile, pool.State(), jobs)
      ensures submitted == old(submitted) + jobs
    {
      hide ReconcileStep;
      jobs := [];
      if shouldReconcile {
        var job := pool.ReconcilePool();
        submitted := submitted + [job];
        jobs := [job];
      }
    }

    /**
     HandleCreate. `found` is whether the pod's node has a pool, which then is this one; `cached` is the annotation in
     the pod cache; the other booleans are what the API server will answer. Without a pool the event fails. Exactly
     the job of the reconcile is submitted, and nothing when there is none.
     */
    method HandleCreate(found: bool, uid: string, cached: Option<string>, annotates: bool, fetched: bool, now: int)
      returns (result: Outcome)
      requires pool.Valid()
      modifies this`annotations, this`submitted, pool
      ensures pool.Valid()
      ensures !found || cached.Some? ==> && result == (if found then Done else Failed)
                                         && pool.State() == old(pool.State())
                                         && annotations == old(annotations) && submitted == old(submitted)
      ensures found && cached.None? ==> exists c ::
                                 && CreateHandled(old(pool.State()), uid, annotates, fetched, now, c)
                                 && pool.State() == c.pool && result == c.result && submitted == old(submitted) + c.jobs
                                 && annotations
                                    == if c.note.Some? then old(annotations)[uid := c.note.value] else old(annotations)
    {
      hide AssignStep, Freed, ReconcileStep, Reconciled;
      if !found {
        return Failed;
      }
      if cached.Some? {
        return Done;
      }
      ghost var s := pool.State();
      var out := pool.AssignResource(uid);
      ghost var mid := pool.State();
      ghost var jobs;
      match out
      case Refused(err, shouldReconcile) =>
        jobs := ReconcilePool(shouldReconcile);
        result := AfterRefusal(err, fetched);
        assert CreateHandled(s, uid, annotates, fetched, now, Created(pool.State(), None, result, jobs));
      case Assigned(id) =>
        if annotates {
          annotations := annotations[uid := id];
          result := Done;
        } else {
          var _, _ := pool.FreeResource(uid, id, now);
          result := Failed;
        }
        jobs := ReconcilePool(true);
        ghost var c := Created(pool.State(), if annotates then Some(id) else None, result, jobs);
        assert CreateEnds(mid, uid, out, annotates, fetched, now, c);
        assert CreateHandled(s, uid, annotates, fetched, now, c);
    }

    /** HandleDelete; an event of a pod whose node has no pool is dropped. */
    method HandleDelete(found: bool, uid: string, annotation: Option<string>, now: int) returns (result: Outcome)
      requires pool.Valid()
      modifies this`submitted, pool
      ensures pool.Valid() && result == Done
      ensures !found ==> pool.State() == old(pool.State()) && submitted == old(submitted)
      ensures found ==> exists jobs :: && DeleteHandled(old(pool.State()), uid, annotation, now, pool.State(), jobs)
                             && submitted == old(submitted) + jobs
    {
      hide Freed, ReconcileStep, Reconciled;
      result := Done;
      if !found {
        return;
      }
      ghost var s := pool.State();
      var resourceID := "";
      if annotation.Some? {
        resourceID := annotation.value;
      } else {
        var present;
        resourceID, present := pool.GetAssignedResource(uid);
        if !present {
          assert DeleteHandled(s, uid, annotation, now, pool.State(), []);
          return;
        }
      }
      var shouldReconcile, err := pool.FreeResource(uid, resourceID, now);
      if err.Some? {
        FreeRefused(s, uid, resourceID, now);
        assert DeleteHandled(s, uid, annotation, now, pool.State(), []);
        return;
      }
      ghost var jobs := ReconcilePool(shouldReconcile);
      assert DeleteHandled(s, uid, annotation, now, pool.State(), jobs);
    }
  }

  lemma FreeRefused(s: Pool, uid: string, id: string, now: int)
    requires FreeRefusal(s, uid, id).Some?
    ensures Freed(s, uid, id, now) == s
  {
  }

  // ------------------------------------------------------------------ what handling an event amounts to

  lemma ReconciledFrame(s: Pool, shouldReconcile: bool, s': Pool, jobs: seq<WarmPoolJob>)
    requires Reconciled(s, shouldReconcile, s', jobs)
    ensures s'.used == s.used && s'.cooling == s.cooling
  {
    hide ReconcileStep;
    if shouldReconcile {
      ReconcileFrame(s, s', jobs[0]);
    }
  }

  /** A create event for which the pool has an address. */
  ghost predicate Takes(s: Pool, uid: string) {
    Refusal(s, uid).None? && HasWarm(s)
  }

  /** The address with which a freed resource is waiting at the end of the queue. */
  ghost predicate CoolsOne(s: Pool, now: int, s': Pool) {
    exists r :: r in WarmSet(s.warm) && s'.cooling == s.cooling + [CoolDownResource(r, now)]
  }

  /**
   A create event annotates exactly when the pool has an address and the API server takes the annotation; then the
   pod holds the annotated address and nothing else changes hands. When the annotation fails, the address taken for
   the pod is cooling. In every other case nobody's holdings change.
   */
  lemma AnnotatedIffUsed(s: Pool, uid: string, annotates: bool, fetched: bool, now: int, c: Created)
    requires Keyed(s.warm) && CreateHandled(s, uid, annotates, fetched, now, c)
    ensures c.note.Some? <==> Takes(s, uid) && annotates
    ensures c.note.Some? ==> && uid !in s.used && uid in c.pool.used && c.pool.used[uid].resourceID == c.note.value
                             && c.pool.used[uid] in WarmSet(s.warm)
                             && c.pool.used == s.used[uid := c.pool.used[uid]]
                             && c.pool.cooling == s.cooling && c.result == Done
    ensures c.note.None? ==> c.pool.used == s.used
    ensures Takes(s, uid) && !annotates ==> CoolsOne(s, now, c.pool) && c.result == Failed
    ensures c.note.None? && !(Takes(s, uid) && !annotates) ==> c.pool.cooling == s.cooling
  {
    var mid, out :| AssignStep(s, uid, mid, out) && CreateEnds(mid, uid, out, annotates, fetched, now, c);
    hide CreateHandled, Keyed, WarmSet, Reconciled, HasWarm, AfterRefusal;
    match out
    case Refused(err, shouldReconcile) =>
      RefusedKeeps(s, uid, mid, out);
      ReconciledFrame(mid, shouldReconcile, c.pool, c.jobs);
    case Assigned(id) =>
      AssignedIsWarm(s, uid, mid, out);
      AssignedFrame(s, uid, mid, id);
      hide AssignStep;
      if annotates {
        ReconciledFrame(mid, true, c.pool, c.jobs);
      } else {
        ReconciledFrame(Freed(mid, uid, id, now), true, c.pool, c.jobs);
      }
  }

  lemma RefusedKeeps(s: Pool, uid: string, s': Pool, out: Assignment)
    requires AssignStep(s, uid, s', out) && out.Refused?
    ensures s' == s && !Takes(s, uid)
  {
    hide HasWarm;
  }

  lemma AssignedFrame(s: Pool, uid: string, s': Pool, id: string)
    requires AssignStep(s, uid, s', Assigned(id))
    ensures Takes(s, uid) && uid !in s.used
    ensures uid in s'.used && s'.used[uid].resourceID == id
    ensures s'.used == s.used[uid := s'.used[uid]] && s'.cooling == s.cooling
    ensures s'.used - {uid} == s.used
  {
    hide HasWarm;
    assert Takes(s, uid) && uid !in s.used;
    var g :| Pickable(s, g) && s' == AfterAssign(s, uid, g) && id == s.warm[g][0].resourceID;
    hide *;
    MapUpdate(s.used, uid, s.warm[g][0]);
  }

  lemma MapUpdate(m: map<string, Resource>, k: string, r: Resource)
    requires k !in m
    ensures m[k := r] == m[k := m[k := r][k]] && m[k := r] - {k} == m
  {
  }

  // ------------------------------------------------------------------ no address is lost

  /** Addresses leave the pool only with the groups of a submitted delete job, and none appears. */
  ghost predicate NothingLost(s: Pool, s': Pool, jobs: seq<WarmPoolJob>) {
    && Owned(s') <= Owned(s)
    && forall r :: r in Owned(s) && r !in Owned(s') ==> Leaves(r, jobs)
  }

  ghost predicate Leaves(r: Resource, jobs: seq<WarmPoolJob>) {
    exists k :: 0 <= k < |jobs| && jobs[k].operation.Deleted? && r.groupID in jobs[k].resources
  }

  lemma ReconciledLosesNothing(s: Pool, shouldReconcile: bool, s': Pool, jobs: seq<WarmPoolJob>)
    requires Keyed(s.warm) && Reconciled(s, shouldReconcile, s', jobs)
    ensures NothingLost(s, s', jobs)
  {
    hide ReconcileStep, Keyed, WarmSet, Leaves;
    if shouldReconcile {
      ReconcileFrame(s, s', jobs[0]);
      WarmOnlyShrinks(s, s', jobs[0]);
      if jobs[0].operation.Deleted? {
        WarmOrDropped(s.warm, Elems(jobs[0].resources));
        forall r | r in WarmSet(s.warm) && r !in WarmSet(s'.warm) ensures Leaves(r, jobs) {
          LeavesWith(r, jobs);
        }
        FewerWarm(s.warm, Elems(jobs[0].resources));
      }
    }
  }

  lemma LeavesWith(r: Resource, jobs: seq<WarmPoolJob>)
    requires |jobs| > 0 && jobs[0].operation.Deleted? && r.groupID in jobs[0].resources
    ensures Leaves(r, jobs)
  {
  }

  lemma WarmOnlyShrinks(s: Pool, s': Pool, job: WarmPoolJob)
    requires ReconcileStep(s, s', job)
    ensures s'.warm == if job.operation.Deleted? then s.warm - Elems(job.resources) else s.warm
  {
    hide Deviation, Normal, CreateStep, DeleteStep, Elems, Wrap64;
    var n := s.(config := Normal(s.isPD, s.config));
    if CreateStep(n, Deviation(s), s', job) {
      CreateKeepsWarm(n, Deviation(s), s', job);
    }
    if DeleteStep(n, Wrap64(-Deviation(s)), s', job) {
      DeleteDropsWarm(n, Wrap64(-Deviation(s)), s', job);
    }
  }

  lemma CreateKeepsWarm(s: Pool, deviation: int, s': Pool, job: WarmPoolJob)
    requires CreateStep(s, deviation, s', job)
    ensures s'.warm == s.warm && !job.operation.Deleted?
  {
    hide Total, GoDiv;
  }

  lemma DeleteDropsWarm(s: Pool, amount: int, s': Pool, job: WarmPoolJob)
    requires DeleteStep(s, amount, s', job)
    ensures s'.warm == if job.operation.Deleted? then s.warm - Elems(job.resources) else s.warm
  {
    hide FreeGroups, NoDup, Unit, Ceiling, Elems;
  }

  lemma FewerWarm(m: Groups, gs: set<string>)
    ensures WarmSet(m - gs) <= WarmSet(m)
  {
  }

  lemma WarmOrDropped(m: Groups, gs: set<string>)
    requires Keyed(m)
    ensures forall r :: r in WarmSet(m) ==> r in WarmSet(m - gs) || r.groupID in gs
  {
    forall r | r in WarmSet(m) && r.groupID !in gs ensures r in WarmSet(m - gs) {
      KeyOfWarm(m, m.Keys, r);
      assert r in (m - gs)[r.groupID];
    }
  }

  lemma LosesNothingThrough(s: Pool, mid: Pool, s': Pool, jobs: seq<WarmPoolJob>)
    requires Owned(mid) == Owned(s) && NothingLost(mid, s', jobs)
    ensures NothingLost(s, s', jobs)
  {
    hide Owned, Leaves;
  }

  /** Whatever a create event does, every address stays in the pool or leaves with a delete job that it submits. */
  lemma CreateLosesNothing(s: Pool, uid: string, annotates: bool, fetched: bool, now: int, c: Created)
    requires Exclusive(s) && CreateHandled(s, uid, annotates, fetched, now, c)
    ensures NothingLost(s, c.pool, c.jobs)
  {
    var mid, out :| AssignStep(s, uid, mid, out) && CreateEnds(mid, uid, out, annotates, fetched, now, c);
    hide CreateHandled, Exclusive, Owned, AssignStep, Reconciled, AfterRefusal, Freed, NothingLost, Keyed;
    AssignKeeps(s, uid, mid, out);
    var ready := if out.Assigned? && !annotates then Freed(mid, uid, out.resourceID, now) else mid;
    if out.Assigned? && !annotates {
      FreeKeeps(mid, uid, out.resourceID, now);
    }
    ExclusiveIsKeyed(ready);
    ReconciledLosesNothing(ready, out.Assigned? || out.shouldReconcile, c.pool, c.jobs);
    LosesNothingThrough(s, ready, c.pool, c.jobs);
  }

  lemma DeleteLosesNothing(s: Pool, uid: string, annotation: Option<string>, now: int, s': Pool, jobs: seq<WarmPoolJob>)
    requires Exclusive(s) && DeleteHandled(s, uid, annotation, now, s', jobs)
    ensures NothingLost(s, s', jobs)
  {
    var id := DeletedID(s, uid, annotation);
    hide Exclusive, Owned, Reconciled, Freed, Keyed;
    if id.Some? && FreeRefusal(s, uid, id.value).None? {
      hide NothingLost;
      var ready := Freed(s, uid, id.value, now);
      FreeKeeps(s, uid, id.value, now);
      ExclusiveIsKeyed(ready);
      ReconciledLosesNothing(ready, true, s', jobs);
      LosesNothingThrough(s, ready, s', jobs);
    }
  }

  // ------------------------------------------------------------------ deletes

  /** A delete carrying a resource the pod does not own, or for a pod that owns none, changes nothing. */
  lemma ForeignDeleteIsIgnored(s: Pool, uid: string, annotation: Option<string>, now: int, s': Pool,
                               jobs: seq<WarmPoolJob>)
    requires DeleteHandled(s, uid, annotation, now, s', jobs)
    requires uid !in s.used || (annotation.Some? && s.used[uid].resourceID != annotation.value)
    ensures s' == s && jobs == []
  {
  }

  /** Of any two deletes of one pod, only the first that names its resource has an effect. */
  lemma DeleteIsIdempotent(s: Pool, uid: string, annotation: Option<string>, now: int, s': Pool, jobs: seq<WarmPoolJob>,
                           annotation': Option<string>, now': int, s'': Pool, jobs': seq<WarmPoolJob>)
    requires DeleteHandled(s, uid, annotation, now, s', jobs) && DeleteHandled(s', uid, annotation', now', s'', jobs')
    requires annotation == annotation' || DeletedID(s, uid, annotation) == DeletedID(s, uid, None)
    ensures s'' == s' && jobs' == []
  {
    hide Reconciled;
    var id := DeletedID(s, uid, annotation);
    if id.Some? && FreeRefusal(s, uid, id.value).None? {
      ReconciledFrame(Freed(s, uid, id.value, now), true, s', jobs);
    }
  }

  /**
   Deleting a pod with the annotation its creation wrote takes back exactly its assignment and starts the cool-down.
   */
  lemma DeleteUndoesCreate(s: Pool, uid: string, now: int, c: Created, now': int, s': Pool, jobs: seq<WarmPoolJob>)
    requires Keyed(s.warm) && CreateHandled(s, uid, true, true, now, c) && c.note.Some?
    requires DeleteHandled(c.pool, uid, c.note, now', s', jobs)
    ensures uid in c.pool.used && s'.used == s.used
    ensures s'.cooling == s.cooling + [CoolDownResource(c.pool.used[uid], now')]
  {
    AnnotatedIffUsed(s, uid, true, true, now, c);
    hide CreateHandled, Reconciled, WarmSet, Keyed;
    ReconciledFrame(Freed(c.pool, uid, c.note.value, now'), true, s', jobs);
    assert c.pool.used - {uid} == s.used;
  }

  // ------------------------------------------------------------------ a pool that pod events cannot wake

  /** A handled pod event and the pool it leaves. */
  datatype PodEvent =
    | CreateEvent(uid: string, annotates: bool, fetched: bool, now: int, created: Created)
    | DeleteEvent(uid: string, annotation: Option<string>, now: int, pool: Pool, jobs: seq<WarmPoolJob>)

  ghost predicate EventHandled(s: Pool, e: PodEvent, s': Pool, jobs: seq<WarmPoolJob>) {
    match e
    case CreateEvent(uid, annotates, fetched, now, c) =>
      CreateHandled(s, uid, annotates, fetched, now, c) && s' == c.pool && jobs == c.jobs
    case DeleteEvent(uid, annotation, now, pool, deleted) =>
      DeleteHandled(s, uid, annotation, now, pool, deleted) && s' == pool && jobs == deleted
  }

  /** No warm group, nobody to free an address, and no prefix known to be available. */
  predicate Asleep(s: Pool) {
    s.isPD && s.warm == map[] && s.used == map[] && !s.prefixAvailable
  }

  lemma AsleepStep(s: Pool, e: PodEvent, s': Pool, jobs: seq<WarmPoolJob>)
    requires Asleep(s) && EventHandled(s, e, s', jobs)
    ensures s' == s && jobs == []
  {
    hide Reconciled;
    match e
    case CreateEvent(uid, annotates, fetched, now, c) =>
      var mid, out :| AssignStep(s, uid, mid, out) && CreateEnds(mid, uid, out, annotates, fetched, now, c);
      hide AssignStep, AfterRefusal;
      EmptyRefusalReconcilesIff(s, uid, mid, out);
      NotReconciled(mid, c.pool, c.jobs);
    case DeleteEvent(uid, annotation, now, pool, deleted) =>
  }

  lemma NotReconciled(s: Pool, s': Pool, jobs: seq<WarmPoolJob>)
    requires Reconciled(s, false, s', jobs)
    ensures s' == s && jobs == []
  {
  }

  /**
   Any number of pod events leaves such a pool as it is and submits no job; a pool fresh from its constructor is one.
   */
  lemma {:induction false} PodEventsLetItSleep(ps: seq<Pool>, es: seq<PodEvent>, submitted: seq<seq<WarmPoolJob>>,
                                               i: nat)
    requires |ps| == |es| + 1 && |submitted| == |es| && i < |ps| && Asleep(ps[0])
    requires forall k :: 0 <= k < |es| ==> EventHandled(ps[k], es[k], ps[k + 1], submitted[k])
    ensures ps[i] == ps[0]
    ensures i > 0 ==> submitted[i - 1] == []
  {
    hide EventHandled, Asleep;
    if i > 0 {
      PodEventsLetItSleep(ps, es, submitted, i - 1);
      AsleepStep(ps[i - 1], es[i - 1], ps[i], submitted[i - 1]);
    }
  }

  // ------------------------------------------------------------------ the shadowed error

  /** The pods' annotations after a create event. */
  function NotesAfter(annotations: map<string, string>, uid: string, note: Option<string>): map<string, string> {
    if note.Some? then annotations[uid := note.value] else annotations
  }

  /**
   A create event that ends without error or retry leaves the pod annotated, except exactly when the pod holds an
   address, is fetched and carries no annotation: the error meant for that case is shadowed.
   */
  lemma DoneIsAnnotatedIff(s: Pool, annotations: map<string, string>, uid: string, annotates: bool, fetched: bool,
                           now: int, c: Created)
    requires CreateHandled(s, uid, annotates, fetched, now, c) && c.result == Done
    ensures uid in NotesAfter(annotations, uid, c.note) <==> !(uid in s.used && fetched && uid !in annotations)
  {
    var mid, out :| AssignStep(s, uid, mid, out) && CreateEnds(mid, uid, out, annotates, fetched, now, c);
    hide Reconciled, HasWarm;
    if out.Assigned? {
      AssignedFrame(s, uid, mid, out.resourceID);
    }
  }

  /** Such an input: a pool that has an address on record for a pod the API server knows no annotation of. */
  lemma DoneWithoutAnnotation(s: Pool, uid: string, annotates: bool, now: int)
    requires uid in s.used
    ensures CreateHandled(s, uid, annotates, true, now, Created(s, None, Done, []))
    ensures uid !in NotesAfter(map[], uid, None)
  {
    var out := Refused(ResourceAlreadyAssigned, false);
    assert AssignStep(s, uid, s, out);
    assert CreateEnds(s, uid, out, annotates, true, now, Created(s, None, Done, []));
  }
}
