/**
 Runs of a node: pod events as pkg/handler/warm.go handles them, call by call, interleaved with each other and with
 everything else that happens to the pool. Creates of one pod are handled one after the other; deletes may come at
 any time and carry any resource ID.
 */
module HandlerRuns {
  import opened Collections
  import opened PoolState
  import opened Jobs
  import opened PoolOps
  import opened Ownership
  import opened ReSync
  import opened Runs
  import opened Safety
  import opened Handler

  /** A create event that has been assigned an address: its annotation is on the way, or has failed. */
  datatype Phase = Annotating(id: string) | RollingBack(id: string)

  /** The pool of a node, the annotations of its pods and the create events under way. */
  datatype Node = Node(world: World, annotations: map<string, string>, busy: map<string, Phase>)

  /** One call of a handler, or a step of the pool that no handler makes. */
  datatype NodeEvent =
    | Creates(uid: string, outcome: Assignment)
    | Annotates(uid: string, accepted: bool, written: bool)
    | RollsBack(uid: string)
    | Deletes(uid: string, id: string)
    | PoolStep(event: Event)

  /** AssignResource on behalf of a pod without annotation. */
  ghost predicate CreateStarts(n: Node, uid: string, outcome: Assignment, n': Node) {
    && uid !in n.busy && Step(n.world, Assign(uid, outcome), n'.world)
    && n' == Node(n'.world, n.annotations,
                  if outcome.Assigned? then n.busy[uid := Annotating(outcome.resourceID)] else n.busy)
  }

  /** AnnotatePod. A call that reports a failure may have written the annotation nevertheless. */
  ghost predicate AnnotationEnds(n: Node, uid: string, accepted: bool, written: bool, n': Node) {
    && uid in n.busy && n.busy[uid].Annotating? && (accepted ==> written)
    && n' == Node(n.world,
                  if written then n.annotations[uid := n.busy[uid].id] else n.annotations,
                  if accepted then n.busy - {uid} else n.busy[uid := RollingBack(n.busy[uid].id)])
  }

  /** FreeResource after a failed annotation. */
  ghost predicate CreateEndsFreed(n: Node, uid: string, n': Node) {
    && uid in n.busy && n.busy[uid].RollingBack?
    && Step(n.world, Free(uid, n.busy[uid].id), n'.world)
    && n' == Node(n'.world, n.annotations, n.busy - {uid})
  }

  ghost predicate NodeStep(n: Node, e: NodeEvent, n': Node) {
    match e
    case Creates(uid, outcome) => CreateStarts(n, uid, outcome, n')
    case Annotates(uid, accepted, written) => AnnotationEnds(n, uid, accepted, written, n')
    case RollsBack(uid) => CreateEndsFreed(n, uid, n')
    case Deletes(uid, id) => Step(n.world, Free(uid, id), n'.world) && n' == n.(world := n'.world)
    case PoolStep(event) =>
      && !event.Assign? && !event.Free? && Settled(n.world, event)
      && Step(n.world, event, n'.world) && n' == n.(world := n'.world)
  }

  // ------------------------------------------------------------------ the invariant

  /** Every pod that holds an address is annotated with it, or a create event is about to see to it. */
  ghost predicate Annotated(n: Node) {
    forall uid :: uid in n.world.pool.used ==>
                    if uid in n.busy then n.busy[uid].id == n.world.pool.used[uid].resourceID
                    else uid in n.annotations && n.annotations[uid] == n.world.pool.used[uid].resourceID
  }

  /** A node as the provider finds it: the pods on record carry their annotations and nothing is under way. */
  ghost predicate NodeStart(n: Node) {
    Start(n.world) && n.busy == map[] && Annotated(n)
  }

  ghost predicate NodeSteps(ns: seq<Node>, es: seq<NodeEvent>) {
    && |ns| == |es| + 1
    && forall i :: 0 <= i < |es| ==> NodeStep(ns[i], es[i], ns[i + 1])
  }

  ghost predicate NodeRun(ns: seq<Node>, es: seq<NodeEvent>) {
    NodeSteps(ns, es) && NodeStart(ns[0])
  }

  /** Only assigning and freeing touch the addresses in use. */
  lemma UsedFixed(w: World, e: Event, w': World)
    requires Step(w, e, w') && !e.Assign? && !e.Free?
    ensures w'.pool.used == w.pool.used
  {
    hide ReconcileStep, UpstreamOK, CreatedOK, UndeletedOK, AppendAll, Purge, Remove, UpstreamResources, AddGroups,
         Unit;
    if e.Reconcile? {
      ReconcileFrame(w.pool, w'.pool, e.job);
    }
  }

  lemma FreedUsed(s: Pool, uid: string, id: string, now: int)
    ensures Freed(s, uid, id, now).used
            == if uid in s.used && s.used[uid].resourceID == id then s.used - {uid} else s.used
  {
  }

  lemma AssignUsed(s: Pool, uid: string, s': Pool, out: Assignment)
    requires AssignStep(s, uid, s', out)
    ensures out.Refused? ==> s' == s
    ensures out.Assigned? ==> && uid !in s.used && uid in s'.used && s'.used[uid].resourceID == out.resourceID
                              && s'.used == s.used[uid := s'.used[uid]]
  {
    hide AssignStep, HasWarm;
    match out
    case Refused(_, _) => RefusedKeeps(s, uid, s', out);
    case Assigned(id) => AssignedFrame(s, uid, s', id);
  }

  lemma AnnotatedStep(n: Node, e: NodeEvent, n': Node)
    requires Annotated(n) && NodeStep(n, e, n')
    ensures Annotated(n')
  {
    hide AssignStep, Freed, Settled;
    match e
    case Creates(uid, outcome) => AssignUsed(n.world.pool, uid, n'.world.pool, outcome);
    case Annotates(uid, accepted, written) =>
    case RollsBack(uid) => FreedUsed(n.world.pool, uid, n.busy[uid].id, n.world.now);
    case Deletes(uid, id) => FreedUsed(n.world.pool, uid, id, n.world.now);
    case PoolStep(event) =>
      UsedFixed(n.world, event, n'.world);
      hide Step;
  }

  lemma SoundStep(n: Node, e: NodeEvent, n': Node)
    requires Sound(n.world) && NodeStep(n, e, n')
    ensures Sound(n'.world)
  {
    hide Sound, Step;
    match e
    case Creates(uid, outcome) => StepKeeps(n.world, Assign(uid, outcome), n'.world);
    case Annotates(uid, accepted, written) =>
    case RollsBack(uid) => StepKeeps(n.world, Free(uid, n.busy[uid].id), n'.world);
    case Deletes(uid, id) => StepKeeps(n.world, Free(uid, id), n'.world);
    case PoolStep(event) => StepKeeps(n.world, event, n'.world);
  }

  /** In every run of a node the pool is sound and every holder is annotated or being seen to. */
  lemma {:induction false} NodeRunIsSound(ns: seq<Node>, es: seq<NodeEvent>, i: nat)
    requires NodeRun(ns, es) && i < |ns|
    ensures Sound(ns[i].world) && Annotated(ns[i])
  {
    hide Sound, Annotated, NodeStep, Start;
    if i == 0 {
      StartIsSound(ns[0].world);
    } else {
      NodeRunIsSound(ns, es, i - 1);
      assert NodeStep(ns[i - 1], es[i - 1], ns[i]);
      SoundStep(ns[i - 1], es[i - 1], ns[i]);
      AnnotatedStep(ns[i - 1], es[i - 1], ns[i]);
    }
  }

  /** In every run no two pods that hold addresses are annotated with the same one. */
  lemma NoSharedAnnotation(ns: seq<Node>, es: seq<NodeEvent>, i: nat, j: string, k: string)
    requires NodeRun(ns, es) && i < |ns| && j != k
    requires j in ns[i].world.pool.used && j !in ns[i].busy && k in ns[i].world.pool.used && k !in ns[i].busy
    ensures j in ns[i].annotations && k in ns[i].annotations && ns[i].annotations[j] != ns[i].annotations[k]
  {
    NodeRunIsSound(ns, es, i);
    hide NodeRun, Sound;
    SoundIsExclusive(ns[i].world, j, k);
  }

  lemma SoundIsExclusive(w: World, j: string, k: string)
    requires Sound(w) && j in w.pool.used && k in w.pool.used && j != k
    ensures w.pool.used[j].resourceID != w.pool.used[k].resourceID
  {
    var s := w.pool;
    hide Whole, Pending, Capped, JobsOK, DeletingOK, Queued, WarmSet, CoolSet, Keyed, NoDup;
    var a, b := s.used[j], s.used[k];
    assert a in s.used.Values && b in s.used.Values && a != b;
    if a.resourceID == b.resourceID {
      OwnedAddresses(s, a, b);
    }
  }

  // ------------------------------------------------------------------ the shadowed error is not reached

  lemma AnnotationStays(n: Node, e: NodeEvent, n': Node, uid: string)
    requires NodeStep(n, e, n') && uid in n.annotations
    ensures uid in n'.annotations
  {
    hide Step, Settled;
  }

  /** No step takes an annotation off a pod. */
  lemma {:induction false} AnnotationsStay(ns: seq<Node>, es: seq<NodeEvent>, i: nat, j: nat, uid: string)
    requires NodeSteps(ns, es) && i <= j < |ns| && uid in ns[i].annotations
    ensures uid in ns[j].annotations
    decreases j
  {
    hide NodeStep;
    if i < j {
      AnnotationsStay(ns, es, i, j - 1, uid);
      assert NodeStep(ns[j - 1], es[j - 1], ns[j]);
      AnnotationStays(ns[j - 1], es[j - 1], ns[j], uid);
    }
  }

  /**
   In every run a create event that the pool refuses because the pod already holds an address finds the pod
   annotated with that address. Whenever the event fetches the pod after that, it finds an annotation, so the branch
   whose error is shadowed is never taken.
   */
  lemma AlreadyAssignedIsAnnotated(ns: seq<Node>, es: seq<NodeEvent>, i: nat, uid: string, shouldReconcile: bool,
                                   j: nat)
    requires NodeRun(ns, es) && i < |es| && es[i] == Creates(uid, Refused(ResourceAlreadyAssigned, shouldReconcile))
    requires i <= j < |ns|
    ensures uid in ns[i].world.pool.used && uid in ns[i].annotations
    ensures ns[i].annotations[uid] == ns[i].world.pool.used[uid].resourceID
    ensures uid in ns[j].annotations
  {
    NodeRunIsSound(ns, es, i);
    assert NodeStep(ns[i], es[i], ns[i + 1]);
    hide Sound, AssignStep, NodeStart;
    RefusedHolds(ns[i].world.pool, uid, ns[i + 1].world.pool, shouldReconcile);
    hide Annotated, NodeStep;
    AnnotationsStay(ns, es, i, j, uid);
  }

  lemma RefusedHolds(s: Pool, uid: string, s': Pool, shouldReconcile: bool)
    requires AssignStep(s, uid, s', Refused(ResourceAlreadyAssigned, shouldReconcile))
    ensures uid in s.used
  {
    hide HasWarm;
  }

  /** The calls after which a create event of the pod ends without error or retry. */
  predicate EndsWell(e: NodeEvent, uid: string) {
    || (e.Creates? && e.uid == uid && e.outcome.Refused? && e.outcome.error.ResourceAlreadyAssigned?)
    || (e.Annotates? && e.uid == uid && e.accepted)
  }

  /**
   In every run, whatever happens between its calls, a create event that ends without error or retry leaves its pod
   annotated for good.
   */
  lemma DoneIsAnnotated(ns: seq<Node>, es: seq<NodeEvent>, i: nat, uid: string, j: nat)
    requires NodeRun(ns, es) && i < |es| && EndsWell(es[i], uid) && i < j < |ns|
    ensures uid in ns[j].annotations
  {
    if es[i].Creates? {
      hide NodeStep, Annotated;
      AlreadyAssignedIsAnnotated(ns, es, i, uid, es[i].outcome.shouldReconcile, j);
    } else {
      assert NodeStep(ns[i], es[i], ns[i + 1]);
      assert uid in ns[i + 1].annotations;
      hide NodeStep, NodeStart;
      AnnotationsStay(ns, es, i + 1, j, uid);
    }
  }

  /** And so does a call that nothing interrupts. */
  lemma UninterruptedDoneIsAnnotated(ns: seq<Node>, es: seq<NodeEvent>, i: nat, uid: string,
                                     annotates: bool, fetched: bool, now: int, c: Created)
    requires NodeRun(ns, es) && i < |ns| && uid !in ns[i].busy
    requires CreateHandled(ns[i].world.pool, uid, annotates, fetched, now, c) && c.result == Done
    ensures uid in NotesAfter(ns[i].annotations, uid, c.note)
  {
    NodeRunIsSound(ns, es, i);
    hide NodeRun, Sound, CreateHandled;
    DoneIsAnnotatedIff(ns[i].world.pool, ns[i].annotations, uid, annotates, fetched, now, c);
  }

  // ------------------------------------------------------------------ the ledger of a pod

  function One(b: bool): nat {
    if b then 1 else 0
  }

  /** A create event of the pod is assigned an address. */
  predicate TakesOne(e: NodeEvent, uid: string) {
    e.Creates? && e.uid == uid && e.outcome.Assigned?
  }

  /** The pod gives up the address with the ID. */
  predicate GivesUp(n: Node, uid: string, id: string) {
    FreeRefusal(n.world.pool, uid, id).None?
  }

  /** A delete event takes the pod's address away. */
  predicate DeletesOne(n: Node, e: NodeEvent, uid: string) {
    e.Deletes? && e.uid == uid && GivesUp(n, uid, e.id)
  }

  /** A failed create event gives the pod's address back. */
  predicate RollsOneBack(n: Node, e: NodeEvent, uid: string) {
    e.RollsBack? && e.uid == uid && uid in n.busy && GivesUp(n, uid, n.busy[uid].id)
  }

  predicate AnnotatesOne(e: NodeEvent, uid: string) {
    e.Annotates? && e.uid == uid && e.accepted
  }

  function CountTaken(es: seq<NodeEvent>, uid: string): nat {
    if es == [] then 0 else CountTaken(es[..|es| - 1], uid) + One(TakesOne(es[|es| - 1], uid))
  }

  function CountAnnotated(es: seq<NodeEvent>, uid: string): nat {
    if es == [] then 0 else CountAnnotated(es[..|es| - 1], uid) + One(AnnotatesOne(es[|es| - 1], uid))
  }

  function CountDeleted(ns: seq<Node>, es: seq<NodeEvent>, uid: string): nat
    requires |ns| == |es| + 1
  {
    if es == [] then 0
    else CountDeleted(ns[..|es|], es[..|es| - 1], uid) + One(DeletesOne(ns[|es| - 1], es[|es| - 1], uid))
  }

  function CountRolledBack(ns: seq<Node>, es: seq<NodeEvent>, uid: string): nat
    requires |ns| == |es| + 1
  {
    if es == [] then 0
    else CountRolledBack(ns[..|es|], es[..|es| - 1], uid) + One(RollsOneBack(ns[|es| - 1], es[|es| - 1], uid))
  }

  function Has(n: Node, uid: string): nat {
    One(uid in n.world.pool.used)
  }

  lemma LedgerStep(n: Node, e: NodeEvent, n': Node, uid: string)
    requires NodeStep(n, e, n')
    ensures One(DeletesOne(n, e, uid)) + One(RollsOneBack(n, e, uid)) + Has(n', uid)
            == One(TakesOne(e, uid)) + Has(n, uid)
  {
    hide AssignStep, Freed, Settled;
    match e
    case Creates(u, outcome) => AssignUsed(n.world.pool, u, n'.world.pool, outcome);
    case Annotates(u, accepted, written) =>
    case RollsBack(u) => FreedUsed(n.world.pool, u, n.busy[u].id, n.world.now);
    case Deletes(u, id) => FreedUsed(n.world.pool, u, id, n.world.now);
    case PoolStep(event) =>
      UsedFixed(n.world, event, n'.world);
      hide Step;
  }

  lemma Shorter(ns: seq<Node>, es: seq<NodeEvent>)
    requires NodeSteps(ns, es) && es != []
    ensures NodeSteps(ns[..|es|], es[..|es| - 1]) && NodeStep(ns[|es| - 1], es[|es| - 1], ns[|es|])
    ensures ns[..|es|][|es| - 1] == ns[|es| - 1] && ns[..|es|][0] == ns[0]
  {
    hide NodeStep;
    forall i | 0 <= i < |es| - 1 ensures NodeStep(ns[..|es|][i], es[..|es| - 1][i], ns[..|es|][i + 1]) {
      assert NodeStep(ns[i], es[i], ns[i + 1]);
    }
  }

  /**
   Over any steps, however often deletes are repeated: the addresses a pod was assigned are those that deletes and
   roll-backs took away from it, each of them once, and the one it may still hold.
   */
  lemma {:induction false} EveryAssignmentEndsOnce(ns: seq<Node>, es: seq<NodeEvent>, uid: string)
    requires NodeSteps(ns, es)
    ensures CountDeleted(ns, es, uid) + CountRolledBack(ns, es, uid) + Has(ns[|es|], uid)
            == CountTaken(es, uid) + Has(ns[0], uid)
    decreases |es|
  {
    hide NodeStep, TakesOne, DeletesOne, RollsOneBack, Has;
    if es != [] {
      Shorter(ns, es);
      EveryAssignmentEndsOnce(ns[..|es|], es[..|es| - 1], uid);
      LedgerStep(ns[|es| - 1], es[|es| - 1], ns[|es|], uid);
    }
  }

  /** No delete takes a pod's address away while a create event of the pod is under way. */
  ghost predicate Orderly(ns: seq<Node>, es: seq<NodeEvent>, uid: string)
    requires |ns| == |es| + 1
  {
    forall i :: 0 <= i < |es| && DeletesOne(ns[i], es[i], uid) ==> uid !in ns[i].busy
  }

  /** The pod holds an address and no create event of it is under way. */
  function Rests(n: Node, uid: string): nat {
    One(uid in n.world.pool.used && uid !in n.busy)
  }

  /** A create event under way still has its address. */
  ghost predicate Secured(n: Node, uid: string) {
    uid in n.busy ==> uid in n.world.pool.used && n.world.pool.used[uid].resourceID == n.busy[uid].id
  }

  lemma SettleStep(n: Node, e: NodeEvent, n': Node, uid: string)
    requires NodeStep(n, e, n') && Secured(n, uid) && (DeletesOne(n, e, uid) ==> uid !in n.busy)
    ensures Secured(n', uid)
    ensures One(DeletesOne(n, e, uid)) + Rests(n', uid) == One(AnnotatesOne(e, uid)) + Rests(n, uid)
  {
    hide AssignStep, Freed, Settled;
    match e
    case Creates(u, outcome) => AssignUsed(n.world.pool, u, n'.world.pool, outcome);
    case Annotates(u, accepted, written) =>
    case RollsBack(u) => FreedUsed(n.world.pool, u, n.busy[u].id, n.world.now);
    case Deletes(u, id) => FreedUsed(n.world.pool, u, id, n.world.now);
    case PoolStep(event) =>
      UsedFixed(n.world, event, n'.world);
      hide Step;
  }

  /** In orderly steps effective deletes and the present holding add up to the creates that were annotated. */
  lemma {:induction false} DeletesMatchCreates(ns: seq<Node>, es: seq<NodeEvent>, uid: string)
    requires NodeSteps(ns, es) && Secured(ns[0], uid) && Orderly(ns, es, uid)
    ensures Secured(ns[|es|], uid)
    ensures CountDeleted(ns, es, uid) + Rests(ns[|es|], uid) == CountAnnotated(es, uid) + Rests(ns[0], uid)
    decreases |es|
  {
    hide NodeStep, AnnotatesOne, DeletesOne, Rests, Secured;
    if es != [] {
      Shorter(ns, es);
      var k := |es| - 1;
      assert Orderly(ns[..|es|], es[..k], uid) by {
        forall i | 0 <= i < k && DeletesOne(ns[..|es|][i], es[..k][i], uid) ensures uid !in ns[..|es|][i].busy {
          assert DeletesOne(ns[i], es[i], uid);
        }
      }
      DeletesMatchCreates(ns[..|es|], es[..k], uid);
      SettleStep(ns[k], es[k], ns[|es|], uid);
    }
  }

  // ------------------------------------------------------------------ handler calls are such steps

  /** The jobs in flight after a handler has submitted its job; a job that asks for nothing is dropped by the worker. */
  function InFlight(jobs: seq<WarmPoolJob>, submitted: seq<WarmPoolJob>): seq<WarmPoolJob> {
    if |submitted| != 1 || submitted[0].operation.NoReconcile? then jobs else jobs + submitted
  }

  /** Steps from one state of the node to another. */
  ghost predicate Leads(n: Node, ns: seq<Node>, es: seq<NodeEvent>, n': Node) {
    NodeSteps(ns, es) && ns[0] == n && ns[|es|] == n'
  }

  lemma Begin(n: Node) returns (ns: seq<Node>, es: seq<NodeEvent>)
    ensures Leads(n, ns, es, n)
  {
    ns, es := [n], [];
  }

  lemma ThenStep(n: Node, ns: seq<Node>, es: seq<NodeEvent>, n': Node, e: NodeEvent, n'': Node)
    returns (ns': seq<Node>, es': seq<NodeEvent>)
    requires Leads(n, ns, es, n') && NodeStep(n', e, n'')
    ensures Leads(n, ns', es', n'')
  {
    hide NodeStep;
    ns', es' := ns + [n''], es + [e];
    forall i | 0 <= i < |es'| ensures NodeStep(ns'[i], es'[i], ns'[i + 1]) {
      if i < |es| {
        assert NodeStep(ns[i], es[i], ns[i + 1]);
      }
    }
  }

  /** The optional reconcile at the end of a call, as a step of the pool. */
  lemma ReconciledIsStep(n: Node, shouldReconcile: bool, s': Pool, jobs: seq<WarmPoolJob>, n': Node)
    requires Reconciled(n.world.pool, shouldReconcile, s', jobs)
    requires n' == n.(world := World(s', InFlight(n.world.jobs, jobs), n.world.now))
    ensures n' == n || (|jobs| == 1 && NodeStep(n, PoolStep(Reconcile(jobs[0])), n'))
  {
    hide ReconcileStep;
    if shouldReconcile {
      assert jobs == [jobs[0]];
    }
  }

  /** A create event that is refused. */
  lemma RefusedIsSteps(n: Node, uid: string, mid: Pool, out: Assignment) returns (ns: seq<Node>, es: seq<NodeEvent>)
    requires uid !in n.busy && AssignStep(n.world.pool, uid, mid, out) && out.Refused?
    ensures Leads(n, ns, es, n.(world := n.world.(pool := mid)))
  {
    hide AssignStep, Leads;
    ns, es := Begin(n);
    ns, es := ThenStep(n, ns, es, n, Creates(uid, out), n.(world := n.world.(pool := mid)));
  }

  /** A create event under way in a node that is otherwise as before. */
  function Underway(n: Node, uid: string, s: Pool, phase: Phase): Node {
    Node(n.world.(pool := s), n.annotations, n.busy[uid := phase])
  }

  lemma AssignedIsSteps(n: Node, uid: string, mid: Pool, id: string) returns (ns: seq<Node>, es: seq<NodeEvent>)
    requires uid !in n.busy && AssignStep(n.world.pool, uid, mid, Assigned(id))
    ensures Leads(n, ns, es, Underway(n, uid, mid, Annotating(id)))
  {
    hide AssignStep, Leads;
    ns, es := Begin(n);
    ns, es := ThenStep(n, ns, es, n, Creates(uid, Assigned(id)), Underway(n, uid, mid, Annotating(id)));
  }

  /** A create event whose annotation is accepted. */
  lemma AcceptedIsSteps(n: Node, uid: string, mid: Pool, id: string) returns (ns: seq<Node>, es: seq<NodeEvent>)
    requires uid !in n.busy && AssignStep(n.world.pool, uid, mid, Assigned(id))
    ensures Leads(n, ns, es, Node(n.world.(pool := mid), n.annotations[uid := id], n.busy))
  {
    hide AssignStep, Leads;
    ns, es := AssignedIsSteps(n, uid, mid, id);
    var n1 := Underway(n, uid, mid, Annotating(id));
    assert n1.busy - {uid} == n.busy;
    ns, es := ThenStep(n, ns, es, n1, Annotates(uid, true, true),
        Node(n.world.(pool := mid), n.annotations[uid := id], n.busy));
  }

  /** A create event whose annotation fails. */
  lemma FailedIsSteps(n: Node, uid: string, mid: Pool, id: string) returns (ns: seq<Node>, es: seq<NodeEvent>)
    requires uid !in n.busy && AssignStep(n.world.pool, uid, mid, Assigned(id))
    ensures Leads(n, ns, es, n.(world := n.world.(pool := Freed(mid, uid, id, n.world.now))))
  {
    hide AssignStep, Leads, Freed;
    ns, es := AssignedIsSteps(n, uid, mid, id);
    var n1, n2 := Underway(n, uid, mid, Annotating(id)), Underway(n, uid, mid, RollingBack(id));
    assert n1.busy[uid := RollingBack(id)] == n2.busy;
    ns, es := ThenStep(n, ns, es, n1, Annotates(uid, false, false), n2);
    assert n2.busy - {uid} == n.busy;
    ns, es := ThenStep(n, ns, es, n2, RollsBack(uid), n.(world := n.world.(pool := Freed(mid, uid, id, n.world.now))));
  }

  /** The reconcile that may follow. */
  lemma ReconciledIsSteps(n: Node, ns: seq<Node>, es: seq<NodeEvent>, n': Node, shouldReconcile: bool, s': Pool,
                          jobs: seq<WarmPoolJob>)
    returns (ns': seq<Node>, es': seq<NodeEvent>)
    requires Leads(n, ns, es, n') && Reconciled(n'.world.pool, shouldReconcile, s', jobs)
    ensures Leads(n, ns', es', n'.(world := World(s', InFlight(n'.world.jobs, jobs), n'.world.now)))
  {
    hide Leads, Reconciled, InFlight, NodeStep;
    var end := n'.(world := World(s', InFlight(n'.world.jobs, jobs), n'.world.now));
    ReconciledIsStep(n', shouldReconcile, s', jobs, end);
    ns', es' := ns, es;
    if end != n' {
      ns', es' := ThenStep(n, ns, es, n', PoolStep(Reconcile(jobs[0])), end);
    }
  }

  /** A call of HandleCreate that nothing interrupts is a sequence of these steps. */
  lemma CreateIsSteps(n: Node, uid: string, annotates: bool, fetched: bool, c: Created)
    returns (ns: seq<Node>, es: seq<NodeEvent>)
    requires uid !in n.busy && CreateHandled(n.world.pool, uid, annotates, fetched, n.world.now, c)
    ensures Leads(n, ns, es, Node(World(c.pool, InFlight(n.world.jobs, c.jobs), n.world.now),
              NotesAfter(n.annotations, uid, c.note), n.busy))
  {
    var w := n.world;
    var mid, out :| AssignStep(w.pool, uid, mid, out) && CreateEnds(mid, uid, out, annotates, fetched, w.now, c);
    hide AssignStep, Reconciled, AfterRefusal, InFlight, Freed, CreateHandled, Leads;
    match out
    case Refused(_, shouldReconcile) =>
      ns, es := RefusedIsSteps(n, uid, mid, out);
      ns, es := ReconciledIsSteps(n, ns, es, n.(world := w.(pool := mid)), shouldReconcile, c.pool, c.jobs);
    case Assigned(id) =>
      if annotates {
        ns, es := AcceptedIsSteps(n, uid, mid, id);
        ns, es := ReconciledIsSteps(n, ns, es, Node(w.(pool := mid), n.annotations[uid := id], n.busy), true, c.pool,
            c.jobs);
      } else {
        ns, es := FailedIsSteps(n, uid, mid, id);
        ns, es := ReconciledIsSteps(n, ns, es, n.(world := w.(pool := Freed(mid, uid, id, w.now))), true, c.pool,
            c.jobs);
      }
  }

  /** And so is a call of HandleDelete. */
  lemma DeleteIsSteps(n: Node, uid: string, annotation: Option<string>, s': Pool, jobs: seq<WarmPoolJob>)
    returns (ns: seq<Node>, es: seq<NodeEvent>)
    requires DeleteHandled(n.world.pool, uid, annotation, n.world.now, s', jobs)
    ensures Leads(n, ns, es, n.(world := World(s', InFlight(n.world.jobs, jobs), n.world.now)))
  {
    var w, id := n.world, DeletedID(n.world.pool, uid, annotation);
    ns, es := Begin(n);
    if id.Some? && FreeRefusal(w.pool, uid, id.value).None? {
      hide Reconciled, Leads, InFlight, Freed;
      var mid := n.(world := w.(pool := Freed(w.pool, uid, id.value, w.now)));
      ns, es := ThenStep(n, ns, es, n, Deletes(uid, id.value), mid);
      ns, es := ReconciledIsSteps(n, ns, es, mid, true, s', jobs);
    }
  }
}
