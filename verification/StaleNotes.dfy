/**
 When the annotations of two pods can name one address (pkg/handler/warm.go). AnnotatePod may report a failure
 although the API server has taken the annotation; the handler then frees the address, and the pod keeps an
 annotation that another pod can come to share.
 */
module StaleNotes {
  import opened Collections
  import opened PoolState
  import opened Accounting
  import opened PoolOps
  import opened Ownership
  import opened Runs
  import opened Safety
  import opened CoolDowns
  import opened Progress
  import opened Handler
  import opened HandlerRuns

  /** The pod loses its address to a delete, or is annotated by a call that reports a failure. */
  predicate Upsets(n: Node, e: NodeEvent, uid: string) {
    DeletesOne(n, e, uid) || (e.Annotates? && e.uid == uid && !e.accepted && e.written)
  }

  /** Steps that do neither to the pod. */
  ghost predicate Spared(ns: seq<Node>, es: seq<NodeEvent>, uid: string)
    requires |ns| == |es| + 1
  {
    forall i :: 0 <= i < |es| ==> !Upsets(ns[i], es[i], uid)
  }

  /** The pod is annotated only if it holds an address and no create event of it is under way; and those have theirs. */
  ghost predicate Tidy(n: Node, uid: string) {
    && (uid in n.annotations ==> uid in n.world.pool.used && uid !in n.busy)
    && (uid in n.busy ==> uid in n.world.pool.used)
  }

  ghost predicate Shared(n: Node, j: string, k: string) {
    j in n.annotations && k in n.annotations && n.annotations[j] == n.annotations[k]
  }

  // ------------------------------------------------------------------ spared pods share nothing

  lemma TidyStep(n: Node, e: NodeEvent, n': Node, uid: string)
    requires NodeStep(n, e, n') && Annotated(n) && Tidy(n, uid) && !Upsets(n, e, uid)
    ensures Tidy(n', uid)
  {
    hide AssignStep, Freed, Settled;
    match e
    case Creates(u, outcome) => AssignUsed(n.world.pool, u, n'.world.pool, outcome);
    case Annotates(u, accepted, written) =>
    case RollsBack(u) => FreedUsed(n.world.pool, u, n.busy[u].id, n.world.now);
    case Deletes(u, id) => FreedUsed(n.world.pool, u, id, n.world.now);
    case PoolStep(event) =>
      UsedFixed(n.world, event, n'.world);
      hide Step;
  }

  lemma {:induction false} TidyThroughout(ns: seq<Node>, es: seq<NodeEvent>, i: nat, uid: string)
    requires NodeSteps(ns, es) && i < |ns| && Sound(ns[0].world) && Annotated(ns[0])
    requires Tidy(ns[0], uid) && Spared(ns, es, uid)
    ensures Sound(ns[i].world) && Annotated(ns[i]) && Tidy(ns[i], uid)
  {
    hide Sound, Annotated, Tidy, NodeStep, Upsets;
    if i > 0 {
      TidyThroughout(ns, es, i - 1, uid);
      assert NodeStep(ns[i - 1], es[i - 1], ns[i]) && !Upsets(ns[i - 1], es[i - 1], uid);
      SoundStep(ns[i - 1], es[i - 1], ns[i]);
      AnnotatedStep(ns[i - 1], es[i - 1], ns[i]);
      TidyStep(ns[i - 1], es[i - 1], ns[i], uid);
    }
  }

  lemma TidyPodsShareNothing(n: Node, j: string, k: string)
    requires Sound(n.world) && Annotated(n) && Tidy(n, j) && Tidy(n, k) && j != k
    ensures !Shared(n, j, k)
  {
    hide Sound;
    if j in n.annotations && k in n.annotations {
      SoundIsExclusive(n.world, j, k);
    }
  }

  /**
   In every run two pods that start tidy, keep their addresses and are annotated only by calls that say so are never
   annotated alike, whatever happens to other pods.
   */
  lemma SparedPodsShareNothing(ns: seq<Node>, es: seq<NodeEvent>, i: nat, j: string, k: string)
    requires NodeRun(ns, es) && i < |ns| && j != k
    requires Tidy(ns[0], j) && Tidy(ns[0], k) && Spared(ns, es, j) && Spared(ns, es, k)
    ensures !Shared(ns[i], j, k)
  {
    NodeRunIsSound(ns, es, 0);
    hide Sound, Annotated, Tidy, NodeStep, Spared, NodeStart, Shared;
    TidyThroughout(ns, es, i, j);
    TidyThroughout(ns, es, i, k);
    TidyPodsShareNothing(ns[i], j, k);
  }

  // ------------------------------------------------------------------ a name, a group and an address to hand out

  lemma {:induction false} LongestIn(names: set<string>) returns (longest: nat)
    ensures forall x :: x in names ==> |x| <= longest
    decreases names
  {
    longest := 0;
    if names != {} {
      var x :| x in names;
      var rest := LongestIn(names - {x});
      longest := if rest < |x| then |x| else rest;
    }
  }

  lemma FreshName(names: set<string>) returns (name: string)
    ensures name !in names
  {
    var longest := LongestIn(names);
    name := seq(longest + 1, _ => 'p');
  }

  lemma {:induction false} LeastGroup(m: Groups, keys: set<string>) returns (g: string)
    requires keys <= m.Keys && exists h :: h in keys && m[h] != []
    ensures g in keys && m[g] != [] && forall h :: h in keys && m[h] != [] ==> |m[g]| <= |m[h]|
    decreases keys
  {
    var first :| first in keys && m[first] != [];
    var rest := keys - {first};
    g := first;
    if exists h :: h in rest && m[h] != [] {
      var least := LeastGroup(m, rest);
      if |m[least]| < |m[first]| {
        g := least;
      }
    }
  }

  lemma SomePickable(s: Pool) returns (g: string)
    requires WarmSet(s.warm) != {}
    ensures Pickable(s, g) && HasWarm(s)
  {
    var r :| r in WarmSet(s.warm);
    var h :| h in s.warm && r in s.warm[h];
    assert s.warm[h] != [];
    g := LeastGroup(s.warm, s.warm.Keys);
  }

  lemma NeverRefused(w: World, requester: string)
    requires Sound(w) && requester !in w.pool.used && WarmSet(w.pool.warm) != {}
    ensures Refusal(w.pool, requester).None?
  {
    hide Sound, WarmSet, NumResources, AssignStep, Refusal;
    SoundWarm(w);
    if Refusal(w.pool, requester).Some? {
      RefusalIsStep(w.pool, requester);
      AssignSucceedsIff(w, requester, w.pool, Refusal(w.pool, requester).value);
    }
  }

  lemma SoundWarm(w: World)
    requires Sound(w) && WarmSet(w.pool.warm) != {}
    ensures NumResources(w.pool.warm) > 0 && Keyed(w.pool.warm)
  {
    hide Whole, Pending, Capped, JobsOK, DeletingOK, Queued, WarmSet, NumResources, Keyed;
    WarmCountIs(w.pool.warm);
  }

  /** With a warm address in a sound world, any newcomer is assigned one, and only that one stops being warm. */
  lemma SomeAssignment(w: World, requester: string) returns (s': Pool, r: Resource)
    requires Sound(w) && requester !in w.pool.used && WarmSet(w.pool.warm) != {}
    ensures AssignStep(w.pool, requester, s', Assigned(r.resourceID))
    ensures r in WarmSet(w.pool.warm) && WarmSet(s'.warm) == WarmSet(w.pool.warm) - {r}
  {
    var s := w.pool;
    NeverRefused(w, requester);
    SoundWarm(w);
    var g := SomePickable(s);
    hide Sound, WarmSet, HasWarm, Keyed, Refusal, AssignStep;
    PickedIsStep(s, requester, g);
    TakeWarm(s.warm, g);
    r := s.warm[g][0];
    s' := AfterAssign(s, requester, g);
  }

  // ------------------------------------------------------------------ handing out what a stale annotation names

  /** A call that neither deletes nor reports a failure it should not. */
  predicate Calm(e: NodeEvent) {
    !e.Deletes? && !(e.Annotates? && !e.accepted && e.written)
  }

  /** Calm steps from one state of the node to another; they spare every pod. */
  ghost predicate CalmlyLeads(n: Node, ns: seq<Node>, es: seq<NodeEvent>, n': Node) {
    Leads(n, ns, es, n') && forall i :: 0 <= i < |es| ==> Calm(es[i])
  }

  lemma CalmSpares(n: Node, ns: seq<Node>, es: seq<NodeEvent>, n': Node, uid: string)
    requires CalmlyLeads(n, ns, es, n')
    ensures |ns| == |es| + 1 && Spared(ns, es, uid)
  {
    hide NodeStep;
    forall i | 0 <= i < |es| ensures !Upsets(ns[i], es[i], uid) {
      assert Calm(es[i]);
    }
  }

  lemma ThenCalm(n: Node, ns: seq<Node>, es: seq<NodeEvent>, n': Node, e: NodeEvent, n'': Node)
    returns (ns': seq<Node>, es': seq<NodeEvent>)
    requires CalmlyLeads(n, ns, es, n') && NodeStep(n', e, n'') && Calm(e)
    ensures CalmlyLeads(n, ns', es', n'')
  {
    hide NodeStep, Calm;
    ns', es' := ns + [n''], es + [e];
    forall i | 0 <= i < |es'| ensures NodeStep(ns'[i], es'[i], ns'[i + 1]) && Calm(es'[i]) {
      if i < |es| {
        assert NodeStep(ns[i], es[i], ns[i + 1]) && Calm(es[i]);
      }
    }
  }

  lemma CreateIsStep(n: Node, k: string, s': Pool, id: string)
    requires k !in n.busy && AssignStep(n.world.pool, k, s', Assigned(id))
    ensures NodeStep(n, Creates(k, Assigned(id)), Underway(n, k, s', Annotating(id)))
  {
    hide AssignStep;
  }

  lemma AnnotationIsStep(n: Node, k: string, s': Pool, id: string, accepted: bool)
    requires k !in n.busy
    ensures NodeStep(Underway(n, k, s', Annotating(id)), Annotates(k, accepted, true),
                     Node(n.world.(pool := s'), n.annotations[k := id],
                          if accepted then n.busy else n.busy[k := RollingBack(id)]))
  {
    var middle := Underway(n, k, s', Annotating(id));
    assert middle.busy - {k} == n.busy;
    assert middle.busy[k := RollingBack(id)] == n.busy[k := RollingBack(id)];
  }

  /** A newcomer is created and annotated: it takes one warm address. */
  lemma Newcomer(n: Node, ns: seq<Node>, es: seq<NodeEvent>, n': Node, k: string)
    returns (ns': seq<Node>, es': seq<NodeEvent>, n'': Node, r: Resource)
    requires CalmlyLeads(n, ns, es, n') && Sound(n'.world) && WarmSet(n'.world.pool.warm) != {}
    requires k !in n'.world.pool.used && k !in n'.busy
    ensures CalmlyLeads(n, ns', es', n'') && Sound(n''.world)
    ensures r in WarmSet(n'.world.pool.warm) && WarmSet(n''.world.pool.warm) == WarmSet(n'.world.pool.warm) - {r}
    ensures n''.annotations == n'.annotations[k := r.resourceID]
  {
    hide *;
    var s';
    s', r := SomeAssignment(n'.world, k);
    var id := r.resourceID;
    n'' := Node(n'.world.(pool := s'), n'.annotations[k := id], n'.busy);
    AssignedIsSound(n'.world, k, s', id);
    CreateIsStep(n', k, s', id);
    AnnotationIsStep(n', k, s', id, true);
    CalmCreate(k, id);
    ns', es' := ThenCalm(n, ns, es, n', Creates(k, Assigned(id)), Underway(n', k, s', Annotating(id)));
    ns', es' := ThenCalm(n, ns', es', Underway(n', k, s', Annotating(id)), Annotates(k, true, true), n'');
  }

  lemma AssignedIsSound(w: World, k: string, s': Pool, id: string)
    requires Sound(w) && AssignStep(w.pool, k, s', Assigned(id))
    ensures Sound(w.(pool := s'))
  {
    hide Sound, AssignStep;
    StepKeeps(w, Assign(k, Assigned(id)), w.(pool := s'));
  }

  lemma CalmCreate(k: string, id: string)
    ensures Calm(Creates(k, Assigned(id))) && Calm(Annotates(k, true, true))
  {
  }

  /** One newcomer after the other takes a warm address, until one of them is annotated with the given one. */
  lemma {:induction false} HandOut(n: Node, ns: seq<Node>, es: seq<NodeEvent>, n': Node, r: Resource,
                                   names: set<string>)
    returns (ns': seq<Node>, es': seq<NodeEvent>, n'': Node, k: string)
    requires CalmlyLeads(n, ns, es, n') && Sound(n'.world) && r in WarmSet(n'.world.pool.warm)
    ensures CalmlyLeads(n, ns', es', n'') && k !in names
    ensures k in n''.annotations && n''.annotations[k] == r.resourceID
    ensures forall uid :: uid in names && uid in n'.annotations ==>
              uid in n''.annotations && n''.annotations[uid] == n'.annotations[uid]
    decreases |WarmSet(n'.world.pool.warm)|
  {
    hide CalmlyLeads, Sound, WarmSet;
    k := FreshName(names + n'.world.pool.used.Keys + n'.busy.Keys);
    var taken;
    ns', es', n'', taken := Newcomer(n, ns, es, n', k);
    if taken != r {
      assert |WarmSet(n''.world.pool.warm)| < |WarmSet(n'.world.pool.warm)| by {
        assert WarmSet(n'.world.pool.warm) == WarmSet(n''.world.pool.warm) + {taken};
      }
      ns', es', n'', k := HandOut(n, ns', es', n'', r, names);
    }
  }

  // ------------------------------------------------------------------ the address comes back

  /** The address of a create event whose annotation failed is warm again once it has been freed and has cooled down. */
  lemma ComesBack(n: Node, ns: seq<Node>, es: seq<NodeEvent>, n': Node, uid: string)
    returns (ns': seq<Node>, es': seq<NodeEvent>, n'': Node)
    requires CalmlyLeads(n, ns, es, n') && Sound(n'.world)
    requires uid in n'.busy && n'.busy[uid].RollingBack? && uid in n'.world.pool.used
    requires n'.world.pool.used[uid].resourceID == n'.busy[uid].id
    ensures CalmlyLeads(n, ns', es', n'') && Sound(n''.world) && n''.annotations == n'.annotations
    ensures n'.world.pool.used[uid] in WarmSet(n''.world.pool.warm)
  {
    hide *;
    var c;
    n'', c := RollBackIsStep(n', uid);
    CalmRollBack(uid);
    SoundStep(n', RollsBack(uid), n'');
    ns', es' := ThenCalm(n, ns, es, n', RollsBack(uid), n'');
    ns', es', n'' := CoolsDown(n, ns', es', n'', c);
  }

  lemma CalmRollBack(uid: string)
    ensures Calm(RollsBack(uid))
  {
  }

  lemma RollBackIsStep(n: Node, uid: string) returns (n': Node, c: CoolDownResource)
    requires uid in n.busy && n.busy[uid].RollingBack? && uid in n.world.pool.used
    requires n.world.pool.used[uid].resourceID == n.busy[uid].id
    ensures NodeStep(n, RollsBack(uid), n') && n'.annotations == n.annotations
    ensures c in n'.world.pool.cooling && c.resource == n.world.pool.used[uid] && c.deletionTimestamp == n'.world.now
  {
    var w := n.world;
    c := CoolDownResource(w.pool.used[uid], w.now);
    n' := Node(w.(pool := Freed(w.pool, uid, n.busy[uid].id, w.now)), n.annotations, n.busy - {uid});
    assert n'.world.pool.cooling[|w.pool.cooling|] == c;
  }

  lemma CoolsDown(n: Node, ns: seq<Node>, es: seq<NodeEvent>, n': Node, c: CoolDownResource)
    returns (ns': seq<Node>, es': seq<NodeEvent>, n'': Node)
    requires CalmlyLeads(n, ns, es, n') && Sound(n'.world)
    requires c in n'.world.pool.cooling && c.deletionTimestamp == n'.world.now
    ensures CalmlyLeads(n, ns', es', n'') && Sound(n''.world) && n''.annotations == n'.annotations
    ensures c.resource in WarmSet(n''.world.pool.warm)
  {
    var w := n'.world;
    var later := w.now + COOL_DOWN_PERIOD;
    var waited := n'.(world := w.(now := later));
    var clock := seq(|w.pool.cooling|, _ => later);
    n'' := n'.(world := World(CooledDown(w.pool, clock), w.jobs, later));
    hide Sound, CalmlyLeads, WarmSet, CooledDown, NodeStep, Step, LastRead;
    WaitingIsStep(n', later);
    CoolingIsStep(waited, clock, later);
    SoundStep(n', PoolStep(Tick(later)), waited);
    SoundStep(waited, PoolStep(CoolDown(clock)), n'');
    ns', es' := ThenCalm(n, ns, es, n', PoolStep(Tick(later)), waited);
    ns', es' := ThenCalm(n, ns', es', waited, PoolStep(CoolDown(clock)), n'');
    CoolDownStep(waited.world, clock, n''.world, c);
    assert HasCooled(c, later);
  }

  lemma WaitingIsStep(n: Node, later: int)
    requires later >= n.world.now
    ensures NodeStep(n, PoolStep(Tick(later)), n.(world := n.world.(now := later)))
  {
  }

  lemma CoolingIsStep(n: Node, clock: seq<int>, now: int)
    requires n.world.now == now && |clock| >= |n.world.pool.cooling| && forall i :: 0 <= i < |clock| ==> clock[i] == now
    ensures var n' := n.(world := World(CooledDown(n.world.pool, clock), n.world.jobs, now));
            Step(n.world, CoolDown(clock), n'.world) && NodeStep(n, PoolStep(CoolDown(clock)), n')
  {
    hide CooledDown;
    assert Reads(clock, now, now);
  }

  // ------------------------------------------------------------------ the exact condition

  /** Whatever happens next, as long as the pod is spared it shares its annotation with no tidy pod that is spared. */
  ghost predicate KeepsToItself(n: Node, uid: string) {
    forall ns, es, n', k ::
      Leads(n, ns, es, n') && k != uid && Tidy(n, k) && Spared(ns, es, uid) && Spared(ns, es, k) ==> !Shared(n', uid, k)
  }

  lemma TidyKeepsToItself(n: Node, uid: string)
    requires Sound(n.world) && Annotated(n) && Tidy(n, uid)
    ensures KeepsToItself(n, uid)
  {
    hide Sound, Annotated, Tidy, NodeStep, Spared, Shared;
    forall ns, es, n', k |
      Leads(n, ns, es, n') && k != uid && Tidy(n, k) && Spared(ns, es, uid) && Spared(ns, es, k)
      ensures !Shared(n', uid, k)
    {
      TidyThroughout(ns, es, |es|, uid);
      TidyThroughout(ns, es, |es|, k);
      TidyPodsShareNothing(n', uid, k);
    }
  }

  /** A pod that is about to be rolled back although it is annotated will share its annotation. */
  lemma StaleIsShared(n: Node, uid: string) returns (ns: seq<Node>, es: seq<NodeEvent>, n': Node, k: string)
    requires Sound(n.world) && Annotated(n)
    requires uid in n.busy && n.busy[uid].RollingBack? && uid in n.world.pool.used
    requires uid in n.annotations && n.annotations[uid] == n.busy[uid].id
    ensures CalmlyLeads(n, ns, es, n') && k != uid && k !in n.annotations && k !in n.busy && Shared(n', uid, k)
  {
    hide Sound, NodeStep, WarmSet, NodeSteps;
    BeginsCalmly(n);
    ns, es := [n], [];
    hide CalmlyLeads;
    var back;
    ns, es, back := ComesBack(n, ns, es, n, uid);
    ns, es, n', k := HandOut(n, ns, es, back, n.world.pool.used[uid], {uid} + n.annotations.Keys + n.busy.Keys);
  }

  lemma BeginsCalmly(n: Node)
    ensures CalmlyLeads(n, [n], [], n)
  {
  }

  /**
   The call of AnnotatePod is harmless if and only if it does not report a failure after the annotation was written:
   otherwise the pod can come to share its annotation with a pod that holds the address.
   */
  lemma AnnotationIsSafeIff(n: Node, uid: string, accepted: bool, written: bool, n': Node)
    requires Sound(n.world) && Annotated(n) && Tidy(n, uid) && NodeStep(n, Annotates(uid, accepted, written), n')
    ensures KeepsToItself(n', uid) <==> accepted || !written
  {
    var e := Annotates(uid, accepted, written);
    hide Sound;
    SoundStep(n, e, n');
    AnnotatedStep(n, e, n');
    if accepted || !written {
      TidyStep(n, e, n', uid);
      TidyKeepsToItself(n', uid);
    } else {
      var ns, es, end, k := StaleIsShared(n', uid);
      CalmSpares(n', ns, es, end, uid);
      CalmSpares(n', ns, es, end, k);
      assert Tidy(n', k);
      assert !KeepsToItself(n', uid);
    }
  }

  /**
   From every start of a node with a warm address there is a run in which two pods, neither of them deleted, end up
   annotated alike.
   */
  lemma SharedAnnotationRun(n: Node) returns (ns: seq<Node>, es: seq<NodeEvent>, j: string, k: string)
    requires NodeStart(n) && WarmSet(n.world.pool.warm) != {}
    ensures NodeRun(ns, es) && ns[0] == n && j != k && Shared(ns[|es|], j, k)
    ensures forall i :: 0 <= i < |es| ==> !es[i].Deletes?
  {
    StartIsSound(n.world);
    j := FreshName(n.world.pool.used.Keys + n.annotations.Keys);
    var s', r := SomeAssignment(n.world, j);
    hide AssignStep, WarmSet, Sound, Start, NodeStep, Annotated;
    var id := r.resourceID;
    var middle := Underway(n, j, s', Annotating(id));
    var stale := Node(n.world.(pool := s'), n.annotations[j := id], n.busy[j := RollingBack(id)]);
    CreateIsStep(n, j, s', id);
    AnnotationIsStep(n, j, s', id, false);
    AssignUsed(n.world.pool, j, s', Assigned(id));
    SoundStep(n, Creates(j, Assigned(id)), middle);
    AnnotatedStep(n, Creates(j, Assigned(id)), middle);
    AnnotatedStep(middle, Annotates(j, false, true), stale);
    var ns', es', end;
    ns', es', end, k := StaleIsShared(stale, j);
    hide Shared, CalmlyLeads;
    ns, es := [n, middle] + ns', [Creates(j, Assigned(id)), Annotates(j, false, true)] + es';
    Prepended(n, middle, stale, ns', es', end, j, id, ns, es);
  }

  lemma Prepended(n: Node, middle: Node, stale: Node, ns': seq<Node>, es': seq<NodeEvent>, end: Node, j: string,
                  id: string,
                  ns: seq<Node>, es: seq<NodeEvent>)
    requires CalmlyLeads(stale, ns', es', end)
    requires NodeStep(n, Creates(j, Assigned(id)), middle) && NodeStep(middle, Annotates(j, false, true), stale)
    requires ns == [n, middle] + ns' && es == [Creates(j, Assigned(id)), Annotates(j, false, true)] + es'
    ensures NodeSteps(ns, es) && ns[0] == n && ns[|es|] == end
    ensures forall i :: 0 <= i < |es| ==> !es[i].Deletes?
  {
    hide NodeStep;
    forall i | 0 <= i < |es| ensures NodeStep(ns[i], es[i], ns[i + 1]) && !es[i].Deletes? {
      if i >= 2 {
        assert NodeStep(ns'[i - 2], es'[i - 2], ns'[i - 1]) && Calm(es'[i - 2]);
      }
    }
  }
}
