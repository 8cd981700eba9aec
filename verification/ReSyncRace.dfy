/**
 Why the runs of Safety exclude a re-sync that takes effect while a create or delete is in flight. Every reconcile
 of a pool whose flag is up emits another re-sync job; the second one can find the flag up again while a create is
 in flight, and then the created address enters the warm pool twice.
 */
module ReSyncRace {
  import opened Collections
  import opened GoMath
  import opened PoolState
  import opened Jobs
  import opened Accounting
  import opened PoolOps
  import opened Ownership
  import opened ReSync
  import opened Runs
  import opened Safety

  const CREATE_ONE := NewWarmPoolCreateJob("node", 1)
  const RESYNC := NewWarmPoolReSyncJob("node")

  /** A secondary pool for three addresses, none of them in use. */
  function Empty(warmIPTarget: Int64, pendingCreate: int, flag: bool): Pool {
    Pool("node", 3, false, WarmPoolConfig(3, 0, warmIPTarget, 0, 0), map[], map[], [], pendingCreate, 0, flag, false)
  }

  lemma CreatesOne(warmIPTarget: Int64)
    requires warmIPTarget == 1 || warmIPTarget == 2
    ensures ReconcileStep(Empty(warmIPTarget, warmIPTarget - 1, false), Empty(warmIPTarget, warmIPTarget, false),
              CREATE_ONE)
  {
    var s := Empty(warmIPTarget, warmIPTarget - 1, false);
    NothingOwned(s);
    hide NumResources;
    assert |s.used| == 0 && |s.cooling| == 0;
    assert Deviation(s) == 1;
    assert Normal(false, s.config) == s.config;
  }

  lemma StepCreates(warmIPTarget: Int64, jobs: seq<WarmPoolJob>)
    requires warmIPTarget == 1 || warmIPTarget == 2
    ensures Step(World(Empty(warmIPTarget, warmIPTarget - 1, false), jobs, 0), Reconcile(CREATE_ONE),
                 World(Empty(warmIPTarget, warmIPTarget, false), jobs + [CREATE_ONE], 0))
  {
    hide ReconcileStep;
    CreatesOne(warmIPTarget);
  }

  /** A failed create: the reservation is released and the flag goes up. */
  lemma StepFails(warmIPTarget: Int64, pendingCreate: int, jobs: seq<WarmPoolJob>, k: nat)
    requires k < |jobs| && jobs[k] == CREATE_ONE
    ensures Step(World(Empty(warmIPTarget, pendingCreate, false), jobs, 0), Complete(k, [], false, false),
                 World(Empty(warmIPTarget, pendingCreate - 1, true), Remove(jobs, k), 0))
  {
    NothingOwned(Empty(warmIPTarget, pendingCreate, false));
    assert AddGroups(map[], false, []) == map[];
    hide Owned, Held, Remove;
  }

  /** With the flag up and nothing pending, every reconcile submits one more re-sync. */
  lemma StepRequestsReSync(warmIPTarget: Int64, jobs: seq<WarmPoolJob>)
    ensures Step(World(Empty(warmIPTarget, 0, true), jobs, 0), Reconcile(RESYNC),
              World(Empty(warmIPTarget, 0, true), jobs + [RESYNC], 0))
  {
    hide Deviation;
  }

  /** A re-sync that finds nothing upstream. */
  lemma StepReSyncsEmpty(warmIPTarget: Int64, jobs: seq<WarmPoolJob>)
    requires |jobs| > 0 && jobs[0] == RESYNC
    ensures Step(World(Empty(warmIPTarget, 0, true), jobs, 0), ReSyncDone(0, []),
              World(Empty(warmIPTarget, 0, false), Remove(jobs, 0), 0))
    ensures Settled(World(Empty(warmIPTarget, 0, true), jobs, 0), ReSyncDone(0, []))
  {
    var s := Empty(warmIPTarget, 0, true);
    NothingOwned(s);
    assert Attached(false, []) == {} && UsedGroups(s) == {};
    assert Purge(AppendAll(map[], Without([], {})), {}) == map[];
    hide Owned, Held, Remove;
  }

  /** The pool of the last steps, with the address of the create in flight already warm. */
  function WithAddress(a: string): Pool {
    Empty(2, 1, false).(warm := map[a := [Resource(a, a)]])
  }

  lemma AddressGroup(a: string)
    requires a != ""
    ensures GroupResources(false, a) == [Resource(a, a)]
    ensures UpstreamResources(false, [a]) == [Resource(a, a)]
    ensures Attached(false, [a]) == {a}
  {
    assert GroupResources(false, a) == [Resource(a, a)];
    assert [a][..0] == [];
    assert UpstreamResources(false, []) == [];
  }

  lemma AddressEnters(a: string)
    requires a != ""
    ensures ReSynced(Empty(2, 1, true), [a]) == WithAddress(a)
  {
    var s, r := Empty(2, 1, true), Resource(a, a);
    NothingOwned(s);
    AddressGroup(a);
    hide UpstreamResources, Attached, GroupResources, Owned, Held;
    var none: set<Resource> := {};
    OneAppended(a);
    assert Owned(s) - Elems(UpstreamResources(false, [a])) == none;
    assert PurgeQueue([], none) == [];
    hide AppendAll, Purge, Without;
  }

  lemma OneAppended(a: string)
    ensures Without([Resource(a, a)], {}) == [Resource(a, a)]
    ensures AppendAll(map[], [Resource(a, a)]) == map[a := [Resource(a, a)]]
    ensures Purge(map[a := [Resource(a, a)]], {}) == map[a := [Resource(a, a)]]
  {
    var r := Resource(a, a);
    assert [r][..0] == [];
    assert Without([r], {}) == [r];
    assert AppendAll(map[], []) == map[];
    var m: Groups := map[a := [r]];
    assert AppendAll(map[], [r]) == m;
    assert Purge(m, {}) == m;
  }

  lemma AddressListed(a: string)
    requires a != ""
    ensures UpstreamOK(Empty(2, 1, true), [a])
  {
    AddressGroup(a);
    AddressFits(a);
    NothingUsed();
    hide *;
    ListIsOK(Empty(2, 1, true), [a]);
  }

  lemma AddressFits(a: string)
    requires a != ""
    ensures NoDup([a]) && AllWellFormed(false, {a}) && 1 * |{a}| <= 3
    ensures !Empty(2, 1, true).isPD && Empty(2, 1, true).capacity == 3 && Unit(false) == 1
  {
  }

  lemma NothingUsed()
    ensures UsedGroups(Empty(2, 1, true)) == {}
  {
  }

  lemma ListIsOK(s: Pool, ids: seq<string>)
    requires NoDup(ids) && AllWellFormed(s.isPD, Attached(s.isPD, ids)) && UsedGroups(s) == {}
    requires Unit(s.isPD) * |Attached(s.isPD, ids)| <= s.capacity
    ensures UpstreamOK(s, ids)
  {
    hide NoDup, WellFormed, Attached, UsedGroups, Unit;
    assert Attached(s.isPD, ids) + {} == Attached(s.isPD, ids);
  }

  /** A re-sync that lists the address of the create in flight. */
  lemma StepReSyncsAddress(a: string, jobs: seq<WarmPoolJob>)
    requires a != "" && |jobs| > 0 && jobs[0] == RESYNC
    ensures Step(World(Empty(2, 1, true), jobs, 0), ReSyncDone(0, [a]), World(WithAddress(a), Remove(jobs, 0), 0))
  {
    hide UpstreamOK, ReSynced, Remove, WithAddress;
    AddressListed(a);
    AddressEnters(a);
  }

  /** A run that ends in world `w`. */
  ghost predicate Reaches(ws: seq<World>, es: seq<Event>, w: World) {
    Run(ws, es) && ws[|es|] == w
  }

  lemma Extend(ws: seq<World>, es: seq<Event>, w: World, e: Event, w': World) returns (ws': seq<World>, es': seq<Event>)
    requires Reaches(ws, es, w) && Step(w, e, w') && Settled(w, e)
    ensures Reaches(ws', es', w') && |es'| == |es| + 1
  {
    hide Step, Settled, Start;
    ws', es' := ws + [w'], es + [e];
    forall i | 0 <= i < |es'| ensures Step(ws'[i], es'[i], ws'[i + 1]) && Settled(ws'[i], es'[i]) {
      if i < |es| {
        assert Step(ws[i], es[i], ws[i + 1]) && Settled(ws[i], es[i]);
      }
    }
  }

  lemma Begins()
    ensures Reaches([World(Empty(1, 0, false), [], 0)], [], World(Empty(1, 0, false), [], 0))
  {
    NothingOwned(Empty(1, 0, false));
    hide Owned, Held, Exclusive, Whole;
  }

  /** Two steps from a fresh pool to one whose flag is up. */
  lemma FlagGoesUp() returns (ws: seq<World>, es: seq<Event>)
    ensures Reaches(ws, es, World(Empty(1, 0, true), [], 0)) && |es| == 2
  {
    Begins();
    ws, es := [World(Empty(1, 0, false), [], 0)], [];
    hide Step, Reaches, Empty, Remove;
    RemovedJobs();
    StepCreates(1, []);
    ws, es := Extend(ws, es, World(Empty(1, 0, false), [], 0), Reconcile(CREATE_ONE),
        World(Empty(1, 1, false), [CREATE_ONE], 0));
    StepFails(1, 1, [CREATE_ONE], 0);
    ws, es := Extend(ws, es, World(Empty(1, 1, false), [CREATE_ONE], 0), Complete(0, [], false, false),
        World(Empty(1, 0, true), [], 0));
  }

  /** Three steps more to an outstanding re-sync that is no longer needed. */
  lemma LeftoverReSync() returns (ws: seq<World>, es: seq<Event>)
    ensures Reaches(ws, es, World(Empty(1, 0, false), [RESYNC], 0)) && |es| == 5
  {
    ws, es := FlagGoesUp();
    hide Step, Reaches, Empty, Remove;
    RemovedJobs();
    StepRequestsReSync(1, []);
    ws, es := Extend(ws, es, World(Empty(1, 0, true), [], 0), Reconcile(RESYNC), World(Empty(1, 0, true), [RESYNC], 0));
    StepRequestsReSync(1, [RESYNC]);
    ws, es := Extend(ws, es, World(Empty(1, 0, true), [RESYNC], 0), Reconcile(RESYNC),
        World(Empty(1, 0, true), [RESYNC, RESYNC], 0));
    StepReSyncsEmpty(1, [RESYNC, RESYNC]);
    ws, es := Extend(ws, es, World(Empty(1, 0, true), [RESYNC, RESYNC], 0), ReSyncDone(0, []),
        World(Empty(1, 0, false), [RESYNC], 0));
  }

  /** The pool when the create in flight reports the address that the re-sync already brought. */
  function Reported(a: string): Pool {
    Updated(WithAddress(a), CREATE_ONE.(resources := [a]), true, false)
  }

  /**
   A run from a fresh pool that ends with a re-sync in flight beside a create. When the re-sync takes effect and
   then the create reports its address, the address is in the warm pool twice and two requesters are given it.
   */
  lemma TwoReSyncsShareAnAddress(a: string) returns (ws: seq<World>, es: seq<Event>, w: World)
    requires a != ""
    ensures Reaches(ws, es, w) && w == World(Empty(2, 1, true), [RESYNC, CREATE_ONE], 0)
    ensures Step(w, ReSyncDone(0, [a]), World(WithAddress(a), [CREATE_ONE], 0))
    ensures !Exclusive(Reported(a)) && SharedBy(Reported(a), "first", "second", a)
  {
    ws, es := LeftoverReSync();
    hide Step, Reaches, WithAddress, Exclusive, SharedBy, Reported, Remove, Empty;
    RemovedJobs();
    StepCreates(1, [RESYNC]);
    ws, es := Extend(ws, es, World(Empty(1, 0, false), [RESYNC], 0), Reconcile(CREATE_ONE),
        World(Empty(1, 1, false), [RESYNC, CREATE_ONE], 0));
    StepSetsTarget([RESYNC, CREATE_ONE]);
    ws, es := Extend(ws, es, World(Empty(1, 1, false), [RESYNC, CREATE_ONE], 0),
        SetConfig(WarmPoolConfig(3, 0, 2, 0, 0)), World(Empty(2, 1, false), [RESYNC, CREATE_ONE], 0));
    StepCreates(2, [RESYNC, CREATE_ONE]);
    var three := [RESYNC, CREATE_ONE] + [CREATE_ONE];
    ws, es := Extend(ws, es, World(Empty(2, 1, false), [RESYNC, CREATE_ONE], 0), Reconcile(CREATE_ONE),
        World(Empty(2, 2, false), three, 0));
    StepFails(2, 2, three, 2);
    w := World(Empty(2, 1, true), [RESYNC, CREATE_ONE], 0);
    ws, es := Extend(ws, es, World(Empty(2, 2, false), three, 0), Complete(2, [], false, false), w);
    StepReSyncsAddress(a, [RESYNC, CREATE_ONE]);
    Duplicates(a);
  }

  lemma RemovedJobs()
    ensures [] + [CREATE_ONE] == [CREATE_ONE] && Remove([CREATE_ONE], 0) == []
    ensures [] + [RESYNC] == [RESYNC] && [RESYNC] + [RESYNC] == [RESYNC, RESYNC]
    ensures Remove([RESYNC, RESYNC], 0) == [RESYNC]
    ensures [RESYNC] + [CREATE_ONE] == [RESYNC, CREATE_ONE]
    ensures Remove([RESYNC, CREATE_ONE] + [CREATE_ONE], 2) == [RESYNC, CREATE_ONE]
    ensures Remove([RESYNC, CREATE_ONE], 0) == [CREATE_ONE]
  {
  }

  lemma StepSetsTarget(jobs: seq<WarmPoolJob>)
    ensures Step(World(Empty(1, 1, false), jobs, 0), SetConfig(WarmPoolConfig(3, 0, 2, 0, 0)),
              World(Empty(2, 1, false), jobs, 0))
  {
  }

  /** Two requesters, one after the other, are assigned the same address. */
  ghost predicate SharedBy(s: Pool, j: string, k: string, a: string) {
    exists s', s'' ::
      && AssignStep(s, j, s', Assigned(a)) && AssignStep(s', k, s'', Assigned(a))
      && j in s''.used && k in s''.used && j != k && s''.used[j].resourceID == s''.used[k].resourceID == a
  }

  lemma ReportedTwice(a: string)
    requires a != ""
    ensures Reported(a).warm == map[a := [Resource(a, a), Resource(a, a)]]
    ensures Reported(a).used == map[] && Reported(a).cooling == [] && Reported(a).capacity == 3
    ensures Reported(a).pendingCreate == 0 && Reported(a).pendingDelete == 0 && !Reported(a).isPD
  {
    AddressAgain(a);
    hide AddGroups;
  }

  lemma AddSingle(m: Groups, g: string)
    ensures AddGroups(m, false, [g]) == AddGroup(m, false, g)
  {
    hide AddGroup;
    assert [g][..0] == [];
    assert AddGroups(m, false, []) == m;
  }

  lemma AddressAgain(a: string)
    requires a != ""
    ensures AddGroups(map[a := [Resource(a, a)]], false, [a]) == map[a := [Resource(a, a), Resource(a, a)]]
  {
    hide AddGroups, AddGroup, GroupResources;
    AddressGroup(a);
    var m: Groups := map[a := [Resource(a, a)]];
    AddSingle(m, a);
    AppendedTwice(a, m);
  }

  lemma AppendedTwice(a: string, m: Groups)
    requires m == map[a := [Resource(a, a)]] && GroupResources(false, a) == [Resource(a, a)]
    ensures AddGroup(m, false, a) == map[a := [Resource(a, a), Resource(a, a)]]
  {
    hide GroupResources;
    assert [Resource(a, a)] + [Resource(a, a)] == [Resource(a, a), Resource(a, a)];
  }

  /** A request to a pool with one group of addresses. */
  lemma TakesFirst(s: Pool, requester: string, a: string)
    requires !s.isPD && s.capacity == 3 && s.cooling == [] && s.pendingCreate == 0 && s.pendingDelete == 0
    requires requester !in s.used && |s.used| < 3 && s.warm.Keys == {a} && s.warm[a] != []
    ensures AssignStep(s, requester, AfterAssign(s, requester, a), Assigned(s.warm[a][0].resourceID))
  {
    assert |s.warm.Keys| == 1;
    assert Pickable(s, a);
  }

  lemma Duplicates(a: string)
    requires a != ""
    ensures !Exclusive(Reported(a)) && SharedBy(Reported(a), "first", "second", a)
  {
    ReportedTwice(a);
    hide Reported;
    assert !Exclusive(Reported(a)) by {
      NotExclusive(Reported(a), a);
    }
    hide Exclusive, SharedBy;
    TwiceIsShared(Reported(a), a);
  }

  lemma NotExclusive(s: Pool, a: string)
    requires s.warm == map[a := [Resource(a, a), Resource(a, a)]]
    ensures !Exclusive(s)
  {
    assert s.warm[a][0] == s.warm[a][1];
    assert !NoDup(s.warm[a]);
  }

  lemma TwiceIsShared(s: Pool, a: string)
    requires !s.isPD && s.capacity == 3 && s.cooling == [] && s.pendingCreate == 0 && s.pendingDelete == 0
    requires s.used == map[] && s.warm == map[a := [Resource(a, a), Resource(a, a)]]
    ensures SharedBy(s, "first", "second", a)
  {
    hide AssignStep;
    var t := AfterAssign(s, "first", a);
    assert t.warm[a] == [Resource(a, a)];
    var u := AfterAssign(t, "second", a);
    assert "first"[0] != "second"[0];
    assert s.warm.Keys == {a} && t.warm.Keys == {a} && |s.used| == 0 && |t.used| == 1;
    TakesFirst(s, "first", a);
    TakesFirst(t, "second", a);
  }

  // ------------------------------------------------------------------ the exact condition

  /** The groups of a set in some order. */
  lemma {:induction false} Listed(groups: set<string>) returns (ids: seq<string>)
    ensures NoDup(ids) && Elems(ids) == groups
    decreases groups
  {
    if groups == {} {
      ids := [];
    } else {
      var g :| g in groups;
      var rest := Listed(groups - {g});
      ids := rest + [g];
      assert g !in Elems(rest);
      assert Elems(ids) == Elems(rest) + {g};
    }
  }

  lemma WellFormedAttached(isPD: bool, ids: seq<string>)
    requires AllWellFormed(isPD, Elems(ids))
    ensures Attached(isPD, ids) == Elems(ids)
  {
    hide GroupResources, WellFormed;
    forall g | g in ids ensures g != "" && GroupResources(isPD, g) != [] {
      assert g in Elems(ids);
      GroupFacts(isPD, g);
      UnitPositive(isPD);
    }
  }

  lemma UsedAreHeld(s: Pool)
    ensures UsedGroups(s) <= Held(s)
  {
    hide WarmSet, CoolSet;
  }

  lemma ListsHeld(s: Pool, groups: set<string>, ids: seq<string>)
    requires NoDup(ids) && Elems(ids) == groups && Held(s) <= groups && AllWellFormed(s.isPD, groups)
    requires Unit(s.isPD) * |groups| <= s.capacity
    ensures UpstreamOK(s, ids) && Attached(s.isPD, ids) == groups
  {
    hide Held, WellFormed, Unit, UsedGroups, Attached;
    WellFormedAttached(s.isPD, ids);
    UsedAreHeld(s);
    assert groups + UsedGroups(s) == groups;
  }

  /** The listing of a provider that still sees, or already sees, one group the pool does not hold. */
  lemma ExtraListed(s: Pool, g: string) returns (upstream: seq<string>)
    requires Exclusive(s) && Whole(s) && s.reSyncRequired
    requires WellFormed(s.isPD, g) && g !in Held(s) && Unit(s.isPD) * (|Held(s)| + 1) <= s.capacity
    ensures UpstreamOK(s, upstream)
    ensures Exclusive(ReSynced(s, upstream)) && g in Held(ReSynced(s, upstream))
    ensures Members(s.isPD, g) <= WarmSet(ReSynced(s, upstream).warm)
  {
    hide Exclusive, WellFormed, Held, Owned, Unit, Members, ReSynced, Expand, UpstreamOK, Attached, WarmSet,
         UsedGroups, NoDup, Elems;
    var groups := Held(s) + {g};
    upstream := Listed(groups);
    assert AllWellFormed(s.isPD, groups);
    hide Whole, AllWellFormed;
    ListsHeld(s, groups, upstream);
    ReSyncKeeps(s, upstream);
    ExtraIsWarm(s, g, upstream);
  }

  lemma ExtraIsWarm(s: Pool, g: string, upstream: seq<string>)
    requires Exclusive(s) && Whole(s) && s.reSyncRequired && UpstreamOK(s, upstream)
    requires g !in Held(s) && g in Attached(s.isPD, upstream)
    ensures Members(s.isPD, g) <= WarmSet(ReSynced(s, upstream).warm)
  {
    assert WellFormed(s.isPD, g);
    UpstreamIs(s.isPD, upstream);
    ReSyncConverges(s, upstream);
    hide Exclusive, WellFormed, Whole, Attached, Members, ReSynced, UpstreamResources, WarmSet, CoolSet, UsedGroups;
    MembersFacts(s.isPD, g);
    forall r | r in Members(s.isPD, g) ensures r in Expand(s.isPD, Attached(s.isPD, upstream)) && r !in Owned(s) {
      assert r.groupID == g;
    }
  }

  /** A group that is reported although all its addresses are warm is held twice. */
  lemma ReportedAgain(s: Pool, job: WarmPoolJob, g: string, didSucceed: bool, prefixAvailable: bool)
    requires Keyed(s.warm) && WellFormed(s.isPD, g) && Members(s.isPD, g) <= WarmSet(s.warm) && job.resources == [g]
    ensures !Exclusive(Updated(s, job, didSucceed, prefixAvailable))
  {
    hide GroupResources, WellFormed, Unit;
    GroupFacts(s.isPD, g);
    UnitPositive(s.isPD);
    var rs := GroupResources(s.isPD, g);
    assert rs[0] in Members(s.isPD, g);
    KeyOfWarm(s.warm, s.warm.Keys, rs[0]);
    var i :| 0 <= i < |s.warm[g]| && s.warm[g][i] == rs[0];
    assert [g][..0] == [];
    assert AddGroups(s.warm, s.isPD, [g]) == AddGroup(s.warm, s.isPD, g);
    var list := s.warm[g] + rs;
    assert list[i] == list[|s.warm[g]|];
    assert !NoDup(list);
    assert Updated(s, job, didSucceed, prefixAvailable).warm[g] == list;
  }

  /** The world after a re-sync is sound, and stays exclusive when a create reports what it made before the re-sync. */
  ghost predicate Harmless(w: World, w': World) {
    && Sound(w')
    && forall j: nat, returned ::
         j < |w.jobs| && w.jobs[j].operation.Create? && CreatedOK(w, w.jobs[j], returned)
         ==> Exclusive(Updated(w'.pool, w.jobs[j].(resources := returned), true, w.pool.prefixAvailable))
  }

  /** Whatever a provider may list, the re-sync is harmless. */
  ghost predicate SafeReSync(w: World, k: nat) {
    forall upstream, w' :: Step(w, ReSyncDone(k, upstream), w') ==> Harmless(w, w')
  }

  /** A job in flight has room reserved for at least one group. */
  lemma Reserved(w: World, j: nat)
    requires Sound(w) && j < |w.jobs| && (w.jobs[j].operation.Create? || w.jobs[j].operation.Deleted?)
    ensures Unit(w.pool.isPD) * (|Held(w.pool)| + 1) <= w.pool.capacity
  {
    hide Exclusive, Whole, Queued, DeletingOK, Counts, NumReSync, Deleting, Held, Remove, Unit, WellFormed;
    var u, op := Unit(w.pool.isPD), w.jobs[j].operation;
    assert JobOK(w.pool.isPD, w.jobs[j]);
    RemoveJob(w.jobs, j);
    JobRemoved(w.jobs, j, w.pool.isPD);
    CountsNonNegative(w.pool.isPD, Remove(w.jobs, j), op);
    CountsNonNegative(w.pool.isPD, w.jobs, Create);
    CountsNonNegative(w.pool.isPD, w.jobs, Deleted);
    MulMonotone(1, Counts(w.jobs, op), u);
    MulMonotone(0, Counts(w.jobs, Create), u);
    MulMonotone(0, Counts(w.jobs, Deleted), u);
    Distribute(u, |Held(w.pool)|, 1);
  }

  /** A create in flight: the provider lists the group it is about to report. */
  lemma CreateMakesUnsafe(w: World, k: nat, j: nat, g: string)
    requires Sound(w) && k < |w.jobs| && w.jobs[k].operation.ReSyncPool? && w.pool.reSyncRequired
    requires j < |w.jobs| && w.jobs[j].operation.Create? && CreatedOK(w, w.jobs[j], [g])
    ensures !SafeReSync(w, k)
  {
    hide Exclusive, Whole, Queued, Pending, Capped, JobsOK, DeletingOK, Held, Unit, Members, WarmSet, ReSynced,
         UpstreamOK, WellFormed, Remove, Deleting, Updated;
    var s, job := w.pool, w.jobs[j];
    Reserved(w, j);
    assert g in Elems([g]);
    var upstream := ExtraListed(s, g);
    var w' := World(ReSynced(s, upstream), Remove(w.jobs, k), w.now);
    assert Step(w, ReSyncDone(k, upstream), w');
    ExclusiveIsKeyed(w'.pool);
    ReSyncFixed(s, upstream);
    ReportedAgain(w'.pool, job.(resources := [g]), g, true, s.prefixAvailable);
    assert !Harmless(w, w');
  }

  /** A delete in flight: the provider still lists a group it is about to remove. */
  lemma DeleteMakesUnsafe(w: World, k: nat, j: nat)
    requires Sound(w) && k < |w.jobs| && w.jobs[k].operation.ReSyncPool? && w.pool.reSyncRequired
    requires j < |w.jobs| && w.jobs[j].operation.Deleted?
    ensures !SafeReSync(w, k)
  {
    hide Exclusive, Whole, Queued, Pending, Capped, Held, Unit, Members, WarmSet, ReSynced, UpstreamOK, WellFormed,
         Remove, Deleting, Updated;
    var s, job := w.pool, w.jobs[j];
    Reserved(w, j);
    assert JobOK(s.isPD, job);
    var g := job.resources[0];
    assert g in Elems(job.resources);
    DeletingIs(w.jobs, j, g);
    var upstream := ExtraListed(s, g);
    var w' := World(ReSynced(s, upstream), Remove(w.jobs, k), w.now);
    assert Step(w, ReSyncDone(k, upstream), w');
    RemoveJob(w.jobs, k);
    assert g in Deleting(w'.jobs);
    assert !Sound(w');
    assert !Harmless(w, w');
  }

  lemma SettledIsSafe(w: World, k: nat, upstream: seq<string>, w': World)
    requires Sound(w) && Settled(w, ReSyncDone(k, upstream)) && Step(w, ReSyncDone(k, upstream), w')
    ensures Harmless(w, w')
  {
    hide Sound, Exclusive, UpstreamOK, ReSynced, CreatedOK, Updated, Remove;
    ReSyncStepKeeps(w, k, upstream, w');
    assert w'.pool == ReSynced(w.pool, upstream);
    hide Step;
    forall j: nat, returned | j < |w.jobs| && w.jobs[j].operation.Create? && CreatedOK(w, w.jobs[j], returned)
      ensures Exclusive(Updated(w'.pool, w.jobs[j].(resources := returned), true, w.pool.prefixAvailable))
    {
      CreateSurvives(w, upstream, w', j, returned);
    }
  }

  lemma CreateSurvives(w: World, upstream: seq<string>, w': World, j: nat, returned: seq<string>)
    requires Sound(w) && w'.pool == ReSynced(w.pool, upstream)
    requires w.pool.reSyncRequired ==> w.pool.pendingCreate == 0
    requires j < |w.jobs| && w.jobs[j].operation.Create? && CreatedOK(w, w.jobs[j], returned)
    ensures Exclusive(Updated(w'.pool, w.jobs[j].(resources := returned), true, w.pool.prefixAvailable))
  {
    hide Exclusive, Whole, Queued, Capped, Counts, Held, DeletingOK, ReSynced, WellFormed, Updated, Deleting, JobsOK,
         NoDup, AllWellFormed;
    UnitPositive(w.pool.isPD);
    CountsZero(w.pool.isPD, w.jobs, Create);
    NoPendingNoJobs(w);
    ReSyncIgnored(w.pool, upstream);
    UpdateKeeps(w.pool, w.jobs[j].(resources := returned), true, w.pool.prefixAvailable);
  }

  lemma NoPendingNoJobs(w: World)
    requires Pending(w)
    ensures w.pool.pendingCreate == 0 <==> Counts(w.jobs, Create) == 0
    ensures w.pool.pendingDelete == 0 <==> Counts(w.jobs, Deleted) == 0
  {
    hide Counts;
  }

  /**
   The condition on runs is exact: given a group the provider could still attach, a re-sync is safe for every list
   it may be handed if and only if it is no longer needed or both pending counters are zero.
   */
  lemma ReSyncIsSafeIff(w: World, k: nat, g: string)
    requires Sound(w) && k < |w.jobs| && w.jobs[k].operation.ReSyncPool?
    requires WellFormed(w.pool.isPD, g) && g !in Held(w.pool) && g !in Deleting(w.jobs)
    ensures SafeReSync(w, k) <==> !w.pool.reSyncRequired || (w.pool.pendingCreate == 0 && w.pool.pendingDelete == 0)
  {
    hide Step, Harmless, WellFormed, Held, Deleting, Exclusive, Whole, Queued, Capped, Counts, DeletingOK;
    var s := w.pool;
    if !s.reSyncRequired || (s.pendingCreate == 0 && s.pendingDelete == 0) {
      forall upstream, w' | Step(w, ReSyncDone(k, upstream), w') ensures Harmless(w, w') {
        SettledIsSafe(w, k, upstream, w');
      }
    } else {
      hide SafeReSync;
      NoPendingNoJobs(w);
      CountsZero(s.isPD, w.jobs, Create);
      CountsZero(s.isPD, w.jobs, Deleted);
      if j: nat :| j < |w.jobs| && w.jobs[j].operation.Create? {
        assert JobOK(s.isPD, w.jobs[j]);
        CreateMakesUnsafe(w, k, j, g);
      } else {
        var j: nat :| j < |w.jobs| && w.jobs[j].operation.Deleted?;
        DeleteMakesUnsafe(w, k, j);
      }
    }
  }
}
