/**
 pkg/utils/set.go
 */
module SetUtils {
  import opened Collections

  /** The elements of `a` that are not in `b`, in the order and with the repetitions of `a`. */
  method Difference<T(==)>(a: seq<T>, b: seq<T>) returns (diff: seq<T>)
    ensures diff == Without(a, Elems(b))
    ensures Elems(diff) == Elems(a) - Elems(b)
  {
    var m: set<T> := {};
    for i := 0 to |b|
      invariant m == Elems(b[..i])
    {
      m := m + {b[i]};
      assert b[..i + 1] == b[..i] + [b[i]];
    }
    assert b[..|b|] == b;
    diff := [];
    for i := 0 to |a|
      invariant diff == Without(a[..i], Elems(b))
    {
      assert a[..i + 1][..i] == a[..i];
      if a[i] !in m {
        diff := diff + [a[i]];
      }
    }
    assert a[..|a|] == a;
    WithoutElems(a, Elems(b));
  }
}

/**
 The pool object of pkg/pool/pool.go. Each method holds the pool's lock throughout, so each is one
 step on the state; its postcondition ties the new state to the meaning given in PoolOps.
 */
module WarmPools {
  import opened Collections
  import opened GoMath
  import opened Prefixes
  import opened PoolState
  import opened Jobs
  import opened Accounting
  import opened PoolOps
  import opened Ownership
  import opened ReSync
  import opened SetUtils
  import GoStrings

  predicate Named(r: Resource) {
    r.groupID != "" && r.resourceID != ""
  }

  /** Every warm entry sits under its own key, and nothing is anonymous. */
  ghost predicate Labelled(warm: Groups) {
    forall g, i :: g in warm && 0 <= i < |warm[g]| ==> warm[g][i].groupID == g && Named(warm[g][i])
  }

  ghost predicate AllNamed(used: map<string, Resource>, cooling: seq<CoolDownResource>) {
    && (forall k :: k in used ==> Named(used[k]))
    && (forall i :: 0 <= i < |cooling| ==> Named(cooling[i].resource))
  }

  // ------------------------------------------------------------------ loops over the warm map

  method NumResourcesFromMap(m: Groups) returns (count: nat)
    ensures count == NumResources(m)
  {
    count := 0;
    var keys := m.Keys;
    while keys != {}
      invariant keys <= m.Keys
      invariant count + NumOver(m, keys) == NumResources(m)
      decreases keys
    {
      var k :| k in keys;
      NumOverRemove(m, keys, k);
      count := count + |m[k]|;
      keys := keys - {k};
    }
  }

  method FindFreeGroup(m: Groups, numResourcesPerGroup: int) returns (freeGroupIDs: seq<string>)
    ensures NoDup(freeGroupIDs) && Elems(freeGroupIDs) == FreeGroups(m, numResourcesPerGroup)
  {
    freeGroupIDs := [];
    var keys := m.Keys;
    while keys != {}
      invariant keys <= m.Keys
      invariant NoDup(freeGroupIDs)
      invariant Elems(freeGroupIDs) == FreeGroups(m, numResourcesPerGroup) - keys
      decreases keys
    {
      var k :| k in keys;
      keys := keys - {k};
      if |m[k]| == numResourcesPerGroup {
        assert k !in Elems(freeGroupIDs);
        assert Elems(freeGroupIDs + [k]) == Elems(freeGroupIDs) + {k};
        freeGroupIDs := freeGroupIDs + [k];
      }
    }
  }

  /** No nonempty list under the keys is shorter. */
  ghost predicate AtLeast(m: Groups, keys: set<string>, count: int) {
    forall g :: g in m && g in keys && m[g] != [] ==> count <= |m[g]|
  }

  ghost predicate NamesGroups(m: Groups) {
    "" in m ==> m[""] == []
  }

  /**
   A nonempty group, if there is one. The empty name doubles as the mark of a fresh start, so only when no
   group carries it is the group found one with the fewest entries.
   */
  method FindMinGroup(m: Groups) returns (group: string, minCount: nat)
    ensures minCount == 0 <==> forall g :: g in m ==> m[g] == []
    ensures minCount > 0 ==> group in m && |m[group]| == minCount
    ensures minCount == 0 ==> group == ""
    ensures NamesGroups(m) && minCount > 0 ==> group != "" && AtLeast(m, m.Keys, minCount)
  {
    group, minCount := "", 0;
    var keys := m.Keys;
    while keys != {}
      invariant keys <= m.Keys
      invariant minCount == 0 <==> forall g :: g in m && g !in keys ==> m[g] == []
      invariant minCount > 0 ==> group in m && |m[group]| == minCount
      invariant minCount == 0 ==> group == ""
      invariant NamesGroups(m) && minCount > 0 ==> group != "" && AtLeast(m, m.Keys - keys, minCount)
      decreases keys
    {
      var k :| k in keys;
      keys := keys - {k};
      if |m[k]| == 0 {
        continue;
      }
      if group == "" || |m[k]| < minCount {
        minCount := |m[k]|;
        group := k;
      }
    }
  }

  class WarmPool {
    const nodeName: string
    const capacity: Int64
    const isPDPool: bool
    var warmPoolConfig: WarmPoolConfig
    var usedResources: map<string, Resource>
    var warmResources: Groups
    var coolDownQueue: seq<CoolDownResource>
    var pendingCreate: int
    var pendingDelete: int
    var reSyncRequired: bool
    var prefixAvailable: bool

    ghost function State(): Pool
      reads this
    {
      Pool(nodeName, capacity, isPDPool, warmPoolConfig, usedResources, warmResources, coolDownQueue,
           pendingCreate, pendingDelete, reSyncRequired, prefixAvailable)
    }

    ghost predicate Valid()
      reads this
    {
      Labelled(warmResources) && AllNamed(usedResources, coolDownQueue)
    }

    /** NewResourcePool */
    constructor (poolConfig: WarmPoolConfig, used: map<string, Resource>, warm: Groups, nodeName: string,
                 capacity: Int64, isPDPool: bool)
      ensures State() == Pool(nodeName, capacity, isPDPool, poolConfig, used, warm, [], 0, 0, false, false)
    {
      this.nodeName, this.capacity, this.isPDPool := nodeName, capacity, isPDPool;
      warmPoolConfig, usedResources, warmResources := poolConfig, used, warm;
      coolDownQueue, pendingCreate, pendingDelete := [], 0, 0;
      reSyncRequired, prefixAvailable := false, false;
    }

    // ---------------------------------------------------------------- AssignResource

    method AssignResourceFromMinGroup() returns (resource: Option<Resource>)
      requires Valid()
      modifies this`warmResources
      ensures Taken(old(State()), resource, State())
      ensures resource.Some? ==> Least(old(warmResources), resource.value.groupID)
    {
      assert "" in warmResources && |warmResources[""]| > 0 ==> warmResources[""][0].groupID == "";
      var groupID, resourceCount := FindMinGroup(warmResources);
      if groupID == "" || resourceCount == 0 {
        return None;
      }
      var r := warmResources[groupID][0];
      resource := Some(r);
      if resourceCount == 1 {
        assert warmResources[groupID][1..] == [];
        warmResources := warmResources[groupID := []];
      } else {
        warmResources := warmResources[groupID := warmResources[groupID][1..]];
      }
    }

    method AssignResourceFromAnyGroup() returns (resource: Option<Resource>)
      requires Valid()
      modifies this`warmResources
      ensures Taken(old(State()), resource, State())
    {
      resource := None;
      var keys := warmResources.Keys;
      while keys != {}
        invariant keys <= warmResources.Keys && warmResources == old(warmResources) && resource == None
        invariant forall g :: g in warmResources && g !in keys ==> warmResources[g] == []
        decreases keys
      {
        var groupID :| groupID in keys;
        keys := keys - {groupID};
        var resources := warmResources[groupID];
        if |resources| <= 0 {
          continue;
        }
        var r := resources[0];
        resource := Some(r);
        if |resources| == 1 {
          assert resources[1..] == [];
          warmResources := warmResources[groupID := []];
        } else {
          warmResources := warmResources[groupID := resources[1..]];
        }
        break;
      }
    }

    method AssignResource(requesterID: string) returns (out: Assignment)
      requires Valid()
      modifies this`usedResources, this`warmResources
      ensures Valid()
      ensures AssignStep(old(State()), requesterID, State(), out)
    {
      hide Labelled, AllNamed, AssignStep, Taken, Least, Named;
      ghost var s := State();
      var refusal := Refuses(requesterID);
      if refusal.Some? {
        RefusalIsStep(s, requesterID);
        return refusal.value;
      }
      var resource: Option<Resource>;
      if isPDPool {
        resource := AssignResourceFromMinGroup();
      } else {
        resource := AssignResourceFromAnyGroup();
      }
      TakenIsStep(s, requesterID, resource, State());
      if resource == None {
        return Refused(WarmPoolEmpty, true);
      }
      usedResources := usedResources[requesterID := resource.value];
      return Assigned(resource.value.resourceID);
    }

    /** The guards at the head of AssignResource. */
    method Refuses(requesterID: string) returns (refusal: Option<Assignment>)
      ensures refusal == Refusal(State(), requesterID)
    {
      if requesterID in usedResources {
        return Some(Refused(ResourceAlreadyAssigned, false));
      }
      if |usedResources| == capacity {
        return Some(Refused(PoolAtMaxCapacity, false));
      }
      if |usedResources| + |coolDownQueue| == capacity {
        return Some(Refused(ResourceAreBeingCooledDown, false));
      }
      if |usedResources| + |coolDownQueue| + pendingCreate + pendingDelete == capacity {
        return Some(Refused(ResourcesAreBeingCreated, false));
      }
      if |warmResources| == 0 {
        if isPDPool && !prefixAvailable {
          return Some(Refused(InsufficientCidrBlocks, false));
        }
        return Some(Refused(WarmPoolEmpty, true));
      }
      return None;
    }

    /** GetAssignedResource: what a requester holds, if anything. */
    method GetAssignedResource(requesterID: string) returns (resourceID: string, ownsResource: bool)
      ensures ownsResource == (requesterID in usedResources)
      ensures resourceID == if ownsResource then usedResources[requesterID].resourceID else ""
    {
      ownsResource := requesterID in usedResources;
      resourceID := if ownsResource then usedResources[requesterID].resourceID else "";
    }

    // ---------------------------------------------------------------- FreeResource

    method FreeResource(requesterID: string, resourceID: string, now: int)
      returns (shouldReconcile: bool, err: Option<PoolError>)
      requires Valid()
      modifies this`usedResources, this`coolDownQueue
      ensures Valid()
      ensures State() == Freed(old(State()), requesterID, resourceID, now)
      ensures err == FreeRefusal(old(State()), requesterID, resourceID)
      ensures requesterID !in old(usedResources) ==> err == Some(ResourceDoesntExist)
      ensures requesterID in old(usedResources) ==>
                err == if old(usedResources)[requesterID].resourceID == resourceID then None
                       else Some(IncorrectResourceOwner)
      ensures shouldReconcile == err.None?
    {
      if requesterID !in usedResources {
        return false, Some(ResourceDoesntExist);
      }
      var actualResource := usedResources[requesterID];
      if actualResource.resourceID != resourceID {
        return false, Some(IncorrectResourceOwner);
      }
      usedResources := usedResources - {requesterID};
      coolDownQueue := coolDownQueue + [CoolDownResource(actualResource, now)];
      return true, None;
    }

    // ---------------------------------------------------------------- UpdatePool

    method UpdatePool(job: WarmPoolJob, didSucceed: bool, prefixAvailable: bool) returns (shouldReconcile: bool)
      modifies this`reSyncRequired, this`prefixAvailable, this`warmResources, this`pendingCreate, this`pendingDelete
      ensures State() == Updated(old(State()), job, didSucceed, prefixAvailable)
      ensures shouldReconcile == !didSucceed
      ensures old(Valid()) && "" !in job.resources ==> Valid()
    {
      hide Labelled, AllNamed, AddGroups;
      shouldReconcile := false;
      if !didSucceed {
        reSyncRequired := true;
        shouldReconcile := true;
      }
      if isPDPool {
        this.prefixAvailable := prefixAvailable;
      }
      if |job.resources| > 0 {
        AddToWarm(job.resources);
      } else {
        AddNone(warmResources, isPDPool, job.resources);
      }
      if job.operation == Create {
        if isPDPool {
          pendingCreate := pendingCreate - job.resourceCount * NUM_IPV4_ADDR_PER_PREFIX;
        } else {
          pendingCreate := pendingCreate - job.resourceCount;
        }
      } else if job.operation == Deleted {
        if isPDPool {
          pendingDelete := pendingDelete - job.resourceCount * NUM_IPV4_ADDR_PER_PREFIX;
        } else {
          pendingDelete := pendingDelete - job.resourceCount;
        }
      }
    }

    /** The loop of UpdatePool that adds the groups of a job to the warm pool. */
    method AddToWarm(resourceGroups: seq<string>)
      modifies this`warmResources
      ensures warmResources == AddGroups(old(warmResources), isPDPool, resourceGroups)
      ensures old(Valid()) && "" !in resourceGroups ==> Valid()
    {
      hide Labelled, AllNamed, GroupResources, AddGroups, AddGroup;
      ghost var before := warmResources;
      ghost var named := old(Valid()) && "" !in resourceGroups;
      AddNone(before, isPDPool, resourceGroups[..0]);
      for i := 0 to |resourceGroups|
        invariant warmResources == AddGroups(before, isPDPool, resourceGroups[..i])
        invariant named ==> Labelled(warmResources)
      {
        var resourceGroup := resourceGroups[i];
        var resources := ResourcesOf(resourceGroup);
        AddNext(before, isPDPool, resourceGroups, i);
        LabelledGroup(warmResources, isPDPool, resourceGroup);
        var existing := if resourceGroup in warmResources then warmResources[resourceGroup] else [];
        warmResources := warmResources[resourceGroup := existing + resources];
      }
      assert resourceGroups[..|resourceGroups|] == resourceGroups;
    }

    /** The resources of one group; a prefix that cannot be expanded is logged and yields none. */
    method ResourcesOf(resourceGroup: string) returns (resources: seq<Resource>)
      ensures resources == GroupResources(isPDPool, resourceGroup)
    {
      hide Deconstruct;
      var resourceIDs := [resourceGroup];
      if isPDPool {
        var expansion := DeconstructIPsFromPrefix(resourceGroup);
        resourceIDs := if expansion.Some? then expansion.value else [];
      }
      resources := [];
      for i := 0 to |resourceIDs|
        invariant |resources| == i
        invariant forall j :: 0 <= j < i ==> resources[j] == Resource(resourceGroup, resourceIDs[j])
      {
        resources := resources + [Resource(resourceGroup, resourceIDs[i])];
      }
    }

    // ---------------------------------------------------------------- ProcessCoolDownQueue

    /**
     `clock` holds the readings of the clock, one for each entry of the queue; those after the first young entry go
     unread.
     */
    method ProcessCoolDownQueue(clock: seq<int>) returns (needFurtherProcessing: bool)
      requires Valid() && |clock| >= |coolDownQueue|
      modifies this`warmResources, this`coolDownQueue
      ensures Valid()
      ensures State() == CooledDown(old(State()), clock)
      ensures needFurtherProcessing == (coolDownQueue != [])
    {
      hide Labelled, AllNamed, AppendAll, CoolResources, CooledPrefix, Named, CooledDown;
      ghost var s, q := State(), coolDownQueue;
      CooledDownIs(s, clock);
      CooledNone(s.warm, q, clock);
      if |coolDownQueue| == 0 {
        return false;
      }
      for index := 0 to |coolDownQueue|
        invariant coolDownQueue == q && CooledPrefix(q, clock) == index + CooledPrefix(q[index..], clock[index..])
        invariant warmResources == AppendAll(s.warm, CoolResources(q[..index]))
        invariant Labelled(warmResources)
      {
        var coolDownResource := coolDownQueue[index];
        CooledNext(q, clock, index);
        if clock[index] - coolDownResource.deletionTimestamp >= COOL_DOWN_PERIOD {
          var g := coolDownResource.resource.groupID;
          AppendNext(s.warm, q, index);
          QueueNamed(usedResources, q, index);
          LabelledAppend(warmResources, coolDownResource.resource);
          var existing := if g in warmResources then warmResources[g] else [];
          warmResources := warmResources[g := existing + [coolDownResource.resource]];
        } else {
          NamedTail(usedResources, q, index);
          coolDownQueue := coolDownQueue[index..];
          return true;
        }
      }
      CooledAll(q, clock);
      NamedTail(usedResources, q, |q|);
      assert q[..|q|] == q && q[|q|..] == [];
      coolDownQueue := [];
      return false;
    }

    // ---------------------------------------------------------------- ReSync

    /** The upstream listing as resources; empty and unreadable entries are skipped. */
    method ReadUpstream(upstreamIDs: seq<string>) returns (upstream: seq<Resource>)
      ensures upstream == UpstreamResources(isPDPool, upstreamIDs)
    {
      hide GroupResources;
      upstream := [];
      for i := 0 to |upstreamIDs|
        invariant upstream == UpstreamResources(isPDPool, upstreamIDs[..i])
      {
        assert upstreamIDs[..i + 1][..i] == upstreamIDs[..i];
        if upstreamIDs[i] == "" {
          continue;
        }
        var resources := ResourcesOf(upstreamIDs[i]);
        upstream := upstream + resources;
      }
      assert upstreamIDs[..|upstreamIDs|] == upstreamIDs;
    }

    /** Everything the pool knows, in some order and each entry as often as the pool has it. */
    method LocalResources() returns (local: seq<Resource>)
      ensures Elems(local) == Owned(State())
      ensures |local| == |coolDownQueue| + |usedResources| + NumResources(warmResources)
    {
      local := [];
      for i := 0 to |coolDownQueue|
        invariant Elems(local) == CoolSet(coolDownQueue[..i]) && |local| == i
      {
        ghost var rs := CoolResources(coolDownQueue[..i]);
        assert CoolResources(coolDownQueue[..i + 1]) == rs + [coolDownQueue[i].resource];
        assert Elems(rs + [coolDownQueue[i].resource]) == Elems(rs) + {coolDownQueue[i].resource};
        assert Elems(local + [coolDownQueue[i].resource]) == Elems(local) + {coolDownQueue[i].resource};
        local := local + [coolDownQueue[i].resource];
      }
      assert coolDownQueue[..|coolDownQueue|] == coolDownQueue;
      var used := LocalUsed();
      var warm := LocalWarm();
      assert Elems(local + used + warm) == Elems(local) + Elems(used) + Elems(warm);
      local := local + used + warm;
    }

    method LocalUsed() returns (local: seq<Resource>)
      ensures Elems(local) == usedResources.Values && |local| == |usedResources|
    {
      local := [];
      var owners := usedResources.Keys;
      while owners != {}
        invariant owners <= usedResources.Keys && |local| + |owners| == |usedResources.Keys|
        invariant Elems(local) == set k | k in usedResources && k !in owners :: usedResources[k]
        decreases owners
      {
        var k :| k in owners;
        owners := owners - {k};
        assert Elems(local + [usedResources[k]]) == Elems(local) + {usedResources[k]};
        local := local + [usedResources[k]];
      }
    }

    method LocalWarm() returns (local: seq<Resource>)
      ensures Elems(local) == WarmSet(warmResources) && |local| == NumResources(warmResources)
    {
      local := [];
      var keys := warmResources.Keys;
      while keys != {}
        invariant keys <= warmResources.Keys && |local| + NumOver(warmResources, keys) == NumResources(warmResources)
        invariant Elems(local) == WarmOver(warmResources, warmResources.Keys - keys)
        decreases keys
      {
        var k :| k in keys;
        NumOverRemove(warmResources, keys, k);
        assert warmResources.Keys - (keys - {k}) == (warmResources.Keys - keys) + {k};
        keys := keys - {k};
        assert Elems(local + warmResources[k]) == Elems(local) + Elems(warmResources[k]);
        local := local + warmResources[k];
      }
      assert warmResources.Keys - {} == warmResources.Keys;
    }

    /** Appends the new resources to their groups. */
    method AddNew(newResources: seq<Resource>)
      requires Labelled(warmResources) && forall i :: 0 <= i < |newResources| ==> Named(newResources[i])
      modifies this`warmResources
      ensures Labelled(warmResources)
      ensures warmResources == AppendAll(old(warmResources), newResources)
    {
      hide Labelled, Named;
      ghost var before := warmResources;
      for i := 0 to |newResources|
        invariant Labelled(warmResources)
        invariant warmResources == AppendAll(before, newResources[..i])
      {
        var resource := newResources[i];
        assert newResources[..i + 1][..i] == newResources[..i];
        LabelledAppend(warmResources, resource);
        var existing := if resource.groupID in warmResources then warmResources[resource.groupID] else [];
        warmResources := warmResources[resource.groupID := existing + [resource]];
      }
      assert newResources[..|newResources|] == newResources;
    }

    /**
     The backward removal of one resource from the list of its group. The nil check the source makes in each
     round cannot fire: while index i is still to come the list has more than i entries.
     */
    method RemoveFromWarm(resource: Resource)
      requires Labelled(warmResources)
      modifies this`warmResources
      ensures Labelled(warmResources)
      ensures warmResources == Purge(old(warmResources), {resource})
    {
      hide Named;
      var g := resource.groupID;
      ghost var before := warmResources;
      ghost var list := Get(before, g);
      ghost var drop := {resource};
      var i := (if g in warmResources then |warmResources[g]| else 0) - 1;
      assert list[..i + 1] + Without(list[i + 1..], drop) == list;
      while i >= 0
        invariant -1 <= i < |list|
        invariant warmResources == Shortened(before, g, list[..i + 1] + Without(list[i + 1..], drop))
      {
        WithoutFirst(list, i, drop);
        ghost var rest := Without(list[i + 1..], drop);
        assert (list[..i + 1] + rest)[i] == list[i];
        assert warmResources == before[g := list[..i + 1] + rest];
        var warmResource := warmResources[g][i];
        if warmResource.resourceID == resource.resourceID {
          assert list[i] == resource;
          assert (list[..i + 1] + rest)[..i] + (list[..i + 1] + rest)[i + 1..] == list[..i] + rest;
          assert Without(list[i..], drop) == rest;
          warmResources := warmResources[g := warmResources[g][..i] + warmResources[g][i + 1..]];
          assert warmResources == before[g := list[..i] + rest];
          if |warmResources[g]| == 0 {
            warmResources := warmResources - {g};
            assert warmResources == before - {g};
          }
        } else {
          assert list[..i + 1] + rest == list[..i] + ([list[i]] + rest);
        }
        i := i - 1;
      }
      assert list[..0] + Without(list[0..], drop) == Without(list, drop) by {
        assert list[0..] == list;
      }
      ShortenedIsPurge(before, resource);
      PurgeLabelled(before, drop);
    }

    /** The backward removal of one resource from the cool-down queue. */
    method RemoveFromQueue(resource: Resource)
      modifies this`coolDownQueue
      ensures coolDownQueue == PurgeQueue(old(coolDownQueue), {resource})
    {
      ghost var q := coolDownQueue;
      ghost var drop := {resource};
      var i := |coolDownQueue| - 1;
      assert q[..i + 1] + PurgeQueue(q[i + 1..], drop) == q;
      while i >= 0
        invariant -1 <= i < |q|
        invariant coolDownQueue == q[..i + 1] + PurgeQueue(q[i + 1..], drop)
      {
        PurgeFirst(q, i, drop);
        ghost var rest := PurgeQueue(q[i + 1..], drop);
        assert coolDownQueue[i] == q[i];
        if coolDownQueue[i].resource.groupID == resource.groupID
          && coolDownQueue[i].resource.resourceID == resource.resourceID {
          assert coolDownQueue[..i] + coolDownQueue[i + 1..] == q[..i] + rest;
          coolDownQueue := coolDownQueue[..i] + coolDownQueue[i + 1..];
        } else {
          assert q[..i + 1] + rest == q[..i] + ([q[i]] + rest);
        }
        i := i - 1;
      }
      assert q[0..] == q;
    }

    /** Removes every deleted resource from the warm pool and the cool-down queue. */
    method RemoveDeleted(deletedResources: seq<Resource>)
      requires Labelled(warmResources)
      modifies this`warmResources, this`coolDownQueue
      ensures Labelled(warmResources)
      ensures warmResources == Purge(old(warmResources), Elems(deletedResources))
      ensures coolDownQueue == PurgeQueue(old(coolDownQueue), Elems(deletedResources))
    {
      hide Labelled, Purge, PurgeQueue;
      ghost var m, q := warmResources, coolDownQueue;
      PurgeEmpty(m, q);
      assert Elems(deletedResources[..0]) == {};
      for i := 0 to |deletedResources|
        invariant Labelled(warmResources)
        invariant warmResources == Purge(m, Elems(deletedResources[..i]))
        invariant coolDownQueue == PurgeQueue(q, Elems(deletedResources[..i]))
      {
        assert deletedResources[..i + 1] == deletedResources[..i] + [deletedResources[i]];
        assert Elems(deletedResources[..i + 1]) == Elems(deletedResources[..i]) + {deletedResources[i]};
        PurgeTwice(m, Elems(deletedResources[..i]), {deletedResources[i]});
        PurgeQueueTwice(q, Elems(deletedResources[..i]), {deletedResources[i]});
        RemoveFromWarm(deletedResources[i]);
        RemoveFromQueue(deletedResources[i]);
      }
      assert deletedResources[..|deletedResources|] == deletedResources;
    }

    method ReSync(upstreamResourceGroupIDs: seq<string>)
      requires Valid()
      modifies this`reSyncRequired, this`warmResources, this`coolDownQueue
      ensures Valid()
      ensures State() == ReSynced(old(State()), upstreamResourceGroupIDs)
    {
      if !reSyncRequired {
        return;
      }
      hide Labelled, Named, UpstreamResources, Without, Owned, AllNamed, ReSynced, Purge, PurgeQueue, AppendAll, Elems;
      ghost var s := State();
      FlagOwned(s);
      reSyncRequired := false;
      var upstreamResource := ReadUpstream(upstreamResourceGroupIDs);
      var localResources := LocalResources();
      var newResources := Difference(upstreamResource, localResources);
      var deletedResources := Difference(localResources, upstreamResource);
      ReSyncedIs(s, upstreamResourceGroupIDs, newResources, Elems(deletedResources));
      UpstreamNamed(isPDPool, upstreamResourceGroupIDs);
      NamedWithout(upstreamResource, Elems(localResources));
      ApplyDifferences(newResources, deletedResources);
    }

    /** The rest of ReSync: what is new upstream is added and what is gone is removed. */
    method ApplyDifferences(newResources: seq<Resource>, deletedResources: seq<Resource>)
      requires Valid() && forall i :: 0 <= i < |newResources| ==> Named(newResources[i])
      modifies this`warmResources, this`coolDownQueue
      ensures Valid()
      ensures warmResources == Purge(AppendAll(old(warmResources), newResources), Elems(deletedResources))
      ensures coolDownQueue == PurgeQueue(old(coolDownQueue), Elems(deletedResources))
    {
      hide Labelled, Named, Purge, PurgeQueue, AppendAll, AllNamed;
      AppendEmpty(warmResources);
      NamedPurge(usedResources, coolDownQueue, Elems(deletedResources));
      assert |deletedResources| == 0 ==> Elems(deletedResources) == {};
      if |newResources| == 0 && |deletedResources| == 0 {
        PurgeEmpty(warmResources, coolDownQueue);
        return;
      }
      if |newResources| > 0 {
        AddNew(newResources);
      }
      if |deletedResources| > 0 {
        RemoveDeleted(deletedResources);
      } else {
        PurgeEmpty(warmResources, coolDownQueue);
      }
    }

    // ---------------------------------------------------------------- ReconcilePool

    /** The first part of getPDDeviation: which targets are defined, and the defaults of those that are not. */
    method DefaultPDTargets()
      returns (isWarmIPTargetDefined: bool, isMinIPTargetDefined: bool, isWarmPrefixTargetDefined: bool)
      modifies this`warmPoolConfig
      ensures warmPoolConfig == NormalPD(old(warmPoolConfig))
      ensures (!isWarmIPTargetDefined && !isMinIPTargetDefined && isWarmPrefixTargetDefined)
              == PrefixTargetOnly(old(warmPoolConfig))
      ensures PrefixTargetOnly(old(warmPoolConfig)) ==>
                warmPoolConfig.warmPrefixTarget == old(warmPoolConfig).warmPrefixTarget
    {
      isWarmIPTargetDefined, isMinIPTargetDefined, isWarmPrefixTargetDefined := false, false, false;
      if warmPoolConfig.desiredSize == 0 {
        warmPoolConfig := warmPoolConfig.(warmIPTarget := 0);
        warmPoolConfig := warmPoolConfig.(minIPTarget := 0);
        warmPoolConfig := warmPoolConfig.(warmPrefixTarget := 0);
      } else {
        if warmPoolConfig.warmIPTarget > 0 {
          isWarmIPTargetDefined := true;
        }
        if warmPoolConfig.minIPTarget > 0 {
          isMinIPTargetDefined := true;
        }
        if warmPoolConfig.warmPrefixTarget > 0 {
          isWarmPrefixTargetDefined := true;
        }
        if !isWarmIPTargetDefined {
          if isMinIPTargetDefined || !isWarmPrefixTargetDefined {
            warmPoolConfig := warmPoolConfig.(warmIPTarget := IPV4_PD_DEFAULT_WARM_IP_TARGET);
          }
        }
        if !isMinIPTargetDefined {
          if isWarmIPTargetDefined || !isWarmPrefixTargetDefined {
            warmPoolConfig := warmPoolConfig.(minIPTarget := IPV4_PD_DEFAULT_MIN_IP_TARGET);
          }
        }
      }
    }

    method GetPDDeviation() returns (deviation: int)
      requires isPDPool
      modifies this`warmPoolConfig
      ensures deviation == PDDeviation(old(State()))
      ensures warmPoolConfig == NormalPD(old(warmPoolConfig))
    {
      ghost var config := warmPoolConfig;
      var isWarmIPTargetDefined, isMinIPTargetDefined, isWarmPrefixTargetDefined := DefaultPDTargets();
      var numExistingWarmResources := NumResourcesFromMap(warmResources);
      var freePrefixes := FindFreeGroup(warmResources, NUM_IPV4_ADDR_PER_PREFIX);
      NoDupCard(freePrefixes);
      hide FreeGroups, NumResources, Wrap64, NoDup, PDChange;
      var prefixTargetOnly := !isWarmIPTargetDefined && !isMinIPTargetDefined && isWarmPrefixTargetDefined;
      var deviationPrefix := GetDeviationPrefix(prefixTargetOnly, numExistingWarmResources, |freePrefixes|, config);
      return Wrap64(deviationPrefix * NUM_IPV4_ADDR_PER_PREFIX);
    }

    /**
     The rest of getPDDeviation before its final product: the change in prefixes. `config` is the configuration before
     defaulting.
     */
    method GetDeviationPrefix(prefixTargetOnly: bool, numExistingWarmResources: int, numFreePrefixes: nat,
                              ghost config: WarmPoolConfig)
      returns (deviationPrefix: int)
      requires warmPoolConfig == NormalPD(config) && prefixTargetOnly == PrefixTargetOnly(config)
      requires prefixTargetOnly ==> warmPoolConfig.warmPrefixTarget == config.warmPrefixTarget
      ensures var total := |usedResources| + pendingCreate + numExistingWarmResources + |coolDownQueue|;
              deviationPrefix == PDChange(config, |usedResources|, total, pendingCreate, numFreePrefixes)
    {
      hide NormalPD, PrefixTargetOnly, CeilDivision, Wrap64;
      if prefixTargetOnly {
        var pending: int := CeilDivision(pendingCreate, NUM_IPV4_ADDR_PER_PREFIX);
        WrapAdd(warmPoolConfig.warmPrefixTarget - numFreePrefixes, -pending);
        return Wrap64(Wrap64(warmPoolConfig.warmPrefixTarget - numFreePrefixes) - pending);
      }
      var numTotalResources := |usedResources| + pendingCreate + numExistingWarmResources + |coolDownQueue|;
      var numCurrPrefix: int := CeilDivision(numTotalResources, 16);
      var numTotalResForWarmIPTarget := Wrap64(|usedResources| + warmPoolConfig.warmIPTarget);
      var numPrefixForWarmIPTarget: int := CeilDivision(numTotalResForWarmIPTarget, 16);
      var numPrefixForMinIPTarget: int := CeilDivision(warmPoolConfig.minIPTarget, 16);
      if numPrefixForWarmIPTarget >= numPrefixForMinIPTarget {
        deviationPrefix := numPrefixForWarmIPTarget - numCurrPrefix;
      } else {
        deviationPrefix := numPrefixForMinIPTarget - numCurrPrefix;
      }
      if deviationPrefix < 0 && numFreePrefixes == 0 {
        deviationPrefix := 0;
      }
    }

    method CalculateSecondaryIPDeviation() returns (deviation: int)
      modifies this`warmPoolConfig
      ensures deviation == SecondaryDeviation(old(State()))
      ensures warmPoolConfig == NormalSecondary(old(warmPoolConfig))
    {
      hide NumResources;
      var numWarmResources := NumResourcesFromMap(warmResources);
      var numUsedResources := |usedResources|;
      var numAssignedResources := numUsedResources + numWarmResources + pendingCreate + |coolDownQueue|;
      if warmPoolConfig.desiredSize == 0 {
        warmPoolConfig := warmPoolConfig.(warmIPTarget := 0);
        warmPoolConfig := warmPoolConfig.(minIPTarget := 0);
        warmPoolConfig := warmPoolConfig.(warmPrefixTarget := 0);
      }
      var isMinIPTargetInvalid := warmPoolConfig.minIPTarget < 0;
      var isWarmIPTargetInvalid := warmPoolConfig.warmIPTarget < 0;
      if isMinIPTargetInvalid {
        warmPoolConfig := warmPoolConfig.(minIPTarget := IPV4_DEFAULT_WIN_MIN_IP_TARGET);
      }
      if isWarmIPTargetInvalid {
        warmPoolConfig := warmPoolConfig.(warmIPTarget := IPV4_DEFAULT_WIN_WARM_IP_TARGET);
      }
      var availableResources := numWarmResources + pendingCreate;
      var resourcesShort := Max(warmPoolConfig.warmIPTarget - availableResources, 0);
      resourcesShort := Max(resourcesShort, warmPoolConfig.minIPTarget - numAssignedResources);
      var resourcesOver := Max(availableResources - warmPoolConfig.warmIPTarget, 0);
      resourcesOver := Max(Min(resourcesOver, numAssignedResources - warmPoolConfig.minIPTarget), 0);
      return resourcesShort - resourcesOver;
    }

    method ReconcilePool() returns (job: WarmPoolJob)
      requires Valid()
      modifies this`warmPoolConfig, this`warmResources, this`pendingCreate, this`pendingDelete
      ensures Valid()
      ensures ReconcileStep(old(State()), State(), job)
    {
      hide NumResources, Deviation, Normal, Labelled, AllNamed, CreateStep, DeleteStep, Wrap64;
      var numWarmResources := NumResourcesFromMap(warmResources);
      var totalCreatedResources := numWarmResources + |usedResources| + |coolDownQueue| + pendingCreate + pendingDelete;
      if reSyncRequired {
        if pendingCreate != 0 || pendingDelete != 0 {
          return NO_RECONCILE;
        }
        return NewWarmPoolReSyncJob(nodeName);
      }
      if |usedResources| + pendingCreate + pendingDelete + |coolDownQueue| == capacity {
        return NO_RECONCILE;
      }
      var deviation := GetDeviation();
      if deviation > warmPoolConfig.maxDeviation {
        job := CreateUpTo(deviation, totalCreatedResources);
      } else if Wrap64(-deviation) > warmPoolConfig.maxDeviation {
        deviation := Wrap64(-deviation);
        job := DeleteFreeGroups(deviation);
      } else {
        return NO_RECONCILE;
      }
    }

    /** The creating branch of ReconcilePool. */
    method CreateUpTo(missing: int, totalCreatedResources: int) returns (job: WarmPoolJob)
      requires totalCreatedResources == Total(State())
      modifies this`pendingCreate
      ensures CreateStep(old(State()), missing, State(), job)
    {
      hide Total, GoDiv;
      var deviation := missing;
      var canCreateUpto := capacity - totalCreatedResources;
      if canCreateUpto == 0 {
        return NO_RECONCILE;
      }
      if deviation > canCreateUpto {
        deviation := canCreateUpto;
      }
      pendingCreate := pendingCreate + deviation;
      if isPDPool {
        return NewWarmPoolCreateJob(nodeName, GoDiv(deviation, NUM_IPV4_ADDR_PER_PREFIX));
      }
      return NewWarmPoolCreateJob(nodeName, deviation);
    }

    /** The choice between the two deviation methods, and the in-place defaulting they share. */
    method GetDeviation() returns (deviation: int)
      modifies this`warmPoolConfig
      ensures deviation == Deviation(old(State()))
      ensures warmPoolConfig == Normal(isPDPool, old(warmPoolConfig))
              && warmPoolConfig.maxDeviation == old(warmPoolConfig.maxDeviation)
    {
      if isPDPool {
        deviation := GetPDDeviation();
      } else {
        deviation := CalculateSecondaryIPDeviation();
      }
    }

    /** The deleting branch of ReconcilePool. */
    method DeleteFreeGroups(amount: int) returns (job: WarmPoolJob)
      requires Valid()
      modifies this`warmResources, this`pendingDelete
      ensures Valid()
      ensures DeleteStep(old(State()), amount, State(), job)
    {
      hide FreeGroups, NoDup, Labelled, AllNamed;
      var unit := if isPDPool then NUM_IPV4_ADDR_PER_PREFIX else 1;
      var resourceToDelete: seq<string> := [];
      if amount > 0 {
        var freeResourceGroups := FindFreeGroup(warmResources, unit);
        NoDupCard(freeResourceGroups);
        if |freeResourceGroups| > 0 {
          resourceToDelete := DropUntilCovered(freeResourceGroups, amount);
          assert freeResourceGroups[0] in Elems(freeResourceGroups);
        } else {
          assert Elems(freeResourceGroups) == {};
        }
      }
      if |resourceToDelete| > 0 {
        return NewWarmPoolDeleteJob(nodeName, resourceToDelete);
      }
      return NO_RECONCILE;
    }

    /** The loop that removes free groups until the deviation is covered. */
    method DropUntilCovered(freeGroups: seq<string>, amount: int) returns (dropped: seq<string>)
      requires Valid() && amount > 0 && |freeGroups| > 0
      requires NoDup(freeGroups) && Elems(freeGroups) == FreeGroups(warmResources, Unit(isPDPool))
      modifies this`warmResources, this`pendingDelete
      ensures Valid()
      ensures NoDup(dropped) && Elems(dropped) <= Elems(freeGroups)
      ensures |dropped| == Min(|freeGroups|, Ceiling(amount, Unit(isPDPool))) >= 1
      ensures State() == old(State()).(warm := old(warmResources) - Elems(dropped),
                pendingDelete := old(pendingDelete) + Unit(isPDPool) * |dropped|)
    {
      hide Labelled, AllNamed, Ceiling;
      ghost var u := Unit(isPDPool);
      ghost var before := warmResources;
      var numToDelete := amount;
      dropped := [];
      for i := 0 to |freeGroups|
        invariant dropped == freeGroups[..i]
        invariant numToDelete == amount - u * i && (i > 0 ==> amount > u * (i - 1))
        invariant warmResources == old(warmResources) - Elems(freeGroups[..i])
        invariant pendingDelete == old(pendingDelete) + u * i
      {
        if numToDelete <= 0 {
          CeilIs(amount, isPDPool, i);
          LabelledDrop(before, Elems(freeGroups[..i]));
          return;
        }
        var groupID := freeGroups[i];
        assert groupID in Elems(freeGroups);
        assert groupID in old(warmResources) && |old(warmResources)[groupID]| == u;
        assert groupID !in Elems(freeGroups[..i]);
        assert freeGroups[..i + 1] == freeGroups[..i] + [groupID];
        assert Elems(freeGroups[..i + 1]) == Elems(freeGroups[..i]) + {groupID};
        dropped := dropped + [groupID];
        numToDelete := numToDelete - |warmResources[groupID]|;
        pendingDelete := pendingDelete + |warmResources[groupID]|;
        warmResources := warmResources - {groupID};
      }
      assert freeGroups[..|freeGroups|] == freeGroups;
      CeilAtLeast(amount, isPDPool, |freeGroups|);
      LabelledDrop(before, Elems(freeGroups));
    }

    /** The first of the two locked sections of SetToDraining and SetToActive. */
    method ReplaceConfig(config: WarmPoolConfig)
      modifies this`warmPoolConfig
      ensures State() == old(State()).(config := config)
    {
      warmPoolConfig := config;
    }

    /** SetToDraining: the configuration is cleared in one locked section, and the pool reconciles in the next. */
    method SetToDraining() returns (job: WarmPoolJob)
      requires Valid()
      modifies this`warmPoolConfig, this`warmResources, this`pendingCreate, this`pendingDelete
      ensures Valid()
      ensures ReconcileStep(old(State()).(config := NO_TARGETS), State(), job)
    {
      ReplaceConfig(NO_TARGETS);
      job := ReconcilePool();
    }

    method SetToActive(config: WarmPoolConfig) returns (job: WarmPoolJob)
      requires Valid()
      modifies this`warmPoolConfig, this`warmResources, this`pendingCreate, this`pendingDelete
      ensures Valid()
      ensures ReconcileStep(old(State()).(config := config), State(), job)
    {
      ReplaceConfig(config);
      job := ReconcilePool();
    }
  }

  // ------------------------------------------------------------------ lemmas for the methods

  /** One address was taken from the front of a nonempty group, or there was none to take. */
  ghost predicate Taken(s: Pool, resource: Option<Resource>, s': Pool) {
    match resource
    case None => s' == s && !HasWarm(s)
    case Some(r) =>
      && r.groupID in s.warm && s.warm[r.groupID] != [] && r == s.warm[r.groupID][0]
      && s' == s.(warm := s.warm[r.groupID := s.warm[r.groupID][1..]])
  }

  /** No nonempty group is smaller. */
  ghost predicate Least(m: Groups, g: string) {
    g in m && forall h :: h in m && m[h] != [] ==> |m[g]| <= |m[h]|
  }

  /** Taking an address and recording its holder is the step, and keeps the pool well formed. */
  lemma TakenIsStep(s: Pool, requester: string, resource: Option<Resource>, mid: Pool)
    requires Refusal(s, requester).None? && Taken(s, resource, mid)
    requires s.isPD && resource.Some? ==> Least(s.warm, resource.value.groupID)
    requires Labelled(s.warm) && AllNamed(s.used, s.cooling)
    ensures resource.None? ==> AssignStep(s, requester, mid, Refused(WarmPoolEmpty, true)) && mid == s
    ensures resource.Some? ==>
              var s' := mid.(used := mid.used[requester := resource.value]);
              && AssignStep(s, requester, s', Assigned(resource.value.resourceID))
              && Labelled(s'.warm) && AllNamed(s'.used, s'.cooling)
  {
    if resource.Some? {
      var r := resource.value;
      hide Refusal, Labelled, AllNamed, Named;
      assert Pickable(s, r.groupID);
      assert mid.(used := mid.used[requester := r]) == AfterAssign(s, requester, r.groupID);
      TakenIsLabelled(s, requester, r);
    }
  }

  lemma TakenIsLabelled(s: Pool, requester: string, r: Resource)
    requires Labelled(s.warm) && AllNamed(s.used, s.cooling)
    requires r.groupID in s.warm && s.warm[r.groupID] != [] && r == s.warm[r.groupID][0]
    ensures Labelled(s.warm[r.groupID := s.warm[r.groupID][1..]]) && AllNamed(s.used[requester := r], s.cooling)
  {
    hide Named;
  }

  /** `m` after the list of `g` has been cut to `list`: an emptied list takes its key along. */
  function Shortened(m: Groups, g: string, list: seq<Resource>): Groups {
    if g !in m then m
    else if m[g] != [] && list == [] then m - {g}
    else m[g := list]
  }

  lemma WithoutFirst<T>(s: seq<T>, i: nat, drop: set<T>)
    requires i < |s|
    ensures Without(s[i..], drop) == (if s[i] in drop then [] else [s[i]]) + Without(s[i + 1..], drop)
  {
    assert s[i..] == [s[i]] + s[i + 1..];
    WithoutConcat([s[i]], s[i + 1..], drop);
    assert Without([s[i]], drop) == if s[i] in drop then [] else [s[i]] by {
      assert [s[i]][..0] == [];
    }
  }

  lemma {:induction false} PurgeConcat(p: seq<CoolDownResource>, q: seq<CoolDownResource>, drop: set<Resource>)
    ensures PurgeQueue(p + q, drop) == PurgeQueue(p, drop) + PurgeQueue(q, drop)
  {
    if q == [] {
      assert p + q == p;
    } else {
      PurgeConcat(p, q[..|q| - 1], drop);
      assert (p + q)[..|p + q| - 1] == p + q[..|q| - 1];
    }
  }

  lemma PurgeFirst(q: seq<CoolDownResource>, i: nat, drop: set<Resource>)
    requires i < |q|
    ensures PurgeQueue(q[i..], drop) == (if q[i].resource in drop then [] else [q[i]]) + PurgeQueue(q[i + 1..], drop)
  {
    assert q[i..] == [q[i]] + q[i + 1..];
    PurgeConcat([q[i]], q[i + 1..], drop);
    assert PurgeQueue([q[i]], drop) == if q[i].resource in drop then [] else [q[i]] by {
      assert [q[i]][..0] == [];
    }
  }

  lemma {:induction false} PurgeQueueTwice(q: seq<CoolDownResource>, a: set<Resource>, b: set<Resource>)
    ensures PurgeQueue(PurgeQueue(q, a), b) == PurgeQueue(q, a + b)
  {
    if q != [] {
      var init, last := q[..|q| - 1], q[|q| - 1];
      PurgeQueueTwice(init, a, b);
      if last.resource !in a {
        var rest := PurgeQueue(init, a);
        assert (rest + [last])[..|rest|] == rest;
      }
    }
  }

  lemma PurgeTwice(m: Groups, a: set<Resource>, b: set<Resource>)
    ensures Purge(Purge(m, a), b) == Purge(m, a + b)
  {
    hide Without;
    forall g | g in m
      ensures Without(Without(m[g], a), b) == Without(m[g], a + b)
      ensures Without(m[g], a) == [] ==> Without(m[g], a + b) == []
      ensures m[g] == [] ==> Without(m[g], a) == []
    {
      WithoutElems(m[g], a);
      WithoutTwice(m[g], a, b);
      WithoutElems(Without(m[g], a), b);
    }
    var once, twice, both := Purge(m, a), Purge(Purge(m, a), b), Purge(m, a + b);
    forall g ensures g in twice <==> g in both {
      if g in m {
        assert g in once <==> !(m[g] != [] && Without(m[g], a) == []);
      }
    }
  }

  lemma PurgeEmpty(m: Groups, q: seq<CoolDownResource>)
    ensures Purge(m, {}) == m && PurgeQueue(q, {}) == q
  {
    hide WarmSet, CoolSet;
    PurgeNothing(m, {});
    PurgeQueueNothing(q, {});
  }

  lemma FlagOwned(s: Pool)
    ensures Owned(s.(reSyncRequired := false)) == Owned(s)
  {
  }

  lemma ReSyncedIs(s: Pool, ids: seq<string>, added: seq<Resource>, gone: set<Resource>)
    requires s.reSyncRequired && added == Without(UpstreamResources(s.isPD, ids), Owned(s))
    requires gone == Owned(s) - Elems(UpstreamResources(s.isPD, ids))
    ensures ReSynced(s, ids) == s.(reSyncRequired := false, warm := Purge(AppendAll(s.warm, added), gone),
              cooling := PurgeQueue(s.cooling, gone))
  {
    hide Owned, Elems, Without, UpstreamResources, Purge, PurgeQueue, AppendAll;
  }

  lemma AppendEmpty(m: Groups)
    ensures forall rs :: rs == [] ==> AppendAll(m, rs) == m
  {
  }

  lemma ShortenedIsPurge(m: Groups, r: Resource)
    requires Labelled(m)
    ensures Shortened(m, r.groupID, Without(Get(m, r.groupID), {r})) == Purge(m, {r})
  {
    hide Without;
    forall h | h in m && h != r.groupID ensures Without(m[h], {r}) == m[h] {
      forall i | 0 <= i < |m[h]| ensures m[h][i] != r {}
      WithoutNothing(m[h], {r});
    }
    if r.groupID in m && m[r.groupID] == [] {
      WithoutElems(m[r.groupID], {r});
    }
  }

  lemma PurgeLabelled(m: Groups, gone: set<Resource>)
    requires Labelled(m)
    ensures Labelled(Purge(m, gone))
  {
    hide Without, Named;
    var m': Groups := Purge(m, gone);
    forall g, i | g in m' && 0 <= i < |m'[g]| ensures m'[g][i].groupID == g && Named(m'[g][i]) {
      WithoutElems(m[g], gone);
      assert m'[g][i] in Elems(Without(m[g], gone));
      assert m'[g][i] in m[g];
    }
  }

  lemma NamedPurge(used: map<string, Resource>, q: seq<CoolDownResource>, gone: set<Resource>)
    requires AllNamed(used, q)
    ensures AllNamed(used, PurgeQueue(q, gone))
  {
    hide Named, PurgeQueue;
    forall i | 0 <= i < |PurgeQueue(q, gone)| ensures Named(PurgeQueue(q, gone)[i].resource) {
      var a := PurgeQueueFrom(q, gone, i);
    }
  }

  lemma {:induction false} UpstreamNamed(isPD: bool, ids: seq<string>)
    ensures forall i :: 0 <= i < |UpstreamResources(isPD, ids)| ==> Named(UpstreamResources(isPD, ids)[i])
  {
    hide GroupResources, Named;
    if ids != [] {
      UpstreamNamed(isPD, ids[..|ids| - 1]);
      GroupNamed(isPD, ids[|ids| - 1]);
    }
  }

  lemma NamedWithout(rs: seq<Resource>, drop: set<Resource>)
    requires forall i :: 0 <= i < |rs| ==> Named(rs[i])
    ensures forall i :: 0 <= i < |Without(rs, drop)| ==> Named(Without(rs, drop)[i])
  {
    hide Named, Without;
    WithoutElems(rs, drop);
    var kept := Without(rs, drop);
    forall i | 0 <= i < |kept| ensures Named(kept[i]) {
      assert kept[i] in Elems(kept);
      assert kept[i] in rs;
    }
  }

  /** The invariant of every run covers what the methods ask of their caller. */
  lemma OwnedIsLabelled(s: Pool)
    requires Exclusive(s) && Whole(s)
    ensures Labelled(s.warm) && AllNamed(s.used, s.cooling)
  {
    hide Whole, WellFormed, Injective, NoDup;
    forall r | r in Owned(s) ensures Named(r) {
      OwnedMember(s, r);
      GroupFacts(s.isPD, r.groupID);
    }
    forall g, i | g in s.warm && 0 <= i < |s.warm[g]| ensures s.warm[g][i] in Owned(s) {
      assert s.warm[g][i] in s.warm[g];
    }
    forall i | 0 <= i < |s.cooling| ensures s.cooling[i].resource in Owned(s) {
      assert CoolResources(s.cooling)[i] in CoolSet(s.cooling);
    }
  }

  lemma AddNone(m: Groups, isPD: bool, gs: seq<string>)
    requires gs == []
    ensures AddGroups(m, isPD, gs) == m
  {
  }

  lemma CooledDownIs(s: Pool, clock: seq<int>)
    requires |clock| >= |s.cooling|
    ensures var k := CooledPrefix(s.cooling, clock);
            CooledDown(s, clock) == s.(warm := AppendAll(s.warm, CoolResources(s.cooling[..k])),
                cooling := s.cooling[k..])
  {
    hide CooledPrefix, AppendAll, CoolResources;
  }

  lemma CooledNone(m: Groups, q: seq<CoolDownResource>, clock: seq<int>)
    requires |clock| >= |q|
    ensures q[..0] == [] && AppendAll(m, CoolResources(q[..0])) == m
    ensures CooledPrefix(q, clock) == CooledPrefix(q[0..], clock[0..])
    ensures q == [] ==> CooledPrefix(q, clock) == 0
  {
    AppendNone(m, q[..0]);
    assert q[0..] == q && clock[0..] == clock;
  }

  lemma CooledNext(q: seq<CoolDownResource>, clock: seq<int>, i: nat)
    requires |clock| >= |q| && i < |q| && CooledPrefix(q, clock) == i + CooledPrefix(q[i..], clock[i..])
    ensures CooledPrefix(q, clock)
            == if HasCooled(q[i], clock[i]) then i + 1 + CooledPrefix(q[i + 1..], clock[i + 1..]) else i
  {
    assert q[i..][1..] == q[i + 1..] && clock[i..][1..] == clock[i + 1..];
  }

  lemma CooledAll(q: seq<CoolDownResource>, clock: seq<int>)
    requires |clock| >= |q| && CooledPrefix(q, clock) == |q| + CooledPrefix(q[|q|..], clock[|q|..])
    ensures CooledPrefix(q, clock) == |q|
  {
  }

  lemma QueueNamed(used: map<string, Resource>, q: seq<CoolDownResource>, i: nat)
    requires AllNamed(used, q) && i < |q|
    ensures Named(q[i].resource)
  {
    hide Named;
  }

  lemma NamedTail(used: map<string, Resource>, q: seq<CoolDownResource>, i: nat)
    requires AllNamed(used, q) && i <= |q|
    ensures AllNamed(used, q[i..])
  {
    hide Named;
  }

  lemma AppendNone(m: Groups, q: seq<CoolDownResource>)
    requires q == []
    ensures AppendAll(m, CoolResources(q)) == m
  {
  }

  lemma AppendNext(m: Groups, q: seq<CoolDownResource>, i: nat)
    requires i < |q|
    ensures AppendAll(m, CoolResources(q[..i + 1])) == Append(AppendAll(m, CoolResources(q[..i])), q[i].resource)
  {
    var rs := CoolResources(q[..i + 1]);
    assert rs[..i] == CoolResources(q[..i]);
  }

  lemma LabelledAppend(m: Groups, r: Resource)
    requires Labelled(m) && Named(r)
    ensures Labelled(Append(m, r))
  {
  }

  lemma LabelledDrop(m: Groups, gs: set<string>)
    requires Labelled(m)
    ensures Labelled(m - gs)
  {
  }

  lemma AddNext(m: Groups, isPD: bool, gs: seq<string>, i: nat)
    requires i < |gs|
    ensures AddGroups(m, isPD, gs[..i + 1]) == AddGroup(AddGroups(m, isPD, gs[..i]), isPD, gs[i])
  {
    hide GroupResources, AddGroup;
    assert gs[..i + 1][..i] == gs[..i];
  }

  lemma LabelledGroup(m: Groups, isPD: bool, g: string)
    ensures AddGroup(m, isPD, g) == m[g := Get(m, g) + GroupResources(isPD, g)]
    ensures Labelled(m) && g != "" ==> Labelled(AddGroup(m, isPD, g))
  {
    hide GroupResources;
    GroupNamed(isPD, g);
    var rs := GroupResources(isPD, g);
    assert forall i :: 0 <= i < |rs| ==> rs[i] in rs;
  }

  lemma GroupNamed(isPD: bool, g: string)
    ensures g != "" ==> forall r :: r in GroupResources(isPD, g) ==> Named(r) && r.groupID == g
  {
    hide ReadBlock;
    if isPD && Deconstruct(g).Some? {
      var b := ReadBlock(g).value;
      AddressesNamed(b, b.size);
    }
  }

  lemma {:induction false} AddressesNamed(b: Block, n: nat)
    ensures "" !in Addresses(b, n)
  {
    hide GoStrings.Itoa, Wrap64;
    if n > 0 {
      AddressesNamed(b, n - 1);
    }
  }

  lemma CeilIs(amount: int, isPD: bool, i: nat)
    requires amount > 0 && i > 0 && amount <= Unit(isPD) * i && amount > Unit(isPD) * (i - 1)
    ensures Ceiling(amount, Unit(isPD)) == i
  {
  }

  lemma CeilAtLeast(amount: int, isPD: bool, n: nat)
    requires amount > 0 && n > 0 && amount > Unit(isPD) * (n - 1)
    ensures Ceiling(amount, Unit(isPD)) >= n
  {
  }
}
