/**
 The part of pkg/provider/prefix/provider.go that builds the pool of a node when the controller starts: the
 attached prefixes are expanded and the addresses of running pods are taken out.
 */
module PrefixProvider {
  import opened Collections
  import opened GoMath
  import opened Prefixes
  import opened PoolState
  import opened Jobs
  import opened Accounting
  import opened PoolOps
  import opened Ownership
  import opened Runs
  import opened Safety
  import opened Targets
  import opened Progress
  import opened Flags
  import opened HandlerAnswers
  import opened WarmPools

  /** A running pod and its private address annotation. */
  datatype RunningPod = RunningPod(uid: string, annotation: Option<string>)

  /** The resources recorded in a map from address to prefix. */
  function Recorded(m: map<string, string>): set<Resource> {
    set ip | ip in m :: Resource(m[ip], ip)
  }

  /** An address of well-formed prefixes determines its prefix, so recording it again changes nothing else. */
  lemma RecordOne(m: map<string, string>, groups: set<string>, g: string, ip: string)
    requires AllWellFormed(true, groups) && WellFormed(true, g)
    requires Recorded(m) <= Expand(true, groups) && Resource(g, ip) in Members(true, g)
    ensures Recorded(m[ip := g]) == Recorded(m) + {Resource(g, ip)}
  {
    hide Members, WellFormed;
    if ip in m {
      var r := Resource(m[ip], ip);
      assert r in Recorded(m);
      GroupOfExpanded(true, groups, r);
      AddressesIdentify(true, r.groupID, g, r, Resource(g, ip));
    }
    var m' := m[ip := g];
    assert m'[ip] == g;
    forall r | r in Recorded(m) ensures r in Recorded(m') {
      var j :| j in m && r == Resource(m[j], j);
      assert j in m' && r == Resource(m'[j], j);
    }
    forall r | r in Recorded(m') ensures r in Recorded(m) + {Resource(g, ip)} {
      var j :| j in m' && r == Resource(m'[j], j);
      assert j != ip ==> j in m && r == Resource(m[j], j);
    }
  }

  /** No address and no prefix in the record is empty. */
  predicate NamedRecord(m: map<string, string>) {
    forall ip :: ip in m ==> ip != "" && m[ip] != ""
  }

  lemma ExpansionNamed(g: string)
    requires Deconstruct(g).Some?
    ensures g != "" && "" !in Deconstruct(g).value
  {
    hide Addresses;
    var b := ReadBlock(g).value;
    AddressesNamed(b, b.size);
  }

  ghost predicate Unreadable(prefixes: seq<string>) {
    exists i :: 0 <= i < |prefixes| && Deconstruct(prefixes[i]).None?
  }

  /** The first loop: every address of every attached prefix, unless one of them cannot be expanded. */
  method RecordPrefixes(prefixes: seq<string>) returns (m: Option<map<string, string>>)
    ensures m.None? <==> Unreadable(prefixes)
    ensures m.Some? ==> NamedRecord(m.value)
    ensures m.Some? && AllWellFormed(true, Elems(prefixes)) ==> Recorded(m.value) == Expand(true, Elems(prefixes))
  {
    hide Members, WellFormed, Expand, Recorded, Deconstruct;
    ghost var wellFormed := AllWellFormed(true, Elems(prefixes));
    var record: map<string, string> := map[];
    RecordedNone();
    assert Elems(prefixes[..0]) == {};
    for i := 0 to |prefixes|
      invariant forall j :: 0 <= j < i ==> Deconstruct(prefixes[j]).Some?
      invariant NamedRecord(record)
      invariant wellFormed ==> Recorded(record) == Expand(true, Elems(prefixes[..i]))
    {
      var g := prefixes[i];
      assert prefixes[..i + 1] == prefixes[..i] + [g];
      assert Elems(prefixes[..i + 1]) == Elems(prefixes[..i]) + {g};
      assert g in Elems(prefixes);
      var ips := DeconstructIPsFromPrefix(g);
      if ips.None? {
        return None;
      }
      ExpansionNamed(g);
      record := RecordGroup(record, g, ips.value, Elems(prefixes[..i]));
    }
    assert prefixes[..|prefixes|] == prefixes;
    return Some(record);
  }

  /** The inner loop over the addresses of one prefix. */
  method RecordGroup(before: map<string, string>, g: string, ips: seq<string>, ghost groups: set<string>)
    returns (record: map<string, string>)
    requires Deconstruct(g) == Some(ips)
    ensures NamedRecord(before) && g != "" && "" !in ips ==> NamedRecord(record)
    ensures AllWellFormed(true, groups) && WellFormed(true, g) && Recorded(before) == Expand(true, groups) ==>
              Recorded(record) == Expand(true, groups + {g})
  {
    hide Members, WellFormed, Expand, Recorded, Deconstruct, GroupResources;
    record := before;
    ghost var rs := GroupResources(true, g);
    ghost var wellFormed := AllWellFormed(true, groups) && WellFormed(true, g)
      && Recorded(before) == Expand(true, groups);
    ExpandsTo(g);
    for j := 0 to |ips|
      invariant NamedRecord(before) && g != "" && "" !in ips ==> NamedRecord(record)
      invariant wellFormed ==> Recorded(record) == Recorded(before) + Elems(rs[..j])
    {
      assert rs[..j + 1] == rs[..j] + [rs[j]];
      assert Elems(rs[..j + 1]) == Elems(rs[..j]) + {rs[j]};
      RecordedSoFar(groups, g, j);
      if wellFormed {
        RecordOne(record, groups + {g}, g, ips[j]);
      }
      record := record[ips[j] := g];
    }
    ExpandOne(true, groups, g);
    AllOfGroup(g);
  }

  lemma RecordedNone()
    ensures Recorded(map[]) == {} && Expand(true, {}) == {}
  {
  }

  lemma ExpandsTo(g: string)
    requires Deconstruct(g).Some?
    ensures |GroupResources(true, g)| == |Deconstruct(g).value|
    ensures forall j :: 0 <= j < |Deconstruct(g).value| ==>
                          GroupResources(true, g)[j] == Resource(g, Deconstruct(g).value[j])
  {
    hide Deconstruct;
  }

  lemma RecordedSoFar(groups: set<string>, g: string, j: nat)
    requires j < |GroupResources(true, g)|
    ensures Expand(true, groups) + Elems(GroupResources(true, g)[..j]) <= Expand(true, groups + {g})
    ensures GroupResources(true, g)[j] in Members(true, g)
  {
    hide GroupResources;
    ExpandOne(true, groups, g);
    var rs := GroupResources(true, g);
    assert forall r :: r in Elems(rs[..j]) ==> r in Elems(rs);
    assert rs[j] in Elems(rs);
  }

  lemma AllOfGroup(g: string)
    ensures Elems(GroupResources(true, g)[..|GroupResources(true, g)|]) == Members(true, g)
  {
    hide GroupResources;
    var rs := GroupResources(true, g);
    assert rs[..|rs|] == rs;
  }

  /** None of the first `n` pods is annotated with the address. */
  ghost predicate Unclaimed(pods: seq<RunningPod>, n: nat, ip: string)
    requires n <= |pods|
  {
    forall k :: 0 <= k < n ==> pods[k].annotation != Some(ip)
  }

  lemma UnclaimedNext(pods: seq<RunningPod>, n: nat)
    requires n < |pods|
    ensures forall ip :: Unclaimed(pods, n + 1, ip) <==> Unclaimed(pods, n, ip) && pods[n].annotation != Some(ip)
  {
  }

  /** The pod whose annotation claims a recorded address: of several with one address, the first. */
  ghost predicate Claims(record: map<string, string>, pods: seq<RunningPod>, i: nat)
    requires i < |pods|
  {
    pods[i].annotation.Some? && pods[i].annotation.value in record && Unclaimed(pods, i, pods[i].annotation.value)
  }

  lemma RecordedHas(m: map<string, string>, ip: string)
    requires ip in m
    ensures Resource(m[ip], ip) in Recorded(m)
  {
  }

  /** After `n` pods, exactly the pods that claim an address hold it, and nobody else holds anything. */
  ghost predicate Holders(record: map<string, string>, pods: seq<RunningPod>, n: nat, used: map<string, Resource>)
    requires n <= |pods|
  {
    && (forall k :: 0 <= k < n ==> (pods[k].uid in used <==> Claims(record, pods, k)))
    && (forall k :: 0 <= k < n && pods[k].uid in used ==> pods[k].annotation == Some(used[pods[k].uid].resourceID))
    && (forall uid :: uid in used ==> exists k :: 0 <= k < n && pods[k].uid == uid)
  }

  lemma HoldersNext(record: map<string, string>, pods: seq<RunningPod>, n: nat, used: map<string, Resource>,
                    used': map<string, Resource>)
    requires forall i, j :: 0 <= i < j < |pods| ==> pods[i].uid != pods[j].uid
    requires n < |pods| && Holders(record, pods, n, used)
    requires if Claims(record, pods, n)
             then exists g :: used' == used[pods[n].uid := Resource(g, pods[n].annotation.value)]
             else used' == used
    ensures pods[n].uid !in used && Holders(record, pods, n + 1, used')
  {
    hide Unclaimed;
  }

  /** Every recorded address is either used by one pod or left. */
  ghost predicate Divided(record: map<string, string>, used: map<string, Resource>, left: map<string, string>) {
    Injective(used) && used.Values !! Recorded(left) && used.Values + Recorded(left) == Recorded(record)
  }

  lemma DividedNext(record: map<string, string>, used: map<string, Resource>, left: map<string, string>, uid: string,
                    ip: string)
    requires Divided(record, used, left) && uid !in used && ip in left
    ensures Divided(record, used[uid := Resource(left[ip], ip)], left - {ip})
  {
    hide Injective, Recorded;
    var r := Resource(left[ip], ip);
    RecordedHas(left, ip);
    PutUsed(used, uid, r);
    Unrecord(left, ip);
  }

  /** What is left after `n` pods: the recorded addresses that none of them is annotated with. */
  ghost predicate LeftOver(record: map<string, string>, pods: seq<RunningPod>, n: nat, left: map<string, string>)
    requires n <= |pods|
  {
    forall ip :: ip in left <==> ip in record && Unclaimed(pods, n, ip)
  }

  lemma LeftOverNext(record: map<string, string>, pods: seq<RunningPod>, n: nat, left: map<string, string>,
                     left': map<string, string>)
    requires n < |pods| && LeftOver(record, pods, n, left)
    requires left' == if pods[n].annotation.Some? then left - {pods[n].annotation.value} else left
    ensures LeftOver(record, pods, n + 1, left')
    ensures Claims(record, pods, n) <==> pods[n].annotation.Some? && pods[n].annotation.value in left
  {
    hide Unclaimed;
    UnclaimedNext(pods, n);
  }

  /** The second loop: running pods take their addresses out; annotations of other addresses are ignored. */
  method TakeRunning(record: map<string, string>, pods: seq<RunningPod>)
    returns (used: map<string, Resource>, left: map<string, string>)
    requires forall i, j :: 0 <= i < j < |pods| ==> pods[i].uid != pods[j].uid
    ensures Divided(record, used, left) && Holders(record, pods, |pods|, used)
  {
    used, left := map[], record;
    hide *;
    Untouched(record, pods);
    for i := 0 to |pods|
      invariant Divided(record, used, left) && LeftOver(record, pods, i, left) && Holders(record, pods, i, used)
    {
      var pod := pods[i];
      if pod.annotation.Some? && pod.annotation.value in left {
        var ip := pod.annotation.value;
        var r := Resource(left[ip], ip);
        LeftOverNext(record, pods, i, left, left - {ip});
        HoldersNext(record, pods, i, used, used[pod.uid := r]);
        DividedNext(record, used, left, pod.uid, ip);
        used := used[pod.uid := r];
        left := left - {ip};
      } else {
        LeftOverNext(record, pods, i, left, left);
        HoldersNext(record, pods, i, used, used);
      }
    }
  }

  lemma Untouched(record: map<string, string>, pods: seq<RunningPod>)
    ensures Divided(record, map[], record) && LeftOver(record, pods, 0, record) && Holders(record, pods, 0, map[])
  {
    var none: map<string, Resource> := map[];
    assert none.Values == {};
    hide Recorded;
  }

  lemma Unrecord(m: map<string, string>, ip: string)
    requires ip in m
    ensures Recorded(m - {ip}) == Recorded(m) - {Resource(m[ip], ip)}
  {
    var m' := m - {ip};
    forall j | j in m && j != ip ensures Resource(m[j], j) in Recorded(m') {
      assert m'[j] == m[j];
    }
  }

  /** The third loop: what is left becomes warm, in the arbitrary order of the map. */
  method WarmLeft(left: map<string, string>) returns (warm: Groups)
    ensures Keyed(warm) && WarmSet(warm) == Recorded(left)
  {
    hide Keyed, WarmSet;
    warm := map[];
    NothingWarm();
    var ips := left.Keys;
    while ips != {}
      invariant ips <= left.Keys
      invariant Keyed(warm) && WarmSet(warm) == set ip | ip in left && ip !in ips :: Resource(left[ip], ip)
      decreases ips
    {
      var ip :| ip in ips;
      ips := ips - {ip};
      var r := Resource(left[ip], ip);
      AppendOne(warm, r);
      warm := warm[r.groupID := (if r.groupID in warm then warm[r.groupID] else []) + [r]];
    }
  }

  lemma NothingWarm()
    ensures Keyed(map[]) && WarmSet(map[]) == {}
  {
  }

  /** The annotation of a pod is an address of an attached prefix, and no earlier pod has the same one. */
  ghost predicate Keeps(prefixes: seq<string>, pods: seq<RunningPod>, i: nat)
    requires i < |pods|
  {
    && pods[i].annotation.Some?
    && (exists r :: r in Expand(true, Elems(prefixes)) && r.resourceID == pods[i].annotation.value)
    && Unclaimed(pods, i, pods[i].annotation.value)
  }

  lemma ClaimsIsKeeps(record: map<string, string>, prefixes: seq<string>, pods: seq<RunningPod>, i: nat)
    requires i < |pods| && Recorded(record) == Expand(true, Elems(prefixes))
    ensures Claims(record, pods, i) <==> Keeps(prefixes, pods, i)
  {
    hide Expand;
    if Claims(record, pods, i) {
      var ip := pods[i].annotation.value;
      assert Resource(record[ip], ip) in Recorded(record);
    }
  }

  /** What EC2 attaches to the node: well-formed prefixes, no more than it has slots for, few enough to be counted. */
  ghost predicate AttachedOK(prefixes: seq<string>, slots: nat) {
    AllWellFormed(true, Elems(prefixes)) && |Elems(prefixes)| <= slots && slots * NUM_IPV4_ADDR_PER_PREFIX <= MAX_INT64
  }

  /**
   InitResource for a node with room for `slots` prefixes: nothing when a prefix cannot be expanded; otherwise the
   pool starts with every attached prefix whole, and exactly the running pods whose address belongs to one of them
   keep it.
   */
  method InitPool(prefixes: seq<string>, pods: seq<RunningPod>, config: WarmPoolConfig, nodeName: string, slots: nat)
    returns (pool: WarmPool?)
    requires forall i, j :: 0 <= i < j < |pods| ==> pods[i].uid != pods[j].uid
    ensures pool == null <==> Unreadable(prefixes)
    ensures pool != null ==>
              && fresh(pool) && pool.Valid()
              && pool.warmPoolConfig == config && pool.nodeName == nodeName && pool.isPDPool
              && pool.capacity == Wrap64(slots * 16)
              && pool.coolDownQueue == [] && pool.pendingCreate == 0 && pool.pendingDelete == 0
              && !pool.reSyncRequired && !pool.prefixAvailable
    ensures pool != null && AttachedOK(prefixes, slots) ==>
              && (config.maxDeviation >= 0 ==> Start(World(pool.State(), [], 0)))
              && Held(pool.State()) == Elems(prefixes)
              && (forall i :: 0 <= i < |pods| ==> (pods[i].uid in pool.usedResources <==> Keeps(prefixes, pods, i)))
              && (forall i :: 0 <= i < |pods| && pods[i].uid in pool.usedResources ==>
                    pods[i].annotation == Some(pool.usedResources[pods[i].uid].resourceID))
              && (forall uid :: uid in pool.usedResources ==> exists i :: 0 <= i < |pods| && pods[i].uid == uid)
  {
    hide WellFormed, Keyed, Injective, WarmSet, Expand, Recorded, Deconstruct, Claims, Keeps, NamedRecord, Labelled,
         AllNamed;
    var record := RecordPrefixes(prefixes);
    if record.None? {
      return null;
    }
    var used, left := TakeRunning(record.value, pods);
    var warm := WarmLeft(left);
    NamedContents(record.value, used, warm);
    pool := new WarmPool(config, used, warm, nodeName, Wrap64(slots * NUM_IPV4_ADDR_PER_PREFIX), true);
    if AttachedOK(prefixes, slots) {
      forall i | 0 <= i < |pods| ensures Claims(record.value, pods, i) <==> Keeps(prefixes, pods, i) {
        ClaimsIsKeeps(record.value, prefixes, pods, i);
      }
      InitialState(pool.State(), prefixes);
    }
  }

  lemma NamedContents(record: map<string, string>, used: map<string, Resource>, warm: Groups)
    requires NamedRecord(record) && Keyed(warm) && used.Values + WarmSet(warm) == Recorded(record)
    ensures Labelled(warm) && AllNamed(used, [])
  {
    assert forall r :: r in Recorded(record) ==> Named(r);
    hide Recorded, NamedRecord, Named;
    forall g, i | g in warm && 0 <= i < |warm[g]| ensures warm[g][i] in WarmSet(warm) {
      assert warm[g][i] in warm[g];
    }
    forall k | k in used ensures used[k] in used.Values {}
  }

  /** An active configuration whose targets fit 64 bits on a node without pods, and that tolerates no deviation. */
  predicate Active(c: WarmPoolConfig) {
    && c.desiredSize != 0 && c.maxDeviation == 0
    && c.warmIPTarget <= MAX_INT64 - 15 && c.minIPTarget <= MAX_INT64 - 15 && 16 * c.warmPrefixTarget <= MAX_INT64
  }

  /**
   InitResource from there on. Without prefix delegation the pool is configured to drain. It reconciles at once, and
   a job that asks for something is submitted: a create when nothing is attached and the configuration is active.
   */
  method InitResource(prefixes: seq<string>, pods: seq<RunningPod>, loaded: WarmPoolConfig, isPDEnabled: bool,
                      nodeName: string, slots: nat)
    returns (pool: WarmPool?, submitted: seq<WarmPoolJob>)
    requires forall i, j :: 0 <= i < j < |pods| ==> pods[i].uid != pods[j].uid
    ensures pool == null <==> Unreadable(prefixes)
    ensures pool == null ==> submitted == []
    ensures pool != null ==> fresh(pool) && pool.Valid() && |submitted| <= 1
    ensures forall job :: job in submitted ==> !job.operation.NoReconcile? && job.nodeName == nodeName
    ensures pool != null && AttachedOK(prefixes, slots) && !isPDEnabled ==>
              forall job :: job in submitted ==> !job.operation.Create?
    ensures pool != null && AttachedOK(prefixes, slots) && prefixes == [] && slots >= 1
            && isPDEnabled && Active(loaded) ==>
              |submitted| == 1 && submitted[0].operation.Create? && submitted[0].resourceCount >= 1
  {
    hide ReconcileStep, Start, Unreadable, AllWellFormed;
    var config := if isPDEnabled then loaded else NO_TARGETS;
    pool := InitPool(prefixes, pods, config, nodeName, slots);
    if pool == null {
      return null, [];
    }
    ghost var s := pool.State();
    var job := pool.ReconcilePool();
    submitted := if job.operation.NoReconcile? then [] else [job];
    JobOfStep(s, pool.State(), job);
    if AttachedOK(prefixes, slots) && !isPDEnabled {
      DrainsAtOnce(s, pool.State(), job);
    }
    if AttachedOK(prefixes, slots) && prefixes == [] && slots >= 1 && isPDEnabled && Active(loaded) {
      StartsAtOnce(s, slots, pool.State(), job);
    }
  }

  lemma DrainsAtOnce(s: Pool, s': Pool, job: WarmPoolJob)
    requires Start(World(s, [], 0)) && s.config == NO_TARGETS && ReconcileStep(s, s', job)
    ensures !job.operation.Create?
  {
    hide Start, Sound, ReconcileStep;
    var w := World(s, [], 0);
    StartIsSound(w);
    DrainingNeverCreates(w, job, World(s', if job.operation.NoReconcile? then [] else [] + [job], 0));
  }

  lemma StartsAtOnce(s: Pool, slots: nat, s': Pool, job: WarmPoolJob)
    requires Start(World(s, [], 0)) && Held(s) == {} && s.isPD && Active(s.config) && ReconcileStep(s, s', job)
    requires slots >= 1 && s.capacity == slots * 16
    ensures job.operation.Create? && job.resourceCount >= 1
  {
    var w := World(s, [], 0);
    hide Start, Sound, ReconcileStep, NumResources, Held, Active, Refills, TargetsFit;
    NothingHeld(s);
    StartIsSound(w);
    ActiveFits(s.config);
    EmptyTotal(s);
    FittingRefills(s);
    EmptyReconciles(w, job, World(s', if job.operation.NoReconcile? then [] else [] + [job], 0));
  }

  lemma NothingHeld(s: Pool)
    requires Start(World(s, [], 0)) && Held(s) == {}
    ensures |s.used| == 0 && NumResources(s.warm) == 0 && s.cooling == []
    ensures s.pendingCreate == 0 && s.pendingDelete == 0 && !s.reSyncRequired
  {
    hide Exclusive, Whole, Held, NumResources;
    WholeCount(s);
  }

  lemma ActiveFits(c: WarmPoolConfig)
    requires Active(c)
    ensures TargetsFit(true, c, 0) && c.desiredSize != 0 && c.maxDeviation == 0
  {
  }

  lemma InitialState(s: Pool, prefixes: seq<string>)
    requires s.isPD && s.cooling == [] && AllWellFormed(true, Elems(prefixes))
    requires Keyed(s.warm) && Injective(s.used) && s.used.Values !! WarmSet(s.warm)
    requires s.used.Values + WarmSet(s.warm) == Expand(true, Elems(prefixes))
    ensures Exclusive(s) && Whole(s) && Held(s) == Elems(prefixes)
    ensures Labelled(s.warm) && AllNamed(s.used, s.cooling)
  {
    hide WellFormed, Keyed, Injective, WarmSet, Expand;
    QueueIsEmpty(s);
    assert Owned(s) == Expand(true, Elems(prefixes));
    assert Exclusive(s);
    HeldIs(s, Elems(prefixes));
    OwnedIsLabelled(s);
  }

  lemma QueueIsEmpty(s: Pool)
    requires s.cooling == []
    ensures CoolSet(s.cooling) == {} && NoDup(CoolResources(s.cooling))
  {
  }
}
