/**
 pkg/worker/jobs.go: the jobs a pool hands to its provider.
 */
module Jobs {

  datatype Operation = Create | Deleted | ReSyncPool | NoReconcile

  datatype WarmPoolJob = WarmPoolJob(operation: Operation, resources: seq<string>, resourceCount: int, nodeName: string)

  function NewWarmPoolCreateJob(nodeName: string, count: int): WarmPoolJob {
    WarmPoolJob(Create, [], count, nodeName)
  }

  function NewWarmPoolReSyncJob(nodeName: string): WarmPoolJob {
    WarmPoolJob(ReSyncPool, [], 0, nodeName)
  }

  function NewWarmPoolDeleteJob(nodeName: string, resourcesToDelete: seq<string>): WarmPoolJob {
    WarmPoolJob(Deleted, resourcesToDelete, |resourcesToDelete|, nodeName)
  }

  /** The bare job a reconcile returns when there is nothing to do; it carries no node name. */
  const NO_RECONCILE := WarmPoolJob(NoReconcile, [], 0, "")
}

/**
 The state of one warm pool (pkg/pool/pool.go) as a value, and the invariants that make its
 counters and its `== capacity` guards right: every address is in one place, and every
 attached group is held whole.
 */
module PoolState {
  import opened Collections
  import opened GoMath
  import opened Prefixes
  import GoStrings

  const NUM_IPV4_ADDR_PER_PREFIX := 16

  datatype Resource = Resource(groupID: string, resourceID: string)

  datatype CoolDownResource = CoolDownResource(resource: Resource, deletionTimestamp: int)

  /** pkg/config/type.go, without the reserved size, which nothing reads. */
  datatype WarmPoolConfig = WarmPoolConfig(
    desiredSize: Int64,
    maxDeviation: Int64,
    warmIPTarget: Int64,
    minIPTarget: Int64,
    warmPrefixTarget: Int64)

  type Groups = map<string, seq<Resource>>

  datatype Pool = Pool(
    nodeName: string,
    capacity: Int64,
    isPD: bool,
    config: WarmPoolConfig,
    used: map<string, Resource>,
    warm: Groups,
    cooling: seq<CoolDownResource>,
    pendingCreate: int,
    pendingDelete: int,
    reSyncRequired: bool,
    prefixAvailable: bool)

  /** The number of addresses in one group: a /28 prefix, or a single secondary address. */
  function Unit(isPD: bool): nat {
    if isPD then NUM_IPV4_ADDR_PER_PREFIX else 1
  }

  function GroupIDs(isPD: bool, g: string): seq<string> {
    if !isPD then [g]
    else match Deconstruct(g)
      case None => []
      case Some(ips) => ips
  }

  /** The resources a group stands for; a prefix that cannot be expanded stands for none. */
  function GroupResources(isPD: bool, g: string): (rs: seq<Resource>)
    ensures |rs| == |GroupIDs(isPD, g)|
    ensures forall i :: 0 <= i < |rs| ==> rs[i] == Resource(g, GroupIDs(isPD, g)[i])
  {
    var ids := GroupIDs(isPD, g);
    seq(|ids|, i requires 0 <= i < |ids| => Resource(g, ids[i]))
  }

  /** What a provider may attach: an aligned /28, or any named secondary address. */
  ghost predicate WellFormed(isPD: bool, g: string) {
    if isPD then IsPrefix28(g) else g != ""
  }

  function Members(isPD: bool, g: string): set<Resource> {
    Elems(GroupResources(isPD, g))
  }

  function Expand(isPD: bool, groups: set<string>): set<Resource> {
    set g, r | g in groups && r in Members(isPD, g) :: r
  }

  /** The list stored under a key, or nil when the key is absent. */
  function Get(m: Groups, g: string): seq<Resource> {
    if g in m then m[g] else []
  }

  // ------------------------------------------------------------------ counting

  ghost function NumOver(m: Groups, keys: set<string>): nat
    requires keys <= m.Keys
  {
    if keys == {} then 0
    else
      var k :| k in keys;
      |m[k]| + NumOver(m, keys - {k})
  }

  /** numResourcesFromMap: the summed lengths of all lists. */
  ghost function NumResources(m: Groups): nat {
    NumOver(m, m.Keys)
  }

  lemma {:induction false} NumOverRemove(m: Groups, keys: set<string>, k: string)
    requires k in keys && keys <= m.Keys
    ensures NumOver(m, keys) == |m[k]| + NumOver(m, keys - {k})
    decreases keys
  {
    var first :| first in keys && NumOver(m, keys) == |m[first]| + NumOver(m, keys - {first});
    if first != k {
      NumOverRemove(m, keys - {first}, k);
      NumOverRemove(m, keys - {k}, first);
      assert keys - {first} - {k} == keys - {k} - {first};
    }
  }

  function WarmOver(m: Groups, keys: set<string>): set<Resource>
    requires keys <= m.Keys
  {
    set g, r | g in keys && r in m[g] :: r
  }

  function WarmSet(m: Groups): set<Resource> {
    WarmOver(m, m.Keys)
  }

  function CoolResources(q: seq<CoolDownResource>): (rs: seq<Resource>)
    ensures |rs| == |q|
    ensures forall i :: 0 <= i < |q| ==> rs[i] == q[i].resource
  {
    seq(|q|, i requires 0 <= i < |q| => q[i].resource)
  }

  function CoolSet(q: seq<CoolDownResource>): set<Resource> {
    Elems(CoolResources(q))
  }

  /** Every resource the pool knows, wherever it is. */
  function Owned(s: Pool): set<Resource> {
    WarmSet(s.warm) + s.used.Values + CoolSet(s.cooling)
  }

  /** The groups the pool knows. */
  function Held(s: Pool): set<string> {
    set r | r in Owned(s) :: r.groupID
  }

  /** Addresses that exist or are being created or deleted: what ReconcilePool calls the total created resources. */
  ghost function Total(s: Pool): int {
    NumResources(s.warm) + |s.used| + |s.cooling| + s.pendingCreate + s.pendingDelete
  }

  // ------------------------------------------------------------------ invariants

  /** Every warm entry sits under its own group key, and no list holds an entry twice. */
  ghost predicate Keyed(m: Groups) {
    forall g :: g in m ==> NoDup(m[g]) && forall i :: 0 <= i < |m[g]| ==> m[g][i].groupID == g
  }

  ghost predicate Injective(m: map<string, Resource>) {
    forall j, k :: j in m && k in m && j != k ==> m[j] != m[k]
  }

  /** Exclusive ownership: each resource is in at most one place, once. */
  ghost predicate Exclusive(s: Pool) {
    && Keyed(s.warm)
    && Injective(s.used)
    && NoDup(CoolResources(s.cooling))
    && WarmSet(s.warm) !! s.used.Values
    && WarmSet(s.warm) !! CoolSet(s.cooling)
    && s.used.Values !! CoolSet(s.cooling)
  }

  ghost predicate AllWellFormed(isPD: bool, groups: set<string>) {
    forall g :: g in groups ==> WellFormed(isPD, g)
  }

  /** Every held group is well formed and held whole: all its addresses are somewhere in the pool. */
  ghost predicate Whole(s: Pool) {
    && AllWellFormed(s.isPD, Held(s))
    && Owned(s) == Expand(s.isPD, Held(s))
  }

  // ------------------------------------------------------------------ groups and their members

  lemma GroupIDFacts(isPD: bool, g: string)
    requires WellFormed(isPD, g)
    ensures |GroupIDs(isPD, g)| == Unit(isPD)
    ensures NoDup(GroupIDs(isPD, g))
    ensures g != "" && "" !in GroupIDs(isPD, g)
  {
    hide Deconstruct, IsPrefix28, IsIPv4Address;
    if isPD {
      var ips := Prefix28Expands(g);
      Prefix28Named(g);
      forall ip | ip in ips ensures ip != "" {
        AddressNamed(ip);
      }
    }
  }

  lemma GroupFacts(isPD: bool, g: string)
    requires WellFormed(isPD, g)
    ensures |GroupResources(isPD, g)| == Unit(isPD)
    ensures NoDup(GroupResources(isPD, g))
    ensures g != ""
    ensures forall r :: r in GroupResources(isPD, g) ==> r.resourceID != "" && r.groupID == g
  {
    hide GroupIDs, GroupResources;
    GroupIDFacts(isPD, g);
    var ids, rs := GroupIDs(isPD, g), GroupResources(isPD, g);
    forall i, j | 0 <= i < j < |rs| ensures rs[i] != rs[j] {
      assert ids[i] != ids[j];
    }
  }

  lemma Prefix28Named(g: string)
    requires IsPrefix28(g)
    ensures g != ""
  {
    hide GoStrings.Itoa;
  }

  lemma AddressNamed(ip: string)
    requires IsIPv4Address(ip)
    ensures ip != ""
  {
    hide GoStrings.Itoa;
  }

  lemma MembersFacts(isPD: bool, g: string)
    requires WellFormed(isPD, g)
    ensures |Members(isPD, g)| == Unit(isPD)
    ensures Members(isPD, g) != {}
    ensures forall r :: r in Members(isPD, g) ==> r.groupID == g
  {
    hide GroupResources, WellFormed;
    GroupFacts(isPD, g);
    NoDupCard(GroupResources(isPD, g));
  }

  /** Addresses identify resources: two members of well-formed groups with one address are the same resource. */
  lemma AddressesIdentify(isPD: bool, g: string, h: string, r: Resource, t: Resource)
    requires WellFormed(isPD, g) && WellFormed(isPD, h)
    requires r in Members(isPD, g) && t in Members(isPD, h)
    requires r.resourceID == t.resourceID
    ensures r == t
  {
    hide Deconstruct, IsPrefix28;
    if isPD {
      var ips := Prefix28Expands(g);
      var ips' := Prefix28Expands(h);
      Prefix28sDisjoint(g, h, ips, ips', r.resourceID);
    }
  }
}
