/**
 The meaning of every operation of pkg/pool/pool.go on the pool's state. Where the code ranges
 over a Go map the outcome depends on the iteration order, and the operation is a relation.
 */
module PoolOps {
  import opened Collections
  import opened GoMath
  import opened PoolState
  import opened Jobs
  import opened Accounting

  datatype PoolError =
    | PoolAtMaxCapacity
    | ResourceAreBeingCooledDown
    | ResourcesAreBeingCreated
    | WarmPoolEmpty
    | InsufficientCidrBlocks
    | ResourceAlreadyAssigned
    | ResourceDoesntExist
    | IncorrectResourceOwner

  // ------------------------------------------------------------------ AssignResource

  datatype Assignment = Assigned(resourceID: string) | Refused(error: PoolError, shouldReconcile: bool)

  /** The guards that refuse a request before any warm address is looked for. */
  function Refusal(s: Pool, requester: string): Option<Assignment> {
    if requester in s.used then Some(Refused(ResourceAlreadyAssigned, false))
    else if |s.used| == s.capacity then Some(Refused(PoolAtMaxCapacity, false))
    else if |s.used| + |s.cooling| == s.capacity then Some(Refused(ResourceAreBeingCooledDown, false))
    else if |s.used| + |s.cooling| + s.pendingCreate + s.pendingDelete == s.capacity then
      Some(Refused(ResourcesAreBeingCreated, false))
    else if |s.warm| == 0 then
      if s.isPD && !s.prefixAvailable then Some(Refused(InsufficientCidrBlocks, false))
        else Some(Refused(WarmPoolEmpty, true))
    else None
  }

  ghost predicate HasWarm(s: Pool) {
    exists g :: g in s.warm && s.warm[g] != []
  }

  /** A group an address may be taken from: any in secondary mode, one with the fewest addresses in prefix mode. */
  ghost predicate Pickable(s: Pool, g: string) {
    && g in s.warm && s.warm[g] != []
    && (s.isPD ==> forall h :: h in s.warm && s.warm[h] != [] ==> |s.warm[g]| <= |s.warm[h]|)
  }

  function AfterAssign(s: Pool, requester: string, g: string): Pool
    requires g in s.warm && s.warm[g] != []
  {
    s.(used := s.used[requester := s.warm[g][0]], warm := s.warm[g := s.warm[g][1..]])
  }

  ghost predicate AssignStep(s: Pool, requester: string, s': Pool, out: Assignment) {
    var refusal := Refusal(s, requester);
    if refusal.Some? then s' == s && out == refusal.value
    else if !HasWarm(s) then s' == s && out == Refused(WarmPoolEmpty, true)
    else exists g :: && Pickable(s, g)
                     && s' == AfterAssign(s, requester, g)
                     && out == Assigned(s.warm[g][0].resourceID)
  }

  // ------------------------------------------------------------------ FreeResource

  function FreeRefusal(s: Pool, requester: string, resourceID: string): Option<PoolError> {
    if requester !in s.used then Some(ResourceDoesntExist)
    else if s.used[requester].resourceID != resourceID then Some(IncorrectResourceOwner)
    else None
  }

  function Freed(s: Pool, requester: string, resourceID: string, now: int): Pool {
    if FreeRefusal(s, requester, resourceID).Some? then s
    else s.(used := s.used - {requester}, cooling := s.cooling + [CoolDownResource(s.used[requester], now)])
  }

  // ------------------------------------------------------------------ ProcessCoolDownQueue

  /** config.CoolDownPeriod: thirty seconds, in nanoseconds. */
  const COOL_DOWN_PERIOD: int := 30_000_000_000

  predicate HasCooled(c: CoolDownResource, now: int) {
    now - c.deletionTimestamp >= COOL_DOWN_PERIOD
  }

  /** How many entries the loop moves before it meets one that is too young; the clock is read anew for each entry. */
  function CooledPrefix(q: seq<CoolDownResource>, clock: seq<int>): (k: nat)
    requires |clock| >= |q|
    ensures k <= |q|
  {
    if q == [] || !HasCooled(q[0], clock[0]) then 0 else 1 + CooledPrefix(q[1..], clock[1..])
  }

  function Append(m: Groups, r: Resource): Groups {
    m[r.groupID := Get(m, r.groupID) + [r]]
  }

  function AppendAll(m: Groups, rs: seq<Resource>): Groups {
    if rs == [] then m else Append(AppendAll(m, rs[..|rs| - 1]), rs[|rs| - 1])
  }

  function CooledDown(s: Pool, clock: seq<int>): Pool
    requires |clock| >= |s.cooling|
  {
    var k := CooledPrefix(s.cooling, clock);
    s.(warm := AppendAll(s.warm, CoolResources(s.cooling[..k])), cooling := s.cooling[k..])
  }

  // ------------------------------------------------------------------ UpdatePool

  function AddGroup(m: Groups, isPD: bool, g: string): Groups {
    m[g := Get(m, g) + GroupResources(isPD, g)]
  }

  function AddGroups(m: Groups, isPD: bool, gs: seq<string>): Groups {
    if gs == [] then m else AddGroup(AddGroups(m, isPD, gs[..|gs| - 1]), isPD, gs[|gs| - 1])
  }

  function Updated(s: Pool, job: WarmPoolJob, didSucceed: bool, prefixAvailable: bool): Pool {
    s.(
    reSyncRequired := s.reSyncRequired || !didSucceed,
    prefixAvailable := if s.isPD then prefixAvailable else s.prefixAvailable,
    warm := AddGroups(s.warm, s.isPD, job.resources),
    pendingCreate := if job.operation.Create? then s.pendingCreate - Unit(s.isPD) * job.resourceCount
      else s.pendingCreate,
    pendingDelete := if job.operation.Deleted? then s.pendingDelete - Unit(s.isPD) * job.resourceCount
      else s.pendingDelete)
  }

  // ------------------------------------------------------------------ ReSync

  function UpstreamResources(isPD: bool, ids: seq<string>): seq<Resource> {
    if ids == [] then []
    else
      var last := ids[|ids| - 1];
      UpstreamResources(isPD, ids[..|ids| - 1]) + if last == "" then [] else GroupResources(isPD, last)
  }

  /** Lists without the dropped resources; a key whose list is emptied by the removal goes with it. */
  function Purge(m: Groups, gone: set<Resource>): Groups {
    map g | g in m && !(m[g] != [] && Without(m[g], gone) == []) :: Without(m[g], gone)
  }

  function PurgeQueue(q: seq<CoolDownResource>, gone: set<Resource>): seq<CoolDownResource> {
    if q == [] then []
    else
      var rest := PurgeQueue(q[..|q| - 1], gone);
      if q[|q| - 1].resource in gone then rest else rest + [q[|q| - 1]]
  }

  function ReSynced(s: Pool, upstreamIDs: seq<string>): Pool {
    if !s.reSyncRequired then s
    else
      var upstream := UpstreamResources(s.isPD, upstreamIDs);
      var gone := Owned(s) - Elems(upstream);
      s.(
      reSyncRequired := false,
      warm := Purge(AppendAll(s.warm, Without(upstream, Owned(s))), gone),
      cooling := PurgeQueue(s.cooling, gone))
  }

  // ------------------------------------------------------------------ deviation

  const IPV4_DEFAULT_WIN_WARM_IP_TARGET := 3
  const IPV4_DEFAULT_WIN_MIN_IP_TARGET := 3
  const IPV4_PD_DEFAULT_WARM_IP_TARGET := 1
  const IPV4_PD_DEFAULT_MIN_IP_TARGET := 3

  const NO_TARGETS := WarmPoolConfig(0, 0, 0, 0, 0)

  function Drained(c: WarmPoolConfig): WarmPoolConfig {
    c.(warmIPTarget := 0, minIPTarget := 0, warmPrefixTarget := 0)
  }

  /** The in-place defaulting that getPDDeviation performs on the configuration. */
  function NormalPD(c: WarmPoolConfig): WarmPoolConfig {
    if c.desiredSize == 0 then Drained(c)
    else
      c.(
      warmIPTarget :=
        if c.warmIPTarget <= 0 && (c.minIPTarget > 0 || c.warmPrefixTarget <= 0) then
          IPV4_PD_DEFAULT_WARM_IP_TARGET
        else c.warmIPTarget,
      minIPTarget :=
        if c.minIPTarget <= 0 && (c.warmIPTarget > 0 || c.warmPrefixTarget <= 0) then
          IPV4_PD_DEFAULT_MIN_IP_TARGET
        else c.minIPTarget)
  }

  /** The in-place defaulting that calculateSecondaryIPDeviation performs. */
  function NormalSecondary(c: WarmPoolConfig): WarmPoolConfig {
    var d := if c.desiredSize == 0 then Drained(c) else c;
    d.(
    minIPTarget := if d.minIPTarget < 0 then IPV4_DEFAULT_WIN_MIN_IP_TARGET else d.minIPTarget,
    warmIPTarget := if d.warmIPTarget < 0 then IPV4_DEFAULT_WIN_WARM_IP_TARGET else d.warmIPTarget)
  }

  function Normal(isPD: bool, c: WarmPoolConfig): WarmPoolConfig {
    if isPD then NormalPD(c) else NormalSecondary(c)
  }

  /**
   The warm target that a configuration calls for: the one it names, the default when that is none, and nothing while
   draining. In prefix mode a target must be positive, in secondary mode it must not be negative.
   */
  function WarmTarget(isPD: bool, c: WarmPoolConfig): int {
    if c.desiredSize == 0 then 0
    else if isPD then if c.warmIPTarget > 0 then c.warmIPTarget else 1
    else if c.warmIPTarget < 0 then 3 else c.warmIPTarget
  }

  /** The minimum that a configuration calls for. */
  function MinTarget(isPD: bool, c: WarmPoolConfig): int {
    if c.desiredSize == 0 then 0
    else if isPD then if c.minIPTarget > 0 then c.minIPTarget else 3
    else if c.minIPTarget < 0 then 3 else c.minIPTarget
  }

  /** The defaulting leaves what the configuration calls for, unless a warm-prefix target alone is configured. */
  lemma NormalIsGiven(isPD: bool, c: WarmPoolConfig)
    requires !(isPD && PrefixTargetOnly(c))
    ensures Normal(isPD, c).warmIPTarget == WarmTarget(isPD, c) >= 0
    ensures Normal(isPD, c).minIPTarget == MinTarget(isPD, c) >= 0
  {
  }

  /** Only a warm-prefix target is configured. */
  predicate PrefixTargetOnly(c: WarmPoolConfig) {
    c.desiredSize != 0 && c.warmIPTarget <= 0 && c.minIPTarget <= 0 && c.warmPrefixTarget > 0
  }

  /** The number of prefixes the two address targets call for, in the pool's 64-bit arithmetic. */
  function PrefixesWanted(c: WarmPoolConfig, used: int): int {
    var n := NormalPD(c);
    Max(CeilDivision(Wrap64(used + n.warmIPTarget), 16), CeilDivision(n.minIPTarget, 16))
  }

  /** The change in prefixes; the difference of two quotients by sixteen needs no wrapping. */
  function PDChange(c: WarmPoolConfig, used: int, total: int, pendingCreate: int, free: int): int {
    if PrefixTargetOnly(c) then Wrap64(c.warmPrefixTarget - free - CeilDivision(pendingCreate, 16))
    else
      var change := PrefixesWanted(c, used) - CeilDivision(total, 16);
      if change < 0 && free == 0 then 0 else change
  }

  ghost function PDDeviation(s: Pool): int {
    var total := |s.used| + s.pendingCreate + NumResources(s.warm) + |s.cooling|;
    var free := |FreeGroups(s.warm, NUM_IPV4_ADDR_PER_PREFIX)|;
    Wrap64(PDChange(s.config, |s.used|, total, s.pendingCreate, free) * NUM_IPV4_ADDR_PER_PREFIX)
  }

  ghost function SecondaryDeviation(s: Pool): int {
    var c := NormalSecondary(s.config);
    var warm := NumResources(s.warm);
    var assignedTotal := |s.used| + warm + s.pendingCreate + |s.cooling|;
    var available := warm + s.pendingCreate;
    var short := Max(Max(c.warmIPTarget - available, 0), c.minIPTarget - assignedTotal);
    var over := Max(Min(Max(available - c.warmIPTarget, 0), assignedTotal - c.minIPTarget), 0);
    short - over
  }

  ghost function Deviation(s: Pool): int {
    if s.isPD then PDDeviation(s) else SecondaryDeviation(s)
  }

  // ------------------------------------------------------------------ ReconcilePool

  /** Free groups are dropped from the warm pool until `amount` addresses are covered or none is left. */
  ghost predicate DeleteStep(s: Pool, amount: int, s': Pool, job: WarmPoolJob) {
    var free := FreeGroups(s.warm, Unit(s.isPD));
    if amount <= 0 || free == {} then s' == s && job == NO_RECONCILE
    else
      && job == NewWarmPoolDeleteJob(s.nodeName, job.resources)
      && NoDup(job.resources)
      && Elems(job.resources) <= free
      && |job.resources| == Min(|free|, Ceiling(amount, Unit(s.isPD)))
      && s' == s.(warm := s.warm - Elems(job.resources), pendingDelete := s.pendingDelete
           + Unit(s.isPD) * |job.resources|)
  }

  ghost predicate CreateStep(s: Pool, deviation: int, s': Pool, job: WarmPoolJob) {
    var room := s.capacity - Total(s);
    if room == 0 then s' == s && job == NO_RECONCILE
    else
      var amount := if deviation > room then room else deviation;
      && s' == s.(pendingCreate := s.pendingCreate + amount)
      && job == NewWarmPoolCreateJob(s.nodeName, if s.isPD then GoDiv(amount, NUM_IPV4_ADDR_PER_PREFIX) else amount)
  }

  ghost predicate ReconcileStep(s: Pool, s': Pool, job: WarmPoolJob) {
    if s.reSyncRequired then
      s' == s && job == if s.pendingCreate != 0 || s.pendingDelete != 0
        then NO_RECONCILE else NewWarmPoolReSyncJob(s.nodeName)
    else if |s.used| + s.pendingCreate + s.pendingDelete + |s.cooling| == s.capacity then
      s' == s && job == NO_RECONCILE
    else
      var n := s.(config := Normal(s.isPD, s.config));
      var deviation := Deviation(s);
      if deviation > s.config.maxDeviation then CreateStep(n, deviation, s', job)
      else if Wrap64(-deviation) > s.config.maxDeviation then DeleteStep(n, Wrap64(-deviation), s', job)
      else s' == n && job == NO_RECONCILE
  }
}
