/**
 pkg/config/loader.go: the Windows IP targets read from the amazon-vpc-cni ConfigMap.
 */
module ConfigLoader {
  import opened Collections
  import opened GoMath
  import opened GoStrings
  import opened PoolState
  import opened Accounting
  import opened PoolOps
  import opened Jobs
  import opened Runs
  import opened Safety
  import opened Progress

  const ENABLE_WINDOWS_PREFIX_DELEGATION_KEY := "enable-windows-prefix-delegation"
  const WARM_PREFIX_TARGET := "warm-prefix-target"
  const WARM_IP_TARGET := "warm-ip-target"
  const MINIMUM_IP_TARGET := "minimum-ip-target"
  const WIN_WARM_PREFIX_TARGET := "windows-warm-prefix-target"
  const WIN_WARM_IP_TARGET := "windows-warm-ip-target"
  const WIN_MINIMUM_IP_TARGET := "windows-minimum-ip-target"

  const IPV4_DEFAULT_WIN_MAX_DEV := 0
  const IPV4_PD_DEFAULT_WP_SIZE := 1
  const IPV4_PD_DEFAULT_MAX_DEV := 0
  const IPV4_PD_DEFAULT_WARM_PREFIX_TARGET := 0

  /** The data of a ConfigMap, which may be missing altogether. */
  type ConfigData = Option<map<string, string>>

  datatype Targets = Targets(warmIPTarget: Int64, minIPTarget: Int64, warmPrefixTarget: Int64, isPDEnabled: bool)

  /** strconv.ParseBool, with any error read as false. */
  predicate ParsesTrue(s: string) {
    s in {"1", "t", "T", "true", "TRUE", "True"}
  }

  /** A key, or failing that its Windows alias. */
  function Lookup(data: map<string, string>, key: string, alias: string): Option<string> {
    if key in data then Some(data[key])
    else if alias in data then Some(data[alias])
    else None
  }

  /**
   What a numeric setting contributes: nothing counts as zero, and so does text that is no number. A number out of
   range counts as its bound.
   */
  function Setting(value: Option<string>): Int64 {
    if value.Some? then Atoi(value.value).value else 0
  }

  method ParseWinIPTargetConfigs(configMap: ConfigData) returns (t: Targets)
    ensures configMap.None? ==> t == Targets(IPV4_DEFAULT_WIN_WARM_IP_TARGET, IPV4_DEFAULT_WIN_MIN_IP_TARGET, 0, false)
    ensures configMap.Some? ==> t == TargetsOf(configMap.value)
  {
    if configMap.None? {
      return Targets(IPV4_DEFAULT_WIN_WARM_IP_TARGET, IPV4_DEFAULT_WIN_MIN_IP_TARGET, 0, false);
    }
    hide Atoi;
    var data := configMap.value;
    var isPDEnabled := ENABLE_WINDOWS_PREFIX_DELEGATION_KEY in data
      && ParsesTrue(data[ENABLE_WINDOWS_PREFIX_DELEGATION_KEY]);
    var warmIPTargetStr := Lookup(data, WARM_IP_TARGET, WIN_WARM_IP_TARGET);
    var minIPTargetStr := Lookup(data, MINIMUM_IP_TARGET, WIN_MINIMUM_IP_TARGET);
    var warmPrefixTargetStr := Lookup(data, WARM_PREFIX_TARGET, WIN_WARM_PREFIX_TARGET);
    var warmIPTarget: Int64, minIPTarget: Int64, warmPrefixTarget: Int64 := 0, 0, 0;
    if warmIPTargetStr.Some? {
      var parsed := Atoi(warmIPTargetStr.value);
      warmIPTarget := parsed.value;
      if parsed.ok && !isPDEnabled && warmIPTarget == 0 {
        warmIPTarget := 1;
      }
    }
    if minIPTargetStr.Some? {
      minIPTarget := Atoi(minIPTargetStr.value).value;
    }
    if isPDEnabled && warmPrefixTargetStr.Some? {
      warmPrefixTarget := Atoi(warmPrefixTargetStr.value).value;
    }
    if warmIPTarget == 0 && minIPTarget == 0 {
      if isPDEnabled && warmPrefixTarget == 0 {
        minIPTarget := IPV4_PD_DEFAULT_MIN_IP_TARGET;
        warmIPTarget := IPV4_PD_DEFAULT_WARM_IP_TARGET;
        warmPrefixTarget := IPV4_PD_DEFAULT_WARM_PREFIX_TARGET;
      } else if !isPDEnabled {
        minIPTarget := IPV4_DEFAULT_WIN_MIN_IP_TARGET;
        warmIPTarget := IPV4_DEFAULT_WIN_WARM_IP_TARGET;
      }
    }
    return Targets(warmIPTarget, minIPTarget, warmPrefixTarget, isPDEnabled);
  }

  predicate PDEnabled(data: map<string, string>) {
    ENABLE_WINDOWS_PREFIX_DELEGATION_KEY in data && ParsesTrue(data[ENABLE_WINDOWS_PREFIX_DELEGATION_KEY])
  }

  /** Secondary mode turns an explicit zero into one. */
  function WarmSetting(value: Option<string>, isPDEnabled: bool): Int64 {
    if value.Some? && !isPDEnabled && Atoi(value.value).ok && Atoi(value.value).value == 0 then 1 else Setting(value)
  }

  /** The targets by mode: what is configured, or the defaults of the mode when nothing but zeros is. */
  function TargetsOf(data: map<string, string>): Targets {
    var pd := PDEnabled(data);
    var warm := WarmSetting(Lookup(data, WARM_IP_TARGET, WIN_WARM_IP_TARGET), pd);
    var minimum := Setting(Lookup(data, MINIMUM_IP_TARGET, WIN_MINIMUM_IP_TARGET));
    var prefix := if pd then Setting(Lookup(data, WARM_PREFIX_TARGET, WIN_WARM_PREFIX_TARGET)) else 0;
    if warm != 0 || minimum != 0 || prefix != 0 then Targets(warm, minimum, prefix, pd)
    else if pd then Targets(IPV4_PD_DEFAULT_WARM_IP_TARGET, IPV4_PD_DEFAULT_MIN_IP_TARGET,
        IPV4_PD_DEFAULT_WARM_PREFIX_TARGET, true)
    else Targets(IPV4_DEFAULT_WIN_WARM_IP_TARGET, IPV4_DEFAULT_WIN_MIN_IP_TARGET, 0, false)
  }

  /** The warm-pool configurations of the two address resources. */
  datatype ResourceConfigs = ResourceConfigs(ipAddress: WarmPoolConfig, ipAddressFromPrefix: WarmPoolConfig)

  /** getDefaultResourceConfig */
  const DEFAULTS := ResourceConfigs(
    WarmPoolConfig(IPV4_DEFAULT_WIN_WARM_IP_TARGET, IPV4_DEFAULT_WIN_MAX_DEV, IPV4_DEFAULT_WIN_WARM_IP_TARGET,
        IPV4_DEFAULT_WIN_MIN_IP_TARGET, 0),
    WarmPoolConfig(IPV4_PD_DEFAULT_WP_SIZE, IPV4_PD_DEFAULT_MAX_DEV, IPV4_PD_DEFAULT_WARM_IP_TARGET,
        IPV4_PD_DEFAULT_MIN_IP_TARGET, IPV4_PD_DEFAULT_WARM_PREFIX_TARGET))

  /**
   LoadResourceConfigFromConfigMap. The targets are never all zero, so its first return is dead; whatever the
   ConfigMap holds, both pools stay active with no tolerated deviation, and a prefix pool keeps a warm address
   or a warm prefix in stock.
   */
  method LoadResourceConfigFromConfigMap(configMap: ConfigData) returns (config: ResourceConfigs, fellBack: bool)
    ensures !fellBack
    ensures config.ipAddress.desiredSize > 0 && config.ipAddressFromPrefix.desiredSize > 0
    ensures config.ipAddress.maxDeviation == 0 && config.ipAddressFromPrefix.maxDeviation == 0
    ensures var c := NormalPD(config.ipAddressFromPrefix); c.warmIPTarget >= 1 || c.warmPrefixTarget >= 1
    ensures configMap.Some? && !PDEnabled(configMap.value) ==>
              var t := TargetsOf(configMap.value);
              && config == ResourceConfigs(SecondaryConfig(configMap.value), DEFAULTS.ipAddressFromPrefix)
              && config.ipAddress == WarmPoolConfig(3, 0, t.warmIPTarget, t.minIPTarget, 0)
              && config.ipAddressFromPrefix == WarmPoolConfig(1, 0, 1, 3, 0)
    ensures configMap.Some? && PDEnabled(configMap.value) ==>
              var t := TargetsOf(configMap.value);
              && config == ResourceConfigs(DEFAULTS.ipAddress, PrefixConfig(configMap.value))
              && config.ipAddress == WarmPoolConfig(3, 0, 3, 3, 0)
              && config.ipAddressFromPrefix == WarmPoolConfig(1, 0, t.warmIPTarget, t.minIPTarget, t.warmPrefixTarget)
    ensures configMap.None? ==>
              config == ResourceConfigs(WarmPoolConfig(3, 0, 3, 3, 0), WarmPoolConfig(1, 0, 1, 3, 0))
  {
    hide Atoi, Lookup;
    config := DEFAULTS;
    fellBack := false;
    var t := ParseWinIPTargetConfigs(configMap);
    if t.warmIPTarget == 0 && t.minIPTarget == 0 && t.warmPrefixTarget == 0 {
      fellBack := true;
      return;
    }
    if t.isPDEnabled {
      config := config.(ipAddressFromPrefix := config.ipAddressFromPrefix.(
        warmIPTarget := t.warmIPTarget, minIPTarget := t.minIPTarget, warmPrefixTarget := t.warmPrefixTarget));
    } else {
      config := config.(ipAddress := config.ipAddress.(warmIPTarget := t.warmIPTarget, minIPTarget := t.minIPTarget));
    }
  }

  /** For no ConfigMap content are all targets zero. */
  lemma TargetsNeverAllZero(data: map<string, string>)
    ensures var t := TargetsOf(data); t.warmIPTarget != 0 || t.minIPTarget != 0 || t.warmPrefixTarget != 0
  {
    hide Atoi, Lookup;
  }

  // ------------------------------------------------------------------ what the ConfigMap says

  /** The ConfigMap sets a number, under its key or, failing that, under the Windows name of the key. */
  predicate Says(data: map<string, string>, key: string, windowsKey: string, n: int) {
    if key in data then data[key] == Itoa(n) else windowsKey in data && data[windowsKey] == Itoa(n)
  }

  predicate Silent(data: map<string, string>, key: string, windowsKey: string) {
    key !in data && windowsKey !in data
  }

  /** Prefix delegation is enabled by the texts that Go reads as true, and by no other. */
  lemma PrefixDelegationIff(data: map<string, string>)
    ensures TargetsOf(data).isPDEnabled
            <==> && "enable-windows-prefix-delegation" in data
                 && data["enable-windows-prefix-delegation"] in {"1", "t", "T", "true", "TRUE", "True"}
  {
    hide Atoi, Lookup;
  }

  /** A configured warm target is the one used; a zero is raised to one in secondary mode. */
  lemma WarmTargetIsConfigured(data: map<string, string>, n: Int64)
    requires Says(data, "warm-ip-target", "windows-warm-ip-target", n)
    ensures n != 0 ==> TargetsOf(data).warmIPTarget == n
    ensures n == 0 && !TargetsOf(data).isPDEnabled ==> TargetsOf(data).warmIPTarget == 1
  {
    hide Itoa, Atoi;
    AtoiItoa(n);
  }

  lemma MinimumIsConfigured(data: map<string, string>, n: Int64)
    requires Says(data, "minimum-ip-target", "windows-minimum-ip-target", n) && n != 0
    ensures TargetsOf(data).minIPTarget == n
  {
    hide Itoa, Atoi;
    AtoiItoa(n);
  }

  /** A configured warm-prefix target is used in prefix mode only. */
  lemma WarmPrefixTargetIsConfigured(data: map<string, string>, n: Int64)
    requires Says(data, "warm-prefix-target", "windows-warm-prefix-target", n) && n != 0
    ensures TargetsOf(data).warmPrefixTarget == if TargetsOf(data).isPDEnabled then n else 0
  {
    hide Itoa, Atoi;
    AtoiItoa(n);
  }

  /** Without any target the defaults of the mode are used. */
  lemma DefaultsWithoutTargets(data: map<string, string>)
    requires Silent(data, "warm-ip-target", "windows-warm-ip-target")
    requires Silent(data, "minimum-ip-target", "windows-minimum-ip-target")
    requires Silent(data, "warm-prefix-target", "windows-warm-prefix-target")
    ensures TargetsOf(data)
            == if TargetsOf(data).isPDEnabled then Targets(1, 3, 0, true) else Targets(3, 3, 0, false)
  {
    hide Atoi;
  }

  /** Beside a configured target, a missing one is zero. */
  lemma MissingIsZeroBesideAnother(data: map<string, string>, n: Int64)
    requires n != 0
    ensures Says(data, "minimum-ip-target", "windows-minimum-ip-target", n) ==>
              Silent(data, "warm-ip-target", "windows-warm-ip-target") ==> TargetsOf(data).warmIPTarget == 0
    ensures Says(data, "warm-ip-target", "windows-warm-ip-target", n) ==>
              Silent(data, "minimum-ip-target", "windows-minimum-ip-target") ==> TargetsOf(data).minIPTarget == 0
    ensures Silent(data, "warm-prefix-target", "windows-warm-prefix-target") ==> TargetsOf(data).warmPrefixTarget == 0
  {
    hide Itoa, Atoi;
    AtoiItoa(n);
  }

  /** A text that counts as zero although it says nothing of the kind. */
  predicate Unreadable(v: string) {
    !IsNumeral(v) && !Overflows(v)
  }

  /** A setting that is missing, or that reads as nothing. */
  predicate Unset(value: Option<string>) {
    value.None? || Unreadable(value.value)
  }

  predicate IsZero(v: string) {
    IsNumeral(v) && NumeralValue(v) == 0
  }

  lemma SettingIsZeroIff(value: Option<string>)
    ensures Setting(value) == 0 <==> Unset(value) || IsZero(value.value)
  {
    hide IsNumeral, NumeralValue;
    if value.Some? {
      OverflowIsNotZero(value.value);
    }
  }

  lemma OverflowIsNotZero(v: string)
    ensures Overflows(v) ==> !IsZero(v)
  {
    if Overflows(v) && IsNumeral(v) {
      assert LeadingDigits(Unsigned(v)) == Unsigned(v);
    }
  }

  /**
   The secondary pool is left without a warm target exactly when a nonzero minimum is configured and the warm target
   is missing or unreadable: the documentation promises a default of three there.
   */
  lemma SecondaryWarmTargetIsZeroIff(data: map<string, string>)
    requires !PDEnabled(data)
    ensures var warm := Lookup(data, WARM_IP_TARGET, WIN_WARM_IP_TARGET);
            var minimum := Lookup(data, MINIMUM_IP_TARGET, WIN_MINIMUM_IP_TARGET);
            TargetsOf(data).warmIPTarget == 0 <==> Unset(warm) && !(Unset(minimum) || IsZero(minimum.value))
  {
    hide Atoi, Lookup, IsNumeral, NumeralValue, Overflows;
    var warm := Lookup(data, WARM_IP_TARGET, WIN_WARM_IP_TARGET);
    SettingIsZeroIff(Lookup(data, MINIMUM_IP_TARGET, WIN_MINIMUM_IP_TARGET));
    if warm.Some? {
      ReadsAsZeroIff(warm.value);
    }
  }

  /**
   Its minimum is zero exactly when a warm target is configured and the minimum is missing, unreadable or zero: for
   a missing or unreadable one the documentation promises a default of three.
   */
  lemma SecondaryMinimumIsZeroIff(data: map<string, string>)
    requires !PDEnabled(data)
    ensures var warm := Lookup(data, WARM_IP_TARGET, WIN_WARM_IP_TARGET);
            var minimum := Lookup(data, MINIMUM_IP_TARGET, WIN_MINIMUM_IP_TARGET);
            TargetsOf(data).minIPTarget == 0 <==> !Unset(warm) && (Unset(minimum) || IsZero(minimum.value))
  {
    hide Atoi, Lookup, IsNumeral, NumeralValue, Overflows;
    var warm := Lookup(data, WARM_IP_TARGET, WIN_WARM_IP_TARGET);
    SettingIsZeroIff(Lookup(data, MINIMUM_IP_TARGET, WIN_MINIMUM_IP_TARGET));
    if warm.Some? {
      ReadsAsZeroIff(warm.value);
    }
  }

  /** The configuration of a secondary pool under a ConfigMap. */
  function SecondaryConfig(data: map<string, string>): WarmPoolConfig {
    DEFAULTS.ipAddress.(warmIPTarget := TargetsOf(data).warmIPTarget, minIPTarget := TargetsOf(data).minIPTarget)
  }

  /** A ConfigMap that sets only a minimum of two addresses. */
  lemma MinimumOnlyHasNoWarmTarget()
    ensures SecondaryConfig(map[MINIMUM_IP_TARGET := "2"]) == WarmPoolConfig(3, 0, 0, 2, 0)
  {
    var data := map[MINIMUM_IP_TARGET := "2"];
    assert Lookup(data, MINIMUM_IP_TARGET, WIN_MINIMUM_IP_TARGET) == Some("2");
    assert DigitsValue("2") == 2 by {
      assert "2"[..0] == "";
    }
    assert Atoi("2") == AtoiResult(2, true);
    hide Atoi;
    assert MINIMUM_IP_TARGET[0] != WARM_IP_TARGET[0] && MINIMUM_IP_TARGET[0] != ENABLE_WINDOWS_PREFIX_DELEGATION_KEY[0];
    assert Lookup(data, WARM_IP_TARGET, WIN_WARM_IP_TARGET) == None;
  }

  // ------------------------------------------------------------------ numbers out of range

  /**
   A setting that is reported as unreadable still counts if and only if it is a number beyond 64 bits, or a text
   whose digits overflow before its first other character.
   */
  lemma UnreadableCountsIff(v: string)
    ensures !Atoi(v).ok && Setting(Some(v)) != 0
            <==> Overflows(v) || (IsNumeral(v) && !(MIN_INT64 <= NumeralValue(v) <= MAX_INT64))
  {
    hide IsNumeral, NumeralValue, Overflows;
    OverflowIsBeyond(v);
  }

  lemma OverflowIsBeyond(v: string)
    ensures Overflows(v) && IsNumeral(v) ==> !(MIN_INT64 <= NumeralValue(v) <= MAX_INT64)
  {
    if IsNumeral(v) {
      assert LeadingDigits(Unsigned(v)) == Unsigned(v);
    }
  }

  /** The text 18446744073709551616x is no number and counts as the largest integer. */
  lemma StrayCharacterCountsAsLargest()
    ensures var v := Itoa(MAX_UINT64 + 1) + "x"; !Atoi(v).ok && Setting(Some(v)) == MAX_INT64
  {
    hide Itoa, Atoi;
    OverflowDecides(MAX_UINT64 + 1, "x");
  }

  /** The text 9223372036854775808, one beyond the largest integer, is unreadable and counts as the largest integer. */
  lemma OneBeyondCountsAsLargest()
    ensures var v := Itoa(MAX_INT64 + 1); !Atoi(v).ok && Setting(Some(v)) == MAX_INT64
  {
    hide Itoa, Atoi;
    AtoiItoa(MAX_INT64 + 1);
  }

  /** The configuration of a prefix pool under a ConfigMap. */
  function PrefixConfig(data: map<string, string>): WarmPoolConfig {
    var t := TargetsOf(data);
    DEFAULTS.ipAddressFromPrefix.(warmIPTarget := t.warmIPTarget, minIPTarget := t.minIPTarget,
        warmPrefixTarget := t.warmPrefixTarget)
  }

  /** A ConfigMap that enables prefix delegation and asks for `n` warm prefixes. */
  function WarmPrefixes(n: int): map<string, string> {
    map[ENABLE_WINDOWS_PREFIX_DELEGATION_KEY := "true", WARM_PREFIX_TARGET := Itoa(n)]
  }

  lemma WarmPrefixesConfig(n: int)
    requires n >= MAX_INT64
    ensures PrefixConfig(WarmPrefixes(n)) == WarmPoolConfig(1, 0, 0, 0, MAX_INT64)
  {
    hide Itoa, Atoi;
    AtoiItoa(n);
    var data := WarmPrefixes(n);
    assert |WARM_PREFIX_TARGET| == 18 && |WARM_IP_TARGET| == 14 && |WIN_WARM_IP_TARGET| == 22;
    assert |MINIMUM_IP_TARGET| == 17 && |WIN_MINIMUM_IP_TARGET| == 25 && |ENABLE_WINDOWS_PREFIX_DELEGATION_KEY| == 32;
    assert Lookup(data, WARM_IP_TARGET, WIN_WARM_IP_TARGET) == None;
    assert Lookup(data, MINIMUM_IP_TARGET, WIN_MINIMUM_IP_TARGET) == None;
    assert Lookup(data, WARM_PREFIX_TARGET, WIN_WARM_PREFIX_TARGET) == Some(Itoa(n));
  }

  /** A pool without addresses, as the constructor leaves it. */
  function FreshPool(isPD: bool, config: WarmPoolConfig, capacity: Int64): Pool {
    Pool("node", capacity, isPD, config, map[], map[], [], 0, 0, false, false)
  }

  lemma FreshStarts(isPD: bool, config: WarmPoolConfig, capacity: Int64)
    requires config.maxDeviation >= 0 && capacity > 0 && capacity % Unit(isPD) == 0
    ensures var s := FreshPool(isPD, config, capacity);
            Start(World(s, [], 0)) && NumResources(s.warm) == 0 && Total(s) == 0
  {
    NothingOwned(FreshPool(isPD, config, capacity));
    hide Exclusive, Whole, Held, Owned, NumResources;
  }

  /**
   The documentation says that a warm-prefix target beyond the capacity of the node is cut down to it. A fresh pool
   for which a number of at least 2^63 - 1 is configured asks for no prefix at its first reconcile, and turns every
   pod away without asking for another one.
   */
  lemma LargestWarmPrefixTargetStarves(n: int, capacity: Int64, job: WarmPoolJob, w': World, uid: string)
    returns (w: World)
    requires n >= MAX_INT64 && capacity > 0 && capacity % 16 == 0
    ensures w == World(FreshPool(true, PrefixConfig(WarmPrefixes(n)), capacity), [], 0) && Start(w)
    ensures Step(w, Reconcile(job), w') ==> !job.operation.Create?
    ensures AssignStep(w.pool, uid, w.pool, Refused(InsufficientCidrBlocks, false))
  {
    hide WarmPrefixes, PrefixConfig, AssignStep, Start, Step, Sound, Refills, Total;
    WarmPrefixesConfig(n);
    var config := PrefixConfig(WarmPrefixes(n));
    w := World(FreshPool(true, config, capacity), [], 0);
    FreshStarts(true, config, capacity);
    StartIsSound(w);
    FreshIsRefused(w.pool, uid);
    if Step(w, Reconcile(job), w') {
      EmptyReconciles(w, job, w');
      LargestIsNoRefill(w.pool);
      CreatesSome(w, job, w');
    }
  }

  lemma FreshIsRefused(s: Pool, uid: string)
    requires s.isPD && s.used == map[] && s.warm == map[] && s.cooling == [] && s.pendingCreate == 0
             && s.pendingDelete == 0
    requires !s.prefixAvailable && s.capacity > 0
    ensures AssignStep(s, uid, s, Refused(InsufficientCidrBlocks, false))
  {
    hide HasWarm;
    assert |s.used| == 0 && |s.warm| == 0 && |s.cooling| == 0;
  }

  lemma LargestIsNoRefill(s: Pool)
    requires s.isPD && s.config == WarmPoolConfig(1, 0, 0, 0, MAX_INT64)
    ensures !Refills(s)
  {
    assert Wrap64(16 * MAX_INT64) == -16;
  }

  // ------------------------------------------------------------------ a secondary pool without a warm target

  /** A node whose two addresses are in use. */
  function TwoInUse(config: WarmPoolConfig): Pool {
    FreshPool(false, config, 3).(used := map["first" := Resource("a", "a"), "second" := Resource("b", "b")])
  }

  lemma TwoInUseStarts(config: WarmPoolConfig)
    requires config.maxDeviation >= 0
    ensures Start(World(TwoInUse(config), [], 0))
    ensures AssignStep(TwoInUse(config), "pod", TwoInUse(config), Refused(WarmPoolEmpty, true))
            && |TwoInUse(config).used| == 2
  {
    var s := TwoInUse(config);
    TwoHolders();
    hide Injective, Start, AssignStep;
    TwoOwned(s);
    hide Exclusive, Whole, Held;
    EmptyIsRefused(s, "pod");
    HeldStarts(s);
  }

  lemma EmptyIsRefused(s: Pool, requester: string)
    requires requester !in s.used && |s.used| < s.capacity && s.cooling == [] && s.pendingCreate == 0
             && s.pendingDelete == 0
    requires s.warm == map[] && (s.isPD ==> s.prefixAvailable)
    ensures AssignStep(s, requester, s, Refused(WarmPoolEmpty, true))
  {
    hide HasWarm;
    assert |s.warm| == 0 && |s.cooling| == 0;
  }

  lemma HeldStarts(s: Pool)
    requires !s.isPD && s.cooling == [] && s.pendingCreate == 0 && s.pendingDelete == 0 && !s.reSyncRequired
    requires s.config.maxDeviation >= 0 && Exclusive(s) && Whole(s) && |Held(s)| <= s.capacity
    ensures Start(World(s, [], 0))
  {
    hide Exclusive, Whole, Held;
  }

  lemma TwoHolders()
    ensures var m := map["first" := Resource("a", "a"), "second" := Resource("b", "b")];
            |m| == 2 && "pod" !in m && Injective(m) && m.Values == {Resource("a", "a"), Resource("b", "b")}
  {
    var m := map["first" := Resource("a", "a"), "second" := Resource("b", "b")];
    assert "first"[0] != "second"[0] && "pod"[0] != "first"[0] && "pod"[0] != "second"[0] && "a"[0] != "b"[0];
    assert m["first"] == Resource("a", "a") && m["second"] == Resource("b", "b");
    assert m.Keys == {"first", "second"};
  }

  lemma OnlyUsed(s: Pool)
    requires s.warm == map[] && s.cooling == [] && Injective(s.used)
    ensures Exclusive(s) && Owned(s) == s.used.Values
  {
    hide Injective;
    assert WarmSet(s.warm) == {} && CoolSet(s.cooling) == {};
  }

  lemma TwoOwned(s: Pool)
    requires !s.isPD && s.warm == map[] && s.cooling == []
    requires s.used.Values == {Resource("a", "a"), Resource("b", "b")} && Injective(s.used)
    ensures Exclusive(s) && Whole(s) && |Held(s)| == 2
  {
    hide *;
    OnlyUsed(s);
    TwoGroups();
    HeldIs(s, {"a", "b"});
  }

  lemma TwoGroups()
    ensures Expand(false, {"a", "b"}) == {Resource("a", "a"), Resource("b", "b")}
    ensures AllWellFormed(false, {"a", "b"}) && |{"a", "b"}| == 2
  {
    assert "a"[0] != "b"[0];
    hide Members;
    MembersOf("a");
    MembersOf("b");
  }

  lemma MembersOf(g: string)
    ensures Members(false, g) == {Resource(g, g)}
  {
    assert GroupResources(false, g) == [Resource(g, g)];
  }

  /**
   Under the ConfigMap that sets only a minimum of two, a node with two pods turns the third away and asks for
   nothing.
   */
  lemma MinimumOnlyStarves(job: WarmPoolJob, w': World) returns (w: World)
    ensures Start(w) && !w.pool.isPD && w.pool.config == SecondaryConfig(map[MINIMUM_IP_TARGET := "2"])
    ensures AssignStep(w.pool, "pod", w.pool, Refused(WarmPoolEmpty, true)) && Total(w.pool) < w.pool.capacity
    ensures Step(w, Reconcile(job), w') ==> !job.operation.Create?
  {
    hide SecondaryConfig, AssignStep, Start, Step, TwoInUse, Total;
    MinimumOnlyHasNoWarmTarget();
    var data := map[MINIMUM_IP_TARGET := "2"];
    var config := SecondaryConfig(data);
    TwoInUseStarts(config);
    w := World(TwoInUse(config), [], 0);
    TwoInUseShape(config);
    StartIsSound(w);
    if Step(w, Reconcile(job), w') {
      SecondaryData(data, config);
      SecondaryStarvesIff(data, w, "pod", w.pool, job, w');
    }
  }

  lemma TwoInUseShape(config: WarmPoolConfig)
    requires |TwoInUse(config).used| == 2
    ensures var s := TwoInUse(config);
            && !s.isPD && s.config == config && !s.reSyncRequired && |s.cooling| == 0 && s.pendingCreate == 0
            && Total(s) < s.capacity
  {
    var s := TwoInUse(config);
    assert NumResources(s.warm) == 0;
  }

  lemma SecondaryData(data: map<string, string>, config: WarmPoolConfig)
    requires data == map[MINIMUM_IP_TARGET := "2"] && config == SecondaryConfig(data) == WarmPoolConfig(3, 0, 0, 2, 0)
    ensures !PDEnabled(data) && TargetsOf(data).warmIPTarget == 0 && MinTarget(false, config) == 2
  {
    hide Atoi, TargetsOf;
    assert MINIMUM_IP_TARGET[0] != ENABLE_WINDOWS_PREFIX_DELEGATION_KEY[0];
  }

  /**
   A secondary pool without a warm target is stuck once its minimum is in use: requests find the warm pool empty,
   and the reconcile they trigger creates nothing. With a warm target it asks for addresses.
   */
  lemma SecondaryStarvesIff(data: map<string, string>, w: World, requester: string, s': Pool, job: WarmPoolJob,
                            w': World)
    requires !PDEnabled(data) && !w.pool.isPD && w.pool.config == SecondaryConfig(data)
    requires Sound(w) && !w.pool.reSyncRequired && |w.pool.cooling| == 0 && w.pool.pendingCreate == 0
    requires AssignStep(w.pool, requester, s', Refused(WarmPoolEmpty, true)) && Step(w, Reconcile(job), w')
    requires |w.pool.used| >= MinTarget(false, w.pool.config)
    ensures !job.operation.Create? <==> TargetsOf(data).warmIPTarget == 0
  {
    hide Sound, Step, AssignStep, TargetsOf;
    EmptyPoolRefillsIff(w, requester, s', job, w');
    CreatesSome(w, job, w');
  }

  lemma CreatesSome(w: World, job: WarmPoolJob, w': World)
    requires Sound(w) && Step(w, Reconcile(job), w')
    ensures job.operation.Create? ==> job.resourceCount >= 1
  {
    hide Exclusive, Whole, Pending, Capped, DeletingOK, Queued, ReconcileStep;
    ReconcileKeeps(w, job, w');
    if job.operation.Create? {
      assert w'.jobs[|w.jobs|] == job;
      assert JobOK(w'.pool.isPD, w'.jobs[|w.jobs|]);
    }
  }
}
