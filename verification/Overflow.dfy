/**
 Targets near the bound of a 64-bit integer (pkg/pool/pool.go, pkg/utils/math.go). The deviation of a prefix pool is
 what exact arithmetic would give exactly under a condition on the targets; beyond it, a larger target can make the
 pool smaller.
 */
module Overflow {
  import opened Collections
  import opened GoMath
  import opened PoolState
  import opened Jobs
  import opened Accounting
  import opened PoolOps
  import opened Runs
  import opened Targets
  import opened Progress

  /** The change in groups in exact arithmetic. */
  function ExactChange(isPD: bool, c: WarmPoolConfig, used: int, held: int, free: int, creating: int): int {
    if !isPD || PrefixTargetOnly(c) then Change(isPD, c, used, held, free, creating)
    else Clamped(ExactlyWanted(c, used) - (held + creating), free)
  }

  /** Prefixes are not deleted when none is wholly free. */
  function Clamped(change: int, free: int): int {
    if change < 0 && free == 0 then 0 else change
  }

  ghost function ExactChangeOf(w: World): int {
    ExactChange(w.pool.isPD, w.pool.config, |w.pool.used|, |Held(w.pool)|, NumFree(w.pool), Counts(w.jobs, Create))
  }

  /** Both address targets wrap and the product with sixteen wraps back to the exact value. */
  predicate WrapsBack(x: int, y: int, current: int, free: int) {
    var m := Max(x, y);
    x > MAX_INT64 - 15 && y > MAX_INT64 - 15 && m % 16 == 1 && free > 0 && m + 15 - 16 * current <= MAX_INT64
  }

  /** The condition under which the deviation is exact. */
  predicate DeviationFits(isPD: bool, c: WarmPoolConfig, used: int, held: int, free: int, creating: int) {
    if !isPD then true
    else if PrefixTargetOnly(c) then 16 * (c.warmPrefixTarget - free - creating) <= MAX_INT64
    else
      TargetsFit(isPD, c, used) || WrapsBack(used + WarmTarget(true, c), MinTarget(true, c), held + creating, free)
  }

  // ------------------------------------------------------------------ the two address targets

  /** The number of prefixes wanted for two targets, as the pool computes it. */
  function Wanted(x: int, y: int): int {
    Max(CeilDivision(Wrap64(x), 16), CeilDivision(Wrap64(y), 16))
  }

  lemma BothFit(x: int, y: int, current: int, free: int)
    requires 0 <= x <= MAX_INT64 - 15 && 0 <= y <= MAX_INT64 - 15 && 0 <= 16 * current <= MAX_INT64 - 15
    ensures Wanted(x, y) == Ceiling(Max(x, y), 16)
    ensures Wrap64(16 * Clamped(Wanted(x, y) - current, free)) == 16 * Clamped(Wanted(x, y) - current, free)
  {
    hide CeilDivision, Wrap64, GoDiv;
    WrappedQuotient(x);
    WrappedQuotient(y);
  }

  lemma OneWraps(x: int, y: int, current: int, free: int)
    requires 0 <= x <= 2 * MAX_INT64 && 0 <= y <= 2 * MAX_INT64 && 0 <= 16 * current <= MAX_INT64 - 15
    requires (x <= MAX_INT64 - 15) != (y <= MAX_INT64 - 15)
    ensures Wrap64(16 * Clamped(Wanted(x, y) - current, free)) < 16 * (Ceiling(Max(x, y), 16) - current)
  {
    hide CeilDivision, Wrap64, GoDiv;
    WrappedQuotient(x);
    WrappedQuotient(y);
    assert 0 <= Wanted(x, y) < 0x800_0000_0000_0000;
  }

  /** Sixteen times a wrapped quotient, for an operand one above a multiple of sixteen or not. */
  lemma WrappedProduct(m: int)
    requires MAX_INT64 - 15 < m <= 2 * MAX_INT64
    ensures var q := GoDiv(m + 15 - 0x1_0000_0000_0000_0000, 16);
            && q <= 0
            && 16 * q == 16 * Ceiling(m, 16) - 0x1_0000_0000_0000_0000
                         + if m % 16 == 1 || m + 15 > 0x1_0000_0000_0000_0000 then 0 else 16
  {
  }

  lemma DivMonotone(x: int, y: int)
    requires x <= y
    ensures GoDiv(x, 16) <= GoDiv(y, 16)
  {
  }

  lemma BothWrap(x: int, y: int, current: int, free: nat)
    requires MAX_INT64 - 15 < x <= 2 * MAX_INT64 && MAX_INT64 - 15 < y <= 2 * MAX_INT64
             && 0 <= 16 * current <= MAX_INT64 - 15
    ensures Wrap64(16 * Clamped(Wanted(x, y) - current, free)) == 16 * (Ceiling(Max(x, y), 16) - current)
            <==> WrapsBack(x, y, current, free)
  {
    var m, t := Max(x, y), 0x1_0000_0000_0000_0000;
    hide CeilDivision, Wrap64, GoDiv;
    WrappedQuotient(x);
    WrappedQuotient(y);
    DivMonotone(x + 15 - t, m + 15 - t);
    DivMonotone(y + 15 - t, m + 15 - t);
    assert Wanted(x, y) == GoDiv(m + 15 - t, 16);
    WrappedProduct(m);
    var exact := 16 * (Ceiling(m, 16) - current);
    var raw := 16 * (Wanted(x, y) - current);
    assert raw == exact - t + if m % 16 == 1 || m + 15 > t then 0 else 16;
    assert exact > 0;
    if m % 16 == 1 || m + 15 > t {
      assert m % 16 == 1 ==> exact == m + 15 - 16 * current;
      assert m + 15 > t ==> exact == t - 16 * current;
      WrapShift(exact, -1);
      WrapFixed(exact);
    } else {
      WrapShift(exact + 16, -1);
      WrapMoves(exact);
    }
    if free == 0 {
      assert Wrap64(0) == 0;
    }
  }

  lemma WrapFixed(x: int)
    ensures Wrap64(x) == x <==> MIN_INT64 <= x <= MAX_INT64
  {
  }

  lemma WrapMoves(x: int)
    ensures Wrap64(x + 16) != x
  {
  }

  lemma AddressTargetsExactIff(x: int, y: int, current: int, free: nat)
    requires 0 <= x <= 2 * MAX_INT64 && 0 <= y <= 2 * MAX_INT64 && 0 <= 16 * current <= MAX_INT64 - 15
    ensures Wrap64(16 * Clamped(Wanted(x, y) - current, free)) == 16 * Clamped(Ceiling(Max(x, y), 16) - current, free)
            <==> (x <= MAX_INT64 - 15 && y <= MAX_INT64 - 15) || WrapsBack(x, y, current, free)
  {
    hide Wanted, Wrap64;
    if x <= MAX_INT64 - 15 && y <= MAX_INT64 - 15 {
      BothFit(x, y, current, free);
    } else if x <= MAX_INT64 - 15 || y <= MAX_INT64 - 15 {
      OneWraps(x, y, current, free);
    } else {
      BothWrap(x, y, current, free);
    }
  }

  /** A warm address target whose sum with the used addresses wraps counts for nothing: only the minimum is left. */
  lemma WrappedWarmTargetIsIgnored(c: WarmPoolConfig, used: nat)
    requires !PrefixTargetOnly(c) && used <= MAX_INT64
    requires used + WarmTarget(true, c) > MAX_INT64 - 15 && MinTarget(true, c) <= MAX_INT64 - 15
    ensures PrefixesWanted(c, used) == Ceiling(MinTarget(true, c), 16)
  {
    TargetsNotNegative(c);
    NormalIsGiven(true, c);
    hide NormalPD, WarmTarget, MinTarget, PrefixTargetOnly, CeilDivision, Wrap64, GoDiv;
    assert Wrap64(MinTarget(true, c)) == MinTarget(true, c);
    WrappedQuotient(used + WarmTarget(true, c));
    WrappedQuotient(MinTarget(true, c));
  }

  // ------------------------------------------------------------------ the deviation

  /** In every sound world the deviation is that of exact arithmetic if and only if the targets fit or wrap back. */
  lemma DeviationIsExactIff(w: World)
    requires Sound(w)
    ensures Deviation(w.pool) == InAddresses(w.pool.isPD, ExactChangeOf(w))
            <==> DeviationFits(w.pool.isPD, w.pool.config, |w.pool.used|, |Held(w.pool)|, NumFree(w.pool),
                Counts(w.jobs, Create))
  {
    var s := w.pool;
    hide Sound, Deviation, Held, NumFree, Counts, Wrap64, CeilDivision, NormalPD, NormalSecondary, PrefixTargetOnly,
         WrapsBack;
    DeviationIs(w);
    if !s.isPD {
      SecondaryChangeInRange(w);
    } else {
      PrefixesFit(w);
      FreeIsHeld(w);
      if PrefixTargetOnly(s.config) {
        PrefixTargetPositive(s.config);
        WrapFixed(16 * ChangeOf(w));
      } else {
        UsedFitsInt64(w);
        TargetsNotNegative(s.config);
        NormalIsGiven(true, s.config);
        assert Wrap64(MinTarget(true, s.config)) == MinTarget(true, s.config);
        AddressTargetsExactIff(|s.used| + WarmTarget(true, s.config), MinTarget(true, s.config), |Held(s)|
            + Counts(w.jobs, Create), NumFree(s));
      }
    }
  }

  /**
   A pool that is told to keep as many warm prefixes as an integer can hold deletes every wholly free prefix it has
   and never asks for one.
   */
  lemma LargestPrefixTargetEmpties(w: World, job: WarmPoolJob, w': World)
    requires Sound(w) && w.pool.isPD && PrefixTargetOnly(w.pool.config) && w.pool.config.warmPrefixTarget == MAX_INT64
    requires w.pool.config.maxDeviation == 0 && w.pool.capacity < MAX_INT64 - 15 && !w.pool.reSyncRequired
             && Step(w, Reconcile(job), w')
    ensures !job.operation.Create? && FreeGroups(w'.pool.warm, Unit(true)) == {}
  {
    var s, s' := w.pool, w'.pool;
    var n := s.(config := Normal(s.isPD, s.config));
    hide Sound, Deviation, Normal, FreeGroups, Total, Unit, CreateStep, DeleteStep, Held, NoDup, DeletesGroups,
         Wrap64, PrefixTargetOnly;
    if |s.used| + s.pendingCreate + s.pendingDelete + |s.cooling| == s.capacity {
      FullIsDrained(w, job, w');
      FullEmitsNothing(s, s', job);
    } else {
      LargestTargetDeviation(w);
      WrapNegative(Deviation(s), 0);
      SameHeld(s, n);
      NormalKeepsDeviation(s.isPD, s.config);
      DeleteNothing(n, -Deviation(s), s', job);
      if job != NO_RECONCILE {
        DeleteSize(n, -Deviation(s), s', job);
        AllAreCovered(-Deviation(s), NumFree(s), |job.resources|);
        DeleteEmpties(n, -Deviation(s), s', job);
      } else {
        NoneFree(s');
      }
    }
  }

  lemma FullEmitsNothing(s: Pool, s': Pool, job: WarmPoolJob)
    requires ReconcileStep(s, s', job) && !s.reSyncRequired
    requires |s.used| + s.pendingCreate + s.pendingDelete + |s.cooling| == s.capacity
    ensures job == NO_RECONCILE
  {
    hide Deviation, Normal, CreateStep, DeleteStep, Wrap64;
  }

  lemma AllAreCovered(amount: int, free: nat, k: nat)
    requires DeletesGroups(true, amount, free, k) && amount >= 16 * (free + 1)
    ensures k == free
  {
  }

  lemma PrefixTargetPositive(c: WarmPoolConfig)
    requires PrefixTargetOnly(c)
    ensures c.warmPrefixTarget > 0
  {
  }

  lemma LargestTargetDeviation(w: World)
    requires Sound(w) && w.pool.isPD && PrefixTargetOnly(w.pool.config) && w.pool.config.warmPrefixTarget == MAX_INT64
    requires w.pool.capacity < MAX_INT64 - 15
    ensures MIN_INT64 < Deviation(w.pool) <= -16 * (NumFree(w.pool) + 1)
  {
    hide Sound, Deviation, Held, NumFree, Counts, PrefixTargetOnly, Wrap64;
    DeviationIs(w);
    PrefixesFit(w);
    FreeIsHeld(w);
    WrapShift(16 * ChangeOf(w), -8);
    var d := 16 * ChangeOf(w) - 8 * 0x1_0000_0000_0000_0000;
    assert Wrap64(d) == d;
  }
}
