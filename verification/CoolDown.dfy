/**
 Cool-down safety (pkg/pool/pool.go): the queue is processed completely and only on time, and over a
 run a freed address is not handed out again before its period has elapsed.
 */
module CoolDowns {
  import opened Collections
  import opened PoolState
  import opened Jobs
  import opened Accounting
  import opened PoolOps
  import opened Ownership
  import opened ReSync
  import opened Runs
  import opened Safety

  lemma {:induction false} PrefixHasCooled(q: seq<CoolDownResource>, clock: seq<int>, i: nat)
    requires |clock| >= |q| && i < CooledPrefix(q, clock)
    ensures HasCooled(q[i], clock[i])
  {
    if i > 0 {
      PrefixHasCooled(q[1..], clock[1..], i - 1);
    }
  }

  lemma {:induction false} PrefixStops(q: seq<CoolDownResource>, clock: seq<int>)
    requires |clock| >= |q| && CooledPrefix(q, clock) < |q|
    ensures !HasCooled(q[CooledPrefix(q, clock)], clock[CooledPrefix(q, clock)])
  {
    if HasCooled(q[0], clock[0]) {
      PrefixStops(q[1..], clock[1..]);
    }
  }

  /** The last time the clock is read: at the entry that is too young, or at the last one. */
  function LastRead(q: seq<CoolDownResource>, clock: seq<int>): int
    requires 0 < |q| <= |clock|
  {
    var k := CooledPrefix(q, clock);
    if k < |q| then clock[k] else clock[|q| - 1]
  }

  /**
   On a sorted queue, stopping at the first young entry misses none: all and only the entries that have cooled when
   the clock is read for the last time move.
   */
  lemma MovesExactlyCooled(q: seq<CoolDownResource>, clock: seq<int>, from: int, until: int, i: nat)
    requires Queued(q, from) && |clock| >= |q| && Reads(clock, from, until) && i < |q|
    ensures i < CooledPrefix(q, clock) <==> LastRead(q, clock) - q[i].deletionTimestamp >= 30_000_000_000
    ensures from <= LastRead(q, clock) <= until
  {
    if i < CooledPrefix(q, clock) {
      PrefixHasCooled(q, clock, i);
    } else {
      PrefixStops(q, clock);
    }
  }

  /**
   In every run ProcessCoolDownQueue moves to the warm pool exactly the addresses whose period has elapsed when it
   last reads the clock, a time within the step.
   */
  lemma CoolDownIsExact(ws: seq<World>, es: seq<Event>, i: nat, clock: seq<int>, c: CoolDownResource)
    requires Run(ws, es) && i < |es| && es[i] == CoolDown(clock) && c in ws[i].pool.cooling
    ensures |clock| >= |ws[i].pool.cooling|
    ensures var last := LastRead(ws[i].pool.cooling, clock);
            && ws[i].now <= last <= ws[i + 1].now
            && (last - c.deletionTimestamp >= 30_000_000_000 <==> c.resource in WarmSet(ws[i + 1].pool.warm))
            && (last - c.deletionTimestamp < 30_000_000_000 <==> c in ws[i + 1].pool.cooling)
  {
    hide *;
    RunStep(ws, es, i);
    RunIsSound(ws, es, i);
    RunIsSound(ws, es, i + 1);
    CoolDownStep(ws[i], clock, ws[i + 1], c);
  }

  lemma CoolDownStep(w: World, clock: seq<int>, w': World, c: CoolDownResource)
    requires Sound(w) && Sound(w') && Step(w, CoolDown(clock), w') && c in w.pool.cooling
    ensures |clock| >= |w.pool.cooling|
    ensures var last := LastRead(w.pool.cooling, clock);
            && w.now <= last <= w'.now
            && (last - c.deletionTimestamp >= 30_000_000_000 <==> c.resource in WarmSet(w'.pool.warm))
            && (last - c.deletionTimestamp < 30_000_000_000 <==> c in w'.pool.cooling)
  {
    hide Pending, Capped, JobsOK, DeletingOK, Whole, HasCooled, LastRead, CooledDown, Exclusive, WarmSet, Queued, Reads;
    CoolDownSplits(w.pool, w'.pool, clock, w.now, w'.now, c);
  }

  lemma CoolDownSplits(s: Pool, s': Pool, clock: seq<int>, from: int, until: int, c: CoolDownResource)
    requires |clock| >= |s.cooling| && Reads(clock, from, until)
    requires Exclusive(s) && Exclusive(s') && Queued(s.cooling, from) && s' == CooledDown(s, clock) && c in s.cooling
    ensures var last := LastRead(s.cooling, clock);
            && from <= last <= until
            && (last - c.deletionTimestamp >= 30_000_000_000 <==> c.resource in WarmSet(s'.warm))
            && (last - c.deletionTimestamp < 30_000_000_000 <==> c in s'.cooling)
  {
    hide WarmSet, Keyed, Injective, HasCooled, AppendAll, LastRead, Reads, CoolSet, CoolResources, NoDup, Queued;
    var k := CooledPrefix(s.cooling, clock);
    var i :| 0 <= i < |s.cooling| && s.cooling[i] == c;
    MovesExactlyCooled(s.cooling, clock, from, until, i);
    SplitQueue(s.cooling, k);
    QueueIsDisjoint(s, k);
    AppendMany(s.warm, CoolResources(s.cooling[..k]));
    if i < k {
      assert s.cooling[..k][i] == c;
      InQueue(s.cooling[..k], c);
      if c in s'.cooling {
        InQueue(s'.cooling, c);
      }
    } else {
      assert s.cooling[k..][i - k] == c;
      InQueue(s'.cooling, c);
    }
  }

  lemma QueueIsDisjoint(s: Pool, k: nat)
    requires Exclusive(s) && k <= |s.cooling|
    ensures Elems(CoolResources(s.cooling[..k])) == CoolSet(s.cooling[..k])
    ensures CoolSet(s.cooling[..k]) !! WarmSet(s.warm)
  {
    hide WarmSet, Keyed, Injective;
    SplitQueue(s.cooling, k);
  }

  lemma InQueue(q: seq<CoolDownResource>, c: CoolDownResource)
    requires c in q
    ensures c.resource in CoolSet(q)
  {
    var i :| 0 <= i < |q| && q[i] == c;
    assert CoolResources(q)[i] == c.resource;
  }

  // ------------------------------------------------------------------ no early reuse

  /** `r`, freed at time `t`, is still in the queue with that age or younger, or its period is over. */
  ghost predicate Waits(w: World, r: Resource, t: int) {
    || (exists c :: c in w.pool.cooling && c.resource == r && c.deletionTimestamp >= t)
    || w.now >= t + COOL_DOWN_PERIOD
  }

  /** A re-sync that removes a cooling address because upstream no longer lists it. */
  ghost predicate Drops(w: World, e: Event, w': World, r: Resource) {
    e.ReSyncDone? && r in CoolSet(w.pool.cooling) && r !in CoolSet(w'.pool.cooling)
  }

  /** Only a cooling address that the provider no longer lists is dropped, and each of those is. */
  lemma DropsIffUnlisted(w: World, k: nat, upstream: seq<string>, w': World, r: Resource)
    requires Sound(w) && Step(w, ReSyncDone(k, upstream), w')
    ensures Drops(w, ReSyncDone(k, upstream), w', r)
            <==> (&& w.pool.reSyncRequired && r in CoolSet(w.pool.cooling)
                  && r !in Elems(UpstreamResources(w.pool.isPD, upstream)))
  {
    hide Exclusive, Whole, Pending, Capped, JobsOK, DeletingOK, Queued, ReSynced, CoolSet, UpstreamResources,
         Attached, WarmSet, Remove;
    if w.pool.reSyncRequired {
      UpstreamIs(w.pool.isPD, upstream);
      ReSyncConverges(w.pool, upstream);
    } else {
      ReSyncIgnored(w.pool, upstream);
    }
  }

  lemma SameQueueWaits(w: World, w': World, r: Resource, t: int)
    requires Waits(w, r, t) && w'.now >= w.now
    requires forall c :: c in w.pool.cooling ==> c in w'.pool.cooling
    ensures Waits(w', r, t)
  {
  }

  lemma CoolDownWaits(w: World, clock: seq<int>, w': World, r: Resource, t: int)
    requires Waits(w, r, t) && |clock| >= |w.pool.cooling| && Reads(clock, w.now, w'.now)
    requires w'.pool == CooledDown(w.pool, clock)
    ensures Waits(w', r, t)
  {
    hide AppendAll, CoolResources;
    if w.now < t + COOL_DOWN_PERIOD {
      var q, k := w.pool.cooling, CooledPrefix(w.pool.cooling, clock);
      var c :| c in q && c.resource == r && c.deletionTimestamp >= t;
      var i :| 0 <= i < |q| && q[i] == c;
      if i < k {
        PrefixHasCooled(q, clock, i);
      } else {
        assert q[k..][i - k] == c;
      }
    }
  }

  lemma ReSyncWaits(w: World, w': World, r: Resource, t: int, upstream: seq<string>)
    requires Exclusive(w.pool) && Waits(w, r, t)
    requires w'.pool == ReSynced(w.pool, upstream) && w'.now == w.now
    requires r in CoolSet(w.pool.cooling) ==> r in CoolSet(w'.pool.cooling)
    ensures Waits(w', r, t)
  {
    hide Purge, AppendAll, UpstreamResources, Keyed, Injective, WarmSet;
    if w.now < t + COOL_DOWN_PERIOD {
      var q, q' := w.pool.cooling, w'.pool.cooling;
      var c :| c in q && c.resource == r && c.deletionTimestamp >= t;
      InQueue(q, c);
      var i :| 0 <= i < |q'| && q'[i].resource == r;
      if w.pool.reSyncRequired {
        var gone := Owned(w.pool) - Elems(UpstreamResources(w.pool.isPD, upstream));
        var a := PurgeQueueFrom(q, gone, i);
        SameEntry(q, q[a], c);
      } else {
        SameEntry(q, q'[i], c);
      }
      assert q'[i] in q';
    }
  }

  lemma SameEntry(q: seq<CoolDownResource>, c: CoolDownResource, d: CoolDownResource)
    requires NoDup(CoolResources(q)) && c in q && d in q && c.resource == d.resource
    ensures c == d
  {
    var i :| 0 <= i < |q| && q[i] == c;
    var j :| 0 <= j < |q| && q[j] == d;
    assert CoolResources(q)[i] == CoolResources(q)[j];
  }

  lemma WaitsStep(w: World, e: Event, w': World, r: Resource, t: int)
    requires Sound(w) && Step(w, e, w') && Waits(w, r, t) && !Drops(w, e, w', r)
    ensures Waits(w', r, t)
  {
    hide Exclusive, Whole, Pending, Capped, JobsOK, DeletingOK, Queued, Waits, ReconcileStep, AssignStep, CooledDown,
         ReSynced, UpstreamOK, CreatedOK, UndeletedOK, CoolSet, Remove, AddGroups;
    match e
    case CoolDown(clock) => CoolDownWaits(w, clock, w', r, t);
    case ReSyncDone(k, upstream) => ReSyncWaits(w, w', r, t, upstream);
    case Assign(requester, outcome) =>
      AssignKeeps(w.pool, requester, w'.pool, outcome);
      SameQueueWaits(w, w', r, t);
    case Reconcile(job) =>
      ReconcileFrame(w.pool, w'.pool, job);
      SameQueueWaits(w, w', r, t);
    case _ => SameQueueWaits(w, w', r, t);
  }

  lemma {:induction false} WaitsThroughout(ws: seq<World>, es: seq<Event>, i: nat, j: nat, r: Resource, t: int)
    requires Run(ws, es) && i <= j < |ws| == |es| + 1 && Waits(ws[i], r, t)
    requires forall k :: i <= k < j ==> !Drops(ws[k], es[k], ws[k + 1], r)
    ensures Waits(ws[j], r, t)
    decreases j - i
  {
    hide Run, Sound, Step, Drops, Waits;
    if i < j {
      RunIsSound(ws, es, i);
      RunStep(ws, es, i);
      assert !Drops(ws[i], es[i], ws[i + 1], r);
      WaitsStep(ws[i], es[i], ws[i + 1], r, t);
      WaitsThroughout(ws, es, i + 1, j, r, t);
    }
  }

  /** A requester's address is freed at step i. */
  ghost predicate FreesAt(ws: seq<World>, es: seq<Event>, i: nat, r: Resource)
    requires |ws| == |es| + 1 && i < |es|
  {
    && es[i].Free?
    && FreeRefusal(ws[i].pool, es[i].requester, es[i].resourceID).None?
    && ws[i].pool.used[es[i].requester] == r
  }

  /** An address is handed out at step j. */
  ghost predicate AssignsAt(ws: seq<World>, es: seq<Event>, j: nat, r: Resource)
    requires |ws| == |es| + 1 && j < |es|
  {
    && es[j].Assign? && es[j].outcome.Assigned?
    && es[j].requester in ws[j + 1].pool.used && ws[j + 1].pool.used[es[j].requester] == r
  }

  /**
   Over any run: an address freed at one step is handed out again only after thirty seconds, unless a re-sync
   dropped it.
   */
  lemma NoEarlyReuse(ws: seq<World>, es: seq<Event>, i: nat, j: nat, r: Resource)
    requires Run(ws, es) && i < j < |es|
    requires FreesAt(ws, es, i, r) && AssignsAt(ws, es, j, r)
    requires forall k :: i < k < j ==> !Drops(ws[k], es[k], ws[k + 1], r)
    ensures ws[j].now - ws[i].now >= 30 * 1_000_000_000
  {
    RunIsSound(ws, es, j);
    assert Step(ws[i], es[i], ws[i + 1]);
    assert Step(ws[j], es[j], ws[j + 1]);
    var t := ws[i].now;
    FreedWaits(ws[i], es[i], ws[i + 1], r);
    WaitsThroughout(ws, es, i + 1, j, r, t);
    hide Run, Whole, Pending, Capped, JobsOK, DeletingOK, Queued, Drops, Waits;
    AssignedIsWarm(ws[j].pool, es[j].requester, ws[j + 1].pool, es[j].outcome);
    NotWaiting(ws[j], r, t);
  }

  lemma FreedWaits(w: World, e: Event, w': World, r: Resource)
    requires e.Free? && Step(w, e, w')
    requires FreeRefusal(w.pool, e.requester, e.resourceID).None? && w.pool.used[e.requester] == r
    ensures Waits(w', r, w.now)
  {
    var c := CoolDownResource(r, w.now);
    assert w'.pool.cooling[|w.pool.cooling|] == c;
    assert c in w'.pool.cooling;
  }

  lemma AssignedIsWarm(s: Pool, requester: string, s': Pool, out: Assignment)
    requires Keyed(s.warm) && AssignStep(s, requester, s', out) && out.Assigned?
    ensures requester in s'.used && s'.used[requester] in WarmSet(s.warm)
  {
    hide Keyed, HasWarm;
    var g :| Pickable(s, g) && s' == AfterAssign(s, requester, g);
    TakeWarm(s.warm, g);
  }

  lemma NotWaiting(w: World, r: Resource, t: int)
    requires Waits(w, r, t) && r !in CoolSet(w.pool.cooling)
    ensures w.now >= t + COOL_DOWN_PERIOD
  {
    forall c | c in w.pool.cooling ensures c.resource in CoolSet(w.pool.cooling) {
      InQueue(w.pool.cooling, c);
    }
  }
}
