/**
 How each operation of the pool moves addresses: ownership stays exclusive, and the set of known
 addresses changes exactly by the groups created, deleted or re-synced.
 */
module Ownership {
  import opened Collections
  import opened PoolState
  import opened Jobs
  import opened Accounting
  import opened PoolOps

  // ------------------------------------------------------------------ the three containers

  lemma TakeWarm(m: Groups, g: string)
    requires Keyed(m) && g in m && m[g] != []
    ensures Keyed(m[g := m[g][1..]])
    ensures WarmSet(m[g := m[g][1..]]) == WarmSet(m) - {m[g][0]}
    ensures m[g][0] in WarmSet(m)
  {
    var m' := m[g := m[g][1..]];
    var head, tail := m[g][0], m[g][1..];
    assert m[g] == [head] + tail;
    assert head !in tail;
    forall r | r in WarmSet(m') ensures r in WarmSet(m) && r != head {
      KeyOfWarm(m', m'.Keys, r);
      assert r in m[r.groupID];
    }
    forall r | r in WarmSet(m) && r != head ensures r in WarmSet(m') {
      KeyOfWarm(m, m.Keys, r);
      assert r in m'[r.groupID];
    }
    assert head in m[g];
  }

  lemma PutUsed(m: map<string, Resource>, k: string, r: Resource)
    requires Injective(m) && k !in m && r !in m.Values
    ensures Injective(m[k := r])
    ensures m[k := r].Values == m.Values + {r}
  {
    var m' := m[k := r];
    assert m'[k] == r;
    forall v | v in m.Values ensures v in m'.Values {
      var j :| j in m && m[j] == v;
      assert m'[j] == v;
    }
  }

  lemma DropUsed(m: map<string, Resource>, k: string)
    requires Injective(m) && k in m
    ensures Injective(m - {k})
    ensures (m - {k}).Values == m.Values - {m[k]}
    ensures m[k] in m.Values
  {
    var m' := m - {k};
    forall v | v in m.Values && v != m[k] ensures v in m'.Values {
      var j :| j in m && m[j] == v;
      assert m'[j] == v;
    }
  }

  lemma Enqueue(q: seq<CoolDownResource>, c: CoolDownResource)
    requires NoDup(CoolResources(q)) && c.resource !in CoolSet(q)
    ensures NoDup(CoolResources(q + [c]))
    ensures CoolSet(q + [c]) == CoolSet(q) + {c.resource}
  {
    assert CoolResources(q + [c]) == CoolResources(q) + [c.resource];
  }

  lemma AppendOne(m: Groups, r: Resource)
    requires Keyed(m) && r !in WarmSet(m)
    ensures Keyed(Append(m, r))
    ensures WarmSet(Append(m, r)) == WarmSet(m) + {r}
  {
    var m' := Append(m, r);
    var before := Get(m, r.groupID);
    assert m'[r.groupID] == before + [r];
    assert r !in before;
    forall t | t in WarmSet(m') ensures t in WarmSet(m) + {r} {
      KeyOfWarm(m', m'.Keys, t);
    }
    forall t | t in WarmSet(m) ensures t in WarmSet(m') {
      KeyOfWarm(m, m.Keys, t);
      assert t in m'[t.groupID];
    }
    assert r in m'[r.groupID];
  }

  lemma {:induction false} AppendMany(m: Groups, rs: seq<Resource>)
    requires Keyed(m) && NoDup(rs) && Elems(rs) !! WarmSet(m)
    ensures Keyed(AppendAll(m, rs))
    ensures WarmSet(AppendAll(m, rs)) == WarmSet(m) + Elems(rs)
  {
    hide WarmSet, Append, Keyed;
    if rs != [] {
      var init, last := rs[..|rs| - 1], rs[|rs| - 1];
      assert rs == init + [last];
      assert Elems(rs) == Elems(init) + {last};
      assert last !in init;
      AppendMany(m, init);
      AppendOne(AppendAll(m, init), last);
    }
  }

  lemma ExclusiveIsKeyed(s: Pool)
    requires Exclusive(s)
    ensures Keyed(s.warm)
  {
  }

  // ------------------------------------------------------------------ Assign, Free, ProcessCoolDownQueue

  lemma RefusalIsStep(s: Pool, requester: string)
    requires Refusal(s, requester).Some?
    ensures AssignStep(s, requester, s, Refusal(s, requester).value) && Refusal(s, requester).value.Refused?
  {
    hide HasWarm;
  }

  lemma PickedIsStep(s: Pool, requester: string, g: string)
    requires Refusal(s, requester).None? && HasWarm(s) && Pickable(s, g)
    ensures AssignStep(s, requester, AfterAssign(s, requester, g), Assigned(s.warm[g][0].resourceID))
  {
    hide Refusal, HasWarm;
  }

  /** An assignment moves one warm address to its requester and touches nothing else. */
  lemma AssignMoves(s: Pool, requester: string, g: string)
    requires Exclusive(s) && requester !in s.used && g in s.warm && s.warm[g] != []
    ensures Exclusive(AfterAssign(s, requester, g))
    ensures Owned(AfterAssign(s, requester, g)) == Owned(s)
  {
    hide WarmSet, Keyed, Injective, NoDup, CoolSet;
    TakeWarm(s.warm, g);
    PutUsed(s.used, requester, s.warm[g][0]);
  }

  lemma AssignKeeps(s: Pool, requester: string, s': Pool, out: Assignment)
    requires Exclusive(s) && AssignStep(s, requester, s', out)
    ensures Exclusive(s') && Owned(s') == Owned(s)
    ensures s' == s.(used := s'.used, warm := s'.warm) && s'.warm.Keys == s.warm.Keys
  {
    hide Exclusive, Owned, HasWarm;
    var refusal := Refusal(s, requester);
    if refusal.None? && HasWarm(s) {
      var g :| Pickable(s, g) && s' == AfterAssign(s, requester, g);
      AssignMoves(s, requester, g);
    }
  }

  lemma FreeKeeps(s: Pool, requester: string, resourceID: string, now: int)
    requires Exclusive(s)
    ensures Exclusive(Freed(s, requester, resourceID, now))
    ensures Owned(Freed(s, requester, resourceID, now)) == Owned(s)
  {
    hide WarmSet, Keyed, Injective, NoDup, CoolSet;
    if FreeRefusal(s, requester, resourceID).None? {
      DropUsed(s.used, requester);
      Enqueue(s.cooling, CoolDownResource(s.used[requester], now));
    }
  }

  lemma SplitQueue(q: seq<CoolDownResource>, k: nat)
    requires k <= |q| && NoDup(CoolResources(q))
    ensures NoDup(CoolResources(q[..k])) && NoDup(CoolResources(q[k..]))
    ensures CoolSet(q) == CoolSet(q[..k]) + CoolSet(q[k..])
    ensures CoolSet(q[..k]) !! CoolSet(q[k..])
  {
    var rs, before, after := CoolResources(q), CoolResources(q[..k]), CoolResources(q[k..]);
    assert before == rs[..k] && after == rs[k..];
    assert rs == before + after;
  }

  lemma CoolDownKeeps(s: Pool, clock: seq<int>)
    requires Exclusive(s) && |clock| >= |s.cooling|
    ensures Exclusive(CooledDown(s, clock))
    ensures Owned(CooledDown(s, clock)) == Owned(s)
  {
    hide WarmSet, Keyed, Injective, NoDup, CoolResources, AppendAll;
    var k := CooledPrefix(s.cooling, clock);
    SplitQueue(s.cooling, k);
    AppendMany(s.warm, CoolResources(s.cooling[..k]));
  }

  /** Addresses that were warm before keep their places; newly cooled ones come after them. */
  lemma {:induction false} AppendKeepsFront(m: Groups, rs: seq<Resource>, g: string)
    requires g in m
    ensures g in AppendAll(m, rs) && m[g] <= AppendAll(m, rs)[g]
  {
    if rs != [] {
      AppendKeepsFront(m, rs[..|rs| - 1], g);
    }
  }

  lemma {:induction false} AddKeepsFront(m: Groups, isPD: bool, gs: seq<string>, g: string)
    requires g in m
    ensures g in AddGroups(m, isPD, gs) && m[g] <= AddGroups(m, isPD, gs)[g]
  {
    hide GroupResources;
    if gs != [] {
      AddKeepsFront(m, isPD, gs[..|gs| - 1], g);
    }
  }

  // ------------------------------------------------------------------ UpdatePool

  lemma AddOneGroup(m: Groups, isPD: bool, g: string)
    requires Keyed(m) && WellFormed(isPD, g) && Members(isPD, g) !! WarmSet(m)
    ensures Keyed(AddGroup(m, isPD, g))
    ensures WarmSet(AddGroup(m, isPD, g)) == WarmSet(m) + Members(isPD, g)
  {
    hide GroupResources, WellFormed;
    GroupFacts(isPD, g);
    var m', rs := AddGroup(m, isPD, g), GroupResources(isPD, g);
    var before := Get(m, g);
    assert m'[g] == before + rs;
    assert forall r :: r in rs ==> r in Members(isPD, g);
    assert forall r :: r in before ==> r in WarmSet(m);
    forall i, j | 0 <= i < j < |m'[g]| ensures m'[g][i] != m'[g][j] {
      if i < |before| <= j {
        assert m'[g][i] in before && m'[g][j] in rs;
      }
    }
    forall i | 0 <= i < |m'[g]| ensures m'[g][i].groupID == g {
      assert i >= |before| ==> m'[g][i] in rs;
    }
    assert Keyed(m');
    forall t | t in WarmSet(m') ensures t in WarmSet(m) + Members(isPD, g) {
      KeyOfWarm(m', m'.Keys, t);
    }
    forall t | t in WarmSet(m) ensures t in WarmSet(m') {
      KeyOfWarm(m, m.Keys, t);
      assert t in m'[t.groupID];
    }
    forall t | t in rs ensures t in WarmSet(m') {
      assert t in m'[g];
    }
  }

  lemma ExpandOne(isPD: bool, groups: set<string>, g: string)
    ensures Expand(isPD, groups + {g}) == Expand(isPD, groups) + Members(isPD, g)
  {
    hide Members;
  }

  lemma MembersDisjoint(isPD: bool, groups: set<string>, g: string)
    requires AllWellFormed(isPD, groups) && WellFormed(isPD, g) && g !in groups
    ensures Members(isPD, g) !! Expand(isPD, groups)
  {
    hide Members, WellFormed;
    MembersFacts(isPD, g);
    forall r | r in Expand(isPD, groups) ensures r !in Members(isPD, g) {
      GroupOfExpanded(isPD, groups, r);
    }
  }

  lemma {:induction false} AddManyGroups(m: Groups, isPD: bool, gs: seq<string>)
    requires Keyed(m) && NoDup(gs) && AllWellFormed(isPD, Elems(gs))
    requires Expand(isPD, Elems(gs)) !! WarmSet(m)
    ensures Keyed(AddGroups(m, isPD, gs))
    ensures WarmSet(AddGroups(m, isPD, gs)) == WarmSet(m) + Expand(isPD, Elems(gs))
  {
    hide WarmSet, Keyed, AddGroup, Expand, WellFormed, Members;
    if gs == [] {
      assert Expand(isPD, Elems(gs)) == {} by { ExpandNone(isPD); }
    } else {
      var init, last := gs[..|gs| - 1], gs[|gs| - 1];
      assert gs == init + [last];
      assert Elems(gs) == Elems(init) + {last};
      assert last !in Elems(init);
      ExpandOne(isPD, Elems(init), last);
      AddManyGroups(m, isPD, init);
      MembersDisjoint(isPD, Elems(init), last);
      AddOneGroup(AddGroups(m, isPD, init), isPD, last);
    }
  }

  lemma ExpandNone(isPD: bool)
    ensures Expand(isPD, {}) == {} && Expand(isPD, Elems<string>([])) == {}
  {
  }

  lemma ExpandSum(isPD: bool, a: set<string>, b: set<string>)
    ensures Expand(isPD, a + b) == Expand(isPD, a) + Expand(isPD, b)
  {
    hide Members;
  }

  lemma ExpandsDisjoint(isPD: bool, a: set<string>, b: set<string>)
    requires AllWellFormed(isPD, a) && AllWellFormed(isPD, b) && a !! b
    ensures Expand(isPD, a) !! Expand(isPD, b)
  {
    hide Members, WellFormed;
    forall r | r in Expand(isPD, a) ensures r !in Expand(isPD, b) {
      GroupOfExpanded(isPD, a, r);
      if r in Expand(isPD, b) {
        GroupOfExpanded(isPD, b, r);
      }
    }
  }

  /** The groups a job brings back that the pool does not hold become whole warm groups. */
  lemma UpdateKeeps(s: Pool, job: WarmPoolJob, didSucceed: bool, prefixAvailable: bool)
    requires Exclusive(s) && Whole(s)
    requires NoDup(job.resources) && AllWellFormed(s.isPD, Elems(job.resources)) && Elems(job.resources) !! Held(s)
    ensures var s' := Updated(s, job, didSucceed, prefixAvailable);
            Exclusive(s') && Whole(s') && Held(s') == Held(s) + Elems(job.resources)
  {
    hide WarmSet, Keyed, Injective, NoDup, CoolSet, Expand, WellFormed, AddGroups, Held;
    var s' := Updated(s, job, didSucceed, prefixAvailable);
    var gs := Elems(job.resources);
    ExpandsDisjoint(s.isPD, Held(s), gs);
    AddManyGroups(s.warm, s.isPD, job.resources);
    ExpandSum(s.isPD, Held(s), gs);
    assert AllWellFormed(s.isPD, Held(s) + gs);
    assert Owned(s') == Owned(s) + Expand(s.isPD, gs);
    HeldIs(s', Held(s) + gs);
  }

  // ------------------------------------------------------------------ ReconcilePool

  lemma DropGroups(s: Pool, gs: set<string>)
    requires Exclusive(s) && Whole(s) && gs <= FreeGroups(s.warm, Unit(s.isPD))
    ensures Keyed(s.warm - gs)
    ensures WarmSet(s.warm - gs) == WarmSet(s.warm) - Expand(s.isPD, gs)
    ensures gs <= Held(s)
    ensures Expand(s.isPD, gs) <= WarmSet(s.warm)
  {
    hide Whole, Members, WellFormed, Held, CoolSet, Injective, CoolResources, Unit;
    var m' := s.warm - gs;
    forall g | g in gs ensures Elems(s.warm[g]) == Members(s.isPD, g) && g in Held(s) {
      FreeGroupIsWhole(s, g);
    }
    forall r | r in Expand(s.isPD, gs) ensures r.groupID in gs && r in s.warm[r.groupID] {
      var g :| g in gs && r in Members(s.isPD, g);
      assert r in s.warm[g];
    }
    forall r: Resource | r.groupID in gs && r in s.warm[r.groupID] ensures r in Expand(s.isPD, gs) {
      assert r in Elems(s.warm[r.groupID]);
    }
    forall r | r in WarmSet(m') ensures r in WarmSet(s.warm) && r !in Expand(s.isPD, gs) {
      KeyOfWarm(m', m'.Keys, r);
    }
    forall r | r in WarmSet(s.warm) && r !in Expand(s.isPD, gs) ensures r in WarmSet(m') {
      KeyOfWarm(s.warm, s.warm.Keys, r);
      assert r in m'[r.groupID];
    }
  }

  /** Dropping wholly free groups leaves a pool that holds the other groups whole. */
  lemma DeleteKeeps(s: Pool, gs: set<string>, s': Pool)
    requires Exclusive(s) && Whole(s) && gs <= FreeGroups(s.warm, Unit(s.isPD))
    requires s'.isPD == s.isPD && s'.warm == s.warm - gs && s'.used == s.used && s'.cooling == s.cooling
    ensures Exclusive(s') && Whole(s') && Held(s') == Held(s) - gs && gs <= Held(s)
  {
    DropGroups(s, gs);
    hide WarmSet, Keyed, Injective, NoDup, CoolSet, Expand, WellFormed, Held, FreeGroups, Unit;
    var rest := Held(s) - gs;
    assert Held(s) == rest + gs;
    ExpandSum(s.isPD, rest, gs);
    assert AllWellFormed(s.isPD, rest) && AllWellFormed(s.isPD, gs);
    ExpandsDisjoint(s.isPD, rest, gs);
    HeldIs(s', rest);
  }
}
