/**
 Convergence of ReSync (pkg/pool/pool.go): local state becomes the upstream list, apart from
 addresses in use, which a re-sync never takes away.
 */
module ReSync {
  import opened Collections
  import opened PoolState
  import opened Accounting
  import opened PoolOps
  import opened Ownership

  // ------------------------------------------------------------------ removal

  lemma PurgeWarm(m: Groups, gone: set<Resource>)
    requires Keyed(m)
    ensures Keyed(Purge(m, gone))
    ensures WarmSet(Purge(m, gone)) == WarmSet(m) - gone
    ensures forall g :: g in Purge(m, gone) <==> g in m && !(m[g] != [] && Elems(m[g]) <= gone)
  {
    EmptiedKeys(m, gone);
    var m': Groups := Purge(m, gone);
    forall g | g in m ensures Elems(Without(m[g], gone)) == Elems(m[g]) - gone && NoDup(Without(m[g], gone)) {
      WithoutElems(m[g], gone);
      WithoutNoDup(m[g], gone);
    }
    PurgeKeyed(m, gone);
    forall r | r in WarmSet(m') ensures r in WarmSet(m) - gone {
      KeyOfWarm(m', m'.Keys, r);
      assert r in Elems(Without(m[r.groupID], gone));
      assert r in m[r.groupID];
    }
    forall r | r in WarmSet(m) - gone ensures r in WarmSet(m') {
      KeyOfWarm(m, m.Keys, r);
      assert r in Elems(Without(m[r.groupID], gone));
      assert r in m'[r.groupID];
    }
  }

  lemma EmptiedKeys(m: Groups, gone: set<Resource>)
    ensures forall g :: g in Purge(m, gone) <==> g in m && !(m[g] != [] && Elems(m[g]) <= gone)
  {
    forall g | g in m ensures Without(m[g], gone) == [] <==> Elems(m[g]) <= gone {
      WithoutElems(m[g], gone);
      NoElems(Without(m[g], gone));
      NothingBut(Elems(m[g]), gone);
    }
  }

  lemma NothingBut<T>(a: set<T>, b: set<T>)
    ensures a <= b <==> a - b == {}
  {
    if a - b == {} {
      forall x | x in a ensures x in b {
        assert x !in a - b;
      }
    }
  }

  lemma NoElems<T>(s: seq<T>)
    ensures s == [] <==> Elems(s) == {}
  {
    if s != [] {
      assert s[0] in Elems(s);
    }
  }

  lemma PurgeKeyed(m: Groups, gone: set<Resource>)
    requires Keyed(m)
    ensures Keyed(Purge(m, gone))
  {
    var m': Groups := Purge(m, gone);
    forall g | g in m' ensures NoDup(m'[g]) && forall i :: 0 <= i < |m'[g]| ==> m'[g][i].groupID == g {
      WithoutElems(m[g], gone);
      WithoutNoDup(m[g], gone);
      forall i | 0 <= i < |m'[g]| ensures m'[g][i].groupID == g {
        assert m'[g][i] in Elems(Without(m[g], gone));
        assert m'[g][i] in m[g];
      }
    }
  }

  lemma PurgeNothing(m: Groups, gone: set<Resource>)
    requires WarmSet(m) !! gone
    ensures Purge(m, gone) == m
  {
    forall g | g in m ensures Without(m[g], gone) == m[g] {
      forall r | r in Elems(m[g]) ensures r !in gone {
        assert r in WarmSet(m);
      }
      WithoutNothing(m[g], gone);
    }
  }

  /** The queue is filtered like the list of its resources, so the survivors keep their order. */
  lemma {:induction false} PurgeQueueResources(q: seq<CoolDownResource>, gone: set<Resource>)
    ensures CoolResources(PurgeQueue(q, gone)) == Without(CoolResources(q), gone)
  {
    if q != [] {
      var init, last := q[..|q| - 1], q[|q| - 1];
      PurgeQueueResources(init, gone);
      assert CoolResources(q) == CoolResources(init) + [last.resource];
      assert CoolResources(q)[..|q| - 1] == CoolResources(init);
      var rest := PurgeQueue(init, gone);
      assert CoolResources(rest + [last]) == CoolResources(rest) + [last.resource];
    }
  }

  lemma PurgeQueueKeeps(q: seq<CoolDownResource>, gone: set<Resource>)
    requires NoDup(CoolResources(q))
    ensures NoDup(CoolResources(PurgeQueue(q, gone)))
    ensures CoolSet(PurgeQueue(q, gone)) == CoolSet(q) - gone
  {
    hide CoolResources, NoDup;
    PurgeQueueResources(q, gone);
    WithoutElems(CoolResources(q), gone);
    WithoutNoDup(CoolResources(q), gone);
  }

  lemma {:induction false} PurgeQueueNothing(q: seq<CoolDownResource>, gone: set<Resource>)
    requires CoolSet(q) !! gone
    ensures PurgeQueue(q, gone) == q
  {
    if q != [] {
      var init, last := q[..|q| - 1], q[|q| - 1];
      assert CoolResources(q) == CoolResources(init) + [last.resource];
      assert last.resource in CoolSet(q);
      forall r | r in CoolSet(init) ensures r in CoolSet(q) {}
      PurgeQueueNothing(init, gone);
      assert q == init + [last];
    }
  }

  /** Every pair of entries a re-sync leaves in the queue was in that order before. */
  lemma {:induction false} PurgeQueueOrder(q: seq<CoolDownResource>, gone: set<Resource>, i: nat, j: nat)
    returns (a: nat, b: nat)
    requires i < j < |PurgeQueue(q, gone)|
    ensures a < b < |q| && q[a] == PurgeQueue(q, gone)[i] && q[b] == PurgeQueue(q, gone)[j]
  {
    var init, last := q[..|q| - 1], q[|q| - 1];
    var rest := PurgeQueue(init, gone);
    if j < |rest| {
      a, b := PurgeQueueOrder(init, gone, i, j);
    } else {
      b := |q| - 1;
      a := PurgeQueueFrom(init, gone, i);
    }
  }

  lemma {:induction false} PurgeQueueFrom(q: seq<CoolDownResource>, gone: set<Resource>, i: nat) returns (a: nat)
    requires i < |PurgeQueue(q, gone)|
    ensures a < |q| && q[a] == PurgeQueue(q, gone)[i]
  {
    var init, last := q[..|q| - 1], q[|q| - 1];
    if i < |PurgeQueue(init, gone)| {
      a := PurgeQueueFrom(init, gone, i);
    } else {
      a := |q| - 1;
    }
  }

  // ------------------------------------------------------------------ convergence

  /**
   After a re-sync with a duplicate-free upstream list the pool knows exactly the upstream addresses
   and those in use; used is untouched, warm and cooling are what is left of upstream.
   */
  lemma ReSyncConverges(s: Pool, ids: seq<string>)
    requires Exclusive(s) && s.reSyncRequired
    requires NoDup(UpstreamResources(s.isPD, ids))
    ensures var s' := ReSynced(s, ids);
            var upstream := Elems(UpstreamResources(s.isPD, ids));
            && Exclusive(s')
            && !s'.reSyncRequired && s'.used == s.used
            && CoolSet(s'.cooling) == CoolSet(s.cooling) * upstream
            && WarmSet(s'.warm) == upstream - s.used.Values - CoolSet(s.cooling)
            && Owned(s') == upstream + s.used.Values
  {
    hide WarmSet, Keyed, Injective, NoDup, CoolSet, Purge, PurgeQueue, AppendAll, UpstreamResources;
    var ups := UpstreamResources(s.isPD, ids);
    var added, gone := Without(ups, Owned(s)), Owned(s) - Elems(ups);
    WithoutElems(ups, Owned(s));
    WithoutNoDup(ups, Owned(s));
    AppendMany(s.warm, added);
    PurgeWarm(AppendAll(s.warm, added), gone);
    PurgeQueueKeeps(s.cooling, gone);
  }

  lemma {:induction false} WithoutAll<T>(s: seq<T>, drop: set<T>)
    requires Elems(s) <= drop
    ensures Without(s, drop) == []
  {
    if s != [] {
      forall x | x in Elems(s[..|s| - 1]) ensures x in drop {}
      WithoutAll(s[..|s| - 1], drop);
      assert s[|s| - 1] in Elems(s);
    }
  }

  /** Repeating a re-sync with the same list changes nothing. */
  lemma ReSyncIdempotent(s: Pool, ids: seq<string>)
    requires Exclusive(s) && s.reSyncRequired
    requires NoDup(UpstreamResources(s.isPD, ids))
    ensures var s' := ReSynced(s, ids);
            ReSynced(s'.(reSyncRequired := true), ids) == s'
  {
    var s' := ReSynced(s, ids);
    ReSyncConverges(s, ids);
    hide WarmSet, Keyed, Injective, NoDup, CoolSet, Purge, PurgeQueue, UpstreamResources, Without;
    var t := s'.(reSyncRequired := true);
    var ups := UpstreamResources(s.isPD, ids);
    assert Owned(t) == Owned(s');
    WithoutAll(ups, Owned(t));
    var gone := Owned(t) - Elems(ups);
    assert AppendAll(s'.warm, []) == s'.warm;
    PurgeNothing(s'.warm, gone);
    PurgeQueueNothing(s'.cooling, gone);
  }

  // ------------------------------------------------------------------ whole groups

  /** The groups a listing attaches; empty and unreadable entries are skipped. */
  function Attached(isPD: bool, ids: seq<string>): set<string> {
    set g | g in ids && g != "" && GroupResources(isPD, g) != []
  }

  lemma AttachedLast(isPD: bool, init: seq<string>, last: string)
    ensures Attached(isPD, init + [last])
            == if last == "" || GroupResources(isPD, last) == []
              then Attached(isPD, init) else Attached(isPD, init) + {last}
  {
    hide GroupResources;
  }

  lemma {:induction false} UpstreamIs(isPD: bool, ids: seq<string>)
    requires NoDup(ids) && AllWellFormed(isPD, Attached(isPD, ids))
    ensures NoDup(UpstreamResources(isPD, ids))
    ensures Elems(UpstreamResources(isPD, ids)) == Expand(isPD, Attached(isPD, ids))
  {
    hide GroupResources, WellFormed, Expand;
    if ids == [] {
      assert Attached(isPD, ids) == {};
      ExpandNone(isPD);
    } else {
      var init, last := ids[..|ids| - 1], ids[|ids| - 1];
      assert ids == init + [last];
      assert last !in init;
      AttachedLast(isPD, init, last);
      assert last !in Attached(isPD, init);
      hide Attached, NoDup, Elems;
      assert NoDup(init) by { NoDupInit(init, last); }
      UpstreamIs(isPD, init);
      if last != "" && GroupResources(isPD, last) != [] {
        AttachOne(isPD, UpstreamResources(isPD, init), Attached(isPD, init), last);
      }
    }
  }

  lemma NoDupInit<T>(init: seq<T>, last: T)
    requires NoDup(init + [last])
    ensures NoDup(init)
  {
    var all := init + [last];
    assert forall i :: 0 <= i < |init| ==> init[i] == all[i];
  }

  lemma AttachOne(isPD: bool, rs: seq<Resource>, groups: set<string>, g: string)
    requires NoDup(rs) && AllWellFormed(isPD, groups) && Elems(rs) == Expand(isPD, groups)
    requires WellFormed(isPD, g) && g !in groups
    ensures NoDup(rs + GroupResources(isPD, g))
    ensures Elems(rs + GroupResources(isPD, g)) == Expand(isPD, groups + {g})
  {
    hide GroupResources, WellFormed, Expand;
    var ms := GroupResources(isPD, g);
    GroupFacts(isPD, g);
    MembersDisjoint(isPD, groups, g);
    ExpandOne(isPD, groups, g);
    assert Elems(rs + ms) == Elems(rs) + Elems(ms);
    forall i, j | 0 <= i < j < |rs + ms| ensures (rs + ms)[i] != (rs + ms)[j] {
      if i < |rs| <= j {
        assert (rs + ms)[i] in Elems(rs) && (rs + ms)[j] in Elems(ms);
      }
    }
  }

  /**
   What the environment owes a re-sync: a duplicate-free list whose readable entries are well formed,
   that fits the node together with the groups in use, and, in prefix mode, names every prefix in use.
   */
  ghost predicate UpstreamOK(s: Pool, ids: seq<string>) {
    && NoDup(ids)
    && AllWellFormed(s.isPD, Attached(s.isPD, ids))
    && (s.isPD ==> UsedGroups(s) <= Attached(s.isPD, ids))
    && Unit(s.isPD) * |Attached(s.isPD, ids) + UsedGroups(s)| <= s.capacity
  }

  lemma SecondaryMember(g: string, r: Resource)
    requires r in Members(false, g)
    ensures r == Resource(g, g)
  {
  }

  lemma UsedExpand(s: Pool, groups: set<string>)
    requires Exclusive(s) && Whole(s)
    requires s.isPD ==> UsedGroups(s) <= groups
    ensures Expand(s.isPD, groups) + s.used.Values == Expand(s.isPD, groups + UsedGroups(s))
    ensures AllWellFormed(s.isPD, UsedGroups(s))
  {
    hide Exclusive, Whole, WellFormed, Members;
    forall r | r in s.used.Values ensures WellFormed(s.isPD, r.groupID) && r in Members(s.isPD, r.groupID) {
      OwnedMember(s, r);
    }
    ExpandSum(s.isPD, groups, UsedGroups(s));
    if s.isPD {
      assert groups + UsedGroups(s) == groups;
    } else {
      forall t | t in Expand(s.isPD, UsedGroups(s)) ensures t in s.used.Values {
        var g :| g in UsedGroups(s) && t in Members(s.isPD, g);
        var r :| r in s.used.Values && r.groupID == g;
        SecondaryMember(g, r);
        SecondaryMember(g, t);
      }
    }
  }

  /** With such a list the pool again holds whole groups: the attached ones and those in use. */
  lemma ReSyncKeeps(s: Pool, ids: seq<string>)
    requires Exclusive(s) && Whole(s) && s.reSyncRequired && UpstreamOK(s, ids)
    ensures var s' := ReSynced(s, ids);
            && Exclusive(s') && Whole(s')
            && Held(s') == Attached(s.isPD, ids) + UsedGroups(s)
  {
    hide Exclusive, WellFormed, UsedGroups, Attached, Owned, Held, UpstreamResources, Expand, ReSynced;
    var s' := ReSynced(s, ids);
    UpstreamIs(s.isPD, ids);
    ReSyncConverges(s, ids);
    UsedExpand(s, Attached(s.isPD, ids));
    ReSyncFixed(s, ids);
    HeldIs(s', Attached(s.isPD, ids) + UsedGroups(s));
  }

  /** What a re-sync never touches. */
  lemma ReSyncFixed(s: Pool, ids: seq<string>)
    ensures var s' := ReSynced(s, ids);
            s' == s.(reSyncRequired := false, warm := s'.warm, cooling := s'.cooling)
  {
  }
}
