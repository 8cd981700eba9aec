/**
 Counting lemmas: under exclusive ownership the pool's three lengths add up to the number of
 addresses it knows, and when groups are held whole that number is a multiple of the group size.
 */
module Accounting {
  import opened Collections
  import opened PoolState

  // ------------------------------------------------------------------ cardinalities

  lemma {:induction false} WarmCard(m: Groups, keys: set<string>)
    requires Keyed(m) && keys <= m.Keys
    ensures |WarmOver(m, keys)| == NumOver(m, keys)
    decreases keys
  {
    if keys != {} {
      var k :| k in keys;
      NumOverRemove(m, keys, k);
      WarmCard(m, keys - {k});
      NoDupCard(m[k]);
      var rest := WarmOver(m, keys - {k});
      assert WarmOver(m, keys) == rest + Elems(m[k]);
      assert rest !! Elems(m[k]) by {
        forall r | r in rest ensures r.groupID != k {
          KeyOfWarm(m, keys - {k}, r);
        }
      }
    }
  }

  lemma KeyOfWarm(m: Groups, keys: set<string>, r: Resource)
    requires Keyed(m) && keys <= m.Keys && r in WarmOver(m, keys)
    ensures r.groupID in keys && r in m[r.groupID]
  {
    var g :| g in keys && r in m[g];
  }

  lemma {:induction false} ValuesCard(m: map<string, Resource>)
    requires Injective(m)
    ensures |m.Values| == |m|
    decreases m.Keys
  {
    if m != map[] {
      var k :| k in m;
      var rest := m - {k};
      assert Injective(rest);
      ValuesCard(rest);
      assert m.Values == rest.Values + {m[k]} by {
        forall v | v in m.Values ensures v in rest.Values + {m[k]} {
          var j :| j in m && m[j] == v;
          if j != k {
            assert j in rest && rest[j] == v;
          }
        }
      }
      assert m[k] !in rest.Values;
      assert m.Keys == rest.Keys + {k};
      assert |m.Keys| == |rest.Keys| + 1;
    } else {
      assert m.Values == {};
    }
  }

  /** The three lengths count distinct addresses. */
  lemma OwnedCount(s: Pool)
    requires Exclusive(s)
    ensures NumResources(s.warm) + |s.used| + |s.cooling| == |Owned(s)|
  {
    hide Keyed, Injective, NoDup, WarmSet, CoolResources;
    WarmCountIs(s.warm);
    ValuesCard(s.used);
    NoDupCard(CoolResources(s.cooling));
    var w, u, c := WarmSet(s.warm), s.used.Values, CoolSet(s.cooling);
    assert |w + u| == |w| + |u|;
    assert |w + u + c| == |w + u| + |c|;
  }

  lemma WarmCountIs(m: Groups)
    requires Keyed(m)
    ensures NumResources(m) == |WarmSet(m)|
  {
    WarmCard(m, m.Keys);
  }

  lemma {:induction false} ExpandCard(isPD: bool, groups: set<string>)
    requires AllWellFormed(isPD, groups)
    ensures |Expand(isPD, groups)| == Unit(isPD) * |groups|
    decreases groups
  {
    hide Members, WellFormed, Unit;
    if groups != {} {
      var g :| g in groups;
      var rest := groups - {g};
      ExpandCard(isPD, rest);
      MembersFacts(isPD, g);
      ExpandSplits(isPD, groups, g);
      assert |groups| == |rest| + 1;
      assert Unit(isPD) * |groups| == Unit(isPD) * |rest| + Unit(isPD);
    } else {
      assert Expand(isPD, groups) == {};
    }
  }

  lemma ExpandSplits(isPD: bool, groups: set<string>, g: string)
    requires AllWellFormed(isPD, groups) && g in groups
    ensures Expand(isPD, groups) == Expand(isPD, groups - {g}) + Members(isPD, g)
    ensures |Expand(isPD, groups)| == |Expand(isPD, groups - {g})| + |Members(isPD, g)|
  {
    hide Members, WellFormed;
    var rest := groups - {g};
    MembersFacts(isPD, g);
    forall r | r in Expand(isPD, rest) ensures r.groupID != g {
      GroupOfExpanded(isPD, rest, r);
    }
    assert Expand(isPD, groups) == Expand(isPD, rest) + Members(isPD, g);
  }

  lemma GroupOfExpanded(isPD: bool, groups: set<string>, r: Resource)
    requires AllWellFormed(isPD, groups) && r in Expand(isPD, groups)
    ensures r.groupID in groups && r in Members(isPD, r.groupID)
  {
    hide Members, WellFormed;
    var g :| g in groups && r in Members(isPD, g);
    MembersFacts(isPD, g);
  }

  /** A pool that knows exactly the members of some groups holds exactly those groups. */
  lemma HeldIs(s: Pool, groups: set<string>)
    requires AllWellFormed(s.isPD, groups)
    requires Owned(s) == Expand(s.isPD, groups)
    ensures Held(s) == groups
    ensures Whole(s)
  {
    hide Members, WellFormed, Owned;
    forall g | g in groups ensures g in Held(s) {
      MembersFacts(s.isPD, g);
      var r :| r in Members(s.isPD, g);
      assert r in Owned(s);
    }
    forall r | r in Owned(s) ensures r.groupID in groups {
      GroupOfExpanded(s.isPD, groups, r);
    }
  }

  /** Whole groups: the addresses in warm, used and cooling number exactly the group size times the groups held. */
  lemma WholeCount(s: Pool)
    requires Exclusive(s) && Whole(s)
    ensures NumResources(s.warm) + |s.used| + |s.cooling| == Unit(s.isPD) * |Held(s)|
  {
    hide Exclusive, AllWellFormed, Expand, Owned, Held, Unit;
    OwnedCount(s);
    ExpandCard(s.isPD, Held(s));
  }

  /** Where a resource of a well-kept pool belongs. */
  lemma OwnedMember(s: Pool, r: Resource)
    requires Whole(s) && r in Owned(s)
    ensures r.groupID in Held(s) && WellFormed(s.isPD, r.groupID) && r in Members(s.isPD, r.groupID)
  {
    hide Owned, Members, WellFormed;
    GroupOfExpanded(s.isPD, Held(s), r);
  }

  // ------------------------------------------------------------------ wholly free groups

  function FreeGroups(m: Groups, size: int): set<string> {
    set g | g in m && |m[g]| == size
  }

  /**
   The pigeonhole behind deletion: a warm list as long as its group accounts for every address of
   the group, so none of them is in use or cooling.
   */
  lemma FreeGroupIsWhole(s: Pool, g: string)
    requires Exclusive(s) && Whole(s)
    requires g in s.warm && |s.warm[g]| == Unit(s.isPD)
    ensures g in Held(s) && WellFormed(s.isPD, g)
    ensures Elems(s.warm[g]) == Members(s.isPD, g)
    ensures forall r :: r in s.used.Values || r in CoolSet(s.cooling) ==> r.groupID != g
  {
    hide Whole, Members, WellFormed, Held, CoolSet, Injective, CoolResources;
    var list := s.warm[g];
    assert |list| >= 1;
    var first := list[0];
    assert first in s.warm[g] && first.groupID == g;
    assert first in WarmSet(s.warm);
    OwnedMember(s, first);
    forall r | r in list ensures r in Members(s.isPD, g) {
      assert r in WarmSet(s.warm) && r.groupID == g;
      OwnedMember(s, r);
    }
    MembersFacts(s.isPD, g);
    NoDupCard(list);
    SubsetCard(Elems(list), Members(s.isPD, g));
    forall r | r in s.used.Values || r in CoolSet(s.cooling) ensures r.groupID != g {
      if r.groupID == g {
        OwnedMember(s, r);
      }
    }
  }

  function UsedGroups(s: Pool): set<string> {
    set r | r in s.used.Values :: r.groupID
  }

  /** The groups in use can hold all used addresses. */
  lemma UsedFits(s: Pool)
    requires Exclusive(s) && Whole(s)
    ensures |s.used| <= Unit(s.isPD) * |UsedGroups(s)|
  {
    hide Whole, Members, WellFormed, Unit, Keyed, WarmSet, CoolSet;
    ValuesCard(s.used);
    forall r | r in s.used.Values
      ensures WellFormed(s.isPD, r.groupID) && r in Members(s.isPD, r.groupID)
    {
      OwnedMember(s, r);
    }
    ExpandCard(s.isPD, UsedGroups(s));
    SubsetCard(s.used.Values, Expand(s.isPD, UsedGroups(s)));
  }

  /** Groups in use and wholly free groups are different held groups. */
  lemma UsedAndFreeGroups(s: Pool)
    requires Exclusive(s) && Whole(s)
    ensures |FreeGroups(s.warm, Unit(s.isPD))| + |UsedGroups(s)| <= |Held(s)|
  {
    hide Exclusive, Whole, Members, WellFormed, Unit, WarmSet, CoolSet;
    var free, inUse := FreeGroups(s.warm, Unit(s.isPD)), UsedGroups(s);
    forall g | g in free ensures g in Held(s) && g !in inUse {
      FreeGroupIsWhole(s, g);
    }
    forall g | g in inUse ensures g in Held(s) {
      var r :| r in s.used.Values && r.groupID == g;
      assert r in Owned(s);
    }
    assert |free + inUse| == |free| + |inUse|;
    SubsetCard(free + inUse, Held(s));
  }
}
