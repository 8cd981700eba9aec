/**
 Facts about sequences and finite sets that the pool's accounting rests on:
 duplicate-free sequences, order-preserving filtering and counting.
 */
module Collections {

  datatype Option<+T> = None | Some(value: T)

  ghost predicate NoDup<T>(s: seq<T>) {
    forall i, j :: 0 <= i < j < |s| ==> s[i] != s[j]
  }

  function Elems<T>(s: seq<T>): set<T> {
    set x | x in s
  }

  /** The elements of `s` outside `drop`, in their original order. */
  function Without<T(==)>(s: seq<T>, drop: set<T>): seq<T> {
    if s == [] then []
    else
      var rest := Without(s[..|s| - 1], drop);
      if s[|s| - 1] in drop then rest else rest + [s[|s| - 1]]
  }

  lemma {:induction false} NoDupCard<T>(s: seq<T>)
    ensures |Elems(s)| <= |s|
    ensures NoDup(s) ==> |Elems(s)| == |s|
  {
    if s != [] {
      var init, last := s[..|s| - 1], s[|s| - 1];
      NoDupCard(init);
      assert Elems(s) == Elems(init) + {last} by {
        assert s == init + [last];
      }
      if NoDup(s) {
        assert last !in init;
      }
    }
  }

  lemma {:induction false} WithoutElems<T>(s: seq<T>, drop: set<T>)
    ensures Elems(Without(s, drop)) == Elems(s) - drop
    ensures |Without(s, drop)| <= |s|
  {
    if s != [] {
      var init, last := s[..|s| - 1], s[|s| - 1];
      WithoutElems(init, drop);
      assert Elems(s) == Elems(init) + {last} by {
        assert s == init + [last];
      }
      var rest := Without(init, drop);
      assert Elems(rest + [last]) == Elems(rest) + {last};
    }
  }

  lemma {:induction false} WithoutNoDup<T>(s: seq<T>, drop: set<T>)
    requires NoDup(s)
    ensures NoDup(Without(s, drop))
  {
    if s != [] {
      var init, last := s[..|s| - 1], s[|s| - 1];
      WithoutNoDup(init, drop);
      WithoutElems(init, drop);
      assert last !in init;
      assert last !in Elems(Without(init, drop));
    }
  }

  /** Filtering changes nothing exactly when no element is dropped. */
  lemma {:induction false} WithoutNothing<T>(s: seq<T>, drop: set<T>)
    ensures Elems(s) !! drop <==> Without(s, drop) == s
  {
    if s != [] {
      var init, last := s[..|s| - 1], s[|s| - 1];
      WithoutNothing(init, drop);
      WithoutElems(init, drop);
      assert s == init + [last];
      assert Elems(s) == Elems(init) + {last};
    }
  }

  lemma {:induction false} WithoutConcat<T>(s: seq<T>, t: seq<T>, drop: set<T>)
    ensures Without(s + t, drop) == Without(s, drop) + Without(t, drop)
  {
    if t == [] {
      assert s + t == s;
    } else {
      var init, last := t[..|t| - 1], t[|t| - 1];
      WithoutConcat(s, init, drop);
      assert (s + t)[..|s + t| - 1] == s + init;
    }
  }

  lemma {:induction false} WithoutTwice<T>(s: seq<T>, a: set<T>, b: set<T>)
    ensures Without(Without(s, a), b) == Without(s, a + b)
  {
    if s != [] {
      var init, last := s[..|s| - 1], s[|s| - 1];
      WithoutTwice(init, a, b);
      if last !in a {
        var rest := Without(init, a);
        assert (rest + [last])[..|rest|] == rest;
      }
    }
  }

  lemma {:induction false} SubsetCard<T>(a: set<T>, b: set<T>)
    requires a <= b
    ensures |a| <= |b|
    ensures |a| == |b| ==> a == b
  {
    assert b == a + (b - a);
    assert |b| == |a| + |b - a|;
  }
}
