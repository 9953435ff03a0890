/** Ordered iteration over finite sets of ids, as `std::set<int>` and `std::map<int, _>` give it. */
module Sets {

  lemma SameSet(a: set<int>, b: set<int>)
    requires forall x :: x in a <==> x in b
    ensures a == b
  {
    forall x
      ensures x in a <==> x in b
    {}
  }

  lemma {:induction false} HasMin(s: set<int>)
    requires s != {}
    ensures exists m :: m in s && forall x :: x in s ==> m <= x
  {
    if forall k :: k !in s {
      assert false;
    }
    var k :| k in s;
    var rest := s - {k};
    assert forall x :: x in s <==> x == k || x in rest;
    if rest != {} {
      HasMin(rest);
      var m :| m in rest && forall x :: x in rest ==> m <= x;
      assert (if m < k then m else k) in s;
    }
  }

  function Min(s: set<int>): (m: int)
    requires s != {}
    ensures m in s && forall x :: x in s ==> m <= x
  {
    HasMin(s);
    var m :| m in s && forall x :: x in s ==> m <= x;
    m
  }

  predicate Increasing(xs: seq<int>) {
    forall i, j :: 0 <= i < j < |xs| ==> xs[i] < xs[j]
  }

  /** The elements of a set in ascending order. */
  function Ascending(s: set<int>): (xs: seq<int>)
    ensures Increasing(xs)
    ensures forall x :: x in xs <==> x in s
    ensures |xs| == |s|
  {
    if s == {} then []
    else
      var m := Min(s);
      assert |s - {m}| == |s| - 1;
      [m] + Ascending(s - {m})
  }

  lemma SubsetCard(a: set<int>, b: set<int>)
    requires forall x :: x in a ==> x in b
    ensures |a| <= |b|
  {
    SameSet(b, a + (b - a));
  }

  lemma HeadIsMin(xs: seq<int>, s: set<int>)
    requires Increasing(xs) && xs != [] && forall x :: x in xs <==> x in s
    ensures s != {} && xs[0] == Min(s)
  {
    var head := xs[0];
    assert head in xs && head in s;
    var m := Min(s);
    assert m in xs;
    var i :| 0 <= i < |xs| && xs[i] == m;
  }

  lemma TailMembers(xs: seq<int>, s: set<int>, x: int)
    requires Increasing(xs) && xs != [] && (x in xs <==> x in s)
    ensures x in xs[1..] <==> x in s - {xs[0]}
  {
    var tail := xs[1..];
    if x in tail {
      var j :| 0 <= j < |tail| && tail[j] == x;
      assert xs[j + 1] == x;
    }
    if x in s - {xs[0]} {
      var j :| 0 <= j < |xs| && xs[j] == x;
      assert tail[j - 1] == x;
    }
  }

  lemma AscendingStep(s: set<int>)
    requires s != {}
    ensures Ascending(s) == [Min(s)] + Ascending(s - {Min(s)})
  {
  }

  /** An ascending list is determined by its elements. */
  lemma {:induction false} AscendingUnique(xs: seq<int>, s: set<int>)
    requires Increasing(xs) && forall x :: x in xs <==> x in s
    ensures xs == Ascending(s)
  {
    if xs == [] {
      SameSet(s, {});
    } else {
      HeadIsMin(xs, s);
      var tail, rest := xs[1..], s - {xs[0]};
      forall x
        ensures x in tail <==> x in rest
      {
        TailMembers(xs, s, x);
      }
      AscendingUnique(tail, rest);
      AscendingStep(s);
    }
  }

  lemma FullSubset(a: set<int>, b: set<int>)
    requires (forall x :: x in a ==> x in b) && |a| == |b|
    ensures a == b
  {
    SameSet(b, a + (b - a));
    assert |b - a| == 0;
    SameSet(a, b);
  }

  // -------------------------------------------------------------------------
  // The elements of a list
  // -------------------------------------------------------------------------

  ghost predicate NoDup(xs: seq<int>) {
    forall i, j :: 0 <= i < j < |xs| ==> xs[i] != xs[j]
  }

  ghost function Elements(xs: seq<int>): set<int> {
    set i | 0 <= i < |xs| :: xs[i]
  }

  lemma ElementsNext(xs: seq<int>)
    requires xs != [] && NoDup(xs)
    ensures var k := |xs| - 1;
      Elements(xs) == Elements(xs[..k]) + {xs[k]} && xs[k] !in Elements(xs[..k]) && NoDup(xs[..k])
  {
    var k := |xs| - 1;
    forall x
      ensures x in Elements(xs) <==> x in Elements(xs[..k]) || x == xs[k]
    {
      if x in Elements(xs[..k]) {
        var i :| 0 <= i < k && xs[..k][i] == x;
        assert xs[i] == x;
      }
      if x in Elements(xs) && x != xs[k] {
        var i :| 0 <= i < |xs| && xs[i] == x;
        assert xs[..k][i] == x;
      }
    }
    SameSet(Elements(xs), Elements(xs[..k]) + {xs[k]});
  }

  lemma {:induction false} ElementsCard(xs: seq<int>)
    requires NoDup(xs)
    ensures |Elements(xs)| == |xs|
  {
    if xs == [] {
      SameSet(Elements(xs), {});
    } else {
      ElementsNext(xs);
      ElementsCard(xs[..|xs| - 1]);
    }
  }

  lemma {:induction false} ElementsBound(xs: seq<int>)
    ensures |Elements(xs)| <= |xs|
    ensures forall x :: x in xs <==> x in Elements(xs)
  {
    if xs == [] {
      SameSet(Elements(xs), {});
    } else {
      var k := |xs| - 1;
      ElementsBound(xs[..k]);
      forall x
        ensures x in Elements(xs) <==> x in Elements(xs[..k]) + {xs[k]}
      {
        assert xs == xs[..k] + [xs[k]];
      }
      SameSet(Elements(xs), Elements(xs[..k]) + {xs[k]});
    }
  }
}
