/** Stable sorting by a strict weak order, as slices.Sort and Array.prototype.sort promise it. */
module Sorting {

  /** `lt` orders `T` up to ties: asymmetric, and whatever lies between is comparable to one end. */
  ghost predicate WeakOrder<T(!new)>(lt: (T, T) -> bool) {
    && (forall a, b :: lt(a, b) ==> !lt(b, a))
    && (forall a, b, c :: lt(a, c) ==> lt(a, b) || lt(b, c))
  }

  ghost predicate Sorted<T>(s: seq<T>, lt: (T, T) -> bool) {
    forall i, j :: 0 <= i < j < |s| ==> !lt(s[j], s[i])
  }

  /** Sorted without ties. */
  ghost predicate StrictlySorted<T>(s: seq<T>, lt: (T, T) -> bool) {
    forall i, j :: 0 <= i < j < |s| ==> lt(s[i], s[j])
  }

  /** Puts `x` behind every element it does not precede. */
  function Insert<T>(x: T, s: seq<T>, lt: (T, T) -> bool): (r: seq<T>)
    ensures multiset(r) == multiset(s) + multiset{x}
  {
    if s == [] then [x]
    else
      var front, last := s[..|s| - 1], s[|s| - 1];
      assert s == front + [last];
      if lt(x, last) then Insert(x, front, lt) + [last] else s + [x]
  }

  function Sort<T>(s: seq<T>, lt: (T, T) -> bool): (r: seq<T>)
    ensures multiset(r) == multiset(s)
    ensures |r| == |s|
  {
    if s == [] then []
    else
      var r := Insert(s[|s| - 1], Sort(s[..|s| - 1], lt), lt);
      assert s == s[..|s| - 1] + [s[|s| - 1]];
      assert |r| == |multiset(r)|;
      r
  }

  lemma SameElements<T>(a: seq<T>, b: seq<T>)
    requires multiset(a) == multiset(b)
    ensures |a| == |b|
    ensures forall x | x in a :: x in b
    ensures forall x | x in b :: x in a
  {
    assert |a| == |multiset(a)| && |b| == |multiset(b)|;
    forall x | x in a ensures x in b { assert x in multiset(b); }
    forall x | x in b ensures x in a { assert x in multiset(a); }
  }

  lemma {:induction false} InsertSorted<T(!new)>(x: T, s: seq<T>, lt: (T, T) -> bool)
    requires WeakOrder(lt) && Sorted(s, lt)
    ensures Sorted(Insert(x, s, lt), lt)
  {
    if s != [] && lt(x, s[|s| - 1]) {
      var front, last := s[..|s| - 1], s[|s| - 1];
      InsertSorted(x, front, lt);
      var r := Insert(x, front, lt);
      forall y | y in r ensures !lt(last, y) {
        assert y in multiset(r);
        if y != x {
          assert y in multiset(front);
          assert y in front;
        }
      }
    } else if s != [] {
      var last := s[|s| - 1];
      forall y | y in s ensures !lt(x, y) {
        assert !lt(last, y);
      }
    }
  }

  lemma {:induction false} SortSorts<T(!new)>(s: seq<T>, lt: (T, T) -> bool)
    requires WeakOrder(lt)
    ensures Sorted(Sort(s, lt), lt)
  {
    if s != [] {
      SortSorts(s[..|s| - 1], lt);
      InsertSorted(s[|s| - 1], Sort(s[..|s| - 1], lt), lt);
    }
  }

  /** Stability's simplest consequence: sorting what is already sorted moves nothing, not even ties. */
  lemma {:induction false} SortOfSorted<T>(s: seq<T>, lt: (T, T) -> bool)
    requires Sorted(s, lt)
    ensures Sort(s, lt) == s
  {
    if s != [] {
      var front, last := s[..|s| - 1], s[|s| - 1];
      SortOfSorted(front, lt);
      assert s == front + [last];
    }
  }

  /** A tie-free order leaves one way to arrange a set of elements. */
  lemma {:induction false} StrictlySortedUnique<T(!new)>(a: seq<T>, b: seq<T>, lt: (T, T) -> bool)
    requires WeakOrder(lt) && StrictlySorted(a, lt) && StrictlySorted(b, lt)
    requires forall x :: x in a <==> x in b
    ensures a == b
  {
    assert a == [] <==> b == [] by {
      if a != [] { assert a[0] in b; }
      if b != [] { assert b[0] in a; }
    }
    if a != [] {
      LastIsGreatest(a, b, lt);
      var fa, fb := a[..|a| - 1], b[..|b| - 1];
      assert a == fa + [a[|a| - 1]] && b == fb + [b[|b| - 1]];
      forall x ensures x in fa <==> x in fb {
        LastIsNew(a, lt);
        LastIsNew(b, lt);
        assert x in a <==> x in fa || x == a[|a| - 1];
        assert x in b <==> x in fb || x == b[|b| - 1];
      }
      StrictlySortedUnique(fa, fb, lt);
    }
  }

  lemma LastIsNew<T(!new)>(a: seq<T>, lt: (T, T) -> bool)
    requires WeakOrder(lt) && StrictlySorted(a, lt) && a != []
    ensures a[|a| - 1] !in a[..|a| - 1]
  {
    forall i | 0 <= i < |a| - 1 ensures a[i] != a[|a| - 1] {
      assert lt(a[i], a[|a| - 1]);
    }
  }

  lemma LastIsGreatest<T(!new)>(a: seq<T>, b: seq<T>, lt: (T, T) -> bool)
    requires WeakOrder(lt) && StrictlySorted(a, lt) && StrictlySorted(b, lt)
    requires a != [] && b != [] && forall x :: x in a <==> x in b
    ensures a[|a| - 1] == b[|b| - 1]
  {
    var x, y := a[|a| - 1], b[|b| - 1];
    assert x in b && y in a;
    var i :| 0 <= i < |b| && b[i] == x;
    var j :| 0 <= j < |a| && a[j] == y;
    assert x == y || lt(x, y);
    assert x == y || lt(y, x);
  }

  lemma SortedWithoutTies<T(!new)>(s: seq<T>, lt: (T, T) -> bool)
    requires WeakOrder(lt) && Sorted(s, lt)
    requires forall i, j :: 0 <= i < j < |s| ==> lt(s[i], s[j]) || lt(s[j], s[i])
    ensures StrictlySorted(s, lt)
  {
  }

  // ---------------------------------------------------------------- stability

  /** Some `x` stands before some `y`. */
  ghost predicate Ahead<T(!new)>(s: seq<T>, x: T, y: T) {
    exists i, j :: 0 <= i < j < |s| && s[i] == x && s[j] == y
  }

  lemma AheadAppend<T(!new)>(s: seq<T>, z: T, x: T, y: T)
    ensures Ahead(s + [z], x, y) <==> Ahead(s, x, y) || (x in s && y == z)
  {
    var r := s + [z];
    if Ahead(r, x, y) {
      var i, j :| 0 <= i < j < |r| && r[i] == x && r[j] == y;
      assert s[i] == x;
    }
    if Ahead(s, x, y) {
      var i, j :| 0 <= i < j < |s| && s[i] == x && s[j] == y;
      assert r[i] == x && r[j] == y;
    }
    if x in s && y == z {
      var i :| 0 <= i < |s| && s[i] == x;
      assert r[i] == x && r[|s|] == y;
    }
  }

  lemma InsertMembers<T(!new)>(z: T, s: seq<T>, lt: (T, T) -> bool)
    ensures forall x :: x in Insert(z, s, lt) <==> x == z || x in s
  {
    forall x ensures x in Insert(z, s, lt) <==> x == z || x in s {
      assert x in Insert(z, s, lt) <==> x in multiset(Insert(z, s, lt));
    }
  }

  /** Inserting keeps every order there was, and puts the new element behind those it does not precede. */
  lemma {:induction false} InsertOrder<T(!new)>(z: T, s: seq<T>, lt: (T, T) -> bool, x: T, y: T)
    ensures Ahead(s, x, y) ==> Ahead(Insert(z, s, lt), x, y)
    ensures WeakOrder(lt) && Sorted(s, lt) && x in s && !lt(z, x) ==> Ahead(Insert(z, s, lt), x, z)
  {
    if s == [] {
    } else {
      var front, last := s[..|s| - 1], s[|s| - 1];
      assert s == front + [last];
      if lt(z, last) {
        InsertOrder(z, front, lt, x, y);
        InsertMembers(z, front, lt);
        AheadAppend(front, last, x, y);
        AheadAppend(Insert(z, front, lt), last, x, y);
        AheadAppend(Insert(z, front, lt), last, x, z);
      } else {
        AheadAppend(s, z, x, y);
        AheadAppend(s, z, x, z);
      }
    }
  }

  /** Sorting is stable: what stood ahead of something that must not precede it still does. */
  lemma {:induction false} SortIsStable<T(!new)>(s: seq<T>, lt: (T, T) -> bool, x: T, y: T)
    requires WeakOrder(lt) && Ahead(s, x, y) && !lt(y, x)
    ensures Ahead(Sort(s, lt), x, y)
  {
    hide Insert;
    var front, last := s[..|s| - 1], s[|s| - 1];
    assert s == front + [last];
    AheadAppend(front, last, x, y);
    InsertOrder(last, Sort(front, lt), lt, x, y);
    if Ahead(front, x, y) {
      SortIsStable(front, lt, x, y);
    } else {
      SortSorts(front, lt);
      SameElements(Sort(front, lt), front);
    }
  }

  ghost predicate Distinct<T>(s: seq<T>) {
    forall i, j :: 0 <= i < j < |s| ==> s[i] != s[j]
  }

  lemma LastLeadsNone<T(!new)>(s: seq<T>, y: T)
    requires Distinct(s) && s != []
    ensures !Ahead(s, s[|s| - 1], y)
  {
  }

  /** Lists of the same distinct elements in the same order are equal. */
  lemma {:induction false} SameOrder<T(!new)>(a: seq<T>, b: seq<T>)
    requires Distinct(a) && Distinct(b)
    requires forall x :: x in a <==> x in b
    requires forall x, y :: Ahead(a, x, y) <==> Ahead(b, x, y)
    ensures a == b
  {
    assert a == [] <==> b == [] by {
      if a != [] { assert a[0] in b; }
      if b != [] { assert b[0] in a; }
    }
    if a != [] {
      var fa, fb, la, lb := a[..|a| - 1], b[..|b| - 1], a[|a| - 1], b[|b| - 1];
      assert a == fa + [la] && b == fb + [lb];
      assert la in b;
      LastLeadsNone(a, lb);
      AheadAppend(fb, lb, la, lb);
      forall x ensures x in fa <==> x in fb {
        assert x in a <==> x in fa || x == la;
        assert x in b <==> x in fb || x == lb;
      }
      forall x, y ensures Ahead(fa, x, y) <==> Ahead(fb, x, y) {
        AheadAppend(fa, la, x, y);
        AheadAppend(fb, lb, x, y);
      }
      SameOrder(fa, fb);
    }
  }
}
