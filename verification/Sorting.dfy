/** Stable sorting by a comparison that is given, as JavaScript's `sort` and Rust's `sort_by`. */
module Sorting {

  ghost predicate TotalOrder<T(!new)>(le: (T, T) -> bool) {
    && (forall a, b :: le(a, b) || le(b, a))
    && (forall a, b :: le(a, b) && le(b, a) ==> a == b)
    && (forall a, b, c :: le(a, b) && le(b, c) ==> le(a, c))
  }

  // A total preorder: what a comparison by some key gives.
  ghost predicate TotalPreorder<T(!new)>(le: (T, T) -> bool) {
    && (forall a, b :: le(a, b) || le(b, a))
    && (forall a, b, c :: le(a, b) && le(b, c) ==> le(a, c))
  }

  predicate Ordered<T>(s: seq<T>, le: (T, T) -> bool) {
    forall i, j :: 0 <= i < j < |s| ==> le(s[i], s[j])
  }

  // Before the first element that does not come strictly earlier.
  function Insert<T>(x: T, s: seq<T>, le: (T, T) -> bool): seq<T> {
    if s == [] || le(x, s[0]) then [x] + s else [s[0]] + Insert(x, s[1..], le)
  }

  function Sort<T>(s: seq<T>, le: (T, T) -> bool): seq<T> {
    if s == [] then [] else Insert(s[0], Sort(s[1..], le), le)
  }

  lemma {:induction false} InsertKeepsAll<T>(x: T, s: seq<T>, le: (T, T) -> bool)
    ensures multiset(Insert(x, s, le)) == multiset([x] + s)
  {
    if s != [] && !le(x, s[0]) {
      InsertKeepsAll(x, s[1..], le);
      assert s == [s[0]] + s[1..];
    }
  }

  lemma {:induction false} SortKeepsAll<T>(s: seq<T>, le: (T, T) -> bool)
    ensures multiset(Sort(s, le)) == multiset(s)
    ensures |Sort(s, le)| == |s|
    ensures forall x :: x in Sort(s, le) <==> x in s
  {
    if s != [] {
      SortKeepsAll(s[1..], le);
      InsertKeepsAll(s[0], Sort(s[1..], le), le);
      assert s == [s[0]] + s[1..];
      assert multiset([s[0]] + Sort(s[1..], le)) == multiset([s[0]]) + multiset(Sort(s[1..], le));
    }
    SameSize(Sort(s, le), s);
  }

  lemma SameSize<T>(a: seq<T>, b: seq<T>)
    requires multiset(a) == multiset(b)
    ensures |a| == |b| && forall x :: x in a <==> x in b
  {
    assert |multiset(a)| == |a| && |multiset(b)| == |b|;
    forall x ensures x in a <==> x in b {
      assert x in a <==> x in multiset(a);
      assert x in b <==> x in multiset(b);
    }
  }

  lemma {:induction false} InsertOrdered<T(!new)>(x: T, s: seq<T>, le: (T, T) -> bool)
    requires TotalPreorder(le) && Ordered(s, le)
    ensures Ordered(Insert(x, s, le), le)
  {
    if s != [] && !le(x, s[0]) {
      InsertOrdered(x, s[1..], le);
      var r := Insert(x, s[1..], le);
      InsertKeepsAll(x, s[1..], le);
      SameSize(r, [x] + s[1..]);
      forall y | y in r ensures le(s[0], y) {
        if y != x {
          assert y in s[1..];
        }
      }
    }
  }

  lemma {:induction false} SortOrdered<T(!new)>(s: seq<T>, le: (T, T) -> bool)
    requires TotalPreorder(le)
    ensures Ordered(Sort(s, le), le)
  {
    if s != [] {
      SortOrdered(s[1..], le);
      InsertOrdered(s[0], Sort(s[1..], le), le);
    }
  }

  /** The elements that compare equal to `x`, in order. */
  function Ties<T>(s: seq<T>, le: (T, T) -> bool, x: T): seq<T> {
    if s == [] then [] else (if le(x, s[0]) && le(s[0], x) then [s[0]] else []) + Ties(s[1..], le, x)
  }

  lemma {:induction false} InsertStable<T(!new)>(y: T, s: seq<T>, le: (T, T) -> bool, x: T)
    requires TotalPreorder(le)
    ensures Ties(Insert(y, s, le), le, x) == Ties([y], le, x) + Ties(s, le, x)
  {
    assert [y][1..] == [];
    if s == [] || le(y, s[0]) {
      assert ([y] + s)[1..] == s;
    } else {
      InsertStable(y, s[1..], le, x);
      assert Insert(y, s, le)[1..] == Insert(y, s[1..], le);
    }
  }

  /** Elements that compare equal keep their order. */
  lemma {:induction false} SortStable<T(!new)>(s: seq<T>, le: (T, T) -> bool, x: T)
    requires TotalPreorder(le)
    ensures Ties(Sort(s, le), le, x) == Ties(s, le, x)
  {
    if s != [] {
      SortStable(s[1..], le, x);
      InsertStable(s[0], Sort(s[1..], le), le, x);
      assert [s[0]][1..] == [];
    }
  }

  predicate NoDup<T(==)>(s: seq<T>) {
    forall i, j :: 0 <= i < j < |s| ==> s[i] != s[j]
  }

  lemma NoDupOfMultiset<T>(s: seq<T>)
    ensures NoDup(s) <==> forall x :: multiset(s)[x] <= 1
  {
    if NoDup(s) {
      forall x ensures multiset(s)[x] <= 1 { CountOne(s, x); }
    } else {
      var i, j :| 0 <= i < j < |s| && s[i] == s[j];
      assert s == s[..j] + [s[j]] + s[j + 1..];
      var x := s[j];
      assert s[..j][i] == x;
      assert multiset(s[..j])[x] >= 1 && multiset([x])[x] == 1;
      assert multiset(s) == multiset(s[..j]) + multiset([s[j]]) + multiset(s[j + 1..]);
      assert multiset(s)[x] >= 2;
    }
  }

  lemma {:induction false} CountOne<T>(s: seq<T>, x: T)
    requires NoDup(s)
    ensures multiset(s)[x] <= 1
  {
    if s != [] {
      var m := |s| - 1;
      CountOne(s[..m], x);
      assert s == s[..m] + [s[m]];
      if s[m] == x {
        assert x !in s[..m];
        assert multiset(s[..m])[x] == 0;
      }
    }
  }

  lemma SortNoDup<T>(s: seq<T>, le: (T, T) -> bool)
    requires NoDup(s)
    ensures NoDup(Sort(s, le))
  {
    SortKeepsAll(s, le);
    NoDupOfMultiset(s);
    NoDupOfMultiset(Sort(s, le));
  }

  lemma HasMember<T>(s: seq<T>)
    ensures s == [] || exists x :: x in s
  {
    if s != [] {
      assert s[0] in s;
    }
  }

  /** A set has one ordered listing. */
  lemma {:induction false} OrderedListingUnique<T(!new)>(a: seq<T>, b: seq<T>, le: (T, T) -> bool)
    requires Ordered(a, le) && Ordered(b, le) && NoDup(a) && NoDup(b)
    requires forall x :: x in a <==> x in b
    requires forall x, y :: x in a && y in a && le(x, y) && le(y, x) ==> x == y
    ensures a == b
    decreases |a|
  {
    HasMember(b);
    if a != [] {
      assert a[0] in b && b != [];
      assert b[0] in a;
      assert a[0] == b[0] by {
        var j :| 0 <= j < |b| && b[j] == a[0];
        var i :| 0 <= i < |a| && a[i] == b[0];
      }
      forall x ensures x in a[1..] <==> x in b[1..] {
        assert x in a <==> x == a[0] || x in a[1..];
        assert x in b <==> x == b[0] || x in b[1..];
      }
      OrderedListingUnique(a[1..], b[1..], le);
    }
  }
}
