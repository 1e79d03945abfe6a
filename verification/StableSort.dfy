/** Stable sorting by a total preorder, as `sorted` does it, and what determines its result. */
module StableSort {

  ghost predicate TotalPreorder<T(!new)>(le: (T, T) -> bool) {
    && (forall x :: le(x, x))
    && (forall x, y :: le(x, y) || le(y, x))
    && (forall x, y, z :: le(x, y) && le(y, z) ==> le(x, z))
  }

  ghost predicate TotalOrder<T(!new)>(le: (T, T) -> bool) {
    TotalPreorder(le) && forall x, y :: le(x, y) && le(y, x) ==> x == y
  }

  /** `x` goes in front of the first element it is not above. */
  function Insert<T>(x: T, s: seq<T>, le: (T, T) -> bool): seq<T> {
    if s == [] || le(x, s[0]) then [x] + s else [s[0]] + Insert(x, s[1..], le)
  }

  function Sort<T>(s: seq<T>, le: (T, T) -> bool): seq<T> {
    if s == [] then [] else Insert(s[0], Sort(s[1..], le), le)
  }

  ghost predicate Sorted<T>(s: seq<T>, le: (T, T) -> bool) {
    forall i, j :: 0 <= i < j < |s| ==> le(s[i], s[j])
  }

  /** The elements equivalent to `k`, in order. */
  function Class<T>(s: seq<T>, k: T, le: (T, T) -> bool): seq<T> {
    if s == [] then []
    else (if le(s[0], k) && le(k, s[0]) then [s[0]] else []) + Class(s[1..], k, le)
  }

  lemma {:induction false} ClassConcat<T>(a: seq<T>, b: seq<T>, k: T, le: (T, T) -> bool)
    ensures Class(a + b, k, le) == Class(a, k, le) + Class(b, k, le)
  {
    if a == [] {
      assert a + b == b;
    } else {
      assert (a + b)[1..] == a[1..] + b;
      ClassConcat(a[1..], b, k, le);
    }
  }

  lemma {:induction false} InsertPermutes<T>(x: T, s: seq<T>, le: (T, T) -> bool)
    ensures multiset(Insert(x, s, le)) == multiset(s) + multiset{x}
  {
    if s != [] && !le(x, s[0]) {
      InsertPermutes(x, s[1..], le);
      assert s == [s[0]] + s[1..];
    }
  }

  lemma {:induction false} SortPermutes<T>(s: seq<T>, le: (T, T) -> bool)
    ensures multiset(Sort(s, le)) == multiset(s)
    ensures |Sort(s, le)| == |s|
  {
    if s != [] {
      SortPermutes(s[1..], le);
      InsertPermutes(s[0], Sort(s[1..], le), le);
      assert s == [s[0]] + s[1..];
    }
    assert |multiset(Sort(s, le))| == |multiset(s)|;
  }

  lemma {:induction false} InsertSorts<T(!new)>(x: T, s: seq<T>, le: (T, T) -> bool)
    requires TotalPreorder(le) && Sorted(s, le)
    ensures Sorted(Insert(x, s, le), le)
  {
    if s == [] {
    } else if le(x, s[0]) {
      assert forall j :: 0 < j < |s| ==> le(s[0], s[j]);
    } else {
      InsertSorts(x, s[1..], le);
      var r := Insert(x, s[1..], le);
      InsertPermutes(x, s[1..], le);
      forall y | y in r
        ensures le(s[0], y)
      {
        assert y in multiset(r);
        assert y == x || y in s[1..];
      }
      assert forall j :: 0 <= j < |r| ==> r[j] in r;
    }
  }

  lemma {:induction false} SortSorts<T(!new)>(s: seq<T>, le: (T, T) -> bool)
    requires TotalPreorder(le)
    ensures Sorted(Sort(s, le), le)
  {
    if s != [] {
      SortSorts(s[1..], le);
      InsertSorts(s[0], Sort(s[1..], le), le);
    }
  }

  lemma {:induction false} InsertIsStable<T(!new)>(x: T, s: seq<T>, k: T, le: (T, T) -> bool)
    requires TotalPreorder(le) && Sorted(s, le)
    ensures Class(Insert(x, s, le), k, le) == Class([x] + s, k, le)
  {
    assert ([x] + s)[1..] == s;
    if s != [] && !le(x, s[0]) {
      InsertIsStable(x, s[1..], k, le);
      assert ([x] + s[1..])[1..] == s[1..];
      var r := Insert(x, s, le);
      assert r[1..] == Insert(x, s[1..], le);
    }
  }

  /** Equivalent elements keep their order. */
  lemma {:induction false} SortIsStable<T(!new)>(s: seq<T>, k: T, le: (T, T) -> bool)
    requires TotalPreorder(le)
    ensures Class(Sort(s, le), k, le) == Class(s, k, le)
  {
    if s != [] {
      SortIsStable(s[1..], k, le);
      SortSorts(s[1..], le);
      InsertIsStable(s[0], Sort(s[1..], le), k, le);
      assert ([s[0]] + Sort(s[1..], le))[1..] == Sort(s[1..], le);
    }
  }

  lemma {:induction false} ClassIsWithin<T>(s: seq<T>, k: T, le: (T, T) -> bool)
    ensures forall x :: x in Class(s, k, le) ==> x in s && le(x, k) && le(k, x)
    ensures forall x :: x in s && le(x, k) && le(k, x) ==> x in Class(s, k, le)
  {
    if s != [] {
      ClassIsWithin(s[1..], k, le);
      assert s == [s[0]] + s[1..];
    }
  }

  lemma ClassStart<T(!new)>(s: seq<T>, le: (T, T) -> bool)
    requires TotalPreorder(le) && s != []
    ensures Class(s, s[0], le) != [] && Class(s, s[0], le)[0] == s[0]
  {
  }

  ghost predicate SameClasses<T(!new)>(a: seq<T>, b: seq<T>, le: (T, T) -> bool) {
    forall k :: Class(a, k, le) == Class(b, k, le)
  }

  lemma SameHead<T(!new)>(a: seq<T>, b: seq<T>, le: (T, T) -> bool)
    requires TotalPreorder(le) && Sorted(a, le) && Sorted(b, le) && SameClasses(a, b, le)
    requires a != [] && b != []
    ensures a[0] == b[0]
  {
    ClassStart(a, le);
    ClassStart(b, le);
    ClassIsWithin(b, a[0], le);
    ClassIsWithin(a, b[0], le);
    assert a[0] in Class(b, a[0], le) && b[0] in Class(a, b[0], le);
    var i :| 0 <= i < |b| && b[i] == a[0];
    var j :| 0 <= j < |a| && a[j] == b[0];
    assert le(b[0], a[0]) && le(a[0], b[0]);
    assert Class(b, a[0], le)[0] == b[0];
  }

  /** A sorted sequence is determined by the order inside its classes. */
  lemma {:induction false} SortedIsDetermined<T(!new)>(a: seq<T>, b: seq<T>, le: (T, T) -> bool)
    requires TotalPreorder(le) && Sorted(a, le) && Sorted(b, le) && SameClasses(a, b, le)
    ensures a == b
  {
    if a == [] && b != [] {
      ClassStart(b, le);
    } else if a != [] && b == [] {
      ClassStart(a, le);
    } else if a != [] {
      SameHead(a, b, le);
      forall k
        ensures Class(a[1..], k, le) == Class(b[1..], k, le)
      {
        assert Class(a, k, le) == Class(b, k, le);
        var h := if le(a[0], k) && le(k, a[0]) then [a[0]] else [];
        assert Class(a, k, le)[|h|..] == Class(a[1..], k, le);
        assert Class(b, k, le)[|h|..] == Class(b[1..], k, le);
      }
      SortedIsDetermined(a[1..], b[1..], le);
    }
  }

  /** Sorting sees only the classes of what it is given. */
  lemma SortOfSameClasses<T(!new)>(a: seq<T>, b: seq<T>, le: (T, T) -> bool)
    requires TotalPreorder(le) && SameClasses(a, b, le)
    ensures Sort(a, le) == Sort(b, le)
  {
    forall k
      ensures Class(Sort(a, le), k, le) == Class(Sort(b, le), k, le)
    {
      SortIsStable(a, k, le);
      SortIsStable(b, k, le);
    }
    SortSorts(a, le);
    SortSorts(b, le);
    SortedIsDetermined(Sort(a, le), Sort(b, le), le);
  }

  /** With an antisymmetric order, a class is so many copies of its one element. */
  lemma {:induction false} ClassOfTotalOrder<T(!new)>(s: seq<T>, k: T, le: (T, T) -> bool)
    requires TotalOrder(le)
    ensures |Class(s, k, le)| == multiset(s)[k]
    ensures forall x :: x in Class(s, k, le) ==> x == k
  {
    if s != [] {
      ClassOfTotalOrder(s[1..], k, le);
      assert s == [s[0]] + s[1..];
    }
  }

  /** So permutations sort alike. */
  lemma SortOfPermutation<T(!new)>(a: seq<T>, b: seq<T>, le: (T, T) -> bool)
    requires TotalOrder(le) && multiset(a) == multiset(b)
    ensures Sort(a, le) == Sort(b, le)
  {
    forall k
      ensures Class(a, k, le) == Class(b, k, le)
    {
      ClassOfTotalOrder(a, k, le);
      ClassOfTotalOrder(b, k, le);
      assert forall i :: 0 <= i < |Class(a, k, le)| ==> Class(a, k, le)[i] in Class(a, k, le);
      assert forall i :: 0 <= i < |Class(b, k, le)| ==> Class(b, k, le)[i] in Class(b, k, le);
    }
    SortOfSameClasses(a, b, le);
  }
}
