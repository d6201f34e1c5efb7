/** Go's sort package as the models use it: stable sorting by a strict weak order, and the
    byte order of strings. */
module Ordering {

  // ---------------------------------------------------------------- strict weak orders

  /** Asymmetric, and incomparability is transitive: what sort.Slice demands of its callers. */
  ghost predicate StrictWeak<T(!new)>(less: (T, T) -> bool) {
    && (forall a, b :: less(a, b) ==> !less(b, a))
    && (forall a, b, c :: less(a, c) ==> less(a, b) || less(b, c))
  }

  ghost predicate Sorted<T>(less: (T, T) -> bool, s: seq<T>) {
    forall i, j :: 0 <= i < j < |s| ==> !less(s[j], s[i])
  }

  function Insert<T>(less: (T, T) -> bool, x: T, s: seq<T>): (r: seq<T>)
    ensures multiset(r) == multiset([x]) + multiset(s)
    ensures |r| == |s| + 1
  {
    if s == [] || !less(s[0], x) then [x] + s
    else
      assert s == [s[0]] + s[1..];
      [s[0]] + Insert(less, x, s[1..])
  }

  /** sort.SliceStable. */
  function SortBy<T>(less: (T, T) -> bool, s: seq<T>): (r: seq<T>)
    ensures multiset(r) == multiset(s)
    ensures |r| == |s|
  {
    if s == [] then [] else
      assert s == [s[0]] + s[1..];
      Insert(less, s[0], SortBy(less, s[1..]))
  }

  lemma {:induction false} SameMembers<T>(a: seq<T>, b: seq<T>)
    requires multiset(a) == multiset(b)
    ensures forall x :: x in a <==> x in b
  {
    forall x
      ensures x in a <==> x in b
    {
      assert x in multiset(a) <==> x in multiset(b);
    }
  }

  lemma {:induction false} InsertSorted<T(!new)>(less: (T, T) -> bool, x: T, s: seq<T>)
    requires StrictWeak(less) && Sorted(less, s)
    ensures Sorted(less, Insert(less, x, s))
  {
    var r := Insert(less, x, s);
    if s == [] {
    } else if !less(s[0], x) {
      forall i, j | 0 <= i < j < |r|
        ensures !less(r[j], r[i])
      {
        if i == 0 {
          var first, other := s[0], s[j - 1];
          assert less(other, x) ==> less(other, first) || less(first, x);
        }
      }
    } else {
      InsertSorted(less, x, s[1..]);
      var t := Insert(less, x, s[1..]);
      forall i, j | 0 <= i < j < |r|
        ensures !less(r[j], r[i])
      {
        if i == 0 {
          assert r[j] == t[j - 1];
          assert t[j - 1] in multiset(t);
          assert r[j] == x || r[j] in s[1..];
        }
      }
    }
  }

  lemma {:induction false} SortBySorted<T(!new)>(less: (T, T) -> bool, s: seq<T>)
    requires StrictWeak(less)
    ensures Sorted(less, SortBy(less, s))
  {
    if s != [] {
      SortBySorted(less, s[1..]);
      InsertSorted(less, s[0], SortBy(less, s[1..]));
    }
  }

  /** A stable sort leaves a sorted sequence alone. */
  lemma {:induction false} SortByIdempotent<T>(less: (T, T) -> bool, s: seq<T>)
    requires Sorted(less, s)
    ensures SortBy(less, s) == s
  {
    if s != [] {
      SortByIdempotent(less, s[1..]);
      assert 1 < |s| ==> !less(s[1], s[0]);
    }
  }

  lemma {:induction false} InsertAgree<T>(less: (T, T) -> bool, other: (T, T) -> bool, x: T, s: seq<T>)
    requires forall y :: y in s ==> less(y, x) == other(y, x)
    ensures Insert(less, x, s) == Insert(other, x, s)
  {
    if s != [] {
      InsertAgree(less, other, x, s[1..]);
      assert s[0] in s;
    }
  }

  lemma {:induction false} SortByMember<T>(less: (T, T) -> bool, s: seq<T>, x: T)
    requires x in SortBy(less, s)
    ensures x in s
  {
    assert x in multiset(SortBy(less, s));
  }

  /** Only comparisons of members matter to a sort. */
  lemma {:induction false} SortByAgree<T>(less: (T, T) -> bool, other: (T, T) -> bool, s: seq<T>)
    requires forall x, y :: x in s && y in s ==> less(x, y) == other(x, y)
    ensures SortBy(less, s) == SortBy(other, s)
  {
    if s != [] {
      SortByAgree(less, other, s[1..]);
      forall y | y in SortBy(less, s[1..])
        ensures less(y, s[0]) == other(y, s[0])
      {
        SortByMember(less, s[1..], y);
        assert y in s && s[0] in s;
      }
      InsertAgree(less, other, s[0], SortBy(less, s[1..]));
    }
  }

  ghost predicate Comparable<T>(less: (T, T) -> bool, s: seq<T>) {
    forall x, y :: x in s && y in s && x != y ==> less(x, y) || less(y, x)
  }

  lemma {:induction false} SameHead<T>(less: (T, T) -> bool, a: seq<T>, b: seq<T>)
    requires Sorted(less, a) && Sorted(less, b) && multiset(a) == multiset(b) && a != [] && b != []
    requires Comparable(less, a)
    ensures a[0] == b[0]
  {
    SameMembers(a, b);
    assert b[0] in a && a[0] in b;
    var i :| 0 <= i < |a| && a[i] == b[0];
    var j :| 0 <= j < |b| && b[j] == a[0];
    assert i == 0 || !less(a[i], a[0]);
    assert j == 0 || !less(b[j], b[0]);
  }

  lemma {:induction false} TailMultiset<T>(s: seq<T>)
    requires s != []
    ensures multiset(s) == multiset([s[0]]) + multiset(s[1..])
  {
    assert s == [s[0]] + s[1..];
  }

  lemma {:induction false} SameTails<T>(a: seq<T>, b: seq<T>)
    requires multiset(a) == multiset(b) && a != [] && b != [] && a[0] == b[0]
    ensures multiset(a[1..]) == multiset(b[1..])
  {
    TailMultiset(a);
    TailMultiset(b);
    assert multiset(a[1..]) == multiset(a) - multiset([a[0]]);
    assert multiset(b[1..]) == multiset(b) - multiset([b[0]]);
  }

  /** Where different elements are always comparable, the sorted arrangement is unique. */
  lemma {:induction false} SortedUnique<T>(less: (T, T) -> bool, a: seq<T>, b: seq<T>)
    requires Sorted(less, a) && Sorted(less, b) && multiset(a) == multiset(b)
    requires Comparable(less, a)
    ensures a == b
  {
    assert |multiset(a)| == |a| && |multiset(b)| == |b|;
    if a != [] {
      SameHead(less, a, b);
      SameTails(a, b);
      SortedUnique(less, a[1..], b[1..]);
      assert a == [a[0]] + a[1..] && b == [b[0]] + b[1..];
    }
  }

  // ---------------------------------------------------------------- strings

  predicate StringLess(a: string, b: string) {
    b != [] && (a == [] || a[0] < b[0] || (a[0] == b[0] && StringLess(a[1..], b[1..])))
  }

  lemma {:induction false} StringLessAsymmetric(a: string, b: string)
    requires StringLess(a, b)
    ensures !StringLess(b, a)
  {
    if a != [] && a[0] == b[0] {
      StringLessAsymmetric(a[1..], b[1..]);
    }
  }

  lemma {:induction false} StringLessIrreflexive(a: string)
    ensures !StringLess(a, a)
  {
    if StringLess(a, a) {
      StringLessAsymmetric(a, a);
    }
  }

  lemma {:induction false} StringLessWeak(a: string, b: string, c: string)
    requires StringLess(a, c)
    ensures StringLess(a, b) || StringLess(b, c)
  {
    if a != [] && b != [] && a[0] == b[0] == c[0] {
      StringLessWeak(a[1..], b[1..], c[1..]);
    }
  }

  lemma {:induction false} StringLessTotal(a: string, b: string)
    ensures a == b || StringLess(a, b) || StringLess(b, a)
  {
    if a != [] && b != [] && a[0] == b[0] {
      StringLessTotal(a[1..], b[1..]);
      assert a == [a[0]] + a[1..] && b == [b[0]] + b[1..];
    }
  }

  /** Strings in order, and what that says of one in between. */
  lemma {:induction false} StringBetween(a: string, b: string, c: string)
    ensures a == c && b != a ==> StringLess(a, b) || StringLess(b, c)
    ensures StringLess(a, c) ==> (a != b && StringLess(a, b)) || (b != c && StringLess(b, c))
  {
    StringLessTotal(a, b);
    if StringLess(a, c) {
      StringLessWeak(a, b, c);
      if a == b || b == c {
        StringLessAsymmetric(a, c);
      }
    }
  }
}
