/** Stable sorting by a comparison, the order of strings, and when sorting forgets the order it started from. */
module Sorting {

  /** What a comparison must be for sorting to mean anything: a strict weak order. */
  ghost predicate WeakOrder<T(!new)>(less: (T, T) -> bool)
  {
    && (forall a, b :: less(a, b) ==> !less(b, a))
    && (forall a, b, c :: less(a, c) ==> less(a, b) || less(b, c))
  }

  predicate Ordered<T>(less: (T, T) -> bool, s: seq<T>)
  {
    forall i, j :: 0 <= i < j < |s| ==> !less(s[j], s[i])
  }

  /** Puts x behind everything it is not less than. */
  function Insert<T>(less: (T, T) -> bool, x: T, s: seq<T>): (r: seq<T>)
    ensures |r| == |s| + 1
  {
    if s == [] || !less(x, s[|s| - 1]) then s + [x] else Insert(less, x, s[..|s| - 1]) + [s[|s| - 1]]
  }

  /** The stable sort of s. */
  function Sort<T>(less: (T, T) -> bool, s: seq<T>): (r: seq<T>)
    ensures |r| == |s|
  {
    if s == [] then [] else Insert(less, s[|s| - 1], Sort(less, s[..|s| - 1]))
  }

  lemma {:induction false} InsertElements<T>(less: (T, T) -> bool, x: T, s: seq<T>)
    ensures multiset(Insert(less, x, s)) == multiset(s) + multiset{x}
  {
    if s != [] && less(x, s[|s| - 1]) {
      InsertElements(less, x, s[..|s| - 1]);
      assert s == s[..|s| - 1] + [s[|s| - 1]];
    }
  }

  lemma InsertMembers<T>(less: (T, T) -> bool, x: T, s: seq<T>)
    ensures forall y :: y in Insert(less, x, s) <==> y == x || y in s
  {
    InsertElements(less, x, s);
    forall y
      ensures y in Insert(less, x, s) <==> y == x || y in s
    {
      assert y in Insert(less, x, s) <==> y in multiset(Insert(less, x, s));
      assert y in s <==> y in multiset(s);
    }
  }

  lemma NotLessThrough<T(!new)>(less: (T, T) -> bool, a: T, b: T, c: T)
    requires WeakOrder(less) && !less(a, b) && !less(b, c)
    ensures !less(a, c)
  {
  }

  lemma {:induction false} InsertOrdered<T(!new)>(less: (T, T) -> bool, x: T, s: seq<T>)
    requires WeakOrder(less) && Ordered(less, s)
    ensures Ordered(less, Insert(less, x, s))
  {
    if s == [] {
    } else if !less(x, s[|s| - 1]) {
      forall i | 0 <= i < |s|
        ensures !less(x, s[i])
      {
        NotLessThrough(less, x, s[|s| - 1], s[i]);
      }
    } else {
      var front, last := s[..|s| - 1], s[|s| - 1];
      InsertOrdered(less, x, front);
      InsertMembers(less, x, front);
      var r := Insert(less, x, front);
      forall i | 0 <= i < |r|
        ensures !less(last, r[i])
      {
        assert r[i] in r;
        if r[i] != x {
          var j :| 0 <= j < |front| && front[j] == r[i];
          assert s[j] == r[i];
        }
      }
    }
  }

  /** Sorting permutes and orders. */
  lemma {:induction false} SortSorts<T(!new)>(less: (T, T) -> bool, s: seq<T>)
    requires WeakOrder(less)
    ensures Ordered(less, Sort(less, s)) && multiset(Sort(less, s)) == multiset(s)
  {
    if s != [] {
      var front := s[..|s| - 1];
      SortSorts(less, front);
      InsertOrdered(less, s[|s| - 1], Sort(less, front));
      InsertElements(less, s[|s| - 1], Sort(less, front));
      assert s == front + [s[|s| - 1]];
    }
  }

  lemma SortMembers<T(!new)>(less: (T, T) -> bool, s: seq<T>)
    requires WeakOrder(less)
    ensures forall y :: y in Sort(less, s) <==> y in s
  {
    SortSorts(less, s);
    forall y
      ensures y in Sort(less, s) <==> y in s
    {
      assert y in Sort(less, s) <==> y in multiset(Sort(less, s));
      assert y in s <==> y in multiset(s);
    }
  }

  // --- what is alike keeps its order ---

  /** The elements of s that are neither before nor behind x, in their order. */
  function AlikeIn<T>(less: (T, T) -> bool, x: T, s: seq<T>): seq<T>
  {
    if s == [] then []
    else
      AlikeIn(less, x, s[..|s| - 1])
      + if !less(x, s[|s| - 1]) && !less(s[|s| - 1], x) then [s[|s| - 1]] else []
  }

  lemma AlikeSnoc<T>(less: (T, T) -> bool, x: T, s: seq<T>, last: T)
    ensures AlikeIn(less, x, s + [last])
            == AlikeIn(less, x, s) + if !less(x, last) && !less(last, x) then [last] else []
  {
    assert (s + [last])[..|s|] == s;
  }

  lemma {:induction false} InsertKeepsAlike<T(!new)>(less: (T, T) -> bool, x: T, y: T, s: seq<T>)
    requires WeakOrder(less)
    ensures AlikeIn(less, y, Insert(less, x, s))
            == AlikeIn(less, y, s) + if !less(y, x) && !less(x, y) then [x] else []
  {
    if s == [] || !less(x, s[|s| - 1]) {
      AlikeSnoc(less, y, s, x);
    } else {
      var front, last := s[..|s| - 1], s[|s| - 1];
      InsertKeepsAlike(less, x, y, front);
      AlikeSnoc(less, y, Insert(less, x, front), last);
      assert less(x, last) ==> less(x, y) || less(y, last);
    }
  }

  /** Sorting leaves the order among elements that compare alike as it was. */
  lemma {:induction false} SortIsStable<T(!new)>(less: (T, T) -> bool, y: T, s: seq<T>)
    requires WeakOrder(less)
    ensures AlikeIn(less, y, Sort(less, s)) == AlikeIn(less, y, s)
  {
    hide Insert;
    if s != [] {
      SortIsStable(less, y, s[..|s| - 1]);
      InsertKeepsAlike(less, s[|s| - 1], y, Sort(less, s[..|s| - 1]));
    }
  }

  /** Any two different elements of s are told apart by the comparison. */
  predicate Comparable<T(==)>(less: (T, T) -> bool, s: seq<T>)
  {
    forall i, j :: 0 <= i < |s| && 0 <= j < |s| && s[i] != s[j] ==> less(s[i], s[j]) || less(s[j], s[i])
  }

  lemma SameLength<T>(s: seq<T>, t: seq<T>)
    requires multiset(s) == multiset(t)
    ensures |s| == |t|
  {
    assert |s| == |multiset(s)| && |t| == |multiset(t)|;
  }

  lemma DropFirst<T>(s: seq<T>)
    requires s != []
    ensures multiset(s[1..]) == multiset(s) - multiset{s[0]}
  {
    assert s == [s[0]] + s[1..];
  }

  lemma SameFirst<T>(less: (T, T) -> bool, s: seq<T>, t: seq<T>)
    requires Ordered(less, s) && Ordered(less, t) && multiset(s) == multiset(t) && Comparable(less, s)
    requires s != [] && t != []
    ensures s[0] == t[0]
  {
    var x, y := s[0], t[0];
    assert y in multiset(s) && x in multiset(t);
    var i :| 0 <= i < |s| && s[i] == y;
    var j :| 0 <= j < |t| && t[j] == x;
  }

  lemma TailOrdered<T>(less: (T, T) -> bool, s: seq<T>)
    requires s != [] && Ordered(less, s)
    ensures Ordered(less, s[1..])
  {
  }

  lemma TailComparable<T>(less: (T, T) -> bool, s: seq<T>)
    requires s != [] && Comparable(less, s)
    ensures Comparable(less, s[1..])
  {
  }

  /** There is one ordered arrangement of elements the comparison tells apart. */
  lemma {:induction false} OrderedUnique<T>(less: (T, T) -> bool, s: seq<T>, t: seq<T>)
    requires Ordered(less, s) && Ordered(less, t) && multiset(s) == multiset(t) && Comparable(less, s)
    ensures s == t
  {
    SameLength(s, t);
    if s != [] {
      SameFirst(less, s, t);
      DropFirst(s);
      DropFirst(t);
      TailOrdered(less, s);
      TailOrdered(less, t);
      TailComparable(less, s);
      hide Ordered, Comparable;
      OrderedUnique(less, s[1..], t[1..]);
      assert s == [s[0]] + s[1..] && t == [t[0]] + t[1..];
    }
  }

  /** The result of sorting depends only on the elements, when the comparison tells them apart. */
  lemma SortCanonical<T(!new)>(less: (T, T) -> bool, s: seq<T>, t: seq<T>)
    requires WeakOrder(less) && multiset(s) == multiset(t) && Comparable(less, s)
    ensures Sort(less, s) == Sort(less, t)
  {
    SortSorts(less, s);
    SortSorts(less, t);
    var r := Sort(less, s);
    SortMembers(less, s);
    forall i, j | 0 <= i < |r| && 0 <= j < |r| && r[i] != r[j]
      ensures less(r[i], r[j]) || less(r[j], r[i])
    {
      assert r[i] in s && r[j] in s;
    }
    OrderedUnique(less, r, Sort(less, t));
  }

  // --- strings ---

  /** Byte order of strings. */
  predicate StringLess(a: string, b: string)
  {
    if b == "" then false
    else if a == "" then true
    else a[0] < b[0] || (a[0] == b[0] && StringLess(a[1..], b[1..]))
  }

  lemma {:induction false} StringOrder(a: string, b: string, c: string)
    ensures StringLess(a, b) ==> !StringLess(b, a)
    ensures StringLess(a, c) ==> StringLess(a, b) || StringLess(b, c)
  {
    if a != "" && b != "" {
      StringOrder(a[1..], b[1..], if c == "" then "" else c[1..]);
    }
  }

  lemma {:induction false} StringTotal(a: string, b: string)
    ensures a == b || StringLess(a, b) || StringLess(b, a)
  {
    if a != "" && b != "" {
      StringTotal(a[1..], b[1..]);
      assert a == [a[0]] + a[1..] && b == [b[0]] + b[1..];
    }
  }

  /** a is before b: it runs out first, or its first differing character is smaller. */
  predicate Alphabetical(a: string, b: string)
  {
    exists k :: 0 <= k <= |a| && k <= |b| && a[..k] == b[..k] && k < |b| && (k == |a| || a[k] < b[k])
  }

  lemma AlphabeticalTail(a: string, b: string)
    requires a != "" && b != "" && a[0] == b[0] && Alphabetical(a[1..], b[1..])
    ensures Alphabetical(a, b)
  {
    var s, t := a[1..], b[1..];
    var k :| 0 <= k <= |s| && k <= |t| && s[..k] == t[..k] && k < |t| && (k == |s| || s[k] < t[k]);
    assert a[..k + 1] == [a[0]] + s[..k] && b[..k + 1] == [b[0]] + t[..k];
    assert k + 1 == |a| || a[k + 1] < b[k + 1];
  }

  lemma {:induction false} LessIsAlphabetical(a: string, b: string)
    requires StringLess(a, b)
    ensures Alphabetical(a, b)
  {
    if a == "" || a[0] < b[0] {
      assert a[..0] == b[..0];
    } else {
      LessIsAlphabetical(a[1..], b[1..]);
      AlphabeticalTail(a, b);
    }
  }
}
