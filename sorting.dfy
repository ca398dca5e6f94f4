/** The sort both Python programs rely on (`sorted(...)`, `list.sort()`),
    written as an insertion sort by a comparison `le`. Python's sort is stable
    and so is this one: an element is placed after every element it is not
    smaller than. */
module Sorting {

  /** `le` is total and transitive, as Python's `<=` is on strings and on
      (number, string) tuples. */
  ghost predicate IsTotalPreorder<T(!new)>(le: (T, T) -> bool) {
    && (forall a, b :: le(a, b) || le(b, a))
    && (forall a, b, c :: le(a, b) && le(b, c) ==> le(a, c))
  }

  /** `le` never holds both ways between two different values. */
  ghost predicate IsAntisymmetric<T(!new)>(le: (T, T) -> bool) {
    forall a, b :: le(a, b) && le(b, a) ==> a == b
  }

  predicate SortedBy<T>(s: seq<T>, le: (T, T) -> bool) {
    forall i, j :: 0 <= i < j < |s| ==> le(s[i], s[j])
  }

  /** `t` with `x` placed before its first element strictly greater than `x`. */
  function Insert<T>(t: seq<T>, x: T, le: (T, T) -> bool): (r: seq<T>)
    ensures multiset(r) == multiset(t) + multiset{x}
  {
    if t == [] then [x]
    else if !le(t[0], x) then [x] + t
    else
      assert t == [t[0]] + t[1..];
      [t[0]] + Insert(t[1..], x, le)
  }

  function Sort<T>(s: seq<T>, le: (T, T) -> bool): (r: seq<T>)
    ensures multiset(r) == multiset(s)
  {
    if s == [] then []
    else
      assert s == s[..|s| - 1] + [s[|s| - 1]];
      Insert(Sort(s[..|s| - 1], le), s[|s| - 1], le)
  }

  lemma {:induction false} InsertSorted<T(!new)>(t: seq<T>, x: T, le: (T, T) -> bool)
    requires IsTotalPreorder(le) && SortedBy(t, le)
    ensures SortedBy(Insert(t, x, le), le)
  {
    if t != [] {
      if !le(t[0], x) {
        assert le(x, t[0]);
      } else {
        var rest := Insert(t[1..], x, le);
        InsertSorted(t[1..], x, le);
        HeadBelowInserted(t, x, le);
        ConsSorted(t[0], rest, le);
      }
    }
  }

  /** Every element of `Insert(t, x, le)` is `x` or an element of `t`. */
  lemma InsertMember<T>(t: seq<T>, x: T, le: (T, T) -> bool, y: T)
    requires y in Insert(t, x, le)
    ensures y == x || y in t
  {
    assert y in multiset(Insert(t, x, le));
  }

  /** The head of a sorted `t` not above `x` is below everything `x` is
      inserted into after it. */
  lemma HeadBelowInserted<T(!new)>(t: seq<T>, x: T, le: (T, T) -> bool)
    requires t != [] && le(t[0], x) && SortedBy(t, le)
    ensures forall k :: 0 <= k < |Insert(t[1..], x, le)| ==> le(t[0], Insert(t[1..], x, le)[k])
  {
    var rest := Insert(t[1..], x, le);
    forall k | 0 <= k < |rest|
      ensures le(t[0], rest[k])
    {
      InsertMember(t[1..], x, le, rest[k]);
      if rest[k] != x {
        var j :| 0 <= j < |t[1..]| && t[1..][j] == rest[k];
        assert t[j + 1] == rest[k];
      }
    }
  }

  /** A sorted sequence below a head that is not above any of it. */
  lemma ConsSorted<T>(h: T, rest: seq<T>, le: (T, T) -> bool)
    requires SortedBy(rest, le) && forall k :: 0 <= k < |rest| ==> le(h, rest[k])
    ensures SortedBy([h] + rest, le)
  {
    var r := [h] + rest;
    forall i, j | 0 <= i < j < |r|
      ensures le(r[i], r[j])
    {
      if i == 0 {
        assert r[j] == rest[j - 1];
      } else {
        assert r[i] == rest[i - 1] && r[j] == rest[j - 1];
      }
    }
  }

  /** An element that does not go before the head is inserted into the tail. */
  lemma InsertBehindHead<T>(t: seq<T>, x: T, le: (T, T) -> bool)
    requires t != [] && le(t[0], x)
    ensures Insert(t, x, le) == [t[0]] + Insert(t[1..], x, le)
  {
  }

  /** The tail of a sorted sequence is sorted. */
  lemma SortedTail<T>(t: seq<T>, le: (T, T) -> bool)
    requires t != [] && SortedBy(t, le)
    ensures SortedBy(t[1..], le)
  {
    forall i, j | 0 <= i < j < |t[1..]| ensures le(t[1..][i], t[1..][j]) {
      assert t[1..][i] == t[i + 1] && t[1..][j] == t[j + 1];
    }
  }

  /** The result of `Sort` is sorted and, by its contract, a permutation. */
  lemma {:induction false} SortSorted<T(!new)>(s: seq<T>, le: (T, T) -> bool)
    requires IsTotalPreorder(le)
    ensures SortedBy(Sort(s, le), le)
  {
    if s != [] {
      SortSorted(s[..|s| - 1], le);
      InsertSorted(Sort(s[..|s| - 1], le), s[|s| - 1], le);
    }
  }

  /** Under an antisymmetric order there is only one sorted arrangement of a
      multiset: two sorted sequences with the same elements are equal. */
  lemma {:induction false} SortedUnique<T(!new)>(a: seq<T>, b: seq<T>, le: (T, T) -> bool)
    requires IsAntisymmetric(le)
    requires SortedBy(a, le) && SortedBy(b, le) && multiset(a) == multiset(b)
    ensures a == b
  {
    assert |a| == |b| by {
      assert |multiset(a)| == |a| && |multiset(b)| == |b|;
    }
    if a != [] {
      SameHead(a, b, le);
      SameTail(a, b);
      SortedUnique(a[1..], b[1..], le);
      assert a == [a[0]] + a[1..] && b == [b[0]] + b[1..];
    }
  }

  /** Two sorted arrangements of one non-empty multiset start alike. */
  lemma SameHead<T(!new)>(a: seq<T>, b: seq<T>, le: (T, T) -> bool)
    requires IsAntisymmetric(le) && a != [] && b != []
    requires SortedBy(a, le) && SortedBy(b, le) && multiset(a) == multiset(b)
    ensures a[0] == b[0]
  {
    assert a[0] in multiset(b) && b[0] in multiset(a);
    var i :| 0 <= i < |b| && b[i] == a[0];
    var j :| 0 <= j < |a| && a[j] == b[0];
    if i != 0 && j != 0 {
      assert le(b[0], b[i]) && le(a[0], a[j]);
    }
  }

  /** Dropping equal heads keeps the multisets equal. */
  lemma SameTail<T>(a: seq<T>, b: seq<T>)
    requires a != [] && b != [] && a[0] == b[0] && multiset(a) == multiset(b)
    ensures multiset(a[1..]) == multiset(b[1..])
  {
    assert a == [a[0]] + a[1..] && b == [b[0]] + b[1..];
    assert multiset(a) == multiset{a[0]} + multiset(a[1..]);
    assert multiset(b) == multiset{a[0]} + multiset(b[1..]);
    assert multiset(a[1..]) == multiset(a) - multiset{a[0]};
    assert multiset(b[1..]) == multiset(b) - multiset{a[0]};
  }
}
