/**
 Stable sorting, the meaning of Python's `list.sort`: the result is ordered and
 elements that compare equal keep their order.  Used by the re-analysis queue, the
 grouping of replies and the shift lookup.
 */
module Sorting {

  ghost predicate TotalPreorder<T(!new)>(le: (T, T) -> bool) {
    && (forall x, y :: le(x, y) || le(y, x))
    && (forall x, y, z :: le(x, y) && le(y, z) ==> le(x, z))
  }

  predicate Equivalent<T>(le: (T, T) -> bool, x: T, y: T) {
    le(x, y) && le(y, x)
  }

  ghost predicate Sorted<T>(s: seq<T>, le: (T, T) -> bool) {
    forall i, j | 0 <= i < j < |s| :: le(s[i], s[j])
  }

  /** The elements equivalent to `e`, in order. */
  function Class<T>(s: seq<T>, le: (T, T) -> bool, e: T): (c: seq<T>)
    ensures |c| <= |s|
  {
    if s == [] then []
    else if Equivalent(le, s[0], e) then [s[0]] + Class(s[1..], le, e)
    else Class(s[1..], le, e)
  }

  /** `t` is a stable sort of `s`. */
  ghost predicate StablySorts<T(!new)>(s: seq<T>, t: seq<T>, le: (T, T) -> bool) {
    Sorted(t, le) && forall e :: Class(t, le, e) == Class(s, le, e)
  }

  /** Put an element before the first one that is not below it. */
  function Insert<T>(x: T, s: seq<T>, le: (T, T) -> bool): seq<T> {
    if s == [] then [x]
    else if le(x, s[0]) then [x] + s
    else [s[0]] + Insert(x, s[1..], le)
  }

  function Sort<T>(s: seq<T>, le: (T, T) -> bool): seq<T> {
    if s == [] then [] else Insert(s[0], Sort(s[1..], le), le)
  }

  lemma {:induction false} InsertMultiset<T>(x: T, s: seq<T>, le: (T, T) -> bool)
    ensures multiset(Insert(x, s, le)) == multiset(s) + multiset{x}
  {
    if s != [] && !le(x, s[0]) {
      InsertMultiset(x, s[1..], le);
      assert s == [s[0]] + s[1..];
    }
  }

  lemma LowestFirst<T(!new)>(x: T, s: seq<T>, le: (T, T) -> bool)
    requires Sorted(s, le) && forall j | 0 <= j < |s| :: le(x, s[j])
    ensures Sorted([x] + s, le)
  {
  }

  lemma SortedTail<T(!new)>(s: seq<T>, le: (T, T) -> bool)
    requires Sorted(s, le) && s != []
    ensures Sorted(s[1..], le) && forall x | x in s[1..] :: le(s[0], x)
  {
  }

  lemma {:induction false} InsertSorted<T(!new)>(x: T, s: seq<T>, le: (T, T) -> bool)
    requires TotalPreorder(le) && Sorted(s, le)
    ensures Sorted(Insert(x, s, le), le)
  {
    hide Sorted;
    if s == [] {
      LowestFirst(x, s, le);
      assert [x] + s == [x];
    } else {
      SortedTail(s, le);
      if le(x, s[0]) {
        assert forall j | 0 <= j < |s| :: j == 0 || s[j] in s[1..];
        LowestFirst(x, s, le);
      } else {
        var rest := Insert(x, s[1..], le);
        InsertSorted(x, s[1..], le);
        InsertMultiset(x, s[1..], le);
        forall j | 0 <= j < |rest|
          ensures le(s[0], rest[j])
        {
          assert rest[j] in multiset(rest);
        }
        LowestFirst(s[0], rest, le);
      }
    }
  }

  lemma {:induction false} InsertClass<T(!new)>(x: T, s: seq<T>, le: (T, T) -> bool, e: T)
    requires TotalPreorder(le)
    ensures Class(Insert(x, s, le), le, e) == (if Equivalent(le, x, e) then [x] else []) + Class(s, le, e)
  {
    if s != [] && !le(x, s[0]) {
      InsertClass(x, s[1..], le, e);
      assert ([s[0]] + Insert(x, s[1..], le))[1..] == Insert(x, s[1..], le);
      assert !(Equivalent(le, x, e) && Equivalent(le, s[0], e));
    } else {
      assert ([x] + s)[1..] == s;
    }
  }

  /** `Sort` is a stable sort, and a permutation. */
  lemma {:induction false} SortIsStable<T(!new)>(s: seq<T>, le: (T, T) -> bool)
    requires TotalPreorder(le)
    ensures StablySorts(s, Sort(s, le), le)
    ensures multiset(Sort(s, le)) == multiset(s)
  {
    if s != [] {
      hide Sorted, Insert;
      SortIsStable(s[1..], le);
      InsertSorted(s[0], Sort(s[1..], le), le);
      InsertMultiset(s[0], Sort(s[1..], le), le);
      forall e
        ensures Class(Sort(s, le), le, e) == Class(s, le, e)
      {
        InsertClass(s[0], Sort(s[1..], le), le, e);
      }
      assert s == [s[0]] + s[1..];
    }
  }

  lemma {:induction false} ClassMember<T>(s: seq<T>, le: (T, T) -> bool, e: T, x: T)
    ensures x in Class(s, le, e) <==> x in s && Equivalent(le, x, e)
  {
    if s != [] {
      ClassMember(s[1..], le, e, x);
    }
  }

  /** A sequence has only one stable sort. */
  lemma {:induction false} StableSortUnique<T(!new)>(t: seq<T>, u: seq<T>, le: (T, T) -> bool)
    requires TotalPreorder(le) && Sorted(t, le) && Sorted(u, le) && |t| == |u|
    requires forall e :: Class(t, le, e) == Class(u, le, e)
    ensures t == u
  {
    if t != [] {
      SameMembers(t, u, le);
      var x, y := t[0], u[0];
      assert y in t && x in u;
      assert Equivalent(le, x, y);
      assert Class(t, le, x)[0] == x && Class(u, le, x)[0] == y;
      forall e
        ensures Class(t[1..], le, e) == Class(u[1..], le, e)
      {
        SameTail(t, u, le, e);
      }
      StableSortUnique(t[1..], u[1..], le);
      assert t == [x] + t[1..] && u == [y] + u[1..];
    }
  }

  lemma SameTail<T>(t: seq<T>, u: seq<T>, le: (T, T) -> bool, e: T)
    requires t != [] && u != [] && t[0] == u[0] && Class(t, le, e) == Class(u, le, e)
    ensures Class(t[1..], le, e) == Class(u[1..], le, e)
  {
    if Equivalent(le, t[0], e) {
      assert Class(t[1..], le, e) == Class(t, le, e)[1..];
      assert Class(u[1..], le, e) == Class(u, le, e)[1..];
    }
  }

  lemma SameMembers<T(!new)>(t: seq<T>, u: seq<T>, le: (T, T) -> bool)
    requires TotalPreorder(le) && forall e :: Class(t, le, e) == Class(u, le, e)
    ensures forall x :: x in t <==> x in u
  {
    forall x
      ensures x in t <==> x in u
    {
      ClassMember(t, le, x, x);
      ClassMember(u, le, x, x);
      assert Equivalent(le, x, x);
    }
  }

  // ---- Cascades ------------------------------------------------------------------

  /** First by `major`, ties by `minor`. */
  function Lex<T>(major: (T, T) -> bool, minor: (T, T) -> bool): (T, T) -> bool {
    (x, y) => major(x, y) && (major(y, x) ==> minor(x, y))
  }

  lemma LexIsTotalPreorder<T(!new)>(major: (T, T) -> bool, minor: (T, T) -> bool)
    requires TotalPreorder(major) && TotalPreorder(minor)
    ensures TotalPreorder(Lex(major, minor))
  {
  }

  /** A class of the compound order is a class of one order within a class of the other. */
  lemma {:induction false} LexClass<T>(s: seq<T>, major: (T, T) -> bool, minor: (T, T) -> bool, e: T)
    ensures Class(s, Lex(major, minor), e) == Class(Class(s, major, e), minor, e)
    ensures Class(s, Lex(major, minor), e) == Class(Class(s, minor, e), major, e)
  {
    if s != [] {
      LexClass(s[1..], major, minor, e);
      assert Equivalent(Lex(major, minor), s[0], e) <==> Equivalent(major, s[0], e) && Equivalent(minor, s[0], e);
      assert ([s[0]] + Class(s[1..], major, e))[1..] == Class(s[1..], major, e);
      assert ([s[0]] + Class(s[1..], minor, e))[1..] == Class(s[1..], minor, e);
    }
  }

  /** A class of an ordered sequence is ordered. */
  lemma {:induction false} ClassSorted<T>(s: seq<T>, le: (T, T) -> bool, other: (T, T) -> bool, e: T)
    requires Sorted(s, le)
    ensures Sorted(Class(s, other, e), le)
  {
    if s != [] {
      ClassSorted(s[1..], le, other, e);
      var rest := Class(s[1..], other, e);
      forall j | 0 <= j < |rest|
        ensures le(s[0], rest[j])
      {
        ClassMember(s[1..], other, e, rest[j]);
        assert rest[j] in s[1..];
        var k :| 0 <= k < |s[1..]| && s[1..][k] == rest[j];
        assert s[k + 1] == rest[j];
      }
    }
  }

  /** If every class of `major` is ordered by `minor`, so are any two equivalent elements. */
  lemma {:induction false} OrderWithinClass<T>(s: seq<T>, major: (T, T) -> bool, minor: (T, T) -> bool, e: T, i: int,
                                               j: int)
    requires 0 <= i < j < |s| && Equivalent(major, s[i], e) && Equivalent(major, s[j], e)
    requires Sorted(Class(s, major, e), minor)
    ensures minor(s[i], s[j])
  {
    var rest := Class(s[1..], major, e);
    if i == 0 {
      ClassMember(s[1..], major, e, s[j]);
      assert s[1..][j - 1] == s[j];
      assert s[j] in rest;
      var k :| 0 <= k < |rest| && rest[k] == s[j];
      var all := Class(s, major, e);
      assert all == [s[0]] + rest;
      assert all[0] == s[0] && all[k + 1] == s[j];
    } else {
      if Equivalent(major, s[0], e) {
        assert Class(s, major, e) == [s[0]] + rest;
        assert forall k | 0 <= k < |rest| :: rest[k] == Class(s, major, e)[k + 1];
      }
      OrderWithinClass(s[1..], major, minor, e, i - 1, j - 1);
    }
  }

  /** Sorting by the minor order and then by the major one is one compound sort. */
  lemma CascadeIsCompound<T(!new)>(s: seq<T>, major: (T, T) -> bool, minor: (T, T) -> bool)
    requires TotalPreorder(major) && TotalPreorder(minor)
    ensures Sort(Sort(s, minor), major) == Sort(s, Lex(major, minor))
  {
    var u := Sort(s, minor);
    var t := Sort(u, major);
    var lex := Lex(major, minor);
    SortIsStable(s, minor);
    SortIsStable(u, major);
    LexIsTotalPreorder(major, minor);
    SortIsStable(s, lex);
    forall i, j | 0 <= i < j < |t|
      ensures lex(t[i], t[j])
    {
      if major(t[j], t[i]) {
        ClassSorted(u, minor, major, t[i]);
        assert Equivalent(major, t[i], t[i]);
        OrderWithinClass(t, major, minor, t[i], i, j);
      }
    }
    forall e
      ensures Class(t, lex, e) == Class(Sort(s, lex), lex, e)
    {
      LexClass(t, major, minor, e);
      LexClass(u, major, minor, e);
      LexClass(s, major, minor, e);
      assert Class(t, major, e) == Class(u, major, e);
      assert Class(u, minor, e) == Class(s, minor, e);
    }
    assert |t| == |multiset(t)| && |Sort(s, lex)| == |multiset(Sort(s, lex))|;
    StableSortUnique(t, Sort(s, lex), lex);
  }

  /** Orders that agree everywhere sort alike. */
  lemma {:induction false} SortCongruent<T(!new)>(s: seq<T>, le: (T, T) -> bool, le': (T, T) -> bool)
    requires forall x, y :: le(x, y) <==> le'(x, y)
    ensures Sort(s, le) == Sort(s, le')
  {
    if s != [] {
      SortCongruent(s[1..], le, le');
      InsertCongruent(s[0], Sort(s[1..], le), le, le');
    }
  }

  lemma {:induction false} InsertCongruent<T(!new)>(x: T, s: seq<T>, le: (T, T) -> bool, le': (T, T) -> bool)
    requires forall x, y :: le(x, y) <==> le'(x, y)
    ensures Insert(x, s, le) == Insert(x, s, le')
  {
    if s != [] {
      InsertCongruent(x, s[1..], le, le');
    }
  }

  // ---- Permutations of lists with distinct keys ------------------------------------------

  ghost predicate DistinctKeys<T, K>(s: seq<T>, key: T -> K) {
    forall i, j | 0 <= i < j < |s| :: key(s[i]) != key(s[j])
  }

  /** A permutation of elements with distinct keys has no repeats. */
  lemma PermutedDistinct<T, K>(s: seq<T>, t: seq<T>, key: T -> K)
    requires DistinctKeys(s, key) && multiset(t) == multiset(s)
    ensures DistinctKeys(t, key) && forall x :: x in t <==> x in s
  {
    assert forall x :: x in t <==> x in multiset(t);
    assert forall x :: x in s <==> x in multiset(s);
    forall i, j | 0 <= i < j < |t|
      ensures key(t[i]) != key(t[j])
    {
      if key(t[i]) == key(t[j]) {
        assert t[i] in s && t[j] in s;
        Twice(t, i, j);
        OnceOnly(s, key, t[i]);
      }
    }
  }

  lemma Twice<T>(t: seq<T>, i: int, j: int)
    requires 0 <= i < j < |t| && t[i] == t[j]
    ensures multiset(t)[t[i]] >= 2
  {
    assert t == t[..i] + [t[i]] + t[i + 1..j] + [t[j]] + t[j + 1..];
  }

  lemma {:induction false} OnceOnly<T, K>(s: seq<T>, key: T -> K, x: T)
    requires DistinctKeys(s, key)
    ensures multiset(s)[x] <= 1
  {
    if s != [] {
      var n := |s| - 1;
      OnceOnly(s[..n], key, x);
      assert s == s[..n] + [s[n]];
      if x == s[n] {
        assert x !in s[..n];
      }
    }
  }

  lemma SameHead<T(!new)>(t: seq<T>, u: seq<T>, le: (T, T) -> bool)
    requires Sorted(t, le) && Sorted(u, le) && multiset(t) == multiset(u) && t != [] && u != []
    requires forall x, y | x in t && y in t && le(x, y) && le(y, x) :: x == y
    ensures t[0] == u[0]
  {
    assert t[0] in multiset(u) && u[0] in multiset(t);
    var i :| 0 <= i < |u| && u[i] == t[0];
    var j :| 0 <= j < |t| && t[j] == u[0];
  }

  lemma RestOf<T>(t: seq<T>)
    requires t != []
    ensures multiset(t[1..]) == multiset(t) - multiset{t[0]}
  {
    assert t == [t[0]] + t[1..];
  }

  /** An order without ties sorts a permutation to the same list. */
  lemma {:induction false} SortedPermutationUnique<T(!new)>(t: seq<T>, u: seq<T>, le: (T, T) -> bool)
    requires Sorted(t, le) && Sorted(u, le) && multiset(t) == multiset(u)
    requires forall x, y | x in t && y in t && le(x, y) && le(y, x) :: x == y
    ensures t == u
  {
    hide Sorted;
    assert |t| == |multiset(t)| == |multiset(u)| == |u|;
    if t != [] {
      SameHead(t, u, le);
      SortedTail(t, le);
      SortedTail(u, le);
      RestOf(t);
      RestOf(u);
      SortedPermutationUnique(t[1..], u[1..], le);
      assert t == [t[0]] + t[1..] && u == [u[0]] + u[1..];
    }
  }
}
