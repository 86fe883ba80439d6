/**
 * The sorts the program leans on (Go's sort.Slice and slices.SortFunc, JavaScript's Array.sort):
 * one stable sort, as a function to reason with and as the in-place array operation.
 */
module Sorting {
  ghost predicate TotalOrder<T(!new)>(le: (T, T) -> bool) {
    && (forall x, y :: le(x, y) || le(y, x))
    && (forall x, y, z :: le(x, y) && le(y, z) ==> le(x, z))
  }

  ghost predicate Antisymmetric<T(!new)>(le: (T, T) -> bool) {
    forall x, y :: le(x, y) && le(y, x) ==> x == y
  }

  ghost predicate Sorted<T>(le: (T, T) -> bool, s: seq<T>) {
    forall i, j :: 0 <= i < j < |s| ==> le(s[i], s[j])
  }

  /** x goes after every element it does not precede: equal elements keep their order. */
  function Insert<T>(le: (T, T) -> bool, s: seq<T>, x: T): seq<T> {
    if s == [] then [x]
    else if le(s[|s| - 1], x) then s + [x]
    else Insert(le, s[..|s| - 1], x) + [s[|s| - 1]]
  }

  function SortBy<T>(le: (T, T) -> bool, s: seq<T>): seq<T> {
    if s == [] then [] else Insert(le, SortBy(le, s[..|s| - 1]), s[|s| - 1])
  }

  lemma {:induction false} InsertSorted<T(!new)>(le: (T, T) -> bool, s: seq<T>, x: T)
    requires TotalOrder(le) && Sorted(le, s)
    ensures Sorted(le, Insert(le, s, x))
    ensures multiset(Insert(le, s, x)) == multiset(s) + multiset{x}
  {
    if s != [] {
      var front, last := s[..|s| - 1], s[|s| - 1];
      assert s == front + [last];
      if !le(last, x) {
        InsertSorted(le, front, x);
        var r := Insert(le, front, x);
        forall y | y in r
          ensures le(y, last)
        {
          assert y in multiset(r);
          assert y in front || y == x;
        }
      }
    }
  }

  /** The result is the input, reordered, and in order. */
  lemma {:induction false} SortByCorrect<T(!new)>(le: (T, T) -> bool, s: seq<T>)
    requires TotalOrder(le)
    ensures Sorted(le, SortBy(le, s)) && multiset(SortBy(le, s)) == multiset(s) && |SortBy(le, s)| == |s|
  {
    if s != [] {
      SortByCorrect(le, s[..|s| - 1]);
      InsertSorted(le, SortBy(le, s[..|s| - 1]), s[|s| - 1]);
      assert s == s[..|s| - 1] + [s[|s| - 1]];
    }
    assert |SortBy(le, s)| == |multiset(SortBy(le, s))| == |multiset(s)| == |s|;
  }

  /** The elements that x is in a tie with, in the order they stand. */
  function Ties<T>(le: (T, T) -> bool, s: seq<T>, x: T): seq<T> {
    if s == [] then []
    else
      var y := s[|s| - 1];
      Ties(le, s[..|s| - 1], x) + if le(x, y) && le(y, x) then [y] else []
  }

  lemma TiesAppend<T>(le: (T, T) -> bool, s: seq<T>, y: T, x: T)
    ensures Ties(le, s + [y], x) == Ties(le, s, x) + if le(x, y) && le(y, x) then [y] else []
  {
    assert (s + [y])[..|s|] == s;
  }

  lemma {:induction false} InsertIsStable<T(!new)>(le: (T, T) -> bool, s: seq<T>, y: T, x: T)
    requires TotalOrder(le)
    ensures Ties(le, Insert(le, s, y), x) == Ties(le, s, x) + if le(x, y) && le(y, x) then [y] else []
  {
    if s == [] {
      assert [y] == [] + [y];
      TiesAppend(le, [], y, x);
    } else {
      var front, last := s[..|s| - 1], s[|s| - 1];
      if le(last, y) {
        TiesAppend(le, s, y, x);
      } else {
        InsertIsStable(le, front, y, x);
        TiesAppend(le, Insert(le, front, y), last, x);
        if le(x, y) && le(y, x) {
          assert !(le(x, last) && le(last, x));
        }
      }
    }
  }

  /** Sorting leaves elements in a tie in the order they came. */
  lemma {:induction false} SortIsStable<T(!new)>(le: (T, T) -> bool, s: seq<T>, x: T)
    requires TotalOrder(le)
    ensures Ties(le, SortBy(le, s), x) == Ties(le, s, x)
  {
    if s != [] {
      SortIsStable(le, s[..|s| - 1], x);
      InsertIsStable(le, SortBy(le, s[..|s| - 1]), s[|s| - 1], x);
    }
  }

  function Without<T>(s: seq<T>, i: nat): seq<T>
    requires i < |s|
  {
    s[..i] + s[i + 1..]
  }

  lemma WithoutMultiset<T>(s: seq<T>, i: nat)
    requires i < |s|
    ensures multiset(Without(s, i)) == multiset(s) - multiset{s[i]}
  {
    assert s == s[..i] + [s[i]] + s[i + 1..];
  }

  lemma SameHead<T(!new)>(le: (T, T) -> bool, s: seq<T>, t: seq<T>)
    requires Antisymmetric(le) && Sorted(le, s) && Sorted(le, t) && multiset(s) == multiset(t) && s != [] && t != []
    ensures s[0] == t[0]
  {
    assert s[0] in multiset(t) && t[0] in multiset(s);
    var i :| 0 <= i < |t| && t[i] == s[0];
    var j :| 0 <= j < |s| && s[j] == t[0];
    assert i == 0 || j == 0 || (le(s[0], t[0]) && le(t[0], s[0]));
  }

  lemma Tail<T>(le: (T, T) -> bool, s: seq<T>)
    requires s != [] && Sorted(le, s)
    ensures Sorted(le, s[1..]) && multiset(s[1..]) == multiset(s) - multiset{s[0]}
  {
    assert s == [s[0]] + s[1..];
  }

  /** A sorted sequence is determined by what it contains. */
  lemma {:induction false} SortedUnique<T(!new)>(le: (T, T) -> bool, s: seq<T>, t: seq<T>)
    requires Antisymmetric(le) && Sorted(le, s) && Sorted(le, t) && multiset(s) == multiset(t)
    ensures s == t
    decreases |s|
  {
    assert |s| == |multiset(s)| == |t|;
    if s != [] {
      SameHead(le, s, t);
      Tail(le, s);
      Tail(le, t);
      SortedUnique(le, s[1..], t[1..]);
      assert s == [s[0]] + s[1..] && t == [t[0]] + t[1..];
    }
  }

  function Map<S, T>(f: S -> T, s: seq<S>): (r: seq<T>)
    ensures |r| == |s| && forall i :: 0 <= i < |s| ==> r[i] == f(s[i])
  {
    seq(|s|, i requires 0 <= i < |s| => f(s[i]))
  }

  lemma MapWithout<S, T>(f: S -> T, s: seq<S>, i: nat)
    requires i < |s|
    ensures Map(f, Without(s, i)) == Without(Map(f, s), i)
  {
  }

  /** Reordering the input of a map reorders its output. */
  lemma {:induction false} MapMultiset<S, T>(f: S -> T, s: seq<S>, t: seq<S>)
    requires multiset(s) == multiset(t)
    ensures multiset(Map(f, s)) == multiset(Map(f, t))
    decreases |s|
  {
    assert |s| == |multiset(s)| == |t|;
    if s == [] {
      assert t == [];
    } else {
      assert s[0] in multiset(t);
      var i :| 0 <= i < |t| && t[i] == s[0];
      WithoutMultiset(s, 0);
      WithoutMultiset(t, i);
      MapMultiset(f, Without(s, 0), Without(t, i));
      MapWithout(f, s, 0);
      MapWithout(f, t, i);
      WithoutMultiset(Map(f, s), 0);
      WithoutMultiset(Map(f, t), i);
      PutBack(multiset(Map(f, s)), multiset(Map(f, t)), f(s[0]));
    }
  }

  lemma PutBack<T>(a: multiset<T>, b: multiset<T>, x: T)
    requires x in a && x in b && a - multiset{x} == b - multiset{x}
    ensures a == b
  {
    assert a == a - multiset{x} + multiset{x};
    assert b == b - multiset{x} + multiset{x};
  }

  /** One round of insertion sort: a[i] moves left past the elements it precedes. */
  method InsertInPlace<T>(le: (T, T) -> bool, a: array<T>, i: nat)
    requires i < a.Length
    modifies a
    ensures a[..i + 1] == Insert(le, old(a[..i]), old(a[i]))
    ensures a[i + 1..] == old(a[i + 1..])
  {
    ghost var p, rest := a[..i], a[i + 1..];
    var x := a[i];
    var j := i;
    while j > 0 && !le(a[j - 1], x)
      invariant 0 <= j <= i
      invariant a[..j] == p[..j] && a[j + 1..i + 1] == p[j..] && a[i + 1..] == rest
      invariant Insert(le, p, x) == Insert(le, p[..j], x) + p[j..]
    {
      Unfold(le, p, x, j);
      ghost var shifted := a[j + 1..i + 1];
      a[j] := a[j - 1];
      assert a[j..i + 1] == [p[j - 1]] + shifted;
      j := j - 1;
    }
    a[j] := x;
    Settle(le, p, x, j);
    assert a[..i + 1] == p[..j] + [x] + p[j..];
  }

  lemma Unfold<T>(le: (T, T) -> bool, p: seq<T>, x: T, j: nat)
    requires 0 < j <= |p| && !le(p[j - 1], x)
    ensures Insert(le, p[..j], x) + p[j..] == Insert(le, p[..j - 1], x) + p[j - 1..]
    ensures p[j - 1..] == [p[j - 1]] + p[j..]
  {
    assert p[..j][..j - 1] == p[..j - 1];
  }

  lemma Settle<T>(le: (T, T) -> bool, p: seq<T>, x: T, j: nat)
    requires j <= |p| && (j == 0 || le(p[j - 1], x))
    ensures Insert(le, p[..j], x) == p[..j] + [x]
  {
  }

  /** The array operation: insertion sort, in place. */
  method SortInPlace<T>(le: (T, T) -> bool, a: array<T>)
    modifies a
    ensures a[..] == SortBy(le, old(a[..]))
  {
    ghost var was := a[..];
    for i := 0 to a.Length
      invariant a[..i] == SortBy(le, was[..i]) && a[i..] == was[i..]
    {
      assert was[..i + 1][..i] == was[..i];
      InsertInPlace(le, a, i);
    }
    assert a[..] == a[..a.Length] && was[..a.Length] == was;
  }
}
