/** The order of strings (Go's strings.Compare) and sequences strictly ascending in an order. */
module Names {
  import opened Sorting

  predicate StringLe(a: string, b: string) {
    a == [] || (b != [] && (a[0] < b[0] || (a[0] == b[0] && StringLe(a[1..], b[1..]))))
  }

  lemma {:induction false} StringTotal(a: string, b: string)
    ensures StringLe(a, b) || StringLe(b, a)
  {
    if a != [] && b != [] && a[0] == b[0] {
      StringTotal(a[1..], b[1..]);
    }
  }

  lemma {:induction false} StringAntisymmetric(a: string, b: string)
    requires StringLe(a, b) && StringLe(b, a)
    ensures a == b
  {
    if a != [] && b != [] {
      StringAntisymmetric(a[1..], b[1..]);
      assert a == [a[0]] + a[1..] && b == [b[0]] + b[1..];
    }
  }

  lemma {:induction false} StringTransitive(a: string, b: string, c: string)
    requires StringLe(a, b) && StringLe(b, c)
    ensures StringLe(a, c)
  {
    if a != [] && a[0] == b[0] == c[0] {
      StringTransitive(a[1..], b[1..], c[1..]);
    }
  }

  /** a is a proper beginning of b, or has the smaller character where they first differ. */
  ghost predicate Precedes(a: string, b: string) {
    exists n :: 0 <= n <= |a| && n < |b| && FirstDiffer(a, b, n)
  }

  predicate FirstDiffer(a: string, b: string, n: nat)
    requires n <= |a| && n < |b|
  {
    a[..n] == b[..n] && (n < |a| ==> a[n] < b[n])
  }

  lemma {:induction false} StringLeIff(a: string, b: string)
    ensures StringLe(a, b) <==> a == b || Precedes(a, b)
  {
    if a == [] {
      assert b != [] ==> FirstDiffer(a, b, 0);
    } else if b != [] {
      if a[0] == b[0] {
        StringLeIff(a[1..], b[1..]);
        assert a == [a[0]] + a[1..] && b == [b[0]] + b[1..];
        SameFirst(a, b);
      } else {
        assert a[0] < b[0] ==> FirstDiffer(a, b, 0);
        forall n | 0 < n <= |a| && n < |b|
          ensures !FirstDiffer(a, b, n)
        {
          assert a[..n][0] != b[..n][0];
        }
      }
    }
  }

  lemma SameFirst(a: string, b: string)
    requires a != [] && b != [] && a[0] == b[0]
    ensures Precedes(a, b) <==> Precedes(a[1..], b[1..])
  {
    if Precedes(a, b) {
      var n :| 0 <= n <= |a| && n < |b| && FirstDiffer(a, b, n);
      assert a[1..][..n - 1] == a[..n][1..] && b[1..][..n - 1] == b[..n][1..];
      assert FirstDiffer(a[1..], b[1..], n - 1);
    }
    if Precedes(a[1..], b[1..]) {
      var n :| 0 <= n <= |a[1..]| && n < |b[1..]| && FirstDiffer(a[1..], b[1..], n);
      assert a[..n + 1] == [a[0]] + a[1..][..n] && b[..n + 1] == [b[0]] + b[1..][..n];
      assert FirstDiffer(a, b, n + 1);
    }
  }

  lemma StringOrder()
    ensures TotalOrder(StringLe) && Antisymmetric(StringLe)
  {
    forall a: string, b: string
      ensures StringLe(a, b) || StringLe(b, a)
      ensures StringLe(a, b) && StringLe(b, a) ==> a == b
    {
      StringTotal(a, b);
      if StringLe(a, b) && StringLe(b, a) {
        StringAntisymmetric(a, b);
      }
    }
    forall a: string, b: string, c: string | StringLe(a, b) && StringLe(b, c)
      ensures StringLe(a, c)
    {
      StringTransitive(a, b, c);
    }
  }

  ghost predicate Distinct<T>(s: seq<T>) {
    forall i, j :: 0 <= i < j < |s| ==> s[i] != s[j]
  }

  ghost function Elements<T>(s: seq<T>): set<T> {
    set x | x in s
  }

  lemma {:induction false} DistinctCount<T>(s: seq<T>, x: T)
    requires Distinct(s)
    ensures multiset(s)[x] == if x in s then 1 else 0
  {
    if s != [] {
      var n := |s| - 1;
      DistinctCount(s[..n], x);
      assert s == s[..n] + [s[n]];
    }
  }

  lemma DistinctMultiset<T>(s: seq<T>, t: seq<T>)
    requires Distinct(s) && Distinct(t) && Elements(s) == Elements(t)
    ensures multiset(s) == multiset(t)
  {
    forall x: T
      ensures multiset(s)[x] == multiset(t)[x]
    {
      DistinctCount(s, x);
      DistinctCount(t, x);
      assert x in s <==> x in Elements(s);
      assert x in t <==> x in Elements(t);
    }
  }

  /** Two orderings of the same distinct elements are one and the same. */
  lemma SameElementsSameOrder<T(!new)>(le: (T, T) -> bool, s: seq<T>, t: seq<T>)
    requires Antisymmetric(le) && Sorted(le, s) && Sorted(le, t)
    requires Distinct(s) && Distinct(t) && Elements(s) == Elements(t)
    ensures s == t
  {
    DistinctMultiset(s, t);
    SortedUnique(le, s, t);
  }

  lemma CountsOneDistinct<T>(s: seq<T>)
    requires forall x :: x in s ==> multiset(s)[x] == 1
    ensures Distinct(s)
  {
    forall i, j | 0 <= i < j < |s|
      ensures s[i] != s[j]
    {
      assert s == s[..j] + s[j..];
      assert s[..j][i] == s[i] && s[j..][0] == s[j];
      assert s[i] in multiset(s[..j]) && s[j] in multiset(s[j..]);
      assert s[j] in s;
      assert multiset(s) == multiset(s[..j]) + multiset(s[j..]);
    }
  }

  /** Sorting keeps distinct elements distinct. */
  lemma SortKeepsDistinct<T(!new)>(le: (T, T) -> bool, s: seq<T>)
    requires TotalOrder(le) && Distinct(s)
    ensures Distinct(SortBy(le, s)) && Elements(SortBy(le, s)) == Elements(s) && Sorted(le, SortBy(le, s))
  {
    SortByCorrect(le, s);
    var r := SortBy(le, s);
    forall x
      ensures x in r <==> x in s
      ensures x in r ==> multiset(r)[x] == 1
    {
      DistinctCount(s, x);
      assert x in r <==> x in multiset(r);
    }
    CountsOneDistinct(r);
  }

  /** The keys of a Go map, in whatever order it hands them out. */
  method AnyOrder<T(!new, ==)>(s: set<T>) returns (r: seq<T>)
    ensures Distinct(r) && Elements(r) == s
  {
    r := [];
    var left := s;
    while left != {}
      invariant left <= s && Elements(r) == s - left && Distinct(r)
      decreases |left|
    {
      var x :| x in left;
      assert x !in Elements(r);
      ghost var before := r;
      r := r + [x];
      assert Elements(r) == Elements(before) + {x};
      left := left - {x};
    }
  }

  /** slices.SortFunc on the keys of a map. */
  method SortedKeys<T(!new, ==)>(le: (T, T) -> bool, s: set<T>) returns (r: seq<T>)
    requires TotalOrder(le)
    ensures Distinct(r) && Elements(r) == s && Sorted(le, r)
  {
    var keys := AnyOrder(s);
    var a := new T[|keys|](i requires 0 <= i < |keys| => keys[i]);
    assert a[..] == keys;
    SortInPlace(le, a);
    SortKeepsDistinct(le, keys);
    return a[..];
  }
}
