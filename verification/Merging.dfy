/** uniqueByClientId and the merge of stored with remembered items (mobile/src/stores/outbox.ts). */
module Merging {
  import opened Sorting
  import opened Names

  /** new Map(xs.map(x => [key, x])).values(): a key keeps its first place and takes its last value. */
  function Unique<T>(key: T -> string, xs: seq<T>): seq<T> {
    if xs == [] then [] else Put(key, Unique(key, xs[..|xs| - 1]), xs[|xs| - 1])
  }

  function Put<T>(key: T -> string, u: seq<T>, x: T): seq<T> {
    if u == [] then [x]
    else if key(u[0]) == key(x) then [x] + u[1..]
    else [u[0]] + Put(key, u[1..], x)
  }

  ghost predicate Has<T>(key: T -> string, u: seq<T>, k: string) {
    exists i :: 0 <= i < |u| && key(u[i]) == k
  }

  /** Put on a key already there: that place, and only that place, changes. */
  lemma {:induction false} PutAt<T>(key: T -> string, u: seq<T>, i: nat, x: T)
    requires i < |u| && key(u[i]) == key(x) && forall k :: 0 <= k < i ==> key(u[k]) != key(x)
    ensures Put(key, u, x) == u[i := x]
  {
    if i == 0 {
      assert [x] + u[1..] == u[0 := x];
    } else {
      assert key(u[0]) != key(x);
      PutAt(key, u[1..], i - 1, x);
      assert [u[0]] + u[1..][i - 1 := x] == u[i := x];
    }
  }

  lemma {:induction false} PutNew<T>(key: T -> string, u: seq<T>, x: T)
    requires !Has(key, u, key(x))
    ensures Put(key, u, x) == u + [x]
  {
    if u == [] {
      assert u + [x] == [x];
    } else {
      assert key(u[0]) != key(x);
      forall i | 0 <= i < |u[1..]|
        ensures key(u[1..][i]) != key(x)
      {
        assert key(u[i + 1]) != key(x);
      }
      PutNew(key, u[1..], x);
      assert [u[0]] + (u[1..] + [x]) == u + [x];
    }
  }

  lemma {:induction false} FirstAt<T>(key: T -> string, u: seq<T>, k: string) returns (i: nat)
    requires Has(key, u, k)
    ensures i < |u| && key(u[i]) == k && forall j :: 0 <= j < i ==> key(u[j]) != k
  {
    if key(u[0]) == k {
      i := 0;
    } else {
      var j :| 0 <= j < |u| && key(u[j]) == k;
      assert u[1..][j - 1] == u[j];
      i := FirstAt(key, u[1..], k);
      i := i + 1;
    }
  }

  lemma PutKeys<T>(key: T -> string, u: seq<T>, x: T)
    ensures Map(key, Put(key, u, x)) == if Has(key, u, key(x)) then Map(key, u) else Map(key, u) + [key(x)]
  {
    if Has(key, u, key(x)) {
      var i := FirstAt(key, u, key(x));
      PutAt(key, u, i, x);
    } else {
      PutNew(key, u, x);
    }
  }

  lemma HasKey<T>(key: T -> string, u: seq<T>, k: string)
    ensures Has(key, u, k) <==> k in Map(key, u)
  {
    if Has(key, u, k) {
      var i :| 0 <= i < |u| && key(u[i]) == k;
      assert Map(key, u)[i] == k;
    }
  }

  /** Every key once, and no key lost. */
  lemma {:induction false} UniqueKeys<T>(key: T -> string, xs: seq<T>)
    ensures Distinct(Map(key, Unique(key, xs)))
    ensures forall k :: k in Map(key, Unique(key, xs)) <==> k in Map(key, xs)
  {
    if xs != [] {
      var front, x := xs[..|xs| - 1], xs[|xs| - 1];
      UniqueKeys(key, front);
      PutKeys(key, Unique(key, front), x);
      HasKey(key, Unique(key, front), key(x));
      assert Map(key, xs) == Map(key, front) + [key(x)];
    }
  }

  lemma NotIn<T>(key: T -> string, u: seq<T>, x: T)
    requires Distinct(Map(key, u + [x]))
    ensures !Has(key, u, key(x)) && Distinct(Map(key, u))
  {
    forall i | 0 <= i < |u|
      ensures key(u[i]) != key(x)
    {
      assert Map(key, u + [x])[i] != Map(key, u + [x])[|u|];
    }
    assert Map(key, u) == Map(key, u + [x])[..|u|];
  }

  lemma SplitLast<T>(xs: seq<T>)
    requires xs != []
    ensures xs == xs[..|xs| - 1] + [xs[|xs| - 1]]
  {
  }

  /** On distinct keys nothing changes. */
  lemma {:induction false} UniqueOfDistinct<T>(key: T -> string, xs: seq<T>)
    requires Distinct(Map(key, xs))
    ensures Unique(key, xs) == xs
  {
    if xs != [] {
      var front, x := xs[..|xs| - 1], xs[|xs| - 1];
      SplitLast(xs);
      NotIn(key, front, x);
      UniqueOfDistinct(key, front);
      PutNew(key, front, x);
    }
  }

  /** The keys of `first` come first, in their order. */
  ghost predicate Leads<T>(key: T -> string, first: seq<T>, merged: seq<T>) {
    |first| <= |merged| && forall i :: 0 <= i < |first| ==> key(merged[i]) == key(first[i])
  }

  lemma PutKeepsFirst<T>(key: T -> string, first: seq<T>, u: seq<T>, x: T)
    requires Leads(key, first, u)
    ensures Leads(key, first, Put(key, u, x))
  {
    if Has(key, u, key(x)) {
      var i := FirstAt(key, u, key(x));
      PutAt(key, u, i, x);
    } else {
      PutNew(key, u, x);
    }
  }

  lemma TakeMost<T>(a: seq<T>, b: seq<T>)
    requires b != []
    ensures (a + b)[..|a + b| - 1] == a + b[..|b| - 1] && (a + b)[|a + b| - 1] == b[|b| - 1]
  {
  }

  lemma UniqueMore<T>(key: T -> string, a: seq<T>, b: seq<T>)
    requires b != []
    ensures Unique(key, a + b) == Put(key, Unique(key, a + b[..|b| - 1]), b[|b| - 1])
  {
    TakeMost(a, b);
  }

  /** Stored items come first, in their order. */
  lemma {:induction false} StoredFirst<T>(key: T -> string, stored: seq<T>, current: seq<T>)
    ensures Leads(key, Unique(key, stored), Unique(key, stored + current))
  {
    if current == [] {
      assert stored + current == stored;
    } else {
      var n := |current| - 1;
      StoredFirst(key, stored, current[..n]);
      UniqueMore(key, stored, current);
      PutKeepsFirst(key, Unique(key, stored), Unique(key, stored + current[..n]), current[n]);
    }
  }

  /** merge: merging its own result with the stored list again changes nothing. */
  lemma MergeIsIdempotent<T>(key: T -> string, stored: seq<T>, current: seq<T>)
    ensures var merged := Unique(key, stored + current);
            Unique(key, merged) == merged && Unique(key, stored + merged) == merged
  {
    var merged := Unique(key, stored + current);
    UniqueKeys(key, stored + current);
    UniqueOfDistinct(key, merged);
    StoredFirst(key, stored, current);
    Refold(key, stored, merged, |merged|);
    assert merged[..|merged|] == merged;
  }

  function Beyond<T>(first: seq<T>, n: nat): seq<T> {
    if n < |first| then first[n..] else []
  }

  /**
   * Folding the merged list over the stored one replaces each stored item by its merged value, then
   * appends the rest.
   */
  lemma {:induction false} Refold<T>(key: T -> string, stored: seq<T>, merged: seq<T>, n: nat)
    requires Distinct(Map(key, merged)) && Leads(key, Unique(key, stored), merged) && n <= |merged|
    ensures Unique(key, stored + merged[..n]) == merged[..n] + Beyond(Unique(key, stored), n)
  {
    if n == 0 {
      assert stored + merged[..0] == stored;
      assert merged[..0] + Beyond(Unique(key, stored), 0) == Unique(key, stored);
    } else {
      Refold(key, stored, merged, n - 1);
      assert merged[..n][..n - 1] == merged[..n - 1];
      UniqueMore(key, stored, merged[..n]);
      FoldNext(key, Unique(key, stored), merged, n);
    }
  }

  lemma ReplaceNext<T>(m: seq<T>, f: seq<T>, n: nat)
    requires 0 < n <= |m| && n <= |f|
    ensures (m[..n - 1] + f[n - 1..])[n - 1 := m[n - 1]] == m[..n] + f[n..]
  {
  }

  lemma NothingAfter<T>(m: seq<T>, f: seq<T>, n: nat)
    requires |f| < n <= |m|
    ensures m[..n - 1] + Beyond(f, n - 1) == m[..n - 1] && m[..n] + Beyond(f, n) == m[..n - 1] + [m[n - 1]]
  {
  }

  lemma UpToEnd<T>(m: seq<T>, f: seq<T>, n: nat)
    requires n == |f| && n <= |m|
    ensures m[..n] + f[n..] == m[..n] + Beyond(f, n)
  {
  }

  lemma NotBefore<T>(key: T -> string, merged: seq<T>, n: nat)
    requires Distinct(Map(key, merged)) && 0 < n <= |merged|
    ensures forall k :: 0 <= k < n - 1 ==> key(merged[k]) != key(merged[n - 1])
  {
    forall k | 0 <= k < n - 1
      ensures key(merged[k]) != key(merged[n - 1])
    {
      assert Map(key, merged)[k] != Map(key, merged)[n - 1];
    }
  }

  lemma FoldNext<T>(key: T -> string, first: seq<T>, merged: seq<T>, n: nat)
    requires Distinct(Map(key, merged)) && Leads(key, first, merged) && 0 < n <= |merged|
    ensures Put(key, merged[..n - 1] + Beyond(first, n - 1), merged[n - 1]) == merged[..n] + Beyond(first, n)
  {
    NotBefore(key, merged, n);
    if n <= |first| {
      PutAt(key, merged[..n - 1] + first[n - 1..], n - 1, merged[n - 1]);
      ReplaceNext(merged, first, n);
      if n == |first| {
        UpToEnd(merged, first, n);
      }
    } else {
      PutNew(key, merged[..n - 1], merged[n - 1]);
      NothingAfter(merged, first, n);
    }
  }

  lemma {:induction false} PutKeepsOthers<T>(key: T -> string, u: seq<T>, x: T, y: T)
    requires y == x || (y in u && key(y) != key(x))
    ensures y in Put(key, u, x)
  {
    if Has(key, u, key(x)) {
      var i := FirstAt(key, u, key(x));
      PutAt(key, u, i, x);
      assert u[i := x][i] == x;
      if y != x {
        var j :| 0 <= j < |u| && u[j] == y;
        assert u[i := x][j] == y;
      }
    } else {
      PutNew(key, u, x);
    }
  }

  /** Under each key, the last value given. */
  lemma {:induction false} LastValueWins<T>(key: T -> string, xs: seq<T>, i: nat)
    requires i < |xs| && forall j :: i < j < |xs| ==> key(xs[j]) != key(xs[i])
    ensures xs[i] in Unique(key, xs)
  {
    var n := |xs| - 1;
    if i < n {
      assert xs[..n][i] == xs[i];
      LastValueWins(key, xs[..n], i);
    }
    PutKeepsOthers(key, Unique(key, xs[..n]), xs[n], xs[i]);
  }

  lemma {:induction false} PutFrom<T>(key: T -> string, u: seq<T>, x: T, y: T)
    requires y in Put(key, u, x)
    ensures y == x || y in u
  {
    if Has(key, u, key(x)) {
      var i := FirstAt(key, u, key(x));
      PutAt(key, u, i, x);
    } else {
      PutNew(key, u, x);
    }
  }

  /** Nothing comes out that did not go in. */
  lemma {:induction false} UniqueFrom<T>(key: T -> string, xs: seq<T>, y: T)
    requires y in Unique(key, xs)
    ensures y in xs
  {
    var n := |xs| - 1;
    PutFrom(key, Unique(key, xs[..n]), xs[n], y);
    if y != xs[n] {
      UniqueFrom(key, xs[..n], y);
    }
  }
}
