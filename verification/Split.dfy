/**
 * Largest-remainder division of a tip pool (backend/internal/tip/split.go): exact to the cent,
 * fair, independent of the order of the members, and as close to proportional as integers allow.
 */
module Split {
  import opened Sorting

  datatype Part = Part(idx: nat, remainder: int, min: int)

  /** The comparator: larger remainder, then more minutes, then lower index. */
  predicate Ahead(a: Part, b: Part) {
    if a.remainder != b.remainder then a.remainder > b.remainder
    else if a.min != b.min then a.min > b.min
    else a.idx <= b.idx
  }

  function Sum(s: seq<int>): int {
    if s == [] then 0 else Sum(s[..|s| - 1]) + s[|s| - 1]
  }

  /** Minutes that count: negative ones are clamped away. */
  function Worked(m: int): nat {
    if m > 0 then m else 0
  }

  function Total(minutes: seq<int>): nat {
    if minutes == [] then 0 else Total(minutes[..|minutes| - 1]) + Worked(minutes[|minutes| - 1])
  }

  /** The floor of the exact quota, and what it leaves. */
  function Floor(amount: nat, total: nat, m: int): nat
    requires total > 0
  {
    amount * Worked(m) / total
  }

  function Remainder(amount: nat, total: nat, m: int): (r: nat)
    requires total > 0
    ensures r < total && total * Floor(amount, total, m) + r == amount * Worked(m)
  {
    amount * Worked(m) % total
  }

  function Floors(amount: nat, total: nat, minutes: seq<int>): (s: seq<int>)
    requires total > 0
    ensures |s| == |minutes| && forall i :: 0 <= i < |s| ==> s[i] == Floor(amount, total, minutes[i])
  {
    seq(|minutes|, i requires 0 <= i < |minutes| => Floor(amount, total, minutes[i]))
  }

  function PartAt(amount: nat, total: nat, minutes: seq<int>, i: nat): Part
    requires total > 0 && i < |minutes|
  {
    Part(i, Remainder(amount, total, minutes[i]), minutes[i])
  }

  function Parts(amount: nat, total: nat, minutes: seq<int>): seq<Part>
    requires total > 0
  {
    if minutes == [] then []
    else
      var n := |minutes| - 1;
      Parts(amount, total, minutes[..n]) + if minutes[n] > 0 then [PartAt(amount, total, minutes, n)] else []
  }

  function Order(amount: nat, minutes: seq<int>): seq<Part>
    requires Total(minutes) > 0
  {
    SortBy(Ahead, Parts(amount, Total(minutes), minutes))
  }

  function Leftover(amount: nat, minutes: seq<int>): int
    requires Total(minutes) > 0
  {
    amount - Sum(Floors(amount, Total(minutes), minutes))
  }

  /** One cent more for each of the first k in line. */
  function Bumped(shares: seq<int>, order: seq<Part>, k: nat): (s: seq<int>)
    requires k <= |order| && forall p :: 0 <= p < |order| ==> order[p].idx < |shares|
    ensures |s| == |shares|
  {
    if k == 0 then shares
    else
      var s := Bumped(shares, order, k - 1);
      s[order[k - 1].idx := s[order[k - 1].idx] + 1]
  }

  function Zeros(n: nat): (s: seq<int>)
    ensures |s| == n && forall i :: 0 <= i < n ==> s[i] == 0
  {
    seq(n, _ => 0)
  }

  /** What SplitByMinutes returns. */
  function Shares(amount: int, minutes: seq<int>): (s: seq<int>)
    ensures |s| == |minutes|
  {
    if amount <= 0 || Total(minutes) == 0 then Zeros(|minutes|)
    else
      OrderIsParts(amount, minutes);
      LeftoverInRange(amount, minutes);
      Bumped(Floors(amount, Total(minutes), minutes), Order(amount, minutes), Leftover(amount, minutes))
  }

  /* ---- the parts ---- */

  /** The parts are the members who worked, in index order. */
  ghost predicate PartsOf(amount: nat, total: nat, minutes: seq<int>, ps: seq<Part>)
    requires total > 0
  {
    && (forall p :: 0 <= p < |ps| ==> IsPart(amount, total, minutes, ps[p]))
    && (forall i: nat {:trigger PartAt(amount, total, minutes, i)} :: i < |minutes| && minutes[i] > 0 ==>
           PartAt(amount, total, minutes, i) in ps)
  }

  ghost predicate IsPart(amount: nat, total: nat, minutes: seq<int>, x: Part)
    requires total > 0
  {
    x.idx < |minutes| && minutes[x.idx] > 0 && x == PartAt(amount, total, minutes, x.idx)
  }

  lemma {:induction false} PartsAre(amount: nat, total: nat, minutes: seq<int>)
    requires total > 0
    ensures PartsOf(amount, total, minutes, Parts(amount, total, minutes))
  {
    if minutes != [] {
      var n := |minutes| - 1;
      PartsAre(amount, total, minutes[..n]);
      var ps := Parts(amount, total, minutes);
      forall p | 0 <= p < |ps|
        ensures IsPart(amount, total, minutes, ps[p])
      {
        assert p < |Parts(amount, total, minutes[..n])| ==> IsPart(amount, total, minutes[..n], ps[p]);
      }
      forall i: nat | i < |minutes| && minutes[i] > 0
        ensures PartAt(amount, total, minutes, i) in ps
      {
        if i < n {
          assert PartAt(amount, total, minutes[..n], i) == PartAt(amount, total, minutes, i);
        }
      }
    }
  }

  ghost predicate Ascending(ps: seq<Part>) {
    forall p, q :: 0 <= p < q < |ps| ==> ps[p].idx < ps[q].idx
  }

  lemma AppendAscending(ps: seq<Part>, x: Part)
    requires Ascending(ps) && forall p :: 0 <= p < |ps| ==> ps[p].idx < x.idx
    ensures Ascending(ps + [x])
  {
  }

  lemma {:induction false} PartsAscend(amount: nat, total: nat, minutes: seq<int>)
    requires total > 0
    ensures Ascending(Parts(amount, total, minutes))
  {
    if minutes != [] {
      var n := |minutes| - 1;
      var ps := Parts(amount, total, minutes[..n]);
      PartsAscend(amount, total, minutes[..n]);
      PartsAre(amount, total, minutes[..n]);
      if minutes[n] > 0 {
        forall p | 0 <= p < |ps|
          ensures ps[p].idx < n
        {
          assert IsPart(amount, total, minutes[..n], ps[p]);
        }
        AppendAscending(ps, PartAt(amount, total, minutes, n));
      }
    }
  }

  lemma AheadIsOrder()
    ensures TotalOrder(Ahead) && Antisymmetric(Ahead)
  {
  }

  lemma LineIsSorted(amount: nat, minutes: seq<int>)
    requires Total(minutes) > 0
    ensures var ps, o := Parts(amount, Total(minutes), minutes), Order(amount, minutes);
            Sorted(Ahead, o) && multiset(o) == multiset(ps) && |o| == |ps|
  {
    AheadIsOrder();
    SortByCorrect(Ahead, Parts(amount, Total(minutes), minutes));
  }

  lemma LineInOrder(amount: nat, minutes: seq<int>, p: nat, q: nat)
    requires Total(minutes) > 0 && p < q < |Order(amount, minutes)|
    ensures Ahead(Order(amount, minutes)[p], Order(amount, minutes)[q])
  {
    LineIsSorted(amount, minutes);
  }

  /** The sorted line holds exactly the members who worked. */
  lemma OrderIsParts(amount: nat, minutes: seq<int>)
    requires Total(minutes) > 0
    ensures PartsOf(amount, Total(minutes), minutes, Order(amount, minutes))
  {
    var ps, o := Parts(amount, Total(minutes), minutes), Order(amount, minutes);
    LineIsSorted(amount, minutes);
    PartsAre(amount, Total(minutes), minutes);
    forall x
      ensures x in o <==> x in ps
    {
      assert x in multiset(o) <==> x in multiset(ps);
    }
    forall p | 0 <= p < |o|
      ensures IsPart(amount, Total(minutes), minutes, o[p])
    {
      assert o[p] in ps;
    }
  }

  lemma {:induction false} OccursOnce(s: seq<nat>, x: nat)
    requires forall p, q :: 0 <= p < q < |s| ==> s[p] < s[q]
    ensures multiset(s)[x] <= 1
  {
    if s != [] {
      var n := |s| - 1;
      OccursOnce(s[..n], x);
      assert s == s[..n] + [s[n]];
    }
  }

  lemma {:induction false} TwiceIn(t: seq<nat>, p: nat, q: nat)
    requires p < q < |t| && t[p] == t[q]
    ensures multiset(t)[t[p]] >= 2
  {
    assert t == t[..q] + t[q..];
    assert t[p] in multiset(t[..q]) && t[q] in multiset(t[q..]);
  }

  ghost function Indices(ps: seq<Part>): seq<nat> {
    Map((x: Part) => x.idx, ps)
  }

  lemma OrderDistinct(amount: nat, minutes: seq<int>, p: nat, q: nat)
    requires Total(minutes) > 0 && p < q < |Order(amount, minutes)|
    ensures Order(amount, minutes)[p].idx != Order(amount, minutes)[q].idx
  {
    var ps, o := Parts(amount, Total(minutes), minutes), Order(amount, minutes);
    LineIsSorted(amount, minutes);
    PartsAscend(amount, Total(minutes), minutes);
    MapMultiset((x: Part) => x.idx, o, ps);
    forall p, q | 0 <= p < q < |ps|
      ensures Indices(ps)[p] < Indices(ps)[q]
    {
      assert ps[p].idx < ps[q].idx;
    }
    OccursOnce(Indices(ps), Indices(o)[p]);
    if Indices(o)[p] == Indices(o)[q] {
      TwiceIn(Indices(o), p, q);
    }
  }

  /* ---- what is left over ---- */

  lemma SumAppend(s: seq<int>, x: int)
    ensures Sum(s + [x]) == Sum(s) + x
  {
    assert (s + [x])[..|s|] == s;
  }

  lemma {:induction false} SumConcat(s: seq<int>, t: seq<int>)
    ensures Sum(s + t) == Sum(s) + Sum(t)
  {
    if t == [] {
      assert s + t == s;
    } else {
      var n := |t| - 1;
      SumConcat(s, t[..n]);
      assert s + t == (s + t[..n]) + [t[n]];
      SumAppend(s + t[..n], t[n]);
    }
  }

  lemma SumThree(a: seq<int>, x: int, b: seq<int>)
    ensures Sum(a + [x] + b) == Sum(a + b) + x
  {
    SumConcat(a + [x], b);
    SumAppend(a, x);
    SumConcat(a, b);
  }

  lemma SumWithout(t: seq<int>, i: nat)
    requires i < |t|
    ensures Sum(t) == Sum(Without(t, i)) + t[i]
  {
    ThreePieces(t, i);
    SumThree(t[..i], t[i], t[i + 1..]);
  }

  lemma ThreePieces(t: seq<int>, i: nat)
    requires i < |t|
    ensures t == t[..i] + [t[i]] + t[i + 1..]
  {
  }

  lemma {:induction false} SumMultiset(s: seq<int>, t: seq<int>)
    requires multiset(s) == multiset(t)
    ensures Sum(s) == Sum(t)
    decreases |s|
  {
    assert |s| == |multiset(s)| == |t|;
    if s != [] {
      assert s[0] in multiset(t);
      var i :| 0 <= i < |t| && t[i] == s[0];
      WithoutMultiset(s, 0);
      WithoutMultiset(t, i);
      SumMultiset(Without(s, 0), Without(t, i));
      SumWithout(s, 0);
      SumWithout(t, i);
    }
  }

  ghost function Remainders(ps: seq<Part>): seq<int> {
    Map((x: Part) => x.remainder, ps)
  }

  /** total * (sum of floors) + (sum of remainders) is amount * (minutes so far). */
  lemma {:induction false} FloorsAndRemainders(amount: nat, total: nat, minutes: seq<int>)
    requires total > 0
    ensures total * Sum(Floors(amount, total, minutes))
            + Sum(Remainders(Parts(amount, total, minutes))) == amount * Total(minutes)
  {
    if minutes != [] {
      var n := |minutes| - 1;
      var front, m := minutes[..n], minutes[n];
      FloorsAndRemainders(amount, total, front);
      assert Floors(amount, total, minutes) == Floors(amount, total, front) + [Floor(amount, total, m)];
      SumAppend(Floors(amount, total, front), Floor(amount, total, m));
      var ps := Parts(amount, total, front);
      if m > 0 {
        var r := Remainder(amount, total, m);
        assert Remainders(Parts(amount, total, minutes)) == Remainders(ps) + [r];
        SumAppend(Remainders(ps), r);
        Distribute(total, Sum(Floors(amount, total, front)), Floor(amount, total, m), amount, Total(front), m);
      } else {
        assert Parts(amount, total, minutes) == ps;
      }
    }
  }

  lemma Distribute(t: int, a: int, b: int, c: int, d: int, e: int)
    ensures t * (a + b) == t * a + t * b && c * (d + e) == c * d + c * e
  {
  }

  /** Remainders are below the total, so k of them sum to at most k * (total - 1). */
  lemma {:induction false} SumBelow(s: seq<int>, total: nat)
    requires total > 0 && forall i :: 0 <= i < |s| ==> 0 <= s[i] < total
    ensures 0 <= Sum(s) <= |s| * (total - 1)
  {
    if s != [] {
      SumBelow(s[..|s| - 1], total);
    }
  }

  lemma {:induction false} SumOfZeros(s: seq<int>, p: nat)
    requires p <= |s| && forall i :: p <= i < |s| ==> s[i] == 0
    ensures Sum(s) == Sum(s[..p])
    decreases |s|
  {
    if p < |s| {
      SumOfZeros(s[..|s| - 1], p);
      assert s[..|s| - 1][..p] == s[..p];
    } else {
      assert s[..p] == s;
    }
  }

  lemma {:induction false} RemaindersBelow(amount: nat, total: nat, minutes: seq<int>, ps: seq<Part>)
    requires total > 0 && PartsOf(amount, total, minutes, ps)
    ensures forall p :: 0 <= p < |ps| ==> 0 <= Remainders(ps)[p] < total
  {
    forall p | 0 <= p < |ps|
      ensures 0 <= Remainders(ps)[p] < total
    {
      assert IsPart(amount, total, minutes, ps[p]);
    }
  }

  /** The leftover, times the total, is the sum of the remainders of the line. */
  lemma LeftoverSum(amount: nat, minutes: seq<int>)
    requires Total(minutes) > 0
    ensures Total(minutes) * Leftover(amount, minutes) == Sum(Remainders(Order(amount, minutes)))
  {
    var t, o, ps := Total(minutes), Order(amount, minutes), Parts(amount, Total(minutes), minutes);
    LineIsSorted(amount, minutes);
    FloorsAndRemainders(amount, t, minutes);
    MapMultiset((x: Part) => x.remainder, o, ps);
    SumMultiset(Remainders(o), Remainders(ps));
    TimesDifference(t, amount, Sum(Floors(amount, t, minutes)));
  }

  lemma TimesDifference(t: int, a: int, b: int)
    ensures t * (a - b) == a * t - t * b
  {
  }

  lemma PositiveHasPart(amount: nat, total: nat, minutes: seq<int>)
    requires total > 0 && Total(minutes) > 0
    ensures |Parts(amount, total, minutes)| > 0
  {
    var n := |minutes| - 1;
    if minutes[n] <= 0 {
      PositiveHasPart(amount, total, minutes[..n]);
    }
  }

  /** The loop over parts[:leftover] never leaves the slice. */
  lemma LeftoverInRange(amount: nat, minutes: seq<int>)
    requires Total(minutes) > 0
    ensures 0 <= Leftover(amount, minutes) < |Order(amount, minutes)|
  {
    var t, l, o := Total(minutes), Leftover(amount, minutes), Order(amount, minutes);
    LeftoverSum(amount, minutes);
    OrderIsParts(amount, minutes);
    RemaindersBelow(amount, t, minutes, o);
    SumBelow(Remainders(o), t);
    LineIsSorted(amount, minutes);
    PositiveHasPart(amount, t, minutes);
    BelowTimes(t, l, |o|);
  }

  lemma BelowTimes(t: nat, l: int, n: nat)
    requires t > 0 && 0 <= t * l <= n * (t - 1)
    ensures 0 <= l && (n > 0 ==> l < n) && (n == 0 ==> l == 0)
  {
  }

  /** A member with nothing left over never receives a leftover cent. */
  lemma WinnersHaveRemainders(amount: nat, minutes: seq<int>, p: nat)
    requires Total(minutes) > 0 && p < Leftover(amount, minutes)
    ensures p < |Order(amount, minutes)| && Order(amount, minutes)[p].remainder > 0
  {
    var t, l, o := Total(minutes), Leftover(amount, minutes), Order(amount, minutes);
    LeftoverInRange(amount, minutes);
    if o[p].remainder <= 0 {
      NoRemaindersFrom(amount, minutes, p);
      BelowTimes(t, l, p);
    }
  }

  lemma ZerosFrom(amount: nat, minutes: seq<int>, p: nat)
    requires Total(minutes) > 0 && p < |Order(amount, minutes)| && Order(amount, minutes)[p].remainder <= 0
    ensures var rs := Remainders(Order(amount, minutes)); forall q :: p <= q < |rs| ==> rs[q] == 0
  {
    var o := Order(amount, minutes);
    OrderIsParts(amount, minutes);
    forall q | p <= q < |o|
      ensures o[q].remainder == 0
    {
      if p < q {
        LineInOrder(amount, minutes, p, q);
      }
      assert IsPart(amount, Total(minutes), minutes, o[q]);
    }
  }

  lemma NoRemaindersFrom(amount: nat, minutes: seq<int>, p: nat)
    requires Total(minutes) > 0 && p < |Order(amount, minutes)| && Order(amount, minutes)[p].remainder <= 0
    ensures 0 <= Total(minutes) * Leftover(amount, minutes) <= p * (Total(minutes) - 1)
  {
    var rs := Remainders(Order(amount, minutes));
    OrderIsParts(amount, minutes);
    RemaindersBelow(amount, Total(minutes), minutes, Order(amount, minutes));
    LeftoverSum(amount, minutes);
    ZerosFrom(amount, minutes, p);
    SumOfZeros(rs, p);
    SumBelow(rs[..p], Total(minutes));
  }

  /* ---- what each member gets ---- */

  ghost predicate Wins(order: seq<Part>, k: nat, i: nat) {
    exists p :: 0 <= p < k && p < |order| && order[p].idx == i
  }

  lemma {:induction false} BumpedAt(shares: seq<int>, order: seq<Part>, k: nat, i: nat)
    requires k <= |order| && i < |shares| && (forall p :: 0 <= p < |order| ==> order[p].idx < |shares|)
    requires forall p, q :: 0 <= p < q < |order| ==> order[p].idx != order[q].idx
    ensures Bumped(shares, order, k)[i] == shares[i] + if Wins(order, k, i) then 1 else 0
  {
    if k > 0 {
      BumpedAt(shares, order, k - 1, i);
      if order[k - 1].idx == i {
        assert !Wins(order, k - 1, i);
        assert Wins(order, k, i);
      } else {
        assert Wins(order, k, i) <==> Wins(order, k - 1, i);
      }
    }
  }

  lemma {:induction false} SumBumped(shares: seq<int>, order: seq<Part>, k: nat)
    requires k <= |order| && (forall p :: 0 <= p < |order| ==> order[p].idx < |shares|)
    ensures Sum(Bumped(shares, order, k)) == Sum(shares) + k
  {
    if k > 0 {
      SumBumped(shares, order, k - 1);
      SumUpdate(Bumped(shares, order, k - 1), order[k - 1].idx, 1);
    }
  }

  lemma SumUpdate(s: seq<int>, i: nat, d: int)
    requires i < |s|
    ensures Sum(s[i := s[i] + d]) == Sum(s) + d
  {
    SumWithout(s, i);
    SumWithout(s[i := s[i] + d], i);
    assert Without(s[i := s[i] + d], i) == Without(s, i);
  }

  /** Whether member i is among those the leftover cents go to. */
  ghost predicate Lucky(amount: nat, minutes: seq<int>, i: nat)
    requires Total(minutes) > 0
  {
    Leftover(amount, minutes) >= 0 && Wins(Order(amount, minutes), Leftover(amount, minutes), i)
  }

  lemma OrderIdxInRange(amount: nat, minutes: seq<int>)
    requires Total(minutes) > 0
    ensures forall p :: 0 <= p < |Order(amount, minutes)| ==> Order(amount, minutes)[p].idx < |minutes|
  {
    OrderIsParts(amount, minutes);
    forall p | 0 <= p < |Order(amount, minutes)|
      ensures Order(amount, minutes)[p].idx < |minutes|
    {
      assert IsPart(amount, Total(minutes), minutes, Order(amount, minutes)[p]);
    }
  }

  /** Only members who worked and have something left over are reached. */
  lemma LuckyHaveRemainders(amount: nat, minutes: seq<int>, i: nat)
    requires Total(minutes) > 0 && i < |minutes| && Lucky(amount, minutes, i)
    ensures minutes[i] > 0 && Remainder(amount, Total(minutes), minutes[i]) > 0
  {
    var l, o := Leftover(amount, minutes), Order(amount, minutes);
    var p :| 0 <= p < l && p < |o| && o[p].idx == i;
    WinnersHaveRemainders(amount, minutes, p);
    OrderIsParts(amount, minutes);
    assert IsPart(amount, Total(minutes), minutes, o[p]);
  }

  lemma DistinctLine(amount: nat, minutes: seq<int>)
    requires Total(minutes) > 0
    ensures var o := Order(amount, minutes); forall p, q :: 0 <= p < q < |o| ==> o[p].idx != o[q].idx
  {
    var o := Order(amount, minutes);
    forall p, q | 0 <= p < q < |o|
      ensures o[p].idx != o[q].idx
    {
      OrderDistinct(amount, minutes, p, q);
    }
  }

  lemma ShareAt(amount: nat, minutes: seq<int>, i: nat)
    requires amount > 0 && Total(minutes) > 0 && i < |minutes|
    ensures Shares(amount, minutes)[i] == Floor(amount, Total(minutes), minutes[i]) + if Lucky(amount, minutes, i)
            then 1 else 0
  {
    OrderIdxInRange(amount, minutes);
    LeftoverInRange(amount, minutes);
    DistinctLine(amount, minutes);
    BumpedAt(Floors(amount, Total(minutes), minutes), Order(amount, minutes), Leftover(amount, minutes), i);
  }

  /** Each share is the floor of its exact quota, or one more where something was left over. */
  lemma ShareIsFloorOrCeiling(amount: nat, minutes: seq<int>, i: nat)
    requires amount > 0 && Total(minutes) > 0 && i < |minutes|
    ensures Shares(amount, minutes)[i] == Floor(amount, Total(minutes), minutes[i]) + if Lucky(amount, minutes, i)
            then 1 else 0
    ensures Lucky(amount, minutes, i) ==> minutes[i] > 0 && Remainder(amount, Total(minutes), minutes[i]) > 0
    ensures minutes[i] <= 0 ==> Shares(amount, minutes)[i] == 0
  {
    ShareAt(amount, minutes, i);
    if Lucky(amount, minutes, i) {
      LuckyHaveRemainders(amount, minutes, i);
    } else if minutes[i] <= 0 {
      IdleFloor(amount, Total(minutes), minutes[i]);
    }
  }

  lemma IdleFloor(amount: nat, total: nat, m: int)
    requires total > 0 && m <= 0
    ensures Floor(amount, total, m) == 0
  {
  }

  /** Shares sum to exactly the pool, as soon as anybody worked; otherwise nobody gets anything. */
  lemma SharesAreExact(amount: int, minutes: seq<int>)
    ensures Sum(Shares(amount, minutes)) == if amount > 0 && Total(minutes) > 0 then amount else 0
  {
    if amount <= 0 || Total(minutes) == 0 {
      SumOfZeros(Zeros(|minutes|), 0);
      assert Zeros(|minutes|)[..0] == [];
    } else {
      OrderIdxInRange(amount, minutes);
      LeftoverInRange(amount, minutes);
      SumBumped(Floors(amount, Total(minutes), minutes), Order(amount, minutes), Leftover(amount, minutes));
    }
  }

  /** The leftover cents reach everyone ahead of anyone they reach. */
  lemma LuckIsUpwardClosed(amount: nat, minutes: seq<int>, i: nat, j: nat)
    requires Total(minutes) > 0 && i < |minutes| && j < |minutes| && minutes[i] > 0 && Lucky(amount, minutes, j)
    requires Ahead(PartAt(amount, Total(minutes), minutes, i), PartAt(amount, Total(minutes), minutes, j))
    ensures Lucky(amount, minutes, i)
  {
    var t, l, o := Total(minutes), Leftover(amount, minutes), Order(amount, minutes);
    var q :| 0 <= q < l && q < |o| && o[q].idx == j;
    OrderIsParts(amount, minutes);
    assert PartAt(amount, t, minutes, i) in o;
    var p :| 0 <= p < |o| && o[p] == PartAt(amount, t, minutes, i);
    assert IsPart(amount, t, minutes, o[q]);
    if p > q {
      LineInOrder(amount, minutes, q, p);
      assert o[q].idx == o[p].idx;
    }
  }

  /** More minutes never earn fewer cents, and equal minutes differ by at most one. */
  lemma SharesAreFair(amount: int, minutes: seq<int>, i: nat, j: nat)
    requires i < |minutes| && j < |minutes|
    ensures minutes[i] > minutes[j] ==> Shares(amount, minutes)[i] >= Shares(amount, minutes)[j]
    ensures minutes[i] == minutes[j] ==> -1 <= Shares(amount, minutes)[i] - Shares(amount, minutes)[j] <= 1
    ensures Shares(amount, minutes)[i] >= 0
  {
    if amount > 0 && Total(minutes) > 0 {
      var t := Total(minutes);
      ShareIsFloorOrCeiling(amount, minutes, i);
      ShareIsFloorOrCeiling(amount, minutes, j);
      if minutes[i] > minutes[j] && minutes[j] > 0 {
        FloorsAreMonotone(amount, t, minutes[i], minutes[j]);
        if Floor(amount, t, minutes[i]) == Floor(amount, t, minutes[j]) && Lucky(amount, minutes, j) {
          LuckIsUpwardClosed(amount, minutes, i, j);
        }
      }
    }
  }

  lemma FloorsAreMonotone(amount: nat, total: nat, m: nat, n: nat)
    requires amount > 0 && total > 0 && m > n > 0
    ensures Floor(amount, total, m) >= Floor(amount, total, n)
    ensures Floor(amount, total, m) == Floor(amount, total, n) ==>
              Remainder(amount, total, m) > Remainder(amount, total, n)
  {
    TimesMonotone(amount, n, m);
    QuotientsOrdered(total, Floor(amount, total, m), Remainder(amount, total, m), Floor(amount, total, n),
      Remainder(amount, total, n));
  }

  lemma TimesMonotone(a: nat, n: nat, m: nat)
    requires a > 0 && m > n
    ensures a * m > a * n
  {
  }

  lemma QuotientsOrdered(t: nat, a: nat, r: nat, b: nat, q: nat)
    requires r < t && q < t && t * a + r > t * b + q
    ensures a >= b && (a == b ==> r > q)
  {
    if a < b {
      TimesSuccessor(t, a, b);
    }
  }

  lemma TimesSuccessor(t: nat, a: nat, b: nat)
    requires a < b
    ensures t * a + t <= t * b
  {
    assert t * (a + 1) <= t * b;
  }
}
