/** The split is as close to proportional as whole cents allow, and blind to the order of members. */
module SplitOptimal {
  import opened Sorting
  import opened Split

  function Abs(x: int): nat {
    if x < 0 then -x else x
  }

  /** How far a share of x cents is from the exact quota quota/total, in units of 1/total cents. */
  function Off(total: int, quota: int, x: int): nat {
    Abs(total * x - quota)
  }

  /** Each member's exact quota, times the total. */
  function Quotas(amount: nat, minutes: seq<int>): (q: seq<int>)
    ensures |q| == |minutes| && forall i :: 0 <= i < |q| ==> q[i] == amount * Worked(minutes[i])
  {
    seq(|minutes|, i requires 0 <= i < |minutes| => amount * Worked(minutes[i]))
  }

  /** How far a whole division is from proportional: the sum over its members. */
  function Deviation(total: int, quotas: seq<int>, t: seq<int>): int
    requires |t| == |quotas|
  {
    Sum(Offs(total, quotas, t))
  }

  function Offs(total: int, quotas: seq<int>, t: seq<int>): (d: seq<int>)
    requires |t| == |quotas|
    ensures |d| == |t| && forall i :: 0 <= i < |d| ==> d[i] == Off(total, quotas[i], t[i])
  {
    seq(|t|, i requires 0 <= i < |t| => Off(total, quotas[i], t[i]))
  }

  /** The price of a cent at the margin between the last member reached and the first not reached. */
  ghost function Price(amount: nat, minutes: seq<int>): int
    requires Total(minutes) > 0
  {
    LeftoverInRange(amount, minutes);
    var t: int, l := Total(minutes), Leftover(amount, minutes);
    if l == 0 then -t else t - 2 * Order(amount, minutes)[l - 1].remainder
  }

  /** At this price no other share is worth moving to from s. */
  ghost predicate Cheapest(t: int, quota: int, price: int, s: int) {
    forall x: int {:trigger Off(t, quota, x)} :: Off(t, quota, x) - Off(t, quota, s) >= price * (x - s)
  }

  lemma CheapestFloor(t: int, q: int, r: int, price: int, x: int)
    requires 0 <= r < t && -t <= price <= t - 2 * r
    ensures Off(t, t * q + r, x) - Off(t, t * q + r, q) >= price * (x - q)
  {
    var d := x - q;
    assert t * x == t * q + t * d;
    if d >= 1 {
      Scale(t, d, 1);
      Scale(t - price - 2 * r, d, 1);
      Scale(r, d, 1);
      assert (t - price - 2 * r) * d == t * d - price * d - 2 * (r * d);
    } else {
      Scale(t, 0, d);
      Scale(t + price, -d, 0);
      assert (t + price) * -d == -(t * d) - price * d;
    }
  }

  lemma CheapestCeiling(t: int, q: int, r: int, price: int, x: int)
    requires 0 <= r < t && t - 2 * r <= price <= t
    ensures Off(t, t * q + r, x) - Off(t, t * q + r, q + 1) >= price * (x - (q + 1))
  {
    var e := x - (q + 1);
    assert t * x == t * q + t + t * e && t * (q + 1) == t * q + t;
    if e >= 0 {
      Scale(t - price, e, 0);
      Scale(t, e, 0);
      assert (t - price) * e == t * e - price * e;
    } else {
      Scale(t, -1, e);
      Scale(price - t + 2 * r, -e, 1);
      Scale(t - r, -e, 1);
      assert (price - t + 2 * r) * -e + 2 * ((t - r) * -e) == -(price * e) - t * e;
    }
  }

  lemma Scale(t: int, a: int, b: int)
    requires t >= 0 && a >= b
    ensures t * a >= t * b
  {
  }

  /** The remainder at place p of the line belongs to the member standing there. */
  lemma RemainderInLine(amount: nat, minutes: seq<int>, p: nat)
    requires Total(minutes) > 0 && p < |Order(amount, minutes)|
    ensures var x := Order(amount, minutes)[p];
            x.idx < |minutes| && x.remainder == Remainder(amount, Total(minutes), minutes[x.idx])
              && 0 <= x.remainder < Total(minutes)
  {
    OrderIsParts(amount, minutes);
    assert IsPart(amount, Total(minutes), minutes, Order(amount, minutes)[p]);
  }

  lemma LineDescends(amount: nat, minutes: seq<int>, p: nat, q: nat)
    requires Total(minutes) > 0 && p <= q < |Order(amount, minutes)|
    ensures Order(amount, minutes)[p].remainder >= Order(amount, minutes)[q].remainder
  {
    if p < q {
      LineInOrder(amount, minutes, p, q);
    }
  }

  /** A member who worked stands somewhere in the line. */
  lemma PlaceInLine(amount: nat, minutes: seq<int>, i: nat) returns (p: nat)
    requires Total(minutes) > 0 && i < |minutes| && minutes[i] > 0
    ensures p < |Order(amount, minutes)| && Order(amount, minutes)[p].idx == i
  {
    OrderIsParts(amount, minutes);
    assert PartAt(amount, Total(minutes), minutes, i) in Order(amount, minutes);
    p :| 0 <= p < |Order(amount, minutes)| && Order(amount, minutes)[p] == PartAt(amount, Total(minutes), minutes, i);
  }

  /** Where the line is cut: reached members owe at least the remainder there, the rest at most that. */
  lemma CutSeparates(amount: nat, minutes: seq<int>, i: nat, l: nat)
    requires Total(minutes) > 0 && i < |minutes| && l == Leftover(amount, minutes) && 0 < l <= |Order(amount, minutes)|
    ensures var r, cut := Remainder(amount, Total(minutes), minutes[i]), Order(amount, minutes)[l - 1].remainder;
            if Lucky(amount, minutes, i) then r >= cut else r <= cut
  {
    var o := Order(amount, minutes);
    if Lucky(amount, minutes, i) {
      var p :| 0 <= p < l && p < |o| && o[p].idx == i;
      RemainderInLine(amount, minutes, p);
      LineDescends(amount, minutes, p, l - 1);
    } else if minutes[i] > 0 {
      var p := PlaceInLine(amount, minutes, i);
      RemainderInLine(amount, minutes, p);
      assert p >= l;
      LineDescends(amount, minutes, l - 1, p);
    } else {
      IdleRemainder(amount, Total(minutes), minutes[i]);
      RemainderInLine(amount, minutes, l - 1);
    }
  }

  lemma PriceIs(amount: nat, minutes: seq<int>)
    requires Total(minutes) > 0 && Leftover(amount, minutes) > 0
    ensures Leftover(amount, minutes) <= |Order(amount, minutes)|
    ensures Price(amount, minutes) ==
            Total(minutes) - 2 * Order(amount, minutes)[Leftover(amount, minutes) - 1].remainder
  {
    LeftoverInRange(amount, minutes);
  }

  lemma NobodyIsLucky(amount: nat, minutes: seq<int>, i: nat)
    requires Total(minutes) > 0 && Leftover(amount, minutes) <= 0
    ensures !Lucky(amount, minutes, i) && Price(amount, minutes) == 0 - Total(minutes)
  {
    LeftoverInRange(amount, minutes);
  }

  lemma CutPrice(t: int, cut: int, r: int, price: int, lucky: bool)
    requires price == t - 2 * cut && 0 <= cut < t && if lucky then r >= cut else r <= cut
    ensures -t <= price <= t && if lucky then price >= t - 2 * r else price <= t - 2 * r
  {
  }

  /** The price separates those the leftover cents reach from the rest. */
  lemma PriceSeparates(amount: nat, minutes: seq<int>, i: nat)
    requires amount > 0 && Total(minutes) > 0 && i < |minutes|
    ensures 0 - Total(minutes) <= Price(amount, minutes) <= Total(minutes)
    ensures var t, r := Total(minutes), Remainder(amount, Total(minutes), minutes[i]);
            if Lucky(amount, minutes, i) then Price(amount, minutes) >= t - 2 * r
               else Price(amount, minutes) <= t - 2 * r
  {
    var l := Leftover(amount, minutes);
    if l > 0 {
      PriceIs(amount, minutes);
      RemainderInLine(amount, minutes, l - 1);
      CutSeparates(amount, minutes, i, l);
      CutPrice(Total(minutes), Order(amount, minutes)[l - 1].remainder, Remainder(amount, Total(minutes), minutes[i]),
               Price(amount, minutes), Lucky(amount, minutes, i));
    } else {
      NobodyIsLucky(amount, minutes, i);
    }
  }

  lemma IdleRemainder(amount: nat, total: nat, m: int)
    requires total > 0 && m <= 0
    ensures Remainder(amount, total, m) == 0
  {
  }

  /** What PriceSeparates and ShareIsFloorOrCeiling say of member i, without the divisions. */
  lemma MemberIsCheapest(amount: nat, minutes: seq<int>, i: nat)
    requires amount > 0 && Total(minutes) > 0 && i < |minutes|
    ensures Cheapest(Total(minutes), Quotas(amount, minutes)[i], Price(amount, minutes), Shares(amount, minutes)[i])
  {
    var t := Total(minutes);
    ShareIsFloorOrCeiling(amount, minutes, i);
    PriceSeparates(amount, minutes, i);
    IsCheapest(t, Quotas(amount, minutes)[i], Floor(amount, t, minutes[i]), Remainder(amount, t, minutes[i]),
               Price(amount, minutes), Shares(amount, minutes)[i]);
  }

  lemma IsCheapest(t: int, quota: int, q: int, r: int, price: int, s: int)
    requires 0 <= r < t && -t <= price <= t && quota == t * q + r
    requires (s == q && price <= t - 2 * r) || (s == q + 1 && price >= t - 2 * r)
    ensures Cheapest(t, quota, price, s)
  {
    forall x: int
      ensures Off(t, quota, x) - Off(t, quota, s) >= price * (x - s)
    {
      if s == q {
        CheapestFloor(t, q, r, price, x);
      } else {
        CheapestCeiling(t, q, r, price, x);
      }
    }
  }

  lemma {:induction false} SumOfGains(t: int, quotas: seq<int>, price: int, s: seq<int>, other: seq<int>)
    requires |quotas| == |s| == |other|
    requires forall i :: 0 <= i < |s| ==> Cheapest(t, quotas[i], price, s[i])
    ensures Deviation(t, quotas, other) - Deviation(t, quotas, s) >= price * (Sum(other) - Sum(s))
  {
    if s != [] {
      var n := |s| - 1;
      SumOfGains(t, quotas[..n], price, s[..n], other[..n]);
      assert Offs(t, quotas, s)[..n] == Offs(t, quotas[..n], s[..n]);
      assert Offs(t, quotas, other)[..n] == Offs(t, quotas[..n], other[..n]);
      assert Cheapest(t, quotas[n], price, s[n]);
      AddGains(price, Sum(other[..n]) - Sum(s[..n]), other[n] - s[n]);
    }
  }

  lemma AddGains(price: int, a: int, b: int)
    ensures price * (a + b) == price * a + price * b
  {
  }

  /** No other division of the same pool into whole cents, not even with negative shares, is closer to proportional. */
  lemma NoSplitIsCloser(amount: nat, minutes: seq<int>, other: seq<int>)
    requires amount > 0 && Total(minutes) > 0 && |other| == |minutes| && Sum(other) == amount
    ensures Deviation(Total(minutes), Quotas(amount, minutes), Shares(amount, minutes)) <= Deviation(Total(minutes),
            Quotas(amount, minutes), other)
  {
    var quotas, s, price := Quotas(amount, minutes), Shares(amount, minutes), Price(amount, minutes);
    forall i | 0 <= i < |minutes|
      ensures Cheapest(Total(minutes), quotas[i], price, s[i])
    {
      MemberIsCheapest(amount, minutes, i);
    }
    SharesAreExact(amount, minutes);
    SumOfGains(Total(minutes), quotas, price, s, other);
    AddGains(price, Sum(other), -Sum(s));
  }

  /** The parts come in the order of their minutes alone; the index only breaks exact ties. */
  ghost predicate MoreOwed(amount: nat, total: nat, m: int, n: int)
    requires total > 0
  {
    var r, q := Remainder(amount, total, m), Remainder(amount, total, n);
    r > q || (r == q && m >= n)
  }

  ghost function MinutesInLine(amount: nat, minutes: seq<int>): seq<int>
    requires Total(minutes) > 0
  {
    Map((x: Part) => x.min, Order(amount, minutes))
  }

  lemma LineByMinutes(amount: nat, minutes: seq<int>)
    requires Total(minutes) > 0
    ensures var t, ms := Total(minutes), MinutesInLine(amount, minutes);
            Sorted((m: int, n: int) => MoreOwed(amount, t, m, n), ms)
  {
    var t, o, ms := Total(minutes), Order(amount, minutes), MinutesInLine(amount, minutes);
    OrderIsParts(amount, minutes);
    forall p, q | 0 <= p < q < |ms|
      ensures MoreOwed(amount, t, ms[p], ms[q])
    {
      LineInOrder(amount, minutes, p, q);
      assert IsPart(amount, t, minutes, o[p]) && IsPart(amount, t, minutes, o[q]);
    }
  }

  /** The minutes worked, as a sequence without the zeros. */
  function Positive(minutes: seq<int>): seq<int> {
    if minutes == [] then []
    else
      var n := |minutes| - 1;
      Positive(minutes[..n]) + if minutes[n] > 0 then [minutes[n]] else []
  }

  lemma {:induction false} PartsMinutes(amount: nat, total: nat, minutes: seq<int>)
    requires total > 0
    ensures Map((x: Part) => x.min, Parts(amount, total, minutes)) == Positive(minutes)
  {
    if minutes != [] {
      PartsMinutes(amount, total, minutes[..|minutes| - 1]);
    }
  }

  lemma {:induction false} PositiveMultiset(minutes: seq<int>, m: int)
    ensures multiset(Positive(minutes))[m] == if m > 0 then multiset(minutes)[m] else 0
  {
    if minutes != [] {
      var n := |minutes| - 1;
      PositiveMultiset(minutes[..n], m);
      assert minutes == minutes[..n] + [minutes[n]];
    }
  }

  lemma {:induction false} TotalIsSum(minutes: seq<int>)
    ensures Total(minutes) == Sum(Positive(minutes))
  {
    if minutes != [] {
      var n := |minutes| - 1;
      TotalIsSum(minutes[..n]);
      if minutes[n] > 0 {
        SumAppend(Positive(minutes[..n]), minutes[n]);
      } else {
        assert Positive(minutes) == Positive(minutes[..n]);
      }
    }
  }

  lemma SamePositive(a: seq<int>, b: seq<int>)
    requires multiset(a) == multiset(b)
    ensures multiset(Positive(a)) == multiset(Positive(b)) && Total(a) == Total(b)
  {
    forall m: int
      ensures multiset(Positive(a))[m] == multiset(Positive(b))[m]
    {
      PositiveMultiset(a, m);
      PositiveMultiset(b, m);
    }
    assert multiset(Positive(a)) == multiset(Positive(b));
    TotalIsSum(a);
    TotalIsSum(b);
    SumMultiset(Positive(a), Positive(b));
  }

  lemma LineHolds(amount: nat, minutes: seq<int>)
    requires Total(minutes) > 0
    ensures multiset(MinutesInLine(amount, minutes)) == multiset(Positive(minutes))
  {
    LineIsSorted(amount, minutes);
    MapMultiset((x: Part) => x.min, Order(amount, minutes), Parts(amount, Total(minutes), minutes));
    PartsMinutes(amount, Total(minutes), minutes);
  }

  /** Reordering the members leaves the line, read as minutes, exactly as it was. */
  lemma SameLine(amount: nat, a: seq<int>, b: seq<int>)
    requires multiset(a) == multiset(b) && Total(a) > 0
    ensures Total(b) == Total(a) && MinutesInLine(amount, a) == MinutesInLine(amount, b)
  {
    SamePositive(a, b);
    LineByMinutes(amount, a);
    LineByMinutes(amount, b);
    LineHolds(amount, a);
    LineHolds(amount, b);
    var t := Total(a);
    SortedUnique((m: int, n: int) => MoreOwed(amount, t, m, n), MinutesInLine(amount, a), MinutesInLine(amount, b));
  }

  /** Each member's minutes with their share. */
  function Pairs(minutes: seq<int>, shares: seq<int>): (r: seq<(int, int)>)
    requires |minutes| == |shares|
    ensures |r| == |minutes| && forall i :: 0 <= i < |r| ==> r[i] == (minutes[i], shares[i])
  {
    seq(|minutes|, i requires 0 <= i < |minutes| => (minutes[i], shares[i]))
  }

  function Idle(minutes: seq<int>): seq<(int, int)> {
    if minutes == [] then []
    else
      var n := |minutes| - 1;
      Idle(minutes[..n]) + if minutes[n] > 0 then [] else [(minutes[n], 0)]
  }

  lemma {:induction false} IdleMultiset(minutes: seq<int>, x: (int, int))
    ensures multiset(Idle(minutes))[x] == if x.0 <= 0 && x.1 == 0 then multiset(minutes)[x.0] else 0
  {
    if minutes != [] {
      var n := |minutes| - 1;
      IdleMultiset(minutes[..n], x);
      assert minutes == minutes[..n] + [minutes[n]];
    }
  }

  ghost function PairOf(shares: seq<int>, x: Part): (int, int) {
    (x.min, if x.idx < |shares| then shares[x.idx] else 0)
  }

  ghost function PartPairs(shares: seq<int>, ps: seq<Part>): seq<(int, int)> {
    Map((x: Part) => PairOf(shares, x), ps)
  }

  lemma PartPairsAppend(shares: seq<int>, ps: seq<Part>, x: Part)
    ensures PartPairs(shares, ps + [x]) == PartPairs(shares, ps) + [PairOf(shares, x)]
  {
  }

  lemma PairsAppend(minutes: seq<int>, shares: seq<int>, n: nat)
    requires n < |minutes| == |shares|
    ensures Pairs(minutes[..n + 1], shares[..n + 1]) == Pairs(minutes[..n], shares[..n]) + [(minutes[n], shares[n])]
  {
  }

  /** One more member: their pair goes to the side their part is on. */
  lemma PairsByPartStep(pairs: seq<(int, int)>, parts: seq<(int, int)>, idle: seq<(int, int)>, x: (int, int),
                        worked: bool)
    requires multiset(pairs) == multiset(parts) + multiset(idle)
    ensures multiset(pairs + [x]) ==
            multiset(parts + if worked then [x] else []) + multiset(idle + if worked then [] else [x])
  {
    assert parts + [] == parts && idle + [] == idle;
  }

  lemma PartsGrow(amount: nat, total: nat, minutes: seq<int>, shares: seq<int>, k: nat)
    requires total > 0 && k < |minutes| == |shares|
    ensures PartPairs(shares, Parts(amount, total, minutes[..k + 1])) ==
            PartPairs(shares, Parts(amount, total, minutes[..k])) + if minutes[k] > 0 then [(minutes[k], shares[k])]
              else []
  {
    var front := minutes[..k + 1];
    assert front[..k] == minutes[..k];
    if minutes[k] > 0 {
      PartPairsAppend(shares, Parts(amount, total, minutes[..k]), PartAt(amount, total, front, k));
    }
  }

  lemma IdleGrows(minutes: seq<int>, k: nat)
    requires k < |minutes|
    ensures Idle(minutes[..k + 1]) == Idle(minutes[..k]) + if minutes[k] > 0 then [] else [(minutes[k], 0)]
  {
    assert minutes[..k + 1][..k] == minutes[..k];
  }

  /** The pairs are those of the members who worked, and zero for the rest. */
  lemma {:induction false} PairsByPart(amount: nat, total: nat, minutes: seq<int>, shares: seq<int>, n: nat)
    requires total > 0 && n <= |minutes| == |shares|
    requires forall i :: 0 <= i < |minutes| && minutes[i] <= 0 ==> shares[i] == 0
    ensures multiset(Pairs(minutes[..n], shares[..n])) ==
            multiset(PartPairs(shares, Parts(amount, total, minutes[..n]))) + multiset(Idle(minutes[..n]))
  {
    if n > 0 {
      var k := n - 1;
      PairsByPart(amount, total, minutes, shares, k);
      PairsAppend(minutes, shares, k);
      PartsGrow(amount, total, minutes, shares, k);
      IdleGrows(minutes, k);
      PairsByPartStep(Pairs(minutes[..k], shares[..k]), PartPairs(shares, Parts(amount, total, minutes[..k])),
                      Idle(minutes[..k]), (minutes[k], shares[k]), minutes[k] > 0);
    }
  }

  /** The pair at place p of the line is a matter of minutes and place alone. */
  lemma PairInLine(amount: nat, minutes: seq<int>, p: nat)
    requires amount > 0 && Total(minutes) > 0 && p < |Order(amount, minutes)|
    ensures var m := MinutesInLine(amount, minutes)[p];
            PairOf(Shares(amount, minutes), Order(amount, minutes)[p]) ==
            (m, Floor(amount, Total(minutes), m) + if p < Leftover(amount, minutes) then 1 else 0)
  {
    var t, l, o := Total(minutes), Leftover(amount, minutes), Order(amount, minutes);
    OrderIsParts(amount, minutes);
    LeftoverInRange(amount, minutes);
    assert IsPart(amount, t, minutes, o[p]);
    ShareIsFloorOrCeiling(amount, minutes, o[p].idx);
    if Lucky(amount, minutes, o[p].idx) {
      var q :| 0 <= q < l && q < |o| && o[q].idx == o[p].idx;
      if p < q {
        OrderDistinct(amount, minutes, p, q);
      } else if q < p {
        OrderDistinct(amount, minutes, q, p);
      }
    }
  }

  lemma LeftoverByLine(amount: nat, a: seq<int>, b: seq<int>)
    requires Total(a) > 0 && Total(b) == Total(a) && MinutesInLine(amount, a) == MinutesInLine(amount, b)
    ensures Leftover(amount, a) == Leftover(amount, b)
  {
    var t := Total(a);
    LeftoverSum(amount, a);
    LeftoverSum(amount, b);
    RemaindersByLine(amount, a);
    RemaindersByLine(amount, b);
    SameFactor(t, Leftover(amount, a), Leftover(amount, b));
  }

  lemma SameFactor(t: int, x: int, y: int)
    requires t > 0 && t * x == t * y
    ensures x == y
  {
  }

  lemma RemaindersByLine(amount: nat, minutes: seq<int>)
    requires Total(minutes) > 0
    ensures Remainders(Order(amount, minutes)) ==
            Map((m: int) => Remainder(amount, Total(minutes), m), MinutesInLine(amount, minutes))
  {
    var o := Order(amount, minutes);
    OrderIsParts(amount, minutes);
    forall p | 0 <= p < |o|
      ensures o[p].remainder == Remainder(amount, Total(minutes), o[p].min)
    {
      assert IsPart(amount, Total(minutes), minutes, o[p]);
    }
  }

  lemma PairsByLine(amount: nat, minutes: seq<int>)
    requires amount > 0 && Total(minutes) > 0
    ensures multiset(Pairs(minutes, Shares(amount, minutes))) ==
            multiset(PartPairs(Shares(amount, minutes), Order(amount, minutes))) + multiset(Idle(minutes))
  {
    var s := Shares(amount, minutes);
    forall i | 0 <= i < |minutes| && minutes[i] <= 0
      ensures s[i] == 0
    {
      ShareIsFloorOrCeiling(amount, minutes, i);
    }
    PairsByPart(amount, Total(minutes), minutes, s, |minutes|);
    assert minutes[..|minutes|] == minutes && s[..|s|] == s;
    LineIsSorted(amount, minutes);
    MapMultiset((x: Part) => PairOf(s, x), Order(amount, minutes), Parts(amount, Total(minutes), minutes));
  }

  lemma SamePairsInLine(amount: nat, a: seq<int>, b: seq<int>)
    requires multiset(a) == multiset(b) && amount > 0 && Total(a) > 0 && Total(b) > 0
    ensures PartPairs(Shares(amount, a), Order(amount, a)) == PartPairs(Shares(amount, b), Order(amount, b))
  {
    SameLine(amount, a, b);
    LeftoverByLine(amount, a, b);
    assert |Order(amount, a)| == |MinutesInLine(amount, a)| == |Order(amount, b)|;
    forall p | 0 <= p < |Order(amount, a)|
      ensures PairOf(Shares(amount, a), Order(amount, a)[p]) == PairOf(Shares(amount, b), Order(amount, b)[p])
    {
      PairInLine(amount, a, p);
      PairInLine(amount, b, p);
    }
  }

  /** Whoever is listed first, the same minutes are paid the same: permuting members permutes (minutes, share) pairs. */
  lemma OrderOfMembersDoesNotMatter(amount: int, a: seq<int>, b: seq<int>)
    requires multiset(a) == multiset(b)
    ensures multiset(Pairs(a, Shares(amount, a))) == multiset(Pairs(b, Shares(amount, b)))
  {
    SamePositive(a, b);
    if amount > 0 && Total(a) > 0 {
      PairsByLine(amount, a);
      PairsByLine(amount, b);
      SamePairsInLine(amount, a, b);
      SameIdle(a, b);
    } else {
      var f := (m: int) => (m, 0);
      assert Pairs(a, Shares(amount, a)) == Map(f, a) && Pairs(b, Shares(amount, b)) == Map(f, b);
      MapMultiset(f, a, b);
    }
  }

  lemma SameIdle(a: seq<int>, b: seq<int>)
    requires multiset(a) == multiset(b)
    ensures multiset(Idle(a)) == multiset(Idle(b))
  {
    forall x: (int, int)
      ensures multiset(Idle(a))[x] == multiset(Idle(b))[x]
    {
      IdleMultiset(a, x);
      IdleMultiset(b, x);
    }
  }
}
