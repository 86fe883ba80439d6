/**
 * Who gets a leftover cent, told by the members' minutes and places alone (backend/internal/tip/split.go):
 * a rule without a sort, that leaves one division and no other.
 */
module LeftoverCents {
  import opened Split
  import SplitOptimal

  /** Member j is served before member i: the larger remainder, then the more minutes, then the earlier place. */
  predicate ServedBefore(amount: nat, total: nat, minutes: seq<int>, j: nat, i: nat)
    requires total > 0 && i < |minutes| && j < |minutes|
  {
    minutes[j] > 0 &&
    var a, b := amount * minutes[j] % total, amount * minutes[i] % total;
    a > b || (a == b && (minutes[j] > minutes[i] || (minutes[j] == minutes[i] && j < i)))
  }

  ghost function AllServedBefore(amount: nat, total: nat, minutes: seq<int>, i: nat): set<nat>
    requires total > 0 && i < |minutes|
  {
    set j: nat | j < |minutes| && ServedBefore(amount, total, minutes, j, i)
  }

  ghost function Members(line: seq<Part>, p: nat): set<nat>
    requires p <= |line|
  {
    set q | 0 <= q < p :: line[q].idx
  }

  lemma {:induction false} MembersCount(line: seq<Part>, p: nat)
    requires p <= |line| && forall q, r :: 0 <= q < r < |line| ==> line[q].idx != line[r].idx
    ensures |Members(line, p)| == p
  {
    if p > 0 {
      MembersCount(line, p - 1);
      assert line[p - 1].idx !in Members(line, p - 1);
      assert Members(line, p) == Members(line, p - 1) + {line[p - 1].idx};
    }
  }

  /** What the part at place p says of its member. */
  lemma PartInLine(amount: nat, minutes: seq<int>, p: nat)
    requires Total(minutes) > 0 && p < |Order(amount, minutes)|
    ensures var x := Order(amount, minutes)[p];
            && x.idx < |minutes| && minutes[x.idx] > 0 && x.min == minutes[x.idx]
            && x.remainder == amount * minutes[x.idx] % Total(minutes)
  {
    OrderIsParts(amount, minutes);
    assert IsPart(amount, Total(minutes), minutes, Order(amount, minutes)[p]);
  }

  lemma BeforeInLine(amount: nat, minutes: seq<int>, q: nat, p: nat)
    requires Total(minutes) > 0 && q < |Order(amount, minutes)| && p < |Order(amount, minutes)|
    ensures Order(amount, minutes)[q].idx < |minutes| && Order(amount, minutes)[p].idx < |minutes|
    ensures var o := Order(amount, minutes);
            ServedBefore(amount, Total(minutes), minutes, o[q].idx, o[p].idx) <==> q < p
  {
    PartInLine(amount, minutes, q);
    PartInLine(amount, minutes, p);
    if q < p {
      LineInOrder(amount, minutes, q, p);
      DistinctLine(amount, minutes);
    } else if p < q {
      LineInOrder(amount, minutes, p, q);
    }
  }

  /** Those served before the member at place p are those at the places before it. */
  lemma PlaceIsCount(amount: nat, minutes: seq<int>, p: nat)
    requires Total(minutes) > 0 && p < |Order(amount, minutes)|
    ensures Order(amount, minutes)[p].idx < |minutes|
    ensures |AllServedBefore(amount, Total(minutes), minutes, Order(amount, minutes)[p].idx)| == p
  {
    var t, o := Total(minutes), Order(amount, minutes);
    PartInLine(amount, minutes, p);
    var before := AllServedBefore(amount, t, minutes, o[p].idx);
    forall j: nat | j in before
      ensures j in Members(o, p)
    {
      var q := SplitOptimal.PlaceInLine(amount, minutes, j);
      BeforeInLine(amount, minutes, q, p);
    }
    forall q | 0 <= q < p
      ensures o[q].idx in before
    {
      BeforeInLine(amount, minutes, q, p);
    }
    assert before == Members(o, p);
    DistinctLine(amount, minutes);
    MembersCount(o, p);
  }

  lemma LuckyIff(amount: nat, minutes: seq<int>, i: nat)
    requires Total(minutes) > 0 && i < |minutes| && minutes[i] > 0
    ensures Lucky(amount, minutes, i) <==>
            |AllServedBefore(amount, Total(minutes), minutes, i)| < Leftover(amount, minutes)
  {
    var l, o := Leftover(amount, minutes), Order(amount, minutes);
    var p := SplitOptimal.PlaceInLine(amount, minutes, i);
    PlaceIsCount(amount, minutes, p);
    DistinctLine(amount, minutes);
    if Lucky(amount, minutes, i) {
      var q :| 0 <= q < l && q < |o| && o[q].idx == i;
      assert q == p;
    }
  }

  /**
   * What member i is due: who worked gets the whole cents of the exact quota, and one more exactly when fewer
   * members are served before them than there are cents left over.
   */
  ghost predicate Due(amount: int, minutes: seq<int>, i: nat, cents: int)
    requires i < |minutes|
  {
    if amount <= 0 || Total(minutes) == 0 || minutes[i] <= 0 then cents == 0
    else
      var before := |AllServedBefore(amount, Total(minutes), minutes, i)|;
      cents == amount * minutes[i] / Total(minutes) + if before < Leftover(amount, minutes) then 1 else 0
  }

  /** Everyone is paid exactly what they are due, so there is one division and no other. */
  lemma CentsGoInTurn(amount: int, minutes: seq<int>, i: nat)
    requires i < |minutes|
    ensures Due(amount, minutes, i, Shares(amount, minutes)[i])
  {
    if amount > 0 && Total(minutes) > 0 {
      ShareIsFloorOrCeiling(amount, minutes, i);
      if minutes[i] > 0 {
        LuckyIff(amount, minutes, i);
      }
    }
  }

  /**
   * Of equal minutes the member listed first is never paid less, and of two who are owed the same part of a
   * cent the one with more minutes is never passed over.
   */
  lemma TiesGoToMoreThenFirst(amount: int, minutes: seq<int>, i: nat, j: nat)
    requires i < |minutes| && j < |minutes|
    ensures i < j && minutes[i] == minutes[j] ==> Shares(amount, minutes)[i] >= Shares(amount, minutes)[j]
    ensures amount > 0 && Total(minutes) > 0 && minutes[i] > minutes[j] > 0
            && amount * minutes[i] % Total(minutes) == amount * minutes[j] % Total(minutes) ==>
              Shares(amount, minutes)[i] - amount * minutes[i] / Total(minutes) >=
              Shares(amount, minutes)[j] - amount * minutes[j] / Total(minutes)
  {
    if amount > 0 && Total(minutes) > 0 {
      ShareIsFloorOrCeiling(amount, minutes, i);
      ShareIsFloorOrCeiling(amount, minutes, j);
      if minutes[i] > 0 && Lucky(amount, minutes, j)
         && Ahead(PartAt(amount, Total(minutes), minutes, i), PartAt(amount, Total(minutes), minutes, j)) {
        LuckIsUpwardClosed(amount, minutes, i, j);
      }
    }
  }
}
