/** SplitByMinutes as the program runs it, and the room its products have in 64 bits. */
module SplitMethod {
  import opened Sorting
  import opened Split
  import opened LeftoverCents

  const INT64_MAX: int := 0x7fff_ffff_ffff_ffff
  const MAX_TIP_CENTS: int := 100_000_000

  /** A Go duration is at most 2^63 - 1 nanoseconds; rounded to minutes that is at most this many. */
  const MAX_MINUTES: int := 153_722_867

  lemma FloorsGrow(amount: nat, total: nat, minutes: seq<int>, i: nat)
    requires total > 0 && i < |minutes|
    ensures Floors(amount, total, minutes[..i + 1]) == Floors(amount, total, minutes[..i])
            + [Floor(amount, total, minutes[i])]
  {
  }

  lemma PartsGrowAt(amount: nat, total: nat, minutes: seq<int>, i: nat)
    requires total > 0 && i < |minutes|
    ensures Parts(amount, total, minutes[..i + 1]) ==
            Parts(amount, total, minutes[..i]) + if minutes[i] > 0 then [PartAt(amount, total, minutes, i)] else []
  {
    assert minutes[..i + 1][..i] == minutes[..i];
    if minutes[i] > 0 {
      assert PartAt(amount, total, minutes[..i + 1], i) == PartAt(amount, total, minutes, i);
    }
  }

  /** The first two loops: floors and parts, and what the floors leave of the pool. */
  method FloorShares(amount: nat, total: nat, minutes: seq<int>, shares: array<int>)
    returns (parts: seq<Part>, leftover: int)
    requires total > 0 && shares.Length == |minutes| && forall i :: 0 <= i < shares.Length ==> shares[i] == 0
    modifies shares
    ensures shares[..] == Floors(amount, total, minutes)
    ensures parts == Parts(amount, total, minutes)
    ensures leftover == amount - Sum(Floors(amount, total, minutes))
  {
    parts, leftover := [], amount;
    for i := 0 to |minutes|
      invariant shares[..i] == Floors(amount, total, minutes[..i])
      invariant forall j :: i <= j < shares.Length ==> shares[j] == 0
      invariant parts == Parts(amount, total, minutes[..i])
      invariant leftover == amount - Sum(Floors(amount, total, minutes[..i]))
    {
      var m := minutes[i];
      FloorsGrow(amount, total, minutes, i);
      PartsGrowAt(amount, total, minutes, i);
      SumAppend(Floors(amount, total, minutes[..i]), Floor(amount, total, m));
      if m <= 0 {
        IdleFloor(amount, total, m);
        assert shares[..i + 1] == shares[..i] + [0];
        continue;
      }
      ghost var before := shares[..i];
      shares[i] := amount * m / total;
      assert shares[..i + 1] == before + [Floor(amount, total, m)];
      leftover := leftover - shares[i];
      parts := parts + [Part(i, amount * m % total, m)];
    }
    assert minutes[..|minutes|] == minutes && shares[..|minutes|] == shares[..];
  }

  /** The last loop: one cent to each of the first `leftover` in line. */
  method PayLeftover(line: array<Part>, shares: array<int>, leftover: nat)
    requires leftover <= line.Length && forall p :: 0 <= p < line.Length ==> line[p].idx < shares.Length
    modifies shares
    ensures shares[..] == Bumped(old(shares[..]), line[..], leftover)
  {
    ghost var floors := shares[..];
    for k := 0 to leftover
      invariant shares[..] == Bumped(floors, line[..], k)
    {
      var idx := line[k].idx;
      shares[idx] := shares[idx] + 1;
    }
  }

  method TotalMinutes(minutes: seq<int>) returns (total: nat)
    ensures total == Total(minutes)
  {
    total := 0;
    for i := 0 to |minutes|
      invariant total == Total(minutes[..i])
    {
      assert minutes[..i + 1][..i] == minutes[..i];
      var m := minutes[i];
      if m > 0 {
        total := total + m;
      }
    }
    assert minutes[..|minutes|] == minutes;
  }

  method SplitByMinutes(amount: int, minutes: seq<int>) returns (result: seq<int>)
    ensures result == Shares(amount, minutes)
    ensures PaysTheirDue(amount, minutes, result)
  {
    var shares := new int[|minutes|](_ => 0);
    var total := TotalMinutes(minutes);
    if amount <= 0 || total == 0 {
      assert shares[..] == Zeros(|minutes|);
      result := shares[..];
    } else {
      ShareOut(amount, total, minutes, shares);
      result := shares[..];
    }
    AllPaid(amount, minutes);
  }

  /** Floors first, then the sorted line, then the cents left over. */
  method ShareOut(amount: nat, total: nat, minutes: seq<int>, shares: array<int>)
    requires amount > 0 && total == Total(minutes) > 0
    requires shares.Length == |minutes| && forall i :: 0 <= i < shares.Length ==> shares[i] == 0
    modifies shares
    ensures shares[..] == Shares(amount, minutes)
  {
    var parts, leftover := FloorShares(amount, total, minutes, shares);
    var line := new Part[|parts|](i requires 0 <= i < |parts| => parts[i]);
    assert line[..] == parts;
    SortInPlace(Ahead, line);
    InRange(amount, minutes, line[..]);
    forall p | 0 <= p < line.Length
      ensures line[p].idx < shares.Length
    {
      assert line[p] == line[..][p];
    }
    PayLeftover(line, shares, leftover);
  }

  /** The whole pool or nothing, to each what they are due, and of equals the first listed never less. */
  ghost predicate PaysTheirDue(amount: int, minutes: seq<int>, s: seq<int>) {
    && |s| == |minutes| && Sum(s) == (if amount > 0 && Total(minutes) > 0 then amount else 0)
    && (forall i: nat {:trigger Due(amount, minutes, i, s[i])} :: i < |minutes| ==> Due(amount, minutes, i, s[i]))
    && forall i, j :: 0 <= i < j < |minutes| && minutes[i] == minutes[j] ==> s[i] >= s[j]
  }

  lemma AllPaid(amount: int, minutes: seq<int>)
    ensures PaysTheirDue(amount, minutes, Shares(amount, minutes))
  {
    SharesAreExact(amount, minutes);
    forall i: nat | i < |minutes|
      ensures Due(amount, minutes, i, Shares(amount, minutes)[i])
    {
      CentsGoInTurn(amount, minutes, i);
    }
    forall i: nat, j: nat | i < j < |minutes| && minutes[i] == minutes[j]
      ensures Shares(amount, minutes)[i] >= Shares(amount, minutes)[j]
    {
      TiesGoToMoreThenFirst(amount, minutes, i, j);
    }
  }

  lemma InRange(amount: nat, minutes: seq<int>, line: seq<Part>)
    requires Total(minutes) > 0 && line == Order(amount, minutes)
    ensures 0 <= Leftover(amount, minutes) <= |line| && forall p :: 0 <= p < |line| ==> line[p].idx < |minutes|
  {
    OrderIdxInRange(amount, minutes);
    LeftoverInRange(amount, minutes);
  }

  lemma TimesAtMost(a: int, b: int, c: int, d: int)
    requires 0 <= a <= c && 0 <= b <= d
    ensures 0 <= a * b <= c * d
  {
    assert a * b <= c * b <= c * d;
  }

  /**
   * Every product SplitByMinutes forms fits in an int64, for any pool the PUT handler accepts and
   * a day's minutes made up of as many as 600 shifts, each as long as a Go duration can measure.
   */
  lemma ProductsFit(amount: int, minutes: seq<int>, i: nat)
    requires 0 <= amount <= MAX_TIP_CENTS && i < |minutes| && minutes[i] <= 600 * MAX_MINUTES
    ensures 0 <= amount * Worked(minutes[i]) <= INT64_MAX
  {
    TimesAtMost(amount, Worked(minutes[i]), MAX_TIP_CENTS, 600 * MAX_MINUTES);
  }
}
