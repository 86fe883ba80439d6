/** Closed shifts by day and member (shiftsByMemberDay in web/src/lib/report.ts), and their join with the report. */
module ShiftBuckets {
  import opened Sorting
  import opened Table
  import G = Geo
  import R = Report
  import S = Split
  import ReportIsRight

  /** An entry as the web lists it. */
  datatype EntryRow = EntryRow(user: string, shift: Shift)

  type Key = (int, string)

  function KeyOf(loc: R.Loc, e: EntryRow): Key {
    (R.LocalDay(loc, e.shift.inAt), e.user)
  }

  predicate ClockedInBy(a: EntryRow, b: EntryRow) {
    a.shift.inAt <= b.shift.inAt
  }

  function Closed(entries: seq<EntryRow>): seq<EntryRow> {
    if entries == [] then []
    else Closed(entries[..|entries| - 1]) + if entries[|entries| - 1].shift.outAt.Some? then [entries[|entries| - 1]]
      else []
  }

  function Chronological(entries: seq<EntryRow>): seq<EntryRow> {
    SortBy(ClockedInBy, Closed(entries))
  }

  /** The entries of one key, in the order listed. */
  function With(list: seq<EntryRow>, loc: R.Loc, key: Key): seq<EntryRow> {
    if list == [] then []
    else With(list[..|list| - 1], loc, key) + if KeyOf(loc, list[|list| - 1]) == key then [list[|list| - 1]] else []
  }

  function ShiftsOf(list: seq<EntryRow>): (r: seq<Shift>)
    ensures |r| == |list| && forall k :: 0 <= k < |r| ==> r[k] == list[k].shift
  {
    Map((e: EntryRow) => e.shift, list)
  }

  ghost predicate Buckets(list: seq<EntryRow>, loc: R.Loc, shifts: Shifts) {
    forall key: Key {:trigger With(list, loc, key)} ::
      && (key in shifts <==> With(list, loc, key) != [])
      && (key in shifts ==> shifts[key] == ShiftsOf(With(list, loc, key)))
  }

  lemma WithAppend(list: seq<EntryRow>, e: EntryRow, loc: R.Loc, key: Key)
    ensures With(list + [e], loc, key) == With(list, loc, key) + if KeyOf(loc, e) == key then [e] else []
    ensures KeyOf(loc, e) == key ==> ShiftsOf(With(list + [e], loc, key)) == ShiftsOf(With(list, loc, key)) + [e.shift]
  {
    assert (list + [e])[..|list|] == list;
  }

  lemma BucketsGrow(list: seq<EntryRow>, e: EntryRow, loc: R.Loc, shifts: Shifts, next: Shifts)
    requires Buckets(list, loc, shifts)
    requires var key := KeyOf(loc, e); next == shifts[key := (if key in shifts then shifts[key] else []) + [e.shift]]
    ensures Buckets(list + [e], loc, next)
  {
    forall key: Key
      ensures key in next <==> With(list + [e], loc, key) != []
      ensures key in next ==> next[key] == ShiftsOf(With(list + [e], loc, key))
    {
      WithAppend(list, e, loc, key);
    }
  }

  method KeepClosed(entries: seq<EntryRow>) returns (closed: seq<EntryRow>)
    ensures closed == Closed(entries)
  {
    closed := [];
    for i := 0 to |entries|
      invariant closed == Closed(entries[..i])
    {
      assert entries[..i + 1][..i] == entries[..i];
      if entries[i].shift.outAt.Some? {
        closed := closed + [entries[i]];
      }
    }
    assert entries[..|entries|] == entries;
  }

  method ShiftsByMemberDay(entries: seq<EntryRow>, loc: R.Loc) returns (byMemberDay: Shifts)
    ensures Buckets(Chronological(entries), loc, byMemberDay)
  {
    var closed := KeepClosed(entries);
    var a := new EntryRow[|closed|](i requires 0 <= i < |closed| => closed[i]);
    assert a[..] == closed;
    SortInPlace(ClockedInBy, a);
    var chronological := a[..];
    byMemberDay := map[];
    for i := 0 to |chronological|
      invariant Buckets(chronological[..i], loc, byMemberDay)
    {
      var entry := chronological[i];
      var key := KeyOf(loc, entry);
      assert chronological[..i + 1] == chronological[..i] + [entry];
      var bucket := if key in byMemberDay then byMemberDay[key] else [];
      ghost var before := byMemberDay;
      byMemberDay := byMemberDay[key := bucket + [entry.shift]];
      BucketsGrow(chronological[..i], entry, loc, before, byMemberDay);
    }
    assert chronological[..|chronological|] == chronological;
  }

  lemma {:induction false} ClosedCount(entries: seq<EntryRow>, e: EntryRow)
    ensures multiset(Closed(entries))[e] == if e.shift.outAt.Some? then multiset(entries)[e] else 0
  {
    if entries != [] {
      ClosedCount(entries[..|entries| - 1], e);
      assert entries == entries[..|entries| - 1] + [entries[|entries| - 1]];
    }
  }

  lemma {:induction false} WithCount(list: seq<EntryRow>, loc: R.Loc, key: Key, e: EntryRow)
    ensures multiset(With(list, loc, key))[e] == if KeyOf(loc, e) == key then multiset(list)[e] else 0
  {
    if list != [] {
      WithCount(list[..|list| - 1], loc, key, e);
      assert list == list[..|list| - 1] + [list[|list| - 1]];
    }
  }

  lemma {:induction false} WithIsSorted(list: seq<EntryRow>, loc: R.Loc, key: Key)
    requires Sorted(ClockedInBy, list)
    ensures Sorted(ClockedInBy, With(list, loc, key))
    ensures forall k :: 0 <= k < |With(list, loc, key)| ==> With(list, loc, key)[k] in list
  {
    if list != [] {
      var front, last := list[..|list| - 1], list[|list| - 1];
      WithIsSorted(front, loc, key);
      forall k | 0 <= k < |With(front, loc, key)|
        ensures ClockedInBy(With(front, loc, key)[k], last)
      {
        var j :| 0 <= j < |front| && front[j] == With(front, loc, key)[k];
        assert ClockedInBy(list[j], list[|list| - 1]);
      }
    }
  }

  /** A bucket holds exactly the closed shifts of its member and day, each as often as listed, in clock-in order. */
  lemma BucketIs(entries: seq<EntryRow>, loc: R.Loc, key: Key, e: EntryRow)
    ensures multiset(With(Chronological(entries), loc, key))[e] ==
            if e.shift.outAt.Some? && e.user == key.1 && R.StartedOn(loc, e.shift.inAt, key.0)
            then multiset(entries)[e] else 0
    ensures Sorted((a: EntryRow, b: EntryRow) => a.shift.inAt <= b.shift.inAt, With(Chronological(entries), loc, key))
  {
    R.DayIs(loc, e.shift.inAt, key.0);
    SortByCorrect(ClockedInBy, Closed(entries));
    ClosedCount(entries, e);
    WithCount(Chronological(entries), loc, key, e);
    WithIsSorted(Chronological(entries), loc, key);
  }

  function PunchOf(e: EntryRow): R.Punch {
    R.Punch(e.user, e.shift.inAt, e.shift.outAt)
  }

  /** A shift's length as the payroll rounds it; a running one has none. */
  function ShiftMinutes(s: Shift): int {
    if s.outAt.Some? then R.RoundMinutes(G.Sub(s.outAt.value, s.inAt)) else 0
  }

  function BucketMinutes(worked: seq<Shift>): int {
    S.Sum(Map(ShiftMinutes, worked))
  }

  lemma MinutesGrow(ctx: R.Context, list: seq<EntryRow>, e: EntryRow, d: int, u: string)
    ensures R.MinutesFor(ctx, Map(PunchOf, list + [e]), d, u) ==
            R.MinutesFor(ctx, Map(PunchOf, list), d, u) + R.Credit(ctx, PunchOf(e), d, u)
  {
    var f := (p: R.Punch) => R.Credit(ctx, p, d, u);
    var all := Map(f, Map(PunchOf, list + [e]));
    assert all[..|list|] == Map(f, Map(PunchOf, list));
  }

  lemma BucketGrows(worked: seq<Shift>, s: Shift)
    ensures BucketMinutes(worked + [s]) == BucketMinutes(worked) + ShiftMinutes(s)
  {
    assert Map(ShiftMinutes, worked + [s])[..|worked|] == Map(ShiftMinutes, worked);
  }

  lemma CreditIs(ctx: R.Context, e: EntryRow, d: int, u: string)
    requires u in ctx.byUser && R.InRange(ctx, d)
    ensures R.Credit(ctx, PunchOf(e), d, u) == if KeyOf(ctx.loc, e) == (d, u) then ShiftMinutes(e.shift) else 0
  {
  }

  lemma {:induction false} BucketIsPaid(ctx: R.Context, list: seq<EntryRow>, d: int, u: string)
    requires u in ctx.byUser && R.InRange(ctx, d)
    ensures R.MinutesFor(ctx, Map(PunchOf, list), d, u) == BucketMinutes(ShiftsOf(With(list, ctx.loc, (d, u))))
  {
    if list != [] {
      var front, e := list[..|list| - 1], list[|list| - 1];
      assert list == front + [e];
      BucketIsPaid(ctx, front, d, u);
      MinutesGrow(ctx, front, e, d, u);
      CreditIs(ctx, e, d, u);
      BucketOf(front, e, ctx.loc, (d, u));
    }
  }

  lemma BucketOf(list: seq<EntryRow>, e: EntryRow, loc: R.Loc, key: Key)
    ensures BucketMinutes(ShiftsOf(With(list + [e], loc, key))) ==
            BucketMinutes(ShiftsOf(With(list, loc, key))) + if KeyOf(loc, e) == key then ShiftMinutes(e.shift) else 0
  {
    WithAppend(list, e, loc, key);
    if KeyOf(loc, e) == key {
      BucketGrows(ShiftsOf(With(list, loc, key)), e.shift);
    } else {
      assert With(list, loc, key) + [] == With(list, loc, key);
    }
  }

  lemma {:induction false} OpenShiftsAreUnpaid(ctx: R.Context, entries: seq<EntryRow>, d: int, u: string)
    ensures R.MinutesFor(ctx, Map(PunchOf, Closed(entries)), d, u) == R.MinutesFor(ctx, Map(PunchOf, entries), d, u)
  {
    if entries != [] {
      var front, e := entries[..|entries| - 1], entries[|entries| - 1];
      assert entries == front + [e];
      OpenShiftsAreUnpaid(ctx, front, d, u);
      MinutesGrow(ctx, front, e, d, u);
      if e.shift.outAt.Some? {
        assert Closed(entries) == Closed(front) + [e];
        MinutesGrow(ctx, Closed(front), e, d, u);
      } else {
        assert Closed(entries) == Closed(front) + [] == Closed(front);
        assert R.Credit(ctx, PunchOf(e), d, u) == 0;
      }
    }
  }

  lemma OrderIsUnpaid(ctx: R.Context, entries: seq<EntryRow>, d: int, u: string)
    ensures R.MinutesFor(ctx, Map(PunchOf, Chronological(entries)), d, u) ==
            R.MinutesFor(ctx, Map(PunchOf, Closed(entries)), d, u)
  {
    SortByCorrect(ClockedInBy, Closed(entries));
    MapMultiset(PunchOf, Chronological(entries), Closed(entries));
    ReportIsRight.SameMinutes(ctx, Map(PunchOf, Chronological(entries)), Map(PunchOf, Closed(entries)), d, u);
  }

  /** A row is there for some closed shift of its member and day. */
  lemma SomeShift(ctx: R.Context, entries: seq<EntryRow>, tips: seq<R.Tip>, days: seq<R.ReportDay>, k: nat, j: nat)
    returns (e: EntryRow)
    requires R.IsReport(ctx, Map(PunchOf, entries), tips, days) && k < |days| && j < |days[k].rows|
    ensures var d, u := days[k].date, days[k].rows[j].id;
            && e in entries && e.shift.outAt.Some? && e.user == u && R.StartedOn(ctx.loc, e.shift.inAt, d)
            && u in ctx.byUser && R.InRange(ctx, d)
            && days[k].rows[j].minutes == R.MinutesFor(ctx, Map(PunchOf, entries), d, u)
  {
    var punches, d, u := Map(PunchOf, entries), days[k].date, days[k].rows[j].id;
    assert R.IsReportDay(ctx, punches, tips, days[k]);
    assert R.RowIs(ctx.byUser, R.TipOf(tips, d), R.WorkedOn(ctx, punches, d), days[k].rows, j);
    assert R.Worked(ctx, punches, d, u);
    var p :| p in punches && R.CountsFor(ctx, p, d, u);
    var i :| 0 <= i < |punches| && punches[i] == p;
    e := entries[i];
    R.DayIs(ctx.loc, e.shift.inAt, d);
  }

  /** Every paid row of a report over the same entries finds the shifts it was paid for: their minutes are its own. */
  lemma EveryPaidRowHasItsShifts(ctx: R.Context, entries: seq<EntryRow>, tips: seq<R.Tip>, days: seq<R.ReportDay>,
                                 shifts: Shifts, k: nat, j: nat)
    requires R.IsReport(ctx, Map(PunchOf, entries), tips, days) && Buckets(Chronological(entries), ctx.loc, shifts)
    requires k < |days| && j < |days[k].rows|
    ensures var worked := WorkedShifts(shifts, days[k].date, days[k].rows[j].id);
            worked != [] && BucketMinutes(worked) == days[k].rows[j].minutes
  {
    var d, u := days[k].date, days[k].rows[j].id;
    var e := SomeShift(ctx, entries, tips, days, k, j);
    BucketIs(entries, ctx.loc, (d, u), e);
    assert e in multiset(With(Chronological(entries), ctx.loc, (d, u)));
    BucketIsPaid(ctx, Chronological(entries), d, u);
    OrderIsUnpaid(ctx, entries, d, u);
    OpenShiftsAreUnpaid(ctx, entries, d, u);
  }
}
