/** What a payroll report promises whoever reads it: balanced, complete, and a matter of its inputs alone. */
module ReportIsRight {
  import opened Options
  import opened Sorting
  import opened Names
  import opened Report
  import S = Split

  /* ---- one answer ---- */

  lemma RowsAreDetermined(byUser: map<string, Member>, tip: int, worked: map<string, int>, a: seq<Row>, b: seq<Row>)
    requires RowsOf(byUser, tip, worked, a) && RowsOf(byUser, tip, worked, b)
    ensures a == b
  {
    RowOrderIsOrder(byUser);
    SameElementsSameOrder(RowOrder(byUser), RowIds(a), RowIds(b));
    assert |a| == |RowIds(a)| == |RowIds(b)| == |b|;
    forall k | 0 <= k < |a|
      ensures a[k].minutes == b[k].minutes && a[k].id == b[k].id
    {
      assert RowIds(a)[k] == RowIds(b)[k];
      assert RowIs(byUser, tip, worked, a, k) && RowIs(byUser, tip, worked, b, k);
    }
    assert RowMinutes(a) == RowMinutes(b);
    forall k | 0 <= k < |a|
      ensures a[k] == b[k]
    {
      assert RowIs(byUser, tip, worked, a, k) && RowIs(byUser, tip, worked, b, k);
    }
  }

  lemma DayIsDetermined(byUser: map<string, Member>, date: int, tip: int, worked: map<string, int>, a: ReportDay,
                        b: ReportDay)
    requires IsDay(byUser, date, tip, worked, a) && IsDay(byUser, date, tip, worked, b)
    ensures a == b
  {
    RowsAreDetermined(byUser, tip, worked, a.rows, b.rows);
  }

  /** The two sets of inputs say the same of a day. */
  ghost predicate AgreeOn(c1: Context, e1: seq<Punch>, t1: seq<Tip>, c2: Context, e2: seq<Punch>, t2: seq<Tip>,
                          d: int)
  {
    && (OnReport(c1, e1, t1, d) <==> OnReport(c2, e2, t2, d))
    && (OnReport(c1, e1, t1, d) ==> TipOf(t1, d) == TipOf(t2, d) && WorkedOn(c1, e1, d) == WorkedOn(c2, e2, d))
  }

  lemma DatesAscend(days: seq<ReportDay>)
    requires forall j, k :: 0 <= j < k < |days| ==> days[j].date < days[k].date
    ensures Distinct(Dates(days)) && Sorted((x: int, y: int) => x <= y, Dates(days))
  {
  }

  lemma DateIsDay(days: seq<ReportDay>, d: int)
    ensures d in Elements(Dates(days)) <==> HasDay(days, d)
  {
    if HasDay(days, d) {
      var k :| 0 <= k < |days| && days[k].date == d;
      assert Dates(days)[k] == d;
    }
  }

  /** Inputs that agree on every day have one report between them. */
  lemma ReportIsDetermined(c1: Context, e1: seq<Punch>, t1: seq<Tip>, r1: seq<ReportDay>, c2: Context, e2: seq<Punch>,
                           t2: seq<Tip>, r2: seq<ReportDay>)
    requires IsReport(c1, e1, t1, r1) && IsReport(c2, e2, t2, r2) && c1.byUser == c2.byUser
    requires forall d {:trigger AgreeOn(c1, e1, t1, c2, e2, t2, d)} :: AgreeOn(c1, e1, t1, c2, e2, t2, d)
    ensures r1 == r2
  {
    SameDates(c1, e1, t1, r1, c2, e2, t2, r2);
    assert |r1| == |Dates(r1)| == |Dates(r2)| == |r2|;
    forall k | 0 <= k < |r1|
      ensures r1[k] == r2[k]
    {
      var d := r1[k].date;
      assert Dates(r1)[k] == Dates(r2)[k];
      assert HasDay(r1, d) && AgreeOn(c1, e1, t1, c2, e2, t2, d);
      assert IsReportDay(c1, e1, t1, r1[k]) && IsReportDay(c2, e2, t2, r2[k]);
      DayIsDetermined(c1.byUser, d, TipOf(t1, d), WorkedOn(c1, e1, d), r1[k], r2[k]);
    }
  }

  lemma SameDates(c1: Context, e1: seq<Punch>, t1: seq<Tip>, r1: seq<ReportDay>, c2: Context, e2: seq<Punch>,
                  t2: seq<Tip>, r2: seq<ReportDay>)
    requires IsReport(c1, e1, t1, r1) && IsReport(c2, e2, t2, r2)
    requires forall d {:trigger AgreeOn(c1, e1, t1, c2, e2, t2, d)} :: AgreeOn(c1, e1, t1, c2, e2, t2, d)
    ensures Dates(r1) == Dates(r2)
  {
    DatesAscend(r1);
    DatesAscend(r2);
    forall d
      ensures d in Elements(Dates(r1)) <==> d in Elements(Dates(r2))
    {
      assert AgreeOn(c1, e1, t1, c2, e2, t2, d);
      DateIsDay(r1, d);
      DateIsDay(r2, d);
    }
    SameElementsSameOrder((x: int, y: int) => x <= y, Dates(r1), Dates(r2));
  }

  /* ---- the order entries arrive in ---- */

  lemma SameElements(a: seq<Punch>, b: seq<Punch>, e: Punch)
    requires multiset(a) == multiset(b)
    ensures e in a <==> e in b
  {
    assert e in a <==> e in multiset(a);
    assert e in b <==> e in multiset(b);
  }

  lemma SameMinutes(ctx: Context, a: seq<Punch>, b: seq<Punch>, day: int, u: string)
    requires multiset(a) == multiset(b)
    ensures MinutesFor(ctx, a, day, u) == MinutesFor(ctx, b, day, u)
    ensures Worked(ctx, a, day, u) <==> Worked(ctx, b, day, u)
  {
    var f := (e: Punch) => Credit(ctx, e, day, u);
    MapMultiset(f, a, b);
    S.SumMultiset(Map(f, a), Map(f, b));
    forall e: Punch
      ensures e in a <==> e in b
    {
      SameElements(a, b, e);
    }
  }

  lemma SameDay(ctx: Context, a: seq<Punch>, b: seq<Punch>, tips: seq<Tip>, d: int)
    requires multiset(a) == multiset(b)
    ensures AgreeOn(ctx, a, tips, ctx, b, tips, d)
  {
    forall u: string
      ensures SameAt(WorkedOn(ctx, a, d), WorkedOn(ctx, b, d), u)
    {
      SameMinutes(ctx, a, b, d, u);
    }
    SameMaps(WorkedOn(ctx, a, d), WorkedOn(ctx, b, d));
    forall e: Punch
      ensures e in a <==> e in b
    {
      SameElements(a, b, e);
    }
  }

  /** Neither the order Mongo returns entries in nor any map's order of keys can show in the report. */
  lemma EntryOrderDoesNotMatter(ctx: Context, a: seq<Punch>, b: seq<Punch>, tips: seq<Tip>, r: seq<ReportDay>,
                                s: seq<ReportDay>)
    requires multiset(a) == multiset(b) && IsReport(ctx, a, tips, r) && IsReport(ctx, b, tips, s)
    ensures r == s
  {
    forall d
      ensures AgreeOn(ctx, a, tips, ctx, b, tips, d)
    {
      SameDay(ctx, a, b, tips, d);
    }
    ReportIsDetermined(ctx, a, tips, r, ctx, b, tips, s);
  }

  /* ---- the money balances ---- */

  lemma {:induction false} RowsBalance(rows: seq<Row>)
    requires forall k :: 0 <= k < |rows| ==>
               rows[k].total == rows[k].tipShare + if rows[k].base.Some? then rows[k].base.value else 0
    ensures S.Sum(RowTotals(rows)) == S.Sum(RowBases(rows)) + S.Sum(RowShares(rows))
  {
    if rows != [] {
      var front, x := rows[..|rows| - 1], rows[|rows| - 1];
      assert rows == front + [x];
      RowsBalance(front);
      TotalsGrow(front, x);
    }
  }

  lemma RowsSplitThePool(byUser: map<string, Member>, tip: int, worked: map<string, int>, rows: seq<Row>)
    requires RowsOf(byUser, tip, worked, rows)
    ensures RowShares(rows) == S.Shares(tip, RowMinutes(rows))
    ensures S.Sum(RowTotals(rows)) == S.Sum(RowBases(rows)) + S.Sum(RowShares(rows))
  {
    forall k | 0 <= k < |rows|
      ensures rows[k].tipShare == S.Shares(tip, RowMinutes(rows))[k]
      ensures rows[k].total == rows[k].tipShare + if rows[k].base.Some? then rows[k].base.value else 0
    {
      assert RowIs(byUser, tip, worked, rows, k);
    }
    RowsBalance(rows);
  }

  lemma SomeoneInRows(byUser: map<string, Member>, tip: int, worked: map<string, int>, rows: seq<Row>)
    requires RowsOf(byUser, tip, worked, rows)
    ensures S.Total(RowMinutes(rows)) > 0 <==> exists u :: u in worked && worked[u] > 0
  {
    SomebodyWorked(RowMinutes(rows));
    forall k | 0 <= k < |rows|
      ensures rows[k].id in worked && RowMinutes(rows)[k] == worked[rows[k].id]
    {
      assert RowIs(byUser, tip, worked, rows, k);
    }
    forall u | u in worked && worked[u] > 0
      ensures S.Total(RowMinutes(rows)) > 0
    {
      assert u in Elements(RowIds(rows));
      var k :| 0 <= k < |rows| && RowIds(rows)[k] == u;
      assert RowMinutes(rows)[k] > 0;
    }
  }

  /** A day's total is base pay plus tips, and the tips are the whole pool as soon as anyone worked a minute. */
  lemma DayBalances(byUser: map<string, Member>, date: int, tip: int, worked: map<string, int>, day: ReportDay)
    requires IsDay(byUser, date, tip, worked, day)
    ensures day.totalCents == day.totalBase + day.totalTipShare
    ensures day.totalTipShare == if tip > 0 && exists u :: u in worked && worked[u] > 0 then tip else 0
  {
    RowsSplitThePool(byUser, tip, worked, day.rows);
    S.SharesAreExact(tip, RowMinutes(day.rows));
    SomeoneInRows(byUser, tip, worked, day.rows);
  }

  lemma {:induction false} SomebodyWorked(minutes: seq<int>)
    ensures S.Total(minutes) > 0 <==> exists k :: 0 <= k < |minutes| && minutes[k] > 0
  {
    if minutes != [] {
      var n := |minutes| - 1;
      SomebodyWorked(minutes[..n]);
      if minutes[n] <= 0 && S.Total(minutes) > 0 {
        var k :| 0 <= k < n && minutes[..n][k] > 0;
        assert minutes[k] > 0;
      }
      forall k | 0 <= k < |minutes| && minutes[k] > 0
        ensures S.Total(minutes) > 0
      {
        assert k < n ==> minutes[..n][k] > 0;
      }
    }
  }

  /** Base pay is the exact rate for the minutes, to the nearest cent, halves up. */
  lemma BasePayIsNearest(rate: nat, minutes: nat)
    ensures 60 * BasePay(rate, minutes) - 30 <= rate * minutes < 60 * BasePay(rate, minutes) + 30
  {
  }

  /** A shift's minutes are its length to the nearest minute, halves away from zero. */
  lemma MinutesAreNearest(d: int)
    ensures d >= 0 ==> 2 * MINUTE * RoundMinutes(d) - MINUTE <= 2 * d < 2 * MINUTE * RoundMinutes(d) + MINUTE
    ensures RoundMinutes(-d) == -RoundMinutes(d)
  {
  }

  /* ---- every shift is paid, once ---- */

  /** The cells of the report: who is paid on which day. */
  ghost function CellsOf(day: ReportDay): seq<(int, string)> {
    Map((x: Row) => (day.date, x.id), day.rows)
  }

  ghost function Cells(days: seq<ReportDay>): seq<(int, string)> {
    if days == [] then [] else Cells(days[..|days| - 1]) + CellsOf(days[|days| - 1])
  }

  ghost function CellMinutes(ctx: Context, entries: seq<Punch>, cells: seq<(int, string)>): seq<int> {
    Map((c: (int, string)) => MinutesFor(ctx, entries, c.0, c.1), cells)
  }

  ghost function Credits(ctx: Context, e: Punch, cells: seq<(int, string)>): seq<int> {
    Map((c: (int, string)) => Credit(ctx, e, c.0, c.1), cells)
  }

  lemma {:induction false} SumsAdd(a: seq<int>, b: seq<int>, c: seq<int>)
    requires |a| == |b| == |c| && forall k :: 0 <= k < |a| ==> c[k] == a[k] + b[k]
    ensures S.Sum(c) == S.Sum(a) + S.Sum(b)
  {
    if a != [] {
      var n := |a| - 1;
      SumsAdd(a[..n], b[..n], c[..n]);
    }
  }

  lemma {:induction false} NoCredit(ctx: Context, e: Punch, cells: seq<(int, string)>)
    requires !Counted(ctx, e) || (DayOf(ctx, e), e.user) !in cells
    ensures S.Sum(Credits(ctx, e, cells)) == 0
  {
    if cells != [] {
      var n := |cells| - 1;
      assert cells[n] in cells;
      assert Credits(ctx, e, cells)[..n] == Credits(ctx, e, cells[..n]);
      NoCredit(ctx, e, cells[..n]);
    }
  }

  /** An entry is credited to exactly one cell. */
  lemma {:induction false} OneCredit(ctx: Context, e: Punch, cells: seq<(int, string)>)
    requires Distinct(cells) && Counted(ctx, e) && (DayOf(ctx, e), e.user) in cells
    ensures S.Sum(Credits(ctx, e, cells)) == Minutes(e)
  {
    var n := |cells| - 1;
    assert Credits(ctx, e, cells)[..n] == Credits(ctx, e, cells[..n]);
    if cells[n] == (DayOf(ctx, e), e.user) {
      NoCredit(ctx, e, cells[..n]);
    } else {
      OneCredit(ctx, e, cells[..n]);
    }
  }

  /** A closed shift of a known member that clocked in between the midnights of the range, by the wall clock. */
  predicate Requested(ctx: Context, e: Punch) {
    && e.outAt.Some? && e.user in ctx.byUser
    && (ctx.from.Some? ==> ctx.from.value * DAY <= e.inAt + ctx.loc(e.inAt))
    && (ctx.to.Some? ==> e.inAt + ctx.loc(e.inAt) < (ctx.to.value + 1) * DAY)
  }

  lemma CountedIff(ctx: Context, e: Punch)
    ensures Counted(ctx, e) <==> Requested(ctx, e)
  {
    DayIs(ctx.loc, e.inAt, LocalDay(ctx.loc, e.inAt));
  }

  /** The minutes of the entries that count. */
  ghost function PaidMinutes(ctx: Context, entries: seq<Punch>): int {
    S.Sum(Map((e: Punch) => if Requested(ctx, e) then Minutes(e) else 0, entries))
  }

  lemma {:induction false} CellsHoldEverything(ctx: Context, entries: seq<Punch>, cells: seq<(int, string)>)
    requires Distinct(cells) && forall e :: e in entries && Counted(ctx, e) ==> (DayOf(ctx, e), e.user) in cells
    ensures S.Sum(CellMinutes(ctx, entries, cells)) == PaidMinutes(ctx, entries)
  {
    if entries == [] {
      AllZero(CellMinutes(ctx, entries, cells));
    } else {
      var front, e := entries[..|entries| - 1], entries[|entries| - 1];
      assert entries == front + [e] && e in entries;
      CellsHoldEverything(ctx, front, cells);
      MapSum((e: Punch) => if Requested(ctx, e) then Minutes(e) else 0, front, e);
      CountedIff(ctx, e);
      CellMinutesGrow(ctx, front, e, cells);
      if Counted(ctx, e) {
        OneCredit(ctx, e, cells);
      } else {
        NoCredit(ctx, e, cells);
      }
    }
  }

  lemma CellMinutesGrow(ctx: Context, entries: seq<Punch>, e: Punch, cells: seq<(int, string)>)
    ensures S.Sum(CellMinutes(ctx, entries + [e], cells)) == S.Sum(CellMinutes(ctx, entries, cells))
            + S.Sum(Credits(ctx, e, cells))
  {
    var a, b, c := CellMinutes(ctx, entries, cells), Credits(ctx, e, cells), CellMinutes(ctx, entries + [e], cells);
    forall k | 0 <= k < |cells|
      ensures c[k] == a[k] + b[k]
    {
      MinutesGrow(ctx, entries, e, cells[k].0, cells[k].1);
    }
    SumsAdd(a, b, c);
  }

  lemma {:induction false} AllZero(s: seq<int>)
    requires forall k :: 0 <= k < |s| ==> s[k] == 0
    ensures S.Sum(s) == 0
  {
    S.SumOfZeros(s, 0);
    assert s[..0] == [];
  }

  ghost predicate OnDay(day: ReportDay, c: (int, string)) {
    day.date == c.0 && c.1 in RowIds(day.rows)
  }

  ghost predicate OnSomeDay(days: seq<ReportDay>, c: (int, string)) {
    exists k :: 0 <= k < |days| && OnDay(days[k], c)
  }

  lemma CellsOfDay(day: ReportDay, c: (int, string))
    ensures c in CellsOf(day) <==> OnDay(day, c)
  {
    if OnDay(day, c) {
      var j :| 0 <= j < |day.rows| && RowIds(day.rows)[j] == c.1;
      assert CellsOf(day)[j] == c;
    }
    if c in CellsOf(day) {
      var j :| 0 <= j < |day.rows| && CellsOf(day)[j] == c;
      assert RowIds(day.rows)[j] == c.1;
    }
  }

  lemma OneMoreDay(days: seq<ReportDay>, c: (int, string))
    requires days != []
    ensures OnSomeDay(days, c) <==> OnSomeDay(days[..|days| - 1], c) || OnDay(days[|days| - 1], c)
  {
    var front := days[..|days| - 1];
    if OnSomeDay(front, c) {
      var k :| 0 <= k < |front| && OnDay(front[k], c);
      assert days[k] == front[k];
    }
    if OnSomeDay(days, c) {
      var k :| 0 <= k < |days| && OnDay(days[k], c);
      assert k < |front| ==> front[k] == days[k];
    }
  }

  lemma {:induction false} CellIn(days: seq<ReportDay>, c: (int, string))
    ensures c in Cells(days) <==> OnSomeDay(days, c)
  {
    if days != [] {
      CellIn(days[..|days| - 1], c);
      CellsOfDay(days[|days| - 1], c);
      OneMoreDay(days, c);
    }
  }

  /** The total minutes of the days. */
  function DayMinutes(days: seq<ReportDay>): seq<int> {
    Map((d: ReportDay) => d.totalMinutes, days)
  }

  lemma {:induction false} CellsDistinct(days: seq<ReportDay>)
    requires forall j, k :: 0 <= j < k < |days| ==> days[j].date < days[k].date
    requires forall k :: 0 <= k < |days| ==> Distinct(RowIds(days[k].rows))
    ensures Distinct(Cells(days))
  {
    if days != [] {
      var n := |days| - 1;
      var a, b := Cells(days[..n]), CellsOf(days[n]);
      CellsDistinct(days[..n]);
      forall j | 0 <= j < |a|
        ensures a[j].0 < days[n].date
      {
        CellIn(days[..n], a[j]);
        var k :| 0 <= k < n && OnDay(days[..n][k], a[j]);
        assert days[k].date < days[n].date;
      }
      forall j, k | 0 <= j < k < |b|
        ensures b[j] != b[k]
      {
        assert RowIds(days[n].rows)[j] != RowIds(days[n].rows)[k];
      }
    }
  }

  /** A day's own total is the sum over its cells. */
  lemma DayHoldsItsCells(ctx: Context, entries: seq<Punch>, tips: seq<Tip>, day: ReportDay)
    requires IsReportDay(ctx, entries, tips, day)
    ensures S.Sum(CellMinutes(ctx, entries, CellsOf(day))) == day.totalMinutes
  {
    forall k | 0 <= k < |day.rows|
      ensures CellMinutes(ctx, entries, CellsOf(day))[k] == RowMinutes(day.rows)[k]
    {
      assert RowIs(ctx.byUser, TipOf(tips, day.date), WorkedOn(ctx, entries, day.date), day.rows, k);
    }
    assert CellMinutes(ctx, entries, CellsOf(day)) == RowMinutes(day.rows);
  }

  lemma CellMinutesConcat(ctx: Context, entries: seq<Punch>, a: seq<(int, string)>, b: seq<(int, string)>)
    ensures S.Sum(CellMinutes(ctx, entries, a + b)) == S.Sum(CellMinutes(ctx, entries, a))
            + S.Sum(CellMinutes(ctx, entries, b))
  {
    var f := (c: (int, string)) => MinutesFor(ctx, entries, c.0, c.1);
    assert Map(f, a + b) == Map(f, a) + Map(f, b);
    S.SumConcat(Map(f, a), Map(f, b));
  }

  lemma {:induction false} DaysHoldTheirCells(ctx: Context, entries: seq<Punch>, tips: seq<Tip>, days: seq<ReportDay>)
    requires forall k :: 0 <= k < |days| ==> IsReportDay(ctx, entries, tips, days[k])
    ensures S.Sum(CellMinutes(ctx, entries, Cells(days))) == S.Sum(DayMinutes(days))
  {
    if days != [] {
      var front, day := days[..|days| - 1], days[|days| - 1];
      DaysHoldTheirCells(ctx, entries, tips, front);
      assert IsReportDay(ctx, entries, tips, day);
      DayHoldsItsCells(ctx, entries, tips, day);
      CellMinutesConcat(ctx, entries, Cells(front), CellsOf(day));
      assert days == front + [day];
      MapSum((d: ReportDay) => d.totalMinutes, front, day);
    }
  }

  lemma CellOfEntry(ctx: Context, entries: seq<Punch>, tips: seq<Tip>, days: seq<ReportDay>, e: Punch)
    requires IsReport(ctx, entries, tips, days) && e in entries && Counted(ctx, e)
    ensures (DayOf(ctx, e), e.user) in Cells(days)
  {
    var d := DayOf(ctx, e);
    assert OnReport(ctx, entries, tips, d);
    assert HasDay(days, d);
    var k :| 0 <= k < |days| && days[k].date == d;
    assert IsReportDay(ctx, entries, tips, days[k]);
    assert CountsFor(ctx, e, d, e.user) && Worked(ctx, entries, d, e.user);
    assert e.user in WorkedOn(ctx, entries, d);
    assert e.user in Elements(RowIds(days[k].rows));
    assert OnDay(days[k], (d, e.user));
    CellIn(days, (d, e.user));
  }

  /**
   * The minutes on the report are the minutes of the closed shifts of known members that clocked in within
   * the requested days: none is lost, and none is paid on two days or to two people. A shift is on the row of
   * its member on the day d with d * DAY <= inAt + loc(inAt) < (d + 1) * DAY.
   */
  lemma EveryShiftIsPaidOnce(ctx: Context, entries: seq<Punch>, tips: seq<Tip>, days: seq<ReportDay>)
    requires IsReport(ctx, entries, tips, days)
    ensures S.Sum(DayMinutes(days)) == PaidMinutes(ctx, entries)
    ensures Distinct(Cells(days))
    ensures forall e, d {:trigger StartedOn(ctx.loc, e.inAt, d)} ::
              e in entries && Requested(ctx, e) && StartedOn(ctx.loc, e.inAt, d) ==> (d, e.user) in Cells(days)
  {
    CountedOnTheirDays(ctx, entries, tips, days);
    forall e, d | e in entries && Requested(ctx, e) && StartedOn(ctx.loc, e.inAt, d)
      ensures (d, e.user) in Cells(days)
    {
      CountedIff(ctx, e);
      DayIs(ctx.loc, e.inAt, d);
    }
  }

  lemma CountedOnTheirDays(ctx: Context, entries: seq<Punch>, tips: seq<Tip>, days: seq<ReportDay>)
    requires IsReport(ctx, entries, tips, days)
    ensures S.Sum(DayMinutes(days)) == PaidMinutes(ctx, entries)
    ensures Distinct(Cells(days))
    ensures forall e :: e in entries && Counted(ctx, e) ==> (DayOf(ctx, e), e.user) in Cells(days)
  {
    forall k | 0 <= k < |days|
      ensures Distinct(RowIds(days[k].rows))
    {
      assert IsReportDay(ctx, entries, tips, days[k]);
    }
    CellsDistinct(days);
    forall e | e in entries && Counted(ctx, e)
      ensures (DayOf(ctx, e), e.user) in Cells(days)
    {
      CellOfEntry(ctx, entries, tips, days, e);
    }
    CellsHoldEverything(ctx, entries, Cells(days));
    DaysHoldTheirCells(ctx, entries, tips, days);
  }

  /* ---- ranges ---- */

  /** Store.List: the pools of the requested days. */
  function Window(tips: seq<Tip>, from: Option<int>, to: Option<int>): seq<Tip> {
    if tips == [] then []
    else
      var t := tips[|tips| - 1];
      Window(tips[..|tips| - 1], from, to) + if (from.Some? ==> from.value <= t.date)
        && (to.Some? ==> t.date <= to.value) then [t] else []
  }

  lemma {:induction false} WindowOf(tips: seq<Tip>, from: Option<int>, to: Option<int>, d: int)
    ensures var inside := (from.Some? ==> from.value <= d) && (to.Some? ==> d <= to.value);
            && TipOf(Window(tips, from, to), d) == (if inside then TipOf(tips, d) else 0)
            && (HasTip(Window(tips, from, to), d) <==> inside && HasTip(tips, d))
  {
    if tips != [] {
      var front, t := tips[..|tips| - 1], tips[|tips| - 1];
      WindowOf(front, from, to, d);
      assert tips == front + [t];
      HasTipAppend(front, t, d);
      HasTipAppend(Window(front, from, to), t, d);
      if (from.Some? ==> from.value <= t.date) && (to.Some? ==> t.date <= to.value) {
        assert Window(tips, from, to)[..|Window(front, from, to)|] == Window(front, from, to);
      } else {
        assert Window(tips, from, to) == Window(front, from, to);
      }
    }
  }

  lemma HasTipAppend(tips: seq<Tip>, t: Tip, d: int)
    ensures HasTip(tips + [t], d) <==> HasTip(tips, d) || t.date == d
  {
    if HasTip(tips, d) {
      var k :| 0 <= k < |tips| && tips[k].date == d;
      assert (tips + [t])[k].date == d;
    }
    assert (tips + [t])[|tips|] == t;
  }

  lemma WorkedInRange(ctx: Context, wide: Context, entries: seq<Punch>, d: int)
    requires ctx.byUser == wide.byUser && ctx.loc == wide.loc && InRange(ctx, d) && InRange(wide, d)
    ensures WorkedOn(ctx, entries, d) == WorkedOn(wide, entries, d)
    ensures SomeoneWorked(ctx, entries, d) <==> SomeoneWorked(wide, entries, d)
  {
    forall u: string
      ensures SameAt(WorkedOn(ctx, entries, d), WorkedOn(wide, entries, d), u)
    {
      forall e: Punch
        ensures CountsFor(ctx, e, d, u) <==> CountsFor(wide, e, d, u)
      {
      }
      assert Map((e: Punch) => Credit(ctx, e, d, u), entries) == Map((e: Punch) => Credit(wide, e, d, u), entries);
    }
    SameMaps(WorkedOn(ctx, entries, d), WorkedOn(wide, entries, d));
  }

  lemma OutOfRange(ctx: Context, entries: seq<Punch>, d: int)
    requires !InRange(ctx, d)
    ensures !SomeoneWorked(ctx, entries, d)
  {
  }

  lemma AscendingConcat(x: seq<ReportDay>, y: seq<ReportDay>, b: int)
    requires forall j, k :: 0 <= j < k < |x| ==> x[j].date < x[k].date
    requires forall j, k :: 0 <= j < k < |y| ==> y[j].date < y[k].date
    requires (forall k :: 0 <= k < |x| ==> x[k].date <= b) && (forall k :: 0 <= k < |y| ==> b < y[k].date)
    ensures forall j, k :: 0 <= j < k < |x + y| ==> (x + y)[j].date < (x + y)[k].date
  {
  }

  lemma HasDayConcat(x: seq<ReportDay>, y: seq<ReportDay>, d: int)
    ensures HasDay(x + y, d) <==> HasDay(x, d) || HasDay(y, d)
  {
    if HasDay(x, d) {
      var k :| 0 <= k < |x| && x[k].date == d;
      assert (x + y)[k].date == d;
    }
    if HasDay(y, d) {
      var k :| 0 <= k < |y| && y[k].date == d;
      assert (x + y)[|x| + k].date == d;
    }
  }

  /** Seen from the wider range, a day of the narrower one is the same day. */
  lemma SameInWider(ctx: Context, wide: Context, entries: seq<Punch>, tips: seq<Tip>, d: int)
    requires ctx.byUser == wide.byUser && ctx.loc == wide.loc && InRange(ctx, d) && InRange(wide, d)
    ensures AgreeOn(ctx, entries, Window(tips, ctx.from, ctx.to), wide, entries, Window(tips, wide.from, wide.to), d)
  {
    WorkedInRange(ctx, wide, entries, d);
    WindowOf(tips, ctx.from, ctx.to, d);
    WindowOf(tips, wide.from, wide.to, d);
  }

  /** A report shows requested days only. */
  lemma OnlyRequestedDays(ctx: Context, entries: seq<Punch>, tips: seq<Tip>, d: int)
    requires OnReport(ctx, entries, Window(tips, ctx.from, ctx.to), d)
    ensures InRange(ctx, d)
  {
    WindowOf(tips, ctx.from, ctx.to, d);
    if !InRange(ctx, d) {
      OutOfRange(ctx, entries, d);
    }
  }

  /** The report for a to c is the report for a to b followed by the report for b + 1 to c. */
  lemma RangesCompose(wide: Context, b: int, entries: seq<Punch>, tips: seq<Tip>, x: seq<ReportDay>, y: seq<ReportDay>,
                      r: seq<ReportDay>)
    requires (wide.from.Some? ==> wide.from.value <= b + 1) && (wide.to.Some? ==> b <= wide.to.value)
    requires IsReport(wide.(to := Some(b)), entries, Window(tips, wide.from, Some(b)), x)
    requires IsReport(wide.(from := Some(b + 1)), entries, Window(tips, Some(b + 1), wide.to), y)
    requires IsReport(wide, entries, Window(tips, wide.from, wide.to), r)
    ensures r == x + y
  {
    JoinedReport(wide, b, entries, tips, x, y);
    var t := Window(tips, wide.from, wide.to);
    forall d
      ensures AgreeOn(wide, entries, t, wide, entries, t, d)
    {
    }
    ReportIsDetermined(wide, entries, t, r, wide, entries, t, x + y);
  }

  lemma HalfOf(ctx: Context, wide: Context, entries: seq<Punch>, tips: seq<Tip>, x: seq<ReportDay>, k: nat)
    requires ctx.byUser == wide.byUser && ctx.loc == wide.loc && forall d :: InRange(ctx, d) ==> InRange(wide, d)
    requires IsReport(ctx, entries, Window(tips, ctx.from, ctx.to), x) && k < |x|
    ensures InRange(ctx, x[k].date) && IsReportDay(wide, entries, Window(tips, wide.from, wide.to), x[k])
  {
    var d := x[k].date;
    assert HasDay(x, d);
    OnlyRequestedDays(ctx, entries, tips, d);
    SameInWider(ctx, wide, entries, tips, d);
    assert IsReportDay(ctx, entries, Window(tips, ctx.from, ctx.to), x[k]);
  }

  lemma JoinedDay(wide: Context, b: int, entries: seq<Punch>, tips: seq<Tip>, d: int)
    requires (wide.from.Some? ==> wide.from.value <= b + 1) && (wide.to.Some? ==> b <= wide.to.value)
    ensures OnReport(wide, entries, Window(tips, wide.from, wide.to), d) <==>
            || OnReport(wide.(to := Some(b)), entries, Window(tips, wide.from, Some(b)), d)
            || OnReport(wide.(from := Some(b + 1)), entries, Window(tips, Some(b + 1), wide.to), d)
  {
    var left, right := wide.(to := Some(b)), wide.(from := Some(b + 1));
    WindowOf(tips, wide.from, wide.to, d);
    WindowOf(tips, left.from, left.to, d);
    WindowOf(tips, right.from, right.to, d);
    if InRange(left, d) {
      WorkedInRange(left, wide, entries, d);
      OutOfRange(right, entries, d);
    } else if InRange(right, d) {
      WorkedInRange(right, wide, entries, d);
      OutOfRange(left, entries, d);
    } else {
      OutOfRange(left, entries, d);
      OutOfRange(right, entries, d);
      OutOfRange(wide, entries, d);
    }
  }

  lemma JoinedReport(wide: Context, b: int, entries: seq<Punch>, tips: seq<Tip>, x: seq<ReportDay>, y: seq<ReportDay>)
    requires (wide.from.Some? ==> wide.from.value <= b + 1) && (wide.to.Some? ==> b <= wide.to.value)
    requires IsReport(wide.(to := Some(b)), entries, Window(tips, wide.from, Some(b)), x)
    requires IsReport(wide.(from := Some(b + 1)), entries, Window(tips, Some(b + 1), wide.to), y)
    ensures IsReport(wide, entries, Window(tips, wide.from, wide.to), x + y)
  {
    var left, right, t := wide.(to := Some(b)), wide.(from := Some(b + 1)), Window(tips, wide.from, wide.to);
    forall k: nat
      ensures k < |x| ==> x[k].date <= b && IsReportDay(wide, entries, t, x[k])
      ensures k < |y| ==> b < y[k].date && IsReportDay(wide, entries, t, y[k])
    {
      if k < |x| {
        HalfOf(left, wide, entries, tips, x, k);
      }
      if k < |y| {
        HalfOf(right, wide, entries, tips, y, k);
      }
    }
    AscendingConcat(x, y, b);
    forall d
      ensures HasDay(x + y, d) <==> OnReport(wide, entries, t, d)
    {
      HasDayConcat(x, y, d);
      JoinedDay(wide, b, entries, tips, d);
    }
  }

  /* ---- which membership, which pool ---- */

  /** A user is known exactly when some membership names them, and is paid at the rate of the last that does. */
  lemma {:induction false} LastMembershipWins(members: seq<Member>, u: string)
    ensures u in ByUser(members) <==> exists k :: 0 <= k < |members| && members[k].userId == Some(u)
    ensures forall k ::
              0 <= k < |members| && members[k].userId == Some(u)
              && (forall j :: k < j < |members| ==> members[j].userId != Some(u)) ==>
                u in ByUser(members) && ByUser(members)[u] == members[k]
  {
    if members != [] {
      var n := |members| - 1;
      var front := members[..n];
      LastMembershipWins(front, u);
      assert forall k :: 0 <= k < n ==> front[k] == members[k];
      if members[n].userId != Some(u) {
        assert u in ByUser(members) <==> u in ByUser(front);
      } else {
        assert members[n].userId == Some(u);
      }
    }
  }

  /** A day's pool is the last one listed for it, and zero when none is. */
  lemma {:induction false} LastPoolWins(tips: seq<Tip>, day: int)
    ensures !HasTip(tips, day) ==> TipOf(tips, day) == 0
    ensures forall k ::
              0 <= k < |tips| && tips[k].date == day && (forall j :: k < j < |tips| ==> tips[j].date != day) ==>
                TipOf(tips, day) == tips[k].cents
  {
    if tips != [] {
      var n := |tips| - 1;
      LastPoolWins(tips[..n], day);
      assert forall k :: 0 <= k < n ==> tips[..n][k] == tips[k];
      if HasTip(tips[..n], day) {
        var k :| 0 <= k < n && tips[..n][k].date == day;
        assert tips[k].date == day;
      }
    }
  }

  /* ---- the prefilter ---- */

  const SLACK: int := DAY
  const HALF_DAY: int := DAY / 2

  /** The offsets of a zone lie within twelve hours of each other. */
  ghost predicate Narrow(loc: Loc) {
    forall t, u {:trigger loc(t), loc(u)} :: loc(t) - loc(u) <= HALF_DAY
  }

  /**
   * instantWindow: local midnight of the bound, less or plus a day. `early`, `late` and `next` are
   * instants whose offsets Go uses to place a wall-clock time, whichever side of a change it picks.
   */
  function ParseDay(loc: Loc, day: int, probe: Time): Time {
    day * DAY - loc(probe)
  }

  function WindowStart(loc: Loc, from: int, early: Time): Time {
    ParseDay(loc, from, early) - SLACK
  }

  function WindowEnd(loc: Loc, to: int, late: Time, next: Time): Time {
    var midnight := ParseDay(loc, to, late);
    var wall := midnight + loc(midnight) + DAY;
    wall - loc(next) + SLACK
  }

  predicate InWindow(ctx: Context, early: Time, late: Time, next: Time, t: Time) {
    && (ctx.from.Some? ==> WindowStart(ctx.loc, ctx.from.value, early) <= t)
    && (ctx.to.Some? ==> t < WindowEnd(ctx.loc, ctx.to.value, late, next))
  }

  /** No instant of a requested day is outside the window. */
  lemma WindowIsWide(ctx: Context, early: Time, late: Time, next: Time, t: Time)
    requires Narrow(ctx.loc)
    requires ctx.from.Some? ==> ctx.from.value * DAY <= t + ctx.loc(t)
    requires ctx.to.Some? ==> t + ctx.loc(t) < (ctx.to.value + 1) * DAY
    ensures InWindow(ctx, early, late, next, t)
  {
    var loc := ctx.loc;
    if ctx.from.Some? {
      assert loc(t) - loc(early) <= HALF_DAY;
    }
    if ctx.to.Some? {
      var midnight := ParseDay(loc, ctx.to.value, late);
      assert loc(late) - loc(midnight) <= HALF_DAY && loc(next) - loc(t) <= HALF_DAY;
    }
  }

  function Prefiltered(ctx: Context, early: Time, late: Time, next: Time, entries: seq<Punch>): seq<Punch> {
    if entries == [] then []
    else
      var e := entries[|entries| - 1];
      Prefiltered(ctx, early, late, next, entries[..|entries| - 1]) + if InWindow(ctx, early, late, next, e.inAt)
        then [e] else []
  }

  lemma {:induction false} PrefilterKeepsCounted(ctx: Context, early: Time, late: Time, next: Time, entries: seq<Punch>,
                                                 day: int, u: string)
    requires Narrow(ctx.loc)
    ensures MinutesFor(ctx, Prefiltered(ctx, early, late, next, entries), day, u) == MinutesFor(ctx, entries, day, u)
    ensures Worked(ctx, Prefiltered(ctx, early, late, next, entries), day, u) <==> Worked(ctx, entries, day, u)
  {
    if entries != [] {
      var front, e := entries[..|entries| - 1], entries[|entries| - 1];
      PrefilterKeepsCounted(ctx, early, late, next, front, day, u);
      assert entries == front + [e];
      MinutesGrow(ctx, front, e, day, u);
      if InWindow(ctx, early, late, next, e.inAt) {
        MinutesGrow(ctx, Prefiltered(ctx, early, late, next, front), e, day, u);
      } else {
        assert Prefiltered(ctx, early, late, next, entries) == Prefiltered(ctx, early, late, next, front);
        if Counted(ctx, e) {
          CountedIff(ctx, e);
          WindowIsWide(ctx, early, late, next, e.inAt);
        }
      }
    }
  }

  lemma SomeoneIs(ctx: Context, entries: seq<Punch>, day: int)
    ensures SomeoneWorked(ctx, entries, day) <==> exists u :: Worked(ctx, entries, day, u)
  {
    if SomeoneWorked(ctx, entries, day) {
      var e :| e in entries && Counted(ctx, e) && DayOf(ctx, e) == day;
      assert CountsFor(ctx, e, day, e.user) && Worked(ctx, entries, day, e.user);
    }
    forall u | Worked(ctx, entries, day, u)
      ensures SomeoneWorked(ctx, entries, day)
    {
      WorkedMeansSomeone(ctx, entries, day, u);
    }
  }

  /** Reading only the entries inside the window gives the report of all of them. */
  lemma PrefilterIsInvisible(ctx: Context, early: Time, late: Time, next: Time, entries: seq<Punch>, tips: seq<Tip>,
                             r: seq<ReportDay>, s: seq<ReportDay>)
    requires Narrow(ctx.loc)
    requires IsReport(ctx, Prefiltered(ctx, early, late, next, entries), tips, r) && IsReport(ctx, entries, tips, s)
    ensures r == s
  {
    var few := Prefiltered(ctx, early, late, next, entries);
    forall d
      ensures AgreeOn(ctx, few, tips, ctx, entries, tips, d)
    {
      forall u: string
        ensures Worked(ctx, few, d, u) <==> Worked(ctx, entries, d, u)
        ensures SameAt(WorkedOn(ctx, few, d), WorkedOn(ctx, entries, d), u)
      {
        PrefilterKeepsCounted(ctx, early, late, next, entries, d, u);
      }
      SameMaps(WorkedOn(ctx, few, d), WorkedOn(ctx, entries, d));
      SomeoneIs(ctx, few, d);
      SomeoneIs(ctx, entries, d);
    }
    ReportIsDetermined(ctx, few, tips, r, ctx, entries, tips, s);
  }
}
