/** The exported ledger adds up: its tip and total columns are the report's pools and payroll, to the cent. */
module Ledger {
  import opened Options
  import opened Sorting
  import opened Money
  import opened Rfc4180
  import opened Table
  import opened Export
  import R = Report
  import S = Split
  import T = ReportIsRight
  import B = ShiftBuckets

  const TIP_SHARE := 7
  const TOTAL := 8

  predicate IsAmount(rec: seq<string>, k: nat) {
    k < |rec| && ReadCents(rec[k]).Some?
  }

  /** What a bookkeeper's SUM makes of a cell. */
  function AmountAt(rec: seq<string>, k: nat): int {
    if IsAmount(rec, k) then ReadCents(rec[k]).value else 0
  }

  function Column(recs: seq<seq<string>>, k: nat): (r: seq<int>)
    ensures |r| == |recs| && forall j :: 0 <= j < |r| ==> r[j] == AmountAt(recs[j], k)
  {
    Map((rec: seq<string>) => AmountAt(rec, k), recs)
  }

  lemma ColumnConcat(a: seq<seq<string>>, b: seq<seq<string>>, k: nat)
    ensures S.Sum(Column(a + b, k)) == S.Sum(Column(a, k)) + S.Sum(Column(b, k))
  {
    assert Column(a + b, k) == Column(a, k) + Column(b, k);
    S.SumConcat(Column(a, k), Column(b, k));
  }

  lemma MemberAmounts(date: int, row: R.Row, shifts: Shifts, fmt: Format)
    ensures var rec := MemberRecord(date, row, shifts, WriterOf(fmt));
            && IsAmount(rec, TIP_SHARE) && AmountAt(rec, TIP_SHARE) == row.tipShare
            && IsAmount(rec, TOTAL) && AmountAt(rec, TOTAL) == row.total
  {
    DollarsRead(row.tipShare);
    DollarsRead(row.total);
  }

  lemma UnassignedAmounts(date: string, pool: int)
    ensures var rec := UnassignedCells(date, pool);
            && IsAmount(rec, TIP_SHARE) && AmountAt(rec, TIP_SHARE) == pool
            && IsAmount(rec, TOTAL) && AmountAt(rec, TOTAL) == 0
  {
    DollarsRead(pool);
    DollarsRead(0);
  }

  lemma MemberColumns(day: R.ReportDay, shifts: Shifts, fmt: Format)
    ensures var recs := MemberRecords(day.date, day.rows, shifts, WriterOf(fmt));
            Column(recs, TIP_SHARE) == R.RowShares(day.rows) && Column(recs, TOTAL) == R.RowTotals(day.rows)
  {
    forall k | 0 <= k < |day.rows|
      ensures AmountAt(MemberRecord(day.date, day.rows[k], shifts, WriterOf(fmt)), TIP_SHARE) == day.rows[k].tipShare
      ensures AmountAt(MemberRecord(day.date, day.rows[k], shifts, WriterOf(fmt)), TOTAL) == day.rows[k].total
    {
      MemberAmounts(day.date, day.rows[k], shifts, fmt);
    }
  }

  lemma OneLine(rec: seq<string>, k: nat)
    ensures S.Sum(Column([rec], k)) == AmountAt(rec, k) && S.Sum(Column([], k)) == 0
  {
    S.SumAppend([], AmountAt(rec, k));
    assert Column([rec], k) == [] + [AmountAt(rec, k)];
  }

  lemma UnassignedColumns(day: R.ReportDay, fmt: Format)
    ensures var recs := UnassignedRecord(day, WriterOf(fmt));
            S.Sum(Column(recs, TIP_SHARE)) == (if day.tipCents != day.totalTipShare then day.tipCents else 0)
              && S.Sum(Column(recs, TOTAL)) == 0
  {
    var rec := UnassignedCells(fmt.date(day.date), day.tipCents);
    UnassignedAmounts(fmt.date(day.date), day.tipCents);
    OneLine(rec, TIP_SHARE);
    OneLine(rec, TOTAL);
  }

  /** What the backend guarantees of a day: either the whole pool was shared out, or none of it. */
  predicate Settled(day: R.ReportDay) {
    R.Totalled(day) && (day.totalTipShare == day.tipCents || day.totalTipShare == 0)
  }

  lemma DayColumn(day: R.ReportDay, shifts: Shifts, w: Writer, k: nat)
    ensures S.Sum(Column(DayRecords(day, shifts, w), k)) ==
            S.Sum(Column(UnassignedRecord(day, w), k)) + S.Sum(Column(MemberRecords(day.date, day.rows, shifts, w), k))
  {
    ColumnConcat(UnassignedRecord(day, w), MemberRecords(day.date, day.rows, shifts, w), k);
  }

  lemma DayTips(day: R.ReportDay, shifts: Shifts, fmt: Format)
    requires Settled(day)
    ensures S.Sum(Column(DayRecords(day, shifts, WriterOf(fmt)), TIP_SHARE)) == day.tipCents
  {
    UnassignedColumns(day, fmt);
    MemberColumns(day, shifts, fmt);
    DayColumn(day, shifts, WriterOf(fmt), TIP_SHARE);
  }

  lemma DayPay(day: R.ReportDay, shifts: Shifts, fmt: Format)
    requires Settled(day)
    ensures S.Sum(Column(DayRecords(day, shifts, WriterOf(fmt)), TOTAL)) == day.totalCents
  {
    UnassignedColumns(day, fmt);
    MemberColumns(day, shifts, fmt);
    DayColumn(day, shifts, WriterOf(fmt), TOTAL);
  }

  function Pools(days: seq<R.ReportDay>): seq<int> {
    Map((d: R.ReportDay) => d.tipCents, days)
  }

  function Payroll(days: seq<R.ReportDay>): seq<int> {
    Map((d: R.ReportDay) => d.totalCents, days)
  }

  /** A column of the ledger sums to whatever its part of each day sums to. */
  lemma {:induction false} ColumnOf(days: seq<R.ReportDay>, shifts: Shifts, w: Writer, k: nat,
                                    figure: R.ReportDay -> int)
    requires forall j :: 0 <= j < |days| ==> S.Sum(Column(DayRecords(days[j], shifts, w), k)) == figure(days[j])
    ensures S.Sum(Column(Records(days, shifts, w), k)) == S.Sum(Map(figure, days))
  {
    if days == [] {
      OneLine([], k);
    } else {
      var front, day := days[..|days| - 1], days[|days| - 1];
      ColumnOf(front, shifts, w, k, figure);
      ColumnConcat(Records(front, shifts, w), DayRecords(day, shifts, w), k);
      SumOfLast(figure, days);
    }
  }

  lemma BackendSettles(ctx: R.Context, entries: seq<R.Punch>, tips: seq<R.Tip>, day: R.ReportDay)
    requires R.IsReportDay(ctx, entries, tips, day)
    ensures Settled(day)
  {
    T.DayBalances(ctx.byUser, day.date, day.tipCents, R.WorkedOn(ctx, entries, day.date), day);
  }

  /**
   * For any report the backend builds, the tip_share column sums to the days' pools (shared out or
   * left unassigned) and the total column to what the days pay.
   */
  lemma LedgerBalances(ctx: R.Context, entries: seq<R.Punch>, tips: seq<R.Tip>, days: seq<R.ReportDay>, shifts: Shifts,
                       fmt: Format)
    requires R.IsReport(ctx, entries, tips, days)
    ensures S.Sum(Column(Records(days, shifts, WriterOf(fmt)), TIP_SHARE)) == S.Sum(Pools(days))
    ensures S.Sum(Column(Records(days, shifts, WriterOf(fmt)), TOTAL)) == S.Sum(Payroll(days))
  {
    forall k | 0 <= k < |days|
      ensures Settled(days[k])
      ensures S.Sum(Column(DayRecords(days[k], shifts, WriterOf(fmt)), TIP_SHARE)) == days[k].tipCents
      ensures S.Sum(Column(DayRecords(days[k], shifts, WriterOf(fmt)), TOTAL)) == days[k].totalCents
    {
      BackendSettles(ctx, entries, tips, days[k]);
      DayTips(days[k], shifts, fmt);
      DayPay(days[k], shifts, fmt);
    }
    ColumnOf(days, shifts, WriterOf(fmt), TIP_SHARE, (d: R.ReportDay) => d.tipCents);
    ColumnOf(days, shifts, WriterOf(fmt), TOTAL, (d: R.ReportDay) => d.totalCents);
  }

  ghost predicate Amounts(recs: seq<seq<string>>) {
    forall j :: 0 <= j < |recs| ==> IsAmount(recs[j], TIP_SHARE) && IsAmount(recs[j], TOTAL)
  }

  lemma AmountsConcat(a: seq<seq<string>>, b: seq<seq<string>>)
    requires Amounts(a) && Amounts(b)
    ensures Amounts(a + b)
  {
  }

  lemma DayAmounts(day: R.ReportDay, shifts: Shifts, fmt: Format)
    ensures Amounts(DayRecords(day, shifts, WriterOf(fmt)))
  {
    var members := MemberRecords(day.date, day.rows, shifts, WriterOf(fmt));
    UnassignedAmounts(fmt.date(day.date), day.tipCents);
    assert Amounts(UnassignedRecord(day, WriterOf(fmt)));
    forall j | 0 <= j < |members|
      ensures IsAmount(members[j], TIP_SHARE) && IsAmount(members[j], TOTAL)
    {
      MemberAmounts(day.date, day.rows[j], shifts, fmt);
    }
    AmountsConcat(UnassignedRecord(day, WriterOf(fmt)), members);
  }

  /** Every record's tip and total cells are amounts, so a sum over either column skips nothing. */
  lemma {:induction false} EveryCellIsAnAmount(days: seq<R.ReportDay>, shifts: Shifts, fmt: Format)
    ensures Amounts(Records(days, shifts, WriterOf(fmt)))
  {
    if days != [] {
      var front, day := days[..|days| - 1], days[|days| - 1];
      EveryCellIsAnAmount(front, shifts, fmt);
      DayAmounts(day, shifts, fmt);
      AmountsConcat(Records(front, shifts, WriterOf(fmt)), DayRecords(day, shifts, WriterOf(fmt)));
    }
  }

  /** A money cell read back: blank is unknown, never zero. */
  function ReadMoney(cell: string): Option<int> {
    if cell == "" then None else ReadCents(cell)
  }

  lemma MoneyReads(amount: Option<int>)
    ensures ReadMoney(MoneyCell(amount)) == amount
  {
    if amount.Some? {
      DollarsRead(amount.value);
      assert ReadCents("") == None;
    }
  }

  lemma CellsAre(date: string, row: TableRow, fmt: Format)
    ensures var rec := MemberCells(date, row, fmt);
            && |rec| == 9 && rec[0] == date && rec[1] == EmployeeName(row.caption) && rec[4] == MinutesToHM(row.minutes)
            && rec[5] == MoneyCell(row.rate) && rec[6] == MoneyCell(row.base)
            && rec[7] == MoneyCell(Some(row.tipShare)) && rec[8] == MoneyCell(Some(row.total))
  {
  }

  /** The cell is the texts of the instants the shifts began at, one for each, a comma and a space between them. */
  ghost predicate ListsStarts(cell: string, worked: seq<Shift>, fmt: Format) {
    exists texts: seq<string> ::
      && |texts| == |worked| && (forall i :: 0 <= i < |worked| ==> texts[i] == fmt.clock(worked[i].inAt))
      && cell == Join(texts, ", ")
  }

  /** And the same of the instants they ended at; a running shift has an empty text. */
  ghost predicate ListsEnds(cell: string, worked: seq<Shift>, fmt: Format) {
    exists texts: seq<string> ::
      && |texts| == |worked|
      && (forall i :: 0 <= i < |worked| ==>
            texts[i] == if worked[i].outAt == None then "" else fmt.clock(worked[i].outAt.value))
      && cell == Join(texts, ", ")
  }

  lemma ClockCells(date: string, row: TableRow, fmt: Format)
    ensures |MemberCells(date, row, fmt)| == 9
    ensures ListsStarts(MemberCells(date, row, fmt)[2], row.shifts, fmt)
    ensures ListsEnds(MemberCells(date, row, fmt)[3], row.shifts, fmt)
  {
    var ins, outs := InTimes(row.shifts, fmt), OutTimes(row.shifts, fmt);
    assert MemberCells(date, row, fmt)[2] == Join(ins, ", ");
    assert MemberCells(date, row, fmt)[3] == Join(outs, ", ");
  }

  lemma TimeAndRateRead(rec: seq<string>, row: TableRow)
    requires |rec| == 9 && rec[4] == MinutesToHM(row.minutes) && rec[5] == MoneyCell(row.rate)
    ensures ReadHM(rec[4]) == Some(if row.minutes > 0 then row.minutes else 0) && ReadMoney(rec[5]) == row.rate
  {
    HoursRead(row.minutes);
    MoneyReads(row.rate);
  }

  lemma PayReads(rec: seq<string>, row: TableRow)
    requires |rec| == 9 && rec[6] == MoneyCell(row.base)
    requires rec[7] == MoneyCell(Some(row.tipShare)) && rec[8] == MoneyCell(Some(row.total))
    ensures ReadMoney(rec[6]) == row.base && ReadMoney(rec[7]) == Some(row.tipShare)
            && ReadMoney(rec[8]) == Some(row.total)
  {
    MoneyReads(row.base);
    MoneyReads(Some(row.tipShare));
    MoneyReads(Some(row.total));
  }

  /**
   * Each cell of a member's line, under its name in the header, is that member's own of that day: the clock-in
   * times of the shifts, then the clock-out times, and the figures as they are read back.
   */
  lemma RecordReadsBack(date: int, row: R.Row, shifts: Shifts, fmt: Format)
    ensures var rec := MemberRecord(date, row, shifts, WriterOf(fmt));
            && |rec| == 9 && rec[0] == fmt.date(date)
            && rec[1] == EmployeeName(if row.name != "" then row.name else row.email)
            && ListsStarts(rec[2], WorkedShifts(shifts, date, row.id), fmt)
            && ListsEnds(rec[3], WorkedShifts(shifts, date, row.id), fmt)
            && ReadHM(rec[4]) == Some(if row.minutes > 0 then row.minutes else 0)
            && ReadMoney(rec[5]) == (if row.rate.Some? then Some(row.rate.value) else None)
            && ReadMoney(rec[6]) == row.base && ReadMoney(rec[7]) == Some(row.tipShare)
                 && ReadMoney(rec[8]) == Some(row.total)
  {
    var shown := MemberRow(date, row, shifts);
    CellsAre(fmt.date(date), shown, fmt);
    ClockCells(fmt.date(date), shown, fmt);
    TimeAndRateRead(MemberCells(fmt.date(date), shown, fmt), shown);
    PayReads(MemberCells(fmt.date(date), shown, fmt), shown);
  }

  /**
   * The clock cells of a member's line, for a report and shifts over the same entries: the third cell lists when
   * the member's closed shifts of that day began and the fourth when they ended, one text for each shift, in
   * clock-in order, separated by a comma and a space. The day is the one the clock-in's wall clock falls on.
   */
  lemma ClockCellsInFull(ctx: R.Context, entries: seq<B.EntryRow>, tips: seq<R.Tip>, days: seq<R.ReportDay>,
                         shifts: Shifts, fmt: Format, k: nat, j: nat)
    returns (worked: seq<B.EntryRow>)
    requires R.IsReport(ctx, Map(B.PunchOf, entries), tips, days)
    requires B.Buckets(B.Chronological(entries), ctx.loc, shifts) && k < |days| && j < |days[k].rows|
    ensures worked != [] && forall i :: 0 <= i < |worked| ==> worked[i].shift.outAt.Some?
    ensures forall e :: multiset(worked)[e] ==
                        if WorkedHere(ctx.loc, e, days[k].date, days[k].rows[j].id) then multiset(entries)[e] else 0
    ensures forall a, b :: 0 <= a < b < |worked| ==> worked[a].shift.inAt <= worked[b].shift.inAt
    ensures var rec := MemberRecord(days[k].date, days[k].rows[j], shifts, WriterOf(fmt));
            |rec| == 9 && ListsStarts(rec[2], B.ShiftsOf(worked), fmt) && ListsEnds(rec[3], B.ShiftsOf(worked), fmt)
  {
    var d, u := days[k].date, days[k].rows[j].id;
    worked := B.With(B.Chronological(entries), ctx.loc, (d, u));
    BucketIsWorked(entries, ctx.loc, d, u);
    RowBucket(ctx, entries, tips, days, shifts, k, j);
    ClockCellsOfRecord(d, days[k].rows[j], shifts, fmt, B.ShiftsOf(worked));
  }

  lemma RowBucket(ctx: R.Context, entries: seq<B.EntryRow>, tips: seq<R.Tip>, days: seq<R.ReportDay>, shifts: Shifts,
                  k: nat, j: nat)
    requires R.IsReport(ctx, Map(B.PunchOf, entries), tips, days)
    requires B.Buckets(B.Chronological(entries), ctx.loc, shifts) && k < |days| && j < |days[k].rows|
    ensures var d, u := days[k].date, days[k].rows[j].id;
            var worked := B.With(B.Chronological(entries), ctx.loc, (d, u));
            worked != [] && WorkedShifts(shifts, d, u) == B.ShiftsOf(worked)
  {
    B.EveryPaidRowHasItsShifts(ctx, entries, tips, days, shifts, k, j);
  }

  lemma ClockCellsOfRecord(date: int, row: R.Row, shifts: Shifts, fmt: Format, worked: seq<Shift>)
    requires WorkedShifts(shifts, date, row.id) == worked
    ensures var rec := MemberRecord(date, row, shifts, WriterOf(fmt));
            |rec| == 9 && ListsStarts(rec[2], worked, fmt) && ListsEnds(rec[3], worked, fmt)
  {
    RecordReadsBack(date, row, shifts, fmt);
  }

  lemma BucketIsWorked(entries: seq<B.EntryRow>, loc: R.Loc, d: int, u: string)
    ensures var worked := B.With(B.Chronological(entries), loc, (d, u));
            && (forall i :: 0 <= i < |worked| ==> worked[i].shift.outAt.Some?)
            && (forall e :: multiset(worked)[e] == if WorkedHere(loc, e, d, u) then multiset(entries)[e] else 0)
            && forall a, b :: 0 <= a < b < |worked| ==> worked[a].shift.inAt <= worked[b].shift.inAt
  {
    var worked := B.With(B.Chronological(entries), loc, (d, u));
    forall e
      ensures multiset(worked)[e] == if WorkedHere(loc, e, d, u) then multiset(entries)[e] else 0
    {
      B.BucketIs(entries, loc, (d, u), e);
    }
    forall i | 0 <= i < |worked|
      ensures worked[i].shift.outAt.Some?
    {
      assert worked[i] in multiset(worked);
    }
    forall a, b | 0 <= a < b < |worked|
      ensures worked[a].shift.inAt <= worked[b].shift.inAt
    {
      B.BucketIs(entries, loc, (d, u), worked[a]);
    }
  }

  /** A closed shift of the user that began on day d. */
  predicate WorkedHere(loc: R.Loc, e: B.EntryRow, d: int, user: string) {
    e.shift.outAt.Some? && e.user == user && d * R.DAY <= e.shift.inAt + loc(e.shift.inAt) < (d + 1) * R.DAY
  }

  /**
   * The line of a pool nobody shared, there exactly when the day's tips are not what its rows were paid: the pool
   * under tip_share, nothing under total, no member and no times. Then the rows' lines, in their order.
   */
  lemma DayLinesInFull(day: R.ReportDay, shifts: Shifts, fmt: Format)
    ensures var recs, n := DayRecords(day, shifts, WriterOf(fmt)), if day.tipCents != day.totalTipShare then 1 else 0;
            && |recs| == n + |day.rows|
            && (n == 1 ==>
                  && |recs[0]| == 9 && recs[0][0] == fmt.date(day.date) && recs[0][1] == "Unassigned tip"
                  && (forall c :: 2 <= c < 7 ==> recs[0][c] == "")
                  && ReadMoney(recs[0][7]) == Some(day.tipCents) && ReadMoney(recs[0][8]) == Some(0))
            && forall j :: 0 <= j < |day.rows| ==>
                 recs[n + j] == MemberRecord(day.date, day.rows[j], shifts, WriterOf(fmt))
  {
    DollarsRead(day.tipCents);
    DollarsRead(0);
    assert ReadCents("") == None;
  }
}
