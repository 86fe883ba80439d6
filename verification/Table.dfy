/** The payroll table (buildRows in web/src/lib/report.ts): the only place the web adds money up. */
module Table {
  import opened Options
  import opened Sorting
  import R = Report
  import S = Split

  datatype Shift = Shift(inAt: int, outAt: Option<int>, verified: bool)

  /** Closed shifts by day and user, in clock-in order. */
  type Shifts = map<(int, string), seq<Shift>>

  datatype Kind = DayLine | MemberLine | TotalLine
  datatype DayTip = DayTip(day: int, cents: int)
  datatype TableRow = TableRow(
    kind: Kind, caption: string, tip: Option<DayTip>, noted: bool, shifts: seq<Shift>, isUnverified: bool,
    minutes: int, rate: Option<int>, base: Option<int>, tipShare: int, total: int)

  /** How a day and a range are captioned. */
  datatype Captions = Captions(day: int -> string, range: string)

  function RateOf(row: R.Row): Option<int> {
    if row.rate.Some? then Some(row.rate.value) else None
  }

  function HeaderRow(day: R.ReportDay, captions: Captions): TableRow {
    TableRow(DayLine, captions.day(day.date), Some(DayTip(day.date, day.tipCents)), day.rows == [], [], false,
             day.totalMinutes, None, Some(day.totalBase), day.totalTipShare, day.totalCents)
  }

  function WorkedShifts(shifts: Shifts, day: int, user: string): seq<Shift> {
    if (day, user) in shifts then shifts[(day, user)] else []
  }

  predicate SomeUnverified(worked: seq<Shift>) {
    exists k :: 0 <= k < |worked| && !worked[k].verified
  }

  function MemberRow(date: int, row: R.Row, shifts: Shifts): TableRow {
    var worked := WorkedShifts(shifts, date, row.id);
    TableRow(MemberLine, if row.name != "" then row.name else row.email, None, false, worked, SomeUnverified(worked),
             row.minutes, RateOf(row), row.base, row.tipShare, row.total)
  }

  function MemberRows(date: int, rows: seq<R.Row>, shifts: Shifts): seq<TableRow> {
    Map((row: R.Row) => MemberRow(date, row, shifts), rows)
  }

  function DayTable(day: R.ReportDay, shifts: Shifts, captions: Captions): seq<TableRow> {
    [HeaderRow(day, captions)] + MemberRows(day.date, day.rows, shifts)
  }

  function DayTables(days: seq<R.ReportDay>, shifts: Shifts, captions: Captions): seq<TableRow> {
    if days == [] then []
    else DayTables(days[..|days| - 1], shifts, captions) + DayTable(days[|days| - 1], shifts, captions)
  }

  datatype Grand = Grand(minutes: int, basePay: int, tipShare: int, total: int)

  function AddDay(g: Grand, d: R.ReportDay): Grand {
    Grand(g.minutes + d.totalMinutes, g.basePay + d.totalBase, g.tipShare + d.totalTipShare, g.total + d.totalCents)
  }

  /** The range total: each figure the sum of the days' own totals. */
  function GrandOf(days: seq<R.ReportDay>): Grand {
    if days == [] then Grand(0, 0, 0, 0) else AddDay(GrandOf(days[..|days| - 1]), days[|days| - 1])
  }

  function TotalRow(days: seq<R.ReportDay>, captions: Captions): TableRow {
    var g := GrandOf(days);
    TableRow(TotalLine, captions.range, None, false, [], false, g.minutes, None, Some(g.basePay), g.tipShare, g.total)
  }

  function WholeTable(days: seq<R.ReportDay>, shifts: Shifts, captions: Captions): seq<TableRow> {
    if days == [] then [] else DayTables(days, shifts, captions) + [TotalRow(days, captions)]
  }

  method AddMembers(before: seq<TableRow>, date: int, members: seq<R.Row>, shifts: Shifts) returns (rows: seq<TableRow>)
    ensures rows == before + MemberRows(date, members, shifts)
  {
    rows := before;
    for k := 0 to |members|
      invariant rows == before + MemberRows(date, members[..k], shifts)
    {
      rows := rows + [MemberRow(date, members[k], shifts)];
      assert MemberRows(date, members[..k + 1], shifts) == MemberRows(date, members[..k], shifts)
        + [MemberRow(date, members[k], shifts)];
    }
    assert members[..|members|] == members;
  }

  lemma TableGrows(days: seq<R.ReportDay>, i: nat, shifts: Shifts, captions: Captions)
    requires i < |days|
    ensures DayTables(days[..i + 1], shifts, captions) == DayTables(days[..i], shifts, captions)
            + DayTable(days[i], shifts, captions)
    ensures GrandOf(days[..i + 1]) == AddDay(GrandOf(days[..i]), days[i])
  {
    assert days[..i + 1][..i] == days[..i];
  }

  lemma Follow<T>(before: seq<T>, header: T, members: seq<T>)
    ensures before + [header] + members == before + ([header] + members)
  {
  }

  method BuildRows(days: seq<R.ReportDay>, shifts: Shifts, captions: Captions) returns (rows: seq<TableRow>)
    ensures rows == WholeTable(days, shifts, captions)
  {
    rows := [];
    var grand := Grand(0, 0, 0, 0);
    for i := 0 to |days|
      invariant rows == DayTables(days[..i], shifts, captions) && grand == GrandOf(days[..i])
    {
      var day := days[i];
      TableGrows(days, i, shifts, captions);
      rows := rows + [HeaderRow(day, captions)];
      grand := AddDay(grand, day);
      rows := AddMembers(rows, day.date, day.rows, shifts);
      Follow(DayTables(days[..i], shifts, captions), HeaderRow(day, captions), MemberRows(day.date, day.rows, shifts));
    }
    assert days[..|days|] == days;
    if |rows| == 0 {
      return;
    }
    rows := rows
      + [TableRow(TotalLine, captions.range, None, false, [], false, grand.minutes, None, Some(grand.basePay),
      grand.tipShare, grand.total)];
  }

  /* ---- the table balances ---- */

  /** A figure of the member lines; day lines and the total line count for nothing. */
  function OfMembers(figure: TableRow -> int, rows: seq<TableRow>): seq<int> {
    Map((row: TableRow) => if row.kind.MemberLine? then figure(row) else 0, rows)
  }

  function BaseOf(row: TableRow): int {
    if row.base.Some? then row.base.value else 0
  }

  lemma OfMembersConcat(figure: TableRow -> int, a: seq<TableRow>, b: seq<TableRow>)
    ensures S.Sum(OfMembers(figure, a + b)) == S.Sum(OfMembers(figure, a)) + S.Sum(OfMembers(figure, b))
  {
    assert OfMembers(figure, a + b) == OfMembers(figure, a) + OfMembers(figure, b);
    S.SumConcat(OfMembers(figure, a), OfMembers(figure, b));
  }

  lemma NotAMember(figure: TableRow -> int, row: TableRow)
    requires !row.kind.MemberLine?
    ensures S.Sum(OfMembers(figure, [row])) == 0
  {
    assert OfMembers(figure, [row]) == [] + [0];
    S.SumAppend([], 0);
  }

  lemma MemberFigures(date: int, rows: seq<R.Row>, shifts: Shifts)
    ensures var lines := MemberRows(date, rows, shifts);
            && OfMembers((x: TableRow) => x.minutes, lines) == R.RowMinutes(rows)
            && OfMembers(BaseOf, lines) == R.RowBases(rows)
            && OfMembers((x: TableRow) => x.tipShare, lines) == R.RowShares(rows)
            && OfMembers((x: TableRow) => x.total, lines) == R.RowTotals(rows)
  {
    var lines := MemberRows(date, rows, shifts);
    forall k | 0 <= k < |lines|
      ensures OfMembers(BaseOf, lines)[k] == R.RowBases(rows)[k]
    {
      assert lines[k] == MemberRow(date, rows[k], shifts);
      assert BaseOf(lines[k]) == R.RowBases(rows)[k];
    }
  }

  /** The figures of a line are the sums over the member lines given. */
  ghost predicate SumsUp(row: TableRow, lines: seq<TableRow>) {
    && row.minutes == S.Sum(OfMembers((x: TableRow) => x.minutes, lines))
    && row.base == Some(S.Sum(OfMembers(BaseOf, lines)))
    && row.tipShare == S.Sum(OfMembers((x: TableRow) => x.tipShare, lines))
    && row.total == S.Sum(OfMembers((x: TableRow) => x.total, lines))
  }

  /** Neither shifts nor a rate of its own. */
  predicate IsSummary(row: TableRow) {
    row.shifts == [] && row.rate == None && !row.isUnverified
  }

  /**
   * A day of the table: its own line, with its pool and the sums of the lines below it, noted exactly when there
   * are none; then a line for each row, under the name or else the email, with the shifts of that member and day,
   * marked exactly when one of them is unverified, and the row's own figures.
   */
  lemma DayInFull(day: R.ReportDay, shifts: Shifts, captions: Captions)
    requires R.Totalled(day)
    ensures var t := DayTable(day, shifts, captions);
            && |t| == 1 + |day.rows| && t[0].kind == DayLine && t[0].caption == captions.day(day.date)
            && t[0].tip == Some(DayTip(day.date, day.tipCents)) && (t[0].noted <==> |t| == 1)
            && IsSummary(t[0]) && SumsUp(t[0], t[1..])
    ensures forall j: nat {:trigger day.rows[j]} :: j < |day.rows| ==>
              LineOf(DayTable(day, shifts, captions)[1 + j], day.date, day.rows[j], shifts)
  {
    var t := DayTable(day, shifts, captions);
    assert t[1..] == MemberRows(day.date, day.rows, shifts);
    MemberFigures(day.date, day.rows, shifts);
  }

  predicate LineOf(line: TableRow, date: int, row: R.Row, shifts: Shifts) {
    && line.kind == MemberLine && line.caption == (if row.name == "" then row.email else row.name)
    && line.tip == None && !line.noted
    && line.shifts == (if (date, row.id) in shifts then shifts[(date, row.id)] else [])
    && (line.isUnverified <==> exists s :: s in line.shifts && !s.verified)
    && line.minutes == row.minutes && line.base == row.base && line.tipShare == row.tipShare && line.total == row.total
    && (line.rate.Some? <==> row.rate.Some?) && (row.rate.Some? ==> line.rate.value == row.rate.value)
  }

  lemma SumOfLast(figure: R.ReportDay -> int, days: seq<R.ReportDay>)
    requires days != []
    ensures S.Sum(Map(figure, days)) == S.Sum(Map(figure, days[..|days| - 1])) + figure(days[|days| - 1])
  {
    assert days == days[..|days| - 1] + [days[|days| - 1]];
    R.MapSum(figure, days[..|days| - 1], days[|days| - 1]);
  }

  lemma OfDay(figure: TableRow -> int, day: R.ReportDay, shifts: Shifts, captions: Captions)
    ensures S.Sum(OfMembers(figure, DayTable(day, shifts, captions))) ==
            S.Sum(OfMembers(figure, MemberRows(day.date, day.rows, shifts)))
  {
    OfMembersConcat(figure, [HeaderRow(day, captions)], MemberRows(day.date, day.rows, shifts));
    NotAMember(figure, HeaderRow(day, captions));
  }

  /** A figure summed over a day's lines, and over those of all the days. */
  lemma {:induction false} OfDays(figure: TableRow -> int, ofDay: R.ReportDay -> int, days: seq<R.ReportDay>,
                                  shifts: Shifts, captions: Captions)
    requires forall k :: 0 <= k < |days| ==>
               S.Sum(OfMembers(figure, MemberRows(days[k].date, days[k].rows, shifts))) == ofDay(days[k])
    ensures S.Sum(OfMembers(figure, DayTables(days, shifts, captions))) == S.Sum(Map(ofDay, days))
  {
    if days != [] {
      var front, day := days[..|days| - 1], days[|days| - 1];
      assert forall k :: 0 <= k < |front| ==> front[k] == days[k];
      OfDays(figure, ofDay, front, shifts, captions);
      OfMembersConcat(figure, DayTables(front, shifts, captions), DayTable(day, shifts, captions));
      OfDay(figure, day, shifts, captions);
      SumOfLast(ofDay, days);
    }
  }

  lemma {:induction false} GrandIs(days: seq<R.ReportDay>)
    ensures GrandOf(days) == Grand(S.Sum(Map((d: R.ReportDay) => d.totalMinutes, days)),
                                   S.Sum(Map((d: R.ReportDay) => d.totalBase, days)),
                                   S.Sum(Map((d: R.ReportDay) => d.totalTipShare, days)),
                                   S.Sum(Map((d: R.ReportDay) => d.totalCents, days)))
  {
    if days != [] {
      var front, day := days[..|days| - 1], days[|days| - 1];
      GrandIs(front);
      SumOfLast((d: R.ReportDay) => d.totalMinutes, days);
      SumOfLast((d: R.ReportDay) => d.totalBase, days);
      SumOfLast((d: R.ReportDay) => d.totalTipShare, days);
      SumOfLast((d: R.ReportDay) => d.totalCents, days);
    }
  }

  lemma TotalsOfDays(days: seq<R.ReportDay>, shifts: Shifts, captions: Captions)
    requires forall k :: 0 <= k < |days| ==> R.Totalled(days[k])
    ensures SumsUp(TotalRow(days, captions), DayTables(days, shifts, captions))
  {
    forall k | 0 <= k < |days|
      ensures var lines := MemberRows(days[k].date, days[k].rows, shifts);
              && S.Sum(OfMembers((x: TableRow) => x.minutes, lines)) == days[k].totalMinutes
              && S.Sum(OfMembers(BaseOf, lines)) == days[k].totalBase
              && S.Sum(OfMembers((x: TableRow) => x.tipShare, lines)) == days[k].totalTipShare
              && S.Sum(OfMembers((x: TableRow) => x.total, lines)) == days[k].totalCents
    {
      MemberFigures(days[k].date, days[k].rows, shifts);
    }
    OfDays((x: TableRow) => x.minutes, (d: R.ReportDay) => d.totalMinutes, days, shifts, captions);
    OfDays(BaseOf, (d: R.ReportDay) => d.totalBase, days, shifts, captions);
    OfDays((x: TableRow) => x.tipShare, (d: R.ReportDay) => d.totalTipShare, days, shifts, captions);
    OfDays((x: TableRow) => x.total, (d: R.ReportDay) => d.totalCents, days, shifts, captions);
    GrandIs(days);
  }

  /** The last line is captioned with the range, and each of its figures is the sum of the member lines above it. */
  lemma RangeTotalIsTheMembers(days: seq<R.ReportDay>, shifts: Shifts, captions: Captions)
    requires days != [] && forall k :: 0 <= k < |days| ==> R.Totalled(days[k])
    ensures var t := WholeTable(days, shifts, captions);
            && t != []
            && var last := t[|t| - 1];
               && last.kind == TotalLine && last.caption == captions.range && last.tip == None && !last.noted
               && IsSummary(last) && SumsUp(last, t[..|t| - 1])
  {
    TotalsOfDays(days, shifts, captions);
    var t := WholeTable(days, shifts, captions);
    assert t[..|t| - 1] == DayTables(days, shifts, captions);
  }
}
