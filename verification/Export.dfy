/** The payroll ledger as a CSV file (reportToCsv in web/src/lib/csv.ts). */
module Export {
  import opened Options
  import opened Sorting
  import opened Rfc4180
  import opened Money
  import opened Table
  import R = Report

  function HeaderCells(): seq<string> {
    ["date", "employee", "clock_in", "clock_out", "hours", "rate", "base_pay", "tip_share", "total"]
  }

  function Header(): string {
    Join(HeaderCells(), ",")
  }

  /** How a date and an instant read; a date is YYYY-MM-DD, so it never needs quoting. */
  datatype Format = Format(date: int -> string, clock: int -> string)

  function MoneyCell(amount: Option<int>): string {
    if amount.Some? then Dollars(amount.value) else ""
  }

  function InTimes(shifts: seq<Shift>, fmt: Format): seq<string> {
    Map((s: Shift) => fmt.clock(s.inAt), shifts)
  }

  function OutTimes(shifts: seq<Shift>, fmt: Format): seq<string> {
    Map((s: Shift) => if s.outAt.Some? then fmt.clock(s.outAt.value) else "", shifts)
  }

  function MemberCells(date: string, row: TableRow, fmt: Format): seq<string> {
    [date, EmployeeName(row.caption), Join(InTimes(row.shifts, fmt), ", "), Join(OutTimes(row.shifts, fmt), ", "),
     MinutesToHM(row.minutes), MoneyCell(row.rate), MoneyCell(row.base), MoneyCell(Some(row.tipShare)),
       MoneyCell(Some(row.total))]
  }

  function UnassignedCells(date: string, pool: int): seq<string> {
    [date, "Unassigned tip", "", "", "", "", "", Dollars(pool), Dollars(0)]
  }

  /** The two kinds of line, as functions of what they show; the loop below does not look inside. */
  datatype Writer = Writer(
    date: int -> string, member: (string, TableRow) -> seq<string>, unassigned: (string, int) -> seq<string>)

  function WriterOf(fmt: Format): Writer {
    Writer(fmt.date, (date: string, row: TableRow) => MemberCells(date, row, fmt), UnassignedCells)
  }

  /* ---- what the file says, day by day ---- */

  function MemberRecord(date: int, row: R.Row, shifts: Shifts, w: Writer): seq<string> {
    w.member(w.date(date), MemberRow(date, row, shifts))
  }

  function MemberRecords(date: int, rows: seq<R.Row>, shifts: Shifts, w: Writer): (r: seq<seq<string>>)
    ensures |r| == |rows| && forall k :: 0 <= k < |r| ==> r[k] == MemberRecord(date, rows[k], shifts, w)
  {
    Map((row: R.Row) => MemberRecord(date, row, shifts, w), rows)
  }

  function UnassignedRecord(day: R.ReportDay, w: Writer): seq<seq<string>> {
    if day.tipCents != day.totalTipShare then [w.unassigned(w.date(day.date), day.tipCents)] else []
  }

  function DayRecords(day: R.ReportDay, shifts: Shifts, w: Writer): seq<seq<string>> {
    UnassignedRecord(day, w) + MemberRecords(day.date, day.rows, shifts, w)
  }

  function Records(days: seq<R.ReportDay>, shifts: Shifts, w: Writer): seq<seq<string>> {
    if days == [] then [] else Records(days[..|days| - 1], shifts, w) + DayRecords(days[|days| - 1], shifts, w)
  }

  /* ---- the loop over the table ---- */

  predicate IsHeader(row: TableRow) {
    row.kind.DayLine? && row.tip.Some?
  }

  /** The date of the last day line so far. */
  function LastDate(rows: seq<TableRow>, w: Writer): string {
    if rows == [] then ""
    else
      var row := rows[|rows| - 1];
      if IsHeader(row) then w.date(row.tip.value.day) else LastDate(rows[..|rows| - 1], w)
  }

  function RowRecord(date: string, row: TableRow, w: Writer): seq<seq<string>> {
    if IsHeader(row) then
      if row.tip.value.cents != row.tipShare then [w.unassigned(w.date(row.tip.value.day), row.tip.value.cents)] else []
    else if row.kind.MemberLine? then [w.member(date, row)]
    else []
  }

  function RowRecords(rows: seq<TableRow>, w: Writer): seq<seq<string>> {
    if rows == [] then []
    else
      var n := |rows| - 1;
      RowRecords(rows[..n], w) + RowRecord(LastDate(rows[..n], w), rows[n], w)
  }

  ghost predicate PlainDates(rows: seq<TableRow>, fmt: Format) {
    forall k :: 0 <= k < |rows| && rows[k].tip.Some? ==> !NeedsQuotes(fmt.date(rows[k].tip.value.day))
  }

  lemma PlainLine(cells: seq<string>)
    requires forall k :: 0 <= k < |cells| ==> Quote(cells[k]) == cells[k]
    ensures Join(cells, ",") == Line(cells)
  {
    assert Quotes(cells) == cells;
  }

  lemma UnassignedIsPlain(date: string, pool: int)
    requires !NeedsQuotes(date)
    ensures Join(UnassignedCells(date, pool), ",") == Line(UnassignedCells(date, pool))
  {
    DollarsArePlain(pool);
    DollarsArePlain(0);
    assert !NeedsQuotes("Unassigned tip") && !NeedsQuotes("");
    PlainLine(UnassignedCells(date, pool));
  }

  lemma LinesAppend(recs: seq<seq<string>>, cells: seq<string>)
    ensures Lines(recs + [cells]) == Lines(recs) + [Line(cells)]
  {
  }

  lemma RowRecordsAt(rows: seq<TableRow>, i: nat, w: Writer)
    requires i < |rows|
    ensures RowRecords(rows[..i + 1], w) == RowRecords(rows[..i], w) + RowRecord(LastDate(rows[..i], w), rows[i], w)
  {
    assert rows[..i + 1][..i] == rows[..i];
  }

  lemma WroteRecord(rows: seq<TableRow>, i: nat, w: Writer, header: string, cells: seq<string>)
    requires i < |rows| && RowRecord(LastDate(rows[..i], w), rows[i], w) == [cells]
    ensures [header] + Lines(RowRecords(rows[..i + 1], w)) == [header] + Lines(RowRecords(rows[..i], w)) + [Line(cells)]
  {
    RowRecordsAt(rows, i, w);
    LinesAppend(RowRecords(rows[..i], w), cells);
    Assoc([header], Lines(RowRecords(rows[..i], w)), [Line(cells)]);
  }

  lemma WroteNothing(rows: seq<TableRow>, i: nat, w: Writer)
    requires i < |rows| && RowRecord(LastDate(rows[..i], w), rows[i], w) == []
    ensures RowRecords(rows[..i + 1], w) == RowRecords(rows[..i], w)
  {
    RowRecordsAt(rows, i, w);
    NothingAdded(RowRecords(rows[..i], w), RowRecord(LastDate(rows[..i], w), rows[i], w));
  }

  method WriteLines(rows: seq<TableRow>, fmt: Format) returns (lines: seq<string>)
    requires PlainDates(rows, fmt)
    ensures lines == [Header()] + Lines(RowRecords(rows, WriterOf(fmt)))
  {
    ghost var w := WriterOf(fmt);
    lines := [Header()];
    var date := "";
    for i := 0 to |rows|
      invariant date == LastDate(rows[..i], w)
      invariant lines == [Header()] + Lines(RowRecords(rows[..i], w))
    {
      var row := rows[i];
      DateAt(rows, i, w);
      if row.kind.DayLine? && row.tip.Some? {
        date := fmt.date(row.tip.value.day);
        if row.tip.value.cents != row.tipShare {
          UnassignedIsPlain(date, row.tip.value.cents);
          WroteRecord(rows, i, w, Header(), w.unassigned(date, row.tip.value.cents));
          lines := lines + [Join(UnassignedCells(date, row.tip.value.cents), ",")];
        } else {
          WroteNothing(rows, i, w);
        }
        continue;
      }
      if !row.kind.MemberLine? {
        WroteNothing(rows, i, w);
        continue;
      }
      var cells := MemberCells(date, row, fmt);
      WroteRecord(rows, i, w, Header(), w.member(date, row));
      lines := lines + [Line(cells)];
    }
    assert rows[..|rows|] == rows;
  }

  lemma DateAt(rows: seq<TableRow>, i: nat, w: Writer)
    requires i < |rows|
    ensures LastDate(rows[..i + 1], w) == if IsHeader(rows[i]) then w.date(rows[i].tip.value.day)
            else LastDate(rows[..i], w)
  {
    assert rows[..i + 1][..i] == rows[..i];
  }

  /* ---- the table's lines are the days' records ---- */

  lemma RowRecordsAppend(rows: seq<TableRow>, row: TableRow, w: Writer)
    ensures RowRecords(rows + [row], w) == RowRecords(rows, w) + RowRecord(LastDate(rows, w), row, w)
    ensures LastDate(rows + [row], w) == if IsHeader(row) then w.date(row.tip.value.day) else LastDate(rows, w)
  {
    assert (rows + [row])[..|rows|] == rows;
  }

  function CellsOf(date: string, members: seq<TableRow>, w: Writer): (r: seq<seq<string>>)
    ensures |r| == |members| && forall k :: 0 <= k < |r| ==> r[k] == w.member(date, members[k])
  {
    Map((row: TableRow) => w.member(date, row), members)
  }

  lemma Assoc<T>(a: seq<T>, b: seq<T>, c: seq<T>)
    ensures (a + b) + c == a + (b + c)
  {
  }

  lemma LastApart<T>(a: seq<T>, b: seq<T>)
    requires b != []
    ensures a + b == (a + b[..|b| - 1]) + [b[|b| - 1]]
  {
  }

  lemma NothingAdded<T>(a: seq<T>, b: seq<T>)
    requires b == []
    ensures a + b == a
  {
  }

  lemma CellsAppend(date: string, members: seq<TableRow>, w: Writer)
    requires members != []
    ensures var n := |members| - 1;
            CellsOf(date, members, w) == CellsOf(date, members[..n], w) + [w.member(date, members[n])]
  {
  }

  /** Member lines take the date of the day line before them. */
  lemma {:induction false} MembersRecorded(start: seq<TableRow>, members: seq<TableRow>, w: Writer)
    requires forall k :: 0 <= k < |members| ==> members[k].kind.MemberLine?
    ensures LastDate(start + members, w) == LastDate(start, w)
    ensures RowRecords(start + members, w) == RowRecords(start, w) + CellsOf(LastDate(start, w), members, w)
  {
    var date := LastDate(start, w);
    if members == [] {
      NothingAdded(start, members);
      NothingAdded(RowRecords(start, w), CellsOf(date, members, w));
    } else {
      var front, row := members[..|members| - 1], members[|members| - 1];
      MembersRecorded(start, front, w);
      LastApart(start, members);
      RowRecordsAppend(start + front, row, w);
      CellsAppend(date, members, w);
      Assoc(RowRecords(start, w), CellsOf(date, front, w), [w.member(date, row)]);
    }
  }

  lemma CellsAreRecords(day: R.ReportDay, shifts: Shifts, w: Writer)
    ensures CellsOf(w.date(day.date), MemberRows(day.date, day.rows, shifts), w) ==
            MemberRecords(day.date, day.rows, shifts, w)
  {
  }

  lemma DayTableRecords(before: seq<TableRow>, day: R.ReportDay, shifts: Shifts, captions: Captions, w: Writer)
    ensures RowRecords(before + DayTable(day, shifts, captions), w) == RowRecords(before, w)
            + DayRecords(day, shifts, w)
  {
    var header, members := HeaderRow(day, captions), MemberRows(day.date, day.rows, shifts);
    RowRecordsAppend(before, header, w);
    MembersRecorded(before + [header], members, w);
    Assoc(before, [header], members);
    CellsAreRecords(day, shifts, w);
    Assoc(RowRecords(before, w), UnassignedRecord(day, w), MemberRecords(day.date, day.rows, shifts, w));
  }

  lemma {:induction false} TablesRecords(days: seq<R.ReportDay>, shifts: Shifts, captions: Captions, w: Writer)
    ensures RowRecords(DayTables(days, shifts, captions), w) == Records(days, shifts, w)
  {
    if days != [] {
      var front, day := days[..|days| - 1], days[|days| - 1];
      TablesRecords(front, shifts, captions, w);
      DayTableRecords(DayTables(front, shifts, captions), day, shifts, captions, w);
    }
  }

  lemma WholeTableRecords(days: seq<R.ReportDay>, shifts: Shifts, captions: Captions, w: Writer)
    ensures RowRecords(WholeTable(days, shifts, captions), w) == Records(days, shifts, w)
  {
    TablesRecords(days, shifts, captions, w);
    if days != [] {
      RowRecordsAppend(DayTables(days, shifts, captions), TotalRow(days, captions), w);
    }
  }

  ghost predicate DatesPlain(days: seq<R.ReportDay>, fmt: Format) {
    forall k :: 0 <= k < |days| ==> !NeedsQuotes(fmt.date(days[k].date))
  }

  lemma {:induction false} TablesHavePlainDates(days: seq<R.ReportDay>, shifts: Shifts, captions: Captions, fmt: Format)
    requires DatesPlain(days, fmt)
    ensures PlainDates(DayTables(days, shifts, captions), fmt)
  {
    if days != [] {
      var front, day := days[..|days| - 1], days[|days| - 1];
      assert forall k :: 0 <= k < |front| ==> front[k] == days[k];
      TablesHavePlainDates(front, shifts, captions, fmt);
    }
  }

  predicate Wide(recs: seq<seq<string>>) {
    forall k :: 0 <= k < |recs| ==> |recs[k]| == 9
  }

  lemma {:induction false} NineCells(days: seq<R.ReportDay>, shifts: Shifts, fmt: Format)
    ensures Wide(Records(days, shifts, WriterOf(fmt)))
  {
    if days != [] {
      NineCells(days[..|days| - 1], shifts, fmt);
    }
  }

  lemma HeaderIsPlain(k: nat)
    requires k < |HeaderCells()|
    ensures !NeedsQuotes(HeaderCells()[k])
  {
    if k < 3 {
      assert !NeedsQuotes("date") && !NeedsQuotes("employee") && !NeedsQuotes("clock_in");
    } else if k < 6 {
      assert !NeedsQuotes("clock_out") && !NeedsQuotes("hours") && !NeedsQuotes("rate");
    } else {
      assert !NeedsQuotes("base_pay") && !NeedsQuotes("tip_share") && !NeedsQuotes("total");
    }
  }

  lemma HeaderIsLine()
    ensures Header() == Line(HeaderCells())
  {
    forall k: nat | k < |HeaderCells()|
      ensures !NeedsQuotes(HeaderCells()[k])
    {
      HeaderIsPlain(k);
    }
    PlainLine(HeaderCells());
  }

  lemma LinesPrepend(cells: seq<string>, recs: seq<seq<string>>)
    ensures Lines([cells] + recs) == [Line(cells)] + Lines(recs)
  {
  }

  lemma WidePrepend(cells: seq<string>, recs: seq<seq<string>>)
    requires |cells| == 9 && Wide(recs)
    ensures forall k :: 0 <= k < |[cells] + recs| ==> |([cells] + recs)[k]| >= 2
  {
  }

  lemma ReadsBack(cells: seq<string>, recs: seq<seq<string>>)
    requires |cells| == 9 && Wide(recs)
    ensures File(Join([Line(cells)] + Lines(recs), "\r\n")) == Some([cells] + recs)
  {
    LinesPrepend(cells, recs);
    WidePrepend(cells, recs);
    FileUndoes([cells] + recs);
  }

  /**
   * The file: a reader of RFC 4180 finds the nine names and then exactly the records of the days, each of nine
   * cells, whatever the names of the members.
   */
  method ReportToCsv(days: seq<R.ReportDay>, shifts: Shifts, captions: Captions, fmt: Format) returns (csv: string)
    requires DatesPlain(days, fmt)
    ensures File(csv) == Some([HeaderCells()] + Records(days, shifts, WriterOf(fmt)))
    ensures File(csv).value[0] ==
            ["date", "employee", "clock_in", "clock_out", "hours", "rate", "base_pay", "tip_share", "total"]
    ensures Wide(Records(days, shifts, WriterOf(fmt)))
  {
    var rows := BuildRows(days, shifts, captions);
    TablesHavePlainDates(days, shifts, captions, fmt);
    var lines := WriteLines(rows, fmt);
    WholeTableRecords(days, shifts, captions, WriterOf(fmt));
    NineCells(days, shifts, fmt);
    HeaderIsLine();
    ReadsBack(HeaderCells(), Records(days, shifts, WriterOf(fmt)));
    csv := Join(lines, "\r\n");
  }
}
