/**
 * A row of the payroll report told in full (buildReport and buildDay in backend/internal/tip/handler.go): whose
 * it is, which shifts it pays, at what rate, with which part of which pool, and in what order it stands.
 */
module ReportInFull {
  import opened Sorting
  import opened Names
  import opened Report
  import G = Geo
  import S = Split
  import T = ReportIsRight

  /** The shifts a row pays: the member's closed ones that began that day, by the wall clock. */
  predicate PaidOn(loc: Loc, e: Punch, d: int, user: string) {
    e.outAt.Some? && e.user == user && d * DAY <= e.inAt + loc(e.inAt) < (d + 1) * DAY
  }

  function MinutesPaid(loc: Loc, entries: seq<Punch>, d: int, user: string): int {
    S.Sum(Map((e: Punch) => if PaidOn(loc, e, d, user) then Minutes(e) else 0, entries))
  }

  lemma MinutesArePaid(ctx: Context, entries: seq<Punch>, d: int, user: string)
    requires user in ctx.byUser && InRange(ctx, d)
    ensures MinutesFor(ctx, entries, d, user) == MinutesPaid(ctx.loc, entries, d, user)
  {
    forall e: Punch
      ensures Credit(ctx, e, d, user) == if PaidOn(ctx.loc, e, d, user) then Minutes(e) else 0
    {
      DayIs(ctx.loc, e.inAt, d);
    }
    assert Map((e: Punch) => Credit(ctx, e, d, user), entries) ==
           Map((e: Punch) => if PaidOn(ctx.loc, e, d, user) then Minutes(e) else 0, entries);
  }

  /**
   * A shift's minutes are the time from clock-in to clock-out to the nearest minute, halves away from zero, as
   * long as a Go duration can hold it.
   */
  lemma MinutesAreTheLength(e: Punch)
    requires e.outAt.Some? && G.MIN_DURATION <= e.outAt.value - e.inAt <= G.MAX_DURATION
    ensures var length := e.outAt.value - e.inAt;
            if length >= 0 then 2 * length - MINUTE < 2 * MINUTE * Minutes(e) <= 2 * length + MINUTE
            else 2 * length - MINUTE <= 2 * MINUTE * Minutes(e) < 2 * length + MINUTE
  {
    T.MinutesAreNearest(e.outAt.value - e.inAt);
    T.MinutesAreNearest(e.inAt - e.outAt.value);
  }

  /** rate * minutes / 60 in cents, halves up; where minutes run far below zero, half a cent up and cut toward zero. */
  predicate IsBasePay(rate: nat, minutes: int, cents: int) {
    if rate * minutes >= -30 then 60 * cents - 30 <= rate * minutes < 60 * cents + 30
    else 60 * cents - 90 < rate * minutes <= 60 * cents - 30
  }

  lemma BasePayIs(rate: nat, minutes: int)
    ensures IsBasePay(rate, minutes, BasePay(rate, minutes))
  {
  }

  /**
   * Every row of every report: a known member's, under the member's name, email and rate; its minutes those of
   * the member's closed shifts that began that day and no others, at least one; its base pay the rate for them;
   * its tip share the member's part of the day's pool, split by the minutes of the rows; its total the two.
   */
  lemma EveryRowInFull(ctx: Context, entries: seq<Punch>, tips: seq<Tip>, days: seq<ReportDay>, k: nat, j: nat)
    requires IsReport(ctx, entries, tips, days) && k < |days| && j < |days[k].rows|
    ensures var day, row := days[k], days[k].rows[j];
            && row.id in ctx.byUser
            && var m := ctx.byUser[row.id];
               && row.name == m.name && row.email == m.email && row.rate == m.rate
               && row.minutes == MinutesPaid(ctx.loc, entries, day.date, row.id)
               && (exists e :: e in entries && PaidOn(ctx.loc, e, day.date, row.id))
               && (row.base.Some? <==> m.rate.Some?)
               && (m.rate.Some? ==> IsBasePay(m.rate.value, row.minutes, row.base.value))
               && row.tipShare == S.Shares(day.tipCents, seq(|day.rows|, i requires 0 <= i < |day.rows| =>
                                                     day.rows[i].minutes))[j]
               && row.total == row.tipShare + if row.base.Some? then row.base.value else 0
    ensures InRange(ctx, days[k].date)
  {
    var day, row := days[k], days[k].rows[j];
    assert IsReportDay(ctx, entries, tips, day);
    assert RowIs(ctx.byUser, TipOf(tips, day.date), WorkedOn(ctx, entries, day.date), day.rows, j);
    assert Worked(ctx, entries, day.date, row.id);
    var e :| e in entries && CountsFor(ctx, e, day.date, row.id);
    DayIs(ctx.loc, e.inAt, day.date);
    assert PaidOn(ctx.loc, e, day.date, row.id);
    MinutesArePaid(ctx, entries, day.date, row.id);
    if row.rate.Some? {
      BasePayIs(row.rate.value, row.minutes);
    }
    assert RowMinutes(day.rows) == seq(|day.rows|, i requires 0 <= i < |day.rows| => day.rows[i].minutes);
  }

  /** Rows stand by name, then by id, character by character. */
  lemma RowsInOrder(ctx: Context, entries: seq<Punch>, tips: seq<Tip>, days: seq<ReportDay>, k: nat, i: nat, j: nat)
    requires IsReport(ctx, entries, tips, days) && k < |days| && i < j < |days[k].rows|
    ensures var a, b := days[k].rows[i], days[k].rows[j];
            Precedes(a.name, b.name) || (a.name == b.name && Precedes(a.id, b.id))
  {
    var rows := days[k].rows;
    var worked, tip := WorkedOn(ctx, entries, days[k].date), TipOf(tips, days[k].date);
    assert IsReportDay(ctx, entries, tips, days[k]);
    assert RowIs(ctx.byUser, tip, worked, rows, i) && RowIs(ctx.byUser, tip, worked, rows, j);
    assert RowIds(rows)[i] != RowIds(rows)[j] && RowOrder(ctx.byUser)(RowIds(rows)[i], RowIds(rows)[j]);
    StringLeIff(rows[i].name, rows[j].name);
    StringLeIff(rows[i].id, rows[j].id);
  }

  ghost predicate LastFor(tips: seq<Tip>, n: nat, d: int)
    requires n < |tips|
  {
    tips[n].date == d && forall m :: n < m < |tips| ==> tips[m].date != d
  }

  /**
   * Every day of every report: its pool the last one listed for it, zero if none is; its totals the sums over
   * its rows; base pay and tips together its total. Days ascend, and a day has a row for a member exactly when
   * a shift of theirs was paid on it.
   */
  lemma EveryDayInFull(ctx: Context, entries: seq<Punch>, tips: seq<Tip>, days: seq<ReportDay>, k: nat)
    requires IsReport(ctx, entries, tips, days) && k < |days|
    ensures var day := days[k];
            && (forall n: nat :: n < |tips| && LastFor(tips, n, day.date) ==> day.tipCents == tips[n].cents)
            && ((forall n :: 0 <= n < |tips| ==> tips[n].date != day.date) ==> day.tipCents == 0)
            && day.totalMinutes == S.Sum(Map((x: Row) => x.minutes, day.rows))
            && day.totalBase == S.Sum(Map((x: Row) => if x.base.Some? then x.base.value else 0, day.rows))
            && day.totalTipShare == S.Sum(Map((x: Row) => x.tipShare, day.rows))
            && day.totalCents == S.Sum(Map((x: Row) => x.total, day.rows)) == day.totalBase + day.totalTipShare
    ensures forall i :: 0 <= i < k ==> days[i].date < days[k].date
  {
    var day := days[k];
    assert IsReportDay(ctx, entries, tips, day);
    T.LastPoolWins(tips, day.date);
    T.DayBalances(ctx.byUser, day.date, day.tipCents, WorkedOn(ctx, entries, day.date), day);
  }

  /**
   * A day is on the report exactly when it has a pool, or a closed shift of a known member began on it and it was
   * requested.
   */
  lemma DayIsThereIff(ctx: Context, entries: seq<Punch>, tips: seq<Tip>, days: seq<ReportDay>, d: int)
    requires IsReport(ctx, entries, tips, days)
    ensures (exists k :: 0 <= k < |days| && days[k].date == d) <==>
            || (exists n :: 0 <= n < |tips| && tips[n].date == d)
            || ((ctx.from.Some? ==> ctx.from.value <= d) && (ctx.to.Some? ==> d <= ctx.to.value)
                && exists e :: e in entries && e.user in ctx.byUser && PaidOn(ctx.loc, e, d, e.user))
  {
    assert HasDay(days, d) <==> OnReport(ctx, entries, tips, d);
    forall e: Punch
      ensures PaidOn(ctx.loc, e, d, e.user) <==> e.outAt.Some? && DayOf(ctx, e) == d
    {
      DayIs(ctx.loc, e.inAt, d);
    }
  }

  /** The day is on the report, with a row for the user. */
  predicate HasRow(days: seq<ReportDay>, d: int, user: string) {
    exists k, j :: 0 <= k < |days| && 0 <= j < |days[k].rows| && days[k].date == d && days[k].rows[j].id == user
  }

  /** Every closed shift of a known member that began on a requested day has its member's row on that day. */
  lemma EveryShiftHasItsRow(ctx: Context, entries: seq<Punch>, tips: seq<Tip>, days: seq<ReportDay>, e: Punch, d: int)
    requires IsReport(ctx, entries, tips, days) && e in entries && e.user in ctx.byUser
    requires PaidOn(ctx.loc, e, d, e.user)
    requires (ctx.from.Some? ==> ctx.from.value <= d) && (ctx.to.Some? ==> d <= ctx.to.value)
    ensures HasRow(days, d, e.user)
  {
    DayIs(ctx.loc, e.inAt, d);
    T.CountedOnTheirDays(ctx, entries, tips, days);
    T.CellIn(days, (d, e.user));
    var k :| 0 <= k < |days| && T.OnDay(days[k], (d, e.user));
    var j :| 0 <= j < |days[k].rows| && RowIds(days[k].rows)[j] == e.user;
    assert days[k].rows[j].id == e.user;
  }
}
