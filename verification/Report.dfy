/**
 * The payroll report (buildReport and buildDay in backend/internal/tip/handler.go). Days are integers;
 * a zone is the nanoseconds it is ahead of UTC at an instant. Object ids are their hex strings.
 */
module Report {
  import opened Options
  import opened Sorting
  import opened Names
  import G = Geo
  import S = Split
  import M = SplitMethod

  type Time = int
  type Loc = Time -> int
  const SECOND: int := 1_000_000_000
  const MINUTE: int := 60 * SECOND
  const DAY: int := 1440 * MINUTE

  datatype Punch = Punch(user: string, inAt: Time, outAt: Option<Time>)
  datatype Member = Member(userId: Option<string>, name: string, email: string, rate: Option<nat>)
  datatype Tip = Tip(date: int, cents: int)

  datatype Row = Row(id: string, name: string, email: string, minutes: int, rate: Option<nat>, base: Option<int>,
                     tipShare: int, total: int)
  datatype ReportDay = ReportDay(
    date: int, tipCents: int, totalMinutes: int, totalBase: int, totalTipShare: int, totalCents: int, rows: seq<Row>)

  function LocalDay(loc: Loc, t: Time): int {
    (t + loc(t)) / DAY
  }

  /** The local wall clock read some moment of day d. */
  predicate StartedOn(loc: Loc, t: Time, d: int) {
    d * DAY <= t + loc(t) < (d + 1) * DAY
  }

  lemma DayIs(loc: Loc, t: Time, d: int)
    ensures LocalDay(loc, t) == d <==> StartedOn(loc, t, d)
  {
  }

  /** Duration.Round(time.Minute) / time.Minute: the nearest minute, halves away from zero. */
  function RoundMinutes(d: int): int {
    if d >= 0 then (d + 30 * SECOND) / MINUTE else -((30 * SECOND - d) / MINUTE)
  }

  /** Go's integer division truncates toward zero. */
  function Div60(n: int): int {
    if n >= 0 then n / 60 else -(-n / 60)
  }

  function BasePay(rate: nat, minutes: int): int {
    Div60(rate * minutes + 30)
  }

  /** byUser: the last membership listed for a user wins. */
  function ByUser(members: seq<Member>): (r: map<string, Member>)
    ensures forall u :: u in r ==> r[u].userId == Some(u)
  {
    if members == [] then map[]
    else
      var m := members[|members| - 1];
      var r := ByUser(members[..|members| - 1]);
      if m.userId.Some? then r[m.userId.value := m] else r
  }

  /** What a report is asked for: the members, the zone, and the requested days. */
  datatype Context = Context(byUser: map<string, Member>, loc: Loc, from: Option<int>, to: Option<int>)

  predicate InRange(ctx: Context, day: int) {
    (ctx.from.Some? ==> ctx.from.value <= day) && (ctx.to.Some? ==> day <= ctx.to.value)
  }

  function DayOf(ctx: Context, e: Punch): int {
    LocalDay(ctx.loc, e.inAt)
  }

  /** A closed shift of a known member that started on a requested day. */
  predicate Counted(ctx: Context, e: Punch) {
    e.outAt.Some? && e.user in ctx.byUser && InRange(ctx, DayOf(ctx, e))
  }

  function Minutes(e: Punch): int
    requires e.outAt.Some?
  {
    RoundMinutes(G.Sub(e.outAt.value, e.inAt))
  }

  predicate CountsFor(ctx: Context, e: Punch, day: int, user: string) {
    Counted(ctx, e) && DayOf(ctx, e) == day && e.user == user
  }

  function Credit(ctx: Context, e: Punch, day: int, user: string): int {
    if CountsFor(ctx, e, day, user) then Minutes(e) else 0
  }

  /** What a member is paid for on a day: their minutes over all their shifts. */
  function MinutesFor(ctx: Context, entries: seq<Punch>, day: int, user: string): int {
    S.Sum(Map((e: Punch) => Credit(ctx, e, day, user), entries))
  }

  ghost predicate Worked(ctx: Context, entries: seq<Punch>, day: int, user: string) {
    exists e :: e in entries && CountsFor(ctx, e, day, user)
  }

  ghost predicate SomeoneWorked(ctx: Context, entries: seq<Punch>, day: int) {
    exists e :: e in entries && Counted(ctx, e) && DayOf(ctx, e) == day
  }

  predicate HasTip(tips: seq<Tip>, day: int) {
    exists k :: 0 <= k < |tips| && tips[k].date == day
  }

  /** tipByDay: the last pool listed for a day wins, and a day without one has zero. */
  function TipOf(tips: seq<Tip>, day: int): int {
    if tips == [] then 0
    else if tips[|tips| - 1].date == day then tips[|tips| - 1].cents
    else TipOf(tips[..|tips| - 1], day)
  }

  /* ---- what a day of the report is ---- */

  function NameOf(byUser: map<string, Member>, u: string): string {
    if u in byUser then byUser[u].name else ""
  }

  /** Rows go by name, then by id. */
  predicate Before(byUser: map<string, Member>, a: string, b: string) {
    var x, y := NameOf(byUser, a), NameOf(byUser, b);
    if x != y then StringLe(x, y) else StringLe(a, b)
  }

  function RowOrder(byUser: map<string, Member>): (string, string) -> bool {
    (a: string, b: string) => Before(byUser, a, b)
  }

  function RowFor(m: Member, id: string, minutes: int, share: int): Row {
    var base := if m.rate.Some? then Some(BasePay(m.rate.value, minutes)) else None;
    Row(id, m.name, m.email, minutes, m.rate, base, share, share + if base.Some? then base.value else 0)
  }

  function RowIds(rows: seq<Row>): (r: seq<string>) {
    Map((x: Row) => x.id, rows)
  }

  function RowMinutes(rows: seq<Row>): seq<int> {
    Map((x: Row) => x.minutes, rows)
  }

  function RowBases(rows: seq<Row>): seq<int> {
    Map((x: Row) => if x.base.Some? then x.base.value else 0, rows)
  }

  function RowShares(rows: seq<Row>): seq<int> {
    Map((x: Row) => x.tipShare, rows)
  }

  function RowTotals(rows: seq<Row>): seq<int> {
    Map((x: Row) => x.total, rows)
  }

  /** Totals are the sums over the rows. */
  predicate Totalled(day: ReportDay) {
    && day.totalMinutes == S.Sum(RowMinutes(day.rows)) && day.totalBase == S.Sum(RowBases(day.rows))
    && day.totalTipShare == S.Sum(RowShares(day.rows)) && day.totalCents == S.Sum(RowTotals(day.rows))
  }

  /** One row for each who worked, in row order, with their minutes and their part of the split. */
  ghost predicate RowsOf(byUser: map<string, Member>, tip: int, worked: map<string, int>, rows: seq<Row>) {
    && Distinct(RowIds(rows)) && Elements(RowIds(rows)) == worked.Keys && Sorted(RowOrder(byUser), RowIds(rows))
    && forall k :: 0 <= k < |rows| ==> RowIs(byUser, tip, worked, rows, k)
  }

  ghost predicate RowIs(byUser: map<string, Member>, tip: int, worked: map<string, int>, rows: seq<Row>, k: nat)
    requires k < |rows|
  {
    var id := rows[k].id;
    && id in worked && id in byUser
    && rows[k] == RowFor(byUser[id], id, worked[id], S.Shares(tip, RowMinutes(rows))[k])
  }

  ghost predicate IsDay(byUser: map<string, Member>, date: int, tip: int, worked: map<string, int>, day: ReportDay) {
    day.date == date && day.tipCents == tip && RowsOf(byUser, tip, worked, day.rows) && Totalled(day)
  }

  lemma RowOrderIsOrder(byUser: map<string, Member>)
    ensures TotalOrder(RowOrder(byUser)) && Antisymmetric(RowOrder(byUser))
  {
    StringOrder();
    var le := RowOrder(byUser);
    forall a: string, b: string, c: string | Before(byUser, a, b) && Before(byUser, b, c)
      ensures Before(byUser, a, c)
    {
      BeforeTransitive(byUser, a, b, c);
    }
    forall a: string, b: string
      ensures Before(byUser, a, b) || Before(byUser, b, a)
      ensures Before(byUser, a, b) && Before(byUser, b, a) ==> a == b
    {
      BeforeTotal(byUser, a, b);
    }
  }

  lemma BeforeTransitive(byUser: map<string, Member>, a: string, b: string, c: string)
    requires Before(byUser, a, b) && Before(byUser, b, c)
    ensures Before(byUser, a, c)
  {
    var x, y, z := NameOf(byUser, a), NameOf(byUser, b), NameOf(byUser, c);
    if x == y == z {
      StringTransitive(a, b, c);
    } else if x == z {
      StringAntisymmetric(x, y);
    } else if x != y && y != z {
      StringTransitive(x, y, z);
    }
  }

  lemma BeforeTotal(byUser: map<string, Member>, a: string, b: string)
    ensures Before(byUser, a, b) || Before(byUser, b, a)
    ensures Before(byUser, a, b) && Before(byUser, b, a) ==> a == b
  {
    var x, y := NameOf(byUser, a), NameOf(byUser, b);
    StringTotal(x, y);
    StringTotal(a, b);
    if Before(byUser, a, b) && Before(byUser, b, a) {
      if x != y {
        StringAntisymmetric(x, y);
      } else {
        StringAntisymmetric(a, b);
      }
    }
  }

  /* ---- buildDay ---- */

  method BuildRow(m: Member, id: string, minutes: int, share: int) returns (row: Row)
    ensures row == RowFor(m, id, minutes, share)
  {
    row := Row(id, m.name, m.email, minutes, m.rate, None, share, share);
    if m.rate.Some? {
      var base := BasePay(m.rate.value, minutes);
      row := row.(base := Some(base), total := row.total + base);
    }
  }

  /** The accumulating loop of buildDay: one row appended, and each total grown by that row. */
  method AddRow(day: ReportDay, row: Row) returns (r: ReportDay)
    requires Totalled(day)
    ensures Totalled(r) && r.date == day.date && r.tipCents == day.tipCents && r.rows == day.rows + [row]
  {
    r := day;
    if row.base.Some? {
      r := r.(totalBase := r.totalBase + row.base.value);
    }
    r := r.(totalMinutes := r.totalMinutes + row.minutes, totalTipShare := r.totalTipShare + row.tipShare,
            totalCents := r.totalCents + row.total, rows := r.rows + [row]);
    TotalsGrow(day.rows, row);
  }

  lemma TotalsGrow(rows: seq<Row>, row: Row)
    ensures S.Sum(RowMinutes(rows + [row])) == S.Sum(RowMinutes(rows)) + row.minutes
    ensures S.Sum(RowBases(rows + [row])) == S.Sum(RowBases(rows)) + if row.base.Some? then row.base.value else 0
    ensures S.Sum(RowShares(rows + [row])) == S.Sum(RowShares(rows)) + row.tipShare
    ensures S.Sum(RowTotals(rows + [row])) == S.Sum(RowTotals(rows)) + row.total
  {
    MapSum((x: Row) => x.minutes, rows, row);
    MapSum((x: Row) => if x.base.Some? then x.base.value else 0, rows, row);
    MapSum((x: Row) => x.tipShare, rows, row);
    MapSum((x: Row) => x.total, rows, row);
  }

  lemma MapSum<T>(f: T -> int, s: seq<T>, x: T)
    ensures S.Sum(Map(f, s + [x])) == S.Sum(Map(f, s)) + f(x)
  {
    assert Map(f, s + [x]) == Map(f, s) + [f(x)];
    S.SumAppend(Map(f, s), f(x));
  }

  predicate RowAt(byUser: map<string, Member>, ids: seq<string>, minutes: seq<int>, shares: seq<int>, rows: seq<Row>,
                  k: nat)
  {
    && k < |ids| && k < |minutes| && k < |shares| && k < |rows| && ids[k] in byUser
    && rows[k] == RowFor(byUser[ids[k]], ids[k], minutes[k], shares[k])
  }

  method BuildRows(ids: seq<string>, minutes: seq<int>, shares: seq<int>, byUser: map<string, Member>, empty: ReportDay)
    returns (day: ReportDay)
    requires |ids| == |minutes| == |shares| && forall k :: 0 <= k < |ids| ==> ids[k] in byUser
    requires empty.rows == [] && Totalled(empty)
    ensures day.date == empty.date && day.tipCents == empty.tipCents && Totalled(day) && |day.rows| == |ids|
    ensures forall k: nat {:trigger RowAt(byUser, ids, minutes, shares, day.rows, k)} :: k < |ids| ==>
              RowAt(byUser, ids, minutes, shares, day.rows, k)
  {
    day := empty;
    for k := 0 to |ids|
      invariant day.date == empty.date && day.tipCents == empty.tipCents && Totalled(day) && |day.rows| == k
      invariant forall j: nat {:trigger RowAt(byUser, ids, minutes, shares, day.rows, j)} :: j < k ==>
                  RowAt(byUser, ids, minutes, shares, day.rows, j)
    {
      ghost var before := day.rows;
      var row := BuildRow(byUser[ids[k]], ids[k], minutes[k], shares[k]);
      day := AddRow(day, row);
      forall j: nat | j < k
        ensures RowAt(byUser, ids, minutes, shares, day.rows, j)
      {
        assert RowAt(byUser, ids, minutes, shares, before, j);
      }
    }
  }

  lemma RowsAre(byUser: map<string, Member>, tip: int, worked: map<string, int>, ids: seq<string>, minutes: seq<int>,
                rows: seq<Row>)
    requires Distinct(ids) && Elements(ids) == worked.Keys && Sorted(RowOrder(byUser), ids)
    requires |rows| == |ids| == |minutes|
    requires forall k :: 0 <= k < |ids| ==> ids[k] in worked && minutes[k] == worked[ids[k]]
    requires forall k: nat {:trigger RowAt(byUser, ids, minutes, S.Shares(tip, minutes), rows, k)} ::
               k < |ids| ==> RowAt(byUser, ids, minutes, S.Shares(tip, minutes), rows, k)
    ensures RowsOf(byUser, tip, worked, rows)
  {
    forall k: nat | k < |rows|
      ensures rows[k].id == ids[k] && rows[k].minutes == minutes[k]
    {
      assert RowAt(byUser, ids, minutes, S.Shares(tip, minutes), rows, k);
    }
    assert RowIds(rows) == ids;
    assert RowMinutes(rows) == minutes;
    forall k: nat | k < |rows|
      ensures RowIs(byUser, tip, worked, rows, k)
    {
      assert RowAt(byUser, ids, minutes, S.Shares(tip, minutes), rows, k);
    }
  }

  method BuildDay(date: int, tip: int, worked: map<string, int>, byUser: map<string, Member>) returns (day: ReportDay)
    requires worked.Keys <= byUser.Keys
    ensures IsDay(byUser, date, tip, worked, day)
  {
    RowOrderIsOrder(byUser);
    var ids := SortedKeys(RowOrder(byUser), worked.Keys);
    assert forall k :: 0 <= k < |ids| ==> ids[k] in Elements(ids);
    var minutes := seq(|ids|, k requires 0 <= k < |ids| => worked[ids[k]]);
    var shares := M.SplitByMinutes(tip, minutes);
    day := BuildRows(ids, minutes, shares, byUser, ReportDay(date, tip, 0, 0, 0, 0, []));
    RowsAre(byUser, tip, worked, ids, minutes, day.rows);
  }

  /* ---- buildReport ---- */

  /** Everyone who worked on a day, with their minutes. */
  ghost function WorkedOn(ctx: Context, entries: seq<Punch>, day: int): (r: map<string, int>)
    ensures r.Keys <= ctx.byUser.Keys
  {
    map u | u in ctx.byUser && Worked(ctx, entries, day, u) :: MinutesFor(ctx, entries, day, u)
  }

  ghost predicate IsReportDay(ctx: Context, entries: seq<Punch>, tips: seq<Tip>, day: ReportDay) {
    IsDay(ctx.byUser, day.date, TipOf(tips, day.date), WorkedOn(ctx, entries, day.date), day)
  }

  ghost predicate OnReport(ctx: Context, entries: seq<Punch>, tips: seq<Tip>, day: int) {
    HasTip(tips, day) || SomeoneWorked(ctx, entries, day)
  }

  predicate HasDay(days: seq<ReportDay>, day: int) {
    exists k :: 0 <= k < |days| && days[k].date == day
  }

  /** Days strictly ascending, one for every day with a tip or a counted shift and no other, each as it should be. */
  ghost predicate IsReport(ctx: Context, entries: seq<Punch>, tips: seq<Tip>, days: seq<ReportDay>) {
    && (forall j, k :: 0 <= j < k < |days| ==> days[j].date < days[k].date)
    && (forall d {:trigger HasDay(days, d)} :: HasDay(days, d) <==> OnReport(ctx, entries, tips, d))
    && forall k :: 0 <= k < |days| ==> IsReportDay(ctx, entries, tips, days[k])
  }

  lemma {:induction false} NoWorkNoMinutes(ctx: Context, entries: seq<Punch>, day: int, user: string)
    requires !Worked(ctx, entries, day, user)
    ensures MinutesFor(ctx, entries, day, user) == 0
  {
    if entries != [] {
      var front, e := entries[..|entries| - 1], entries[|entries| - 1];
      assert entries == front + [e] && e in entries;
      MapSum((e: Punch) => Credit(ctx, e, day, user), front, e);
      assert !Worked(ctx, front, day, user);
      NoWorkNoMinutes(ctx, front, day, user);
    }
  }

  lemma MinutesGrow(ctx: Context, entries: seq<Punch>, e: Punch, day: int, user: string)
    ensures MinutesFor(ctx, entries + [e], day, user) == MinutesFor(ctx, entries, day, user) + Credit(ctx, e, day, user)
    ensures Worked(ctx, entries + [e], day, user) <==> Worked(ctx, entries, day, user) || CountsFor(ctx, e, day, user)
  {
    MapSum((e: Punch) => Credit(ctx, e, day, user), entries, e);
    if Worked(ctx, entries, day, user) {
      var x :| x in entries && CountsFor(ctx, x, day, user);
      assert x in entries + [e];
    }
    assert e in entries + [e];
  }

  /** Go's m[k] += n: a missing key counts from zero. */
  function Plus(m: map<string, int>, k: string, n: int): map<string, int> {
    m[k := (if k in m then m[k] else 0) + n]
  }

  ghost predicate SameAt(m: map<string, int>, n: map<string, int>, u: string) {
    (u in m <==> u in n) && (u in m ==> m[u] == n[u])
  }

  lemma SameMaps(m: map<string, int>, n: map<string, int>)
    requires forall u {:trigger SameAt(m, n, u)} :: SameAt(m, n, u)
    ensures m == n
  {
    forall u: string
      ensures (u in m <==> u in n) && (u in m ==> m[u] == n[u])
    {
      assert SameAt(m, n, u);
    }
  }

  lemma WorkedGrowsAt(ctx: Context, entries: seq<Punch>, e: Punch, day: int, u: string)
    ensures SameAt(WorkedOn(ctx, entries + [e], day),
                   if Counted(ctx, e) && DayOf(ctx, e) == day then Plus(WorkedOn(ctx, entries, day), e.user, Minutes(e))
                      else WorkedOn(ctx, entries, day), u)
  {
    MinutesGrow(ctx, entries, e, day, u);
    if !Worked(ctx, entries, day, u) {
      NoWorkNoMinutes(ctx, entries, day, u);
    }
  }

  lemma WorkedGrows(ctx: Context, entries: seq<Punch>, e: Punch, day: int)
    ensures WorkedOn(ctx, entries + [e], day) ==
            if Counted(ctx, e) && DayOf(ctx, e) == day then Plus(WorkedOn(ctx, entries, day), e.user, Minutes(e))
            else WorkedOn(ctx, entries, day)
  {
    var m := WorkedOn(ctx, entries + [e], day);
    var n := if Counted(ctx, e) && DayOf(ctx, e) == day then Plus(WorkedOn(ctx, entries, day), e.user, Minutes(e))
        else WorkedOn(ctx, entries, day);
    forall u: string
      ensures SameAt(m, n, u)
    {
      WorkedGrowsAt(ctx, entries, e, day, u);
    }
    SameMaps(m, n);
  }

  lemma SomeoneGrows(ctx: Context, entries: seq<Punch>, e: Punch, day: int)
    ensures SomeoneWorked(ctx, entries + [e], day) <==>
              SomeoneWorked(ctx, entries, day) || (Counted(ctx, e) && DayOf(ctx, e) == day)
  {
    if SomeoneWorked(ctx, entries, day) {
      var x :| x in entries && Counted(ctx, x) && DayOf(ctx, x) == day;
      assert x in entries + [e];
    }
    assert e in entries + [e];
  }

  type Table = map<int, map<string, int>>

  ghost predicate Tallied(ctx: Context, entries: seq<Punch>, tips: seq<Tip>, table: Table) {
    && (forall d {:trigger OnReport(ctx, entries, tips, d)} :: d in table <==> OnReport(ctx, entries, tips, d))
    && forall d :: d in table ==> table[d] == WorkedOn(ctx, entries, d)
  }

  lemma WorkedMeansSomeone(ctx: Context, entries: seq<Punch>, day: int, u: string)
    requires Worked(ctx, entries, day, u)
    ensures SomeoneWorked(ctx, entries, day)
  {
    var e :| e in entries && CountsFor(ctx, e, day, u);
  }

  lemma NobodyYet(ctx: Context, entries: seq<Punch>, day: int)
    requires !SomeoneWorked(ctx, entries, day)
    ensures WorkedOn(ctx, entries, day) == map[]
  {
    forall u: string
      ensures !Worked(ctx, entries, day, u)
    {
      if Worked(ctx, entries, day, u) {
        WorkedMeansSomeone(ctx, entries, day, u);
      }
    }
  }

  /** minutesByDay[day][user] += minutes, with the day's map made when it is the first. */
  function Tally(table: Table, day: int, user: string, minutes: int): Table {
    table[day := Plus(if day in table then table[day] else map[], user, minutes)]
  }

  lemma TallyKeeps(ctx: Context, entries: seq<Punch>, e: Punch, tips: seq<Tip>, table: Table)
    requires Tallied(ctx, entries, tips, table)
    ensures Tallied(ctx, entries + [e], tips, if Counted(ctx, e) then Tally(table, DayOf(ctx, e), e.user, Minutes(e))
            else table)
  {
    var day := DayOf(ctx, e);
    if Counted(ctx, e) && day !in table {
      assert !OnReport(ctx, entries, tips, day);
      NobodyYet(ctx, entries, day);
    }
    forall d: int
      ensures WorkedOn(ctx, entries + [e], d) ==
              if Counted(ctx, e) && day == d then Plus(WorkedOn(ctx, entries, d), e.user, Minutes(e))
                 else WorkedOn(ctx, entries, d)
      ensures OnReport(ctx, entries + [e], tips, d) <==>
                OnReport(ctx, entries, tips, d) || (Counted(ctx, e) && day == d)
    {
      WorkedGrows(ctx, entries, e, d);
      SomeoneGrows(ctx, entries, e, d);
    }
  }

  /** The last loop before the sort: a day built for each key of the table, in whatever order. */
  method BuildDays(ctx: Context, table: Table, tips: seq<Tip>, ghost entries: seq<Punch>) returns (days: seq<ReportDay>)
    requires Tallied(ctx, entries, tips, table)
    ensures Distinct(Dates(days)) && (forall d :: d in Dates(days) <==> d in table)
    ensures forall k :: 0 <= k < |days| ==> IsReportDay(ctx, entries, tips, days[k])
  {
    var keys := AnyOrder(table.Keys);
    assert forall k :: 0 <= k < |keys| ==> keys[k] in Elements(keys);
    days := [];
    for i := 0 to |keys|
      invariant |days| == i && Dates(days) == keys[..i]
      invariant forall k :: 0 <= k < i ==> IsReportDay(ctx, entries, tips, days[k])
    {
      var d := keys[i];
      var day := BuildDay(d, TipOf(tips, d), table[d], ctx.byUser);
      days := days + [day];
    }
    assert Dates(days) == keys;
    assert forall d :: d in keys <==> d in Elements(keys);
  }

  function Dates(days: seq<ReportDay>): seq<int> {
    Map((d: ReportDay) => d.date, days)
  }

  predicate Sooner(a: ReportDay, b: ReportDay) {
    a.date <= b.date
  }

  lemma SortedDays(days: seq<ReportDay>)
    requires Distinct(Dates(days))
    ensures var s := SortBy(Sooner, days);
            && (forall d :: d in s <==> d in days)
            && forall j, k :: 0 <= j < k < |s| ==> s[j].date < s[k].date
  {
    SortByCorrect(Sooner, days);
    var s := SortBy(Sooner, days);
    forall d
      ensures d in s <==> d in days
    {
      assert d in multiset(s) <==> d in multiset(days);
    }
    MapMultiset((d: ReportDay) => d.date, s, days);
    forall x | x in Dates(s)
      ensures multiset(Dates(s))[x] == 1
    {
      DistinctCount(Dates(days), x);
      assert x in multiset(Dates(s));
    }
    CountsOneDistinct(Dates(s));
    forall j, k | 0 <= j < k < |s|
      ensures s[j].date < s[k].date
    {
      assert Sooner(s[j], s[k]) && Dates(s)[j] != Dates(s)[k];
    }
  }

  lemma DatesAreDays(days: seq<ReportDay>, sorted: seq<ReportDay>, day: int)
    requires forall d :: d in sorted <==> d in days
    ensures HasDay(sorted, day) <==> day in Dates(days)
  {
    if HasDay(sorted, day) {
      var k :| 0 <= k < |sorted| && sorted[k].date == day;
      assert sorted[k] in days;
      var j :| 0 <= j < |days| && days[j] == sorted[k];
      assert Dates(days)[j] == day;
    }
    if day in Dates(days) {
      var j :| 0 <= j < |days| && Dates(days)[j] == day;
      assert days[j] in sorted;
      var k :| 0 <= k < |sorted| && sorted[k] == days[j];
    }
  }

  /** The first loops of buildReport: a map for each tip day, then the minutes of each entry. */
  method TallyEntries(ctx: Context, entries: seq<Punch>, tips: seq<Tip>) returns (minutesByDay: Table)
    ensures Tallied(ctx, entries, tips, minutesByDay)
  {
    minutesByDay := map[];
    for i := 0 to |tips|
      invariant forall d :: d in minutesByDay <==> HasTip(tips[..i], d)
      invariant forall d :: d in minutesByDay ==> minutesByDay[d] == map[]
    {
      minutesByDay := minutesByDay[tips[i].date := map[]];
    }
    assert tips[..|tips|] == tips;
    NobodyAtFirst(ctx, tips, minutesByDay);
    for i := 0 to |entries|
      invariant Tallied(ctx, entries[..i], tips, minutesByDay)
    {
      var e := entries[i];
      TallyKeeps(ctx, entries[..i], e, tips, minutesByDay);
      assert entries[..i + 1] == entries[..i] + [e];
      if e.outAt.None? {
        continue;
      }
      if e.user !in ctx.byUser {
        continue;
      }
      var day := DayOf(ctx, e);
      if !InRange(ctx, day) {
        continue;
      }
      minutesByDay := Tally(minutesByDay, day, e.user, Minutes(e));
    }
    assert entries[..|entries|] == entries;
  }

  lemma NobodyAtFirst(ctx: Context, tips: seq<Tip>, table: Table)
    requires forall d :: d in table <==> HasTip(tips, d)
    requires forall d :: d in table ==> table[d] == map[]
    ensures Tallied(ctx, [], tips, table)
  {
    forall d
      ensures d in table <==> OnReport(ctx, [], tips, d)
      ensures WorkedOn(ctx, [], d) == map[]
    {
      NobodyYet(ctx, [], d);
    }
  }

  method BuildReport(entries: seq<Punch>, members: seq<Member>, tips: seq<Tip>, loc: Loc, from: Option<int>,
                     to: Option<int>)
    returns (days: seq<ReportDay>)
    ensures IsReport(Context(ByUser(members), loc, from, to), entries, tips, days)
  {
    var ctx := Context(ByUser(members), loc, from, to);
    var minutesByDay := TallyEntries(ctx, entries, tips);
    var built := BuildDays(ctx, minutesByDay, tips, entries);
    var a := new ReportDay[|built|](i requires 0 <= i < |built| => built[i]);
    assert a[..] == built;
    SortInPlace(Sooner, a);
    days := a[..];
    SortedDays(built);
    forall d
      ensures HasDay(days, d) <==> OnReport(ctx, entries, tips, d)
    {
      DatesAreDays(built, days, d);
    }
    forall k | 0 <= k < |days|
      ensures IsReportDay(ctx, entries, tips, days[k])
    {
      assert days[k] in days;
      assert days[k] in built;
    }
  }
}
