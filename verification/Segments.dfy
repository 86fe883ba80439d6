/**
 * Cutting shifts into day segments (segmentsFor and layoutWeek in web/src/lib/week.ts). Instants are
 * whole minutes since the epoch, days are integers, and a zone is the minutes it is ahead at an instant.
 */
module Segments {
  import opened Options
  import opened Sorting
  import opened Lanes

  const MINUTES_PER_DAY: int := 1440

  type Zone = int -> int

  datatype Wall = Wall(day: int, minutes: int)

  /** What new Date makes of a timestamp: nothing there, an invalid date, or an instant. */
  datatype Stamp = Absent | Unreadable | At(t: int)

  datatype Shift = Shift(id: nat, clockIn: Stamp, clockOut: Stamp)
  datatype Segment = Segment(day: int, startMin: int, endMin: int)

  /** The wall clock as one number: minutes since the midnight of day 0. */
  function WallClock(tz: Zone, t: int): int {
    t + tz(t)
  }

  function Zoned(tz: Zone, t: int): (w: Wall)
    ensures 0 <= w.minutes < MINUTES_PER_DAY && w.day * MINUTES_PER_DAY + w.minutes == WallClock(tz, t)
  {
    Wall(WallClock(tz, t) / MINUTES_PER_DAY, WallClock(tz, t) % MINUTES_PER_DAY)
  }

  function Absolute(w: Wall): int {
    w.day * MINUTES_PER_DAY + w.minutes
  }

  /** Where the shift is drawn to, if it can be drawn at all: an open one stops at the end of its clock-in day. */
  function DrawnTo(start: Wall, out: Stamp, tz: Zone, now: int): Option<Wall> {
    match out
    case At(t) => Some(Zoned(tz, t))
    case Unreadable => None
    case Absent =>
      var current := Zoned(tz, now);
      Some(if current.day > start.day then Wall(start.day, MINUTES_PER_DAY) else current)
  }

  /** The segments of wall-clock time a up to b: one a day, cut at each midnight. */
  function Pieces(start: Wall, end: Wall): seq<Segment>
    decreases end.day - start.day
  {
    if end.day <= start.day then [Segment(start.day, start.minutes, end.minutes)]
    else
      [Segment(start.day, start.minutes, MINUTES_PER_DAY)] +
      if end.day == start.day + 1 && end.minutes <= 0 then [] else Pieces(Wall(start.day + 1, 0), end)
  }

  /** One whole day more, and what is left of the shift after it. */
  lemma PiecesFrom(before: seq<Segment>, day: int, end: Wall)
    requires day < end.day
    ensures before + Pieces(Wall(day, 0), end) ==
            (before + [Segment(day, 0, MINUTES_PER_DAY)]) +
            if day + 1 == end.day && end.minutes <= 0 then [] else Pieces(Wall(day + 1, 0), end)
  {
  }

  function Cut(start: Wall, end: Wall): seq<Segment> {
    if end.day < start.day || (end.day == start.day && end.minutes < start.minutes)
       then [Segment(start.day, start.minutes, start.minutes)] else Pieces(start, end)
  }

  function SegmentsOf(e: Shift, tz: Zone, now: int): seq<Segment> {
    if !e.clockIn.At? then []
    else
      var start := Zoned(tz, e.clockIn.t);
      var end := DrawnTo(start, e.clockOut, tz, now);
      if end.None? then [] else Cut(start, end.value)
  }

  method SegmentsFor(e: Shift, tz: Zone, now: int) returns (segments: seq<Segment>)
    ensures segments == SegmentsOf(e, tz, now)
  {
    if !e.clockIn.At? {
      return [];
    }
    var start := Zoned(tz, e.clockIn.t);
    var drawn := DrawnTo(start, e.clockOut, tz, now);
    if drawn.None? {
      return [];
    }
    var end := drawn.value;
    if end.day < start.day || (end.day == start.day && end.minutes < start.minutes) {
      return [Segment(start.day, start.minutes, start.minutes)];
    }
    if start.day == end.day {
      return [Segment(start.day, start.minutes, end.minutes)];
    }
    segments := [Segment(start.day, start.minutes, MINUTES_PER_DAY)];
    var day := start.day + 1;
    while day < end.day
      invariant start.day < day <= end.day
      invariant Pieces(start, end) == segments + if day == end.day && end.minutes <= 0 then []
                else Pieces(Wall(day, 0), end)
    {
      PiecesFrom(segments, day, end);
      segments := segments + [Segment(day, 0, MINUTES_PER_DAY)];
      day := day + 1;
    }
    if end.minutes > 0 {
      segments := segments + [Segment(end.day, 0, end.minutes)];
    }
  }

  /* ---- the segments partition the shift ---- */

  function From(s: Segment): int {
    s.day * MINUTES_PER_DAY + s.startMin
  }

  function To(s: Segment): int {
    s.day * MINUTES_PER_DAY + s.endMin
  }

  predicate OnGrid(s: Segment) {
    0 <= s.startMin <= s.endMin <= MINUTES_PER_DAY
  }

  /** Segment k begins at the midnight its predecessor ends at. */
  predicate Continues(s: seq<Segment>, k: nat)
    requires 0 < k < |s|
  {
    s[k].day == s[k - 1].day + 1 && s[k - 1].endMin == MINUTES_PER_DAY && s[k].startMin == 0
  }

  /** One segment a day, in order, end to end, from a to b, and none of them empty unless the whole is. */
  ghost predicate Partition(s: seq<Segment>, a: int, b: int) {
    && s != [] && From(s[0]) == a && To(s[|s| - 1]) == b
    && (forall k :: 0 <= k < |s| ==> OnGrid(s[k]) && (a < b ==> s[k].startMin < s[k].endMin))
    && forall k: nat {:trigger Continues(s, k)} :: 0 < k < |s| ==> Continues(s, k)
  }

  lemma Prepend(x: Segment, s: seq<Segment>, b: int)
    requires OnGrid(x) && x.startMin < x.endMin == MINUTES_PER_DAY
    requires Partition(s, To(x), b) && To(x) < b && s[0].day == x.day + 1 && s[0].startMin == 0
    ensures Partition([x] + s, From(x), b)
  {
    var r := [x] + s;
    forall k: nat | 0 < k < |r|
      ensures Continues(r, k)
    {
      assert k > 1 ==> Continues(s, k - 1);
    }
    assert r[|r| - 1] == s[|s| - 1];
  }

  lemma {:induction false} PiecesPartition(start: Wall, end: Wall)
    requires 0 <= start.minutes < MINUTES_PER_DAY && 0 <= end.minutes <= MINUTES_PER_DAY
    requires start.day <= end.day && Absolute(start) <= Absolute(end)
    ensures Partition(Pieces(start, end), Absolute(start), Absolute(end))
    ensures Pieces(start, end)[0].day == start.day && Pieces(start, end)[0].startMin == start.minutes
    decreases end.day - start.day
  {
    if end.day > start.day && !(end.day == start.day + 1 && end.minutes <= 0) {
      PiecesPartition(Wall(start.day + 1, 0), end);
      Prepend(Segment(start.day, start.minutes, MINUTES_PER_DAY), Pieces(Wall(start.day + 1, 0), end), Absolute(end));
    } else if end.day > start.day {
      assert Pieces(start, end) == [Segment(start.day, start.minutes, MINUTES_PER_DAY)];
    }
  }

  /** A closed shift whose wall clock did not run backwards is cut into exactly the time it covers. */
  lemma ClosedShiftIsPartitioned(e: Shift, tz: Zone, now: int)
    requires e.clockIn.At? && e.clockOut.At? && WallClock(tz, e.clockIn.t) <= WallClock(tz, e.clockOut.t)
    ensures Partition(SegmentsOf(e, tz, now), WallClock(tz, e.clockIn.t), WallClock(tz, e.clockOut.t))
  {
    PiecesPartition(Zoned(tz, e.clockIn.t), Zoned(tz, e.clockOut.t));
  }

  /** A closed shift whose wall clock ran back is one mark of no length, at the minute and on the day it began. */
  lemma BackwardShiftIsAMark(e: Shift, tz: Zone, now: int)
    requires e.clockIn.At? && e.clockOut.At?
    requires e.clockOut.t + tz(e.clockOut.t) < e.clockIn.t + tz(e.clockIn.t)
    ensures |SegmentsOf(e, tz, now)| == 1
    ensures var s := SegmentsOf(e, tz, now)[0];
            s.day * 1440 + s.startMin == e.clockIn.t + tz(e.clockIn.t) && 0 <= s.startMin == s.endMin < 1440
  {
  }

  /** An open shift never leaves the day it clocked in on: it reaches to now, or to that midnight. */
  lemma OpenShiftStaysOnItsDay(e: Shift, tz: Zone, now: int)
    requires e.clockIn.At? && e.clockOut.Absent?
    ensures var day, a := Zoned(tz, e.clockIn.t).day, WallClock(tz, e.clockIn.t);
            var midnight, n := (day + 1) * MINUTES_PER_DAY, WallClock(tz, now);
            var b := if n >= midnight then midnight else if n < a then a else n;
            |SegmentsOf(e, tz, now)| == 1 && Partition(SegmentsOf(e, tz, now), a, b)
              && SegmentsOf(e, tz, now)[0].day == day
  {
  }

  /** Nothing that can be read is dropped, even where the clock ran backwards. */
  lemma EveryReadableShiftIsDrawn(e: Shift, tz: Zone, now: int)
    ensures SegmentsOf(e, tz, now) != [] <==> e.clockIn.At? && !e.clockOut.Unreadable?
    ensures forall k :: 0 <= k < |SegmentsOf(e, tz, now)| ==> OnGrid(SegmentsOf(e, tz, now)[k])
  {
    if e.clockIn.At? && !e.clockOut.Unreadable? {
      var start := Zoned(tz, e.clockIn.t);
      var end := DrawnTo(start, e.clockOut, tz, now).value;
      if Absolute(start) <= Absolute(end) {
        PiecesPartition(start, end);
      }
    }
  }

  function Length(s: seq<Segment>): int {
    if s == [] then 0 else Length(s[..|s| - 1]) + s[|s| - 1].endMin - s[|s| - 1].startMin
  }

  lemma {:induction false} LengthsAddUp(s: seq<Segment>, a: int, b: int)
    requires Partition(s, a, b)
    ensures Length(s) == b - a
    decreases |s|
  {
    if |s| > 1 {
      var n := |s| - 1;
      LengthsUpTo(s, a, b, n);
    } else {
      assert s[..0] == [];
    }
  }

  lemma {:induction false} LengthsUpTo(s: seq<Segment>, a: int, b: int, n: nat)
    requires Partition(s, a, b) && n < |s|
    ensures Length(s[..n]) == From(s[n]) - a
  {
    if n > 0 {
      LengthsUpTo(s, a, b, n - 1);
      assert s[..n][..n - 1] == s[..n - 1];
      assert Continues(s, n);
    }
  }

  lemma {:induction false} Ascends(s: seq<Segment>, a: int, b: int, j: nat, k: nat)
    requires Partition(s, a, b) && j <= k < |s|
    ensures s[k].day == s[j].day + (k - j) && (j < k ==> To(s[j]) <= From(s[k]))
    decreases k - j
  {
    if j < k {
      Ascends(s, a, b, j, k - 1);
      assert Continues(s, k);
    }
  }

  /** Each wall-clock minute of the shift is in exactly one segment, and no other minute is in any. */
  lemma EachMinuteOnce(s: seq<Segment>, a: int, b: int, m: int)
    requires Partition(s, a, b)
    ensures a <= m < b <==> exists k :: 0 <= k < |s| && From(s[k]) <= m < To(s[k])
    ensures forall j, k :: 0 <= j < k < |s| && From(s[j]) <= m < To(s[j]) ==> !(From(s[k]) <= m < To(s[k]))
  {
    forall j, k | 0 <= j < k < |s|
      ensures To(s[j]) <= From(s[k])
    {
      Ascends(s, a, b, j, k);
    }
    if a <= m < b {
      var k := Covering(s, a, b, m, |s|);
    }
    forall k | 0 <= k < |s|
      ensures a <= From(s[k]) && To(s[k]) <= b
    {
      Ascends(s, a, b, 0, k);
      Ascends(s, a, b, k, |s| - 1);
    }
  }

  lemma {:induction false} Covering(s: seq<Segment>, a: int, b: int, m: int, n: nat) returns (k: nat)
    requires Partition(s, a, b) && 0 < n <= |s| && a <= m < To(s[n - 1])
    ensures k < n && From(s[k]) <= m < To(s[k])
  {
    if m >= From(s[n - 1]) {
      k := n - 1;
    } else {
      assert n >= 2 && Continues(s, n - 1);
      k := Covering(s, a, b, m, n - 1);
    }
  }

  /* ---- the week ---- */

  function Tag(id: nat, s: Segment): Bar {
    Bar(id, s.day, s.startMin, s.endMin)
  }

  function Tagged(id: nat, s: seq<Segment>): (r: seq<Bar>)
    ensures |r| == |s| && forall k :: 0 <= k < |s| ==> r[k] == Tag(id, s[k])
  {
    Map(x => Tag(id, x), s)
  }

  /** Every segment of every entry, in order. */
  function AllBars(entries: seq<Shift>, tz: Zone, now: int): seq<Bar> {
    if entries == [] then []
    else
      var n := |entries| - 1;
      AllBars(entries[..n], tz, now) + Tagged(entries[n].id, SegmentsOf(entries[n], tz, now))
  }

  function OnDay(bars: seq<Bar>, day: int): seq<Bar> {
    if bars == [] then []
    else
      var n := |bars| - 1;
      OnDay(bars[..n], day) + if bars[n].day == day then [bars[n]] else []
  }

  lemma {:induction false} OnDayOf(bars: seq<Bar>, day: int, b: Bar)
    ensures multiset(OnDay(bars, day))[b] == if b.day == day then multiset(bars)[b] else 0
  {
    if bars != [] {
      var n := |bars| - 1;
      OnDayOf(bars[..n], day, b);
      assert bars == bars[..n] + [bars[n]];
    }
  }

  lemma {:induction false} OnDayConcat(a: seq<Bar>, b: seq<Bar>, day: int)
    ensures OnDay(a + b, day) == OnDay(a, day) + OnDay(b, day)
  {
    if b == [] {
      assert a + b == a;
    } else {
      var n := |b| - 1;
      OnDayConcat(a, b[..n], day);
      assert (a + b)[..|a| + n] == a + b[..n];
    }
  }

  lemma {:induction false} BarsForward(entries: seq<Shift>, tz: Zone, now: int)
    ensures Forward(AllBars(entries, tz, now))
  {
    if entries != [] {
      var n := |entries| - 1;
      BarsForward(entries[..n], tz, now);
      EveryReadableShiftIsDrawn(entries[n], tz, now);
    }
  }

  lemma {:induction false} OnDayForward(bars: seq<Bar>, day: int)
    requires Forward(bars)
    ensures Forward(OnDay(bars, day))
  {
    if bars != [] {
      OnDayForward(bars[..|bars| - 1], day);
    }
  }

  type Buckets = map<int, seq<Bar>>

  /** Every shown day holds exactly its own segments so far. */
  ghost predicate Filled(buckets: Buckets, days: seq<int>, bars: seq<Bar>) {
    && (forall d :: d in buckets <==> d in days)
    && forall d :: d in buckets ==> buckets[d] == OnDay(bars, d)
  }

  /** The inner loop: each segment goes to its day's bucket, and a day not shown drops. */
  method Push(buckets: Buckets, id: nat, segments: seq<Segment>, ghost days: seq<int>, ghost bars: seq<Bar>)
    returns (r: Buckets)
    requires Filled(buckets, days, bars)
    ensures Filled(r, days, bars + Tagged(id, segments))
  {
    r := buckets;
    assert bars + Tagged(id, segments[..0]) == bars;
    for k := 0 to |segments|
      invariant Filled(r, days, bars + Tagged(id, segments[..k]))
    {
      var b := Tag(id, segments[k]);
      ghost var sofar := bars + Tagged(id, segments[..k]);
      assert bars + Tagged(id, segments[..k + 1]) == sofar + [b];
      assert forall d :: OnDay(sofar + [b], d) == OnDay(sofar, d) + (if b.day == d then [b] else []) by {
        assert (sofar + [b])[..|sofar|] == sofar;
      }
      if b.day in r {
        r := r[b.day := r[b.day] + [b]];
      }
    }
    assert segments[..|segments|] == segments;
  }

  /** What AssignLanes promises. */
  ghost predicate IsLayout(bars: seq<Bar>, placed: seq<Placed>) {
    && BarsOf(placed) == SortBy(Earlier, bars) && multiset(BarsOf(placed)) == multiset(bars) && ByTime(BarsOf(placed))
    && Apart(BarsOf(placed), LanesOf(placed)) && Greedy(BarsOf(placed), LanesOf(placed))
    && (forall i :: 0 <= i < |placed| ==> placed[i].lane < placed[i].laneCount)
    && Clustered(BarsOf(placed), CountsOf(placed))
  }

  /** The days in the order they were first listed, as a JavaScript Map keeps them. */
  method LayEach(days: seq<int>, buckets: Buckets) returns (week: map<int, seq<Placed>>)
    requires forall d :: d in days ==> d in buckets && Forward(buckets[d])
    ensures forall d :: d in week <==> d in days
    ensures forall d :: d in week ==> d in buckets && IsLayout(buckets[d], week[d])
  {
    week := map[];
    for i := 0 to |days|
      invariant forall d :: d in week <==> d in days[..i]
      invariant forall d :: d in week ==> d in buckets && IsLayout(buckets[d], week[d])
    {
      var d := days[i];
      if d !in week {
        var placed := AssignLanes(buckets[d]);
        week := week[d := placed];
      }
    }
  }

  method LayoutWeek(entries: seq<Shift>, days: seq<int>, tz: Zone, now: int) returns (week: map<int, seq<Placed>>)
    ensures forall d :: d in week <==> d in days
    ensures forall d :: d in week ==> IsLayout(OnDay(AllBars(entries, tz, now), d), week[d])
  {
    var buckets: Buckets := map d | d in days :: [];
    for i := 0 to |entries|
      invariant Filled(buckets, days, AllBars(entries[..i], tz, now))
    {
      var segments := SegmentsFor(entries[i], tz, now);
      assert entries[..i + 1][..i] == entries[..i];
      buckets := Push(buckets, entries[i].id, segments, days, AllBars(entries[..i], tz, now));
    }
    assert entries[..|entries|] == entries;
    BarsForward(entries, tz, now);
    forall d | d in buckets
      ensures Forward(buckets[d])
    {
      OnDayForward(AllBars(entries, tz, now), d);
    }
    week := LayEach(days, buckets);
  }

  /** The entry has this segment, under its id. */
  predicate Draws(e: Shift, tz: Zone, now: int, b: Bar) {
    e.id == b.entry && Segment(b.day, b.startMin, b.endMin) in SegmentsOf(e, tz, now)
  }

  /** The entries listed that have it. */
  ghost function DrawnBy(entries: seq<Shift>, tz: Zone, now: int, b: Bar): set<nat> {
    Places(e => Draws(e, tz, now, b), entries)
  }

  ghost function Places<T>(p: T -> bool, s: seq<T>): set<nat> {
    set i: nat | i < |s| && p(s[i])
  }

  lemma OneMorePlace<T>(p: T -> bool, s: seq<T>)
    requires s != []
    ensures |Places(p, s)| == |Places(p, s[..|s| - 1])| + if p(s[|s| - 1]) then 1 else 0
  {
    var n := |s| - 1;
    assert forall i: nat :: i < n ==> s[..n][i] == s[i];
    if p(s[n]) {
      assert Places(p, s) == Places(p, s[..n]) + {n};
    } else {
      assert Places(p, s) == Places(p, s[..n]);
    }
  }

  lemma {:induction false} TaggedCount(id: nat, s: seq<Segment>, b: Bar)
    requires forall j, k :: 0 <= j < k < |s| ==> s[j].day < s[k].day
    ensures multiset(Tagged(id, s))[b] ==
            if id == b.entry && Segment(b.day, b.startMin, b.endMin) in s then 1 else 0
  {
    if s != [] {
      var n := |s| - 1;
      TaggedCount(id, s[..n], b);
      assert s == s[..n] + [s[n]];
      assert Tagged(id, s) == Tagged(id, s[..n]) + [Tag(id, s[n])];
    }
  }

  lemma DrawsOnce(e: Shift, tz: Zone, now: int, b: Bar)
    ensures multiset(Tagged(e.id, SegmentsOf(e, tz, now)))[b] == if Draws(e, tz, now, b) then 1 else 0
  {
    var s := SegmentsOf(e, tz, now);
    forall j, k | 0 <= j < k < |s|
      ensures s[j].day < s[k].day
    {
      AtMostOneSegmentADay(e, tz, now, j, k);
    }
    TaggedCount(e.id, s, b);
  }

  lemma {:induction false} BarsAreDrawn(entries: seq<Shift>, tz: Zone, now: int, b: Bar)
    ensures multiset(AllBars(entries, tz, now))[b] == |DrawnBy(entries, tz, now, b)|
  {
    if entries != [] {
      var n := |entries| - 1;
      BarsAreDrawn(entries[..n], tz, now, b);
      DrawsOnce(entries[n], tz, now, b);
      OneMorePlace(e => Draws(e, tz, now, b), entries);
    } else {
      assert DrawnBy(entries, tz, now, b) == {};
    }
  }

  /**
   * A shown day holds each bar exactly as often as there are entries listed of that id that have that segment,
   * of that day and those minutes, and no bar of another day.
   */
  lemma EachSegmentOnce(entries: seq<Shift>, tz: Zone, now: int, day: int, placed: seq<Placed>, b: Bar)
    requires IsLayout(OnDay(AllBars(entries, tz, now), day), placed)
    ensures multiset(BarsOf(placed))[b] == if b.day == day then |DrawnBy(entries, tz, now, b)| else 0
  {
    OnDayOf(AllBars(entries, tz, now), day, b);
    BarsAreDrawn(entries, tz, now, b);
  }

  /** One entry never occupies a day twice. */
  lemma AtMostOneSegmentADay(e: Shift, tz: Zone, now: int, j: nat, k: nat)
    requires j < k < |SegmentsOf(e, tz, now)|
    ensures SegmentsOf(e, tz, now)[j].day < SegmentsOf(e, tz, now)[k].day
  {
    var start := Zoned(tz, e.clockIn.t);
    var end := DrawnTo(start, e.clockOut, tz, now).value;
    PiecesPartition(start, end);
    Ascends(SegmentsOf(e, tz, now), Absolute(start), Absolute(end), j, k);
  }
}
