/** Side-by-side lanes for overlapping bars (assignLanes in web/src/lib/week.ts): valid, greedy and optimal. */
module Lanes {
  import opened Sorting

  /** A day segment of an entry, in minutes since that day's midnight. */
  datatype Bar = Bar(entry: nat, day: int, startMin: int, endMin: int)
  datatype Placed = Placed(bar: Bar, lane: nat, laneCount: nat)

  predicate Earlier(a: Bar, b: Bar) {
    a.startMin < b.startMin || (a.startMin == b.startMin && a.endMin <= b.endMin)
  }

  /** A bar starting exactly when another ends does not overlap it. */
  predicate Overlap(a: Bar, b: Bar) {
    a.startMin < b.endMin && b.startMin < a.endMin
  }

  ghost predicate Forward(bars: seq<Bar>) {
    forall k :: 0 <= k < |bars| ==> bars[k].startMin <= bars[k].endMin
  }

  predicate OverlapAt(bars: seq<Bar>, i: int, j: int) {
    0 <= i < |bars| && 0 <= j < |bars| && Overlap(bars[i], bars[j])
  }

  /* ---- what a layout promises ---- */

  ghost predicate Clique(bars: seq<Bar>, c: set<nat>) {
    && (forall i :: i in c ==> i < |bars|)
    && forall i, j :: i in c && j in c && i != j ==> OverlapAt(bars, i, j)
  }

  /** Bars a..b: everything they overlap is among them, and each but the first overlaps an earlier one. */
  ghost predicate Component(bars: seq<Bar>, a: nat, b: nat) {
    && a < b <= |bars|
    && (forall i, j :: a <= i < b && OverlapAt(bars, i, j) ==> a <= j < b)
    && forall i: nat {:trigger OverlapsEarlier(bars, a, i)} :: a < i < b ==> OverlapsEarlier(bars, a, i)
  }

  ghost predicate OverlapsEarlier(bars: seq<Bar>, a: nat, i: nat) {
    exists j :: a <= j < i && OverlapAt(bars, j, i)
  }

  ghost predicate Within(c: set<nat>, a: nat, b: nat) {
    forall i :: i in c ==> a <= i < b
  }

  /** n lanes are needed for bars a..b: some n of them overlap each other. */
  ghost predicate Needs(bars: seq<Bar>, a: nat, b: nat, n: nat) {
    exists c :: Clique(bars, c) && Within(c, a, b) && |c| == n
  }

  /** Bars a..b are the whole cluster of bar i: all share a count, and some that many of them overlap each other. */
  ghost predicate ClusterOf(bars: seq<Bar>, counts: seq<nat>, i: nat, a: nat, b: nat) {
    && a <= i < b <= |counts| && Component(bars, a, b) && Needs(bars, a, b, counts[i])
    && forall j :: a <= j < b ==> counts[j] == counts[i]
  }

  ghost predicate InCluster(bars: seq<Bar>, counts: seq<nat>, i: nat) {
    exists a, b :: ClusterOf(bars, counts, i, a, b)
  }

  /** No two overlapping bars share a lane; bars from |lanes| on have none yet. */
  ghost predicate Apart(bars: seq<Bar>, lanes: seq<nat>)
    requires |lanes| <= |bars|
  {
    forall i, j :: 0 <= i < |lanes| && 0 <= j < |lanes| && i != j && OverlapAt(bars, i, j) ==> lanes[i] != lanes[j]
  }

  /** Every lower lane is taken by an earlier overlapping bar: the lane is the first one free. */
  ghost predicate FirstFree(bars: seq<Bar>, lanes: seq<nat>, i: nat)
    requires i < |lanes| <= |bars|
  {
    forall l: nat {:trigger Taken(bars, lanes, i, l)} :: l < lanes[i] ==> Taken(bars, lanes, i, l)
  }

  ghost predicate Taken(bars: seq<Bar>, lanes: seq<nat>, i: nat, l: nat)
    requires i < |lanes| <= |bars|
  {
    exists j :: 0 <= j < i && lanes[j] == l && OverlapAt(bars, j, i)
  }

  ghost predicate Greedy(bars: seq<Bar>, lanes: seq<nat>)
    requires |lanes| <= |bars|
  {
    forall i: nat {:trigger FirstFree(bars, lanes, i)} :: i < |lanes| ==> FirstFree(bars, lanes, i)
  }

  function BarsOf(p: seq<Placed>): (r: seq<Bar>)
    ensures |r| == |p| && forall i :: 0 <= i < |p| ==> r[i] == p[i].bar
  {
    seq(|p|, i requires 0 <= i < |p| => p[i].bar)
  }

  function LanesOf(p: seq<Placed>): (r: seq<nat>)
    ensures |r| == |p| && forall i :: 0 <= i < |p| ==> r[i] == p[i].lane
  {
    seq(|p|, i requires 0 <= i < |p| => p[i].lane)
  }

  function CountsOf(p: seq<Placed>): (r: seq<nat>)
    ensures |r| == |p| && forall i :: 0 <= i < |p| ==> r[i] == p[i].laneCount
  {
    seq(|p|, i requires 0 <= i < |p| => p[i].laneCount)
  }

  /* ---- no layout does better ---- */

  ghost function LanesUsed(lanes: seq<nat>, c: set<nat>): set<nat>
    requires forall i :: i in c ==> i < |lanes|
  {
    set i | i in c :: lanes[i]
  }

  lemma {:induction false} DistinctLanes(bars: seq<Bar>, lanes: seq<nat>, c: set<nat>)
    requires |bars| == |lanes| && Apart(bars, lanes) && Clique(bars, c)
    ensures |LanesUsed(lanes, c)| == |c|
  {
    if c != {} {
      var i :| i in c;
      var rest := c - {i};
      DistinctLanes(bars, lanes, rest);
      assert LanesUsed(lanes, c) == LanesUsed(lanes, rest) + {lanes[i]};
      forall j | j in rest
        ensures lanes[j] != lanes[i]
      {
        assert OverlapAt(bars, i, j);
      }
    }
  }

  lemma {:induction false} SetBelow(s: set<nat>, n: nat)
    requires forall x :: x in s ==> x < n
    ensures |s| <= n
  {
    if n == 0 {
      assert s == {};
    } else {
      SetBelow(s - {n - 1}, n - 1);
    }
  }

  /** Any layout whatever that keeps overlapping bars apart uses at least as many lanes. */
  lemma NoLayoutUsesFewer(bars: seq<Bar>, counts: seq<nat>, i: nat, other: seq<nat>, m: nat)
    requires |other| == |bars| && Apart(bars, other) && InCluster(bars, counts, i)
    requires forall j :: 0 <= j < |other| ==> other[j] < m
    ensures i < |counts| && counts[i] <= m
  {
    var a, b :| ClusterOf(bars, counts, i, a, b);
    var c :| Clique(bars, c) && Within(c, a, b) && |c| == counts[i];
    DistinctLanes(bars, other, c);
    SetBelow(LanesUsed(other, c), m);
  }

  /** Keeping overlapping bars apart and always taking the first free lane leaves no choice at all. */
  lemma {:induction false} LayoutIsDetermined(bars: seq<Bar>, lanes: seq<nat>, other: seq<nat>, i: nat)
    requires |lanes| == |other| == |bars| && i < |bars|
    requires Apart(bars, lanes) && Greedy(bars, lanes) && Apart(bars, other) && Greedy(bars, other)
    ensures lanes[i] == other[i]
    decreases i
  {
    if lanes[i] != other[i] {
      var low, high := if lanes[i] < other[i] then lanes else other, if lanes[i] < other[i] then other else lanes;
      assert FirstFree(bars, high, i) && Taken(bars, high, i, low[i]);
      var j :| 0 <= j < i && high[j] == low[i] && OverlapAt(bars, j, i);
      LayoutIsDetermined(bars, lanes, other, j);
    }
  }

  /** A set of mutually overlapping bars never outgrows the lane count: n is the largest such set. */
  lemma NoLargerClique(bars: seq<Bar>, lanes: seq<nat>, a: nat, b: nat, n: nat, c: set<nat>)
    requires |lanes| == |bars| && Apart(bars, lanes) && b <= |bars|
    requires forall i :: a <= i < b ==> lanes[i] < n
    requires Clique(bars, c) && Within(c, a, b)
    ensures |c| <= n
  {
    DistinctLanes(bars, lanes, c);
    SetBelow(LanesUsed(lanes, c), n);
  }

  /* ---- the algorithm ---- */

  /** findIndex: the first lane free at time t, or the next new one. */
  method FindLane(ends: seq<int>, t: int) returns (lane: nat)
    ensures lane <= |ends| && (lane < |ends| ==> ends[lane] <= t)
    ensures forall l :: 0 <= l < lane ==> ends[l] > t
  {
    lane := 0;
    while lane < |ends| && ends[lane] > t
      invariant lane <= |ends| && forall l :: 0 <= l < lane ==> ends[l] > t
    {
      lane := lane + 1;
    }
  }

  /** every: nothing is still running at time t. */
  method AllDone(ends: seq<int>, t: int) returns (done: bool)
    ensures done <==> forall l :: 0 <= l < |ends| ==> ends[l] <= t
  {
    for i := 0 to |ends|
      invariant forall l :: 0 <= l < i ==> ends[l] <= t
    {
      if ends[i] > t {
        return false;
      }
    }
    return true;
  }

  method CloseCluster(placed: seq<Placed>, clusterFrom: nat, count: nat) returns (r: seq<Placed>)
    requires clusterFrom <= |placed|
    ensures |r| == |placed| && r[..clusterFrom] == placed[..clusterFrom]
    ensures forall k :: clusterFrom <= k < |r| ==> r[k] == placed[k].(laneCount := count)
  {
    r := placed;
    for i := clusterFrom to |placed|
      invariant |r| == |placed| && r[..clusterFrom] == placed[..clusterFrom]
      invariant forall k :: clusterFrom <= k < i ==> r[k] == placed[k].(laneCount := count)
      invariant forall k :: i <= k < |r| ==> r[k] == placed[k]
    {
      r := r[i := r[i].(laneCount := count)];
    }
  }

  /** The bar last placed in each lane of the running cluster, which began at `from`. */
  ghost predicate Lasts(bars: seq<Bar>, lanes: seq<nat>, ends: seq<int>, from: nat, last: seq<nat>)
    requires |lanes| <= |bars|
  {
    && |last| == |ends|
    && forall l: nat {:trigger LastIn(bars, lanes, from, l, last[l], ends[l])} :: l < |last| ==>
           LastIn(bars, lanes, from, l, last[l], ends[l])
  }

  ghost predicate LastIn(bars: seq<Bar>, lanes: seq<nat>, from: nat, l: nat, k: nat, end: int)
    requires |lanes| <= |bars|
  {
    from <= k < |lanes| && lanes[k] == l && bars[k].endMin == end
  }

  ghost predicate LanesWithin(bars: seq<Bar>, lanes: seq<nat>, ends: seq<int>, from: nat)
    requires |lanes| <= |bars|
  {
    forall k :: from <= k < |lanes| ==> lanes[k] < |ends| && bars[k].endMin <= ends[lanes[k]]
  }

  /** Everything before `from` is over when anything from there on starts. */
  ghost predicate Barrier(bars: seq<Bar>, from: nat) {
    forall k, m :: 0 <= k < from <= m < |bars| ==> bars[k].endMin <= bars[m].startMin
  }

  ghost predicate Connected(bars: seq<Bar>, from: nat, to: nat) {
    forall i: nat {:trigger OverlapsEarlier(bars, from, i)} :: from < i < to ==> OverlapsEarlier(bars, from, i)
  }

  ghost predicate InOrder(bars: seq<Bar>) {
    Sorted(Earlier, bars) && Forward(bars)
  }

  /** A correct layout so far: bars 0..|lanes| have lanes, the cluster begun at `from` is still open. */
  ghost predicate SoFar(bars: seq<Bar>, lanes: seq<nat>, ends: seq<int>, from: nat, last: seq<nat>, clique: set<nat>) {
    && InOrder(bars) && from <= |lanes| <= |bars| && (ends == [] <==> from == |lanes|)
    && Lasts(bars, lanes, ends, from, last) && LanesWithin(bars, lanes, ends, from) && Barrier(bars, from)
    && Apart(bars, lanes) && Greedy(bars, lanes) && Connected(bars, from, |lanes|)
    && Clique(bars, clique) && Within(clique, from, |lanes|) && |clique| == |ends|
  }

  lemma StartsAscend(bars: seq<Bar>, k: nat, m: nat)
    requires Sorted(Earlier, bars) && k <= m < |bars|
    ensures bars[k].startMin <= bars[m].startMin
  {
    assert k < m ==> Earlier(bars[k], bars[m]);
  }

  /** Once nothing is running, the cluster is a component that needs as many lanes as it used. */
  lemma ClusterEnds(bars: seq<Bar>, lanes: seq<nat>, ends: seq<int>, from: nat, last: seq<nat>, clique: set<nat>)
    requires SoFar(bars, lanes, ends, from, last, clique) && from < |lanes|
    requires |lanes| < |bars| ==> forall l :: 0 <= l < |ends| ==> ends[l] <= bars[|lanes|].startMin
    ensures Barrier(bars, |lanes|) && Component(bars, from, |lanes|) && Needs(bars, from, |lanes|, |ends|)
  {
    var n := |lanes|;
    forall k, m | 0 <= k < n <= m < |bars|
      ensures bars[k].endMin <= bars[m].startMin
    {
      if k >= from {
        assert bars[k].endMin <= ends[lanes[k]];
        StartsAscend(bars, n, m);
      }
    }
    assert Clique(bars, clique) && Within(clique, from, n) && |clique| == |ends|;
  }

  /** The bar still running in lane l when bar n starts overlaps it. */
  lemma StillRunning(bars: seq<Bar>, k: nat, n: nat)
    requires InOrder(bars) && k < n < |bars| && bars[k].endMin > bars[n].startMin
    ensures OverlapAt(bars, k, n) && OverlapAt(bars, n, k)
  {
    assert Earlier(bars[k], bars[n]);
  }

  lemma LanesGrow(bars: seq<Bar>, lanes: seq<nat>, ends: seq<int>, from: nat, last: seq<nat>, clique: set<nat>,
                  lane: nat)
    requires SoFar(bars, lanes, ends, from, last, clique) && |lanes| < |bars| && lane <= |ends|
    requires lane < |ends| ==> ends[lane] <= bars[|lanes|].startMin
    ensures LanesWithin(bars, lanes + [lane], Put(ends, lane, bars[|lanes|].endMin), from)
    ensures Apart(bars, lanes + [lane])
  {
    var n := |lanes|;
    forall k | from <= k < n
      ensures OverlapAt(bars, k, n) ==> lanes[k] != lane
      ensures lanes[k] == lane ==> bars[k].endMin <= bars[n].endMin
    {
      assert bars[k].endMin <= ends[lanes[k]];
      assert bars[n].startMin <= bars[n].endMin;
    }
  }

  /** ends[lane] = end, where lane may be the next new one. */
  function Put<T>(s: seq<T>, i: nat, x: T): (r: seq<T>)
    requires i <= |s|
    ensures i == |s| ==> r == s + [x]
    ensures |r| == (if i < |s| then |s| else |s| + 1) && r[i] == x
    ensures forall k :: 0 <= k < |s| && k != i ==> r[k] == s[k]
  {
    if i < |s| then s[i := x] else s + [x]
  }

  lemma LastsGrow(bars: seq<Bar>, lanes: seq<nat>, ends: seq<int>, from: nat, last: seq<nat>, lane: nat)
    requires |lanes| < |bars| && Lasts(bars, lanes, ends, from, last) && lane <= |ends| && from <= |lanes|
    ensures Lasts(bars, lanes + [lane], Put(ends, lane, bars[|lanes|].endMin), from, Put(last, lane, |lanes|))
  {
    var ends', last', lanes' := Put(ends, lane, bars[|lanes|].endMin), Put(last, lane, |lanes|), lanes + [lane];
    forall l: nat | l < |last'|
      ensures LastIn(bars, lanes', from, l, last'[l], ends'[l])
    {
      if l != lane {
        assert LastIn(bars, lanes, from, l, last[l], ends[l]);
      }
    }
  }

  lemma GreedyGrows(bars: seq<Bar>, lanes: seq<nat>, ends: seq<int>, from: nat, last: seq<nat>, lane: nat)
    requires InOrder(bars) && |lanes| < |bars| && Lasts(bars, lanes, ends, from, last) && Greedy(bars, lanes)
             && lane <= |ends|
    requires forall l :: 0 <= l < lane ==> ends[l] > bars[|lanes|].startMin
    ensures Greedy(bars, lanes + [lane])
  {
    var n, lanes' := |lanes|, lanes + [lane];
    forall i: nat, l: nat | i <= n && l < lanes'[i]
      ensures Taken(bars, lanes', i, l)
    {
      if i < n {
        assert FirstFree(bars, lanes, i) && Taken(bars, lanes, i, l);
        var j :| 0 <= j < i && lanes[j] == l && OverlapAt(bars, j, i);
        assert lanes'[j] == l;
      } else {
        assert LastIn(bars, lanes, from, l, last[l], ends[l]);
        StillRunning(bars, last[l], n);
        assert lanes'[last[l]] == l;
      }
    }
  }

  lemma ConnectedGrows(bars: seq<Bar>, lanes: seq<nat>, ends: seq<int>, from: nat, last: seq<nat>, clique: set<nat>)
    requires SoFar(bars, lanes, ends, from, last, clique) && |lanes| < |bars|
    requires ends != [] ==> exists l :: 0 <= l < |ends| && ends[l] > bars[|lanes|].startMin
    ensures Connected(bars, from, |lanes| + 1)
  {
    if from < |lanes| {
      var l: nat :| l < |ends| && ends[l] > bars[|lanes|].startMin;
      assert LastIn(bars, lanes, from, l, last[l], ends[l]);
      StillRunning(bars, last[l], |lanes|);
      assert OverlapsEarlier(bars, from, |lanes|);
    }
  }

  ghost function SetOf(s: seq<nat>): set<nat> {
    set l | 0 <= l < |s| :: s[l]
  }

  lemma {:induction false} SizeOfDistinct(s: seq<nat>)
    requires forall k, l :: 0 <= k < l < |s| ==> s[k] != s[l]
    ensures |SetOf(s)| == |s|
  {
    if s != [] {
      var n := |s| - 1;
      SizeOfDistinct(s[..n]);
      assert SetOf(s) == SetOf(s[..n]) + {s[n]};
    }
  }

  /** A new lane is opened only when the last bars of all the others and the new bar overlap each other. */
  lemma CliqueGrows(bars: seq<Bar>, lanes: seq<nat>, ends: seq<int>, from: nat, last: seq<nat>) returns (c: set<nat>)
    requires InOrder(bars) && from <= |lanes| < |bars| && Lasts(bars, lanes, ends, from, last)
    requires forall l :: 0 <= l < |ends| ==> ends[l] > bars[|lanes|].startMin
    ensures Clique(bars, c) && Within(c, from, |lanes| + 1) && |c| == |ends| + 1
  {
    var n := |lanes|;
    c := SetOf(last) + {n};
    forall l: nat | l < |last|
      ensures last[l] < n && from <= last[l] && lanes[last[l]] == l && OverlapAt(bars, last[l], n)
              && OverlapAt(bars, n, last[l])
      ensures bars[last[l]].endMin > bars[n].startMin >= bars[last[l]].startMin
    {
      assert LastIn(bars, lanes, from, l, last[l], ends[l]);
      StillRunning(bars, last[l], n);
      StartsAscend(bars, last[l], n);
    }
    SizeOfDistinct(last);
    assert n !in SetOf(last);
  }

  /** Placing the next bar in the first free lane keeps the layout correct. */
  lemma PlaceKeeps(bars: seq<Bar>, lanes: seq<nat>, ends: seq<int>, from: nat, last: seq<nat>, clique: set<nat>,
                   lane: nat)
    returns (last': seq<nat>, clique': set<nat>)
    requires SoFar(bars, lanes, ends, from, last, clique) && |lanes| < |bars| && lane <= |ends|
    requires ends != [] ==> exists l :: 0 <= l < |ends| && ends[l] > bars[|lanes|].startMin
    requires lane < |ends| ==> ends[lane] <= bars[|lanes|].startMin
    requires forall l :: 0 <= l < lane ==> ends[l] > bars[|lanes|].startMin
    ensures SoFar(bars, lanes + [lane], Put(ends, lane, bars[|lanes|].endMin), from, last', clique')
  {
    LanesGrow(bars, lanes, ends, from, last, clique, lane);
    LastsGrow(bars, lanes, ends, from, last, lane);
    GreedyGrows(bars, lanes, ends, from, last, lane);
    ConnectedGrows(bars, lanes, ends, from, last, clique);
    last' := Put(last, lane, |lanes|);
    clique' := clique;
    if lane == |ends| {
      clique' := CliqueGrows(bars, lanes, ends, from, last);
    }
  }

  ghost predicate Clustered(bars: seq<Bar>, counts: seq<nat>) {
    forall i: nat {:trigger InCluster(bars, counts, i)} :: i < |counts| ==> InCluster(bars, counts, i)
  }

  lemma CloseKeeps(bars: seq<Bar>, counts: seq<nat>, from: nat, n: nat, closed: seq<nat>, count: nat)
    requires from <= n <= |bars| && n == |closed| && from <= |counts| && closed[..from] == counts[..from]
    requires from < n ==> Component(bars, from, n) && Needs(bars, from, n, count)
    requires forall k :: from <= k < n ==> closed[k] == count
    requires Clustered(bars, counts[..from])
    ensures Clustered(bars, closed)
  {
    forall i: nat | i < n
      ensures InCluster(bars, closed, i)
    {
      if i < from {
        assert InCluster(bars, counts[..from], i);
        var a, b :| ClusterOf(bars, counts[..from], i, a, b);
        forall j | a <= j < b
          ensures closed[j] == counts[..from][j]
        {
          assert closed[j] == closed[..from][j];
        }
        assert ClusterOf(bars, closed, i, a, b);
      } else {
        assert ClusterOf(bars, closed, i, from, n);
      }
    }
  }

  /** A count is above every lane of its cluster. */
  ghost predicate Counted(placed: seq<Placed>, from: nat) {
    forall k :: 0 <= k < from && k < |placed| ==> placed[k].lane < placed[k].laneCount
  }

  /** The state of the loop: a correct layout so far, with the counts of the finished clusters filled in. */
  ghost predicate Running(sorted: seq<Bar>, placed: seq<Placed>, ends: seq<int>, from: nat, last: seq<nat>,
                          clique: set<nat>)
  {
    && |placed| <= |sorted| && BarsOf(placed) == sorted[..|placed|]
    && SoFar(sorted, LanesOf(placed), ends, from, last, clique)
    && Counted(placed, from) && Clustered(sorted, CountsOf(placed)[..from])
  }

  lemma AppendKeeps(sorted: seq<Bar>, placed: seq<Placed>, ends: seq<int>, from: nat, last: seq<nat>, clique: set<nat>,
                    lane: nat)
    returns (last': seq<nat>, clique': set<nat>)
    requires Running(sorted, placed, ends, from, last, clique) && |placed| < |sorted| && lane <= |ends|
    requires ends != [] ==> exists l :: 0 <= l < |ends| && ends[l] > sorted[|placed|].startMin
    requires lane < |ends| ==> ends[lane] <= sorted[|placed|].startMin
    requires forall l :: 0 <= l < lane ==> ends[l] > sorted[|placed|].startMin
    ensures Running(sorted, placed + [Placed(sorted[|placed|], lane, 0)], Put(ends, lane, sorted[|placed|].endMin),
            from, last', clique')
  {
    var placed' := placed + [Placed(sorted[|placed|], lane, 0)];
    last', clique' := PlaceKeeps(sorted, LanesOf(placed), ends, from, last, clique, lane);
    assert LanesOf(placed') == LanesOf(placed) + [lane];
    assert CountsOf(placed')[..from] == CountsOf(placed)[..from];
  }

  lemma SortedInput(items: seq<Bar>)
    requires Forward(items)
    ensures var s := SortBy(Earlier, items); InOrder(s) && multiset(s) == multiset(items) && |s| == |items|
  {
    SortByCorrect(Earlier, items);
    var s := SortBy(Earlier, items);
    forall k | 0 <= k < |s|
      ensures s[k].startMin <= s[k].endMin
    {
      assert s[k] in multiset(items);
    }
  }

  /** closeCluster, with what the finished cluster is then known to be. */
  method EndCluster(sorted: seq<Bar>, placed: seq<Placed>, ends: seq<int>, clusterFrom: nat, ghost last: seq<nat>,
                    ghost clique: set<nat>)
    returns (r: seq<Placed>)
    requires Running(sorted, placed, ends, clusterFrom, last, clique)
    requires |placed| < |sorted| ==> forall l :: 0 <= l < |ends| ==> ends[l] <= sorted[|placed|].startMin
    ensures |r| == |placed| && Running(sorted, r, [], |r|, [], {})
  {
    r := CloseCluster(placed, clusterFrom, |ends|);
    if clusterFrom < |placed| {
      ClusterEnds(sorted, LanesOf(placed), ends, clusterFrom, last, clique);
    }
    forall k | 0 <= k < |r|
      ensures r[k].bar == placed[k].bar && r[k].lane == placed[k].lane
      ensures k < clusterFrom ==> r[k] == placed[k]
    {
      if k < clusterFrom {
        assert r[k] == r[..clusterFrom][k];
      }
    }
    assert LanesOf(r) == LanesOf(placed);
    assert CountsOf(r)[..clusterFrom] == CountsOf(placed)[..clusterFrom];
    CloseKeeps(sorted, CountsOf(placed), clusterFrom, |r|, CountsOf(r), |ends|);
    assert CountsOf(r)[..|r|] == CountsOf(r);
  }

  /** One bar of the loop. */
  method PlaceNext(sorted: seq<Bar>, before: seq<Placed>, ends0: seq<int>, from0: nat, ghost last0: seq<nat>,
                   ghost clique0: set<nat>)
    returns (placed: seq<Placed>, ends: seq<int>, clusterFrom: nat, ghost last: seq<nat>, ghost clique: set<nat>)
    requires Running(sorted, before, ends0, from0, last0, clique0) && |before| < |sorted|
    ensures Running(sorted, placed, ends, clusterFrom, last, clique) && |placed| == |before| + 1
  {
    placed, ends, clusterFrom, last, clique := before, ends0, from0, last0, clique0;
    var item := sorted[|before|];
    var done := AllDone(ends, item.startMin);
    if |ends| > 0 && done {
      placed := EndCluster(sorted, placed, ends, clusterFrom, last, clique);
      ends, clusterFrom, last, clique := [], |placed|, [], {};
    }
    var lane := FindLane(ends, item.startMin);
    last, clique := AppendKeeps(sorted, placed, ends, clusterFrom, last, clique, lane);
    ends := Put(ends, lane, item.endMin);
    placed := placed + [Placed(item, lane, 0)];
  }

  /**
   * assignLanes: the bars in order of time, each in the first lane free when it starts, with the
   * lane count of its cluster.
   */
  method AssignLanes(items: seq<Bar>) returns (placed: seq<Placed>)
    requires Forward(items)
    ensures BarsOf(placed) == SortBy(Earlier, items) && multiset(BarsOf(placed)) == multiset(items)
    ensures ByTime(BarsOf(placed))
    ensures Apart(BarsOf(placed), LanesOf(placed)) && Greedy(BarsOf(placed), LanesOf(placed))
    ensures forall i :: 0 <= i < |placed| ==> placed[i].lane < placed[i].laneCount
    ensures Clustered(BarsOf(placed), CountsOf(placed))
  {
    var a := new Bar[|items|](i requires 0 <= i < |items| => items[i]);
    assert a[..] == items;
    SortInPlace(Earlier, a);
    var sorted := a[..];
    SortedInput(items);
    placed := [];
    var ends: seq<int> := [];
    var clusterFrom: nat := 0;
    ghost var last, clique := [], {};
    while |placed| < |sorted|
      invariant Running(sorted, placed, ends, clusterFrom, last, clique)
      decreases |sorted| - |placed|
    {
      placed, ends, clusterFrom, last, clique := PlaceNext(sorted, placed, ends, clusterFrom, last, clique);
    }
    placed := EndCluster(sorted, placed, ends, clusterFrom, last, clique);
    assert BarsOf(placed) == sorted;
    InTimeOrder(sorted);
    assert CountsOf(placed)[..|placed|] == CountsOf(placed);
  }

  /** By start, then by end. */
  ghost predicate ByTime(bars: seq<Bar>) {
    forall i, j :: 0 <= i < j < |bars| ==>
      && bars[i].startMin <= bars[j].startMin
      && (bars[i].startMin == bars[j].startMin ==> bars[i].endMin <= bars[j].endMin)
  }

  lemma InTimeOrder(bars: seq<Bar>)
    requires Sorted(Earlier, bars)
    ensures ByTime(bars)
  {
    forall i, j | 0 <= i < j < |bars|
      ensures bars[i].startMin <= bars[j].startMin
      ensures bars[i].startMin == bars[j].startMin ==> bars[i].endMin <= bars[j].endMin
    {
      assert Earlier(bars[i], bars[j]);
    }
  }

  /** The bars of one start and one end, as listed. */
  function Twins(bars: seq<Bar>, startMin: int, endMin: int): seq<Bar> {
    if bars == [] then []
    else
      var b := bars[|bars| - 1];
      Twins(bars[..|bars| - 1], startMin, endMin) + if b.startMin == startMin && b.endMin == endMin then [b] else []
  }

  lemma {:induction false} TwinsAreTies(bars: seq<Bar>, x: Bar)
    ensures Twins(bars, x.startMin, x.endMin) == Ties(Earlier, bars, x)
  {
    if bars != [] {
      TwinsAreTies(bars[..|bars| - 1], x);
    }
  }

  /** Bars of the same start and end are placed in the order they were listed. */
  lemma TwinsKeepTheirOrder(items: seq<Bar>, startMin: int, endMin: int)
    ensures Twins(SortBy(Earlier, items), startMin, endMin) == Twins(items, startMin, endMin)
  {
    var x := Bar(0, 0, startMin, endMin);
    SortIsStable(Earlier, items, x);
    TwinsAreTies(SortBy(Earlier, items), x);
    TwinsAreTies(items, x);
  }

  /** Overlapping bars divide the column by the same number. */
  lemma OverlappingShareACount(bars: seq<Bar>, counts: seq<nat>, i: nat, j: nat)
    requires |counts| == |bars| && InCluster(bars, counts, i) && OverlapAt(bars, i, j)
    ensures counts[i] == counts[j]
  {
    var a, b :| ClusterOf(bars, counts, i, a, b);
  }
}
