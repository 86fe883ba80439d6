/**
 * Nothing in the collection is made up (backend/internal/entry/handler.go, store.go): over every run, whatever a
 * document says was sent in some call by its own user.
 */
module Provenance {
  import opened Options
  import opened Geo
  import opened Entries
  import opened Requests
  import opened Lifecycle
  import opened AnswersAreTrue
  import opened AnswersInFull
  import M = WholeMilliseconds

  /** The point of a fix as it was sent, its time cut to the millisecond. */
  predicate IsPointOf(p: ClockPoint, at: Time, f: Fix) {
    p.at == at && p.loc == f.loc && p.accuracy == f.accuracy && p.mocked == f.mocked
  }

  /* ---- one request as the source of one thing ---- */

  predicate Starts(r: Request, d: Entry) {
    && r.user == d.user && r.body.ClockIn? && r.body.clientId == d.clientId
    && IsPointOf(d.clockIn, r.body.fix.at, r.body.fix)
  }

  predicate Ends(r: Request, d: Entry) {
    && r.user == d.user && r.body.ClockOut? && d.closeClientId == Some(r.body.clientId) && d.clockOut.Some?
    && IsPointOf(d.clockOut.value, r.body.fix.at, r.body.fix)
  }

  predicate Books(r: Request, d: Entry) {
    && r.user == d.user
    && ((r.body.ClockIn? && r.body.clientId == d.clientId && r.body.employer == d.employer)
        || (r.body.AssignTo? && r.body.entry == d.id && d.employer == Some(r.body.to)))
  }

  predicate Pinged(r: Request, d: Entry) {
    r.user == d.user && r.body.Pings? && d.lastPing.Some? && d.lastPing.value in r.body.ats
  }

  predicate Raises(r: Request, d: Entry, flag: Flag) {
    && r.user == d.user
    && match flag
       case SpeedAnomaly => r.body.Pings? && r.body.anomaly
       case Backdated => (r.body.ClockIn? || r.body.ClockOut?) && r.body.fix.queued
  }

  /* ---- of the world ---- */

  ghost predicate Started(reqs: map<RequestId, Request>, d: Entry) {
    exists rid :: rid in reqs && Starts(reqs[rid], d)
  }

  ghost predicate Ended(reqs: map<RequestId, Request>, d: Entry) {
    exists rid :: rid in reqs && Ends(reqs[rid], d)
  }

  ghost predicate BookedBy(reqs: map<RequestId, Request>, d: Entry) {
    exists rid :: rid in reqs && Books(reqs[rid], d)
  }

  ghost predicate PingedBy(reqs: map<RequestId, Request>, d: Entry) {
    exists rid :: rid in reqs && Pinged(reqs[rid], d)
  }

  ghost predicate RaisedBy(reqs: map<RequestId, Request>, d: Entry, flag: Flag) {
    exists rid :: rid in reqs && Raises(reqs[rid], d, flag)
  }

  /** Everything the document says has its request. */
  ghost predicate Sourced(reqs: map<RequestId, Request>, d: Entry) {
    && Started(reqs, d)
    && (d.status == Closed ==> Ended(reqs, d))
    && (d.employer.Some? ==> BookedBy(reqs, d))
    && (d.lastPing.Some? ==> PingedBy(reqs, d))
    && forall flag {:trigger RaisedBy(reqs, d, flag)} :: flag in d.flags ==> RaisedBy(reqs, d, flag)
  }

  /** Requests stay what they were; only where they stand changes. */
  ghost predicate Keeps(reqs: map<RequestId, Request>, later: map<RequestId, Request>) {
    forall rid :: rid in reqs ==> rid in later && later[rid] == reqs[rid].(pc := later[rid].pc)
  }

  lemma SourcedStays(reqs: map<RequestId, Request>, later: map<RequestId, Request>, d: Entry)
    requires Keeps(reqs, later) && Sourced(reqs, d)
    ensures Sourced(later, d)
  {
    var a :| a in reqs && Starts(reqs[a], d);
    assert Starts(later[a], d);
    if d.status == Closed {
      var b :| b in reqs && Ends(reqs[b], d);
      assert Ends(later[b], d);
    }
    if d.employer.Some? {
      var c :| c in reqs && Books(reqs[c], d);
      assert Books(later[c], d);
    }
    if d.lastPing.Some? {
      var p :| p in reqs && Pinged(reqs[p], d);
      assert Pinged(later[p], d);
    }
    forall flag | flag in d.flags
      ensures RaisedBy(later, d, flag)
    {
      assert RaisedBy(reqs, d, flag);
      var q :| q in reqs && Raises(reqs[q], d, flag);
      assert Raises(later[q], d, flag);
    }
  }

  /* ---- the commands ---- */

  /** The flags a write is about to add were computed from the request's own fix. */
  predicate FlagsOwn(r: Request) {
    PcFits(r.body, r.pc) &&
    match r.pc
    case InInsert(_, flags) => flags <= (if r.body.fix.queued then {Backdated} else {})
    case OutUpdate(_, _, flags) => flags <= (if r.body.fix.queued then {Backdated} else {})
    case PgFlag(_) => r.body.anomaly
    case _ => true
  }

  /** A shift just inserted. */
  lemma InsertedIsSourced(reqs: map<RequestId, Request>, rid: RequestId, id: EntryId)
    requires rid in reqs && reqs[rid].body.ClockIn? && reqs[rid].pc.InInsert? && FlagsOwn(reqs[rid])
    ensures Sourced(reqs, NewEntry(id, reqs[rid].user, reqs[rid].body, reqs[rid].pc.flags))
  {
    var r := reqs[rid];
    var d := NewEntry(id, r.user, r.body, r.pc.flags);
    assert Starts(r, d) && Books(r, d);
    forall flag | flag in d.flags
      ensures RaisedBy(reqs, d, flag)
    {
      assert Raises(r, d, flag);
    }
  }

  /** The facts that none of the updates touches. */
  lemma Unmoved(reqs: map<RequestId, Request>, d: Entry, e: Entry)
    requires Sourced(reqs, d) && e.id == d.id && e.user == d.user && e.clientId == d.clientId && e.clockIn == d.clockIn
    ensures Started(reqs, e)
    ensures e.closeClientId == d.closeClientId && e.clockOut == d.clockOut && d.status == Closed ==> Ended(reqs, e)
    ensures e.employer == d.employer && d.employer.Some? ==> BookedBy(reqs, e)
    ensures e.lastPing == d.lastPing && d.lastPing.Some? ==> PingedBy(reqs, e)
    ensures forall flag :: flag in d.flags ==> RaisedBy(reqs, e, flag)
  {
    var a :| a in reqs && Starts(reqs[a], d);
    assert Starts(reqs[a], e);
    if e.closeClientId == d.closeClientId && e.clockOut == d.clockOut && d.status == Closed {
      var b :| b in reqs && Ends(reqs[b], d);
      assert Ends(reqs[b], e);
    }
    if e.employer == d.employer && d.employer.Some? {
      var c :| c in reqs && Books(reqs[c], d);
      assert Books(reqs[c], e);
    }
    if e.lastPing == d.lastPing && d.lastPing.Some? {
      var p :| p in reqs && Pinged(reqs[p], d);
      assert Pinged(reqs[p], e);
    }
    forall flag | flag in d.flags
      ensures RaisedBy(reqs, e, flag)
    {
      assert RaisedBy(reqs, d, flag);
      var q :| q in reqs && Raises(reqs[q], d, flag);
      assert Raises(reqs[q], e, flag);
    }
  }

  lemma ClosedIsSourced(reqs: map<RequestId, Request>, rid: RequestId, d: Entry, e: Entry)
    requires rid in reqs && Sourced(reqs, d)
    requires reqs[rid].body.ClockOut? && reqs[rid].pc.OutUpdate? && FlagsOwn(reqs[rid])
    requires var r := reqs[rid];
             r.user == d.user && e == Updated(d, Close(d.id, PointOf(r.body.fix), r.body.clientId, r.pc.flags))
    ensures Sourced(reqs, e)
  {
    Unmoved(reqs, d, e);
    assert Ends(reqs[rid], e);
    forall flag | flag in e.flags
      ensures RaisedBy(reqs, e, flag)
    {
      assert flag in d.flags || Raises(reqs[rid], e, flag);
    }
  }

  lemma BookedIsSourced(reqs: map<RequestId, Request>, rid: RequestId, d: Entry, e: Entry, verified: bool)
    requires rid in reqs && Sourced(reqs, d) && reqs[rid].body.AssignTo?
    requires reqs[rid].user == d.user && reqs[rid].body.entry == d.id
    requires e == Updated(d, Assign(d.id, d.user, reqs[rid].body.to, verified))
    ensures Sourced(reqs, e)
  {
    Unmoved(reqs, d, e);
    assert Books(reqs[rid], e);
  }

  lemma PingedIsSourced(reqs: map<RequestId, Request>, rid: RequestId, d: Entry, e: Entry)
    requires rid in reqs && Sourced(reqs, d)
    requires reqs[rid].body.Pings? && reqs[rid].body.ats != [] && reqs[rid].user == d.user
    requires e == Updated(d, TouchPing(d.id, d.user, Newest(reqs[rid].body.ats)))
    ensures Sourced(reqs, e)
  {
    M.NewestIsOne(reqs[rid].body.ats);
    Unmoved(reqs, d, e);
    assert e.lastPing == d.lastPing || Pinged(reqs[rid], e);
  }

  lemma FlaggedIsSourced(reqs: map<RequestId, Request>, rid: RequestId, d: Entry, e: Entry)
    requires rid in reqs && Sourced(reqs, d)
    requires reqs[rid].body.Pings? && reqs[rid].body.anomaly && reqs[rid].user == d.user
    requires e == Updated(d, AddFlag(d.id, d.user, SpeedAnomaly))
    ensures Sourced(reqs, e)
  {
    Unmoved(reqs, d, e);
    assert Raises(reqs[rid], e, SpeedAnomaly);
  }

  /** Whatever command a request issues, the document it leaves is sourced. */
  lemma UpdateIsSourced(hist: seq<Instant>, reqs: map<RequestId, Request>, rid: RequestId, newId: EntryId, d: Entry)
    requires rid in reqs && GoodHist(hist) && LocalsOk(hist, reqs[rid]) && FlagsOwn(reqs[rid]) && Sourced(reqs, d)
    requires CommandOf(reqs[rid], newId).Some? && !CommandOf(reqs[rid], newId).value.Insert?
    requires var cmd := CommandOf(reqs[rid], newId).value;
             d.id == cmd.id && cmd.id in hist[|hist| - 1].db && hist[|hist| - 1].db[cmd.id] == d && Guard(d, cmd)
    ensures Sourced(reqs, Updated(d, CommandOf(reqs[rid], newId).value))
  {
    var r, cmd := reqs[rid], CommandOf(reqs[rid], newId).value;
    var e := Updated(d, cmd);
    SnapshotEvolved(hist, r, r.pc.e);
    match r.pc
    case OutUpdate(_, _, _) => ClosedIsSourced(reqs, rid, d, e);
    case AsWrite(_, verified, _) => BookedIsSourced(reqs, rid, d, e, verified);
    case PgTouch(_) => PingedIsSourced(reqs, rid, d, e);
    case PgFlag(_) => FlaggedIsSourced(reqs, rid, d, e);
  }

  /* ---- runs ---- */

  ghost predicate AllSourced(w: World) {
    && |w.hist| > 0
    && (forall id {:trigger Now(w).db[id]} :: id in Now(w).db ==> Sourced(w.reqs, Now(w).db[id]))
    && forall rid {:trigger FlagsOwn(w.reqs[rid])} :: rid in w.reqs ==> FlagsOwn(w.reqs[rid])
  }

  lemma StepFlagsOwn(cfg: Config, i: Instant, here: nat, r: Request, found: Option<Entry>, newId: EntryId)
    requires FlagsOwn(r) && PcFits(r.body, NextPc(cfg, i, here, r, found, newId))
    ensures FlagsOwn(r.(pc := NextPc(cfg, i, here, r, found, newId)))
  {
  }

  lemma EventKeeps(cfg: Config, w: World, ev: Event, w': World)
    requires Enabled(w, ev) && w' == Apply(cfg, w, ev)
    ensures Keeps(w.reqs, w'.reqs)
  {
  }

  /** The documents a step leaves. */
  lemma StepSources(w: World, rid: RequestId, newId: EntryId, id: EntryId)
    requires Inv(w) && AllSourced(w) && rid in w.reqs && newId !in Now(w).db
    requires id in StepDb(Now(w), w.reqs[rid], newId)
    ensures Sourced(w.reqs, StepDb(Now(w), w.reqs[rid], newId)[id])
  {
    var r := w.reqs[rid];
    var cmd := CommandOf(r, newId);
    assert LocalsOk(w.hist, r) && FlagsOwn(r);
    if cmd.Some? && Takes(Now(w).db, cmd.value) && id == (if cmd.value.Insert? then newId else cmd.value.id) {
      if cmd.value.Insert? {
        InsertedIsSourced(w.reqs, rid, newId);
      } else {
        GoodAt(w.hist, |w.hist| - 1);
        assert Sourced(w.reqs, Now(w).db[id]);
        UpdateIsSourced(w.hist, w.reqs, rid, newId, Now(w).db[id]);
      }
    } else {
      assert id in Now(w).db && StepDb(Now(w), r, newId)[id] == Now(w).db[id];
    }
  }

  lemma FlagsOwnAfter(cfg: Config, w: World, ev: Event, w': World, rid: RequestId)
    requires Enabled(w, ev) && w' == Apply(cfg, w, ev) && rid in w.reqs && FlagsOwn(w.reqs[rid])
    requires rid in w'.reqs && PcFits(w'.reqs[rid].body, w'.reqs[rid].pc)
    ensures FlagsOwn(w'.reqs[rid])
  {
    if ev.Step? && rid == ev.rid {
      StepFlagsOwn(cfg, Now(w), |w.hist| - 1, w.reqs[rid], ev.found, ev.newId);
    }
  }

  lemma EventKeepsFlagsOwn(cfg: Config, w: World, ev: Event, w': World)
    requires AllSourced(w) && Enabled(w, ev) && w' == Apply(cfg, w, ev) && ValidWorld(w')
    ensures forall rid {:trigger FlagsOwn(w'.reqs[rid])} :: rid in w'.reqs ==> FlagsOwn(w'.reqs[rid])
  {
    EventKeeps(cfg, w, ev, w');
    forall rid | rid in w'.reqs
      ensures FlagsOwn(w'.reqs[rid])
    {
      if rid in w.reqs {
        FlagsOwnAfter(cfg, w, ev, w', rid);
      } else {
        assert w'.reqs[rid].pc == FirstPc(w'.reqs[rid].body);
      }
    }
  }

  lemma EventKeepsSourced(cfg: Config, w: World, ev: Event, w': World)
    requires Inv(w) && AllSourced(w) && Enabled(w, ev) && w' == Apply(cfg, w, ev)
    ensures Inv(w') && AllSourced(w')
  {
    EventKeepsInv(cfg, w, ev);
    EventKeepsFlagsOwn(cfg, w, ev, w');
    EventKeeps(cfg, w, ev, w');
    forall id | id in Now(w').db
      ensures Sourced(w'.reqs, Now(w').db[id])
    {
      if ev.Step? {
        StepSources(w, ev.rid, ev.newId, id);
      }
      SourcedStays(w.reqs, w'.reqs, Now(w').db[id]);
    }
  }

  lemma {:induction false} RunKeepsSourced(cfg: Config, w: World, evs: seq<Event>, w': World)
    requires Inv(w) && AllSourced(w) && Runs(cfg, w, evs, w')
    ensures Inv(w') && AllSourced(w')
    decreases |evs|
  {
    if evs != [] {
      EventKeepsSourced(cfg, w, evs[0], Apply(cfg, w, evs[0]));
      RunKeepsSourced(cfg, Apply(cfg, w, evs[0]), evs[1..], w');
    }
  }

  /** A request of the world was submitted, by its user and with its body but for the cut to milliseconds. */
  lemma {:induction false} WasSubmitted(cfg: Config, w: World, evs: seq<Event>, w': World, rid: RequestId)
    requires Runs(cfg, w, evs, w') && rid in w'.reqs && rid !in w.reqs
    ensures exists k, b ::
              0 <= k < |evs| && evs[k] == Submit(rid, w'.reqs[rid].user, b) && w'.reqs[rid].body == Arrived(b)
    decreases |evs|
  {
    var next := Apply(cfg, w, evs[0]);
    if rid in next.reqs {
      RequestStays(cfg, next, evs[1..], w', rid);
      assert evs[0] == Submit(rid, w'.reqs[rid].user, evs[0].body);
    } else {
      WasSubmitted(cfg, next, evs[1..], w', rid);
      var k, b :| 0 <= k < |evs[1..]| && evs[1..][k] == Submit(rid, w'.reqs[rid].user, b)
        && w'.reqs[rid].body == Arrived(b);
      assert evs[k + 1] == Submit(rid, w'.reqs[rid].user, b);
    }
  }

  /* ---- the theorem ---- */

  /** This user made this call at some event of the run. */
  ghost predicate Called(evs: seq<Event>, u: UserId, b: Body) {
    exists k :: 0 <= k < |evs| && evs[k].Submit? && evs[k].user == u && evs[k].body == b
  }

  /**
   * Over every run from an empty collection, each document was opened by a clock-in its user sent under its key
   * with the point it shows, cut to the millisecond; if closed, by a clock-out its user sent under its close key
   * with the point it shows; if it has an employer, the user named that employer in that clock-in or in an
   * assignment of this entry; its last ping is an instant the user sent; it has the speed flag only where the
   * user sent a batch that shows the anomaly, and the backdated one only where the user sent a queued fix.
   */
  lemma NothingIsMadeUp(cfg: Config, w0: World, evs: seq<Event>, w: World, id: EntryId)
    requires Initial(w0) && Runs(cfg, w0, evs, w) && |w.hist| > 0 && id in Now(w).db
    ensures var d := Now(w).db[id];
            && (exists emp, f ::
                  Called(evs, d.user, ClockIn(d.clientId, emp, f)) && IsPointOf(d.clockIn, f.at - f.at % 1_000_000, f))
            && (d.status == Closed ==>
                  && d.closeClientId.Some? && d.clockOut.Some?
                  && exists f :: Called(evs, d.user, ClockOut(d.closeClientId.value, f))
                                 && IsPointOf(d.clockOut.value, f.at - f.at % 1_000_000, f))
    ensures var d := Now(w).db[id];
            d.employer.Some? ==>
              || (exists f :: Called(evs, d.user, ClockIn(d.clientId, d.employer, f)))
              || Called(evs, d.user, AssignTo(id, d.employer.value))
    ensures var d := Now(w).db[id];
            && (d.lastPing.Some? ==>
                  exists ats, a, k :: Called(evs, d.user, Pings(ats, a)) && 0 <= k < |ats|
                                      && d.lastPing.value == ats[k] - ats[k] % 1_000_000)
            && (SpeedAnomaly in d.flags ==> exists ats :: Called(evs, d.user, Pings(ats, true)))
            && (Backdated in d.flags ==> exists b :: Called(evs, d.user, b) && QueuedTap(b))
  {
    assert Inv(w0) && AllSourced(w0);
    RunKeepsSourced(cfg, w0, evs, w);
    GoodAt(w.hist, |w.hist| - 1);
    PointsCalled(cfg, w0, evs, w, Now(w).db[id]);
    MarksCalled(cfg, w0, evs, w, Now(w).db[id]);
  }

  predicate QueuedTap(b: Body) {
    (b.ClockIn? || b.ClockOut?) && b.fix.queued
  }

  lemma CallOf(cfg: Config, w0: World, evs: seq<Event>, w: World, rid: RequestId) returns (b: Body)
    requires Initial(w0) && Runs(cfg, w0, evs, w) && rid in w.reqs
    ensures Called(evs, w.reqs[rid].user, b) && w.reqs[rid].body == Arrived(b)
  {
    WasSubmitted(cfg, w0, evs, w, rid);
    var k, c :| 0 <= k < |evs| && evs[k] == Submit(rid, w.reqs[rid].user, c) && w.reqs[rid].body == Arrived(c);
    b := c;
  }

  lemma PointsCalled(cfg: Config, w0: World, evs: seq<Event>, w: World, d: Entry)
    requires Initial(w0) && Runs(cfg, w0, evs, w) && Sourced(w.reqs, d) && WellFormed(d)
    ensures exists emp, f ::
              Called(evs, d.user, ClockIn(d.clientId, emp, f)) && IsPointOf(d.clockIn, f.at - f.at % 1_000_000, f)
    ensures d.status == Closed ==>
              && d.closeClientId.Some? && d.clockOut.Some?
              && exists f :: Called(evs, d.user, ClockOut(d.closeClientId.value, f))
                             && IsPointOf(d.clockOut.value, f.at - f.at % 1_000_000, f)
    ensures d.employer.Some? ==>
              || (exists f :: Called(evs, d.user, ClockIn(d.clientId, d.employer, f)))
              || Called(evs, d.user, AssignTo(d.id, d.employer.value))
  {
    var a :| a in w.reqs && Starts(w.reqs[a], d);
    var b := CallOf(cfg, w0, evs, w, a);
    assert Called(evs, d.user, ClockIn(d.clientId, b.employer, b.fix));
    if d.status == Closed {
      var c :| c in w.reqs && Ends(w.reqs[c], d);
      var out := CallOf(cfg, w0, evs, w, c);
      assert Called(evs, d.user, ClockOut(d.closeClientId.value, out.fix));
    }
    if d.employer.Some? {
      var e :| e in w.reqs && Books(w.reqs[e], d);
      var book := CallOf(cfg, w0, evs, w, e);
      assert book.ClockIn? ==> Called(evs, d.user, ClockIn(d.clientId, d.employer, book.fix));
    }
  }

  lemma MarksCalled(cfg: Config, w0: World, evs: seq<Event>, w: World, d: Entry)
    requires Initial(w0) && Runs(cfg, w0, evs, w) && Sourced(w.reqs, d)
    ensures d.lastPing.Some? ==>
              exists ats, a, k :: Called(evs, d.user, Pings(ats, a)) && 0 <= k < |ats|
                                  && d.lastPing.value == ats[k] - ats[k] % 1_000_000
    ensures SpeedAnomaly in d.flags ==> exists ats :: Called(evs, d.user, Pings(ats, true))
    ensures Backdated in d.flags ==> exists b :: Called(evs, d.user, b) && QueuedTap(b)
  {
    if d.lastPing.Some? {
      var p :| p in w.reqs && Pinged(w.reqs[p], d);
      var b := CallOf(cfg, w0, evs, w, p);
      var k :| 0 <= k < |w.reqs[p].body.ats| && w.reqs[p].body.ats[k] == d.lastPing.value;
      assert b == Pings(b.ats, b.anomaly) && d.lastPing.value == Ms(b.ats[k]);
    }
    if SpeedAnomaly in d.flags {
      assert RaisedBy(w.reqs, d, SpeedAnomaly);
      var q :| q in w.reqs && Raises(w.reqs[q], d, SpeedAnomaly);
      var b := CallOf(cfg, w0, evs, w, q);
      assert b == Pings(b.ats, true);
    }
    if Backdated in d.flags {
      assert RaisedBy(w.reqs, d, Backdated);
      var q :| q in w.reqs && Raises(w.reqs[q], d, Backdated);
      var b := CallOf(cfg, w0, evs, w, q);
      assert QueuedTap(b);
    }
  }
}
