/**
 * An accepted ping batch leaves its mark for good (backend/internal/entry/handler.go Pings): the shift it
 * found open carries a last ping at least as late as the batch, and the anomaly flag if one was seen.
 */
module PingsLeaveMarks {
  import opened Options
  import opened Geo
  import opened Entries
  import opened Requests
  import opened Lifecycle
  import opened AnswersAreTrue
  import M = WholeMilliseconds

  ghost predicate TouchedAt(i: Instant, id: EntryId, u: UserId, newest: Time) {
    id in i.db && i.db[id].user == u && NotBefore(i.db[id].lastPing, Some(newest))
  }

  ghost predicate MarkedAt(i: Instant, id: EntryId, u: UserId, newest: Time, anomaly: bool) {
    TouchedAt(i, id, u, newest) && (anomaly ==> SpeedAnomaly in i.db[id].flags)
  }

  /** The document was open when the batch looked. */
  ghost predicate RunningAt(i: Instant, id: EntryId, u: UserId) {
    id in i.db && i.db[id].user == u && i.db[id].status == Open
  }

  ghost predicate WasRunning(hist: seq<Instant>, r: Request, id: EntryId) {
    exists k :: r.born <= k < |hist| && RunningAt(hist[k], id, r.user)
  }

  ghost predicate Nothing(hist: seq<Instant>, r: Request) {
    exists k :: r.born <= k < |hist| && NothingOpen(hist[k], r.user)
  }

  ghost predicate MarkedNow(hist: seq<Instant>, r: Request, id: EntryId)
    requires r.body.Pings? && r.body.ats != [] && |hist| > 0
  {
    WasRunning(hist, r, id) && MarkedAt(hist[|hist| - 1], id, r.user, Newest(r.body.ats), r.body.anomaly)
  }

  /** Dropped because there was nothing to attach to, or marked, and the mark is still there. */
  ghost predicate Settled(hist: seq<Instant>, r: Request)
    requires r.body.Pings? && |hist| > 0
  {
    r.body.ats == [] || Nothing(hist, r) || exists id :: MarkedNow(hist, r, id)
  }

  ghost predicate PingsOk(hist: seq<Instant>, r: Request) {
    |hist| > 0 && PcFits(r.body, r.pc) &&
    (r.body.Pings? ==>
       match r.pc
       case PgTouch(e) => WasRunning(hist, r, e.id)
       case PgFlag(e) => r.body.ats != [] && WasRunning(hist, r, e.id)
         && TouchedAt(hist[|hist| - 1], e.id, r.user, Newest(r.body.ats))
       case Done(Accepted) => Settled(hist, r)
       case _ => true)
  }

  /* ---- later instants keep it ---- */

  lemma MarkStays(a: Instant, b: Instant, id: EntryId, u: UserId, newest: Time, anomaly: bool)
    requires InstantStep(a, b)
    ensures TouchedAt(a, id, u, newest) ==> TouchedAt(b, id, u, newest)
    ensures MarkedAt(a, id, u, newest, anomaly) ==> MarkedAt(b, id, u, newest, anomaly)
  {
  }

  lemma RunningStays(hist: seq<Instant>, x: Instant, r: Request, id: EntryId)
    requires WasRunning(hist, r, id)
    ensures WasRunning(hist + [x], r, id)
  {
    var k :| r.born <= k < |hist| && RunningAt(hist[k], id, r.user);
    assert (hist + [x])[k] == hist[k];
  }

  lemma SettledStays(hist: seq<Instant>, x: Instant, r: Request)
    requires |hist| > 0 && InstantStep(hist[|hist| - 1], x) && r.body.Pings? && Settled(hist, r)
    ensures Settled(hist + [x], r)
  {
    var more := hist + [x];
    assert forall k :: 0 <= k < |hist| ==> more[k] == hist[k];
    if r.body.ats != [] && !Nothing(hist, r) {
      var id :| MarkedNow(hist, r, id);
      RunningStays(hist, x, r, id);
      MarkStays(hist[|hist| - 1], x, id, r.user, Newest(r.body.ats), r.body.anomaly);
      assert MarkedNow(more, r, id);
    }
  }

  lemma OthersLeavePings(hist: seq<Instant>, x: Instant, r: Request)
    requires |hist| > 0 && InstantStep(hist[|hist| - 1], x) && PingsOk(hist, r)
    ensures PingsOk(hist + [x], r)
  {
    if r.body.Pings? {
      match r.pc
      case PgTouch(e) => RunningStays(hist, x, r, e.id);
      case PgFlag(e) =>
        RunningStays(hist, x, r, e.id);
        MarkStays(hist[|hist| - 1], x, e.id, r.user, Newest(r.body.ats), r.body.anomaly);
      case Done(Accepted) => SettledStays(hist, x, r);
      case _ =>
    }
  }

  /* ---- the batch's own steps ---- */

  lemma PingLooks(cfg: Config, hist: seq<Instant>, r: Request, found: Option<Entry>, newId: EntryId, r': Request,
                  more: seq<Instant>)
    requires After(cfg, hist, r, found, newId, r', more) && r.pc.PgOpen? && PingsOk(hist, r)
    ensures PingsOk(more, r')
  {
    var here := |hist| - 1;
    assert more[here] == hist[here];
    if found.Some? {
      assert RunningAt(more[here], found.value.id, r.user);
    } else {
      assert NothingOpen(more[here], r.user);
    }
  }

  /** Both updates match: the document is still there, under its user. */
  lemma PingWrites(i: Instant, r: Request, newId: EntryId, x: Instant)
    requires r.body.Pings? && PcFits(r.body, r.pc) && (r.pc.PgTouch? || r.pc.PgFlag?)
             && x == i.(db := StepDb(i, r, newId))
    requires r.pc.e.id in i.db && i.db[r.pc.e.id].user == r.pc.e.user == r.user
    ensures r.pc.PgTouch? ==> TouchedAt(x, r.pc.e.id, r.user, Newest(r.body.ats))
    ensures r.pc.PgFlag? ==> SpeedAnomaly in x.db[r.pc.e.id].flags
  {
  }

  lemma PingActs(cfg: Config, hist: seq<Instant>, r: Request, found: Option<Entry>, newId: EntryId, r': Request,
                 more: seq<Instant>)
    requires After(cfg, hist, r, found, newId, r', more) && GoodHist(hist) && PingsOk(hist, r)
    requires r.body.Pings? && (r.pc.PgTouch? || r.pc.PgFlag?) && InstantStep(hist[|hist| - 1], more[|hist|])
    ensures PingsOk(more, r')
  {
    var e, x := r.pc.e, more[|hist|];
    assert more == hist + [x];
    SnapshotEvolved(hist, r, e);
    RunningStays(hist, x, r, e.id);
    SameRun(more, r, r', e.id);
    PingWrites(hist[|hist| - 1], r, newId, x);
    if r.pc.PgFlag? {
      MarkStays(hist[|hist| - 1], x, e.id, r.user, Newest(r.body.ats), false);
    }
    if r'.pc.Done? {
      assert MarkedNow(more, r', e.id);
    }
  }

  lemma SameRun(hist: seq<Instant>, r: Request, r': Request, id: EntryId)
    requires WasRunning(hist, r, id) && r'.user == r.user && r'.born == r.born
    ensures WasRunning(hist, r', id)
  {
  }

  /* ---- runs ---- */

  ghost predicate AllPingsOk(w: World) {
    forall rid {:trigger PingsOk(w.hist, w.reqs[rid])} :: rid in w.reqs ==> PingsOk(w.hist, w.reqs[rid])
  }

  lemma OneRequest(cfg: Config, hist: seq<Instant>, r: Request, found: Option<Entry>, newId: EntryId, r': Request,
                   more: seq<Instant>)
    requires After(cfg, hist, r, found, newId, r', more) && GoodHist(hist) && PingsOk(hist, r) && LocalsOk(more, r')
    requires InstantStep(hist[|hist| - 1], more[|hist|])
    ensures PingsOk(more, r')
  {
    if r.pc.PgOpen? {
      PingLooks(cfg, hist, r, found, newId, r', more);
    } else if r.body.Pings? {
      PingActs(cfg, hist, r, found, newId, r', more);
    }
  }

  lemma StepSpelt(cfg: Config, w: World, rid: RequestId, found: Option<Entry>, newId: EntryId, w': World)
    requires Inv(w) && Enabled(w, Step(rid, found, newId)) && w' == Apply(cfg, w, Step(rid, found, newId))
    ensures After(cfg, w.hist, w.reqs[rid], found, newId, w'.reqs[rid], w'.hist)
  {
    assert LocalsOk(w.hist, w.reqs[rid]);
  }

  lemma Untouched(cfg: Config, w: World, ev: Event, w': World, rid: RequestId)
    requires Enabled(w, ev) && w' == Apply(cfg, w, ev) && rid in w.reqs && !(ev.Step? && rid == ev.rid)
    ensures rid in w'.reqs && (w'.reqs[rid] == w.reqs[rid] || w'.reqs[rid] == w.reqs[rid].(pc := Done(ServerError)))
  {
  }

  lemma AtOneRequest(cfg: Config, w: World, ev: Event, w': World, rid: RequestId)
    requires Inv(w) && Inv(w') && Enabled(w, ev) && w' == Apply(cfg, w, ev)
    requires rid in w.reqs && rid in w'.reqs && PingsOk(w.hist, w.reqs[rid])
    requires w'.hist == w.hist + [w'.hist[|w.hist|]] && InstantStep(w.hist[|w.hist| - 1], w'.hist[|w.hist|])
    ensures PingsOk(w'.hist, w'.reqs[rid])
  {
    assert LocalsOk(w'.hist, w'.reqs[rid]);
    if ev.Step? && rid == ev.rid {
      StepSpelt(cfg, w, rid, ev.found, ev.newId, w');
      OneRequest(cfg, w.hist, w.reqs[rid], ev.found, ev.newId, w'.reqs[rid], w'.hist);
    } else {
      Untouched(cfg, w, ev, w', rid);
      OthersLeavePings(w.hist, w'.hist[|w.hist|], w.reqs[rid]);
    }
  }

  lemma EventKeepsPings(cfg: Config, w: World, ev: Event, w': World)
    requires Inv(w) && AllPingsOk(w) && Enabled(w, ev) && w' == Apply(cfg, w, ev)
    ensures Inv(w') && AllPingsOk(w')
  {
    EventKeepsInv(cfg, w, ev);
    assert w'.hist == w.hist + [w'.hist[|w.hist|]] && StepAt(w'.hist, |w.hist| - 1);
    forall rid | rid in w'.reqs
      ensures PingsOk(w'.hist, w'.reqs[rid])
    {
      if rid in w.reqs {
        assert PingsOk(w.hist, w.reqs[rid]);
        AtOneRequest(cfg, w, ev, w', rid);
      }
    }
  }

  lemma {:induction false} RunKeepsPings(cfg: Config, w: World, evs: seq<Event>, w': World)
    requires Inv(w) && AllPingsOk(w) && Runs(cfg, w, evs, w')
    ensures AllPingsOk(w')
    decreases |evs|
  {
    if evs != [] {
      EventKeepsPings(cfg, w, evs[0], Apply(cfg, w, evs[0]));
      RunKeepsPings(cfg, Apply(cfg, w, evs[0]), evs[1..], w');
    }
  }

  /** Nothing of the user's is open. */
  ghost predicate AllClosed(db: Db, u: UserId) {
    forall id :: id in db && db[id].user == u ==> db[id].status == Closed
  }

  /**
   * The shift was open at some instant of the request, and has a last ping as late as any fix of the batch and
   * the flag of the batch.
   */
  ghost predicate CarriesTheMark(hist: seq<Instant>, r: Request, id: EntryId)
    requires r.body.Pings? && |hist| > 0
  {
    && (exists k :: r.born <= k < |hist| && id in hist[k].db && hist[k].db[id].status == Open)
    && id in hist[|hist| - 1].db
    && var d := hist[|hist| - 1].db[id];
       && d.user == r.user && d.lastPing.Some?
       && (forall n :: 0 <= n < |r.body.ats| ==> r.body.ats[n] <= d.lastPing.value)
       && (r.body.anomaly ==> SpeedAnomaly in d.flags)
  }

  lemma MarkIsCarried(hist: seq<Instant>, r: Request, id: EntryId)
    requires r.body.Pings? && r.body.ats != [] && |hist| > 0 && MarkedNow(hist, r, id)
    ensures CarriesTheMark(hist, r, id)
  {
    M.NewestIsOne(r.body.ats);
    var k :| r.born <= k < |hist| && RunningAt(hist[k], id, r.user);
    assert id in hist[k].db && hist[k].db[id].status == Open;
  }

  /**
   * An accepted batch was empty, or found nothing open at some instant, or belongs to a shift that was
   * open inside the request and that, in this and every later state, has a last ping no earlier than
   * the batch's newest fix and carries the anomaly flag if the batch raised it.
   */
  lemma AcceptedPingsLeaveTheirMark(cfg: Config, w0: World, evs: seq<Event>, w: World, rid: RequestId)
    requires Initial(w0) && Runs(cfg, w0, evs, w)
    requires rid in w.reqs && w.reqs[rid].body.Pings? && w.reqs[rid].pc == Done(Accepted)
    ensures |w.hist| > 0
    ensures var r := w.reqs[rid];
            || r.body.ats == []
            || (exists k :: r.born <= k < |w.hist| && AllClosed(w.hist[k].db, r.user))
            || exists id :: CarriesTheMark(w.hist, r, id)
  {
    assert Inv(w0);
    RunKeepsPings(cfg, w0, evs, w);
    var r := w.reqs[rid];
    assert PingsOk(w.hist, r);
    if r.body.ats != [] && Nothing(w.hist, r) {
      var k :| r.born <= k < |w.hist| && NothingOpen(w.hist[k], r.user);
      NothingIsOpen(w.hist[k].db, r.user);
    } else if r.body.ats != [] {
      var id :| MarkedNow(w.hist, r, id);
      MarkIsCarried(w.hist, r, id);
    }
  }

  lemma NothingIsOpen(db: Db, u: UserId)
    requires !Holds(db, OpenEntry(u))
    ensures AllClosed(db, u)
  {
    forall id | id in db && db[id].user == u
      ensures db[id].status == Closed
    {
      assert !Matches(OpenEntry(u), db[id]);
    }
  }
}
