/**
 * What a stored entry proves about the moments its points were judged: no late or silent
 * backdating, and a location verdict backed by an anchor the employer really had
 * (backend/internal/entry/geo.go, handler.go backdatedFlags, withinAnchor, closeAnchor).
 */
module EvidenceIsSound {
  import opened Options
  import opened Geo
  import opened Entries
  import opened Requests
  import opened Lifecycle
  import opened AnswersAreTrue

  /** The anchor a fix is measured against: the employer's as read at `seen`, else the shift's own. */
  ghost function AnchorFor(hist: seq<Instant>, emp: Option<EmployerId>, own: Option<Location>,
                           seen: nat): Option<Location>
    requires seen < |hist|
  {
    if emp.None? then own
    else if emp.value in hist[seen].anchors then Some(hist[seen].anchors[emp.value])
    else None
  }

  ghost predicate AnchorRead(hist: seq<Instant>, emp: Option<EmployerId>, own: Option<Location>, seen: nat,
                             anchor: Option<Location>)
  {
    seen < |hist| && (emp.Some? ==> emp.value in hist[seen].anchors) && anchor == AnchorFor(hist, emp, own, seen)
  }

  /** The rules passed this fix at instant v.judged, against the anchor read at instant v.seen. */
  ghost predicate Passed(cfg: Config, hist: seq<Instant>, f: Fix, emp: Option<EmployerId>, own: Option<Location>,
                         closing: bool, v: Verdict)
  {
    && v.seen <= v.judged < |hist| && v.queued == f.queued
    && (emp.Some? ==> emp.value in hist[v.seen].anchors)
    && (if closing then ValidateClose(cfg, hist[v.judged].now, f, AnchorFor(hist, emp, own, v.seen)) == None
        else ValidateFix(cfg, hist[v.judged].now, f, AnchorFor(hist, emp, own, v.seen)) == None)
  }

  /** The event was accepted more than the freshness rule after it was captured. */
  ghost predicate AcceptedLate(cfg: Config, hist: seq<Instant>, at: Time, v: Verdict)
    requires v.judged < |hist|
  {
    Sub(hist[v.judged].now, at) > cfg.maxClockSkew
  }

  ghost predicate FlagsFor(cfg: Config, hist: seq<Instant>, at: Time, v: Verdict, flags: set<Flag>) {
    && v.judged < |hist| && flags <= {Backdated}
    && (v.queued && AcceptedLate(cfg, hist, at, v) ==> Backdated in flags)
    && (Backdated in flags ==> v.queued)
  }

  /** The fix a stored point was made of. */
  function FixOf(p: ClockPoint, queued: bool): Fix {
    Fix(p.at, p.loc, p.accuracy, p.mocked, queued)
  }

  /** What a request holds between reading an anchor and writing the event it judged with it. */
  ghost predicate Holding(cfg: Config, hist: seq<Instant>, r: Request) {
    PcFits(r.body, r.pc) &&
    match r.pc
    case InJudge(anchor, seen) => AnchorRead(hist, r.body.employer, None, seen, anchor)
    case InFlags(v) => Passed(cfg, hist, r.body.fix, r.body.employer, None, false, v)
    case InInsert(v, flags) =>
      Passed(cfg, hist, r.body.fix, r.body.employer, None, false, v) && FlagsFor(cfg, hist, r.body.fix.at, v, flags)
    case OutJudge(e, at, seen) => AnchorRead(hist, e.employer, Some(e.clockIn.loc), seen, Some(at))
    case OutFlags(e, v) => Passed(cfg, hist, r.body.fix, e.employer, Some(e.clockIn.loc), true, v)
    case OutUpdate(e, v, flags) =>
      Passed(cfg, hist, r.body.fix, e.employer, Some(e.clockIn.loc), true, v)
        && FlagsFor(cfg, hist, r.body.fix.at, v, flags)
    case AsWrite(e, verified, seen) =>
      seen < |hist| && r.body.to in hist[seen].anchors && verified == EntryWithin(cfg, e, hist[seen].anchors[r.body.to])
    case Done(Refused(code)) => r.body.AssignTo? ==> !code.OutOfRange?
    case _ => true
  }

  /** What a stored entry is evidence of. */
  ghost predicate EntryOk(cfg: Config, hist: seq<Instant>, e: Entry, ev: Evidence) {
    var worked := if ev.booking.Some? then None else e.employer;
    && Passed(cfg, hist, FixOf(e.clockIn, ev.start.queued), worked, None, false, ev.start)
    && (AcceptedLate(cfg, hist, e.clockIn.at, ev.start) ==> Backdated in e.flags)
    && (e.status == Closed <==> ev.end.Some?)
    && (ev.end.Some? ==>
          && e.clockOut.Some?
          && Passed(cfg, hist, FixOf(e.clockOut.value, ev.end.value.queued), worked, Some(e.clockIn.loc), true,
               ev.end.value)
          && (AcceptedLate(cfg, hist, e.clockOut.value.at, ev.end.value) ==> Backdated in e.flags))
    && (Backdated in e.flags ==> ev.start.queued || (ev.end.Some? && ev.end.value.queued))
    && (ev.booking.Some? ==>
          && e.status == Closed && e.employer.Some? && ev.booking.value < |hist|
               && e.employer.value in hist[ev.booking.value].anchors
          && (e.verified <==> EntryWithin(cfg, e, hist[ev.booking.value].anchors[e.employer.value])))
    && (ev.booking.None? ==> e.verified)
  }

  ghost predicate Sound(cfg: Config, w: World) {
    && Inv(w) && w.evidence.Keys == Now(w).db.Keys
    && (forall rid {:trigger Holding(cfg, w.hist, w.reqs[rid])} :: rid in w.reqs ==> Holding(cfg, w.hist, w.reqs[rid]))
    && (forall id {:trigger w.evidence[id]} :: id in w.evidence ==> EntryOk(cfg, w.hist, Now(w).db[id], w.evidence[id]))
  }

  /** Judgements made in the past stay what they were. */
  lemma PastStands(cfg: Config, hist: seq<Instant>, x: Instant, r: Request)
    requires Holding(cfg, hist, r)
    ensures Holding(cfg, hist + [x], r)
  {
  }

  lemma EntryStands(cfg: Config, hist: seq<Instant>, x: Instant, e: Entry, ev: Evidence)
    requires EntryOk(cfg, hist, e, ev)
    ensures EntryOk(cfg, hist + [x], e, ev)
  {
  }

  /** Only a queued event can pass the rules late. */
  lemma LateMeansQueued(cfg: Config, now: Time, f: Fix, anchor: Option<Location>)
    requires ValidConfig(cfg)
    requires ValidateFix(cfg, now, f, anchor) == None || ValidateClose(cfg, now, f, anchor) == None
    requires Sub(now, f.at) > cfg.maxClockSkew
    ensures f.queued
  {
  }

  /** The flags are computed after the verdict, so a late verdict is never missed. */
  lemma FlagsComputed(cfg: Config, hist: seq<Instant>, f: Fix, v: Verdict)
    requires GoodHist(hist) && v.judged < |hist| && v.queued == f.queued
    ensures FlagsFor(cfg, hist, f.at, v, BackdatedFlags(cfg, hist[|hist| - 1].now, f))
  {
    History(hist, v.judged, |hist| - 1);
  }

  lemma JudgedNow(cfg: Config, hist: seq<Instant>, r: Request, r': Request, more: seq<Instant>)
    requires |hist| > 0 && more == hist + [hist[|hist| - 1]]
    requires Holding(cfg, hist, r) && (r.pc.InJudge? || r.pc.OutJudge?)
    requires r' == r.(pc := NextPc(cfg, hist[|hist| - 1], |hist| - 1, r, None, 0))
    ensures Holding(cfg, more, r')
  {
  }

  lemma StepKeepsHolding(cfg: Config, hist: seq<Instant>, r: Request, found: Option<Entry>, newId: EntryId, r': Request,
                         more: seq<Instant>)
    requires After(cfg, hist, r, found, newId, r', more) && GoodHist(hist) && Holding(cfg, hist, r)
    ensures Holding(cfg, more, r')
  {
    if r.pc.InFlags? || r.pc.OutFlags? {
      FlagsComputed(cfg, hist, r.body.fix, r.pc.v);
    } else if r.pc.InJudge? || r.pc.OutJudge? {
      JudgedNow(cfg, hist, r, r', more);
    }
  }

  lemma FreshEntryOk(cfg: Config, hist: seq<Instant>, r: Request, id: EntryId)
    requires ValidConfig(cfg) && r.pc.InInsert? && r.body.ClockIn? && Holding(cfg, hist, r)
    ensures EntryOk(cfg, hist, NewEntry(id, r.user, r.body, r.pc.flags), Evidence(r.pc.v, None, None))
  {
    var f, v := r.body.fix, r.pc.v;
    if AcceptedLate(cfg, hist, f.at, v) {
      LateMeansQueued(cfg, hist[v.judged].now, f, AnchorFor(hist, r.body.employer, None, v.seen));
    }
    assert FixOf(PointOf(f), v.queued) == f;
  }

  lemma ClosedEntryOk(cfg: Config, hist: seq<Instant>, r: Request, e: Entry, ev: Evidence)
    requires ValidConfig(cfg) && r.pc.OutUpdate? && r.body.ClockOut? && Holding(cfg, hist, r)
    requires EntryOk(cfg, hist, e, ev) && Evolves(r.pc.e, e) && e.status == Open
    ensures EntryOk(cfg, hist, Updated(e, Close(e.id, PointOf(r.body.fix), r.body.clientId, r.pc.flags)),
            ev.(end := Some(r.pc.v)))
  {
    var f, v := r.body.fix, r.pc.v;
    if AcceptedLate(cfg, hist, f.at, v) {
      LateMeansQueued(cfg, hist[v.judged].now, f, AnchorFor(hist, e.employer, Some(e.clockIn.loc), v.seen));
    }
    assert FixOf(PointOf(f), v.queued) == f;
  }

  lemma BookedEntryOk(cfg: Config, hist: seq<Instant>, r: Request, e: Entry, ev: Evidence)
    requires r.pc.AsWrite? && r.body.AssignTo? && Holding(cfg, hist, r)
    requires EntryOk(cfg, hist, e, ev) && Evolves(r.pc.e, e) && r.pc.e.status == Closed && e.employer == None
    ensures EntryOk(cfg, hist, Updated(e, Assign(e.id, e.user, r.body.to, r.pc.verified)),
            ev.(booking := Some(r.pc.seen)))
  {
  }

  lemma UpdatedEntryOk(cfg: Config, hist: seq<Instant>, r: Request, e: Entry, ev: Evidence, newId: EntryId)
    requires ValidConfig(cfg) && Holding(cfg, hist, r) && GoodHist(hist) && LocalsOk(hist, r)
    requires CommandOf(r, newId).Some? && !CommandOf(r, newId).value.Insert? && Guard(e, CommandOf(r, newId).value)
    requires EntryOk(cfg, hist, e, ev) && Evolves(r.pc.e, e)
    ensures EntryOk(cfg, hist, Updated(e, CommandOf(r, newId).value),
            Recorded(map[e.id := ev], r, CommandOf(r, newId).value)[e.id])
  {
    if r.pc.OutUpdate? {
      ClosedEntryOk(cfg, hist, r, e, ev);
    } else if r.pc.AsWrite? {
      BookedEntryOk(cfg, hist, r, e, ev);
    }
  }

  lemma RecordedAt(ev: map<EntryId, Evidence>, r: Request, newId: EntryId, id: EntryId)
    requires PcFits(r.body, r.pc) && CommandOf(r, newId).Some? && !CommandOf(r, newId).value.Insert? && id in ev
    ensures var cmd := CommandOf(r, newId).value;
            && id in Recorded(ev, r, cmd)
            && Recorded(ev, r, cmd)[id] == if id == cmd.id then Recorded(map[id := ev[id]], r, cmd)[id] else ev[id]
  {
  }

  lemma UpdateKeepsEntry(cfg: Config, w: World, r: Request, newId: EntryId, id: EntryId)
    requires ValidConfig(cfg) && GoodHist(w.hist) && id in w.evidence && id in Now(w).db
    requires LocalsOk(w.hist, r) && Holding(cfg, w.hist, r)
    requires CommandOf(r, newId).Some? && !CommandOf(r, newId).value.Insert?
             && Takes(Now(w).db, CommandOf(r, newId).value)
    requires EntryOk(cfg, w.hist, Now(w).db[id], w.evidence[id])
    ensures var db, ev := StepDb(Now(w), r, newId), Recorded(w.evidence, r, CommandOf(r, newId).value);
            id in db && id in ev && EntryOk(cfg, w.hist, db[id], ev[id])
  {
    RecordedAt(w.evidence, r, newId, id);
    if id == CommandOf(r, newId).value.id {
      UpdatedHere(cfg, w, r, newId);
    }
  }

  lemma UpdatedHere(cfg: Config, w: World, r: Request, newId: EntryId)
    requires ValidConfig(cfg) && GoodHist(w.hist) && LocalsOk(w.hist, r) && Holding(cfg, w.hist, r)
    requires CommandOf(r, newId).Some? && !CommandOf(r, newId).value.Insert?
             && Takes(Now(w).db, CommandOf(r, newId).value)
    requires var id := CommandOf(r, newId).value.id;
             id in w.evidence && EntryOk(cfg, w.hist, Now(w).db[id], w.evidence[id])
    ensures var cmd := CommandOf(r, newId).value;
            var e := Now(w).db[cmd.id];
            e.id == cmd.id
              && EntryOk(cfg, w.hist, Updated(e, cmd), Recorded(map[cmd.id := w.evidence[cmd.id]], r, cmd)[cmd.id])
  {
    var id := CommandOf(r, newId).value.id;
    GoodAt(w.hist, |w.hist| - 1);
    SnapshotEvolved(w.hist, r, r.pc.e);
    UpdatedEntryOk(cfg, w.hist, r, Now(w).db[id], w.evidence[id], newId);
  }

  lemma StepKeepsEntries(cfg: Config, w: World, r: Request, newId: EntryId, id: EntryId)
    requires ValidConfig(cfg) && GoodHist(w.hist) && w.evidence.Keys == Now(w).db.Keys
    requires LocalsOk(w.hist, r) && Holding(cfg, w.hist, r)
    requires CommandOf(r, newId).Some? && Takes(Now(w).db, CommandOf(r, newId).value)
    requires id in w.evidence ==> EntryOk(cfg, w.hist, Now(w).db[id], w.evidence[id])
    requires id in Recorded(w.evidence, r, CommandOf(r, newId).value)
    ensures var db, ev := StepDb(Now(w), r, newId), Recorded(w.evidence, r, CommandOf(r, newId).value);
            id in db && EntryOk(cfg, w.hist, db[id], ev[id])
  {
    if !CommandOf(r, newId).value.Insert? {
      UpdateKeepsEntry(cfg, w, r, newId, id);
    } else if id == newId {
      FreshEntryOk(cfg, w.hist, r, id);
    }
  }

  lemma HoldingsAfter(cfg: Config, w: World, ev: Event, w': World)
    requires Sound(cfg, w) && Enabled(w, ev) && w' == Apply(cfg, w, ev)
    ensures forall rid :: rid in w'.reqs ==> Holding(cfg, w'.hist, w'.reqs[rid])
  {
    var x := w'.hist[|w.hist|];
    assert w'.hist == w.hist + [x];
    forall rid | rid in w'.reqs
      ensures Holding(cfg, w'.hist, w'.reqs[rid])
    {
      if ev.Step? && rid == ev.rid {
        assert LocalsOk(w.hist, w.reqs[rid]) && Holding(cfg, w.hist, w.reqs[rid]);
        StepKeepsHolding(cfg, w.hist, w.reqs[rid], ev.found, ev.newId, w'.reqs[rid], w'.hist);
      } else if rid in w.reqs {
        assert Holding(cfg, w.hist, w.reqs[rid]);
        PastStands(cfg, w.hist, x, w.reqs[rid]);
      }
    }
  }

  lemma EntriesAfter(cfg: Config, w: World, ev: Event, w': World)
    requires ValidConfig(cfg) && Sound(cfg, w) && Enabled(w, ev) && w' == Apply(cfg, w, ev)
    ensures forall id :: id in w'.evidence ==>
              id in Now(w').db && EntryOk(cfg, w'.hist, Now(w').db[id], w'.evidence[id])
  {
    var x := w'.hist[|w.hist|];
    assert w'.hist == w.hist + [x];
    forall id | id in w'.evidence
      ensures id in x.db && EntryOk(cfg, w'.hist, x.db[id], w'.evidence[id])
    {
      if ev.Step? && CommandOf(w.reqs[ev.rid], ev.newId).Some?
         && Takes(Now(w).db, CommandOf(w.reqs[ev.rid], ev.newId).value) {
        assert LocalsOk(w.hist, w.reqs[ev.rid]) && Holding(cfg, w.hist, w.reqs[ev.rid]);
        StepKeepsEntries(cfg, w, w.reqs[ev.rid], ev.newId, id);
      }
      EntryStands(cfg, w.hist, x, x.db[id], w'.evidence[id]);
    }
  }

  lemma EventKeepsSound(cfg: Config, w: World, ev: Event)
    requires ValidConfig(cfg) && Sound(cfg, w) && Enabled(w, ev)
    ensures Sound(cfg, Apply(cfg, w, ev))
  {
    EventKeepsInv(cfg, w, ev);
    HoldingsAfter(cfg, w, ev, Apply(cfg, w, ev));
    EntriesAfter(cfg, w, ev, Apply(cfg, w, ev));
    EvidenceKeys(cfg, w, ev);
  }

  lemma EvidenceKeys(cfg: Config, w: World, ev: Event)
    requires Sound(cfg, w) && Enabled(w, ev)
    ensures Apply(cfg, w, ev).evidence.Keys == Now(Apply(cfg, w, ev)).db.Keys
  {
  }

  lemma {:induction false} RunKeepsSound(cfg: Config, w: World, evs: seq<Event>, w': World)
    requires ValidConfig(cfg) && Sound(cfg, w) && Runs(cfg, w, evs, w')
    ensures Sound(cfg, w')
    decreases |evs|
  {
    if evs != [] {
      EventKeepsSound(cfg, w, evs[0]);
      RunKeepsSound(cfg, Apply(cfg, w, evs[0]), evs[1..], w');
    }
  }

  lemma ReachableIsSound(cfg: Config, w0: World, evs: seq<Event>, w: World)
    requires ValidConfig(cfg) && Initial(w0) && Runs(cfg, w0, evs, w)
    ensures Sound(cfg, w)
  {
    assert Inv(w0) && Sound(cfg, w0);
    RunKeepsSound(cfg, w0, evs, w);
  }

  lemma StoredIsOk(cfg: Config, w0: World, evs: seq<Event>, w: World, id: EntryId)
    requires ValidConfig(cfg) && Initial(w0) && Runs(cfg, w0, evs, w) && |w.hist| > 0 && id in Now(w).db
    ensures id in w.evidence && EntryOk(cfg, w.hist, Now(w).db[id], w.evidence[id]) && WellFormed(Now(w).db[id])
  {
    ReachableIsSound(cfg, w0, evs, w);
    GoodAt(w.hist, |w.hist| - 1);
  }

  /**
   * No late or silent backdating. The clock-in was captured at most MaxQueuedAge before and at
   * most MaxClockSkew after the instant it was accepted; a clock event accepted more than
   * MaxClockSkew after capture has left the backdated flag, in this and every later state; and a
   * shift whose events were all live does not carry it.
   */
  lemma NoLateOrSilentBackdating(cfg: Config, w0: World, evs: seq<Event>, w: World, id: EntryId)
    requires ValidConfig(cfg) && Initial(w0) && Runs(cfg, w0, evs, w)
    requires |w.hist| > 0 && id in Now(w).db
    ensures id in w.evidence
    ensures var e, ev := Now(w).db[id], w.evidence[id];
            && ev.start.judged < |w.hist|
            && var t := w.hist[ev.start.judged].now;
               t - cfg.maxQueuedAge <= e.clockIn.at <= t + cfg.maxClockSkew
               && (t - e.clockIn.at > cfg.maxClockSkew ==> Backdated in e.flags)
    ensures var e, ev := Now(w).db[id], w.evidence[id];
            e.status == Closed ==>
              && e.clockOut.Some? && ev.end.Some? && ev.end.value.judged < |w.hist|
              && (w.hist[ev.end.value.judged].now - e.clockOut.value.at > cfg.maxClockSkew ==> Backdated in e.flags)
    ensures var e, ev := Now(w).db[id], w.evidence[id];
            !ev.start.queued && (ev.end.Some? ==> !ev.end.value.queued) ==> Backdated !in e.flags
  {
    StoredIsOk(cfg, w0, evs, w, id);
    var e, ev := Now(w).db[id], w.evidence[id];
    var worked := if ev.booking.Some? then None else e.employer;
    FixAcceptedIff(cfg, w.hist[ev.start.judged].now, FixOf(e.clockIn, ev.start.queued),
      AnchorFor(w.hist, worked, None, ev.start.seen));
  }

  /**
   * An entry booked to an employer as verified has every stored point within the radius of an
   * anchor that employer held when the point was judged: each event's own anchor if it was booked
   * at clock-in, the one read by the assignment otherwise. An assignment that found either point
   * outside recorded exactly that.
   */
  lemma LocationVerdictIsSound(cfg: Config, w0: World, evs: seq<Event>, w: World, id: EntryId)
    requires ValidConfig(cfg) && Initial(w0) && Runs(cfg, w0, evs, w)
    requires |w.hist| > 0 && id in Now(w).db && Now(w).db[id].employer.Some?
    ensures id in w.evidence
    ensures var e, ev := Now(w).db[id], w.evidence[id];
            ev.booking.None? ==>
              && e.verified
              && ev.start.seen < |w.hist| && e.employer.value in w.hist[ev.start.seen].anchors
              && WithinAnchor(cfg, e.clockIn.loc, w.hist[ev.start.seen].anchors[e.employer.value])
              && (e.status == Closed ==>
                    && e.clockOut.Some? && ev.end.Some? && ev.end.value.seen < |w.hist|
                    && e.employer.value in w.hist[ev.end.value.seen].anchors
                    && WithinAnchor(cfg, e.clockOut.value.loc, w.hist[ev.end.value.seen].anchors[e.employer.value]))
    ensures var e, ev := Now(w).db[id], w.evidence[id];
            ev.booking.Some? ==>
              && ev.booking.value < |w.hist| && e.employer.value in w.hist[ev.booking.value].anchors
              && e.clockOut.Some?
              && var anchor := w.hist[ev.booking.value].anchors[e.employer.value];
                 e.verified <==>
                 WithinAnchor(cfg, e.clockIn.loc, anchor) && WithinAnchor(cfg, e.clockOut.value.loc, anchor)
  {
    StoredIsOk(cfg, w0, evs, w, id);
  }

  lemma AssignIsNeverRefusedForPosition(cfg: Config, w0: World, evs: seq<Event>, w: World, rid: RequestId)
    requires ValidConfig(cfg) && Initial(w0) && Runs(cfg, w0, evs, w)
    requires rid in w.reqs && w.reqs[rid].body.AssignTo? && w.reqs[rid].pc.Done? && w.reqs[rid].pc.answer.Refused?
    ensures !w.reqs[rid].pc.answer.code.OutOfRange?
  {
    ReachableIsSound(cfg, w0, evs, w);
    assert Holding(cfg, w.hist, w.reqs[rid]);
  }
}
