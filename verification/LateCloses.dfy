/**
 * What keeps a late copy of a close off the next shift (backend/internal/entry/handler.go:276): the ordering
 * check, and nothing else.
 */
module LateCloses {
  import opened Options
  import opened Geo
  import opened Entries
  import opened Requests
  import opened Lifecycle
  import opened AnswersAreTrue
  import opened Closable

  /** Some run from w ends with request rid having closed shift id. */
  ghost predicate CanClose(cfg: Config, w: World, rid: RequestId, id: EntryId) {
    exists evs, w' :: Runs(cfg, w, evs, w') && HasClosed(w', rid, id)
  }

  predicate HasClosed(w: World, rid: RequestId, id: EntryId) {
    rid in w.reqs && w.reqs[rid].pc.Done? && w.reqs[rid].pc.answer.ClosedNow? && w.reqs[rid].pc.answer.e.id == id
  }

  /** The location rules pass, whichever came first, the clock-in or the fix. */
  ghost predicate PassesRules(cfg: Config, i: Instant, e: Entry, fix: Fix) {
    && fix.queued && fix.at <= i.now + cfg.maxClockSkew
    && (e.employer.Some? ==> e.employer.value in i.anchors)
    && SoundReading(cfg, fix, Some(if e.employer.Some? then i.anchors[e.employer.value] else e.clockIn.loc))
  }

  lemma {:induction false} BodyStays(cfg: Config, w: World, evs: seq<Event>, w': World, rid: RequestId)
    requires Runs(cfg, w, evs, w') && rid in w.reqs
    ensures rid in w'.reqs && w'.reqs[rid].body == w.reqs[rid].body
    decreases |evs|
  {
    if evs != [] {
      BodyStays(cfg, Apply(cfg, w, evs[0]), evs[1..], w', rid);
    }
  }

  /** A document's clock-in is the same at every instant that has it. */
  lemma SameClockIn(hist: seq<Instant>, j: nat, k: nat, id: EntryId)
    requires GoodHist(hist) && j < |hist| && k < |hist| && id in hist[j].db && id in hist[k].db
    ensures hist[j].db[id].clockIn == hist[k].db[id].clockIn
  {
    if j <= k {
      History(hist, j, k);
    } else {
      History(hist, k, j);
    }
  }

  lemma ClosedWasEarlier(cfg: Config, w: World, evs: seq<Event>, w': World, rid: RequestId, id: EntryId)
    requires Inv(w) && Runs(cfg, w, evs, w') && HasClosed(w', rid, id)
    requires rid in w.reqs && w.reqs[rid].body.ClockOut? && id in Now(w).db
    ensures Now(w).db[id].clockIn.at < w.reqs[rid].body.fix.at
  {
    RunKeepsInv(cfg, w, evs, w');
    BodyStays(cfg, w, evs, w', rid);
    var r, h := w'.reqs[rid], w'.hist;
    assert LocalsOk(h, r);
    var k :| r.born <= k < |h| - 1 && ClosesAt(h, k, r, r.pc.answer.e);
    GoodAt(h, k + 1);
    assert h[|w.hist| - 1] == h[..|w.hist|][|w.hist| - 1] == Now(w);
    SameClockIn(h, k + 1, |w.hist| - 1, id);
  }

  /**
   * In every reachable world, take any close that has found no trace of itself and is about to look for an
   * open shift, and any open shift of its user, started by whatever tap, that the location rules let it
   * close: the request can go on to close that shift exactly when the shift's clock-in was captured before
   * the close.
   */
  lemma LateCloseIff(cfg: Config, w0: World, before: seq<Event>, w: World, rid: RequestId, id: EntryId, spare: EntryId)
    requires ValidConfig(cfg) && Initial(w0) && Runs(cfg, w0, before, w) && |w.hist| > 0
    requires rid in w.reqs && w.reqs[rid].body.ClockOut? && w.reqs[rid].pc == OutOpen && spare !in Now(w).db
    requires id in Now(w).db && Now(w).db[id].user == w.reqs[rid].user && Now(w).db[id].status == Open
    requires PassesRules(cfg, Now(w), Now(w).db[id], w.reqs[rid].body.fix)
    ensures CanClose(cfg, w, rid, id) <==> Now(w).db[id].clockIn.at < w.reqs[rid].body.fix.at
  {
    assert Inv(w0);
    RunKeepsInv(cfg, w0, before, w);
    var e, r := Now(w).db[id], w.reqs[rid];
    if CanClose(cfg, w, rid, id) {
      var evs, w' :| Runs(cfg, w, evs, w') && HasClosed(w', rid, id);
      ClosedWasEarlier(cfg, w, evs, w', rid, id);
    }
    if e.clockIn.at < r.body.fix.at {
      GoodAt(w.hist, |w.hist| - 1);
      assert Runs(cfg, w, [], w) && OnlyItsSteps([], rid);
      var judged, v, flags :=
        JudgesAndWrites(cfg, w, w, rid, Now(w), e, r.body.clientId, r.body.fix, spare);
      var w' := Writes(cfg, w, judged, rid, Now(w), e, r.body.clientId, r.body.fix, spare, v, flags);
      var evs :| Runs(cfg, w, evs, w') && OnlyItsSteps(evs, rid);
      assert HasClosed(w', rid, id);
    }
  }
}
