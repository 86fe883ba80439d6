/**
 * An open shift is never stranded (backend/internal/entry/geo.go ValidateClose, handler.go
 * closeAnchor): age and a lost membership do not stand in the way of its close.
 */
module Closable {
  import opened Options
  import opened Geo
  import opened Entries
  import opened Requests
  import opened Lifecycle
  import opened AnswersAreTrue

  lemma {:induction false} Then(cfg: Config, w: World, evs: seq<Event>, mid: World, ev: Event)
    requires Runs(cfg, w, evs, mid) && Enabled(mid, ev)
    ensures Runs(cfg, w, evs + [ev], Apply(cfg, mid, ev))
    decreases |evs|
  {
    if evs == [] {
      assert [ev][1..] == [];
    } else {
      assert (evs + [ev])[1..] == evs[1..] + [ev];
      Then(cfg, Apply(cfg, w, evs[0]), evs[1..], mid, ev);
    }
  }

  lemma {:induction false} Composed(cfg: Config, a: World, first: seq<Event>, b: World, second: seq<Event>, c: World)
    requires Runs(cfg, a, first, b) && Runs(cfg, b, second, c)
    ensures Runs(cfg, a, first + second, c)
    decreases |first|
  {
    if first == [] {
      assert first + second == second;
    } else {
      assert (first + second)[1..] == first[1..] + second;
      Composed(cfg, Apply(cfg, a, first[0]), first[1..], b, second, c);
    }
  }

  lemma {:induction false} Unused(ids: set<RequestId>) returns (n: RequestId)
    ensures forall i :: i in ids ==> i < n
    decreases ids
  {
    if ids == {} {
      n := 0;
    } else {
      var i :| i in ids;
      var m := Unused(ids - {i});
      n := if m <= i then i + 1 else m;
      assert forall k :: k in ids ==> k == i || k in ids - {i};
    }
  }

  /** A queued close of entry e that only the clock could have spoken against. */
  ghost predicate GoodClose(cfg: Config, i: Instant, e: Entry, fix: Fix) {
    && fix.queued && e.clockIn.at < fix.at <= i.now + cfg.maxClockSkew
    && (e.employer.Some? ==> e.employer.value in i.anchors)
    && SoundReading(cfg, fix, Some(if e.employer.Some? then i.anchors[e.employer.value] else e.clockIn.loc))
  }

  /** w' is reached from w by request rid alone, arriving if it had not and running on its own. */
  ghost predicate SoloRun(cfg: Config, w: World, rid: RequestId, w': World) {
    exists evs :: Runs(cfg, w, evs, w') && OnlyItsSteps(evs, rid)
  }

  ghost predicate OnlyItsSteps(evs: seq<Event>, rid: RequestId) {
    forall k :: 0 <= k < |evs| ==> (evs[k].Submit? || evs[k].Step?) && evs[k].rid == rid
  }

  /** One uninterrupted step of the request under way. */
  lemma OneStep(cfg: Config, w0: World, w: World, rid: RequestId, found: Option<Entry>, spare: EntryId)
    returns (w': World)
    requires SoloRun(cfg, w0, rid, w) && Enabled(w, Step(rid, found, spare)) && Inv(w)
    ensures SoloRun(cfg, w0, rid, w') && Inv(w')
    ensures rid in w'.reqs && w'.reqs[rid] ==
            w.reqs[rid].(pc := NextPc(cfg, Now(w), |w.hist| - 1, w.reqs[rid], found, spare))
    ensures Now(w') == Now(w).(db := StepDb(Now(w), w.reqs[rid], spare))
  {
    w' := Apply(cfg, w, Step(rid, found, spare));
    var evs :| Runs(cfg, w0, evs, w) && OnlyItsSteps(evs, rid);
    Then(cfg, w0, evs, w, Step(rid, found, spare));
    assert OnlyItsSteps(evs + [Step(rid, found, spare)], rid);
    EventKeepsInv(cfg, w, Step(rid, found, spare));
  }

  lemma Arrives(cfg: Config, w: World, rid: RequestId, u: UserId, b: Body) returns (w': World)
    requires Inv(w) && rid !in w.reqs
    ensures SoloRun(cfg, w, rid, w') && Inv(w')
    ensures rid in w'.reqs && w'.reqs[rid].user == u && w'.reqs[rid].body == Arrived(b) && w'.reqs[rid].pc == FirstPc(b)
            && Now(w') == Now(w)
  {
    w' := Apply(cfg, w, Submit(rid, u, b));
    var evs := [Submit(rid, u, b)];
    assert Runs(cfg, w', [], w') && evs[1..] == [];
    assert Runs(cfg, w, evs, w') && OnlyItsSteps(evs, rid);
    EventKeepsInv(cfg, w, Submit(rid, u, b));
  }

  /** The close has read its shift and the anchor it is measured against, and nothing changed since. */
  ghost predicate ReadyToJudge(cfg: Config, w: World, rid: RequestId, i: Instant, e: Entry, clientId: ClientId,
                               fix: Fix)
  {
    && Inv(w) && Now(w) == i && e.id in i.db && i.db[e.id] == e && e.status == Open && GoodClose(cfg, i, e, fix)
    && rid in w.reqs && w.reqs[rid].body == ClockOut(clientId, fix) && w.reqs[rid].user == e.user
    && w.reqs[rid].pc.OutJudge? && w.reqs[rid].pc.e == e
    && w.reqs[rid].pc.at == if e.employer.Some? then i.anchors[e.employer.value] else e.clockIn.loc
  }

  /** The request has arrived, or gone one step further, and nothing else has happened. */
  ghost predicate Under(w: World, rid: RequestId, i: Instant, u: UserId, clientId: ClientId, fix: Fix, pc: Pc) {
    && Inv(w) && Now(w) == i && rid in w.reqs && w.reqs[rid].pc == pc
    && w.reqs[rid].user == u && w.reqs[rid].body == ClockOut(clientId, fix)
  }

  lemma FindsNoReplay(cfg: Config, w: World, rid: RequestId, u: UserId, clientId: ClientId, sent: Fix, spare: EntryId)
    returns (w': World)
    requires Inv(w) && rid !in w.reqs && spare !in Now(w).db && !Holds(Now(w).db, ByCloseClientId(u, clientId))
    ensures SoloRun(cfg, w, rid, w') && Under(w', rid, Now(w), u, clientId, Trimmed(sent), OutOpen)
  {
    w' := Arrives(cfg, w, rid, u, ClockOut(clientId, sent));
    w' := OneStep(cfg, w, w', rid, None, spare);
  }

  lemma FindsItsShift(cfg: Config, w0: World, w: World, rid: RequestId, i: Instant, e: Entry, clientId: ClientId,
                      fix: Fix, spare: EntryId) returns (w': World)
    requires SoloRun(cfg, w0, rid, w) && Under(w, rid, i, e.user, clientId, fix, OutOpen) && spare !in i.db
    requires e.id in i.db && i.db[e.id] == e && e.status == Open && GoodClose(cfg, i, e, fix)
    ensures SoloRun(cfg, w0, rid, w')
    ensures if e.employer.Some? then Under(w', rid, i, e.user, clientId, fix, OutAnchor(e))
            else ReadyToJudge(cfg, w', rid, i, e, clientId, fix)
  {
    assert Matches(OpenEntry(e.user), i.db[e.id]);
    w' := OneStep(cfg, w0, w, rid, Some(e), spare);
  }

  lemma ReadsItsAnchor(cfg: Config, w0: World, w: World, rid: RequestId, i: Instant, e: Entry, clientId: ClientId,
                       fix: Fix, spare: EntryId) returns (w': World)
    requires SoloRun(cfg, w0, rid, w) && Under(w, rid, i, e.user, clientId, fix, OutAnchor(e)) && spare !in i.db
    requires e.id in i.db && i.db[e.id] == e && e.status == Open && GoodClose(cfg, i, e, fix) && e.employer.Some?
    ensures SoloRun(cfg, w0, rid, w') && ReadyToJudge(cfg, w', rid, i, e, clientId, fix)
  {
    w' := OneStep(cfg, w0, w, rid, None, spare);
  }

  lemma Judges(cfg: Config, w0: World, w: World, rid: RequestId, i: Instant, e: Entry, clientId: ClientId, fix: Fix,
               spare: EntryId)
    returns (w': World, v: Verdict)
    requires ValidConfig(cfg) && SoloRun(cfg, w0, rid, w) && ReadyToJudge(cfg, w, rid, i, e, clientId, fix)
             && spare !in i.db
    ensures SoloRun(cfg, w0, rid, w') && Under(w', rid, i, e.user, clientId, fix, OutFlags(e, v))
  {
    CloseAcceptedIff(cfg, i.now, fix, Some(w.reqs[rid].pc.at));
    w' := OneStep(cfg, w0, w, rid, None, spare);
    v := w'.reqs[rid].pc.v;
  }

  lemma Flags(cfg: Config, w0: World, w: World, rid: RequestId, i: Instant, e: Entry, clientId: ClientId, fix: Fix,
              spare: EntryId, v: Verdict)
    returns (w': World, flags: set<Flag>)
    requires SoloRun(cfg, w0, rid, w) && Under(w, rid, i, e.user, clientId, fix, OutFlags(e, v)) && spare !in i.db
    ensures SoloRun(cfg, w0, rid, w') && Under(w', rid, i, e.user, clientId, fix, OutUpdate(e, v, flags))
    ensures flags <= {Backdated}
  {
    w' := OneStep(cfg, w0, w, rid, None, spare);
    flags := w'.reqs[rid].pc.flags;
  }

  lemma Writes(cfg: Config, w0: World, w: World, rid: RequestId, i: Instant, e: Entry, clientId: ClientId, fix: Fix,
               spare: EntryId, v: Verdict, flags: set<Flag>)
    returns (w': World)
    requires SoloRun(cfg, w0, rid, w) && Under(w, rid, i, e.user, clientId, fix, OutUpdate(e, v, flags))
             && spare !in i.db
    requires e.id in i.db && i.db[e.id] == e && e.status == Open
    ensures SoloRun(cfg, w0, rid, w') && Inv(w')
    ensures rid in w'.reqs && w'.reqs[rid].body == ClockOut(clientId, fix)
    ensures w'.reqs[rid].pc.Done? && w'.reqs[rid].pc.answer.ClosedNow? && w'.reqs[rid].pc.answer.e.id == e.id
    ensures e.id in Now(w').db && Now(w').db[e.id].status == Closed
    ensures Now(w').db[e.id].clockOut == Some(PointOf(fix)) && Now(w').db[e.id].closeClientId == Some(clientId)
  {
    w' := OneStep(cfg, w0, w, rid, None, spare);
  }

  /** From its shift to its write. */
  lemma JudgesAndWrites(cfg: Config, w0: World, w: World, rid: RequestId, i: Instant, e: Entry, clientId: ClientId,
                        fix: Fix, spare: EntryId)
    returns (w': World, v: Verdict, flags: set<Flag>)
    requires ValidConfig(cfg) && SoloRun(cfg, w0, rid, w) && Under(w, rid, i, e.user, clientId, fix, OutOpen)
    requires spare !in i.db && e.id in i.db && i.db[e.id] == e && e.status == Open && GoodClose(cfg, i, e, fix)
    ensures SoloRun(cfg, w0, rid, w') && flags <= {Backdated}
    ensures Under(w', rid, i, e.user, clientId, fix, OutUpdate(e, v, flags))
  {
    w' := FindsItsShift(cfg, w0, w, rid, i, e, clientId, fix, spare);
    if e.employer.Some? {
      w' := ReadsItsAnchor(cfg, w0, w', rid, i, e, clientId, fix, spare);
    }
    w', v := Judges(cfg, w0, w', rid, i, e, clientId, fix, spare);
    w', flags := Flags(cfg, w0, w', rid, i, e, clientId, fix, spare, v);
  }

  /** All but the write: the close has been judged and flagged, and only it has moved. */
  lemma RunsToItsWrite(cfg: Config, w: World, rid: RequestId, e: Entry, clientId: ClientId, sent: Fix, spare: EntryId)
    returns (w': World, v: Verdict, flags: set<Flag>)
    requires ValidConfig(cfg) && Inv(w) && rid !in w.reqs && spare !in Now(w).db
    requires e.id in Now(w).db && Now(w).db[e.id] == e && e.status == Open && GoodClose(cfg, Now(w), e, Trimmed(sent))
    requires !Holds(Now(w).db, ByCloseClientId(e.user, clientId))
    ensures SoloRun(cfg, w, rid, w') && flags <= {Backdated}
    ensures Under(w', rid, Now(w), e.user, clientId, Trimmed(sent), OutUpdate(e, v, flags))
  {
    var i, fix := Now(w), Trimmed(sent);
    w' := FindsNoReplay(cfg, w, rid, e.user, clientId, sent, spare);
    w', v, flags := JudgesAndWrites(cfg, w, w', rid, i, e, clientId, fix, spare);
  }

  /**
   * From every reachable world with an open shift, a queued close that is unmocked, accurate, in
   * range, captured after the clock-in and not from the future closes it: however old it is, and
   * whatever memberships say by then. (Its employer must still exist, or the shift be personal.)
   */
  lemma OpenShiftIsNeverStranded(cfg: Config, w0: World, before: seq<Event>, w: World, rid: RequestId, id: EntryId,
                                 clientId: ClientId, sent: Fix, spare: EntryId)
    returns (w': World)
    requires ValidConfig(cfg) && Initial(w0) && Runs(cfg, w0, before, w)
    requires |w.hist| > 0 && rid !in w.reqs && spare !in Now(w).db
    requires id in Now(w).db && Now(w).db[id].status == Open && GoodClose(cfg, Now(w), Now(w).db[id], Trimmed(sent))
    requires !Holds(Now(w).db, ByCloseClientId(Now(w).db[id].user, clientId))
    ensures SoloRun(cfg, w, rid, w')
    ensures rid in w'.reqs && w'.reqs[rid].body == Arrived(ClockOut(clientId, sent)) && w'.reqs[rid].pc.Done?
            && w'.reqs[rid].pc.answer.ClosedNow?
    ensures |w'.hist| > 0 && id in Now(w').db && Now(w').db[id].status == Closed
    ensures Now(w').db[id].closeClientId == Some(clientId) && Now(w').db[id].clockOut.Some?
    ensures var p := Now(w').db[id].clockOut.value;
            && p.at == sent.at - sent.at % 1_000_000 && p.loc == sent.loc
            && p.accuracy == sent.accuracy && p.mocked == sent.mocked
  {
    assert Inv(w0);
    RunKeepsInv(cfg, w0, before, w);
    GoodAt(w.hist, |w.hist| - 1);
    var e := Now(w).db[id];
    var judged, v, flags := RunsToItsWrite(cfg, w, rid, e, clientId, sent, spare);
    w' := Writes(cfg, w, judged, rid, Now(w), e, clientId, Trimmed(sent), spare, v, flags);
  }

  /** In particular a personal shift can be closed from where it started. */
  lemma PersonalShiftClosesAtItsStart(cfg: Config, i: Instant, e: Entry, fix: Fix)
    requires ValidConfig(cfg) && e.employer == None && e.clockIn.loc.Point? && fix.loc == e.clockIn.loc
    requires fix.queued && e.clockIn.at < fix.at <= i.now + cfg.maxClockSkew
    requires fix.accuracy.Metres? && fix.accuracy.m <= cfg.maxAccuracyM as real && !fix.mocked
    ensures GoodClose(cfg, i, e, fix)
  {
    assert cfg.distance(fix.loc, fix.loc) == 0;
  }
}
