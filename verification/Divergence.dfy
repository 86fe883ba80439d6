/**
 * Why convergence asks for taps captured in order: a drain of three taps, the last captured before the
 * second, that ends with a shift closed by a close that was never meant for it.
 */
module OutOfOrderDiverges {
  import opened Options
  import opened Geo
  import opened Entries
  import opened Requests
  import opened AnswersAreTrue
  import opened Replay
  import DrainsFinish

  function Nowhere(p: Location, q: Location): nat {
    0
  }

  const CFG := Config(0, 0, 10 * MILLISECOND, 0, Nowhere)
  const NOW: Time := 2 * MILLISECOND

  function FixAt(t: Time): Fix {
    Fix(t, Point(0.0, 0.0), Metres(0.0), false, false)
  }

  /** In, out, and in again, the second clock-in captured a millisecond before the clock-out. */
  const FIRST_IN := ClockIn("a", None, FixAt(0))
  const THE_OUT := ClockOut("b", FixAt(2 * MILLISECOND))
  const NEXT_IN := ClockIn("c", None, FixAt(MILLISECOND))
  const TAPS := [FIRST_IN, THE_OUT, NEXT_IN]

  const NOTHING_STORED := Instant(map[], map[], {}, NOW)
  const START := Phone(World([NOTHING_STORED], map[], map[]), TAPS, None, [], map[], 0, 0)

  /** A state some drain of the three taps reaches. */
  ghost predicate At(p: Phone, queue: seq<Body>, db: Db, reqs: map<RequestId, Request>) {
    && (exists moves :: Drains(CFG, 0, START, moves, p))
    && Inv(p.server) && Now(p.server) == NOTHING_STORED.(db := db)
    && p.queue == queue && p.server.reqs == reqs && p.copies.Keys == reqs.Keys
    && forall rid :: rid in p.copies ==> p.copies[rid] <= p.resolved
  }

  lemma Goes(p: Phone, mv: Move) returns (p': Phone)
    requires exists moves :: Drains(CFG, 0, START, moves, p)
    requires Possible(p, 0, mv) && Favourable(CFG, 0, p, mv)
    ensures p' == Moved(CFG, 0, p, mv) && exists moves :: Drains(CFG, 0, START, moves, p')
  {
    var moves :| Drains(CFG, 0, START, moves, p);
    p' := Moved(CFG, 0, p, mv);
    DrainsFinish.OneMove(CFG, 0, p, mv);
    DrainsFinish.Joined(CFG, 0, START, moves, p, [mv], p');
  }

  /** One step of a copy on the server. */
  lemma Steps(p: Phone, queue: seq<Body>, db: Db, reqs: map<RequestId, Request>, rid: RequestId, found: Option<Entry>,
              spare: EntryId)
    returns (p': Phone, next: Pc)
    requires At(p, queue, db, reqs) && rid in reqs && !reqs[rid].pc.Done? && PcFits(reqs[rid].body, reqs[rid].pc)
    requires QueryOf(reqs[rid]).Some? ==> Answers(db, QueryOf(reqs[rid]).value, found)
    requires spare !in db
    requires Judging(reqs[rid].pc) ==> !NextPc(CFG, Now(p.server), |p.server.hist| - 1, reqs[rid], found, spare).Done?
    ensures next == NextPc(CFG, Now(p.server), |p.server.hist| - 1, reqs[rid], found, spare)
    ensures At(p', queue, StepDb(Now(p.server), reqs[rid], spare), reqs[rid := reqs[rid].(pc := next)])
    ensures p'.sent == p.sent && p'.resolved == p.resolved
  {
    var ev := Step(rid, found, spare);
    next := NextPc(CFG, Now(p.server), |p.server.hist| - 1, reqs[rid], found, spare);
    EventKeepsInv(CFG, p.server, ev);
    p' := Goes(p, Server(ev));
  }

  lemma Sends(p: Phone, queue: seq<Body>, db: Db, reqs: map<RequestId, Request>, rid: RequestId) returns (p': Phone)
    requires At(p, queue, db, reqs) && queue != [] && p.sent == None && rid !in reqs
    requires (queue[0].ClockIn? || queue[0].ClockOut?) && Ms(queue[0].fix.at) == queue[0].fix.at
    ensures p'.sent == Some(rid) && p'.resolved == p.resolved && p'.copies == p.copies[rid := p.resolved]
    ensures rid in p'.server.reqs && p'.server.reqs[rid].user == 0 && p'.server.reqs[rid].body == ReplayBody(queue[0])
    ensures p'.server.reqs[rid].pc == FirstPc(queue[0])
    ensures At(p', queue, db, reqs[rid := p'.server.reqs[rid]])
  {
    EventKeepsInv(CFG, p.server, Submit(rid, 0, ReplayBody(queue[0])));
    p' := Goes(p, Send(rid));
  }

  lemma Replies(p: Phone, queue: seq<Body>, db: Db, reqs: map<RequestId, Request>) returns (p': Phone)
    requires At(p, queue, db, reqs) && queue != [] && p.sent.Some? && p.sent.value in reqs
    requires reqs[p.sent.value].pc.Done? && Succeeded(reqs[p.sent.value].pc.answer)
    ensures At(p', queue[1..], db, reqs) && p'.sent == None && p'.resolved == p.resolved + 1
  {
    p' := Goes(p, Reply);
  }

  lemma NotDuplicate(db: Db, e: Entry)
    requires e.id !in db && !Holds(db, ByClientId(e.user, e.clientId)) && !Holds(db, OpenEntry(e.user))
    ensures !Duplicate(db, e)
  {
    forall id | id in db
      ensures !(db[id].user == e.user && (db[id].clientId == e.clientId || db[id].status == Open))
    {
      assert !Matches(ByClientId(e.user, e.clientId), db[id]) && !Matches(OpenEntry(e.user), db[id]);
    }
  }

  predicate IsTap(b: Body) {
    b == ReplayBody(FIRST_IN) || b == ReplayBody(THE_OUT) || b == ReplayBody(NEXT_IN)
  }

  /** The request, alone changed. */
  function With(reqs: map<RequestId, Request>, rid: RequestId, pc: Pc): map<RequestId, Request>
    requires rid in reqs
  {
    reqs[rid := reqs[rid].(pc := pc)]
  }

  lemma WithTwice(reqs: map<RequestId, Request>, rid: RequestId, pc: Pc, next: Pc)
    requires rid in reqs
    ensures With(With(reqs, rid, pc), rid, next) == With(reqs, rid, next) && With(reqs, rid, reqs[rid].pc) == reqs
  {
  }

  lemma InStep(p: Phone, queue: seq<Body>, db: Db, reqs: map<RequestId, Request>, rid: RequestId, pc: Pc,
               spare: EntryId)
    returns (p': Phone, next: Pc)
    requires rid in reqs && reqs[rid].user == 0 && IsTap(reqs[rid].body) && reqs[rid].body.ClockIn? && spare !in db
    requires At(p, queue, db, With(reqs, rid, pc))
    requires pc.InLookup? || (pc.InJudge? && pc.anchor == None) || pc.InFlags?
    requires !Holds(db, ByClientId(0, reqs[rid].body.clientId))
    ensures At(p', queue, db, With(reqs, rid, next)) && p'.sent == p.sent && p'.resolved == p.resolved
    ensures pc.InLookup? ==> next.InJudge? && next.anchor == None
    ensures pc.InJudge? ==> next.InFlags?
    ensures pc.InFlags? ==> next.InInsert?
  {
    p', next := Steps(p, queue, db, With(reqs, rid, pc), rid, None, spare);
    WithTwice(reqs, rid, pc, next);
  }

  lemma InInserts(p: Phone, queue: seq<Body>, db: Db, reqs: map<RequestId, Request>, rid: RequestId, pc: Pc,
                  id: EntryId)
    returns (p': Phone, e: Entry)
    requires rid in reqs && reqs[rid].user == 0 && IsTap(reqs[rid].body) && reqs[rid].body.ClockIn? && id !in db
    requires At(p, queue, db, With(reqs, rid, pc)) && pc.InInsert?
    requires !Holds(db, ByClientId(0, reqs[rid].body.clientId)) && !Holds(db, OpenEntry(0))
    ensures e == NewEntry(id, 0, reqs[rid].body, e.flags)
    ensures At(p', queue, db[id := e], With(reqs, rid, Done(Created(e)))) && p'.sent == p.sent
            && p'.resolved == p.resolved
  {
    e := NewEntry(id, 0, reqs[rid].body, pc.flags);
    NotDuplicate(db, e);
    var next: Pc;
    p', next := Steps(p, queue, db, With(reqs, rid, pc), rid, None, id);
    WithTwice(reqs, rid, pc, next);
  }

  /** A clock-in from its arrival to its answer. */
  lemma InRuns(p: Phone, queue: seq<Body>, db: Db, reqs: map<RequestId, Request>, rid: RequestId, id: EntryId)
    returns (p': Phone, e: Entry)
    requires rid in reqs && reqs[rid].user == 0 && IsTap(reqs[rid].body) && reqs[rid].body.ClockIn? && id !in db
    requires At(p, queue, db, reqs) && reqs[rid].pc == InLookup
    requires !Holds(db, ByClientId(0, reqs[rid].body.clientId)) && !Holds(db, OpenEntry(0))
    ensures e == NewEntry(id, 0, reqs[rid].body, e.flags)
    ensures At(p', queue, db[id := e], With(reqs, rid, Done(Created(e)))) && p'.sent == p.sent
            && p'.resolved == p.resolved
  {
    var pc: Pc := InLookup;
    WithTwice(reqs, rid, pc, pc);
    p', pc := InStep(p, queue, db, reqs, rid, pc, id);
    p', pc := InStep(p', queue, db, reqs, rid, pc, id);
    p', pc := InStep(p', queue, db, reqs, rid, pc, id);
    p', e := InInserts(p', queue, db, reqs, rid, pc, id);
  }

  /** A close looks for itself, and is not there. */
  lemma OutLooks(p: Phone, queue: seq<Body>, db: Db, reqs: map<RequestId, Request>, rid: RequestId, spare: EntryId)
    returns (p': Phone)
    requires At(p, queue, db, reqs) && rid in reqs && reqs[rid].user == 0 && spare !in db
    requires reqs[rid].body == ReplayBody(THE_OUT) && reqs[rid].pc == OutLookup
    requires !Holds(db, ByCloseClientId(0, THE_OUT.clientId))
    ensures At(p', queue, db, With(reqs, rid, OutOpen)) && p'.sent == p.sent && p'.resolved == p.resolved
  {
    var next: Pc;
    p', next := Steps(p, queue, db, reqs, rid, None, spare);
  }

  /** User 0's personal shift, running, begun before the close was captured. */
  predicate Running(db: Db, e: Entry) {
    && e.id in db && db[e.id] == e && e.user == 0 && e.status == Open && e.employer == None
    && e.clockIn.loc == Point(0.0, 0.0) && e.clockIn.at < THE_OUT.fix.at
  }

  lemma OutStep(p: Phone, queue: seq<Body>, db: Db, reqs: map<RequestId, Request>, rid: RequestId, pc: Pc, e: Entry,
                spare: EntryId)
    returns (p': Phone, next: Pc)
    requires rid in reqs && reqs[rid].user == 0 && reqs[rid].body == ReplayBody(THE_OUT) && spare !in db
             && Running(db, e)
    requires At(p, queue, db, With(reqs, rid, pc))
    requires pc.OutOpen? || (pc.OutJudge? && pc.e == e && pc.at == e.clockIn.loc) || (pc.OutFlags? && pc.e == e)
    ensures At(p', queue, db, With(reqs, rid, next)) && p'.sent == p.sent && p'.resolved == p.resolved
    ensures pc.OutOpen? ==> next.OutJudge? && next.e == e && next.at == e.clockIn.loc
    ensures pc.OutJudge? ==> next.OutFlags? && next.e == e
    ensures pc.OutFlags? ==> next.OutUpdate? && next.e == e
  {
    assert Matches(OpenEntry(0), e);
    p', next := Steps(p, queue, db, With(reqs, rid, pc), rid, if pc.OutOpen? then Some(e) else None, spare);
    WithTwice(reqs, rid, pc, next);
  }

  lemma OutWrites(p: Phone, queue: seq<Body>, db: Db, reqs: map<RequestId, Request>, rid: RequestId, pc: Pc, e: Entry,
                  spare: EntryId)
    returns (p': Phone, d: Entry)
    requires rid in reqs && reqs[rid].user == 0 && reqs[rid].body == ReplayBody(THE_OUT) && spare !in db
             && Running(db, e)
    requires At(p, queue, db, With(reqs, rid, pc)) && pc.OutUpdate? && pc.e == e
    ensures ClosedBy(e, d) && At(p', queue, db[e.id := d], With(reqs, rid, Done(ClosedNow(d))))
    ensures p'.sent == p.sent && p'.resolved == p.resolved
  {
    d := Updated(e, Close(e.id, PointOf(reqs[rid].body.fix), reqs[rid].body.clientId, pc.flags));
    var next: Pc;
    p', next := Steps(p, queue, db, With(reqs, rid, pc), rid, None, spare);
    WithTwice(reqs, rid, pc, next);
  }

  predicate ClosedBy(e: Entry, d: Entry) {
    && d.id == e.id && d.user == e.user && d.clientId == e.clientId && d.clockIn == e.clockIn && d.status == Closed
    && d.closeClientId == Some(THE_OUT.clientId) && d.clockOut == Some(PointOf(THE_OUT.fix))
  }

  /** A close from its search for an open shift to its answer. */
  lemma OutCloses(p: Phone, queue: seq<Body>, db: Db, reqs: map<RequestId, Request>, rid: RequestId, e: Entry,
                  spare: EntryId)
    returns (p': Phone, d: Entry)
    requires rid in reqs && reqs[rid].user == 0 && reqs[rid].body == ReplayBody(THE_OUT) && spare !in db
             && Running(db, e)
    requires At(p, queue, db, reqs) && reqs[rid].pc == OutOpen
    ensures ClosedBy(e, d) && At(p', queue, db[e.id := d], With(reqs, rid, Done(ClosedNow(d))))
    ensures p'.sent == p.sent && p'.resolved == p.resolved
  {
    var pc: Pc := OutOpen;
    WithTwice(reqs, rid, pc, pc);
    p', pc := OutStep(p, queue, db, reqs, rid, pc, e, spare);
    p', pc := OutStep(p', queue, db, reqs, rid, pc, e, spare);
    p', pc := OutStep(p', queue, db, reqs, rid, pc, e, spare);
    p', d := OutWrites(p', queue, db, reqs, rid, pc, e, spare);
  }

  lemma StartsAt()
    ensures At(START, TAPS, map[], map[]) && START.sent == None
  {
    assert Drains(CFG, 0, START, [], START);
    assert Inv(START.server);
  }

  /** The first clock-in, sent, accepted, answered. */
  lemma FirstShift() returns (p: Phone, e: Entry, reqs: map<RequestId, Request>)
    ensures At(p, [THE_OUT, NEXT_IN], map[0 := e], reqs) && p.sent == None && reqs.Keys == {0}
    ensures e == NewEntry(0, 0, ReplayBody(FIRST_IN), e.flags)
  {
    StartsAt();
    p := Sends(START, TAPS, map[], map[], 0);
    reqs := map[][0 := p.server.reqs[0]];
    p, e := InRuns(p, TAPS, map[], reqs, 0, 0);
    reqs := With(reqs, 0, Done(Created(e)));
    p := Replies(p, TAPS, map[0 := e], reqs);
    assert TAPS[1..] == [THE_OUT, NEXT_IN];
  }

  predicate AtSearch(reqs: map<RequestId, Request>, rid: RequestId) {
    rid in reqs && reqs[rid].user == 0 && reqs[rid].body == ReplayBody(THE_OUT) && reqs[rid].pc == OutOpen
  }

  /** The close is sent and looks for itself: it is about to look for an open shift. */
  lemma SendsTheClose(p: Phone, e: Entry, reqs: map<RequestId, Request>, rid: RequestId)
    returns (p': Phone, reqs': map<RequestId, Request>)
    requires At(p, [THE_OUT, NEXT_IN], map[0 := e], reqs) && p.sent == None && rid !in reqs
    requires e == NewEntry(0, 0, ReplayBody(FIRST_IN), e.flags)
    ensures At(p', [THE_OUT, NEXT_IN], map[0 := e], reqs') && p'.sent == Some(rid)
    ensures AtSearch(reqs', rid) && reqs' == reqs[rid := reqs'[rid]]
  {
    var queue, db := [THE_OUT, NEXT_IN], map[0 := e];
    p' := Sends(p, queue, db, reqs, rid);
    reqs' := reqs[rid := p'.server.reqs[rid]];
    p' := OutLooks(p', queue, db, reqs', rid, 9);
    reqs' := With(reqs', rid, OutOpen);
  }

  /** It is given up on, and request 1 lives on. */
  lemma LeavesACopy(p: Phone, e: Entry, reqs: map<RequestId, Request>)
    returns (p': Phone, reqs': map<RequestId, Request>)
    requires At(p, [THE_OUT, NEXT_IN], map[0 := e], reqs) && p.sent == None && reqs.Keys == {0}
    requires e == NewEntry(0, 0, ReplayBody(FIRST_IN), e.flags)
    ensures At(p', [THE_OUT, NEXT_IN], map[0 := e], reqs') && p'.sent == None
    ensures reqs'.Keys == {0, 1} && AtSearch(reqs', 1)
  {
    p', reqs' := SendsTheClose(p, e, reqs, 1);
    p' := Goes(p', GiveUp);
  }

  /** The replay of the close, as request 2, closes its shift. */
  lemma ClosesItsShift(p: Phone, e: Entry, reqs: map<RequestId, Request>)
    returns (p': Phone, d: Entry, reqs': map<RequestId, Request>)
    requires At(p, [THE_OUT, NEXT_IN], map[0 := e], reqs) && p.sent == None
    requires reqs.Keys == {0, 1} && AtSearch(reqs, 1)
    requires e == NewEntry(0, 0, ReplayBody(FIRST_IN), e.flags)
    ensures At(p', [NEXT_IN], map[0 := d], reqs') && p'.sent == None && reqs'.Keys == {0, 1, 2} && AtSearch(reqs', 1)
    ensures ClosedBy(e, d)
  {
    p', reqs' := SendsTheClose(p, e, reqs, 2);
    p', d, reqs' := IsAnswered(p', e, reqs');
  }

  lemma IsAnswered(p: Phone, e: Entry, reqs: map<RequestId, Request>)
    returns (p': Phone, d: Entry, reqs': map<RequestId, Request>)
    requires At(p, [THE_OUT, NEXT_IN], map[0 := e], reqs) && p.sent == Some(2) && AtSearch(reqs, 2)
    requires e == NewEntry(0, 0, ReplayBody(FIRST_IN), e.flags)
    ensures At(p', [NEXT_IN], map[0 := d], reqs') && p'.sent == None && reqs' == With(reqs, 2, Done(ClosedNow(d)))
    ensures ClosedBy(e, d)
  {
    var queue, db := [THE_OUT, NEXT_IN], map[0 := e];
    p', d := OutCloses(p, queue, db, reqs, 2, e, 9);
    reqs' := With(reqs, 2, Done(ClosedNow(d)));
    assert db[0 := d] == map[0 := d];
    p' := Replies(p', queue, map[0 := d], reqs');
    assert queue[1..] == [NEXT_IN];
  }

  /** The next clock-in opens the next shift, and the queue is empty. */
  lemma NextShift(p: Phone, d: Entry, reqs: map<RequestId, Request>)
    returns (p': Phone, e: Entry, reqs': map<RequestId, Request>)
    requires At(p, [NEXT_IN], map[0 := d], reqs) && p.sent == None && reqs.Keys == {0, 1, 2} && AtSearch(reqs, 1)
    requires d.user == 0 && d.clientId == "a" && d.status == Closed
    ensures At(p', [], map[0 := d, 1 := e], reqs') && AtSearch(reqs', 1)
    ensures e == NewEntry(1, 0, ReplayBody(NEXT_IN), e.flags)
  {
    var queue, db := [NEXT_IN], map[0 := d];
    p' := Sends(p, queue, db, reqs, 3);
    reqs' := reqs[3 := p'.server.reqs[3]];
    p', e := InRuns(p', queue, db, reqs', 3, 1);
    reqs' := With(reqs', 3, Done(Created(e)));
    assert db[1 := e] == map[0 := d, 1 := e];
    p' := Replies(p', queue, map[0 := d, 1 := e], reqs');
    assert queue[1..] == [];
  }

  /** Two shifts closed where in-order delivery leaves the second running. */
  lemma NotDelivered(db: Db, d: Entry, e: Entry)
    requires db == map[0 := d, 1 := e] && d.clientId == "a" && e.user == 0 && e.clientId == "c"
    requires e.status == Closed && e.closeClientId.Some? && e.clockOut.Some?
    ensures ClockTaps(TAPS) && ShiftsOf(db, 0) != Deliver(map[], TAPS)
  {
    assert Alternates(TAPS, 0) && Alternates(TAPS, 1) && Alternates(TAPS, 2);
    assert db[1].clientId in ClientIdsOf(db, 0);
    var id := EntryFor(db, 0, "c");
    assert id == 1 && ShiftsOf(db, 0)["c"] == ShiftOf(e);
    assert "c" in Deliver(map[], TAPS) && Deliver(map[], TAPS)["c"].end == None;
  }

  /**
   * The three taps, drained without a refusal: the late copy of the close goes on once the queue is empty and
   * closes the second shift, which in-order delivery leaves running.
   */
  lemma SomeDrainDiverges() returns (moves: seq<Move>, p: Phone)
    ensures Drains(CFG, 0, START, moves, p) && p.queue == [] && |p.server.hist| > 0
    ensures ClockTaps(TAPS) && ShiftsOf(Now(p.server).db, 0) != Deliver(map[], TAPS)
    ensures TAPS[2].fix.at < TAPS[1].fix.at
  {
    var e, d, f, g: Entry;
    var reqs: map<RequestId, Request>;
    p, e, reqs := FirstShift();
    p, reqs := LeavesACopy(p, e, reqs);
    p, d, reqs := ClosesItsShift(p, e, reqs);
    p, f, reqs := NextShift(p, d, reqs);
    var db := map[0 := d, 1 := f];
    p, g := OutCloses(p, [], db, reqs, 1, f, 9);
    assert db[1 := g] == map[0 := d, 1 := g];
    NotDelivered(Now(p.server).db, d, g);
    moves :| Drains(CFG, 0, START, moves, p);
  }
}
