/**
 * Every clock answer is true of some instant inside its request, under any interleaving
 * (backend/internal/entry/handler.go clockIn, clockOut, closedOrConflict, Assign).
 */
module AnswersAreTrue {
  import opened Options
  import opened Geo
  import opened Entries
  import opened Requests
  import opened Lifecycle

  /** Properties of one instant, or of two adjacent ones, that answers speak of. */
  ghost predicate Recorded1(i: Instant, e: Entry) {
    e.id in i.db && i.db[e.id] == e
  }

  ghost predicate Blocked(i: Instant, u: UserId, c: ClientId) {
    Holds(i.db, ByClientId(u, c)) || Holds(i.db, OpenEntry(u))
  }

  ghost predicate NothingOpen(i: Instant, u: UserId) {
    !Holds(i.db, OpenEntry(u))
  }

  ghost predicate OtherOpen(i: Instant, u: UserId, c: ClientId) {
    Holds(i.db, OpenEntry(u)) && !Holds(i.db, ByClientId(u, c))
  }

  ghost predicate NothingToClose(i: Instant, u: UserId, c: ClientId) {
    !Holds(i.db, OpenEntry(u)) && !Holds(i.db, ByCloseClientId(u, c))
  }

  ghost predicate OpensHere(a: Instant, b: Instant, r: Request, e: Entry) {
    && r.body.ClockIn? && e == NewEntry(e.id, r.user, r.body, e.flags)
    && !Holds(a.db, ByClientId(r.user, r.body.clientId)) && !Holds(a.db, OpenEntry(r.user))
    && e.id !in a.db && b.db == a.db[e.id := e]
  }

  ghost predicate ClosesHere(a: Instant, b: Instant, r: Request, e: Entry) {
    && r.body.ClockOut?
    && e.id in a.db && a.db[e.id].user == r.user && a.db[e.id].status == Open
    && e.closeClientId == Some(r.body.clientId) && e.clockOut == Some(PointOf(r.body.fix)) && e.status == Closed
    && e.id in b.db && Evolves(a.db[e.id], b.db[e.id])
    && b.db[e.id].closeClientId == e.closeClientId && b.db[e.id].clockOut == e.clockOut && b.db[e.id].status == Closed
  }

  ghost predicate BooksHere(a: Instant, b: Instant, r: Request, e: Entry) {
    && r.body.AssignTo? && e.id == r.body.entry
    && e.id in a.db && a.db[e.id].user == r.user && a.db[e.id].status == Closed && a.db[e.id].employer == None
    && e.id in b.db && b.db[e.id].employer == e.employer == Some(r.body.to) && b.db[e.id].verified == e.verified
  }

  ghost predicate OpensAt(hist: seq<Instant>, k: nat, r: Request, e: Entry)
    requires k + 1 < |hist|
  {
    OpensHere(hist[k], hist[k + 1], r, e)
  }

  ghost predicate ClosesAt(hist: seq<Instant>, k: nat, r: Request, e: Entry)
    requires k + 1 < |hist|
  {
    ClosesHere(hist[k], hist[k + 1], r, e)
  }

  ghost predicate BooksAt(hist: seq<Instant>, k: nat, r: Request, e: Entry)
    requires k + 1 < |hist|
  {
    BooksHere(hist[k], hist[k + 1], r, e)
  }

  ghost predicate ReplayOf(i: Instant, r: Request, e: Entry) {
    && Recorded1(i, e)
    && match r.body
       case ClockIn(c, _, _) => Matches(ByClientId(r.user, c), e)
       case ClockOut(c, _) => Matches(ByCloseClientId(r.user, c), e)
       case _ => false
  }

  /** What the client may conclude from the answer: an instant between arrival and reply. */
  ghost predicate AnswerTrue(hist: seq<Instant>, r: Request, a: Answer) {
    match a
    case Created(e) => exists k :: r.born <= k < |hist| - 1 && OpensAt(hist, k, r, e)
    case ClosedNow(e) => exists k :: r.born <= k < |hist| - 1 && ClosesAt(hist, k, r, e)
    case Assigned(e) => exists k :: r.born <= k < |hist| - 1 && BooksAt(hist, k, r, e)
    case Replayed(e) => exists k :: r.born <= k < |hist| && ReplayOf(hist[k], r, e)
    case Refused(code) =>
      && (code == OpenEntryExists ==>
            && r.body.ClockIn?
            && exists k :: r.born <= k < |hist| && OtherOpen(hist[k], r.user, r.body.clientId))
      && (code == NoOpenEntry ==>
            && r.body.ClockOut?
            && exists k :: r.born <= k < |hist| && NothingToClose(hist[k], r.user, r.body.clientId))
    case Accepted => true
    case ServerError => true
  }

  /** The entry in a local was read during this request. */
  ghost predicate Known(hist: seq<Instant>, r: Request, e: Entry) {
    e.user == r.user && exists k :: r.born <= k < |hist| && Recorded1(hist[k], e)
  }

  /** What a request knows at each program point. */
  ghost predicate LocalsOk(hist: seq<Instant>, r: Request) {
    && r.born < |hist| && PcFits(r.body, r.pc)
    && match r.pc
       case OutAnchor(e) => Known(hist, r, e) && e.status == Open && e.clockIn.at < r.body.fix.at
       case OutJudge(e, _, _) => Known(hist, r, e) && e.status == Open && e.clockIn.at < r.body.fix.at
       case OutFlags(e, _) => Known(hist, r, e) && e.status == Open && e.clockIn.at < r.body.fix.at
       case OutUpdate(e, _, _) => Known(hist, r, e) && e.status == Open && e.clockIn.at < r.body.fix.at
       case AsMember(e) => Known(hist, r, e) && e.status == Closed && e.id == r.body.entry
       case AsAnchor(e) => Known(hist, r, e) && e.status == Closed && e.id == r.body.entry
       case AsWrite(e, _, _) => Known(hist, r, e) && e.status == Closed && e.id == r.body.entry
       case PgTouch(e) => Known(hist, r, e)
       case PgFlag(e) => Known(hist, r, e)
       case InReread => exists k :: r.born <= k < |hist| && Blocked(hist[k], r.user, r.body.clientId)
       case OutReread => exists k :: r.born <= k < |hist| && NothingOpen(hist[k], r.user)
       case Done(a) => AnswerTrue(hist, r, a)
       case _ => true
  }

  ghost predicate Inv(w: World) {
    && GoodHist(w.hist) && ValidWorld(w)
    && forall rid {:trigger LocalsOk(w.hist, w.reqs[rid])} :: rid in w.reqs ==> LocalsOk(w.hist, w.reqs[rid])
  }

  /** Later instants take nothing away from what a request already knows or has answered. */
  lemma LocalsStable(hist: seq<Instant>, x: Instant, r: Request)
    requires LocalsOk(hist, r)
    ensures LocalsOk(hist + [x], r)
  {
    var more := hist + [x];
    assert forall k :: 0 <= k < |hist| ==> more[k] == hist[k];
    if r.pc.Done? && (r.pc.answer.Created? || r.pc.answer.ClosedNow? || r.pc.answer.Assigned?) {
      WriteStable(hist, x, r, r.pc.answer);
    }
  }

  lemma WriteStable(hist: seq<Instant>, x: Instant, r: Request, a: Answer)
    requires AnswerTrue(hist, r, a) && (a.Created? || a.ClosedNow? || a.Assigned?)
    ensures AnswerTrue(hist + [x], r, a)
  {
    var more := hist + [x];
    if a.Created? {
      var k :| r.born <= k < |hist| - 1 && OpensAt(hist, k, r, a.e);
      assert OpensAt(more, k, r, a.e);
    } else if a.ClosedNow? {
      var k :| r.born <= k < |hist| - 1 && ClosesAt(hist, k, r, a.e);
      assert ClosesAt(more, k, r, a.e);
    } else {
      var k :| r.born <= k < |hist| - 1 && BooksAt(hist, k, r, a.e);
      assert BooksAt(more, k, r, a.e);
    }
  }

  /** Every command a handler issues is legal where it is issued. */
  lemma CommandsAreLegal(w: World, rid: RequestId, newId: EntryId)
    requires Inv(w) && rid in w.reqs && CommandOf(w.reqs[rid], newId).Some?
    ensures Legal(Now(w).db, CommandOf(w.reqs[rid], newId).value)
  {
    var r := w.reqs[rid];
    assert LocalsOk(w.hist, r);
    if r.pc.OutUpdate? || r.pc.AsWrite? {
      SnapshotEvolved(w.hist, r, r.pc.e);
    }
  }

  /** A document read earlier is still there, and has only evolved since. */
  lemma SnapshotEvolved(hist: seq<Instant>, r: Request, e: Entry)
    requires GoodHist(hist) && Known(hist, r, e)
    ensures var i := hist[|hist| - 1]; e.id in i.db && Evolves(e, i.db[e.id])
  {
    var k :| r.born <= k < |hist| && Recorded1(hist[k], e);
    History(hist, k, |hist| - 1);
  }

  ghost predicate After(cfg: Config, hist: seq<Instant>, r: Request, found: Option<Entry>, newId: EntryId, r': Request,
                        more: seq<Instant>)
  {
    && LocalsOk(hist, r) && !r.pc.Done?
    && (QueryOf(r).Some? ==> Answers(hist[|hist| - 1].db, QueryOf(r).value, found))
    && newId !in hist[|hist| - 1].db
    && r' == r.(pc := NextPc(cfg, hist[|hist| - 1], |hist| - 1, r, found, newId))
    && more == hist + [hist[|hist| - 1].(db := StepDb(hist[|hist| - 1], r, newId))]
  }

  lemma ClockInStep(cfg: Config, hist: seq<Instant>, r: Request, found: Option<Entry>, newId: EntryId, r': Request,
                    more: seq<Instant>)
    requires After(cfg, hist, r, found, newId, r', more) && r.body.ClockIn? && GoodHist(hist)
    ensures LocalsOk(more, r')
  {
    var here := |hist| - 1;
    var i := hist[here];
    assert forall k :: 0 <= k < |hist| ==> more[k] == hist[k];
    match r.pc {
      case InInsert(_, _) =>
        if r'.pc.Done? {
          assert OpensAt(more, here, r', r'.pc.answer.e);
        } else {
          assert Blocked(more[here], r.user, r.body.clientId);
        }
      case InReread =>
        if found.Some? {
          assert ReplayOf(more[here], r', found.value);
        } else {
          var k :| r.born <= k < |hist| && Blocked(hist[k], r.user, r.body.clientId);
          IdsArePermanent(hist, k, here, ByClientId(r.user, r.body.clientId));
          assert OtherOpen(more[k], r.user, r.body.clientId);
        }
      case InLookup =>
        if found.Some? {
          assert ReplayOf(more[here], r', found.value);
        }
      case _ =>
    }
  }

  /** The guarded update matched: this request closed the shift it had read. */
  lemma CloseTakes(hist: seq<Instant>, r: Request, e: Entry, flags: set<Flag>, next: Instant)
    requires GoodHist(hist) && Known(hist, r, e) && r.body.ClockOut? && e.clockIn.at < r.body.fix.at
    requires var cmd := Close(e.id, PointOf(r.body.fix), r.body.clientId, flags);
             Takes(hist[|hist| - 1].db, cmd) && next == hist[|hist| - 1].(db := Exec(hist[|hist| - 1].db, cmd))
    ensures ClosesHere(hist[|hist| - 1], next, r, Updated(e, Close(e.id, PointOf(r.body.fix), r.body.clientId, flags)))
  {
    var cmd := Close(e.id, PointOf(r.body.fix), r.body.clientId, flags);
    SnapshotEvolved(hist, r, e);
    GoodAt(hist, |hist| - 1);
    UpdateEvolves(hist[|hist| - 1].db[e.id], cmd);
  }

  /** It did not: another request closed the shift, and in between nothing was open. */
  lemma CloseMisses(hist: seq<Instant>, r: Request, e: Entry) returns (gap: nat)
    requires GoodHist(hist) && Known(hist, r, e) && e.status == Open
    requires e.id in hist[|hist| - 1].db ==> hist[|hist| - 1].db[e.id].status == Closed
    ensures r.born <= gap < |hist| && NothingOpen(hist[gap], r.user)
  {
    SnapshotEvolved(hist, r, e);
    var k :| r.born <= k < |hist| && Recorded1(hist[k], e);
    gap := GapBetweenShifts(hist, k, |hist| - 1, e.id);
  }

  lemma StillKnown(hist: seq<Instant>, x: Instant, r: Request, r': Request, e: Entry)
    requires Known(hist, r, e) && r'.user == r.user && r'.born == r.born
    ensures Known(hist + [x], r', e)
  {
    var k :| r.born <= k < |hist| && Recorded1(hist[k], e);
    assert Recorded1((hist + [x])[k], e);
  }

  lemma ClockOutReads(cfg: Config, hist: seq<Instant>, r: Request, found: Option<Entry>, newId: EntryId, r': Request,
                      more: seq<Instant>)
    requires After(cfg, hist, r, found, newId, r', more) && r.body.ClockOut? && GoodHist(hist)
    requires r.pc.OutLookup? || r.pc.OutOpen? || r.pc.OutReread?
    ensures LocalsOk(more, r')
  {
    var here := |hist| - 1;
    assert forall k :: 0 <= k < |hist| ==> more[k] == hist[k];
    if r.pc.OutOpen? {
      if found.Some? {
        assert Recorded1(more[here], found.value);
      } else {
        assert NothingOpen(more[here], r.user);
      }
    } else if found.Some? {
      assert ReplayOf(more[here], r', found.value);
    } else if r.pc.OutReread? {
      var k :| r.born <= k < |hist| && NothingOpen(hist[k], r.user);
      IdsArePermanent(hist, k, here, ByCloseClientId(r.user, r.body.clientId));
      assert NothingToClose(more[k], r.user, r.body.clientId);
    }
  }

  lemma ClockOutActs(cfg: Config, hist: seq<Instant>, r: Request, found: Option<Entry>, newId: EntryId, r': Request,
                     more: seq<Instant>)
    requires After(cfg, hist, r, found, newId, r', more) && r.body.ClockOut? && GoodHist(hist)
    requires r.pc.OutAnchor? || r.pc.OutJudge? || r.pc.OutFlags? || r.pc.OutUpdate?
    ensures LocalsOk(more, r')
  {
    var here := |hist| - 1;
    var e := r.pc.e;
    StillKnown(hist, more[here + 1], r, r', e);
    if r.pc.OutUpdate? {
      if r'.pc.Done? {
        CloseTakes(hist, r, e, r.pc.flags, more[here + 1]);
        assert more[here] == hist[here];
        assert ClosesAt(more, here, r', r'.pc.answer.e);
      } else {
        SnapshotEvolved(hist, r, e);
        var gap := CloseMisses(hist, r, e);
        assert more[gap] == hist[gap];
        assert NothingOpen(more[gap], r.user);
      }
    }
  }

  lemma OtherReads(cfg: Config, hist: seq<Instant>, r: Request, found: Option<Entry>, newId: EntryId, r': Request,
                   more: seq<Instant>)
    requires After(cfg, hist, r, found, newId, r', more) && (r.pc.AsRead? || r.pc.PgOpen?)
    ensures LocalsOk(more, r')
  {
    if found.Some? {
      assert more[|hist| - 1] == hist[|hist| - 1];
      assert Recorded1(more[|hist| - 1], found.value);
    }
  }

  lemma OtherActs(cfg: Config, hist: seq<Instant>, r: Request, found: Option<Entry>, newId: EntryId, r': Request,
                  more: seq<Instant>)
    requires After(cfg, hist, r, found, newId, r', more) && GoodHist(hist)
    requires r.pc.AsMember? || r.pc.AsAnchor? || r.pc.AsWrite? || r.pc.PgTouch? || r.pc.PgFlag?
    ensures LocalsOk(more, r')
  {
    var here := |hist| - 1;
    var e := r.pc.e;
    StillKnown(hist, more[here + 1], r, r', e);
    if r.pc.AsWrite? && r'.pc.answer.Assigned? {
      SnapshotEvolved(hist, r, e);
      assert more[here] == hist[here];
      assert BooksAt(more, here, r', r'.pc.answer.e);
    }
  }

  /** One step keeps the invariant of the request that took it. */
  lemma StepKeepsLocals(cfg: Config, hist: seq<Instant>, r: Request, found: Option<Entry>, newId: EntryId, r': Request,
                        more: seq<Instant>)
    requires After(cfg, hist, r, found, newId, r', more) && GoodHist(hist)
    ensures LocalsOk(more, r')
  {
    match r.body {
      case ClockIn(_, _, _) => ClockInStep(cfg, hist, r, found, newId, r', more);
      case ClockOut(_, _) =>
        if r.pc.OutLookup? || r.pc.OutOpen? || r.pc.OutReread? {
          ClockOutReads(cfg, hist, r, found, newId, r', more);
        } else {
          ClockOutActs(cfg, hist, r, found, newId, r', more);
        }
      case _ =>
        if r.pc.AsRead? || r.pc.PgOpen? {
          OtherReads(cfg, hist, r, found, newId, r', more);
        } else {
          OtherActs(cfg, hist, r, found, newId, r', more);
        }
    }
  }

  lemma HistGrows(hist: seq<Instant>, x: Instant)
    requires GoodHist(hist) && InstantStep(hist[|hist| - 1], x)
    ensures GoodHist(hist + [x])
  {
    var more := hist + [x];
    forall k: nat | k + 1 < |more|
      ensures StepAt(more, k)
    {
      if k + 1 < |hist| {
        assert StepAt(hist, k);
      }
    }
  }

  lemma SameDbSteps(hist: seq<Instant>)
    requires GoodHist(hist)
    ensures var db := hist[|hist| - 1].db; DbStep(db, db)
  {
    GoodAt(hist, |hist| - 1);
  }

  /** The new instant every event appends. */
  lemma EventKeepsHist(cfg: Config, w: World, ev: Event)
    requires Inv(w) && Enabled(w, ev)
    ensures GoodHist(Apply(cfg, w, ev).hist)
  {
    var i := Now(w);
    SameDbSteps(w.hist);
    if ev.Step? {
      var r := w.reqs[ev.rid];
      var cmd := CommandOf(r, ev.newId);
      if cmd.Some? {
        CommandsAreLegal(w, ev.rid, ev.newId);
        ExecIsStep(i.db, cmd.value);
      }
      HistGrows(w.hist, i.(db := StepDb(i, r, ev.newId)));
    } else {
      HistGrows(w.hist, Apply(cfg, w, ev).hist[|w.hist|]);
    }
  }

  /** The invariant is inductive over every event of every interleaving. */
  lemma EventKeepsInv(cfg: Config, w: World, ev: Event)
    requires Inv(w) && Enabled(w, ev)
    ensures Inv(Apply(cfg, w, ev))
  {
    var w' := Apply(cfg, w, ev);
    EventKeepsHist(cfg, w, ev);
    forall rid | rid in w'.reqs
      ensures LocalsOk(w'.hist, w'.reqs[rid])
    {
      if ev.Step? && rid == ev.rid {
        StepKeepsLocals(cfg, w.hist, w.reqs[rid], ev.found, ev.newId, w'.reqs[rid], w'.hist);
      } else if rid in w.reqs {
        LocalsStable(w.hist, w'.hist[|w.hist|], w.reqs[rid]);
      }
    }
  }

  lemma {:induction false} RunKeepsInv(cfg: Config, w: World, evs: seq<Event>, w': World)
    requires Inv(w) && Runs(cfg, w, evs, w')
    ensures Inv(w')
    ensures |w.hist| <= |w'.hist| && w'.hist[..|w.hist|] == w.hist
    decreases |evs|
  {
    if evs != [] {
      EventKeepsInv(cfg, w, evs[0]);
      RunKeepsInv(cfg, Apply(cfg, w, evs[0]), evs[1..], w');
      var mid := Apply(cfg, w, evs[0]).hist;
      assert mid[..|w.hist|] == w.hist;
      assert w'.hist[..|mid|][..|w.hist|] == w'.hist[..|w.hist|];
    }
  }

  /** From an empty collection, every answer ever given by any run was true while its request ran. */
  lemma EveryAnswerIsTrue(cfg: Config, w0: World, evs: seq<Event>, w: World, rid: RequestId)
    requires Initial(w0) && Runs(cfg, w0, evs, w)
    requires rid in w.reqs && w.reqs[rid].pc.Done?
    ensures AnswerTrue(w.hist, w.reqs[rid], w.reqs[rid].pc.answer)
  {
    assert Inv(w0);
    RunKeepsInv(cfg, w0, evs, w);
    assert LocalsOk(w.hist, w.reqs[rid]);
  }

  /**
   * The life of every document over any run, from any reachable world: it keeps its keys and its
   * clock-in, closes at most once and strictly after it opened, is booked at most once together
   * with its verdict and only when closed, and its flags and last ping only grow.
   */
  lemma EntryLifecycle(cfg: Config, w0: World, before: seq<Event>, w: World, evs: seq<Event>, w': World)
    requires Initial(w0) && Runs(cfg, w0, before, w) && Runs(cfg, w, evs, w')
    ensures |w.hist| > 0 && |w'.hist| > 0 && GoodDb(Now(w).db) && GoodDb(Now(w').db)
    ensures forall id :: id in Now(w).db ==> id in Now(w').db && Evolves(Now(w).db[id], Now(w').db[id])
    ensures forall id {:trigger Now(w').db[id]} :: id in Now(w').db && Now(w').db[id].status == Closed ==>
              Now(w').db[id].clockOut.Some? && Now(w').db[id].clockIn.at < Now(w').db[id].clockOut.value.at
  {
    assert Inv(w0);
    RunKeepsInv(cfg, w0, before, w);
    RunKeepsInv(cfg, w, evs, w');
    assert w'.hist[|w.hist| - 1] == w'.hist[..|w.hist|][|w.hist| - 1] == Now(w);
    History(w'.hist, |w.hist| - 1, |w'.hist| - 1);
    GoodAt(w.hist, |w.hist| - 1);
    GoodAt(w'.hist, |w'.hist| - 1);
  }
}
