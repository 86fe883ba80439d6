/**
 * Every clock answer told in full against the call as it was submitted (backend/internal/entry/handler.go,
 * store.go): whose shift, under which keys, with which point field by field, with which flags, and what the
 * collection holds of it afterwards.
 */
module AnswersInFull {
  import opened Options
  import opened Geo
  import opened Entries
  import opened Requests
  import opened Lifecycle
  import opened AnswersAreTrue
  import opened PingsLeaveMarks

  /* ---- the call and its request ---- */

  lemma {:induction false} RequestStays(cfg: Config, w: World, evs: seq<Event>, w': World, rid: RequestId)
    requires Runs(cfg, w, evs, w') && rid in w.reqs
    ensures rid in w'.reqs && w'.reqs[rid] == w.reqs[rid].(pc := w'.reqs[rid].pc)
    decreases |evs|
  {
    if evs != [] {
      RequestStays(cfg, Apply(cfg, w, evs[0]), evs[1..], w', rid);
    }
  }

  /** A request is for ever the call that made it, as it arrived, by whom and when. */
  lemma {:induction false} Remembered(cfg: Config, w: World, evs: seq<Event>, w': World, k: nat, rid: RequestId,
                                      u: UserId, b: Body)
    requires Runs(cfg, w, evs, w') && |w.hist| > 0 && k < |evs| && evs[k] == Submit(rid, u, b)
    ensures rid in w'.reqs && w'.reqs[rid] == Request(u, Arrived(b), w'.reqs[rid].pc, |w.hist| - 1 + k)
    decreases |evs|
  {
    var next := Apply(cfg, w, evs[0]);
    if k == 0 {
      RequestStays(cfg, next, evs[1..], w', rid);
    } else {
      Remembered(cfg, next, evs[1..], w', k - 1, rid, u, b);
    }
  }

  /* ---- flags ---- */

  ghost predicate FlagsAt(cfg: Config, i: Instant, f: Fix, flags: set<Flag>) {
    flags == if f.queued && i.now - f.at > cfg.maxClockSkew then {Backdated} else {}
  }

  /** The flags of a fix are those of some instant inside the request. */
  ghost predicate Flagged(cfg: Config, hist: seq<Instant>, born: nat, f: Fix, flags: set<Flag>) {
    exists j :: born <= j < |hist| && FlagsAt(cfg, hist[j], f, flags)
  }

  /** A close adds its own flags to those of the shift it read. */
  ghost predicate AddsFlags(cfg: Config, hist: seq<Instant>, r: Request, e: Entry)
    requires r.body.ClockOut?
  {
    exists read, flags ::
      Known(hist, r, read) && Flagged(cfg, hist, r.born, r.body.fix, flags) && e.flags == read.flags + flags
      && e.id == read.id
  }

  ghost predicate FlagsTold(cfg: Config, hist: seq<Instant>, r: Request) {
    PcFits(r.body, r.pc) &&
    match r.pc
    case InInsert(_, flags) => Flagged(cfg, hist, r.born, r.body.fix, flags)
    case OutUpdate(_, _, flags) => Flagged(cfg, hist, r.born, r.body.fix, flags)
    case Done(Created(e)) => r.body.ClockIn? && Flagged(cfg, hist, r.born, r.body.fix, e.flags)
    case Done(ClosedNow(e)) => r.body.ClockOut? && AddsFlags(cfg, hist, r, e)
    case _ => true
  }

  lemma FlaggedStays(cfg: Config, hist: seq<Instant>, x: Instant, born: nat, f: Fix, flags: set<Flag>)
    requires Flagged(cfg, hist, born, f, flags)
    ensures Flagged(cfg, hist + [x], born, f, flags)
  {
    var j :| born <= j < |hist| && FlagsAt(cfg, hist[j], f, flags);
    assert FlagsAt(cfg, (hist + [x])[j], f, flags);
  }

  lemma AddsStays(cfg: Config, hist: seq<Instant>, x: Instant, r: Request, e: Entry)
    requires r.body.ClockOut? && AddsFlags(cfg, hist, r, e)
    ensures AddsFlags(cfg, hist + [x], r, e)
  {
    var read, flags :| Known(hist, r, read) && Flagged(cfg, hist, r.born, r.body.fix, flags)
      && e.flags == read.flags + flags && e.id == read.id;
    StillKnown(hist, x, r, r, read);
    FlaggedStays(cfg, hist, x, r.born, r.body.fix, flags);
  }

  lemma ToldStays(cfg: Config, hist: seq<Instant>, x: Instant, r: Request)
    requires FlagsTold(cfg, hist, r)
    ensures FlagsTold(cfg, hist + [x], r)
  {
    match r.pc
    case InInsert(_, flags) => FlaggedStays(cfg, hist, x, r.born, r.body.fix, flags);
    case OutUpdate(_, _, flags) => FlaggedStays(cfg, hist, x, r.born, r.body.fix, flags);
    case Done(Created(e)) => FlaggedStays(cfg, hist, x, r.born, r.body.fix, e.flags);
    case Done(ClosedNow(e)) => AddsStays(cfg, hist, x, r, e);
    case _ =>
  }

  lemma FlagsNow(cfg: Config, hist: seq<Instant>, r: Request)
    requires ValidConfig(cfg) && r.born < |hist| && (r.body.ClockIn? || r.body.ClockOut?)
    ensures Flagged(cfg, hist, r.born, r.body.fix, BackdatedFlags(cfg, hist[|hist| - 1].now, r.body.fix))
  {
    assert FlagsAt(cfg, hist[|hist| - 1], r.body.fix, BackdatedFlags(cfg, hist[|hist| - 1].now, r.body.fix));
  }

  /** One step, as taken at the last instant of hist. */
  lemma StepTold(cfg: Config, hist: seq<Instant>, r: Request, found: Option<Entry>, newId: EntryId, r': Request,
                 more: seq<Instant>)
    requires ValidConfig(cfg) && After(cfg, hist, r, found, newId, r', more) && FlagsTold(cfg, hist, r)
    requires more == hist + [more[|hist|]]
    ensures FlagsTold(cfg, more, r')
  {
    if r.pc.InFlags? || r.pc.OutFlags? {
      FlagsNow(cfg, hist, r);
    } else if r.pc.OutUpdate? && r'.pc.Done? {
      assert AddsFlags(cfg, hist, r', r'.pc.answer.e) by {
        assert Known(hist, r', r.pc.e) && Flagged(cfg, hist, r'.born, r'.body.fix, r.pc.flags);
      }
    }
    ToldStays(cfg, hist, more[|hist|], r');
  }

  ghost predicate AllTold(cfg: Config, w: World) {
    forall rid {:trigger FlagsTold(cfg, w.hist, w.reqs[rid])} :: rid in w.reqs ==>
      FlagsTold(cfg, w.hist, w.reqs[rid])
  }

  lemma EventKeepsTold(cfg: Config, w: World, ev: Event, w': World)
    requires ValidConfig(cfg) && Inv(w) && AllTold(cfg, w) && Enabled(w, ev) && w' == Apply(cfg, w, ev)
    ensures Inv(w') && AllTold(cfg, w')
  {
    EventKeepsInv(cfg, w, ev);
    assert w'.hist == w.hist + [w'.hist[|w.hist|]];
    forall rid | rid in w'.reqs
      ensures FlagsTold(cfg, w'.hist, w'.reqs[rid])
    {
      if rid in w.reqs {
        assert FlagsTold(cfg, w.hist, w.reqs[rid]);
        if ev.Step? && rid == ev.rid {
          StepSpelt(cfg, w, rid, ev.found, ev.newId, w');
          StepTold(cfg, w.hist, w.reqs[rid], ev.found, ev.newId, w'.reqs[rid], w'.hist);
        } else {
          Untouched(cfg, w, ev, w', rid);
          ToldStays(cfg, w.hist, w'.hist[|w.hist|], w'.reqs[rid]);
        }
      }
    }
  }

  lemma {:induction false} RunKeepsTold(cfg: Config, w: World, evs: seq<Event>, w': World)
    requires ValidConfig(cfg) && Inv(w) && AllTold(cfg, w) && Runs(cfg, w, evs, w')
    ensures Inv(w') && AllTold(cfg, w')
    decreases |evs|
  {
    if evs != [] {
      EventKeepsTold(cfg, w, evs[0], Apply(cfg, w, evs[0]));
      RunKeepsTold(cfg, Apply(cfg, w, evs[0]), evs[1..], w');
    }
  }

  /** What a call and its finished request are to each other. */
  lemma Finished(cfg: Config, w0: World, evs: seq<Event>, w: World, k: nat, rid: RequestId, u: UserId, b: Body)
    requires ValidConfig(cfg) && Initial(w0) && Runs(cfg, w0, evs, w) && k < |evs| && evs[k] == Submit(rid, u, b)
    ensures rid in w.reqs && w.reqs[rid] == Request(u, Arrived(b), w.reqs[rid].pc, k)
    ensures Inv(w) && FlagsTold(cfg, w.hist, w.reqs[rid])
    ensures w.reqs[rid].pc.Done? ==> AnswerTrue(w.hist, w.reqs[rid], w.reqs[rid].pc.answer)
  {
    Remembered(cfg, w0, evs, w, k, rid, u, b);
    assert Inv(w0);
    RunKeepsTold(cfg, w0, evs, w);
    assert LocalsOk(w.hist, w.reqs[rid]);
  }

  /* ---- the answers ---- */

  /** Nobody holds a shift of this user under this key, nor an open one. */
  ghost predicate FreeToOpen(db: Db, u: UserId, c: ClientId) {
    forall id :: id in db && db[id].user == u ==> db[id].clientId != c && db[id].status == Closed
  }

  /**
   * A clock-in that created its shift, submitted as event k: at some instant `at` after it there was neither
   * a shift under its key nor an open one, and the next instant has this one document more. The entry is the
   * caller's, under the caller's key and employer, open and verified, its point the fix sent with the time cut
   * to the millisecond, flagged exactly as a queued fix older than the skew is at some instant of the request;
   * and that document is in the collection for good, with the same owner, key and point.
   */
  lemma CreatedInFull(cfg: Config, w0: World, evs: seq<Event>, w: World, k: nat, rid: RequestId, u: UserId,
                      c: ClientId, emp: Option<EmployerId>, f: Fix)
    returns (at: nat, seen: nat)
    requires ValidConfig(cfg) && Initial(w0) && Runs(cfg, w0, evs, w)
    requires k < |evs| && evs[k] == Submit(rid, u, ClockIn(c, emp, f))
    requires rid in w.reqs && w.reqs[rid].pc.Done? && w.reqs[rid].pc.answer.Created?
    ensures k <= at && at + 1 < |w.hist| && FreeToOpen(w.hist[at].db, u, c)
    ensures var e := w.reqs[rid].pc.answer.e;
            && e.id !in w.hist[at].db && w.hist[at + 1].db == w.hist[at].db[e.id := e]
            && e.user == u && e.clientId == c && e.employer == emp && e.status == Open && e.verified
            && e.closeClientId == None && e.clockOut == None && e.lastPing == None
            && e.clockIn.at == f.at - f.at % 1_000_000 && e.clockIn.loc == f.loc
            && e.clockIn.accuracy == f.accuracy && e.clockIn.mocked == f.mocked
    ensures k <= seen < |w.hist|
    ensures var late := w.hist[seen].now - (f.at - f.at % 1_000_000) > cfg.maxClockSkew;
            w.reqs[rid].pc.answer.e.flags == if f.queued && late then {Backdated} else {}
    ensures var id, db := w.reqs[rid].pc.answer.e.id, Now(w).db;
            && id in db && db[id].user == u && db[id].clientId == c
            && db[id].clockIn.at == f.at - f.at % 1_000_000 && db[id].clockIn.loc == f.loc
            && db[id].clockIn.accuracy == f.accuracy && db[id].clockIn.mocked == f.mocked
  {
    Finished(cfg, w0, evs, w, k, rid, u, ClockIn(c, emp, f));
    at := Opened(w.hist, w.reqs[rid], w.reqs[rid].pc.answer.e);
    seen := FlagsSeen(cfg, w.hist, w.reqs[rid], w.reqs[rid].pc.answer.e.flags);
  }

  /** An insert, and what is left of it. */
  lemma Opened(hist: seq<Instant>, r: Request, e: Entry) returns (at: nat)
    requires GoodHist(hist) && r.body.ClockIn? && AnswerTrue(hist, r, Created(e))
    ensures r.born <= at && at + 1 < |hist| && FreeToOpen(hist[at].db, r.user, r.body.clientId)
    ensures e == NewEntry(e.id, r.user, r.body, e.flags) && e.id !in hist[at].db
    ensures hist[at + 1].db == hist[at].db[e.id := e]
    ensures e.id in hist[|hist| - 1].db && Evolves(e, hist[|hist| - 1].db[e.id])
  {
    at :| r.born <= at < |hist| - 1 && OpensAt(hist, at, r, e);
    NothingHeld(hist[at].db, r.user, r.body.clientId);
    History(hist, at + 1, |hist| - 1);
    assert e.id in hist[at + 1].db;
  }

  lemma FlagsSeen(cfg: Config, hist: seq<Instant>, r: Request, flags: set<Flag>) returns (seen: nat)
    requires (r.body.ClockIn? || r.body.ClockOut?) && Flagged(cfg, hist, r.born, r.body.fix, flags)
    ensures r.born <= seen < |hist| && FlagsAt(cfg, hist[seen], r.body.fix, flags)
  {
    seen :| r.born <= seen < |hist| && FlagsAt(cfg, hist[seen], r.body.fix, flags);
  }

  lemma NothingHeld(db: Db, u: UserId, c: ClientId)
    requires !Holds(db, ByClientId(u, c)) && !Holds(db, OpenEntry(u))
    ensures FreeToOpen(db, u, c)
  {
    forall id | id in db && db[id].user == u
      ensures db[id].clientId != c && db[id].status == Closed
    {
      assert !Matches(ByClientId(u, c), db[id]) && !Matches(OpenEntry(u), db[id]);
    }
  }

  /**
   * A clock-out that closed a shift, submitted as event k: the shift was the caller's and open at some instant
   * `at` after it and closed at the next, and the entry answered and the document kept for good both have the
   * caller's close key and the fix sent as their clock-out, field by field.
   */
  lemma ClosedInFull(cfg: Config, w0: World, evs: seq<Event>, w: World, k: nat, rid: RequestId, u: UserId,
                     c: ClientId, f: Fix)
    returns (at: nat)
    requires ValidConfig(cfg) && Initial(w0) && Runs(cfg, w0, evs, w)
    requires k < |evs| && evs[k] == Submit(rid, u, ClockOut(c, f))
    requires rid in w.reqs && w.reqs[rid].pc.Done? && w.reqs[rid].pc.answer.ClosedNow?
    ensures k <= at && at + 1 < |w.hist|
    ensures var e := w.reqs[rid].pc.answer.e;
            && e.id in w.hist[at].db && w.hist[at].db[e.id].status == Open && w.hist[at].db[e.id].user == u
            && e.id in w.hist[at + 1].db && w.hist[at + 1].db[e.id].status == Closed
            && ClosedAs(e, c, f) && e.id in Now(w).db && Now(w).db[e.id].user == u && ClosedAs(Now(w).db[e.id], c, f)
  {
    Finished(cfg, w0, evs, w, k, rid, u, ClockOut(c, f));
    at := ClosedHere(w.hist, w.reqs[rid], w.reqs[rid].pc.answer.e, c, f);
  }

  /** An update that closed a shift, and what is left of it. */
  lemma ClosedHere(hist: seq<Instant>, r: Request, e: Entry, c: ClientId, f: Fix) returns (at: nat)
    requires GoodHist(hist) && r.body == ClockOut(c, Trimmed(f)) && AnswerTrue(hist, r, ClosedNow(e))
    ensures r.born <= at && at + 1 < |hist| && ClosedAs(e, c, f)
    ensures e.id in hist[at].db && hist[at].db[e.id].status == Open && hist[at].db[e.id].user == r.user
    ensures e.id in hist[at + 1].db && hist[at + 1].db[e.id].status == Closed
    ensures var last := hist[|hist| - 1].db; e.id in last && last[e.id].user == r.user && ClosedAs(last[e.id], c, f)
  {
    at :| r.born <= at < |hist| - 1 && ClosesAt(hist, at, r, e);
    History(hist, at + 1, |hist| - 1);
    assert Evolves(hist[at + 1].db[e.id], hist[|hist| - 1].db[e.id]);
  }

  /**
   * And its flags: those the shift had as it was read, at instant `read` of the request, and the backdated one
   * exactly when the fix was queued and older than the skew at instant `seen` of it.
   */
  lemma ClosedFlagsInFull(cfg: Config, w0: World, evs: seq<Event>, w: World, k: nat, rid: RequestId, u: UserId,
                          c: ClientId, f: Fix)
    returns (read: nat, seen: nat)
    requires ValidConfig(cfg) && Initial(w0) && Runs(cfg, w0, evs, w)
    requires k < |evs| && evs[k] == Submit(rid, u, ClockOut(c, f))
    requires rid in w.reqs && w.reqs[rid].pc.Done? && w.reqs[rid].pc.answer.ClosedNow?
    ensures k <= read < |w.hist| && k <= seen < |w.hist| && w.reqs[rid].pc.answer.e.id in w.hist[read].db
    ensures var e := w.reqs[rid].pc.answer.e;
            var late := w.hist[seen].now - (f.at - f.at % 1_000_000) > cfg.maxClockSkew;
            e.flags == w.hist[read].db[e.id].flags + if f.queued && late then {Backdated} else {}
  {
    Finished(cfg, w0, evs, w, k, rid, u, ClockOut(c, f));
    read, seen := FlagsRead(cfg, w.hist, w.reqs[rid], w.reqs[rid].pc.answer.e);
  }

  lemma FlagsRead(cfg: Config, hist: seq<Instant>, r: Request, e: Entry) returns (read: nat, seen: nat)
    requires r.body.ClockOut? && AddsFlags(cfg, hist, r, e)
    ensures r.born <= read < |hist| && r.born <= seen < |hist| && e.id in hist[read].db
    ensures var late := hist[seen].now - r.body.fix.at > cfg.maxClockSkew;
            e.flags == hist[read].db[e.id].flags + if r.body.fix.queued && late then {Backdated} else {}
  {
    var shift, flags :| Known(hist, r, shift) && Flagged(cfg, hist, r.born, r.body.fix, flags)
      && e.flags == shift.flags + flags && e.id == shift.id;
    read :| r.born <= read < |hist| && Recorded1(hist[read], shift);
    seen :| r.born <= seen < |hist| && FlagsAt(cfg, hist[seen], r.body.fix, flags);
  }

  /** Closed under this key at the point of this fix. */
  predicate ClosedAs(e: Entry, c: ClientId, f: Fix) {
    && e.status == Closed && e.closeClientId == Some(c) && e.clockOut.Some?
    && var p := e.clockOut.value;
       p.at == f.at - f.at % 1_000_000 && p.loc == f.loc && p.accuracy == f.accuracy && p.mocked == f.mocked
  }

  /**
   * An assignment that succeeded, submitted as event k: the caller's own shift, closed and unbooked at some
   * instant after it, is booked to that employer at the next, with the verdict answered, and stays so.
   */
  lemma AssignedInFull(cfg: Config, w0: World, evs: seq<Event>, w: World, k: nat, rid: RequestId, u: UserId,
                       id: EntryId, emp: EmployerId)
    returns (at: nat)
    requires ValidConfig(cfg) && Initial(w0) && Runs(cfg, w0, evs, w)
    requires k < |evs| && evs[k] == Submit(rid, u, AssignTo(id, emp))
    requires rid in w.reqs && w.reqs[rid].pc.Done? && w.reqs[rid].pc.answer.Assigned?
    ensures k <= at && at + 1 < |w.hist|
    ensures var e, a, b := w.reqs[rid].pc.answer.e, w.hist[at].db, w.hist[at + 1].db;
            && e.id == id && e.employer == Some(emp)
            && id in a && a[id].user == u && a[id].status == Closed && a[id].employer == None
            && id in b && b[id].employer == Some(emp) && b[id].verified == e.verified
            && id in Now(w).db && Now(w).db[id].employer == Some(emp) && Now(w).db[id].verified == e.verified
  {
    Finished(cfg, w0, evs, w, k, rid, u, AssignTo(id, emp));
    at := BookedHere(w.hist, w.reqs[rid], w.reqs[rid].pc.answer.e);
  }

  lemma BookedHere(hist: seq<Instant>, r: Request, e: Entry) returns (at: nat)
    requires GoodHist(hist) && AnswerTrue(hist, r, Assigned(e))
    ensures r.born <= at && at + 1 < |hist| && BooksAt(hist, at, r, e)
    ensures var b, last := hist[at + 1].db, hist[|hist| - 1].db;
            e.id in b && e.id in last && Evolves(b[e.id], last[e.id])
  {
    at :| r.born <= at < |hist| - 1 && BooksAt(hist, at, r, e);
    History(hist, at + 1, |hist| - 1);
  }

  /**
   * The other answers to a clock tap submitted as event k, each of some instant `at` after it. A replay is the
   * document then recorded for the caller under the very key. OPEN_ENTRY_EXISTS: another shift of the caller's
   * was open, none had this key. NO_OPEN_ENTRY: nothing of the caller's was open, nothing closed under this key.
   */
  lemma OtherwiseInFull(cfg: Config, w0: World, evs: seq<Event>, w: World, k: nat, rid: RequestId, u: UserId, b: Body)
    returns (at: nat)
    requires ValidConfig(cfg) && Initial(w0) && Runs(cfg, w0, evs, w)
    requires k < |evs| && evs[k] == Submit(rid, u, b) && (b.ClockIn? || b.ClockOut?)
    requires rid in w.reqs && w.reqs[rid].pc.Done?
    requires var a := w.reqs[rid].pc.answer; a.Replayed? || a in {Refused(OpenEntryExists), Refused(NoOpenEntry)}
    ensures k <= at < |w.hist|
    ensures var a, db := w.reqs[rid].pc.answer, w.hist[at].db;
            match a
            case Replayed(e) =>
              && e.id in db && db[e.id] == e && e.user == u
              && if b.ClockIn? then e.clientId == b.clientId else e.closeClientId == Some(b.clientId)
            case Refused(OpenEntryExists) =>
              && b.ClockIn? && (exists id :: id in db && db[id].user == u && db[id].status == Open)
              && forall id :: id in db && db[id].user == u ==> db[id].clientId != b.clientId
            case Refused(NoOpenEntry) =>
              && b.ClockOut? && forall id :: id in db && db[id].user == u ==>
                    db[id].status == Closed && db[id].closeClientId != Some(b.clientId)
            case _ => true
  {
    Finished(cfg, w0, evs, w, k, rid, u, b);
    var r := w.reqs[rid];
    match r.pc.answer
    case Replayed(e) => at :| r.born <= at < |w.hist| && ReplayOf(w.hist[at], r, e);
    case Refused(OpenEntryExists) =>
      at :| r.born <= at < |w.hist| && OtherOpen(w.hist[at], u, b.clientId);
      NoneUnder(w.hist[at].db, u, b.clientId);
    case Refused(NoOpenEntry) =>
      at :| r.born <= at < |w.hist| && NothingToClose(w.hist[at], u, b.clientId);
      NoneToClose(w.hist[at].db, u, b.clientId);
  }

  lemma NoneUnder(db: Db, u: UserId, c: ClientId)
    requires !Holds(db, ByClientId(u, c))
    ensures forall id :: id in db && db[id].user == u ==> db[id].clientId != c
  {
    forall id | id in db && db[id].user == u
      ensures db[id].clientId != c
    {
      assert !Matches(ByClientId(u, c), db[id]);
    }
  }

  lemma NoneToClose(db: Db, u: UserId, c: ClientId)
    requires !Holds(db, OpenEntry(u)) && !Holds(db, ByCloseClientId(u, c))
    ensures forall id :: id in db && db[id].user == u ==> db[id].status == Closed && db[id].closeClientId != Some(c)
  {
    forall id | id in db && db[id].user == u
      ensures db[id].status == Closed && db[id].closeClientId != Some(c)
    {
      assert !Matches(OpenEntry(u), db[id]) && !Matches(ByCloseClientId(u, c), db[id]);
    }
  }
}
