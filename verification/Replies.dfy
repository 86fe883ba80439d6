/**
 * The entry a close or an assignment answers with is the document read earlier with the write applied,
 * not the document written (backend/internal/entry/store.go ClockOut and Assign): exactly when the two
 * are the same, and a run in which they are not.
 */
module RepliesAreSnapshots {
  import opened Options
  import opened Geo
  import opened Entries
  import opened Requests
  import opened Lifecycle
  import opened AnswersAreTrue
  import opened Closable

  /**
   * A close applied to what was read equals it applied to what is there, if nothing else touched
   * the shift that shows.
   */
  lemma CloseReplyIff(db: Db, e: Entry, cmd: Command)
    requires cmd.Close? && cmd.id == e.id && Takes(db, cmd) && Evolves(e, db[e.id])
    ensures Updated(e, cmd) == Exec(db, cmd)[e.id] <==>
            e.lastPing == db[e.id].lastPing && db[e.id].flags <= e.flags + cmd.flags
  {
    var d := db[e.id];
    assert d.employer == e.employer && d.verified == e.verified;
    assert e.flags <= d.flags;
    if db[e.id].flags <= e.flags + cmd.flags {
      assert d.flags + cmd.flags == e.flags + cmd.flags;
    }
    if Updated(e, cmd) == Exec(db, cmd)[e.id] {
      assert d.flags <= d.flags + cmd.flags == e.flags + cmd.flags;
    }
  }

  lemma AssignReplyIff(db: Db, e: Entry, cmd: Command)
    requires cmd.Assign? && cmd.id == e.id && Takes(db, cmd) && Evolves(e, db[e.id]) && e.status == Closed
    ensures Updated(e, cmd) == Exec(db, cmd)[e.id] <==> e.lastPing == db[e.id].lastPing && e.flags == db[e.id].flags
  {
  }

  /** Read at instant j, written at k: the answer is the command on the one, the document the command on the other. */
  ghost predicate ReadThenWrote(hist: seq<Instant>, r: Request, j: nat, k: nat, cmd: Command, answer: Entry) {
    && r.born <= j <= k && k + 1 < |hist| && !cmd.Insert?
    && cmd.id in hist[j].db && hist[j].db[cmd.id].user == r.user && answer == Updated(hist[j].db[cmd.id], cmd)
    && cmd.id in hist[k].db && Guard(hist[k].db[cmd.id], cmd)
    && cmd.id in hist[k + 1].db && hist[k + 1].db[cmd.id] == Updated(hist[k].db[cmd.id], cmd)
  }

  ghost predicate Closing(r: Request, cmd: Command) {
    r.body.ClockOut? && cmd.Close? && cmd.point == PointOf(r.body.fix) && cmd.clientId == r.body.clientId
  }

  ghost predicate Booking(r: Request, cmd: Command) {
    r.body.AssignTo? && cmd.Assign? && cmd.id == r.body.entry && cmd.employer == r.body.to && cmd.user == r.user
  }

  ghost predicate Answered(hist: seq<Instant>, r: Request, answer: Entry, close: bool) {
    exists j: nat, k: nat, cmd {:trigger ReadThenWrote(hist, r, j, k, cmd, answer)} ::
      ReadThenWrote(hist, r, j, k, cmd, answer) && if close then Closing(r, cmd)
        else Booking(r, cmd) && hist[j].db[cmd.id].status == Closed
  }

  ghost predicate ReplyOk(hist: seq<Instant>, r: Request) {
    match r.pc
    case Done(ClosedNow(a)) => Answered(hist, r, a, true)
    case Done(Assigned(a)) => Answered(hist, r, a, false)
    case _ => true
  }

  lemma ReplyStays(hist: seq<Instant>, x: Instant, r: Request)
    requires ReplyOk(hist, r)
    ensures ReplyOk(hist + [x], r)
  {
    if r.pc.Done? && (r.pc.answer.ClosedNow? || r.pc.answer.Assigned?) {
      var a, close := r.pc.answer.e, r.pc.answer.ClosedNow?;
      assert Answered(hist, r, a, close);
      var j: nat, k: nat, cmd :| ReadThenWrote(hist, r, j, k, cmd, a) &&
        if close then Closing(r, cmd) else Booking(r, cmd) && hist[j].db[cmd.id].status == Closed;
      assert forall n :: 0 <= n < |hist| ==> (hist + [x])[n] == hist[n];
      assert ReadThenWrote(hist + [x], r, j, k, cmd, a);
    }
  }

  lemma StepReplies(cfg: Config, hist: seq<Instant>, r: Request, found: Option<Entry>, newId: EntryId, r': Request,
                    more: seq<Instant>)
    requires After(cfg, hist, r, found, newId, r', more) && GoodHist(hist)
    ensures ReplyOk(more, r')
  {
    if (r.pc.OutUpdate? || r.pc.AsWrite?) && r'.pc.Done? && (r'.pc.answer.ClosedNow? || r'.pc.answer.Assigned?) {
      var e, cmd, here := r.pc.e, CommandOf(r, newId).value, |hist| - 1;
      SnapshotEvolved(hist, r, e);
      var j: nat :| r.born <= j < |hist| && Recorded1(hist[j], e);
      assert more[j] == hist[j] && more[here] == hist[here];
      assert ReadThenWrote(more, r', j, here, cmd, r'.pc.answer.e);
    }
  }

  /* ---- runs ---- */

  ghost predicate AllReplies(w: World) {
    forall rid {:trigger ReplyOk(w.hist, w.reqs[rid])} :: rid in w.reqs ==> ReplyOk(w.hist, w.reqs[rid])
  }

  lemma EventKeepsReplies(cfg: Config, w: World, ev: Event, w': World)
    requires Inv(w) && AllReplies(w) && Enabled(w, ev) && w' == Apply(cfg, w, ev)
    ensures Inv(w') && AllReplies(w')
  {
    EventKeepsInv(cfg, w, ev);
    var x := w'.hist[|w.hist|];
    assert w'.hist == w.hist + [x];
    forall rid | rid in w'.reqs
      ensures ReplyOk(w'.hist, w'.reqs[rid])
    {
      if ev.Step? && rid == ev.rid {
        assert LocalsOk(w.hist, w.reqs[rid]);
        StepReplies(cfg, w.hist, w.reqs[rid], ev.found, ev.newId, w'.reqs[rid], w'.hist);
      } else if rid in w.reqs && w'.reqs[rid] == w.reqs[rid] {
        assert ReplyOk(w.hist, w.reqs[rid]);
        ReplyStays(w.hist, x, w.reqs[rid]);
      }
    }
  }

  lemma {:induction false} RunKeepsReplies(cfg: Config, w: World, evs: seq<Event>, w': World)
    requires Inv(w) && AllReplies(w) && Runs(cfg, w, evs, w')
    ensures Inv(w') && AllReplies(w')
    decreases |evs|
  {
    if evs != [] {
      EventKeepsReplies(cfg, w, evs[0], Apply(cfg, w, evs[0]));
      RunKeepsReplies(cfg, Apply(cfg, w, evs[0]), evs[1..], w');
    }
  }

  lemma ReachableReplies(cfg: Config, w0: World, evs: seq<Event>, w: World, rid: RequestId)
    requires Initial(w0) && Runs(cfg, w0, evs, w) && rid in w.reqs
    ensures Inv(w) && ReplyOk(w.hist, w.reqs[rid])
  {
    assert Inv(w0) && AllReplies(w0);
    RunKeepsReplies(cfg, w0, evs, w);
  }

  /**
   * A close that succeeds was read at some instant j of its request and written at some later k. Its
   * answer is the document it wrote exactly when, from j to k, no ping batch moved the last ping and
   * nobody added a flag that neither the document nor the close itself carried.
   */
  lemma ClosedReplyIsTheDocumentIff(cfg: Config, w0: World, evs: seq<Event>, w: World, rid: RequestId)
    returns (j: nat, k: nat, cmd: Command)
    requires Initial(w0) && Runs(cfg, w0, evs, w)
    requires rid in w.reqs && w.reqs[rid].pc.Done? && w.reqs[rid].pc.answer.ClosedNow?
    ensures Closing(w.reqs[rid], cmd) && ReadThenWrote(w.hist, w.reqs[rid], j, k, cmd, w.reqs[rid].pc.answer.e)
    ensures var read, there := w.hist[j].db[cmd.id], w.hist[k].db[cmd.id];
            w.reqs[rid].pc.answer.e == w.hist[k + 1].db[cmd.id] <==>
            read.lastPing == there.lastPing && there.flags <= read.flags + cmd.flags
  {
    ReachableReplies(cfg, w0, evs, w, rid);
    var r := w.reqs[rid];
    assert Answered(w.hist, r, r.pc.answer.e, true);
    j, k, cmd :| ReadThenWrote(w.hist, r, j, k, cmd, r.pc.answer.e) && Closing(r, cmd);
    History(w.hist, j, k);
    GoodAt(w.hist, j);
    GoodAt(w.hist, k);
    CloseReplyIff(w.hist[k].db, w.hist[j].db[cmd.id], cmd);
  }

  /** The same of an assignment, which adds no flag of its own. */
  lemma AssignedReplyIsTheDocumentIff(cfg: Config, w0: World, evs: seq<Event>, w: World, rid: RequestId)
    returns (j: nat, k: nat, cmd: Command)
    requires Initial(w0) && Runs(cfg, w0, evs, w)
    requires rid in w.reqs && w.reqs[rid].pc.Done? && w.reqs[rid].pc.answer.Assigned?
    ensures Booking(w.reqs[rid], cmd) && ReadThenWrote(w.hist, w.reqs[rid], j, k, cmd, w.reqs[rid].pc.answer.e)
    ensures var read, there := w.hist[j].db[cmd.id], w.hist[k].db[cmd.id];
            w.reqs[rid].pc.answer.e == w.hist[k + 1].db[cmd.id] <==>
            read.lastPing == there.lastPing && read.flags == there.flags
  {
    ReachableReplies(cfg, w0, evs, w, rid);
    var r := w.reqs[rid];
    assert Answered(w.hist, r, r.pc.answer.e, false);
    j, k, cmd :| ReadThenWrote(w.hist, r, j, k, cmd, r.pc.answer.e) && Booking(r, cmd)
      && w.hist[j].db[cmd.id].status == Closed;
    History(w.hist, j, k);
    GoodAt(w.hist, j);
    GoodAt(w.hist, k);
    AssignReplyIff(w.hist[k].db, w.hist[j].db[cmd.id], cmd);
  }

  /* ---- a run whose answer is not the document ---- */

  /** One more event of a run. */
  lemma Goes(cfg: Config, w0: World, evs: seq<Event>, w: World, ev: Event) returns (more: seq<Event>, w': World)
    requires Inv(w) && Runs(cfg, w0, evs, w) && Enabled(w, ev)
    ensures Inv(w') && w' == Apply(cfg, w, ev) && Runs(cfg, w0, more, w')
  {
    more, w' := evs + [ev], Apply(cfg, w, ev);
    Then(cfg, w0, evs, w, ev);
    EventKeepsInv(cfg, w, ev);
  }

  /** A close of e is about to write, and a ping batch of the same user stands at `at`; the document is d. */
  ghost predicate Racing(w: World, close: Request, rid: RequestId, pid: RequestId, at: Pc, d: Entry, spare: EntryId) {
    && Inv(w) && pid != rid && rid in w.reqs && w.reqs[rid] == close
    && pid in w.reqs && w.reqs[pid].user == d.user && w.reqs[pid].body == Pings([0], true) && w.reqs[pid].pc == at
    && d.id in Now(w).db && Now(w).db[d.id] == d && d.status == Open && spare !in Now(w).db
  }

  lemma PingArrives(cfg: Config, w0: World, evs: seq<Event>, w: World, rid: RequestId, e: Entry, spare: EntryId)
    returns (more: seq<Event>, w': World, pid: RequestId)
    requires Inv(w) && Runs(cfg, w0, evs, w) && rid in w.reqs && spare !in Now(w).db
    requires e.id in Now(w).db && Now(w).db[e.id] == e && e.status == Open
    ensures Runs(cfg, w0, more, w') && Racing(w', w.reqs[rid], rid, pid, PgOpen, e, spare)
  {
    pid := Unused(w.reqs.Keys);
    more, w' := Goes(cfg, w0, evs, w, Submit(pid, e.user, Pings([0], true)));
    assert TrimmedTimes([0]) == [0];
  }

  lemma PingReads(cfg: Config, w0: World, evs: seq<Event>, w: World, c: Request, rid: RequestId, pid: RequestId,
                  e: Entry, spare: EntryId)
    returns (more: seq<Event>, w': World)
    requires Runs(cfg, w0, evs, w) && Racing(w, c, rid, pid, PgOpen, e, spare)
    ensures Runs(cfg, w0, more, w') && Racing(w', c, rid, pid, PgTouch(e), e, spare)
  {
    assert Matches(OpenEntry(e.user), Now(w).db[e.id]);
    more, w' := Goes(cfg, w0, evs, w, Step(pid, Some(e), spare));
  }

  lemma PingTouches(cfg: Config, w0: World, evs: seq<Event>, w: World, c: Request, rid: RequestId, pid: RequestId,
                    e: Entry, spare: EntryId)
    returns (more: seq<Event>, w': World, d: Entry)
    requires Runs(cfg, w0, evs, w) && Racing(w, c, rid, pid, PgTouch(e), e, spare)
    ensures d.id == e.id && d.user == e.user && Runs(cfg, w0, more, w') && Racing(w', c, rid, pid, PgFlag(e), d, spare)
  {
    d := Updated(e, TouchPing(e.id, e.user, Newest([0])));
    more, w' := Goes(cfg, w0, evs, w, Step(pid, None, spare));
    assert Now(w').db == Now(w).db[e.id := d];
  }

  lemma PingFlags(cfg: Config, w0: World, evs: seq<Event>, w: World, c: Request, rid: RequestId, pid: RequestId,
                  e: Entry, d: Entry, spare: EntryId)
    returns (more: seq<Event>, w': World)
    requires d.id == e.id && d.user == e.user && Runs(cfg, w0, evs, w) && Racing(w, c, rid, pid, PgFlag(e), d, spare)
    ensures Runs(cfg, w0, more, w') && Inv(w') && rid in w'.reqs && w'.reqs[rid] == c && spare !in Now(w').db
    ensures e.id in Now(w').db && Now(w').db[e.id].status == Open && SpeedAnomaly in Now(w').db[e.id].flags
  {
    more, w' := Goes(cfg, w0, evs, w, Step(pid, None, spare));
  }

  ghost predicate LacksAFlag(w: World, rid: RequestId) {
    && |w.hist| > 0 && rid in w.reqs && w.reqs[rid].pc.Done? && w.reqs[rid].pc.answer.ClosedNow?
    && var a := w.reqs[rid].pc.answer.e;
       a.id in Now(w).db && SpeedAnomaly in Now(w).db[a.id].flags && SpeedAnomaly !in a.flags
  }

  lemma CloseWrites(cfg: Config, w0: World, evs: seq<Event>, w: World, rid: RequestId, e: Entry, v: Verdict,
                    flags: set<Flag>, spare: EntryId)
    returns (more: seq<Event>, w': World)
    requires Inv(w) && Runs(cfg, w0, evs, w) && rid in w.reqs && w.reqs[rid].pc == OutUpdate(e, v, flags)
             && spare !in Now(w).db
    requires e.id in Now(w).db && Now(w).db[e.id].status == Open && SpeedAnomaly in Now(w).db[e.id].flags
    requires SpeedAnomaly !in e.flags && flags <= {Backdated}
    ensures Runs(cfg, w0, more, w') && LacksAFlag(w', rid)
  {
    more, w' := Goes(cfg, w0, evs, w, Step(rid, None, spare));
  }

  /**
   * From every reachable world in which a good close meets an open shift without the speed flag, a ping
   * batch can flag the shift between the close's read and its write: the document has the flag, the
   * answer has not.
   */
  lemma AnswerCanLackAFlag(cfg: Config, w0: World, before: seq<Event>, w: World, rid: RequestId, id: EntryId,
                           clientId: ClientId, sent: Fix, spare: EntryId)
    returns (evs: seq<Event>, w': World)
    requires ValidConfig(cfg) && Initial(w0) && Runs(cfg, w0, before, w)
    requires |w.hist| > 0 && rid !in w.reqs && spare !in Now(w).db
    requires id in Now(w).db && Now(w).db[id].status == Open && SpeedAnomaly !in Now(w).db[id].flags
    requires GoodClose(cfg, Now(w), Now(w).db[id], Trimmed(sent))
    requires !Holds(Now(w).db, ByCloseClientId(Now(w).db[id].user, clientId))
    ensures Runs(cfg, w0, evs, w') && LacksAFlag(w', rid)
  {
    assert Inv(w0);
    RunKeepsInv(cfg, w0, before, w);
    GoodAt(w.hist, |w.hist| - 1);
    var e := Now(w).db[id];
    var judged, v, flags := RunsToItsWrite(cfg, w, rid, e, clientId, sent, spare);
    var solo :| Runs(cfg, w, solo, judged) && OnlyItsSteps(solo, rid);
    Composed(cfg, w0, before, w, solo, judged);
    evs := before + solo;
    var c, pid, d := judged.reqs[rid], 0, e;
    evs, w', pid := PingArrives(cfg, w0, evs, judged, rid, e, spare);
    evs, w' := PingReads(cfg, w0, evs, w', c, rid, pid, e, spare);
    evs, w', d := PingTouches(cfg, w0, evs, w', c, rid, pid, e, spare);
    evs, w' := PingFlags(cfg, w0, evs, w', c, rid, pid, e, d, spare);
    evs, w' := CloseWrites(cfg, w0, evs, w', rid, e, v, flags, spare);
  }

  /* ---- and such a world is reached ---- */

  function Anywhere(p: Location, q: Location): nat { 0 }

  const SOME_CONFIG := Config(0, 0, MILLISECOND, 0, Anywhere)
  const SOME_FIX := Fix(0, Point(0.0, 0.0), Metres(0.0), false, true)
  const EMPTY_WORLD := World([Instant(map[], map[], {}, MILLISECOND)], map[], map[])

  /** User 0's personal clock-in, as request 0, at the program point given. */
  ghost predicate Opening(w: World, pc: Pc) {
    && Inv(w) && Now(w) == EMPTY_WORLD.hist[0] && w.reqs.Keys == {0}
    && w.reqs[0].user == 0 && w.reqs[0].body == ClockIn("in", None, SOME_FIX) && w.reqs[0].pc == pc
  }

  lemma OpeningStep(evs: seq<Event>, w: World, pc: Pc) returns (more: seq<Event>, w': World, next: Pc)
    requires Runs(SOME_CONFIG, EMPTY_WORLD, evs, w) && Opening(w, pc)
    requires pc.InLookup? || (pc.InJudge? && pc.anchor == None) || pc.InFlags?
    ensures Runs(SOME_CONFIG, EMPTY_WORLD, more, w') && Opening(w', next)
    ensures pc.InLookup? ==> next.InJudge? && next.anchor == None
    ensures pc.InJudge? ==> next.InFlags?
    ensures pc.InFlags? ==> next.InInsert? && next.flags <= {Backdated}
  {
    more, w' := Goes(SOME_CONFIG, EMPTY_WORLD, evs, w, Step(0, None, 0));
    next := w'.reqs[0].pc;
  }

  lemma Opens() returns (evs: seq<Event>, w: World, pc: Pc)
    ensures Runs(SOME_CONFIG, EMPTY_WORLD, evs, w) && Opening(w, pc) && pc.InInsert? && pc.flags <= {Backdated}
  {
    assert Inv(EMPTY_WORLD);
    evs, w := Goes(SOME_CONFIG, EMPTY_WORLD, [], EMPTY_WORLD, Submit(0, 0, ClockIn("in", None, SOME_FIX)));
    evs, w, pc := OpeningStep(evs, w, InLookup);
    evs, w, pc := OpeningStep(evs, w, pc);
    evs, w, pc := OpeningStep(evs, w, pc);
  }

  /** From an empty collection there is a run whose close answers with an entry that is not the document it wrote. */
  lemma SomeAnswerLacksAFlag() returns (evs: seq<Event>, w: World)
    ensures ValidConfig(SOME_CONFIG) && Initial(EMPTY_WORLD) && Runs(SOME_CONFIG, EMPTY_WORLD, evs, w)
            && LacksAFlag(w, 1)
  {
    var opening, shift, pc := Opens();
    opening, shift := Goes(SOME_CONFIG, EMPTY_WORLD, opening, shift, Step(0, None, 0));
    var sent := SOME_FIX.(at := MILLISECOND);
    var db := Now(shift).db;
    assert db == map[0 := NewEntry(0, 0, ClockIn("in", None, SOME_FIX), pc.flags)];
    assert !Holds(db, ByCloseClientId(0, "out"));
    assert Trimmed(sent) == sent;
    evs, w := AnswerCanLackAFlag(SOME_CONFIG, EMPTY_WORLD, opening, shift, 1, 0, "out", sent, 1);
  }
}
