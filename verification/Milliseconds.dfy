/**
 * Why an entry handed back equals the one read later (backend/internal/entry/store.go msTime): what the
 * store truncates to milliseconds was already truncated when the request arrived (handler.go fix, pingFixes).
 */
module WholeMilliseconds {
  import opened Options
  import opened Geo
  import opened Entries
  import opened Requests

  predicate Whole(t: Time) {
    Ms(t) == t
  }

  predicate WholeBody(b: Body) {
    match b
    case ClockIn(_, _, f) => Whole(f.at)
    case ClockOut(_, f) => Whole(f.at)
    case AssignTo(_, _) => true
    case Pings(ats, _) => forall k :: 0 <= k < |ats| ==> Whole(ats[k])
  }

  predicate WholeEntry(e: Entry) {
    && Whole(e.clockIn.at)
    && (e.clockOut.Some? ==> Whole(e.clockOut.value.at))
    && (e.lastPing.Some? ==> Whole(e.lastPing.value))
  }

  ghost predicate WholeDb(db: Db) {
    forall id :: id in db ==> WholeEntry(db[id])
  }

  ghost predicate WholeWorld(w: World) {
    |w.hist| > 0 && WholeDb(Now(w).db) && forall rid :: rid in w.reqs ==> WholeBody(w.reqs[rid].body)
  }

  /** A write as the store sends it, its instants truncated once more. */
  function AtRest(cmd: Command): Command {
    match cmd
    case Insert(e) => Insert(e.(clockIn := e.clockIn.(at := Ms(e.clockIn.at))))
    case Close(_, p, _, _) => cmd.(point := p.(at := Ms(p.at)))
    case TouchPing(_, _, at) => cmd.(at := Ms(at))
    case _ => cmd
  }

  lemma {:induction false} NewestIsOne(ats: seq<Time>)
    requires ats != []
    ensures Newest(ats) in ats && forall k :: 0 <= k < |ats| ==> ats[k] <= Newest(ats)
  {
    if |ats| > 1 {
      NewestIsOne(ats[1..]);
      assert forall k :: 0 < k < |ats| ==> ats[k] == ats[1..][k - 1];
    }
  }

  lemma ArrivesWhole(b: Body)
    ensures WholeBody(Arrived(b))
  {
    match b
    case ClockIn(_, _, f) => MsTwice(f.at);
    case ClockOut(_, f) => MsTwice(f.at);
    case AssignTo(_, _) =>
    case Pings(ats, _) =>
      forall k | 0 <= k < |ats|
        ensures Whole(TrimmedTimes(ats)[k])
      {
        MsTwice(ats[k]);
      }
  }

  lemma CommandIsWhole(r: Request, newId: EntryId)
    requires WholeBody(r.body) && PcFits(r.body, r.pc) && CommandOf(r, newId).Some?
    ensures AtRest(CommandOf(r, newId).value) == CommandOf(r, newId).value
  {
    if r.pc.PgTouch? {
      NewestIsOne(r.body.ats);
    }
  }

  lemma ExecKeepsWhole(db: Db, cmd: Command)
    requires WholeDb(db) && AtRest(cmd) == cmd
    requires cmd.Insert? ==> cmd.e.clockOut == None && cmd.e.lastPing == None
    ensures WholeDb(Exec(db, cmd))
  {
  }

  lemma EventKeepsWhole(cfg: Config, w: World, ev: Event)
    requires WholeWorld(w) && Enabled(w, ev)
    ensures WholeWorld(Apply(cfg, w, ev))
  {
    match ev
    case Submit(_, _, b) => ArrivesWhole(b);
    case Step(rid, _, newId) =>
      var r := w.reqs[rid];
      assert WholeBody(r.body);
      if CommandOf(r, newId).Some? {
        CommandIsWhole(r, newId);
        ExecKeepsWhole(Now(w).db, CommandOf(r, newId).value);
      }
    case _ =>
  }

  lemma {:induction false} RunKeepsWhole(cfg: Config, w: World, evs: seq<Event>, w': World)
    requires WholeWorld(w) && Runs(cfg, w, evs, w')
    ensures WholeWorld(w')
    decreases |evs|
  {
    if evs != [] {
      EventKeepsWhole(cfg, w, evs[0]);
      RunKeepsWhole(cfg, Apply(cfg, w, evs[0]), evs[1..], w');
    }
  }

  /**
   * Over any run, whatever instants the clients sent, the truncation done as a write is stored changes
   * nothing: neither the write any request would make next nor any document already there.
   */
  lemma StoringTruncatesNothing(cfg: Config, w0: World, evs: seq<Event>, w: World)
    requires Initial(w0) && Runs(cfg, w0, evs, w)
    ensures |w.hist| > 0 && WholeDb(Now(w).db)
    ensures forall rid, newId {:trigger CommandOf(w.reqs[rid], newId)} ::
              rid in w.reqs && PcFits(w.reqs[rid].body, w.reqs[rid].pc) && CommandOf(w.reqs[rid], newId).Some? ==>
                AtRest(CommandOf(w.reqs[rid], newId).value) == CommandOf(w.reqs[rid], newId).value
  {
    RunKeepsWhole(cfg, w0, evs, w);
    forall rid, newId | rid in w.reqs && PcFits(w.reqs[rid].body, w.reqs[rid].pc) && CommandOf(w.reqs[rid], newId).Some?
      ensures AtRest(CommandOf(w.reqs[rid], newId).value) == CommandOf(w.reqs[rid], newId).value
    {
      CommandIsWhole(w.reqs[rid], newId);
    }
  }
}
