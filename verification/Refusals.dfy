/**
 * Every refusal has its ground and every booking its membership, at instants inside the request, under
 * any interleaving (backend/internal/entry/handler.go clockIn, clockOut, Assign, anchor, closeAnchor).
 */
module RefusalsHaveGrounds {
  import opened Options
  import opened Geo
  import opened Entries
  import opened Requests
  import opened Lifecycle
  import opened AnswersAreTrue
  import opened EvidenceIsSound

  /* ---- of one instant ---- */

  ghost predicate MemberAt(i: Instant, emp: EmployerId, u: UserId) {
    (emp, u) in i.members
  }

  ghost predicate UnbookableAt(i: Instant, emp: EmployerId, u: UserId) {
    (emp, u) !in i.members || emp !in i.anchors
  }

  ghost predicate GoneAt(i: Instant, emp: EmployerId) {
    emp !in i.anchors
  }

  ghost predicate AbsentAt(i: Instant, u: UserId, id: EntryId) {
    !Holds(i.db, ById(u, id))
  }

  /** The entry was running, or already booked. */
  ghost predicate TakenAt(i: Instant, u: UserId, id: EntryId) {
    id in i.db && i.db[id].user == u && (i.db[id].status == Open || i.db[id].employer.Some?)
  }

  /** The rules failed this fix at instant k, against the anchor read at instant s. */
  ghost predicate FailsAt(cfg: Config, hist: seq<Instant>, f: Fix, emp: Option<EmployerId>, own: Option<Location>,
                          closing: bool, s: nat, k: nat, code: Refusal)
    requires s <= k < |hist|
  {
    && (emp.Some? ==> emp.value in hist[s].anchors)
    && (if closing then ValidateClose(cfg, hist[k].now, f, AnchorFor(hist, emp, own, s)) == Some(code)
        else ValidateFix(cfg, hist[k].now, f, AnchorFor(hist, emp, own, s)) == Some(code))
  }

  /* ---- of some instant inside the request ---- */

  ghost predicate WasMember(hist: seq<Instant>, r: Request, emp: EmployerId) {
    exists k :: r.born <= k < |hist| && MemberAt(hist[k], emp, r.user)
  }

  ghost predicate WasUnbookable(hist: seq<Instant>, r: Request, emp: EmployerId) {
    exists k :: r.born <= k < |hist| && UnbookableAt(hist[k], emp, r.user)
  }

  ghost predicate WasGone(hist: seq<Instant>, r: Request, emp: EmployerId) {
    exists k :: r.born <= k < |hist| && GoneAt(hist[k], emp)
  }

  ghost predicate Failed(cfg: Config, hist: seq<Instant>, r: Request, f: Fix, emp: Option<EmployerId>,
                         own: Option<Location>, closing: bool, code: Refusal)
  {
    exists s: nat, k: nat {:trigger FailsAt(cfg, hist, f, emp, own, closing, s, k, code)} ::
      r.born <= s <= k < |hist| && FailsAt(cfg, hist, f, emp, own, closing, s, k, code)
  }

  /** Why a close against shift e was refused: too early, its employer gone, or a rule. */
  ghost predicate CloseGrounds(cfg: Config, hist: seq<Instant>, r: Request, e: Entry, code: Refusal)
    requires r.body.ClockOut?
  {
    && Known(hist, r, e) && e.status == Open
    && (|| (code == InvalidArgument && r.body.fix.at <= e.clockIn.at)
        || (code == NotMember && e.employer.Some? && WasGone(hist, r, e.employer.value))
        || Failed(cfg, hist, r, r.body.fix, e.employer, Some(e.clockIn.loc), true, code))
  }

  ghost predicate Grounds(cfg: Config, hist: seq<Instant>, r: Request, code: Refusal) {
    match r.body
    case ClockIn(_, emp, fix) =>
      || code == OpenEntryExists
      || (code == NotMember && emp.Some? && WasUnbookable(hist, r, emp.value))
      || Failed(cfg, hist, r, fix, emp, None, false, code)
    case ClockOut(_, _) => code == NoOpenEntry || exists e :: CloseGrounds(cfg, hist, r, e, code)
    case AssignTo(id, emp) =>
      || (code == NotFound && exists k :: r.born <= k < |hist| && AbsentAt(hist[k], r.user, id))
      || (code == InvalidArgument && exists k :: r.born <= k < |hist| && TakenAt(hist[k], r.user, id))
      || (code == NotMember && WasUnbookable(hist, r, emp))
    case Pings(_, _) => false
  }

  /** What a request knows of memberships and anchors at each program point. */
  ghost predicate Grounded(cfg: Config, hist: seq<Instant>, r: Request) {
    PcFits(r.body, r.pc) &&
    match r.pc
    case InAnchor => WasMember(hist, r, r.body.employer.value)
    case InJudge(_, seen) => r.born <= seen && Booked(hist, r)
    case InFlags(_) => Booked(hist, r)
    case InInsert(_, _) => Booked(hist, r)
    case OutJudge(_, _, seen) => r.born <= seen
    case AsAnchor(_) => WasMember(hist, r, r.body.to)
    case AsWrite(_, _, _) => WasMember(hist, r, r.body.to)
    case Done(Created(e)) => r.body.ClockIn? && e.employer == r.body.employer && Booked(hist, r)
    case Done(Assigned(e)) => r.body.AssignTo? && e.employer == Some(r.body.to) && WasMember(hist, r, r.body.to)
    case Done(Refused(code)) => Grounds(cfg, hist, r, code)
    case _ => true
  }

  /** A clock-in for an employer comes from someone who was its member. */
  ghost predicate Booked(hist: seq<Instant>, r: Request) {
    r.body.ClockIn? && (r.body.employer.Some? ==> WasMember(hist, r, r.body.employer.value))
  }

  /* ---- later instants take nothing away ---- */

  lemma FailedStays(cfg: Config, hist: seq<Instant>, x: Instant, r: Request, f: Fix, emp: Option<EmployerId>,
                    own: Option<Location>, closing: bool, code: Refusal)
    requires Failed(cfg, hist, r, f, emp, own, closing, code)
    ensures Failed(cfg, hist + [x], r, f, emp, own, closing, code)
  {
    var s: nat, k: nat :| r.born <= s <= k < |hist| && FailsAt(cfg, hist, f, emp, own, closing, s, k, code);
    assert (hist + [x])[s] == hist[s] && (hist + [x])[k] == hist[k];
    assert FailsAt(cfg, hist + [x], f, emp, own, closing, s, k, code);
  }

  lemma WasStays(hist: seq<Instant>, x: Instant, r: Request, emp: EmployerId)
    ensures WasMember(hist, r, emp) ==> WasMember(hist + [x], r, emp)
    ensures WasUnbookable(hist, r, emp) ==> WasUnbookable(hist + [x], r, emp)
    ensures WasGone(hist, r, emp) ==> WasGone(hist + [x], r, emp)
  {
    var more := hist + [x];
    assert forall k :: 0 <= k < |hist| ==> more[k] == hist[k];
  }

  lemma CloseGroundsStay(cfg: Config, hist: seq<Instant>, x: Instant, r: Request, e: Entry, code: Refusal)
    requires r.body.ClockOut? && CloseGrounds(cfg, hist, r, e, code)
    ensures CloseGrounds(cfg, hist + [x], r, e, code)
  {
    StillKnown(hist, x, r, r, e);
    if Failed(cfg, hist, r, r.body.fix, e.employer, Some(e.clockIn.loc), true, code) {
      FailedStays(cfg, hist, x, r, r.body.fix, e.employer, Some(e.clockIn.loc), true, code);
    }
    if e.employer.Some? {
      WasStays(hist, x, r, e.employer.value);
    }
  }

  lemma GroundsStay(cfg: Config, hist: seq<Instant>, x: Instant, r: Request, code: Refusal)
    requires Grounds(cfg, hist, r, code)
    ensures Grounds(cfg, hist + [x], r, code)
  {
    var more := hist + [x];
    assert forall k :: 0 <= k < |hist| ==> more[k] == hist[k];
    match r.body
    case ClockIn(_, emp, fix) =>
      if emp.Some? {
        WasStays(hist, x, r, emp.value);
      }
      if Failed(cfg, hist, r, fix, emp, None, false, code) {
        FailedStays(cfg, hist, x, r, fix, emp, None, false, code);
      }
    case ClockOut(_, _) =>
      if code != NoOpenEntry {
        var e :| CloseGrounds(cfg, hist, r, e, code);
        CloseGroundsStay(cfg, hist, x, r, e, code);
      }
    case AssignTo(_, emp) => WasStays(hist, x, r, emp);
    case Pings(_, _) =>
  }

  lemma GroundedStays(cfg: Config, hist: seq<Instant>, x: Instant, r: Request)
    requires Grounded(cfg, hist, r)
    ensures Grounded(cfg, hist + [x], r)
  {
    if r.body.ClockIn? && r.body.employer.Some? {
      WasStays(hist, x, r, r.body.employer.value);
    } else if r.body.AssignTo? {
      WasStays(hist, x, r, r.body.to);
    }
    if r.pc.Done? && r.pc.answer.Refused? {
      GroundsStay(cfg, hist, x, r, r.pc.answer.code);
    }
  }

  /* ---- one step ---- */

  lemma SameFacts(cfg: Config, hist: seq<Instant>, r: Request, r': Request)
    requires r' == r.(pc := r'.pc)
    ensures r.body.ClockIn? ==> (Booked(hist, r) <==> Booked(hist, r'))
    ensures forall emp :: WasMember(hist, r, emp) <==> WasMember(hist, r', emp)
    ensures forall emp :: WasUnbookable(hist, r, emp) <==> WasUnbookable(hist, r', emp)
  {
  }

  /** The step as taken at the last instant of hist, before that step's own instant is appended. */
  ghost predicate Steps(cfg: Config, hist: seq<Instant>, r: Request, found: Option<Entry>, newId: EntryId,
                        r': Request)
  {
    && LocalsOk(hist, r) && Holding(cfg, hist, r) && Grounded(cfg, hist, r) && !r.pc.Done?
    && (QueryOf(r).Some? ==> Answers(hist[|hist| - 1].db, QueryOf(r).value, found))
    && r' == r.(pc := NextPc(cfg, hist[|hist| - 1], |hist| - 1, r, found, newId))
  }

  lemma ClockInGrounded(cfg: Config, hist: seq<Instant>, r: Request, found: Option<Entry>, newId: EntryId, r': Request)
    requires Steps(cfg, hist, r, found, newId, r') && r.body.ClockIn?
    ensures Grounded(cfg, hist, r')
  {
    var here := |hist| - 1;
    SameFacts(cfg, hist, r, r');
    match r.pc
    case InMember =>
      assert MemberAt(hist[here], r.body.employer.value, r.user)
        || UnbookableAt(hist[here], r.body.employer.value, r.user);
    case InAnchor =>
      assert r.body.employer.value !in hist[here].anchors ==> UnbookableAt(hist[here], r.body.employer.value, r.user);
    case InJudge(anchor, seen) =>
      if r'.pc.Done? {
        assert FailsAt(cfg, hist, r.body.fix, r.body.employer, None, false, seen, here, r'.pc.answer.code);
      }
    case _ =>
  }

  lemma ClockOutGrounded(cfg: Config, hist: seq<Instant>, r: Request, found: Option<Entry>, newId: EntryId, r': Request)
    requires Steps(cfg, hist, r, found, newId, r') && r.body.ClockOut?
    ensures Grounded(cfg, hist, r')
  {
    var here := |hist| - 1;
    match r.pc
    case OutOpen =>
      if r'.pc.Done? {
        assert Recorded1(hist[here], found.value);
        assert CloseGrounds(cfg, hist, r', found.value, InvalidArgument);
      }
    case OutAnchor(e) =>
      if r'.pc.Done? {
        assert GoneAt(hist[here], e.employer.value);
        assert CloseGrounds(cfg, hist, r', e, NotMember);
      }
    case OutJudge(e, at, seen) =>
      if r'.pc.Done? {
        assert FailsAt(cfg, hist, r.body.fix, e.employer, Some(e.clockIn.loc), true, seen, here, r'.pc.answer.code);
        assert CloseGrounds(cfg, hist, r', e, r'.pc.answer.code);
      }
    case _ =>
  }

  lemma AssignGrounded(cfg: Config, hist: seq<Instant>, r: Request, found: Option<Entry>, newId: EntryId, r': Request)
    requires Steps(cfg, hist, r, found, newId, r') && r.body.AssignTo? && GoodHist(hist)
    ensures Grounded(cfg, hist, r')
  {
    var here := |hist| - 1;
    SameFacts(cfg, hist, r, r');
    match r.pc
    case AsRead =>
      assert found.None? ==> AbsentAt(hist[here], r.user, r.body.entry);
      assert found.Some? && r'.pc.Done? ==> TakenAt(hist[here], r.user, r.body.entry);
    case AsMember(_) =>
      assert MemberAt(hist[here], r.body.to, r.user) || UnbookableAt(hist[here], r.body.to, r.user);
    case AsAnchor(_) =>
      assert r.body.to !in hist[here].anchors ==> UnbookableAt(hist[here], r.body.to, r.user);
    case AsWrite(e, _, _) =>
      SnapshotEvolved(hist, r, e);
      assert r'.pc.answer.Refused? ==> TakenAt(hist[here], r.user, r.body.entry);
    case _ =>
  }

  lemma StepIsGrounded(cfg: Config, hist: seq<Instant>, r: Request, found: Option<Entry>, newId: EntryId, r': Request)
    requires Steps(cfg, hist, r, found, newId, r') && GoodHist(hist)
    ensures Grounded(cfg, hist, r')
  {
    match r.body
    case ClockIn(_, _, _) => ClockInGrounded(cfg, hist, r, found, newId, r');
    case ClockOut(_, _) => ClockOutGrounded(cfg, hist, r, found, newId, r');
    case AssignTo(_, _) => AssignGrounded(cfg, hist, r, found, newId, r');
    case Pings(_, _) =>
  }

  /* ---- runs ---- */

  ghost predicate AllGrounded(cfg: Config, w: World) {
    forall rid {:trigger Grounded(cfg, w.hist, w.reqs[rid])} :: rid in w.reqs ==> Grounded(cfg, w.hist, w.reqs[rid])
  }

  lemma EventKeepsGrounded(cfg: Config, w: World, ev: Event, w': World)
    requires Sound(cfg, w) && AllGrounded(cfg, w) && Enabled(w, ev) && w' == Apply(cfg, w, ev)
    ensures AllGrounded(cfg, w')
  {
    var x := w'.hist[|w.hist|];
    assert w'.hist == w.hist + [x];
    forall rid | rid in w'.reqs
      ensures Grounded(cfg, w'.hist, w'.reqs[rid])
    {
      if rid in w.reqs {
        assert LocalsOk(w.hist, w.reqs[rid]) && Holding(cfg, w.hist, w.reqs[rid]) && Grounded(cfg, w.hist, w.reqs[rid]);
        if ev.Step? && rid == ev.rid {
          StepIsGrounded(cfg, w.hist, w.reqs[rid], ev.found, ev.newId, w'.reqs[rid]);
        }
        GroundedStays(cfg, w.hist, x, w'.reqs[rid]);
      }
    }
  }

  lemma {:induction false} RunKeepsGrounded(cfg: Config, w: World, evs: seq<Event>, w': World)
    requires ValidConfig(cfg) && Sound(cfg, w) && AllGrounded(cfg, w) && Runs(cfg, w, evs, w')
    ensures AllGrounded(cfg, w')
    decreases |evs|
  {
    if evs != [] {
      var next := Apply(cfg, w, evs[0]);
      EventKeepsSound(cfg, w, evs[0]);
      EventKeepsGrounded(cfg, w, evs[0], next);
      RunKeepsGrounded(cfg, next, evs[1..], w');
    }
  }

  lemma ReachableIsGrounded(cfg: Config, w0: World, evs: seq<Event>, w: World, rid: RequestId)
    requires ValidConfig(cfg) && Initial(w0) && Runs(cfg, w0, evs, w) && rid in w.reqs
    ensures Grounded(cfg, w.hist, w.reqs[rid])
  {
    assert Inv(w0) && Sound(cfg, w0);
    RunKeepsGrounded(cfg, w0, evs, w);
  }

  /**
   * Every refusal of every run had its ground inside the request: a rule the fix failed by the server's
   * clock against an anchor the employer held; a membership or employer absent; an entry absent, running
   * or booked. Pings are never refused, and a close is never refused for its age.
   */
  lemma EveryRefusalHasGrounds(cfg: Config, w0: World, evs: seq<Event>, w: World, rid: RequestId)
    requires ValidConfig(cfg) && Initial(w0) && Runs(cfg, w0, evs, w)
    requires rid in w.reqs && w.reqs[rid].pc.Done? && w.reqs[rid].pc.answer.Refused?
    ensures Grounds(cfg, w.hist, w.reqs[rid], w.reqs[rid].pc.answer.code)
    ensures w.reqs[rid].body.ClockOut? ==> w.reqs[rid].pc.answer.code != QueuedTooOld
  {
    ReachableIsGrounded(cfg, w0, evs, w, rid);
    var r, code := w.reqs[rid], w.reqs[rid].pc.answer.code;
    if r.body.ClockOut? && code != NoOpenEntry {
      var e :| CloseGrounds(cfg, w.hist, r, e, code);
      NeverTooOld(cfg, w.hist, r, e, code);
    }
  }

  lemma NeverTooOld(cfg: Config, hist: seq<Instant>, r: Request, e: Entry, code: Refusal)
    requires ValidConfig(cfg) && r.body.ClockOut? && CloseGrounds(cfg, hist, r, e, code)
    ensures code != QueuedTooOld
  {
    if Failed(cfg, hist, r, r.body.fix, e.employer, Some(e.clockIn.loc), true, code) {
      var s: nat, k: nat :| r.born <= s <= k < |hist|
          && FailsAt(cfg, hist, r.body.fix, e.employer, Some(e.clockIn.loc), true, s, k, code);
      CloseAcceptedIff(cfg, hist[k].now, r.body.fix, AnchorFor(hist, e.employer, Some(e.clockIn.loc), s));
    }
  }

  /**
   * A shift is booked to an employer, at clock-in or later, only for someone who was its member
   * during that request.
   */
  lemma BookingsAreMembers(cfg: Config, w0: World, evs: seq<Event>, w: World, rid: RequestId)
    requires ValidConfig(cfg) && Initial(w0) && Runs(cfg, w0, evs, w)
    requires rid in w.reqs && w.reqs[rid].pc.Done?
             && (w.reqs[rid].pc.answer.Created? || w.reqs[rid].pc.answer.Assigned?)
    requires w.reqs[rid].pc.answer.e.employer.Some?
    ensures WasMember(w.hist, w.reqs[rid], w.reqs[rid].pc.answer.e.employer.value)
  {
    ReachableIsGrounded(cfg, w0, evs, w, rid);
  }
}
