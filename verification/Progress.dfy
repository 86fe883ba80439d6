/**
 * A drain can always finish: from every state of a replay in which the taps still queued pass the
 * location rules, some continuation without further trouble empties the queue.
 */
module DrainsFinish {
  import opened Options
  import opened Geo
  import opened Entries
  import opened Requests
  import opened Lifecycle
  import opened AnswersAreTrue
  import opened Replay
  import opened Convergence
  import Closable

  /** The anchor a close is measured against: its employer's, or where the shift began. */
  function CloseAnchor(i: Instant, employer: Option<EmployerId>, start: Location): Option<Location> {
    if employer.None? then Some(start)
    else if employer.value in i.anchors then Some(i.anchors[employer.value])
    else None
  }

  /** Tap k would be accepted now, a close for the shift of the clock-in before it. */
  ghost predicate TapWelcome(cfg: Config, i: Instant, u: UserId, taps: seq<Body>, k: nat)
    requires ClockTaps(taps) && k < |taps|
  {
    var fix := ReplayBody(taps[k]).fix;
    if taps[k].ClockIn? then
      var emp := taps[k].employer;
      && (emp.Some? ==> (emp.value, u) in i.members && emp.value in i.anchors)
      && ValidateFix(cfg, i.now, fix, if emp.Some? then Some(i.anchors[emp.value]) else None) == None
    else
      k > 0 && taps[k - 1].ClockIn? ==>
        var anchor := CloseAnchor(i, taps[k - 1].employer, taps[k - 1].fix.loc);
        anchor.Some? && ValidateClose(cfg, i.now, fix, anchor) == None
  }

  /** A shift still running is that of the last tap landed, for the employer tapped. */
  ghost predicate OpenAsTapped(db: Db, u: UserId, taps: seq<Body>, m: nat) {
    forall id :: id in db && db[id].user == u && db[id].status == Open ==>
      0 < m <= |taps| && taps[m - 1].ClockIn? && db[id].employer == taps[m - 1].employer
  }

  /** Every tap from the n-th on is welcome, m of them having landed. */
  ghost predicate Welcoming(cfg: Config, i: Instant, u: UserId, taps: seq<Body>, n: nat, m: nat)
    requires ClockTaps(taps)
  {
    && (forall k: nat {:trigger TapWelcome(cfg, i, u, taps, k)} :: n <= k < |taps| ==> TapWelcome(cfg, i, u, taps, k))
    && OpenAsTapped(i.db, u, taps, m)
  }

  function Rank(pc: Pc): nat {
    match pc
    case InLookup => 7
    case InMember => 6
    case InAnchor => 5
    case InJudge(_, _) => 4
    case InFlags(_) => 3
    case InInsert(_, _) => 2
    case OutLookup => 7
    case OutOpen => 6
    case OutAnchor(_) => 5
    case OutJudge(_, _, _) => 4
    case OutFlags(_, _) => 3
    case OutUpdate(_, _, _) => 2
    case Done(_) => 0
    case _ => 1
  }

  /** What the copy of tap n has read so far speaks for it. */
  ghost predicate AtEase(cfg: Config, i: Instant, taps: seq<Body>, n: nat, body: Body, pc: Pc) {
    match pc
    case InJudge(anchor, _) => body.ClockIn? && ValidateFix(cfg, i.now, body.fix, anchor) == None
    case OutAnchor(e) => ReadsShiftOf(taps, n, e)
    case OutJudge(_, at, _) => body.ClockOut? && ValidateClose(cfg, i.now, body.fix, Some(at)) == None
    case _ => true
  }

  /** e is the shift tap n - 1 started. */
  ghost predicate ReadsShiftOf(taps: seq<Body>, n: nat, e: Entry) {
    && 0 < n <= |taps| && taps[n - 1].ClockIn?
    && e.employer == taps[n - 1].employer && e.clockIn.loc == taps[n - 1].fix.loc
  }

  ghost predicate Sane(taps: seq<Body>, u: UserId, n: nat, r: Request) {
    && ClockTaps(taps) && n < |taps| && r.user == u && r.body == ReplayBody(taps[n]) && PcFits(r.body, r.pc)
  }

  lemma ClockInGoesOn(cfg: Config, i: Instant, here: nat, u: UserId, taps: seq<Body>, n: nat, r: Request,
                      found: Option<Entry>, newId: EntryId)
    requires Sane(taps, u, n, r) && r.body.ClockIn? && !r.pc.Done?
    requires TapWelcome(cfg, i, u, taps, n) && AtEase(cfg, i, taps, n, r.body, r.pc)
    ensures var next := NextPc(cfg, i, here, r, found, newId);
            && (Judging(r.pc) ==> !next.Done?) && AtEase(cfg, i, taps, n, r.body, next) && Rank(next) < Rank(r.pc)
            && next != Done(ServerError)
  {
  }

  lemma ClockOutGoesOn(cfg: Config, i: Instant, here: nat, u: UserId, taps: seq<Body>, n: nat, r: Request,
                       found: Option<Entry>, newId: EntryId)
    requires Sane(taps, u, n, r) && r.body.ClockOut? && !r.pc.Done?
    requires TapWelcome(cfg, i, u, taps, n) && AtEase(cfg, i, taps, n, r.body, r.pc)
    requires r.pc.OutOpen? && found.Some? ==> ReadsShiftOf(taps, n, found.value)
    ensures var next := NextPc(cfg, i, here, r, found, newId);
            && (Judging(r.pc) ==> !next.Done?) && AtEase(cfg, i, taps, n, r.body, next) && Rank(next) < Rank(r.pc)
            && next != Done(ServerError)
  {
  }

  /** The copy in hand, on its own. */
  ghost predicate Solo(cfg: Config, u: UserId, base: map<ClientId, Shift>, taps: seq<Body>, p: Phone, rid: RequestId) {
    && Converging(u, base, taps, p) && p.sent == Some(rid)
    && Welcoming(cfg, Now(p.server), u, taps, p.resolved, p.landed)
    && AtEase(cfg, Now(p.server), taps, p.resolved, p.server.reqs[rid].body, p.server.reqs[rid].pc)
  }

  /** The close finds the shift it was tapped for. */
  lemma FindsItsShift(cfg: Config, u: UserId, base: map<ClientId, Shift>, taps: seq<Body>, p: Phone, e: Entry)
    requires Converging(u, base, taps, p) && p.resolved < |taps| && taps[p.resolved].ClockOut?
    requires OpenAsTapped(Now(p.server).db, u, taps, p.landed)
    requires Answers(Now(p.server).db, OpenEntry(u), Some(e))
    ensures ReadsShiftOf(taps, p.resolved, e)
  {
    OpenIsLastTap(Now(p.server).db, u, base, taps, p.landed, e.id);
  }

  lemma SomeAnswer(db: Db, q: Option<Query>) returns (found: Option<Entry>)
    requires forall id :: id in db ==> db[id].id == id
    ensures q.Some? ==> Answers(db, q.value, found)
  {
    found := None;
    if q.Some? && Holds(db, q.value) {
      var id :| id in db && Matches(q.value, db[id]);
      found := Some(db[id]);
    }
  }

  /** A shift open after was open before, for the same employer, or is started by one of the taps. */
  ghost predicate Accounted(db: Db, next: Db, u: UserId, taps: seq<Body>, id: EntryId) {
    id in next && next[id].user == u && next[id].status == Open ==>
      if id in db then
        && db[id].status == Open && db[id].user == u
        && db[id].clientId == next[id].clientId && db[id].employer == next[id].employer
      else
        exists j: nat :: j < |taps| && taps[j].ClockIn?
          && next[id].clientId == taps[j].clientId && next[id].employer == taps[j].employer
  }

  lemma StepAccounts(u: UserId, base: map<ClientId, Shift>, taps: seq<Body>, p: Phone, ev: Event, id: EntryId)
    requires Converging(u, base, taps, p) && Enabled(p.server, ev) && ev.Step?
    requires PcFits(p.server.reqs[ev.rid].body, p.server.reqs[ev.rid].pc)
    requires DbStep(Now(p.server).db, StepDb(Now(p.server), p.server.reqs[ev.rid], ev.newId))
    ensures Accounted(Now(p.server).db, StepDb(Now(p.server), p.server.reqs[ev.rid], ev.newId), u, taps, id)
  {
    var db, next := Now(p.server).db, StepDb(Now(p.server), p.server.reqs[ev.rid], ev.newId);
    if id in next && next[id].user == u && next[id].status == Open {
      if id in db {
        assert Evolves(db[id], next[id]);
      } else {
        var r := p.server.reqs[ev.rid];
        assert r.pc.InInsert? && LiveClock(r) && r.user == u;
        assert CopyOk(taps, u, r, p.copies[ev.rid], p.resolved, p.landed);
      }
    }
  }

  lemma TappedAfter(u: UserId, base: map<ClientId, Shift>, taps: seq<Body>, db: Db, m: nat, next: Db, m': nat)
    requires Queueable(taps) && FreshFor(base, taps)
    requires ReadsBack(db, u, base, taps, m) && ReadsBack(next, u, base, taps, m') && OpenAsTapped(db, u, taps, m)
    requires forall id {:trigger Accounted(db, next, u, taps, id)} :: Accounted(db, next, u, taps, id)
    ensures OpenAsTapped(next, u, taps, m')
  {
    forall id | id in next && next[id].user == u && next[id].status == Open
      ensures 0 < m' <= |taps| && taps[m' - 1].ClockIn? && next[id].employer == taps[m' - 1].employer
    {
      OpenIsLastTap(next, u, base, taps, m', id);
      assert Accounted(db, next, u, taps, id);
      if id in db {
        OpenIsLastTap(db, u, base, taps, m, id);
        SameKeySameTap(taps, m - 1, m' - 1);
      } else {
        var j: nat :| j < |taps| && taps[j].ClockIn?
          && next[id].clientId == taps[j].clientId && next[id].employer == taps[j].employer;
        SameKeySameTap(taps, j, m' - 1);
      }
    }
  }

  lemma StepKeepsTapped(cfg: Config, u: UserId, base: map<ClientId, Shift>, taps: seq<Body>, p: Phone, ev: Event,
                        p': Phone)
    requires Converging(u, base, taps, p) && Enabled(p.server, ev) && ev.Step? && Converging(u, base, taps, p')
    requires PcFits(p.server.reqs[ev.rid].body, p.server.reqs[ev.rid].pc)
    requires Now(p'.server).db == StepDb(Now(p.server), p.server.reqs[ev.rid], ev.newId)
    requires OpenAsTapped(Now(p.server).db, u, taps, p.landed)
    ensures OpenAsTapped(Now(p'.server).db, u, taps, p'.landed)
  {
    var r, i := p.server.reqs[ev.rid], Now(p.server);
    SameDbSteps(p.server.hist);
    if CommandOf(r, ev.newId).Some? {
      CommandsAreLegal(p.server, ev.rid, ev.newId);
      ExecIsStep(i.db, CommandOf(r, ev.newId).value);
    }
    forall id
      ensures Accounted(i.db, Now(p'.server).db, u, taps, id)
    {
      StepAccounts(u, base, taps, p, ev, id);
    }
    TappedAfter(u, base, taps, i.db, p.landed, Now(p'.server).db, p'.landed);
  }

  lemma ServerSteps(cfg: Config, u: UserId, p: Phone, ev: Event)
    requires Possible(p, u, Move.Server(ev)) && ev.Step?
    ensures |p.server.hist| > 0 && ev.rid in p.server.reqs
    ensures var r, p' := p.server.reqs[ev.rid], Moved(cfg, u, p, Move.Server(ev));
            && PcFits(r.body, r.pc) && |p'.server.hist| > 0
            && Now(p'.server).db == StepDb(Now(p.server), r, ev.newId)
  {
    assert PcFits(p.server.reqs[ev.rid].body, p.server.reqs[ev.rid].pc);
  }

  lemma OthersLeave(cfg: Config, u: UserId, p: Phone, mv: Move)
    requires Possible(p, u, mv) && |p.server.hist| > 0 && !(mv.Server? && mv.ev.Step?)
    ensures var p' := Moved(cfg, u, p, mv);
            |p'.server.hist| > 0 && Now(p'.server).db == Now(p.server).db && p'.landed == p.landed
  {
  }

  lemma MoveKeepsTapped(cfg: Config, u: UserId, base: map<ClientId, Shift>, taps: seq<Body>, p: Phone, mv: Move,
                        p': Phone)
    requires Converging(u, base, taps, p) && Possible(p, u, mv) && p' == Moved(cfg, u, p, mv)
             && Converging(u, base, taps, p')
    requires OpenAsTapped(Now(p.server).db, u, taps, p.landed)
    ensures OpenAsTapped(Now(p'.server).db, u, taps, p'.landed)
  {
    if mv.Server? && mv.ev.Step? {
      ServerSteps(cfg, u, p, mv.ev);
      StepKeepsTapped(cfg, u, base, taps, p, mv.ev, p');
    } else {
      OthersLeave(cfg, u, p, mv);
    }
  }

  /** What Converging says of the copy in hand. */
  lemma HeadIsSane(u: UserId, base: map<ClientId, Shift>, taps: seq<Body>, p: Phone, rid: RequestId)
    requires Converging(u, base, taps, p) && p.sent == Some(rid)
    ensures rid in p.server.reqs && Sane(taps, u, p.resolved, p.server.reqs[rid])
            && LocalsOk(p.server.hist, p.server.reqs[rid])
    ensures GoodHist(p.server.hist) && GoodDb(Now(p.server).db) && rid in p.copies
    ensures ClockTaps(taps) && p.resolved < |taps|
  {
    assert CopyOk(taps, u, p.server.reqs[rid], p.copies[rid], p.resolved, p.landed);
    GoodAt(p.server.hist, |p.server.hist| - 1);
  }

  /** Some answer to its lookup, and an id not yet used: the copy can step. */
  lemma CanStep(u: UserId, base: map<ClientId, Shift>, taps: seq<Body>, p: Phone, rid: RequestId)
    returns (found: Option<Entry>, spare: EntryId)
    requires Converging(u, base, taps, p) && p.sent == Some(rid) && !p.server.reqs[rid].pc.Done?
    ensures Enabled(p.server, Step(rid, found, spare))
  {
    HeadIsSane(u, base, taps, p, rid);
    found := SomeAnswer(Now(p.server).db, QueryOf(p.server.reqs[rid]));
    spare := Closable.Unused(Now(p.server).db.Keys);
  }

  lemma GoesOn(cfg: Config, u: UserId, base: map<ClientId, Shift>, taps: seq<Body>, p: Phone, rid: RequestId,
               found: Option<Entry>, spare: EntryId)
    requires Solo(cfg, u, base, taps, p, rid) && !p.server.reqs[rid].pc.Done?
             && Enabled(p.server, Step(rid, found, spare))
    ensures PcFits(p.server.reqs[rid].body, p.server.reqs[rid].pc)
    ensures var r := p.server.reqs[rid];
            var next := NextPc(cfg, Now(p.server), |p.server.hist| - 1, r, found, spare);
            && (Judging(r.pc) ==> !next.Done?) && AtEase(cfg, Now(p.server), taps, p.resolved, r.body, next)
            && Rank(next) < Rank(r.pc) && next != Done(ServerError)
  {
    HeadIsSane(u, base, taps, p, rid);
    var r, i, n := p.server.reqs[rid], Now(p.server), p.resolved;
    assert TapWelcome(cfg, i, u, taps, n);
    if r.body.ClockIn? {
      ClockInGoesOn(cfg, i, |p.server.hist| - 1, u, taps, n, r, found, spare);
    } else {
      if r.pc.OutOpen? && found.Some? {
        FindsItsShift(cfg, u, base, taps, p, found.value);
      }
      ClockOutGoesOn(cfg, i, |p.server.hist| - 1, u, taps, n, r, found, spare);
    }
  }

  /** The anchors, the members and the clock stand still while the copy steps. */
  ghost predicate SameRules(i: Instant, j: Instant) {
    j.anchors == i.anchors && j.members == i.members && j.now == i.now
  }

  lemma StillWelcome(cfg: Config, i: Instant, j: Instant, u: UserId, taps: seq<Body>, n: nat, n': nat, m: nat, m': nat)
    requires ClockTaps(taps) && SameRules(i, j) && n <= n' && Welcoming(cfg, i, u, taps, n, m)
             && OpenAsTapped(j.db, u, taps, m')
    ensures Welcoming(cfg, j, u, taps, n', m')
  {
    forall k: nat | n' <= k < |taps|
      ensures TapWelcome(cfg, j, u, taps, k)
    {
      assert TapWelcome(cfg, i, u, taps, k);
    }
  }

  /** What a step of the copy does to the phone and the server it drains to. */
  ghost predicate WentOn(cfg: Config, p: Phone, rid: RequestId, found: Option<Entry>, spare: EntryId, p': Phone) {
    && |p.server.hist| > 0 && rid in p.server.reqs && PcFits(p.server.reqs[rid].body, p.server.reqs[rid].pc)
    && p'.queue == p.queue && p'.resolved == p.resolved && p'.sent == p.sent
    && var r, i := p.server.reqs[rid], Now(p.server);
       && |p'.server.hist| > 0 && SameRules(i, Now(p'.server))
       && rid in p'.server.reqs
       && p'.server.reqs[rid] == r.(pc := NextPc(cfg, i, |p.server.hist| - 1, r, found, spare))
  }

  lemma Stepped(cfg: Config, u: UserId, p: Phone, rid: RequestId, found: Option<Entry>, spare: EntryId)
    requires rid in p.copies && Enabled(p.server, Step(rid, found, spare))
    ensures WentOn(cfg, p, rid, found, spare, Moved(cfg, u, p, Move.Server(Step(rid, found, spare))))
  {
    assert PcFits(p.server.reqs[rid].body, p.server.reqs[rid].pc);
  }

  lemma SoloKept(cfg: Config, u: UserId, base: map<ClientId, Shift>, taps: seq<Body>, p: Phone, rid: RequestId,
                 found: Option<Entry>, spare: EntryId, p': Phone)
    requires Solo(cfg, u, base, taps, p, rid) && !p.server.reqs[rid].pc.Done?
             && Enabled(p.server, Step(rid, found, spare))
    requires WentOn(cfg, p, rid, found, spare, p') && Converging(u, base, taps, p')
    requires OpenAsTapped(Now(p'.server).db, u, taps, p'.landed)
    ensures Solo(cfg, u, base, taps, p', rid) && p'.queue == p.queue && p'.resolved == p.resolved
    ensures Rank(p'.server.reqs[rid].pc) < Rank(p.server.reqs[rid].pc)
    ensures p'.server.reqs[rid].pc != Done(ServerError)
  {
    GoesOn(cfg, u, base, taps, p, rid, found, spare);
    HeadIsSane(u, base, taps, p', rid);
    StillWelcome(cfg, Now(p.server), Now(p'.server), u, taps, p.resolved, p.resolved, p.landed, p'.landed);
    AtEaseStill(cfg, Now(p.server), Now(p'.server), taps, p.resolved, p'.server.reqs[rid]);
  }

  lemma AtEaseStill(cfg: Config, i: Instant, j: Instant, taps: seq<Body>, n: nat, r: Request)
    requires SameRules(i, j) && AtEase(cfg, i, taps, n, r.body, r.pc)
    ensures AtEase(cfg, j, taps, n, r.body, r.pc)
  {
  }

  lemma SoloStep(cfg: Config, u: UserId, base: map<ClientId, Shift>, taps: seq<Body>, p: Phone, rid: RequestId)
    returns (mv: Move, p': Phone)
    requires Solo(cfg, u, base, taps, p, rid) && !p.server.reqs[rid].pc.Done?
    ensures Possible(p, u, mv) && Favourable(cfg, u, p, mv) && p' == Moved(cfg, u, p, mv)
    ensures Solo(cfg, u, base, taps, p', rid) && p'.queue == p.queue && p'.resolved == p.resolved
    ensures Rank(p'.server.reqs[rid].pc) < Rank(p.server.reqs[rid].pc)
    ensures p'.server.reqs[rid].pc != Done(ServerError)
  {
    var found, spare := CanStep(u, base, taps, p, rid);
    mv := Move.Server(Step(rid, found, spare));
    GoesOn(cfg, u, base, taps, p, rid, found, spare);
    p' := Moved(cfg, u, p, mv);
    MoveKeepsConverging(cfg, u, base, taps, p, mv, p');
    MoveKeepsTapped(cfg, u, base, taps, p, mv, p');
    Stepped(cfg, u, p, rid, found, spare);
    SoloKept(cfg, u, base, taps, p, rid, found, spare, p');
  }

  /* ---- one tap after another ---- */

  lemma {:induction false} Joined(cfg: Config, u: UserId, p: Phone, first: seq<Move>, q: Phone, second: seq<Move>,
                                  r: Phone)
    requires Drains(cfg, u, p, first, q) && Drains(cfg, u, q, second, r)
    ensures Drains(cfg, u, p, first + second, r)
    decreases |first|
  {
    if first == [] {
      assert first + second == second;
    } else {
      assert (first + second)[1..] == first[1..] + second;
      Joined(cfg, u, Moved(cfg, u, p, first[0]), first[1..], q, second, r);
    }
  }

  lemma OneMove(cfg: Config, u: UserId, p: Phone, mv: Move)
    requires Possible(p, u, mv) && Favourable(cfg, u, p, mv)
    ensures Drains(cfg, u, p, [mv], Moved(cfg, u, p, mv))
  {
    assert [mv][1..] == [];
    assert Drains(cfg, u, Moved(cfg, u, p, mv), [], Moved(cfg, u, p, mv));
  }

  /** Left alone, the copy in hand comes to an answer that is neither a refusal nor an error. */
  lemma {:induction false} CopyEnds(cfg: Config, u: UserId, base: map<ClientId, Shift>, taps: seq<Body>, p: Phone,
                                    rid: RequestId)
    returns (moves: seq<Move>, p': Phone)
    requires Solo(cfg, u, base, taps, p, rid) && p.server.reqs[rid].pc != Done(ServerError)
    ensures Drains(cfg, u, p, moves, p') && Solo(cfg, u, base, taps, p', rid) && p'.queue == p.queue
            && p'.resolved == p.resolved
    ensures p'.server.reqs[rid].pc.Done? && Succeeded(p'.server.reqs[rid].pc.answer)
    decreases Rank(p.server.reqs[rid].pc)
  {
    if p.server.reqs[rid].pc.Done? {
      HeadIsNeverRefused(u, base, taps, p);
      moves, p' := [], p;
    } else {
      var mv, q := SoloStep(cfg, u, base, taps, p, rid);
      moves, p' := CopyEnds(cfg, u, base, taps, q, rid);
      OneMove(cfg, u, p, mv);
      Joined(cfg, u, p, [mv], q, moves, p');
      moves := [mv] + moves;
    }
  }

  /** The state of a replay with every tap still queued welcome. */
  ghost predicate Ready(cfg: Config, u: UserId, base: map<ClientId, Shift>, taps: seq<Body>, p: Phone) {
    && Converging(u, base, taps, p) && p.queue == taps[p.resolved..]
    && Welcoming(cfg, Now(p.server), u, taps, p.resolved, p.landed)
  }

  /** Whatever is outstanding is given up, and the head sent afresh. */
  lemma SendsAfresh(cfg: Config, u: UserId, base: map<ClientId, Shift>, taps: seq<Body>, p: Phone)
    returns (moves: seq<Move>, p': Phone, rid: RequestId)
    requires Ready(cfg, u, base, taps, p) && p.queue != []
    ensures Drains(cfg, u, p, moves, p') && Solo(cfg, u, base, taps, p', rid) && p'.queue == p.queue
    ensures p'.resolved == p.resolved && !p'.server.reqs[rid].pc.Done?
  {
    var q := Moved(cfg, u, p, GiveUp);
    MoveKeepsConverging(cfg, u, base, taps, p, GiveUp, q);
    OneMove(cfg, u, p, GiveUp);
    rid := Closable.Unused(q.server.reqs.Keys);
    assert q.queue[0] == taps[q.resolved];
    assert Possible(q, u, Send(rid));
    p' := Moved(cfg, u, q, Send(rid));
    MoveKeepsConverging(cfg, u, base, taps, q, Send(rid), p');
    OneMove(cfg, u, q, Send(rid));
    moves := [GiveUp] + [Send(rid)];
    Joined(cfg, u, p, [GiveUp], q, [Send(rid)], p');
    assert Now(p'.server) == Now(p.server);
  }

  lemma TakesTheAnswer(cfg: Config, u: UserId, base: map<ClientId, Shift>, taps: seq<Body>, p: Phone, rid: RequestId)
    returns (p': Phone)
    requires Solo(cfg, u, base, taps, p, rid) && p.queue == taps[p.resolved..] != []
    requires p.server.reqs[rid].pc.Done? && Succeeded(p.server.reqs[rid].pc.answer)
    ensures Drains(cfg, u, p, [Reply], p') && Ready(cfg, u, base, taps, p') && p'.queue == p.queue[1..]
  {
    p' := Moved(cfg, u, p, Reply);
    MoveKeepsConverging(cfg, u, base, taps, p, Reply, p');
    OneMove(cfg, u, p, Reply);
    StillWelcome(cfg, Now(p.server), Now(p'.server), u, taps, p.resolved, p'.resolved, p.landed, p'.landed);
  }

  /** The queue can be emptied from here, by moves in which nothing more goes wrong. */
  lemma {:induction false} CanEmpty(cfg: Config, u: UserId, base: map<ClientId, Shift>, taps: seq<Body>, p: Phone)
    returns (moves: seq<Move>, p': Phone)
    requires Ready(cfg, u, base, taps, p)
    ensures Drains(cfg, u, p, moves, p') && Ready(cfg, u, base, taps, p') && p'.queue == []
    decreases |p.queue|
  {
    if p.queue == [] {
      moves, p' := [], p;
    } else {
      var start, sent, rid := SendsAfresh(cfg, u, base, taps, p);
      var run, done := CopyEnds(cfg, u, base, taps, sent, rid);
      var next := TakesTheAnswer(cfg, u, base, taps, done, rid);
      var rest: seq<Move>;
      rest, p' := CanEmpty(cfg, u, base, taps, next);
      Joined(cfg, u, p, start, sent, run, done);
      Joined(cfg, u, p, start + run, done, [Reply], next);
      Joined(cfg, u, p, start + run + [Reply], next, rest, p');
      moves := start + run + [Reply] + rest;
    }
  }

  lemma {:induction false} DrainKeepsTapped(cfg: Config, u: UserId, base: map<ClientId, Shift>, taps: seq<Body>,
                                            p: Phone, moves: seq<Move>, p': Phone)
    requires Converging(u, base, taps, p) && OpenAsTapped(Now(p.server).db, u, taps, p.landed)
    requires Drains(cfg, u, p, moves, p') && ToCome(taps, p, moves)
    ensures Converging(u, base, taps, p') && OpenAsTapped(Now(p'.server).db, u, taps, p'.landed)
    decreases |moves|
  {
    if moves != [] {
      var q := Moved(cfg, u, p, moves[0]);
      NextToCome(cfg, u, taps, p, moves);
      MoveKeepsConverging(cfg, u, base, taps, p, moves[0], q);
      MoveKeepsTapped(cfg, u, base, taps, p, moves[0], q);
      DrainKeepsTapped(cfg, u, base, taps, q, moves[1..], p');
    }
  }

  lemma NothingOpenAtFirst(u: UserId, base: map<ClientId, Shift>, taps: seq<Body>, p: Phone)
    requires Converging(u, base, taps, p) && p.landed == 0
    ensures OpenAsTapped(Now(p.server).db, u, taps, 0)
  {
    var db := Now(p.server).db;
    forall id | id in db && db[id].user == u
      ensures db[id].status == Closed
    {
      if db[id].status == Open {
        OpenIsLastTap(db, u, base, taps, 0, id);
      }
    }
  }

  /**
   * However a drain has gone so far, as long as the taps still queued pass the location rules now, it can
   * go on to empty the queue, and then the shifts are those of delivering every tap once, in order.
   */
  lemma EveryDrainCanFinish(cfg: Config, u: UserId, taps: seq<Body>, p0: Phone, before: seq<Move>, p: Phone)
    returns (moves: seq<Move>, p': Phone)
    requires Start(u, taps, p0) && Drains(cfg, u, p0, before, p) && taps == p0.queue + TapsOf(before)
             && |p.server.hist| > 0
    requires forall k: nat {:trigger TapWelcome(cfg, Now(p.server), u, taps, k)} ::
               p.resolved <= k < |taps| ==> TapWelcome(cfg, Now(p.server), u, taps, k)
    ensures Drains(cfg, u, p, moves, p') && p'.queue == [] && p'.refused == []
    ensures |p'.server.hist| > 0 && ShiftsOf(Now(p'.server).db, u) == Deliver(ShiftsOf(Now(p0.server).db, u), taps)
  {
    var base := ShiftsOf(Now(p0.server).db, u);
    StartConverges(u, taps, p0);
    NothingOpenAtFirst(u, base, taps, p0);
    assert taps[0..] == taps;
    DrainKeepsConverging(cfg, u, base, taps, p0, before, p);
    DrainKeepsTapped(cfg, u, base, taps, p0, before, p);
    moves, p' := CanEmpty(cfg, u, base, taps, p);
    EmptyQueueLanded(u, base, taps, p');
    DeliveredMeansDelivered(base, taps, ShiftsOf(Now(p'.server).db, u));
  }
}
