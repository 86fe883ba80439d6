/**
 * Convergence of the outbox itself: its runs beside runs of the server, without loss or sign-out, are drains
 * of the replay, so what the server ends with is what its clock taps, delivered in order, leave.
 */
module OutboxConverges {
  import opened Options
  import opened Geo
  import opened Entries
  import opened Requests
  import opened QueueIsReplayed
  import AnswersAreTrue
  import C = Convergence
  import DrainsFinish
  import K = OutboxConserves
  import O = Outbox
  import R = Replay

  /**
   * The phone and the server side by side. `out` is the request of the send that is out, once it has arrived;
   * `copies` and `settled` are history: the tap each request is an attempt at, and the taps settled so far.
   */
  datatype System = System(
    h: O.History, server: World, out: Option<RequestId>, copies: map<RequestId, nat>, settled: nat)

  datatype Joint =
    | OnPhone(ev: O.Event)
    | Arrives(d: O.DrainId, rid: RequestId)   // the send drain d has out reaches the server
    | Live(rid: RequestId, k: nat)            // the live attempt of the k-th clock tap owed does
    | OnServer(event: Event)

  /** Drain d has the head of the queue out, and it is a clock tap. */
  predicate SendsTap(p: O.Phone, d: O.DrainId) {
    O.SendsHead(p, d) && !p.items[0].PingItem?
  }

  predicate IsClock(b: Body) {
    b.ClockIn? || b.ClockOut?
  }

  predicate Answered(s: System) {
    s.out.Some? && s.out.value in s.server.reqs && s.server.reqs[s.out.value].pc.Done?
  }

  /**
   * What may happen. A verdict on a clock tap is that of the request that carried it, be it a 200 the client
   * could not parse; a send may fail in any other way at any time. The rest is as the replay asks.
   */
  ghost predicate Can(cfg: Config, u: UserId, s: System, j: Joint) {
    match j
    case OnPhone(ev) =>
      && O.MintsNewKeys(s.h, ev) && !O.Loses(s.h.p, ev) && !ev.SignOut?
      && (ev.Enqueue? && !ev.item.PingItem? ==> IsClock(ev.item.body))
      && (ev.Answer? && SendsTap(s.h.p, ev.d) && O.Settles(ev.outcome) ==>
            && Answered(s)
            && var a := s.server.reqs[s.out.value].pc.answer;
               if ev.outcome.Accepted? then R.Succeeded(a) else a.Refused? || R.Succeeded(a))
    case Arrives(d, rid) =>
      && SendsTap(s.h.p, d) && IsClock(s.h.p.items[0].body) && s.out == None && rid !in s.copies
      && Enabled(s.server, Submit(rid, u, R.ReplayBody(s.h.p.items[0].body)))
    case Live(rid, k) =>
      var q := Queued(s.h.p);
      && k < |q| && IsClock(q[k]) && !q[k].fix.queued && rid !in s.copies && Enabled(s.server, Submit(rid, u, q[k]))
    case OnServer(ev) =>
      && Enabled(s.server, ev) && (ev.Submit? ==> ev.rid !in s.copies)
      && (ev.Submit? && ev.user == u ==> ev.body.AssignTo? || ev.body.Pings?)
      && (ev.Step? && ev.rid in s.copies ==>
            var r, next := s.server.reqs[ev.rid], Apply(cfg, s.server, ev);
            && (R.Marked(r.body) && R.Judging(r.pc) ==> !next.reqs[ev.rid].pc.Done?)
            && (TakesEffect(s.server, ev) ==> s.copies[ev.rid] <= s.settled))
  }

  predicate TakesEffect(w: World, ev: Event)
    requires |w.hist| > 0 && ev.Step? && ev.rid in w.reqs && PcFits(w.reqs[ev.rid].body, w.reqs[ev.rid].pc)
  {
    var cmd := CommandOf(w.reqs[ev.rid], ev.newId);
    cmd.Some? && Takes(Now(w).db, cmd.value)
  }

  ghost function Next(cfg: Config, u: UserId, s: System, j: Joint): System
    requires Can(cfg, u, s, j)
  {
    match j
    case OnPhone(ev) =>
      var ends := ev.Relaunch? || (ev.Answer? && SendsTap(s.h.p, ev.d));
      var settles := ev.Answer? && SendsTap(s.h.p, ev.d) && O.Settles(ev.outcome);
      s.(h := O.Step(s.h, ev), out := if ends then None else s.out, settled := s.settled + if settles then 1 else 0)
    case Arrives(_, rid) =>
      s.(server := Apply(cfg, s.server, Submit(rid, u, R.ReplayBody(s.h.p.items[0].body))), out := Some(rid),
         copies := s.copies[rid := s.settled])
    case Live(rid, k) =>
      s.(server := Apply(cfg, s.server, Submit(rid, u, Queued(s.h.p)[k])), copies := s.copies[rid := s.settled + k])
    case OnServer(ev) => s.(server := Apply(cfg, s.server, ev))
  }

  ghost predicate Joins(cfg: Config, u: UserId, s: System, js: seq<Joint>, s': System)
    decreases |js|
  {
    if js == [] then s' == s
    else Can(cfg, u, s, js[0]) && Joins(cfg, u, Next(cfg, u, s, js[0]), js[1..], s')
  }

  /** The clock taps queued during a run. */
  function TapsIn(js: seq<Joint>): seq<Body> {
    if js == [] then [] else NewTap(js[0]) + TapsIn(js[1..])
  }

  function NewTap(j: Joint): seq<Body> {
    if j.OnPhone? && j.ev.Enqueue? then TapOf(j.ev.item) else []
  }

  /** The replay's phone that follows the system. */
  ghost predicate Follows(s: System, r: R.Phone) {
    && O.Conserved(s.h) && r.server == s.server && r.queue == Queued(s.h.p) && r.sent == s.out
    && r.copies == s.copies && r.resolved == s.settled
  }

  /** The replay's move for a joint step; None where the replay stands still. */
  ghost function MoveOf(s: System, j: Joint): Option<R.Move> {
    match j
    case OnPhone(ev) =>
      if ev.Enqueue? && !ev.item.PingItem? then Some(R.Tap(ev.item.body))
      else if ev.Relaunch? then Some(R.GiveUp)
      else if ev.Answer? && SendsTap(s.h.p, ev.d) then
        if !O.Settles(ev.outcome) then Some(R.GiveUp)
        else if ev.outcome.Failed? && Answered(s) && R.Succeeded(s.server.reqs[s.out.value].pc.answer)
        then Some(R.Truncated)
        else Some(R.Reply)
      else None
    case Arrives(_, rid) => Some(R.Send(rid))
    case Live(rid, k) => Some(R.Live(rid, k))
    case OnServer(ev) => Some(R.Server(ev))
  }

  lemma PhoneMoves(cfg: Config, u: UserId, s: System, ev: O.Event, r: R.Phone)
    requires Can(cfg, u, s, OnPhone(ev)) && Follows(s, r)
    ensures var mv := MoveOf(s, OnPhone(ev));
            && (mv.Some? ==> R.Possible(r, u, mv.value) && R.Favourable(cfg, u, r, mv.value))
            && IsMove(s.h.p, ev, r, mv)
  {
    if ev.Answer? && SendsTap(s.h.p, ev.d) {
      SendIsSend(s.h, ev.d);
    }
  }

  lemma PhoneFollows(cfg: Config, u: UserId, s: System, ev: O.Event, r: R.Phone)
    requires Can(cfg, u, s, OnPhone(ev)) && Follows(s, r)
    requires var mv := MoveOf(s, OnPhone(ev)); mv.Some? ==> R.Possible(r, u, mv.value)
    requires IsMove(s.h.p, ev, r, MoveOf(s, OnPhone(ev)))
    ensures var mv := MoveOf(s, OnPhone(ev));
            Follows(Next(cfg, u, s, OnPhone(ev)), if mv.Some? then R.Moved(cfg, u, r, mv.value) else r)
  {
    var mv := MoveOf(s, OnPhone(ev));
    EventIsMove(cfg, u, s.h, ev, r, mv);
    K.StepKeeps(s.h, ev);
    if ev.Answer? && SendsTap(s.h.p, ev.d) {
      SendIsSend(s.h, ev.d);
    }
  }

  lemma ServerMoves(cfg: Config, u: UserId, s: System, j: Joint, r: R.Phone)
    requires Can(cfg, u, s, j) && Follows(s, r) && !j.OnPhone?
    ensures var mv := MoveOf(s, j).value;
            && MoveOf(s, j).Some? && R.Possible(r, u, mv) && R.Favourable(cfg, u, r, mv)
            && Follows(Next(cfg, u, s, j), R.Moved(cfg, u, r, mv))
  {
    if j.Arrives? {
      SendIsSend(s.h, j.d);
    }
  }

  /** One joint step is one move of the replay, or none. */
  lemma StepFollows(cfg: Config, u: UserId, s: System, j: Joint, r: R.Phone) returns (moves: seq<R.Move>, r': R.Phone)
    requires Can(cfg, u, s, j) && Follows(s, r)
    ensures R.Drains(cfg, u, r, moves, r') && Follows(Next(cfg, u, s, j), r') && R.TapsOf(moves) == NewTap(j)
  {
    var mv := MoveOf(s, j);
    if j.OnPhone? {
      PhoneMoves(cfg, u, s, j.ev, r);
      PhoneFollows(cfg, u, s, j.ev, r);
    } else {
      ServerMoves(cfg, u, s, j, r);
    }
    if mv.Some? {
      moves, r' := [mv.value], R.Moved(cfg, u, r, mv.value);
      DrainsFinish.OneMove(cfg, u, r, mv.value);
      assert R.TapsOf([]) == [] && [mv.value][1..] == [];
    } else {
      moves, r' := [], r;
    }
  }

  lemma {:induction false} TapsOfAppend(a: seq<R.Move>, b: seq<R.Move>)
    ensures R.TapsOf(a + b) == R.TapsOf(a) + R.TapsOf(b)
  {
    if a == [] {
      assert a + b == b;
    } else {
      assert (a + b)[1..] == a[1..] + b && (a + b)[0] == a[0];
      TapsOfAppend(a[1..], b);
      K.Regrouped(if a[0].Tap? then [a[0].body] else [], R.TapsOf(a[1..]), R.TapsOf(b));
    }
  }

  /** A run of the system is a drain of the replay. */
  lemma {:induction false} RunFollows(cfg: Config, u: UserId, s: System, js: seq<Joint>, s': System, r: R.Phone)
    returns (moves: seq<R.Move>, r': R.Phone)
    requires Joins(cfg, u, s, js, s') && Follows(s, r)
    ensures R.Drains(cfg, u, r, moves, r') && Follows(s', r') && R.TapsOf(moves) == TapsIn(js)
    decreases |js|
  {
    if js == [] {
      moves, r' := [], r;
    } else {
      var first, mid := StepFollows(cfg, u, s, js[0], r);
      var rest: seq<R.Move>;
      rest, r' := RunFollows(cfg, u, Next(cfg, u, s, js[0]), js[1..], s', mid);
      DrainsFinish.Joined(cfg, u, r, first, mid, rest, r');
      TapsOfAppend(first, rest);
      moves := first + rest;
    }
  }

  /** The outbox owes the taps it holds, none of them tried yet, and the user has no clock request running. */
  ghost predicate AtRest(u: UserId, s: System) {
    && O.Conserved(s.h) && AnswersAreTrue.Inv(s.server) && s.out == None && s.copies == map[] && s.settled == 0
    && forall rid :: rid in s.server.reqs && C.LiveClock(s.server.reqs[rid]) ==> s.server.reqs[rid].user != u
  }

  /**
   * The outbox converges. Whatever is tapped, flushed, killed and relaunched on the phone, lost, retried or
   * finished late on the way, and whatever runs beside it on the server: once no clock tap is owed, in memory
   * or in storage, the user's shifts are those of delivering every tap once, in order.
   */
  lemma OutboxDelivers(cfg: Config, u: UserId, s: System, js: seq<Joint>, s': System)
    requires AtRest(u, s) && Joins(cfg, u, s, js, s') && Queued(s'.h.p) == []
    requires var taps := Queued(s.h.p) + TapsIn(js);
             R.Queueable(taps) && R.FreshFor(R.ShiftsOf(Now(s.server).db, u), taps)
    ensures |s'.server.hist| > 0
    ensures R.ShiftsOf(Now(s'.server).db, u) == R.Deliver(R.ShiftsOf(Now(s.server).db, u), Queued(s.h.p) + TapsIn(js))
    ensures var taps, db := Queued(s.h.p) + TapsIn(js), Now(s'.server).db;
            forall k: nat {:trigger C.HasDocument(db, u, taps, k)} ::
              k < |taps| && taps[k].ClockIn? ==> C.HasDocument(db, u, taps, k)
  {
    var taps := Queued(s.h.p) + TapsIn(js);
    var r := R.Phone(s.server, Queued(s.h.p), None, [], map[], 0, 0);
    assert C.Start(u, taps, r);
    var moves, r' := RunFollows(cfg, u, s, js, s', r);
    C.ReplayConverges(cfg, u, taps, r, moves, r');
    C.EveryTapHasItsDocument(cfg, u, taps, r, moves, r');
  }
}
