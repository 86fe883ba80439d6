/**
 * Replaying the phone's queue (mobile/src/stores/outbox.ts drain) against the concurrent server:
 * sends may fail before or after taking effect, and a timed-out copy may finish late, overlapping
 * its own replay and later items. Other users, and this user's assigns and pings, run alongside.
 */
module Replay {
  import opened Options
  import opened Geo
  import opened Entries
  import opened Requests

  /** What the employer and the worker care about: one shift, by its keys and capture points. */
  datatype Shift = Shift(start: ClockPoint, end: Option<(ClientId, ClockPoint)>)

  ghost function ShiftOf(e: Entry): Shift {
    Shift(e.clockIn,
          if e.status == Closed && e.closeClientId.Some? && e.clockOut.Some?
          then Some((e.closeClientId.value, e.clockOut.value)) else None)
  }

  ghost function ClientIdsOf(db: Db, u: UserId): set<ClientId> {
    set id | id in db && db[id].user == u :: db[id].clientId
  }

  ghost function EntryFor(db: Db, u: UserId, c: ClientId): EntryId
    requires c in ClientIdsOf(db, u)
  {
    var id :| id in db && db[id].user == u && db[id].clientId == c;
    id
  }

  /** A user's shifts by clock-in key. */
  ghost function ShiftsOf(db: Db, u: UserId): map<ClientId, Shift> {
    map c | c in ClientIdsOf(db, u) :: ShiftOf(db[EntryFor(db, u, c)])
  }

  /** One tap delivered in order, once, with nothing going wrong. */
  ghost function DeliverOne(shifts: map<ClientId, Shift>, tap: Body): map<ClientId, Shift>
    requires tap.ClockIn? || tap.ClockOut?
  {
    if tap.ClockIn? then shifts[tap.clientId := Shift(PointOf(tap.fix), None)]
    else
      map c | c in shifts ::
        if shifts[c].end.None? then shifts[c].(end := Some((tap.clientId, PointOf(tap.fix)))) else shifts[c]
  }

  ghost predicate ClockTaps(taps: seq<Body>) {
    && (forall k :: 0 <= k < |taps| ==> taps[k].ClockIn? || taps[k].ClockOut?)
    && (forall k: nat {:trigger Alternates(taps, k)} :: k < |taps| ==> Alternates(taps, k))
  }

  /** The first tap is a clock-in, and no two neighbours are of one kind. */
  ghost predicate Alternates(taps: seq<Body>, k: nat)
    requires k < |taps|
  {
    if k == 0 then taps[0].ClockIn? else taps[k].ClockOut? <==> taps[k - 1].ClockIn?
  }

  ghost function Deliver(shifts: map<ClientId, Shift>, taps: seq<Body>): map<ClientId, Shift>
    requires ClockTaps(taps)
  {
    if taps == [] then shifts
    else
      PrefixAlternates(taps, |taps| - 1);
      DeliverOne(Deliver(shifts, taps[..|taps| - 1]), taps[|taps| - 1])
  }

  /** The phone stamps a fix with toISOString (mobile/src/location/fix.ts), which names whole milliseconds. */
  predicate Stamped(tap: Body)
    requires tap.ClockIn? || tap.ClockOut?
  {
    Ms(tap.fix.at) == tap.fix.at
  }

  /** A worker's queue: alternating taps captured in order, each under its own key. */
  ghost predicate Queueable(taps: seq<Body>) {
    && ClockTaps(taps) && (forall k :: 0 <= k < |taps| ==> Stamped(taps[k]))
    && (forall j: nat, k: nat {:trigger Before(taps, j, k)} :: j < k < |taps| ==> Before(taps, j, k))
  }

  /** Tap j was captured before tap k, under another key. */
  ghost predicate Before(taps: seq<Body>, j: nat, k: nat)
    requires ClockTaps(taps) && j < |taps| && k < |taps|
  {
    taps[j].fix.at < taps[k].fix.at && taps[j].clientId != taps[k].clientId
  }

  /** Keys no earlier shift used, and nothing left open. */
  ghost predicate FreshFor(shifts: map<ClientId, Shift>, taps: seq<Body>)
    requires ClockTaps(taps)
  {
    && (forall c :: c in shifts ==> shifts[c].end.Some?)
    && (forall k :: 0 <= k < |taps| ==> taps[k].clientId !in shifts)
    && (forall c, k: nat {:trigger ClosedUnder(shifts, c, taps[k].clientId)} :: c in shifts && k < |taps| ==>
           !ClosedUnder(shifts, c, taps[k].clientId))
  }

  ghost predicate ClosedUnder(shifts: map<ClientId, Shift>, c: ClientId, id: ClientId)
    requires c in shifts && shifts[c].end.Some?
  {
    shifts[c].end.value.0 == id
  }

  /**
   * What in-order delivery of the first m taps leaves: the old shifts untouched, each clock-in
   * under its key, each close on the shift it was tapped for, and open only a final clock-in.
   */
  ghost predicate Delivered(base: map<ClientId, Shift>, taps: seq<Body>, m: nat, s: map<ClientId, Shift>)
    requires ClockTaps(taps) && m <= |taps|
  {
    && (forall c :: c in base ==> c in s && s[c] == base[c])
    && (forall k: nat {:trigger TappedShift(taps, m, k)} :: k < m && taps[k].ClockIn? ==>
          taps[k].clientId in s && s[taps[k].clientId] == TappedShift(taps, m, k))
    && (forall c :: c in s ==> c in base || Tapped(taps, m, c))
  }

  /** The shift tap k started, as the first m taps leave it. */
  ghost function TappedShift(taps: seq<Body>, m: nat, k: nat): Shift
    requires ClockTaps(taps) && k < m <= |taps|
  {
    var f := taps[k].fix;
    Shift(ClockPoint(f.at, f.loc, f.accuracy, f.mocked),
          if k + 1 < m then
            var g := taps[k + 1].fix;
            Some((taps[k + 1].clientId, ClockPoint(g.at, g.loc, g.accuracy, g.mocked)))
          else None)
  }

  ghost predicate Tapped(taps: seq<Body>, m: nat, c: ClientId)
    requires m <= |taps|
  {
    exists k :: 0 <= k < m && taps[k].ClockIn? && c == taps[k].clientId
  }

  lemma OneMoreClockIn(base: map<ClientId, Shift>, taps: seq<Body>, m: nat, s: map<ClientId, Shift>)
    requires Queueable(taps) && FreshFor(base, taps) && m < |taps| && taps[m].ClockIn? && Delivered(base, taps, m, s)
    ensures Delivered(base, taps, m + 1, DeliverOne(s, taps[m]))
  {
    var t := DeliverOne(s, taps[m]);
    forall k: nat | k < m + 1 && taps[k].ClockIn?
      ensures taps[k].clientId in t && t[taps[k].clientId] == TappedShift(taps, m + 1, k)
    {
      if k < m {
        assert Before(taps, k, m);
        assert TappedShift(taps, m, k).start == s[taps[k].clientId].start;
        assert Alternates(taps, k + 1);
      }
    }
    forall c | c in t
      ensures c in base || Tapped(taps, m + 1, c)
    {
      if c in s && c !in base {
        assert Tapped(taps, m, c);
      }
    }
  }

  lemma CloseReachesItsShift(base: map<ClientId, Shift>, taps: seq<Body>, m: nat, s: map<ClientId, Shift>, k: nat)
    requires ClockTaps(taps) && m < |taps| && taps[m].ClockOut? && Delivered(base, taps, m, s)
    requires k < m && taps[k].ClockIn?
    ensures var c, t := taps[k].clientId, DeliverOne(s, taps[m]); c in t && t[c] == TappedShift(taps, m + 1, k)
  {
    assert TappedShift(taps, m, k) == s[taps[k].clientId];
  }

  lemma OneMoreClockOut(base: map<ClientId, Shift>, taps: seq<Body>, m: nat, s: map<ClientId, Shift>)
    requires ClockTaps(taps) && FreshFor(base, taps) && m < |taps| && taps[m].ClockOut? && Delivered(base, taps, m, s)
    ensures Delivered(base, taps, m + 1, DeliverOne(s, taps[m]))
  {
    var t := DeliverOne(s, taps[m]);
    assert forall c :: c in t <==> c in s;
    forall k: nat | k < m + 1 && taps[k].ClockIn?
      ensures taps[k].clientId in t && t[taps[k].clientId] == TappedShift(taps, m + 1, k)
    {
      CloseReachesItsShift(base, taps, m, s, k);
    }
    forall c | c in t
      ensures c in base || Tapped(taps, m + 1, c)
    {
      assert c in base || Tapped(taps, m, c);
    }
  }

  lemma PrefixAlternates(taps: seq<Body>, m: nat)
    requires ClockTaps(taps) && m <= |taps|
    ensures ClockTaps(taps[..m])
  {
    forall k: nat | k < m
      ensures Alternates(taps[..m], k)
    {
      assert Alternates(taps, k);
    }
  }

  lemma DeliverLast(base: map<ClientId, Shift>, taps: seq<Body>, m: nat)
    requires 0 < m <= |taps| && ClockTaps(taps[..m]) && ClockTaps(taps[..m - 1])
    ensures taps[m - 1].ClockIn? || taps[m - 1].ClockOut?
    ensures Deliver(base, taps[..m]) == DeliverOne(Deliver(base, taps[..m - 1]), taps[m - 1])
  {
    assert taps[..m][..m - 1] == taps[..m - 1] && taps[..m][m - 1] == taps[m - 1];
  }

  lemma {:induction false} InOrderDelivery(base: map<ClientId, Shift>, taps: seq<Body>, m: nat)
    requires Queueable(taps) && FreshFor(base, taps) && m <= |taps|
    ensures ClockTaps(taps[..m]) && Delivered(base, taps, m, Deliver(base, taps[..m]))
  {
    PrefixAlternates(taps, m);
    if m > 0 {
      InOrderDelivery(base, taps, m - 1);
      DeliverLast(base, taps, m);
      if taps[m - 1].ClockIn? {
        OneMoreClockIn(base, taps, m - 1, Deliver(base, taps[..m - 1]));
      } else {
        OneMoreClockOut(base, taps, m - 1, Deliver(base, taps[..m - 1]));
      }
    }
  }

  /** send(): the queued body goes out unchanged but for the queued mark. */
  function ReplayBody(b: Body): Body
    requires b.ClockIn? || b.ClockOut?
  {
    b.(fix := b.fix.(queued := true))
  }

  /** A copy made by the queue carries the mark; the live attempt of the tap itself does not. */
  predicate Marked(b: Body) {
    (b.ClockIn? || b.ClockOut?) && b.fix.queued
  }

  /**
   * The phone with its taps still to be settled, the head first: at most one send of the queue
   * outstanding. `copies` and `landed` are history: which tap each request copies, and how many taps
   * have taken effect on the server.
   */
  datatype Phone = Phone(
    server: World, queue: seq<Body>, sent: Option<RequestId>, refused: seq<Refusal>,
    copies: map<RequestId, nat>, landed: nat, resolved: nat)

  datatype Move =
    | Tap(body: Body)                // a further tap joins the end of the queue
    | Live(rid: RequestId, k: nat)   // the live attempt of the k-th tap still to be settled reaches the server
    | Taken(rid: RequestId)          // a live attempt of the head is answered, accepted: it need not be replayed
    | Send(rid: RequestId)           // the head reaches the server, now or after any delay
    | Reply                          // the outstanding request's answer arrives
    | Truncated                      // it arrives as a 200 whose body cannot be parsed
    | GiveUp                         // timeout, lost reply, or the app was killed: the copy lives on
    | Server(ev: Event)              // anything happening server-side, other users included

  ghost predicate Possible(p: Phone, u: UserId, mv: Move) {
    match mv
    case Tap(b) => b.ClockIn? || b.ClockOut?
    case Live(rid, k) =>
      && k < |p.queue| && (p.queue[k].ClockIn? || p.queue[k].ClockOut?) && !p.queue[k].fix.queued
      && Enabled(p.server, Submit(rid, u, p.queue[k])) && rid !in p.copies
    case Taken(rid) =>
      && p.queue != [] && rid in p.copies && p.copies[rid] == p.resolved && rid in p.server.reqs
      && !Marked(p.server.reqs[rid].body) && p.server.reqs[rid].pc.Done? && Succeeded(p.server.reqs[rid].pc.answer)
    case Send(rid) =>
      && p.queue != [] && p.sent == None && (p.queue[0].ClockIn? || p.queue[0].ClockOut?)
      && Enabled(p.server, Submit(rid, u, ReplayBody(p.queue[0]))) && rid !in p.copies
    case Reply =>
      p.queue != [] && p.sent.Some? && p.sent.value in p.server.reqs && p.server.reqs[p.sent.value].pc.Done?
    case Truncated =>
      && p.queue != [] && p.sent.Some? && p.sent.value in p.server.reqs && p.server.reqs[p.sent.value].pc.Done?
      && Succeeded(p.server.reqs[p.sent.value].pc.answer)
    case GiveUp => true
    case Server(ev) => Enabled(p.server, ev) && (ev.Submit? ==> ev.rid !in p.copies)
  }

  predicate Succeeded(a: Answer) {
    a.Created? || a.Replayed? || a.ClosedNow? || a.Assigned? || a.Accepted?
  }

  /** A write by a copy of a queued tap that takes effect in this event. */
  predicate Lands(p: Phone, ev: Event)
    requires |p.server.hist| > 0
    requires forall rid :: rid in p.server.reqs ==> PcFits(p.server.reqs[rid].body, p.server.reqs[rid].pc)
  {
    ev.Step? && ev.rid in p.copies && ev.rid in p.server.reqs
    && var cmd := CommandOf(p.server.reqs[ev.rid], ev.newId);
       cmd.Some? && Takes(Now(p.server).db, cmd.value)
  }

  /** drain(): an item leaves on acceptance or on a refusal no retry can change. */
  function Resolve(p: Phone, refusal: seq<Refusal>): Phone
    requires p.queue != []
  {
    p.(queue := p.queue[1..], sent := None, refused := p.refused + refusal, resolved := p.resolved + 1)
  }

  function Moved(cfg: Config, u: UserId, p: Phone, mv: Move): Phone
    requires Possible(p, u, mv)
  {
    match mv
    case Tap(b) => p.(queue := p.queue + [b])
    case Live(rid, k) =>
      p.(server := Apply(cfg, p.server, Submit(rid, u, p.queue[k])), copies := p.copies[rid := p.resolved + k])
    case Taken(_) => Resolve(p, [])
    case Send(rid) =>
      p.(server := Apply(cfg, p.server, Submit(rid, u, ReplayBody(p.queue[0]))), sent := Some(rid),
        copies := p.copies[rid := p.resolved])
    case Reply =>
      var a := p.server.reqs[p.sent.value].pc.answer;
      if a.ServerError? then p.(sent := None)
      else if a.Refused? then Resolve(p, [a.code])
      else Resolve(p, [])
    case Truncated => Resolve(p, [])
    case GiveUp => p.(sent := None)
    case Server(ev) => p.(server := Apply(cfg, p.server, ev), landed := p.landed + if Lands(p, ev) then 1 else 0)
  }

  /** A reply takes the head off the queue unless it is the server's own failure; a refusal is kept for the record. */
  lemma WhatAReplyDoes(cfg: Config, u: UserId, p: Phone)
    requires Possible(p, u, Reply)
    ensures var a, q := p.server.reqs[p.sent.value].pc.answer, Moved(cfg, u, p, Reply);
            && q.sent == None && q.server == p.server && q.landed == p.landed
            && if a.ServerError? then q.queue == p.queue && q.refused == p.refused && q.resolved == p.resolved
               else
                 && q.queue == p.queue[1..] && q.resolved == p.resolved + 1
                 && q.refused == p.refused + (if a.Refused? then [a.code] else [])
  {
    assert p.refused + [] == p.refused;
  }

  /**
   * The fix passes the location rules at every attempt the queue makes, whichever copy makes it; no live
   * attempt takes effect ahead of taps not yet settled; and the user's other requests, if any, are
   * assigns and pings.
   */
  ghost predicate Favourable(cfg: Config, u: UserId, p: Phone, mv: Move)
    requires Possible(p, u, mv)
  {
    mv.Server? ==>
      && (mv.ev.Step? && mv.ev.rid in p.copies && Marked(p.server.reqs[mv.ev.rid].body)
          && Judging(p.server.reqs[mv.ev.rid].pc) ==>
            !Apply(cfg, p.server, mv.ev).reqs[mv.ev.rid].pc.Done?)
      && (Lands(p, mv.ev) ==> p.copies[mv.ev.rid] <= p.resolved)
      && (mv.ev.Submit? && mv.ev.user == u ==> mv.ev.body.AssignTo? || mv.ev.body.Pings?)
  }

  predicate Judging(pc: Pc) {
    pc.InMember? || pc.InAnchor? || pc.InJudge? || pc.OutAnchor? || pc.OutJudge?
  }

  /** The taps made during a run of moves. */
  function TapsOf(moves: seq<Move>): seq<Body> {
    if moves == [] then [] else (if moves[0].Tap? then [moves[0].body] else []) + TapsOf(moves[1..])
  }

  ghost predicate Drains(cfg: Config, u: UserId, p: Phone, moves: seq<Move>, p': Phone)
    decreases |moves|
  {
    if moves == [] then p' == p
    else
      && Possible(p, u, moves[0]) && Favourable(cfg, u, p, moves[0])
      && Drains(cfg, u, Moved(cfg, u, p, moves[0]), moves[1..], p')
  }
}
