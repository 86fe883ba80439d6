/**
 * A clock tap whose request is still out when the worker signs out (mobile/src/lib/clockFlow.ts,
 * signOut.ts): exactly when it is queued, sent or shown after all, and that nothing else of the earlier
 * worker is.
 */
module TapsAcrossSignOut {
  import opened Options
  import opened Geo
  import opened Entries
  import opened Requests
  import Q = Queue
  import O = Outbox
  import C = ClockStores
  import F = ClockFlows
  import S = SignOutIsClean

  type TapId = nat

  /** Both stores, and the taps between their two halves. */
  datatype Device = Device(clock: C.Clock, outbox: O.Phone, taps: map<TapId, F.Tap>)

  datatype Happening =
    | TapsIn(t: TapId, user: UserId, key: ClientId, employer: Option<EmployerId>, fix: Fix, now: int)
    | TapsOut(t: TapId, key: ClientId, fix: Fix, now: int)
    | Ends(t: TapId, reply: F.Reply, h: C.HydrateId)
    | Fetches(fetch: C.Event)      // a hydrate begins, is answered, or fails
    | ClearsPill                   // a finished sync shows what is shown, nothing pending
    | Drains(ev: O.Event)          // anything of the queue but a clock tap, a sign-out or a kill
    | SignsOut
    | Killed

  predicate IsFetch(ev: C.Event) {
    ev.Begin? || ev.Answered? || ev.Failed?
  }

  predicate IsDraining(ev: O.Event) {
    !ev.SignOut? && !ev.Relaunch? && (ev.Enqueue? ==> ev.item.PingItem?)
  }

  const NEW_DEVICE := Device(C.NOTHING_YET, O.NEW_PHONE, map[])

  function After(d: Device, hap: Happening): Device {
    match hap
    case TapsIn(t, user, key, employer, fix, now) =>
      if t in d.taps then d
      else
        d.(clock := C.Step(d.clock, C.SetPending(Some(F.LocalEntry(user, key, employer, fix)), now)),
           taps := d.taps[t := F.TapIn(ClockIn(key, employer, fix))])
    case TapsOut(t, key, fix, now) =>
      if t in d.taps || d.clock.openEntry.None? then d
      else
        d.(clock := C.Step(d.clock, C.SetPending(None, now)),
           taps := d.taps[t := F.TapOut(d.clock.openEntry.value, ClockOut(key, fix))])
    case Ends(t, reply, h) =>
      if t !in d.taps then d
      else
        Device(F.EndedClock(d.clock, d.taps[t], reply, h), F.EndedOutbox(d.outbox, d.taps[t], reply), d.taps - {t})
    case Fetches(ev) => if IsFetch(ev) then d.(clock := C.Step(d.clock, ev)) else d
    case ClearsPill => d.(clock := C.Step(d.clock, C.SetOpen(d.clock.openEntry)))
    case Drains(ev) => if IsDraining(ev) then d.(outbox := O.After(d.outbox, ev)) else d
    case SignsOut => d.(clock := C.Step(d.clock, C.Reset), outbox := O.After(d.outbox, O.SignOut))
    case Killed => Device(C.NOTHING_YET, O.After(d.outbox, O.Relaunch), map[])
  }

  function Run(d: Device, haps: seq<Happening>): Device
    decreases |haps|
  {
    if haps == [] then d else Run(After(d, haps[0]), haps[1..])
  }

  /* ---- the queue ---- */

  /** What a happening is to the queue. */
  function OutboxEvents(d: Device, hap: Happening): seq<O.Event> {
    match hap
    case Ends(t, reply, _) => if t in d.taps && F.Kept(reply) then [O.Enqueue(d.taps[t].item)] else []
    case Drains(ev) => if IsDraining(ev) then [ev] else []
    case SignsOut => [O.SignOut]
    case Killed => [O.Relaunch]
    case _ => []
  }

  function Trace(d: Device, haps: seq<Happening>): seq<O.Event>
    decreases |haps|
  {
    if haps == [] then [] else OutboxEvents(d, haps[0]) + Trace(After(d, haps[0]), haps[1..])
  }

  lemma {:induction false} PhonesAppend(p: O.Phone, a: seq<O.Event>, b: seq<O.Event>)
    ensures O.Phones(p, a + b) == O.Phones(O.Phones(p, a), b)
    decreases |a|
  {
    if a == [] {
      assert a + b == b;
    } else {
      assert (a + b)[1..] == a[1..] + b;
      PhonesAppend(O.After(p, a[0]), a[1..], b);
    }
  }

  lemma OneEvent(p: O.Phone, ev: O.Event)
    ensures O.Phones(p, [ev]) == O.After(p, ev)
  {
    assert [ev][1..] == [];
  }

  lemma HappensToTheQueue(d: Device, hap: Happening)
    ensures After(d, hap).outbox == O.Phones(d.outbox, OutboxEvents(d, hap))
  {
    if OutboxEvents(d, hap) != [] {
      OneEvent(d.outbox, OutboxEvents(d, hap)[0]);
    }
  }

  lemma {:induction false} RunIsTrace(d: Device, haps: seq<Happening>)
    ensures Run(d, haps).outbox == O.Phones(d.outbox, Trace(d, haps))
    decreases |haps|
  {
    if haps != [] {
      HappensToTheQueue(d, haps[0]);
      RunIsTrace(After(d, haps[0]), haps[1..]);
      PhonesAppend(d.outbox, OutboxEvents(d, haps[0]), Trace(After(d, haps[0]), haps[1..]));
    }
  }

  /** The tap out under t ends kept: its request failed in a way a retry may change, with the app still running. */
  predicate EndsKept(haps: seq<Happening>, t: TapId) {
    haps != [] &&
    if haps[0].Ends? && haps[0].t == t then F.MaySucceedYet(haps[0].reply)
    else !haps[0].Killed? && EndsKept(haps[1..], t)
  }

  /** The items of taps and ping batches that begin during a run. */
  ghost function Begun(d: Device, haps: seq<Happening>): set<Q.Item>
    decreases |haps|
  {
    if haps == [] then {} else BegunBy(d, haps[0]) + Begun(After(d, haps[0]), haps[1..])
  }

  ghost function BegunBy(d: Device, hap: Happening): set<Q.Item> {
    match hap
    case TapsIn(t, _, _, _, _, _) => if t in d.taps then {} else {After(d, hap).taps[t].item}
    case TapsOut(t, _, _, _) => if t in d.taps || d.clock.openEntry.None? then {} else {After(d, hap).taps[t].item}
    case Drains(ev) => if IsDraining(ev) then S.NewItems(ev) else {}
    case _ => {}
  }

  /** The items of the taps out at the start that end kept. */
  ghost function Crossing(d: Device, haps: seq<Happening>): set<Q.Item> {
    set t | t in d.taps && EndsKept(haps, t) :: d.taps[t].item
  }

  predicate ClockTaps(d: Device) {
    forall t :: t in d.taps ==> !d.taps[t].item.PingItem?
  }

  lemma {:induction false} QueuedAppend(a: seq<O.Event>, b: seq<O.Event>)
    ensures S.Queued(a + b) == S.Queued(a) + S.Queued(b)
  {
    if a == [] {
      assert a + b == b;
    } else {
      assert (a + b)[1..] == a[1..] + b;
      QueuedAppend(a[1..], b);
    }
  }

  lemma QueuedNow(d: Device, hap: Happening)
    requires ClockTaps(d)
    ensures ClockTaps(After(d, hap))
    ensures S.Queued(OutboxEvents(d, hap)) ==
            match hap
            case Ends(t, reply, _) => if t in d.taps && F.Kept(reply) then {d.taps[t].item} else {}
            case Drains(ev) => if IsDraining(ev) then S.NewItems(ev) else {}
            case _ => {}
  {
    var evs := OutboxEvents(d, hap);
    if evs != [] {
      assert evs == [evs[0]] && evs[1..] == [];
      assert S.Queued(evs) == S.NewItems(evs[0]) + S.Queued([]);
    }
  }

  /** What a run queues is what crosses and what begins, no more. */
  lemma {:induction false} OnlyTheseAreQueued(d: Device, haps: seq<Happening>, x: Q.Item)
    requires ClockTaps(d) && x in S.Queued(Trace(d, haps))
    ensures x in Crossing(d, haps) || x in Begun(d, haps)
    decreases |haps|
  {
    var hap, rest, next := haps[0], haps[1..], After(d, haps[0]);
    QueuedAppend(OutboxEvents(d, hap), Trace(next, rest));
    QueuedNow(d, hap);
    if x in S.Queued(Trace(next, rest)) {
      OnlyTheseAreQueued(next, rest, x);
      if x in Crossing(next, rest) {
        var t :| t in next.taps && EndsKept(rest, t) && next.taps[t].item == x;
        StillCrosses(d, hap, rest, t);
      }
    } else if hap.Ends? {
      assert EndsKept(haps, hap.t);
    }
  }

  lemma StillCrosses(d: Device, hap: Happening, rest: seq<Happening>, t: TapId)
    requires t in After(d, hap).taps && EndsKept(rest, t)
    ensures var haps, x := [hap] + rest, After(d, hap).taps[t].item;
            x in Crossing(d, haps) || x in BegunBy(d, hap)
  {
    var haps := [hap] + rest;
    assert haps[0] == hap && haps[1..] == rest;
    if t in d.taps {
      assert d.taps[t] == After(d, hap).taps[t];
      assert EndsKept(haps, t);
    }
  }

  lemma {:induction false} KeptIsQueued(d: Device, haps: seq<Happening>, t: TapId)
    requires ClockTaps(d) && t in d.taps && EndsKept(haps, t)
    ensures d.taps[t].item in S.Queued(Trace(d, haps))
    decreases |haps|
  {
    var hap, rest, next := haps[0], haps[1..], After(d, haps[0]);
    QueuedAppend(OutboxEvents(d, hap), Trace(next, rest));
    QueuedNow(d, hap);
    if !(hap.Ends? && hap.t == t) {
      assert t in next.taps && next.taps[t] == d.taps[t];
      KeptIsQueued(next, rest, t);
    }
  }

  /** The item of tap t is no other's: its key is its own. */
  ghost predicate Alone(d: Device, haps: seq<Happening>, t: TapId)
    requires t in d.taps
  {
    d.taps[t].item !in Begun(d, haps) && forall s :: s in d.taps && s != t ==> d.taps[s].item != d.taps[t].item
  }

  /** Of the taps whose request is out at a sign-out, those queued afterwards are exactly those that end kept. */
  lemma QueuedAfterSignOutIff(d: Device, haps: seq<Happening>, t: TapId)
    requires ClockTaps(d) && t in d.taps
    requires var s := After(d, SignsOut); t in s.taps && Alone(s, haps, t)
    ensures d.taps[t].item in S.Queued(Trace(After(d, SignsOut), haps)) <==> EndsKept(haps, t)
  {
    var s, x := After(d, SignsOut), d.taps[t].item;
    if EndsKept(haps, t) {
      KeptIsQueued(s, haps, t);
    }
    if x in S.Queued(Trace(s, haps)) {
      OnlyTheseAreQueued(s, haps, x);
    }
  }

  /**
   * After a sign-out the queue, storage and every send come from the taps and pings that begin from then on
   * and the taps that cross, but for a send already out; with no request out at the sign-out, none cross.
   */
  lemma WhatTheQueueHolds(d: Device, haps: seq<Happening>)
    requires ClockTaps(d)
    ensures var s := After(d, SignsOut);
            S.OnlyFrom(Run(s, haps).outbox, Crossing(s, haps) + Begun(s, haps),
                       S.Unanswered(S.Out(d.outbox), Trace(s, haps)), S.Out(d.outbox).Values)
    ensures d.taps == map[] ==> Crossing(After(d, SignsOut), haps) == {}
  {
    var s := After(d, SignsOut);
    var evs, out := Trace(s, haps), S.Out(d.outbox);
    RunIsTrace(s, haps);
    S.NothingSurvivesSignOut(d.outbox, evs);
    forall x | x in S.Queued(evs)
      ensures x in Crossing(s, haps) + Begun(s, haps)
    {
      OnlyTheseAreQueued(s, haps, x);
    }
    Wider(Run(s, haps).outbox, S.Queued(evs), Crossing(s, haps) + Begun(s, haps), S.Unanswered(out, evs), out.Values);
  }

  lemma Wider(p: O.Phone, mine: set<Q.Item>, more: set<Q.Item>, out: S.Sends, past: set<Q.Item>)
    requires S.OnlyFrom(p, mine, out, past) && mine <= more
    ensures S.OnlyFrom(p, more, out, past)
  {
    assert mine + more == more;
    S.MoreIsFine(p, mine, more, out, past);
  }

  /* ---- the screens ---- */

  predicate OwnedBy(e: Option<Entry>, v: UserId) {
    e.Some? ==> e.value.user == v
  }

  predicate ShowsOnly(c: C.Clock, v: UserId) {
    OwnedBy(c.openEntry, v) && OwnedBy(c.lastClosed, v)
  }

  /** The end of a tap puts a shift of somebody other than v on screen: accepted, or a refused close put back. */
  predicate Exposes(t: F.Tap, r: F.Reply, v: UserId) {
    if r.Ruled? then r.e.user != v else !F.MaySucceedYet(r) && !OwnedBy(t.reverts, v)
  }

  lemma EndExposesIff(c: C.Clock, t: F.Tap, r: F.Reply, h: C.HydrateId, v: UserId)
    requires ShowsOnly(c, v)
    ensures ShowsOnly(F.EndedClock(c, t, r, h), v) <==> !Exposes(t, r, v)
  {
  }

  function FetchBegun(d: Device, hap: Happening): set<C.HydrateId> {
    match hap
    case Ends(t, reply, h) =>
      if t in d.taps && !reply.Ruled? && !F.Kept(reply) && F.AsksForHydrate(reply) then {h} else {}
    case Fetches(ev) => if ev.Begin? then {ev.h} else {}
    case _ => {}
  }

  function TapBegun(d: Device, hap: Happening): set<TapId> {
    match hap
    case TapsIn(t, _, _, _, _, _) => if t in d.taps then {} else {t}
    case TapsOut(t, _, _, _) => if t in d.taps then {} else {t}
    case _ => {}
  }

  /**
   * Worker v is signed in: taps are v's, and the fetches (`begun`) and taps (`since`) begun since are answered
   * with v's entries; a tap from before that ends now exposes none of another's. What fetches from before are
   * answered with is anybody's.
   */
  ghost predicate SignedIn(d: Device, hap: Happening, v: UserId, begun: set<C.HydrateId>, since: set<TapId>) {
    match hap
    case TapsIn(_, user, _, _, _, _) => user == v
    case Ends(t, reply, _) =>
      t in d.taps ==>
        if t in since then reply.Ruled? ==> reply.e.user == v else !Exposes(d.taps[t], reply, v)
    case Fetches(ev) => ev.Answered? && ev.h in begun ==> forall e :: e in ev.entries ==> e.user == v
    case SignsOut => false
    case _ => true
  }

  ghost predicate StaysSignedIn(d: Device, haps: seq<Happening>, v: UserId, begun: set<C.HydrateId>, since: set<TapId>)
    decreases |haps|
  {
    haps == [] ||
    (SignedIn(d, haps[0], v, begun, since)
     && StaysSignedIn(After(d, haps[0]), haps[1..], v, begun + FetchBegun(d, haps[0]), since + TapBegun(d, haps[0])))
  }

  /** A refused close of v's own puts back a shift of v's. */
  ghost predicate OwnReverts(d: Device, v: UserId, since: set<TapId>) {
    forall t :: t in d.taps && t in since ==> OwnedBy(d.taps[t].reverts, v)
  }

  /** Fetches not in `begun` hold a ticket older than generation gen. */
  ghost predicate OthersAreOlder(c: C.Clock, begun: set<C.HydrateId>, gen: nat) {
    gen <= c.writeGen && forall h :: h in c.tickets && h !in begun ==> c.tickets[h] < gen
  }

  lemma InstalledIsOwned(entries: seq<Entry>, v: UserId)
    requires forall e :: e in entries ==> e.user == v
    ensures OwnedBy(C.NewestOpen(entries), v) && OwnedBy(C.NewestClosed(entries), v)
  {
    C.NewestOpenIs(entries);
    C.NewestClosedIs(entries);
  }

  lemma HappeningIsOwned(d: Device, hap: Happening, v: UserId, begun: set<C.HydrateId>, since: set<TapId>, gen: nat)
    requires ShowsOnly(d.clock, v) && OwnReverts(d, v, since) && OthersAreOlder(d.clock, begun, gen)
    requires SignedIn(d, hap, v, begun, since) && !hap.Killed?
    ensures ShowsOnly(After(d, hap).clock, v) && OwnReverts(After(d, hap), v, since + TapBegun(d, hap))
    ensures OthersAreOlder(After(d, hap).clock, begun + FetchBegun(d, hap), gen)
  {
    match hap
    case Ends(t, reply, h) =>
      if t in d.taps {
        EndExposesIff(d.clock, d.taps[t], reply, h, v);
      }
    case Fetches(ev) =>
      if ev.Answered? && ev.h in begun {
        InstalledIsOwned(ev.entries, v);
      }
    case _ =>
  }

  lemma {:induction false} RunIsOwned(d: Device, haps: seq<Happening>, v: UserId, begun: set<C.HydrateId>,
                                      since: set<TapId>, gen: nat)
    requires ShowsOnly(d.clock, v) && OwnReverts(d, v, since) && OthersAreOlder(d.clock, begun, gen)
    requires StaysSignedIn(d, haps, v, begun, since)
    ensures ShowsOnly(Run(d, haps).clock, v)
    decreases |haps|
  {
    if haps != [] {
      var next, begun', since' := After(d, haps[0]), begun + FetchBegun(d, haps[0]), since + TapBegun(d, haps[0]);
      if haps[0].Killed? {
        RunIsOwned(next, haps[1..], v, begun', since', 0);
      } else {
        HappeningIsOwned(d, haps[0], v, begun, since, gen);
        RunIsOwned(next, haps[1..], v, begun', since', gen);
      }
    }
  }

  lemma {:induction false} RunKeepsTicketed(d: Device, haps: seq<Happening>)
    requires C.Ticketed(d.clock) && ClockTaps(d)
    ensures C.Ticketed(Run(d, haps).clock) && ClockTaps(Run(d, haps))
    decreases |haps|
  {
    if haps != [] {
      QueuedNow(d, haps[0]);
      RunKeepsTicketed(After(d, haps[0]), haps[1..]);
    }
  }

  /**
   * From any sign-out of any run, for as long as worker v is signed in: the screens show shifts of v alone,
   * whatever fetches of an earlier worker are still answered, unless a tap from before the sign-out ends in a
   * way that exposes another's.
   */
  lemma OnlyTheirOwnIsShown(before: seq<Happening>, haps: seq<Happening>, v: UserId)
    requires StaysSignedIn(After(Run(NEW_DEVICE, before), SignsOut), haps, v, {}, {})
    ensures ShowsOnly(Run(After(Run(NEW_DEVICE, before), SignsOut), haps).clock, v)
  {
    RunKeepsTicketed(NEW_DEVICE, before);
    var d := Run(NEW_DEVICE, before);
    RunIsOwned(After(d, SignsOut), haps, v, {}, {}, d.clock.writeGen + 1);
  }

  /* ---- a tap that crosses ---- */

  lemma {:induction false} RunAppend(d: Device, a: seq<Happening>, b: seq<Happening>)
    ensures Run(d, a + b) == Run(Run(d, a), b)
    decreases |a|
  {
    if a == [] {
      assert a + b == b;
    } else {
      assert (a + b)[1..] == a[1..] + b;
      RunAppend(After(d, a[0]), a[1..], b);
    }
  }

  lemma OneMore(d: Device, haps: seq<Happening>, hap: Happening)
    ensures Run(d, haps + [hap]) == After(Run(d, haps), hap)
  {
    RunAppend(d, haps, [hap]);
    assert [hap][1..] == [];
    assert Run(After(Run(d, haps), hap), []) == After(Run(d, haps), hap);
  }

  lemma SentAfterwards(d: Device, item: Q.Item)
    requires d.taps == map[0 := F.Tap(item, None)] && d.outbox == O.Phone([], [], None, None, None, map[], 0)
    requires item.InItem?
    ensures var q := Run(d, [Ends(0, F.ApiError(0, "NETWORK"), 0), Drains(O.Flush), Drains(O.Resume(0))]);
            O.IsSending(q.outbox, 0) && q.outbox.drains[0].item == item
  {
    var ended := Ends(0, F.ApiError(0, "NETWORK"), 0);
    var d1 := After(d, ended);
    assert d1.outbox.items == [] + [item] == [item];
    var d2 := After(d1, Drains(O.Flush));
    assert d2.outbox.drains == map[0 := O.Waiting] && d2.outbox.items == [item];
    assert Run(d, []) == d;
    OneMore(d, [], ended);
    OneMore(d, [] + [ended], Drains(O.Flush));
    OneMore(d, [] + [ended] + [Drains(O.Flush)], Drains(O.Resume(0)));
    assert [] + [ended] + [Drains(O.Flush)] + [Drains(O.Resume(0))] == [ended, Drains(O.Flush), Drains(O.Resume(0))];
  }

  /**
   * One worker taps, signs out before the request has failed, and the app is still running when it does: the
   * next flush sends the tap, whoever is signed in.
   */
  lemma ATapCanCross(user: UserId, key: ClientId, employer: Option<EmployerId>, fix: Fix) returns (haps: seq<Happening>)
    ensures haps != [] && haps[0] == TapsIn(0, user, key, employer, fix, 0) && SignsOut in haps
    ensures var d := Run(NEW_DEVICE, haps);
            O.IsSending(d.outbox, 0) && d.outbox.drains[0].item == Q.InItem(key, ClockIn(key, employer, fix))
  {
    var item := Q.InItem(key, ClockIn(key, employer, fix));
    haps := [] + [TapsIn(0, user, key, employer, fix, 0)];
    OneMore(NEW_DEVICE, [], TapsIn(0, user, key, employer, fix, 0));
    assert Run(NEW_DEVICE, []) == NEW_DEVICE;
    OneMore(NEW_DEVICE, haps, SignsOut);
    haps := haps + [SignsOut];
    assert haps[1] == SignsOut;
    var d := Run(NEW_DEVICE, haps);
    assert d.taps == map[0 := F.Tap(item, None)] && d.outbox == O.Phone([], [], None, None, None, map[], 0);
    var rest := [Ends(0, F.ApiError(0, "NETWORK"), 0), Drains(O.Flush), Drains(O.Resume(0))];
    SentAfterwards(d, item);
    RunAppend(NEW_DEVICE, haps, rest);
    haps := haps + rest;
    assert haps[1] == SignsOut;
  }
}
