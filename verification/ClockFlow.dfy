/**
 * A clock tap (mobile/src/lib/clockFlow.ts): one key minted, the optimistic write, the live request,
 * and the same body handed to the queue when a retry may yet succeed. Each tap is two halves, before
 * and after its request; anything may happen to either store in between.
 */
module ClockFlows {
  import opened Options
  import opened Geo
  import opened Entries
  import opened Requests
  import Q = Queue
  import O = Outbox
  import Stores = OutboxStores
  import C = ClockStores

  /** How the live request ended. */
  datatype Reply = Ruled(e: Entry) | ApiError(status: int, code: string) | Unexpected

  /** A fabricated id would open a stranger's shift; none is. */
  const NO_ID: EntryId := 0

  /** The optimistic entry. The server has not judged it yet, so it is not verified. */
  function LocalEntry(user: UserId, key: ClientId, employer: Option<EmployerId>, fix: Fix): Entry {
    Entry(NO_ID, user, employer, key, None, Open, PointOf(fix), None, false, {}, None)
  }

  predicate Kept(r: Reply) {
    r.ApiError? && Q.Retryable(r.status)
  }

  /** Verdicts that say our view of open and closed is wrong. */
  predicate AsksForHydrate(r: Reply) {
    r.ApiError? && r.code in {"OPEN_ENTRY_EXISTS", "NO_OPEN_ENTRY", "UNKNOWN"}
  }

  /** What a refusal leaves: the entry reverted to, and a hydrate begun when the verdict asks for one. */
  function Reverted(c: C.Clock, to: Option<Entry>, r: Reply, h: C.HydrateId): C.Clock {
    var back := C.Step(c, C.SetOpen(to));
    if AsksForHydrate(r) then C.Step(back, C.Begin(h)) else back
  }

  /** A tap whose request is out: what would be queued of it, and the shift a refused close puts back. */
  datatype Tap = Tap(item: Q.Item, reverts: Option<Entry>)

  function TapIn(body: Body): Tap
    requires body.ClockIn?
  {
    Tap(Q.InItem(body.clientId, body), None)
  }

  function TapOut(running: Entry, body: Body): Tap
    requires body.ClockOut?
  {
    Tap(Q.OutItem(body.clientId, running.clientId, body), Some(running))
  }

  /** What the end of a tap shows: the server's entry, the optimistic one still, or what was shown before the tap. */
  function EndedClock(c: C.Clock, t: Tap, r: Reply, h: C.HydrateId): C.Clock {
    if r.Ruled? then C.Step(c, if t.item.OutItem? then C.SetClosed(r.e) else C.SetOpen(Some(r.e)))
    else if Kept(r) then c
    else Reverted(c, t.reverts, r, h)
  }

  /** And what it queues. */
  function EndedOutbox(p: O.Phone, t: Tap, r: Reply): O.Phone {
    if Kept(r) then O.After(p, O.Enqueue(t.item)) else p
  }

  /** The request may yet succeed: no connection (0), signed out, rate-limited, or the server's own fault. */
  predicate MaySucceedYet(r: Reply) {
    match r
    case ApiError(status, _) => status == 0 || status == 401 || status == 429 || 500 <= status
    case _ => false
  }

  class ClockFlow {
    const clock: C.ClockStore
    const outbox: Stores.OutboxStore

    constructor (clock: C.ClockStore, outbox: Stores.OutboxStore)
      ensures this.clock == clock && this.outbox == outbox
    {
      this.clock, this.outbox := clock, outbox;
    }

    /** A fetch is out under the current generation exactly when the verdict says our view was wrong. */
    twostate predicate Refetches(h: C.HydrateId, reply: Reply)
      reads clock
    {
      clock.tickets ==
      if reply.ApiError? && reply.code in {"OPEN_ENTRY_EXISTS", "NO_OPEN_ENTRY", "UNKNOWN"}
      then old(clock.tickets)[h := clock.writeGen] else old(clock.tickets)
    }

    method Refuse(to: Option<Entry>, r: Reply, h: C.HydrateId)
      modifies clock
      ensures clock.State() == Reverted(old(clock.State()), to, r, h)
    {
      clock.SetOpen(to);
      if AsksForHydrate(r) {
        clock.BeginHydrate(h);
      }
    }

    /** clockInNow up to its request; the entry shown and the body sent carry the one key. */
    method BeginClockIn(user: UserId, key: ClientId, employer: Option<EmployerId>, fix: Fix, now: int)
      returns (body: Body)
      modifies clock
      ensures body == ClockIn(key, employer, fix)
      ensures clock.State() == C.Step(old(clock.State()), C.SetPending(Some(LocalEntry(user, key, employer, fix)), now))
      ensures clock.pendingSince == Some(now) && clock.lastClosed == old(clock.lastClosed)
      ensures var e := clock.openEntry;
              && e.Some? && e.value.user == user && e.value.employer == employer && e.value.clientId == key
              && e.value.clockIn == ClockPoint(fix.at, fix.loc, fix.accuracy, fix.mocked) && e.value.clockOut == None
              && e.value.status == Open && !e.value.verified && e.value.flags == {} && e.value.lastPing == None
              && e.value.closeClientId == None
    {
      body := ClockIn(key, employer, fix);
      clock.SetPending(Some(LocalEntry(user, key, employer, fix)), now);
    }

    /** clockInNow after it: accepted, queued with its body and key unchanged, or refused; never two of these. */
    method EndClockIn(body: Body, reply: Reply, h: C.HydrateId) returns (done: bool)
      requires outbox.Valid() && body.ClockIn?
      modifies clock, outbox
      ensures outbox.Valid() && (done <==> reply.Ruled? || MaySucceedYet(reply))
      ensures outbox.State() == EndedOutbox(old(outbox.State()), TapIn(body), reply)
      ensures clock.State() == EndedClock(old(clock.State()), TapIn(body), reply, h)
      ensures MaySucceedYet(reply) ==>
                && outbox.items == old(outbox.items) + [Q.InItem(body.clientId, body)]
                && outbox.storage == Some(O.Blob(outbox.items, old(outbox.needsAttention)))
                && clock.State() == old(clock.State())
      ensures !MaySucceedYet(reply) ==> outbox.State() == old(outbox.State()) && clock.pendingSince == None
      ensures reply.Ruled? ==> clock.openEntry == Some(reply.e) && clock.lastClosed == old(clock.lastClosed)
      ensures !done ==> clock.openEntry == None && clock.lastClosed == old(clock.lastClosed) && Refetches(h, reply)
    {
      if reply.Ruled? {
        clock.SetOpen(Some(reply.e));
        return true;
      }
      if Kept(reply) {
        outbox.Enqueue(Q.InItem(body.clientId, body));
        return true;
      }
      Refuse(None, reply, h);
      return false;
    }

    /** clockOutNow up to its request: nothing to close means nothing is sent or written. */
    method BeginClockOut(key: ClientId, fix: Fix, now: int) returns (sent: Option<(Entry, Body)>)
      modifies clock
      ensures sent == if old(clock.openEntry).Some? then Some((old(clock.openEntry).value, ClockOut(key, fix)))
              else None
      ensures clock.State() == if sent.Some? then C.Step(old(clock.State()), C.SetPending(None, now))
              else old(clock.State())
      ensures sent.Some? ==> clock.openEntry == None && clock.pendingSince == Some(now)
    {
      if clock.openEntry.None? {
        return None;
      }
      sent := Some((clock.openEntry.value, ClockOut(key, fix)));
      clock.SetPending(None, now);
    }

    /** clockOutNow after it: a queued close names the shift by its clock-in key, a refused one puts the shift back. */
    method EndClockOut(running: Entry, body: Body, reply: Reply, h: C.HydrateId) returns (done: bool)
      requires outbox.Valid() && body.ClockOut?
      modifies clock, outbox
      ensures outbox.Valid() && (done <==> reply.Ruled? || MaySucceedYet(reply))
      ensures outbox.State() == EndedOutbox(old(outbox.State()), TapOut(running, body), reply)
      ensures clock.State() == EndedClock(old(clock.State()), TapOut(running, body), reply, h)
      ensures MaySucceedYet(reply) ==>
                && outbox.items == old(outbox.items) + [Q.OutItem(body.clientId, running.clientId, body)]
                && outbox.storage == Some(O.Blob(outbox.items, old(outbox.needsAttention)))
                && clock.State() == old(clock.State())
      ensures !MaySucceedYet(reply) ==> outbox.State() == old(outbox.State()) && clock.pendingSince == None
      ensures reply.Ruled? ==> clock.openEntry == None && clock.lastClosed == Some(reply.e)
      ensures !done ==>
                clock.openEntry == Some(running) && clock.lastClosed == old(clock.lastClosed) && Refetches(h, reply)
    {
      if reply.Ruled? {
        clock.SetClosed(reply.e);
        return true;
      }
      if Kept(reply) {
        outbox.Enqueue(Q.OutItem(body.clientId, running.clientId, body));
        return true;
      }
      Refuse(Some(running), reply, h);
      return false;
    }
  }
}
