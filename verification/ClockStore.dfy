/**
 * The clock store (mobile/src/stores/clock.ts): who is on shift, and the write generation that keeps
 * an answer fetched before a write from overwriting it.
 */
module ClockStores {
  import opened Options
  import opened Entries

  /* ---- the folds over an answer ---- */

  /** Clocked in later than the best so far, strictly: of equals the first listed stays. */
  predicate NewerOpen(e: Entry, best: Option<Entry>) {
    e.status == Open && (best.None? || e.clockIn.at > best.value.clockIn.at)
  }

  predicate NewerClosed(e: Entry, best: Option<Entry>) {
    e.clockOut.Some? && (best.None? || best.value.clockOut.None? || e.clockOut.value.at > best.value.clockOut.value.at)
  }

  function NewestOpen(entries: seq<Entry>): Option<Entry> {
    if entries == [] then None
    else
      var best := NewestOpen(entries[..|entries| - 1]);
      if NewerOpen(entries[|entries| - 1], best) then Some(entries[|entries| - 1]) else best
  }

  function NewestClosed(entries: seq<Entry>): Option<Entry> {
    if entries == [] then None
    else
      var best := NewestClosed(entries[..|entries| - 1]);
      if NewerClosed(entries[|entries| - 1], best) then Some(entries[|entries| - 1]) else best
  }

  /** The open entry of the latest start, the first listed of equals. */
  lemma {:induction false} NewestOpenIs(entries: seq<Entry>)
    ensures match NewestOpen(entries)
            case None => forall e :: e in entries ==> e.status == Closed
            case Some(b) =>
              && b in entries && b.status == Open
              && (forall e :: e in entries && e.status == Open ==> e.clockIn.at <= b.clockIn.at)
              && exists k :: 0 <= k < |entries| && entries[k] == b && OpenedEarlier(entries[..k], b.clockIn.at)
  {
    if entries != [] {
      var n := |entries| - 1;
      var front := entries[..n];
      NewestOpenIs(front);
      if NewestOpen(entries) == NewestOpen(front) {
        if NewestOpen(front).Some? {
          var k :| 0 <= k < n && front[k] == NewestOpen(front).value
            && OpenedEarlier(front[..k], front[k].clockIn.at);
          assert front[..k] == entries[..k];
        }
      } else {
        assert OpenedEarlier(entries[..n], entries[n].clockIn.at);
      }
    }
  }

  /** Whatever is open here began before t. */
  ghost predicate OpenedEarlier(entries: seq<Entry>, t: int) {
    forall e :: e in entries && e.status == Open ==> e.clockIn.at < t
  }

  ghost predicate ClosedEarlier(entries: seq<Entry>, t: int) {
    forall e :: e in entries && e.clockOut.Some? ==> e.clockOut.value.at < t
  }

  /** The closed entry of the latest end, the first listed of equals. */
  lemma {:induction false} NewestClosedIs(entries: seq<Entry>)
    ensures match NewestClosed(entries)
            case None => forall e :: e in entries ==> e.clockOut.None?
            case Some(b) =>
              && b in entries && b.clockOut.Some?
              && (forall e :: e in entries && e.clockOut.Some? ==> e.clockOut.value.at <= b.clockOut.value.at)
              && exists k :: 0 <= k < |entries| && entries[k] == b && ClosedEarlier(entries[..k], b.clockOut.value.at)
  {
    if entries != [] {
      var n := |entries| - 1;
      var front := entries[..n];
      NewestClosedIs(front);
      if NewestClosed(entries) == NewestClosed(front) {
        if NewestClosed(front).Some? {
          var k :| 0 <= k < n && front[k] == NewestClosed(front).value
            && ClosedEarlier(front[..k], front[k].clockOut.value.at);
          assert front[..k] == entries[..k];
        }
      } else {
        assert ClosedEarlier(entries[..n], entries[n].clockOut.value.at);
      }
    }
  }

  /** GET /v1/entries: all of a user's documents, in any order. */
  ghost predicate Lists(db: Db, user: UserId, entries: seq<Entry>) {
    forall e :: e in entries <==> e.id in db && db[e.id] == e && e.user == user
  }

  /** An answer over the whole history shows the server's one open shift, or rightly none. */
  lemma AnswerShowsTheOpenShift(db: Db, user: UserId, entries: seq<Entry>)
    requires GoodDb(db) && Lists(db, user, entries)
    ensures Answers(db, OpenEntry(user), NewestOpen(entries))
    ensures forall e :: e in entries && e.status == Open ==> NewestOpen(entries) == Some(e)
  {
    NewestOpenIs(entries);
    match NewestOpen(entries)
    case None =>
      forall id | id in db
        ensures !Matches(OpenEntry(user), db[id])
      {
        if db[id].user == user {
          assert db[id] in entries;
        }
      }
    case Some(b) =>
      forall e | e in entries && e.status == Open
        ensures e == b
      {
        assert BothOpen(db, e.id, b.id);
      }
  }

  /* ---- the store over a run of events ---- */

  type HydrateId = nat

  /** `tickets` are the generations of the hydrates still in flight. */
  datatype Clock = Clock(
    openEntry: Option<Entry>, lastClosed: Option<Entry>, pendingSince: Option<int>,
    writeGen: nat, tickets: map<HydrateId, nat>)

  datatype Event =
    | SetOpen(e: Option<Entry>)
    | SetPending(e: Option<Entry>, now: int)
    | SetClosed(closed: Entry)
    | Reset
    | Begin(h: HydrateId)
    | Answered(h: HydrateId, entries: seq<Entry>)
    | Failed(h: HydrateId)

  /** Events that take a new generation. */
  predicate Writes(ev: Event) {
    ev.SetOpen? || ev.SetPending? || ev.SetClosed? || ev.Reset? || ev.Begin?
  }

  function Installed(c: Clock, entries: seq<Entry>): Clock {
    c.(openEntry := NewestOpen(entries), lastClosed := NewestClosed(entries))
  }

  function Step(c: Clock, ev: Event): Clock {
    match ev
    case SetOpen(e) => c.(writeGen := c.writeGen + 1, openEntry := e, pendingSince := None)
    case SetPending(e, now) => c.(writeGen := c.writeGen + 1, openEntry := e, pendingSince := Some(now))
    case SetClosed(e) => c.(writeGen := c.writeGen + 1, openEntry := None, lastClosed := Some(e), pendingSince := None)
    case Reset => c.(writeGen := c.writeGen + 1, openEntry := None, lastClosed := None, pendingSince := None)
    case Begin(h) => c.(writeGen := c.writeGen + 1, tickets := c.tickets[h := c.writeGen + 1])
    case Answered(h, entries) =>
      var done := c.(tickets := c.tickets - {h});
      if h in c.tickets && c.tickets[h] == c.writeGen then Installed(done, entries) else done
    case Failed(h) => c.(tickets := c.tickets - {h})
  }

  function Run(c: Clock, evs: seq<Event>): Clock
    decreases |evs|
  {
    if evs == [] then c else Run(Step(c, evs[0]), evs[1..])
  }

  predicate SomethingWrote(evs: seq<Event>) {
    exists k :: 0 <= k < |evs| && Writes(evs[k])
  }

  /** Hydrate h is still out: it has not ended, nor been begun again, in these events. */
  predicate StillOut(evs: seq<Event>, h: HydrateId) {
    forall k :: 0 <= k < |evs| ==> !((evs[k].Begin? || evs[k].Answered? || evs[k].Failed?) && evs[k].h == h)
  }

  lemma {:induction false} TicketAges(c: Clock, evs: seq<Event>, h: HydrateId)
    requires h in c.tickets && c.tickets[h] <= c.writeGen && StillOut(evs, h)
    ensures var d := Run(c, evs);
            && h in d.tickets && d.tickets[h] == c.tickets[h] && c.writeGen <= d.writeGen
            && (d.writeGen == c.writeGen <==> !SomethingWrote(evs))
    decreases |evs|
  {
    if evs != [] {
      var rest := evs[1..];
      forall k | 0 <= k < |rest|
        ensures rest[k] == evs[k + 1]
      {
      }
      assert StillOut(rest, h);
      TicketAges(Step(c, evs[0]), rest, h);
      assert SomethingWrote(evs) <==> Writes(evs[0]) || SomethingWrote(rest) by {
        if k :| 0 <= k < |rest| && Writes(rest[k]) {
          assert Writes(evs[k + 1]);
        }
        if k :| 0 < k < |evs| && Writes(evs[k]) {
          assert Writes(rest[k - 1]);
        }
      }
    }
  }

  /**
   * Whatever happens between a hydrate's start and its answer: the answer is installed exactly when
   * nothing wrote, reset or began a later hydrate in between, and otherwise changes nothing shown.
   */
  lemma AnswerInstalledIff(c: Clock, h: HydrateId, between: seq<Event>, entries: seq<Entry>)
    requires StillOut(between, h)
    ensures var before := Run(Step(c, Begin(h)), between);
            var after := Step(before, Answered(h, entries));
            var ended := before.(tickets := before.tickets - {h});
            after == if SomethingWrote(between) then ended else Installed(ended, entries)
  {
    TicketAges(Step(c, Begin(h)), between, h);
  }

  /* ---- all the fetches at once ---- */

  /** What the screens show. */
  function Shown(c: Clock): (Option<Entry>, Option<Entry>, Option<int>) {
    (c.openEntry, c.lastClosed, c.pendingSince)
  }

  const NOTHING_YET := Clock(None, None, None, 0, map[])

  predicate Ticketed(c: Clock) {
    forall h :: h in c.tickets ==> c.tickets[h] <= c.writeGen
  }

  /** No tap, no reset, and every answer is to a fetch that was out already: none of `begun`, none begun here. */
  predicate NoneFresher(begun: set<HydrateId>, evs: seq<Event>)
    decreases |evs|
  {
    evs == [] ||
    match evs[0]
    case Begin(h) => NoneFresher(begun + {h}, evs[1..])
    case Answered(h, _) => h !in begun && NoneFresher(begun, evs[1..])
    case Failed(_) => NoneFresher(begun, evs[1..])
    case _ => false
  }

  function BegunBy(ev: Event): set<HydrateId> {
    if ev.Begin? then {ev.h} else {}
  }

  lemma {:induction false} RunKeepsTicketed(c: Clock, evs: seq<Event>)
    requires Ticketed(c)
    ensures Ticketed(Run(c, evs))
    decreases |evs|
  {
    if evs != [] {
      RunKeepsTicketed(Step(c, evs[0]), evs[1..]);
    }
  }

  lemma {:induction false} OlderAreDropped(c: Clock, begun: set<HydrateId>, gen: nat, evs: seq<Event>)
    requires NoneFresher(begun, evs) && gen <= c.writeGen
    requires forall h :: h in c.tickets && h !in begun ==> c.tickets[h] < gen
    ensures Shown(Run(c, evs)) == Shown(c)
    decreases |evs|
  {
    if evs != [] {
      assert begun + {} == begun;
      OlderAreDropped(Step(c, evs[0]), begun + BegunBy(evs[0]), gen, evs[1..]);
    }
  }

  /**
   * Over any run: after a tap, a reset or the start of a fetch, no answer fetched before it, of however
   * many, in whatever order and among whatever later fetches begin, changes what is shown.
   */
  lemma NothingOlderShows(before: seq<Event>, write: Event, later: seq<Event>)
    requires Writes(write) && NoneFresher(BegunBy(write), later)
    ensures var c := Step(Run(NOTHING_YET, before), write);
            Shown(Run(c, later)) == Shown(c)
  {
    var was := Run(NOTHING_YET, before);
    RunKeepsTicketed(NOTHING_YET, before);
    OlderAreDropped(Step(was, write), BegunBy(write), was.writeGen + 1, later);
  }

  /* ---- the store as an object ---- */

  class ClockStore {
    var openEntry: Option<Entry>
    var lastClosed: Option<Entry>
    var pendingSince: Option<int>
    var writeGen: nat
    var tickets: map<HydrateId, nat>

    ghost function State(): Clock
      reads this
    {
      Clock(openEntry, lastClosed, pendingSince, writeGen, tickets)
    }

    constructor ()
      ensures State() == Clock(None, None, None, 0, map[])
    {
      openEntry, lastClosed, pendingSince, writeGen, tickets := None, None, None, 0, map[];
    }

    method SetOpen(e: Option<Entry>)
      modifies this
      ensures State() == Step(old(State()), Event.SetOpen(e))
    {
      writeGen := writeGen + 1;
      openEntry, pendingSince := e, None;
    }

    method SetPending(e: Option<Entry>, now: int)
      modifies this
      ensures State() == Step(old(State()), Event.SetPending(e, now))
    {
      writeGen := writeGen + 1;
      openEntry, pendingSince := e, Some(now);
    }

    method SetClosed(e: Entry)
      modifies this
      ensures State() == Step(old(State()), Event.SetClosed(e))
    {
      writeGen := writeGen + 1;
      openEntry, lastClosed, pendingSince := None, Some(e), None;
    }

    method Reset()
      modifies this
      ensures State() == Step(old(State()), Event.Reset)
      ensures Shown(State()) == (None, None, None) && writeGen > old(writeGen)
    {
      writeGen := writeGen + 1;
      openEntry, lastClosed, pendingSince := None, None, None;
    }

    /** hydrateFromServer up to its await. */
    method BeginHydrate(h: HydrateId)
      modifies this
      ensures State() == Step(old(State()), Begin(h)) && Shown(State()) == old(Shown(State()))
      ensures h in tickets && tickets[h] == writeGen && forall other :: other in old(tickets) && other != h ==>
                other in tickets && tickets[other] == old(tickets[other])
    {
      writeGen := writeGen + 1;
      var mine := writeGen;
      tickets := tickets[h := mine];
    }

    /** entries.reduce, twice. */
    method Newest(entries: seq<Entry>) returns (running: Option<Entry>, ended: Option<Entry>)
      ensures running == NewestOpen(entries) && ended == NewestClosed(entries)
    {
      running, ended := None, None;
      for i := 0 to |entries|
        invariant running == NewestOpen(entries[..i]) && ended == NewestClosed(entries[..i])
      {
        var e := entries[i];
        assert entries[..i + 1][..i] == entries[..i];
        if NewerOpen(e, running) {
          running := Some(e);
        }
        if NewerClosed(e, ended) {
          ended := Some(e);
        }
      }
      assert entries[..|entries|] == entries;
    }

    /** hydrateFromServer after its await: a stale ticket drops the answer. */
    method FinishHydrate(h: HydrateId, entries: seq<Entry>)
      requires h in tickets
      modifies this
      ensures State() == Step(old(State()), Answered(h, entries))
      ensures writeGen == old(writeGen) && tickets == old(tickets) - {h} && pendingSince == old(pendingSince)
      ensures if old(tickets[h]) == writeGen then
                openEntry == NewestOpen(entries) && lastClosed == NewestClosed(entries)
              else
                openEntry == old(openEntry) && lastClosed == old(lastClosed)
    {
      var mine := tickets[h];
      tickets := tickets - {h};
      if mine != writeGen {
        return;
      }
      var running, ended := Newest(entries);
      openEntry, lastClosed := running, ended;
    }
  }
}
