/**
 * The offline queue over its whole life (mobile/src/stores/outbox.ts): taps queued at any moment,
 * flushes, replies, kills and relaunches, and sign-out. Storage is one durable value.
 */
module Outbox {
  import opened Options
  import opened Sorting
  import opened Names
  import opened Queue
  import opened Merging

  datatype Blob = Blob(items: seq<Item>, attention: seq<Attention>)

  /** A call of drain: awaiting the launch read, awaiting its send, or returned with its finally still to come. */
  datatype Running = Waiting | Sending(item: Item) | Finished

  type DrainId = nat

  /**
   * `reading` holds what the launch read found, until it is merged: the rehydration window. `inFlight`
   * is the promise the module caches; `drains` are the calls that have not settled, `spawned` counts them.
   */
  datatype Phone = Phone(
    items: seq<Item>, attention: seq<Attention>, disk: Option<Blob>, reading: Option<Option<Blob>>,
    inFlight: Option<DrainId>, drains: map<DrainId, Running>, spawned: nat)

  /** How a send ended: accepted, an ApiError, or any other exception. */
  datatype Outcome = Accepted | Failed(status: int, code: string) | Bug

  /** Resume, Answer and Finally are the points at which drain d goes on. */
  datatype Event =
    | Enqueue(item: Item)
    | Flush
    | Resume(d: DrainId)
    | Answer(d: DrainId, outcome: Outcome)
    | Finally(d: DrainId)
    | Rehydrated(ok: bool)
    | Relaunch
    | SignOut
    | Dismiss

  function ItemKey(i: Item): string {
    i.clientId
  }

  function RecordKey(a: Attention): string {
    a.clientId
  }

  /** persist writes storage on every set. */
  function Persisted(p: Phone): Phone {
    p.(disk := Some(Blob(p.items, p.attention)))
  }

  /** items.filter(i => i.clientId !== key) */
  function Dropping(items: seq<Item>, key: string): seq<Item> {
    if items == [] then []
    else
      Dropping(items[..|items| - 1], key) +
      if items[|items| - 1].clientId != key then [items[|items| - 1]] else []
  }

  /** The top of drain's loop. */
  function Next(items: seq<Item>): Running {
    if items == [] then Finished else Sending(items[0])
  }

  function Goes(p: Phone, d: DrainId, to: Running): Phone {
    p.(drains := p.drains[d := to])
  }

  function StoredItems(b: Option<Blob>): seq<Item> {
    if b.Some? then b.value.items else []
  }

  function StoredRecords(b: Option<Blob>): seq<Attention> {
    if b.Some? then b.value.attention else []
  }

  function Merge(p: Phone, stored: Option<Blob>): Phone {
    p.(items := Unique(ItemKey, StoredItems(stored) + p.items),
       attention := Unique(RecordKey, StoredRecords(stored) + p.attention))
  }

  predicate IsSending(p: Phone, d: DrainId) {
    d in p.drains && p.drains[d].Sending?
  }

  /** Drain d has a send out, of the head of the queue. */
  predicate SendsHead(p: Phone, d: DrainId) {
    IsSending(p, d) && p.items != [] && p.items[0] == p.drains[d].item
  }

  function Answered(p: Phone, d: DrainId, item: Item, o: Outcome): Phone {
    var kept := Dropping(p.items, item.clientId);
    match o
    case Accepted => Goes(Persisted(p.(items := kept)), d, Next(kept))
    case Bug => Goes(p, d, Finished)
    case Failed(status, code) =>
      if Retryable(status) then Goes(p, d, Finished)
      else
        Goes(Persisted(p.(items := kept, attention := Capped(p.attention, AttentionFor(item, code)))), d, Next(kept))
  }

  function After(p: Phone, ev: Event): Phone {
    match ev
    case Enqueue(item) => Persisted(p.(items := p.items + Chunks(item)))
    case Flush =>
      if p.inFlight.Some? then p
      else p.(inFlight := Some(p.spawned), drains := p.drains[p.spawned := Waiting], spawned := p.spawned + 1)
    case Resume(d) =>
      if d in p.drains && p.drains[d].Waiting? && p.reading.None? then Goes(p, d, Next(p.items)) else p
    case Answer(d, o) => if IsSending(p, d) then Answered(p, d, p.drains[d].item, o) else p
    case Finally(d) =>
      if d in p.drains && p.drains[d].Finished? then p.(inFlight := None, drains := p.drains - {d}) else p
    case Rehydrated(ok) =>
      if p.reading.None? then p
      else if ok then Persisted(Merge(p, p.reading.value)).(reading := None)
      else p.(reading := None)
    case Relaunch => Phone([], [], p.disk, Some(p.disk), None, map[], p.spawned)
    case SignOut => p.(items := [], attention := [], disk := None, reading := None)
    case Dismiss => Persisted(p.(attention := []))
  }

  function Phones(p: Phone, evs: seq<Event>): Phone
    decreases |evs|
  {
    if evs == [] then p else Phones(After(p, evs[0]), evs[1..])
  }

  const NEW_PHONE := Phone([], [], None, Some(None), None, map[], 0)

  /* ---- one drain at a time ---- */

  /** The cached promise is that of the one drain there is. */
  predicate OneDrain(p: Phone) {
    match p.inFlight
    case None => p.drains == map[]
    case Some(d) => p.drains.Keys == {d}
  }

  lemma EventKeepsOneDrain(p: Phone, ev: Event)
    requires OneDrain(p)
    ensures OneDrain(After(p, ev))
  {
    match ev
    case Answer(d, o) =>
      if IsSending(p, d) {
        assert After(p, ev).drains.Keys == p.drains.Keys;
      }
    case Finally(d) =>
      if d in p.drains {
        assert p.drains - {d} == map[];
      }
    case _ =>
  }

  /** A drain that is over never comes back, not even after a kill: numbers are not used twice. */
  lemma {:induction false} DrainsNeverReturn(p: Phone, evs: seq<Event>, d: DrainId)
    requires d < p.spawned && d !in p.drains
    ensures d < Phones(p, evs).spawned && d !in Phones(p, evs).drains
    decreases |evs|
  {
    if evs != [] {
      DrainsNeverReturn(After(p, evs[0]), evs[1..], d);
    }
  }

  lemma {:induction false} RunKeepsOneDrain(p: Phone, evs: seq<Event>)
    requires OneDrain(p)
    ensures OneDrain(Phones(p, evs))
    decreases |evs|
  {
    if evs != [] {
      EventKeepsOneDrain(p, evs[0]);
      RunKeepsOneDrain(After(p, evs[0]), evs[1..]);
    }
  }

  /**
   * However flushes, replies, kills and sign-outs overlap, a process never runs two drains, has at most
   * one send out, and a flush joins exactly the drain that runs.
   */
  lemma AtMostOneSend(evs: seq<Event>, d: DrainId, e: DrainId)
    ensures var p := Phones(NEW_PHONE, evs);
            && (d in p.drains ==> p.inFlight == Some(d))
            && (p.inFlight.Some? ==> p.inFlight.value in p.drains)
            && (IsSending(p, d) && IsSending(p, e) ==> d == e)
  {
    RunKeepsOneDrain(NEW_PHONE, evs);
  }

  /* ---- conservation ---- */

  /**
   * A run with its history: what was queued since the last sign-out, what has been settled, what storage
   * let go of unread, and every key ever used.
   */
  datatype History = History(p: Phone, enqueued: seq<Item>, resolved: seq<Item>, lost: set<Item>, used: set<string>)

  /** What is on disk and not in memory: still to be merged, or, after a read that failed, left for the next launch. */
  function Unread(p: Phone): seq<Item> {
    if p.reading.Some? then StoredItems(p.reading.value)
    else if StoredItems(p.disk) == p.items then []
    else StoredItems(p.disk)
  }

  function Owed(p: Phone): seq<Item> {
    Unread(p) + p.items
  }

  /**
   * A verdict on the item itself: the server took it, or refused it on grounds no retry can change. Not one:
   * no connection (0), signed out, rate-limited, or the server's own fault.
   */
  predicate Settles(o: Outcome) {
    match o
    case Accepted => true
    case Failed(status, _) => status < 500 && status != 0 && status != 401 && status != 429
    case Bug => false
  }

  /** The events that write the queue in memory over the one in storage. */
  predicate Writes(p: Phone, ev: Event) {
    ev.Enqueue? || ev.Dismiss? || (ev.Answer? && IsSending(p, ev.d) && Settles(ev.outcome))
  }

  /**
   * Storage lets go of items nobody has read: a write after a read that failed; or, when a write was
   * made inside the rehydration window, the process ending or the read failing before the merge.
   */
  predicate Loses(p: Phone, ev: Event) {
    && Unread(p) != []
    && if p.reading.None? then Writes(p, ev)
       else StoredItems(p.disk) != Unread(p) && (ev.Relaunch? || ev == Rehydrated(false))
  }

  function Resolved(p: Phone, d: DrainId, o: Outcome): seq<Item> {
    if IsSending(p, d) && Settles(o) && p.items != [] && p.items[0] == p.drains[d].item then [p.items[0]] else []
  }

  ghost function Step(h: History, ev: Event): History {
    var p := After(h.p, ev);
    var lost := if Loses(h.p, ev) then h.lost + Elements(Unread(h.p)) else h.lost;
    match ev
    case Enqueue(item) =>
      History(p, h.enqueued + Chunks(item), h.resolved, lost, h.used + Elements(Map(ItemKey, Chunks(item))))
    case Answer(d, o) => h.(p := p, resolved := h.resolved + Resolved(h.p, d, o), lost := lost)
    case SignOut => History(p, [], [], {}, h.used)
    case _ => h.(p := p, lost := lost)
  }

  /** Every tap mints a new key. */
  ghost predicate MintsNewKeys(h: History, ev: Event) {
    ev.Enqueue? ==> Elements(Map(ItemKey, Chunks(ev.item))) !! h.used
  }

  function Keep(s: seq<Item>, lost: set<Item>): seq<Item> {
    if s == [] then [] else (if s[0] in lost then [] else [s[0]]) + Keep(s[1..], lost)
  }

  /** Storage is what memory is, or what the launch read found or failed to find. */
  ghost predicate OnDisk(p: Phone) {
    || StoredItems(p.disk) == p.items
    || (p.items == [] && (p.reading.Some? ==> p.disk == p.reading.value))
  }

  /** A send is of the head of the queue, or of an item a sign-out has since removed; nothing is then unread. */
  ghost predicate SendOk(h: History, x: Item) {
    && h.p.reading.None? && Unread(h.p) == [] && x.clientId in h.used
    && (Has(ItemKey, h.p.items, x.clientId) ==> h.p.items[0] == x)
  }

  ghost predicate HeadIsSent(h: History) {
    forall d :: IsSending(h.p, d) ==> SendOk(h, h.p.drains[d].item)
  }

  ghost predicate KeysKnown(h: History) {
    && Distinct(Map(ItemKey, h.enqueued)) && forall x :: x in h.enqueued ==> x.clientId in h.used
  }

  /** Without the items lost, the items queued are those settled, in order, then those owed. */
  ghost predicate Accounted(h: History, owed: seq<Item>) {
    Keep(h.enqueued, h.lost) == h.resolved + owed && forall x :: x in h.lost ==> x in h.enqueued
  }

  ghost predicate Conserved(h: History) {
    Accounted(h, Owed(h.p)) && KeysKnown(h) && OnDisk(h.p) && OneDrain(h.p) && HeadIsSent(h)
  }

  const FIRST_LAUNCH := History(NEW_PHONE, [], [], {}, {})
}
