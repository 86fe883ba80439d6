/**
 * The queue the replay drains is the outbox's: whatever memory and storage do to the items (mobile/src/
 * stores/outbox.ts), the clock taps still owed change as the moves of the replay say, pings passed over.
 */
module QueueIsReplayed {
  import opened Options
  import opened Requests
  import Entries
  import Geo
  import Q = Queue
  import O = Outbox
  import K = OutboxConserves
  import R = Replay

  /** The clock tap of an item, if it is one. */
  function TapOf(item: Q.Item): seq<Body> {
    if item.PingItem? then [] else [item.body]
  }

  function Taps(items: seq<Q.Item>): seq<Body> {
    if items == [] then [] else TapOf(items[0]) + Taps(items[1..])
  }

  /** The queue as the replay sees it. */
  function Queued(p: O.Phone): seq<Body> {
    Taps(O.Owed(p))
  }

  lemma {:induction false} TapsAppend(a: seq<Q.Item>, b: seq<Q.Item>)
    ensures Taps(a + b) == Taps(a) + Taps(b)
  {
    if a == [] {
      assert a + b == b;
    } else {
      assert (a + b)[1..] == a[1..] + b;
      TapsAppend(a[1..], b);
    }
  }

  lemma {:induction false} NoTaps(items: seq<Q.Item>)
    requires forall k :: 0 <= k < |items| ==> items[k].PingItem?
    ensures Taps(items) == []
  {
    if items != [] {
      NoTaps(items[1..]);
    }
  }

  lemma ChunkTaps(item: Q.Item)
    ensures Taps(Q.Chunks(item)) == TapOf(item)
  {
    Q.ChunksAreTheBatch(item);
    if item.PingItem? {
      forall k: nat | k < |Q.Chunks(item)|
        ensures Q.Chunks(item)[k].PingItem?
      {
        assert |item.pings| > 64 ==> Q.CutAs(item, Q.Chunks(item), k);
      }
      NoTaps(Q.Chunks(item));
    } else {
      assert Taps([item]) == TapOf(item) + Taps([]);
    }
  }

  /** The outbox's verdict on the answer the server gave. */
  predicate Agrees(a: Answer, o: O.Outcome) {
    match o
    case Accepted => R.Succeeded(a)
    case Failed(_, _) => if O.Settles(o) then a.Refused? else a.ServerError?
    case Bug => false
  }

  /** The move of the replay an event of the outbox is; none when nothing of it concerns a clock tap. */
  ghost predicate IsMove(p: O.Phone, ev: O.Event, r: R.Phone, mv: Option<R.Move>) {
    match ev
    case Enqueue(item) => mv == if item.PingItem? then None else Some(R.Tap(item.body))
    case Answer(d, o) =>
      if !O.SendsHead(p, d) || p.items[0].PingItem? then mv == None
      else if mv == Some(R.Reply) then
        r.sent.Some? && r.sent.value in r.server.reqs && r.server.reqs[r.sent.value].pc.Done?
        && Agrees(r.server.reqs[r.sent.value].pc.answer, o)
      else if O.Settles(o) then o.Failed? && mv == Some(R.Truncated)
      else mv == Some(R.GiveUp)
    case Relaunch => mv == Some(R.GiveUp)
    case _ => mv == None
  }

  function QueueAfter(cfg: Geo.Config, u: Entries.UserId, r: R.Phone, mv: Option<R.Move>): seq<Body>
    requires mv.Some? ==> R.Possible(r, u, mv.value)
  {
    if mv.Some? then R.Moved(cfg, u, r, mv.value).queue else r.queue
  }

  lemma SettledHead(h: O.History, d: O.DrainId, o: O.Outcome)
    requires O.Conserved(h) && O.SendsHead(h.p, d) && O.Settles(o)
    ensures O.Owed(h.p) != [] && O.Owed(h.p)[0] == h.p.items[0]
    ensures O.Owed(O.After(h.p, O.Answer(d, o))) == O.Owed(h.p)[1..]
  {
    var x := h.p.drains[d].item;
    assert O.SendOk(h, x);
    K.DropsTheHead(h, x);
    K.SettleAccounts(h, d, o);
    assert O.Owed(h.p) == h.p.items;
  }

  lemma StraySettled(h: O.History, d: O.DrainId, o: O.Outcome)
    requires O.Conserved(h) && O.IsSending(h.p, d) && !O.SendsHead(h.p, d) && O.Settles(o)
    ensures O.Owed(O.After(h.p, O.Answer(d, o))) == O.Owed(h.p)
  {
    var x := h.p.drains[d].item;
    assert O.SendOk(h, x);
    K.DropsTheHead(h, x);
    K.SettleAccounts(h, d, o);
    assert O.Owed(h.p) == h.p.items;
  }

  /**
   * Sign-out and lost storage aside, every event of the outbox (a tap, a reply, a failed send, the launch
   * read, a kill and its relaunch) does to the taps owed what its move of the replay does to the queue.
   */
  lemma EventIsMove(cfg: Geo.Config, u: Entries.UserId, h: O.History, ev: O.Event, r: R.Phone, mv: Option<R.Move>)
    requires O.Conserved(h) && O.MintsNewKeys(h, ev) && !O.Loses(h.p, ev) && !ev.SignOut?
    requires r.queue == Queued(h.p) && IsMove(h.p, ev, r, mv) && (mv.Some? ==> R.Possible(r, u, mv.value))
    ensures QueueAfter(cfg, u, r, mv) == Queued(O.After(h.p, ev))
  {
    if ev.Enqueue? {
      K.EnqueueAppends(h, ev.item);
      TapsAppend(O.Owed(h.p), Q.Chunks(ev.item));
      ChunkTaps(ev.item);
      assert Queued(h.p) + [] == Queued(h.p);
    } else if ev.Answer? && O.IsSending(h.p, ev.d) && O.Settles(ev.outcome) {
      if O.SendsHead(h.p, ev.d) {
        SettledHead(h, ev.d, ev.outcome);
        assert [] + Taps(O.Owed(h.p)[1..]) == Taps(O.Owed(h.p)[1..]);
      } else {
        StraySettled(h, ev.d, ev.outcome);
      }
    } else {
      K.OthersStay(h, ev);
    }
  }

  /** What the drain sends is what the replay sends. */
  lemma SendIsSend(h: O.History, d: O.DrainId)
    requires O.Conserved(h) && O.SendsHead(h.p, d) && !h.p.drains[d].item.PingItem?
    ensures Queued(h.p) != [] && Queued(h.p)[0] == h.p.drains[d].item.body
  {
    assert O.SendOk(h, h.p.drains[d].item);
    assert O.Owed(h.p) == h.p.items;
  }
}
