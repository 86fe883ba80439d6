/** Nothing of one worker's queue outlives their sign-out (mobile/src/stores/outbox.ts clearForSignOut). */
module SignOutIsClean {
  import opened Options
  import opened Queue
  import opened Merging
  import opened Outbox
  import opened OutboxConserves

  /** The sends that are out, by the drain that awaits each. */
  type Sends = map<DrainId, Item>

  function Out(p: Phone): Sends {
    map d | d in p.drains && p.drains[d].Sending? :: p.drains[d].item
  }

  /** Of sends out at some time, those an event leaves out: an answer settles its own, a kill forgets them all. */
  function StillOut(out: Sends, ev: Event): Sends {
    match ev
    case Answer(d, _) => out - {d}
    case Relaunch => map[]
    case _ => out
  }

  function Unanswered(out: Sends, evs: seq<Event>): Sends {
    if evs == [] then out else Unanswered(StillOut(out, evs[0]), evs[1..])
  }

  /**
   * Everything on the phone comes from `mine`: what is kept, and what is sent, but for the sends of `out`,
   * each still that of the drain that made it. A record may also be about an item of `past`.
   */
  ghost predicate OnlyFrom(p: Phone, mine: set<Item>, out: Sends, past: set<Item>) {
    && (forall x :: x in p.items ==> x in mine)
    && (forall x :: x in StoredItems(p.disk) ==> x in mine)
    && (p.reading.Some? ==> forall x :: x in StoredItems(p.reading.value) ==> x in mine)
    && (forall d :: IsSending(p, d) ==> p.drains[d].item in mine || (d in out && out[d] == p.drains[d].item))
    && (forall d :: d in out ==> out[d] in past)
    && (forall r :: r in p.attention ==> About(r, mine + past))
    && (forall r :: r in StoredRecords(p.disk) ==> About(r, mine + past))
    && (p.reading.Some? ==> forall r :: r in StoredRecords(p.reading.value) ==> About(r, mine + past))
  }

  ghost predicate About(r: Attention, items: set<Item>) {
    exists x :: x in items && x.clientId == r.clientId
  }

  lemma {:induction false} DroppingFrom(items: seq<Item>, key: string, x: Item)
    requires x in Dropping(items, key)
    ensures x in items
  {
    var n := |items| - 1;
    if x in Dropping(items[..n], key) {
      DroppingFrom(items[..n], key, x);
    }
  }

  ghost function NewItems(ev: Event): set<Item> {
    if ev.Enqueue? then set x | x in Chunks(ev.item) else {}
  }

  lemma AnswerStays(p: Phone, d: DrainId, o: Outcome, mine: set<Item>, out: Sends, past: set<Item>)
    requires OnlyFrom(p, mine, out, past) && IsSending(p, d)
    ensures OnlyFrom(After(p, Answer(d, o)), mine, out - {d}, past)
  {
    var item, q := p.drains[d].item, After(p, Answer(d, o));
    forall x | x in Dropping(p.items, item.clientId)
      ensures x in mine
    {
      DroppingFrom(p.items, item.clientId, x);
    }
    if o.Failed? && Settles(o) {
      var r := AttentionFor(item, o.code);
      assert About(r, mine + past);
      assert forall s :: s in Capped(p.attention, r) ==> s in p.attention || s == r;
    }
    forall e | IsSending(q, e)
      ensures q.drains[e].item in mine || (e in out - {d} && (out - {d})[e] == q.drains[e].item)
    {
      assert e != d ==> IsSending(p, e);
    }
  }

  lemma MergeStays(p: Phone, mine: set<Item>, out: Sends, past: set<Item>)
    requires OnlyFrom(p, mine, out, past) && p.reading.Some?
    ensures OnlyFrom(After(p, Rehydrated(true)), mine, out, past)
  {
    var q, stored := After(p, Rehydrated(true)), p.reading.value;
    forall x | x in q.items
      ensures x in mine
    {
      UniqueFrom(ItemKey, StoredItems(stored) + p.items, x);
    }
    forall r | r in q.attention
      ensures About(r, mine + past)
    {
      UniqueFrom(RecordKey, StoredRecords(stored) + p.attention, r);
    }
    assert forall d :: IsSending(q, d) ==> IsSending(p, d);
  }

  lemma MoreIsFine(p: Phone, mine: set<Item>, more: set<Item>, out: Sends, past: set<Item>)
    requires OnlyFrom(p, mine, out, past)
    ensures OnlyFrom(p, mine + more, out, past)
  {
    forall r | About(r, mine + past)
      ensures About(r, mine + more + past)
    {
      var x :| x in mine + past && x.clientId == r.clientId;
      assert x in mine + more + past;
    }
  }

  lemma QuietStays(p: Phone, ev: Event, mine: set<Item>, out: Sends, past: set<Item>)
    requires OnlyFrom(p, mine, out, past) && !ev.Enqueue? && !ev.Answer? && ev != Rehydrated(true)
    ensures OnlyFrom(After(p, ev), mine, StillOut(out, ev), past)
  {
    var q := After(p, ev);
    forall d | IsSending(q, d)
      ensures q.drains[d].item in mine || (d in StillOut(out, ev) && StillOut(out, ev)[d] == q.drains[d].item)
    {
      if !IsSending(p, d) {
        assert q.drains[d].item == p.items[0];
      }
    }
  }

  lemma EnqueueStays(p: Phone, item: Item, mine: set<Item>, out: Sends, past: set<Item>)
    requires OnlyFrom(p, mine, out, past) && forall x :: x in Chunks(item) ==> x in mine
    ensures OnlyFrom(After(p, Enqueue(item)), mine, out, past)
  {
    assert forall d :: IsSending(After(p, Enqueue(item)), d) ==> IsSending(p, d);
  }

  /** An answer for a drain that awaits none changes nothing; the send it was of is no longer out either way. */
  lemma StrayStays(p: Phone, d: DrainId, mine: set<Item>, out: Sends, past: set<Item>)
    requires OnlyFrom(p, mine, out, past) && !IsSending(p, d)
    ensures OnlyFrom(p, mine, out - {d}, past)
  {
  }

  lemma EventStays(p: Phone, ev: Event, mine: set<Item>, out: Sends, past: set<Item>)
    requires OnlyFrom(p, mine, out, past)
    ensures OnlyFrom(After(p, ev), mine + NewItems(ev), StillOut(out, ev), past)
  {
    var all := mine + NewItems(ev);
    MoreIsFine(p, mine, NewItems(ev), out, past);
    match ev
    case Enqueue(item) => EnqueueStays(p, item, all, out, past);
    case Answer(d, o) =>
      if IsSending(p, d) {
        AnswerStays(p, d, o, all, out, past);
      } else {
        StrayStays(p, d, all, out, past);
      }
    case Rehydrated(ok) =>
      if ok && p.reading.Some? {
        MergeStays(p, all, out, past);
      } else if !ok {
        QuietStays(p, ev, all, out, past);
      }
    case _ => QuietStays(p, ev, all, out, past);
  }

  ghost function Queued(evs: seq<Event>): set<Item> {
    if evs == [] then {} else NewItems(evs[0]) + Queued(evs[1..])
  }

  lemma {:induction false} RunStays(p: Phone, evs: seq<Event>, mine: set<Item>, out: Sends, past: set<Item>)
    requires OnlyFrom(p, mine, out, past)
    ensures OnlyFrom(Phones(p, evs), mine + Queued(evs), Unanswered(out, evs), past)
    decreases |evs|
  {
    if evs == [] {
      assert mine + Queued(evs) == mine;
    } else {
      EventStays(p, evs[0], mine, out, past);
      RunStays(After(p, evs[0]), evs[1..], mine + NewItems(evs[0]), StillOut(out, evs[0]), past);
      assert (mine + NewItems(evs[0])) + Queued(evs[1..]) == mine + Queued(evs);
    }
  }

  /**
   * From a sign-out on, whatever happens, whatever was unread on disk: nothing queued before it is in
   * memory or on disk, and nothing of it is sent, but for a send already out, which stays with the drain
   * that made it until it is answered or the process ends, and is never made again. A record about an
   * earlier item is about one whose send was out.
   */
  lemma NothingSurvivesSignOut(p: Phone, evs: seq<Event>)
    ensures OnlyFrom(Phones(After(p, SignOut), evs), Queued(evs), Unanswered(Out(p), evs), Out(p).Values)
  {
    var q := After(p, SignOut);
    assert forall d :: IsSending(q, d) ==> d in Out(p) && Out(p)[d] == q.drains[d].item;
    RunStays(q, evs, {}, Out(p), Out(p).Values);
    assert {} + Queued(evs) == Queued(evs);
  }

  /* ---- the record a send may still leave ---- */

  /** The first answer drain d gets. */
  function FirstAnswer(evs: seq<Event>, d: DrainId): Option<Outcome> {
    if evs == [] then None
    else if evs[0].Answer? && evs[0].d == d then Some(evs[0].outcome)
    else FirstAnswer(evs[1..], d)
  }

  predicate Refuses(o: Option<Outcome>) {
    o.Some? && o.value.Failed? && Settles(o.value)
  }

  /** Records outlast any event but these. */
  predicate Keeps(ev: Event) {
    !ev.Dismiss? && !ev.SignOut? && !ev.Relaunch?
  }

  predicate Recorded(p: Phone, key: string) {
    && (exists r :: r in p.attention && r.clientId == key)
    && (exists r :: r in StoredRecords(p.disk) && r.clientId == key)
  }

  /** A record under the key is in memory and on disk when `refused`, and in neither when not. */
  ghost predicate RecordedExactlyWhen(p: Phone, key: string, refused: bool) {
    && (Recorded(p, key) <==> refused)
    && (!refused ==> forall r :: r in p.attention || r in StoredRecords(p.disk) ==> r.clientId != key)
  }

  /** Nothing here has the key, or will: the keys of later taps are new. */
  ghost predicate Unheard(h: History, key: string) {
    && h.p.reading.None? && key in h.used
    && (forall x :: x in h.p.items ==> x.clientId != key)
    && (forall d :: IsSending(h.p, d) ==> h.p.drains[d].item.clientId != key)
    && (forall r :: r in h.p.attention ==> r.clientId != key)
    && (forall r :: r in StoredRecords(h.p.disk) ==> r.clientId != key)
  }

  /** The one drain there is still awaits the answer about x, and no record has been made. */
  ghost predicate Awaited(h: History, d: DrainId, x: Item) {
    && OneDrain(h.p) && h.p.reading.None? && IsSending(h.p, d) && h.p.drains[d].item == x && x.clientId in h.used
    && h.p.attention == [] && StoredRecords(h.p.disk) == []
    && forall y :: y in h.p.items ==> y.clientId != x.clientId
  }

  /** The oldest record, which the cap never evicts. */
  predicate FirstIsAbout(p: Phone, key: string) {
    && p.reading.None? && p.attention != [] && p.attention[0].clientId == key
    && StoredRecords(p.disk) != [] && StoredRecords(p.disk)[0].clientId == key
  }

  lemma FreshKeys(h: History, ev: Event, key: string)
    requires MintsNewKeys(h, ev) && key in h.used && ev.Enqueue?
    ensures forall x :: x in Chunks(ev.item) ==> x.clientId != key
  {
    forall x | x in Chunks(ev.item)
      ensures x.clientId != key
    {
      var k :| 0 <= k < |Chunks(ev.item)| && Chunks(ev.item)[k] == x;
      assert Sorting.Map(ItemKey, Chunks(ev.item))[k] == x.clientId;
    }
  }

  lemma UnheardStays(h: History, ev: Event, key: string)
    requires Unheard(h, key) && MintsNewKeys(h, ev) && Keeps(ev)
    ensures Unheard(Step(h, ev), key)
  {
    var q := After(h.p, ev);
    if ev.Enqueue? {
      FreshKeys(h, ev, key);
    } else if ev.Answer? && IsSending(h.p, ev.d) {
      forall x | x in Dropping(h.p.items, h.p.drains[ev.d].item.clientId)
        ensures x.clientId != key
      {
        DroppingFrom(h.p.items, h.p.drains[ev.d].item.clientId, x);
      }
    }
    forall d | IsSending(q, d)
      ensures q.drains[d].item.clientId != key
    {
      if !IsSending(h.p, d) {
        assert q.drains[d].item in h.p.items;
      }
    }
  }

  lemma {:induction false} RunUnheard(h: History, evs: seq<Event>, key: string)
    requires Unheard(h, key) && NewKeys(h, evs) && forall k :: 0 <= k < |evs| ==> Keeps(evs[k])
    ensures Unheard(Run(h, evs), key)
    decreases |evs|
  {
    if evs != [] {
      UnheardStays(h, evs[0], key);
      RunUnheard(Step(h, evs[0]), evs[1..], key);
    }
  }

  lemma {:induction false} RunFirst(h: History, evs: seq<Event>, key: string)
    requires FirstIsAbout(h.p, key) && forall k :: 0 <= k < |evs| ==> Keeps(evs[k])
    ensures FirstIsAbout(Run(h, evs).p, key)
    decreases |evs|
  {
    if evs != [] {
      RunFirst(Step(h, evs[0]), evs[1..], key);
    }
  }

  lemma AwaitedStays(h: History, ev: Event, d: DrainId, x: Item)
    requires Awaited(h, d, x) && MintsNewKeys(h, ev) && Keeps(ev) && !(ev.Answer? && ev.d == d)
    ensures Awaited(Step(h, ev), d, x)
  {
    EventKeepsOneDrain(h.p, ev);
    if ev.Enqueue? {
      FreshKeys(h, ev, x.clientId);
    }
  }

  lemma AwaitedEnds(h: History, d: DrainId, x: Item, o: Outcome)
    requires Awaited(h, d, x)
    ensures var h' := Step(h, Answer(d, o));
            if o.Failed? && Settles(o) then FirstIsAbout(h'.p, x.clientId) else Unheard(h', x.clientId)
  {
    var q := After(h.p, Answer(d, o));
    forall y | y in Dropping(h.p.items, x.clientId)
      ensures y.clientId != x.clientId
    {
      DroppingFrom(h.p.items, x.clientId, y);
    }
    forall e | IsSending(q, e)
      ensures q.drains[e].item.clientId != x.clientId
    {
      assert e in h.p.drains.Keys;
      assert q.drains[e].item in q.items;
    }
  }

  lemma {:induction false} AwaitedRun(h: History, evs: seq<Event>, d: DrainId, x: Item)
    requires Awaited(h, d, x) && NewKeys(h, evs) && forall k :: 0 <= k < |evs| ==> Keeps(evs[k])
    ensures var h' := Run(h, evs);
            if Refuses(FirstAnswer(evs, d)) then FirstIsAbout(h'.p, x.clientId)
            else Awaited(h', d, x) || Unheard(h', x.clientId)
    decreases |evs|
  {
    if evs != [] {
      if evs[0].Answer? && evs[0].d == d {
        AwaitedEnds(h, d, x, evs[0].outcome);
        if Refuses(FirstAnswer(evs, d)) {
          RunFirst(Step(h, evs[0]), evs[1..], x.clientId);
        } else {
          RunUnheard(Step(h, evs[0]), evs[1..], x.clientId);
        }
      } else {
        AwaitedStays(h, evs[0], d, x);
        AwaitedRun(Step(h, evs[0]), evs[1..], d, x);
      }
    }
  }

  lemma SignedOut(h: History, d: DrainId)
    requires Conserved(h) && IsSending(h.p, d)
    ensures Conserved(Step(h, SignOut)) && Awaited(Step(h, SignOut), d, h.p.drains[d].item)
  {
    assert SendOk(h, h.p.drains[d].item);
    StepKeeps(h, SignOut);
  }

  lemma IsRecorded(h: History, d: DrainId, x: Item, refused: bool)
    requires if refused then FirstIsAbout(h.p, x.clientId) else Awaited(h, d, x) || Unheard(h, x.clientId)
    ensures RecordedExactlyWhen(h.p, x.clientId, refused)
  {
    if refused {
      assert h.p.attention[0] in h.p.attention && StoredRecords(h.p.disk)[0] in StoredRecords(h.p.disk);
    }
  }

  lemma RecordedIff(h: History, d: DrainId, evs: seq<Event>)
    requires Conserved(h) && IsSending(h.p, d)
    requires NewKeys(Step(h, SignOut), evs) && forall k :: 0 <= k < |evs| ==> Keeps(evs[k])
    ensures var x := h.p.drains[d].item;
            var p := Phones(After(h.p, SignOut), evs);
            RecordedExactlyWhen(p, x.clientId, Refuses(FirstAnswer(evs, d)))
  {
    SignedOut(h, d);
    RecordedAfter(Step(h, SignOut), d, h.p.drains[d].item, evs);
  }

  lemma RecordedAfter(h: History, d: DrainId, x: Item, evs: seq<Event>)
    requires Conserved(h) && Awaited(h, d, x) && NewKeys(h, evs) && forall k :: 0 <= k < |evs| ==> Keeps(evs[k])
    ensures RecordedExactlyWhen(Phones(h.p, evs), x.clientId, Refuses(FirstAnswer(evs, d)))
  {
    AwaitedRun(h, evs, d, x);
    RunKeeps(h, evs);
    IsRecorded(Run(h, evs), d, x, Refuses(FirstAnswer(evs, d)));
  }

  /**
   * Over every run: sign out while the send of x is out, and until the next dismissal, sign-out or launch
   * there is a record about x, in memory and on disk, exactly when that send was answered by a refusal no
   * retry can change.
   */
  lemma OldRecordIff(before: seq<Event>, d: DrainId, evs: seq<Event>)
    requires NewKeys(FIRST_LAUNCH, before) && IsSending(Phones(NEW_PHONE, before), d)
    requires NewKeys(Step(Run(FIRST_LAUNCH, before), SignOut), evs) && forall k :: 0 <= k < |evs| ==> Keeps(evs[k])
    ensures var x := Phones(NEW_PHONE, before).drains[d].item;
            var p := Phones(After(Phones(NEW_PHONE, before), SignOut), evs);
            RecordedExactlyWhen(p, x.clientId, Refuses(FirstAnswer(evs, d)))
  {
    RunKeeps(FIRST_LAUNCH, before);
    RecordedIff(Run(FIRST_LAUNCH, before), d, evs);
  }

  /** A phone's first tap, being sent. */
  lemma SentFirst(x: Item) returns (evs: seq<Event>)
    requires !x.PingItem?
    ensures NewKeys(FIRST_LAUNCH, evs)
    ensures Run(FIRST_LAUNCH, evs).p == Phones(NEW_PHONE, evs)
    ensures Phones(NEW_PHONE, evs) == Phone([x], [], Some(Blob([x], [])), None, Some(0), map[0 := Sending(x)], 1)
  {
    assert Run(FIRST_LAUNCH, []) == FIRST_LAUNCH && NewKeys(FIRST_LAUNCH, []);
    OneMore(FIRST_LAUNCH, [], Rehydrated(true));
    assert Run(FIRST_LAUNCH, [] + [Rehydrated(true)]).p == Phone([], [], Some(Blob([], [])), None, None, map[], 0);
    evs := [] + [Rehydrated(true)];
    OneMore(FIRST_LAUNCH, evs, Enqueue(x));
    evs := evs + [Enqueue(x)];
    assert Run(FIRST_LAUNCH, evs).p == Phone([x], [], Some(Blob([x], [])), None, None, map[], 0);
    OneMore(FIRST_LAUNCH, evs, Flush);
    evs := evs + [Flush];
    OneMore(FIRST_LAUNCH, evs, Resume(0));
    evs := evs + [Resume(0)];
  }

  /** A tap sent, the worker signed out, the tap refused: its record is on the phone the next worker takes. */
  lemma ARecordCanOutlive(x: Item, status: int, code: string) returns (evs: seq<Event>)
    requires !x.PingItem? && Settles(Failed(status, code))
    ensures NewKeys(FIRST_LAUNCH, evs) && |evs| > 0 && evs[|evs| - 1] == Answer(0, Failed(status, code))
    ensures SignOut in evs
    ensures var p := Phones(NEW_PHONE, evs);
            var record := Attention(x.clientId, Some(if x.OutItem? then x.entry else x.clientId), code);
            p.items == [] && p.attention == [record] && p.disk == Some(Blob([], [record]))
  {
    evs := SentFirst(x);
    OneMore(FIRST_LAUNCH, evs, SignOut);
    OneMore(FIRST_LAUNCH, evs + [SignOut], Answer(0, Failed(status, code)));
    evs := evs + [SignOut] + [Answer(0, Failed(status, code))];
    assert evs[|evs| - 2] == SignOut;
  }
}
