/**
 * The outbox conserves its queue over any run (mobile/src/stores/outbox.ts): what was queued is what was
 * settled, in order, then what is owed, but for what storage let go of; and why an item leaves.
 */
module OutboxConserves {
  import opened Options
  import opened Sorting
  import opened Names
  import opened Queue
  import opened Merging
  import opened Outbox

  /* ---- keeping and dropping ---- */

  lemma {:induction false} KeepIn(s: seq<Item>, lost: set<Item>, x: Item)
    ensures x in Keep(s, lost) <==> x in s && x !in lost
  {
    if s != [] {
      KeepIn(s[1..], lost, x);
      assert s == [s[0]] + s[1..];
    }
  }

  lemma {:induction false} KeepAppend(a: seq<Item>, b: seq<Item>, lost: set<Item>)
    ensures Keep(a + b, lost) == Keep(a, lost) + Keep(b, lost)
  {
    if a == [] {
      assert a + b == b;
    } else {
      assert (a + b)[1..] == a[1..] + b;
      KeepAppend(a[1..], b, lost);
    }
  }

  lemma {:induction false} KeepTwice(s: seq<Item>, a: set<Item>, b: set<Item>)
    ensures Keep(Keep(s, a), b) == Keep(s, a + b)
  {
    if s != [] {
      KeepTwice(s[1..], a, b);
      var rest := Keep(s[1..], a);
      assert s[0] !in a ==> ([s[0]] + rest)[1..] == rest;
      assert s[0] in a ==> [] + rest == rest;
    }
  }

  lemma {:induction false} KeepAll(s: seq<Item>, lost: set<Item>)
    requires forall x :: x in s ==> x !in lost
    ensures Keep(s, lost) == s
  {
    if s != [] {
      KeepAll(s[1..], lost);
    }
  }

  lemma {:induction false} KeepNone(s: seq<Item>, lost: set<Item>)
    requires forall x :: x in s ==> x in lost
    ensures Keep(s, lost) == []
  {
    if s != [] {
      KeepNone(s[1..], lost);
    }
  }

  lemma {:induction false} KeepDistinct(s: seq<Item>, lost: set<Item>)
    requires Distinct(Map(ItemKey, s))
    ensures Distinct(Map(ItemKey, Keep(s, lost)))
  {
    if s != [] {
      var rest := Keep(s[1..], lost);
      assert s == [s[0]] + s[1..];
      SuffixDistinct([s[0]], s[1..]);
      KeepDistinct(s[1..], lost);
      if s[0] !in lost {
        forall i | 0 <= i < |rest|
          ensures rest[i].clientId != s[0].clientId
        {
          KeepIn(s[1..], lost, rest[i]);
          var j :| 0 <= j < |s[1..]| && s[1..][j] == rest[i];
          assert Map(ItemKey, s)[0] != Map(ItemKey, s)[j + 1];
        }
        var m := Map(ItemKey, [s[0]] + rest);
        assert forall i :: 0 < i < |m| ==> m[i] == Map(ItemKey, rest)[i - 1];
      } else {
        assert [] + rest == rest;
      }
    }
  }

  lemma {:induction false} DroppingAbsent(items: seq<Item>, key: string)
    requires !Has(ItemKey, items, key)
    ensures Dropping(items, key) == items
  {
    if items != [] {
      var n := |items| - 1;
      forall i | 0 <= i < n
        ensures items[..n][i].clientId != key
      {
        assert ItemKey(items[i]) != key;
      }
      DroppingAbsent(items[..n], key);
      assert ItemKey(items[n]) != key;
      SplitLast(items);
    }
  }

  lemma DroppingAppend(items: seq<Item>, x: Item, key: string)
    ensures Dropping(items + [x], key) == Dropping(items, key) + if x.clientId != key then [x] else []
  {
    assert (items + [x])[..|items|] == items;
  }

  lemma {:induction false} DroppingHead(items: seq<Item>)
    requires items != [] && Distinct(Map(ItemKey, items))
    ensures Dropping(items, items[0].clientId) == items[1..]
  {
    var n := |items| - 1;
    if n > 0 {
      var front := items[..n];
      SplitLast(items);
      NotIn(ItemKey, front, items[n]);
      DroppingHead(front);
      assert ItemKey(front[0]) != ItemKey(items[n]);
      DroppingAppend(front, items[n], items[0].clientId);
      TailAppend(front, items[n]);
    } else {
      assert items[..0] == [];
    }
  }

  lemma TailAppend<T>(s: seq<T>, x: T)
    requires s != []
    ensures (s + [x])[1..] == s[1..] + [x]
  {
  }

  lemma {:induction false} SuffixDistinct(a: seq<Item>, b: seq<Item>)
    requires Distinct(Map(ItemKey, a + b))
    ensures Distinct(Map(ItemKey, a)) && Distinct(Map(ItemKey, b))
  {
    assert Map(ItemKey, a + b) == Map(ItemKey, a) + Map(ItemKey, b);
    forall i, j | 0 <= i < j < |b|
      ensures Map(ItemKey, b)[i] != Map(ItemKey, b)[j]
    {
      assert Map(ItemKey, a + b)[|a| + i] != Map(ItemKey, a + b)[|a| + j];
    }
    forall i, j | 0 <= i < j < |a|
      ensures Map(ItemKey, a)[i] != Map(ItemKey, a)[j]
    {
      assert Map(ItemKey, a + b)[i] != Map(ItemKey, a + b)[j];
    }
  }

  lemma Apart(a: seq<Item>, b: seq<Item>, x: Item)
    requires Distinct(Map(ItemKey, a + b)) && x in a
    ensures x !in b
  {
    var i :| 0 <= i < |a| && a[i] == x;
    forall j | 0 <= j < |b|
      ensures b[j] != x
    {
      assert Map(ItemKey, a + b)[i] != Map(ItemKey, a + b)[|a| + j];
    }
  }

  lemma Doubled(items: seq<Item>)
    requires items != []
    ensures !Distinct(Map(ItemKey, items + items))
  {
    var m := Map(ItemKey, items + items);
    assert m[0] == m[|items|];
  }

  lemma KeysGrow(known: seq<Item>, used: set<string>, more: seq<Item>)
    requires Distinct(Map(ItemKey, known)) && Distinct(Map(ItemKey, more)) && Elements(Map(ItemKey, more)) !! used
    requires forall x :: x in known ==> x.clientId in used
    ensures Distinct(Map(ItemKey, known + more)) && forall x :: x in more ==> x !in known
    ensures forall x :: x in known + more ==> x.clientId in used + Elements(Map(ItemKey, more))
  {
    var m := Map(ItemKey, known + more);
    forall x | x in more
      ensures x.clientId in Elements(Map(ItemKey, more))
    {
      var k :| 0 <= k < |more| && more[k] == x;
      assert Map(ItemKey, more)[k] == x.clientId;
    }
    forall i, j | 0 <= i < j < |m|
      ensures m[i] != m[j]
    {
      if i >= |known| {
        assert Map(ItemKey, more)[i - |known|] != Map(ItemKey, more)[j - |known|];
      } else if j < |known| {
        assert Map(ItemKey, known)[i] != Map(ItemKey, known)[j];
      } else {
        assert known[i] in known && more[j - |known|] in more;
      }
    }
  }

  lemma SameKeys(items: seq<Item>)
    ensures Map(ItemKey, items) == Keys(items)
  {
  }

  lemma Regrouped<T>(a: seq<T>, b: seq<T>, c: seq<T>)
    ensures a + (b + c) == (a + b) + c
  {
  }

  lemma HeadLeaves<T>(a: seq<T>, s: seq<T>)
    requires s != []
    ensures a + s == (a + [s[0]]) + s[1..]
  {
  }

  /* ---- each event ---- */

  lemma OwedDistinct(h: History, owed: seq<Item>)
    requires Accounted(h, owed) && KeysKnown(h)
    ensures Distinct(Map(ItemKey, h.resolved + owed)) && Distinct(Map(ItemKey, owed))
    ensures forall x :: x in owed ==> x in h.enqueued
  {
    KeepDistinct(h.enqueued, h.lost);
    SuffixDistinct(h.resolved, owed);
    forall x | x in owed
      ensures x in h.enqueued
    {
      assert x in h.resolved + owed;
      KeepIn(h.enqueued, h.lost, x);
    }
  }

  /** Letting go of exactly the items in front leaves the rest accounted for. */
  lemma LetGo(h: History, unread: seq<Item>, rest: seq<Item>)
    requires Accounted(h, unread + rest) && KeysKnown(h)
    ensures Accounted(h.(lost := h.lost + Elements(unread)), rest)
  {
    var gone := Elements(unread);
    OwedDistinct(h, unread + rest);
    KeepTwice(h.enqueued, h.lost, gone);
    Regrouped(h.resolved, unread, rest);
    KeepAppend(h.resolved + unread, rest, gone);
    KeepAppend(h.resolved, unread, gone);
    forall x | x in unread
      ensures x !in h.resolved && x !in rest && x in unread + rest
    {
      assert x in unread + rest;
      Apart(unread, rest, x);
      if x in h.resolved {
        Apart(h.resolved, unread + rest, x);
      }
    }
    KeepAll(h.resolved, gone);
    KeepAll(rest, gone);
    KeepNone(unread, gone);
    assert h.resolved + [] == h.resolved;
  }

  lemma Joins(h: History, owed: seq<Item>, more: seq<Item>)
    requires Accounted(h, owed) && KeysKnown(h)
    requires Distinct(Map(ItemKey, more)) && Elements(Map(ItemKey, more)) !! h.used
    ensures var h' := h.(enqueued := h.enqueued + more, used := h.used + Elements(Map(ItemKey, more)));
            Accounted(h', owed + more) && KeysKnown(h')
  {
    KeysGrow(h.enqueued, h.used, more);
    KeepAppend(h.enqueued, more, h.lost);
    KeepAll(more, h.lost);
    Regrouped(h.resolved, owed, more);
  }

  lemma StillHead(items: seq<Item>, more: seq<Item>, x: Item, used: set<string>)
    requires x.clientId in used && Elements(Map(ItemKey, more)) !! used
    requires Has(ItemKey, items, x.clientId) ==> items[0] == x
    ensures Has(ItemKey, items + more, x.clientId) ==> (items + more)[0] == x
  {
    forall k | 0 <= k < |more|
      ensures more[k].clientId != x.clientId
    {
      assert Map(ItemKey, more)[k] in Elements(Map(ItemKey, more));
    }
    if Has(ItemKey, items + more, x.clientId) {
      var i :| 0 <= i < |items + more| && ItemKey((items + more)[i]) == x.clientId;
      assert i < |items| && ItemKey(items[i]) == x.clientId;
    }
  }

  lemma EnqueueKeeps(h: History, item: Item)
    requires Conserved(h) && MintsNewKeys(h, Enqueue(item))
    ensures Conserved(Step(h, Enqueue(item)))
  {
    var more, h' := Chunks(item), Step(h, Enqueue(item));
    ChunksAreTheBatch(item);
    SameKeys(more);
    if Loses(h.p, Enqueue(item)) {
      LetGo(h, Unread(h.p), h.p.items);
      Joins(h.(lost := h'.lost), h.p.items, more);
    } else {
      Joins(h, Owed(h.p), more);
      Regrouped(Unread(h.p), h.p.items, more);
    }
    assert Owed(h'.p) == Unread(h'.p) + (h.p.items + more);
    assert [] + (h.p.items + more) == h.p.items + more;
    forall d | IsSending(h'.p, d)
      ensures SendOk(h', h'.p.drains[d].item)
    {
      assert IsSending(h.p, d);
      StillHead(h.p.items, more, h.p.drains[d].item, h.used);
    }
  }

  lemma DropsTheHead(h: History, x: Item)
    requires Conserved(h) && SendOk(h, x)
    ensures Dropping(h.p.items, x.clientId) == if h.p.items != [] && h.p.items[0] == x then h.p.items[1..]
            else h.p.items
  {
    OwedDistinct(h, Owed(h.p));
    SuffixDistinct(Unread(h.p), h.p.items);
    if h.p.items != [] && h.p.items[0] == x {
      DroppingHead(h.p.items);
    } else {
      DroppingAbsent(h.p.items, x.clientId);
    }
  }

  /** Whatever is sent next is the head, and its key is known. */
  lemma NextIsHead(h: History, owed: seq<Item>)
    requires Accounted(h, owed) && KeysKnown(h) && h.p.reading.None? && Unread(h.p) == [] && owed == h.p.items != []
    ensures SendOk(h, h.p.items[0])
  {
    OwedDistinct(h, owed);
    assert owed[0] in owed;
  }

  lemma Settled(p: Phone, d: DrainId, o: Outcome)
    requires IsSending(p, d) && Settles(o)
    ensures var q := After(p, Answer(d, o));
            && q.items == Dropping(p.items, p.drains[d].item.clientId) && q.drains == p.drains[d := Next(q.items)]
            && q.reading == p.reading && StoredItems(q.disk) == q.items
  {
  }

  lemma SettleAccounts(h: History, d: DrainId, o: Outcome)
    requires Conserved(h) && IsSending(h.p, d) && Settles(o)
    ensures var h' := Step(h, Answer(d, o));
            && Accounted(h', h'.p.items) && KeysKnown(h') && h'.p.reading.None? && StoredItems(h'.p.disk) == h'.p.items
            && h'.p.drains == h.p.drains[d := Next(h'.p.items)]
  {
    var x := h.p.drains[d].item;
    Settled(h.p, d, o);
    assert SendOk(h, x);
    DropsTheHead(h, x);
    assert Owed(h.p) == h.p.items;
    var h' := Step(h, Answer(d, o));
    assert h'.enqueued == h.enqueued && h'.lost == h.lost && h'.used == h.used;
    assert h'.resolved + h'.p.items == h.resolved + h.p.items by {
      if h.p.items != [] && h.p.items[0] == x {
        HeadLeaves(h.resolved, h.p.items);
      } else {
        assert h.resolved + [] == h.resolved;
      }
    }
  }

  lemma SettleKeeps(h: History, d: DrainId, o: Outcome)
    requires Conserved(h) && IsSending(h.p, d) && Settles(o)
    ensures Conserved(Step(h, Answer(d, o)))
  {
    SettleAccounts(h, d, o);
    EventKeepsOneDrain(h.p, Answer(d, o));
    SettledHead(Step(h, Answer(d, o)), d);
  }

  lemma SettledHead(h: History, d: DrainId)
    requires Accounted(h, h.p.items) && KeysKnown(h) && h.p.reading.None? && StoredItems(h.p.disk) == h.p.items
    requires OneDrain(h.p) && d in h.p.drains && h.p.drains[d] == Next(h.p.items)
    ensures Conserved(h)
  {
    assert Owed(h.p) == h.p.items;
    forall e | IsSending(h.p, e)
      ensures SendOk(h, h.p.drains[e].item)
    {
      assert e == d;
      NextIsHead(h, h.p.items);
    }
  }

  lemma ResumeKeeps(h: History, d: DrainId)
    requires Conserved(h)
    ensures Conserved(Step(h, Resume(d)))
  {
    var h' := Step(h, Resume(d));
    EventKeepsOneDrain(h.p, Resume(d));
    forall e | IsSending(h'.p, e)
      ensures SendOk(h', h'.p.drains[e].item)
    {
      if IsSending(h.p, e) {
        assert SendOk(h, h.p.drains[e].item);
      } else {
        assert Owed(h'.p) == h'.p.items;
        NextIsHead(h', h'.p.items);
      }
    }
  }

  lemma NothingSent(h: History)
    requires HeadIsSent(h) && (h.p.reading.Some? || Unread(h.p) != [])
    ensures forall d :: !IsSending(h.p, d)
  {
  }

  /** Where a write was made inside the window, storage is not what the read found. */
  lemma WrittenDiffers(h: History)
    requires Conserved(h) && h.p.reading.Some? && Unread(h.p) != []
    ensures StoredItems(h.p.disk) == Unread(h.p) ==> h.p.items == []
  {
    OwedDistinct(h, Owed(h.p));
    if h.p.items == Unread(h.p) {
      Doubled(h.p.items);
    }
  }

  lemma RehydrateKeeps(h: History, ok: bool)
    requires Conserved(h) && h.p.reading.Some?
    ensures Conserved(Step(h, Rehydrated(ok)))
  {
    if ok {
      MergeKeeps(h);
    } else {
      NothingSent(h);
      assert [] + h.p.items == h.p.items;
      if Loses(h.p, Rehydrated(ok)) {
        LetGo(h, Unread(h.p), h.p.items);
      } else if Unread(h.p) != [] {
        WrittenDiffers(h);
      }
    }
  }

  lemma MergedItems(h: History)
    requires Conserved(h) && h.p.reading.Some?
    ensures Merge(h.p, h.p.reading.value).items == Owed(h.p)
  {
    OwedDistinct(h, Owed(h.p));
    UniqueOfDistinct(ItemKey, Owed(h.p));
  }

  lemma MergeKeeps(h: History)
    requires Conserved(h) && h.p.reading.Some?
    ensures Conserved(Step(h, Rehydrated(true)))
  {
    var h' := Step(h, Rehydrated(true));
    assert h'.p.items == Owed(h.p) by {
      MergedItems(h);
    }
    assert Accounted(h', h'.p.items) && KeysKnown(h');
    assert HeadIsSent(h') by {
      NothingSent(h);
      assert forall d :: IsSending(h'.p, d) ==> IsSending(h.p, d);
    }
    EventKeepsOneDrain(h.p, Rehydrated(true));
    AllInMemory(h');
  }

  lemma AllInMemory(h: History)
    requires Accounted(h, h.p.items) && KeysKnown(h) && h.p.reading.None? && StoredItems(h.p.disk) == h.p.items
    requires OneDrain(h.p) && HeadIsSent(h)
    ensures Conserved(h)
  {
    assert Owed(h.p) == [] + h.p.items == h.p.items;
  }

  lemma RelaunchKeeps(h: History)
    requires Conserved(h)
    ensures Conserved(Step(h, Relaunch))
  {
    var disk := StoredItems(h.p.disk);
    assert disk + [] == disk && [] + h.p.items == h.p.items;
    if Loses(h.p, Relaunch) {
      LetGo(h, Unread(h.p), h.p.items);
    } else if h.p.reading.Some? && Unread(h.p) != [] {
      WrittenDiffers(h);
    }
  }

  lemma DismissKeeps(h: History)
    requires Conserved(h)
    ensures Conserved(Step(h, Dismiss))
  {
    var h' := Step(h, Dismiss);
    assert [] + h.p.items == h.p.items;
    if Loses(h.p, Dismiss) {
      LetGo(h, Unread(h.p), h.p.items);
    }
    forall d | IsSending(h'.p, d)
      ensures SendOk(h', h'.p.drains[d].item)
    {
      assert IsSending(h.p, d);
    }
  }

  lemma QuietKeeps(h: History, ev: Event)
    requires Conserved(h) && (ev.Flush? || ev.Finally? || ev.SignOut? || (ev.Answer? && !Settles(ev.outcome)))
    ensures Conserved(Step(h, ev))
  {
    var h' := Step(h, ev);
    EventKeepsOneDrain(h.p, ev);
    assert h.resolved + [] == h.resolved;
    forall d | IsSending(h'.p, d)
      ensures SendOk(h', h'.p.drains[d].item)
    {
      assert IsSending(h.p, d) && h'.p.drains[d] == h.p.drains[d];
    }
  }

  /** One event at a time, what was queued stays accounted for, in order, whatever happens. */
  lemma StepKeeps(h: History, ev: Event)
    requires Conserved(h) && MintsNewKeys(h, ev)
    ensures Conserved(Step(h, ev))
  {
    match ev
    case Enqueue(item) => EnqueueKeeps(h, item);
    case Resume(d) => ResumeKeeps(h, d);
    case Answer(d, o) =>
      if IsSending(h.p, d) && Settles(o) {
        SettleKeeps(h, d, o);
      } else if !Settles(o) {
        QuietKeeps(h, ev);
      } else {
        assert h.resolved + [] == h.resolved;
      }
    case Rehydrated(ok) =>
      if h.p.reading.Some? {
        RehydrateKeeps(h, ok);
      }
    case Relaunch => RelaunchKeeps(h);
    case Dismiss => DismissKeeps(h);
    case _ => QuietKeeps(h, ev);
  }

  /* ---- whole runs ---- */

  ghost predicate NewKeys(h: History, evs: seq<Event>)
    decreases |evs|
  {
    evs == [] || (MintsNewKeys(h, evs[0]) && NewKeys(Step(h, evs[0]), evs[1..]))
  }

  ghost function Run(h: History, evs: seq<Event>): History
    decreases |evs|
  {
    if evs == [] then h else Run(Step(h, evs[0]), evs[1..])
  }

  lemma {:induction false} RunKeeps(h: History, evs: seq<Event>)
    requires Conserved(h) && NewKeys(h, evs)
    ensures Conserved(Run(h, evs)) && Run(h, evs).p == Phones(h.p, evs)
    decreases |evs|
  {
    if evs != [] {
      StepKeeps(h, evs[0]);
      RunKeeps(Step(h, evs[0]), evs[1..]);
    }
  }

  /** A run and one event more. */
  lemma {:induction false} OneMore(h: History, evs: seq<Event>, ev: Event)
    ensures Run(h, evs + [ev]) == Step(Run(h, evs), ev)
    ensures Phones(h.p, evs + [ev]) == After(Phones(h.p, evs), ev)
    ensures NewKeys(h, evs + [ev]) <==> NewKeys(h, evs) && MintsNewKeys(Run(h, evs), ev)
    decreases |evs|
  {
    if evs == [] {
      assert evs + [ev] == [ev] && [ev][1..] == [];
    } else {
      assert (evs + [ev])[1..] == evs[1..] + [ev];
      OneMore(Step(h, evs[0]), evs[1..], ev);
    }
  }

  predicate NoSignOut(evs: seq<Event>) {
    forall k :: 0 <= k < |evs| ==> !evs[k].SignOut?
  }

  /** Some event of the run lost items, and no sign-out came after. */
  predicate Leaks(p: Phone, evs: seq<Event>)
    decreases |evs|
  {
    evs != [] && ((Loses(p, evs[0]) && NoSignOut(evs[1..])) || Leaks(After(p, evs[0]), evs[1..]))
  }

  lemma {:induction false} LostIff(h: History, evs: seq<Event>)
    ensures Run(h, evs).lost != {} <==> (h.lost != {} && NoSignOut(evs)) || Leaks(h.p, evs)
    decreases |evs|
  {
    if evs != [] {
      LostIff(Step(h, evs[0]), evs[1..]);
      assert NoSignOut(evs) <==> !evs[0].SignOut? && NoSignOut(evs[1..]) by {
        assert forall k :: 0 < k < |evs| ==> evs[k] == evs[1..][k - 1];
      }
      if Loses(h.p, evs[0]) {
        assert Unread(h.p)[0] in Elements(Unread(h.p));
      }
    }
  }

  lemma WholeIff(h: History)
    requires Conserved(h)
    ensures h.enqueued == h.resolved + Owed(h.p) <==> h.lost == {}
  {
    if h.lost == {} {
      KeepAll(h.enqueued, h.lost);
    } else {
      var x :| x in h.lost;
      KeepIn(h.enqueued, h.lost, x);
    }
  }

  /**
   * Over any run of taps, overlapping flushes, replies, failed reads, kills and relaunches: what was
   * queued, but for what storage let go of unread, is what was settled, in order, then what is owed,
   * every key once. Nothing is missing exactly when no event lost anything since the last sign-out.
   */
  lemma NothingIsLostOrReordered(evs: seq<Event>)
    requires NewKeys(FIRST_LAUNCH, evs)
    ensures var h := Run(FIRST_LAUNCH, evs);
            && h.p == Phones(NEW_PHONE, evs)
            && Keep(h.enqueued, h.lost) == h.resolved + Owed(h.p) && Distinct(Map(ItemKey, h.enqueued))
            && (h.enqueued == h.resolved + Owed(h.p) <==> !Leaks(NEW_PHONE, evs))
  {
    RunKeeps(FIRST_LAUNCH, evs);
    WholeIff(Run(FIRST_LAUNCH, evs));
    LostIff(FIRST_LAUNCH, evs);
  }

  /** Event k is a sign-out, and x, then the head of the queue, was being sent by drain d. */
  predicate SignedOutUnder(evs: seq<Event>, k: nat, d: DrainId, x: Item) {
    && k < |evs| && evs[k].SignOut?
    && SendsHead(Phones(NEW_PHONE, evs[..k]), d) && Phones(NEW_PHONE, evs[..k]).drains[d].item == x
  }

  /** Only a sign-out takes the head from under its send. */
  lemma OnlySignOutUnseats(h: History, ev: Event, d: DrainId)
    requires Conserved(h) && IsSending(After(h.p, ev), d) && !SendsHead(After(h.p, ev), d)
    ensures IsSending(h.p, d) && h.p.drains[d].item == After(h.p, ev).drains[d].item
    ensures SendsHead(h.p, d) ==> ev.SignOut?
  {
    if ev.Rehydrated? && h.p.reading.Some? {
      NothingSent(h);
    }
  }

  /** Before the last event of a run the same drain was sending the same item; only a sign-out unseats it. */
  lemma SentBefore(evs: seq<Event>, n: nat, d: DrainId)
    requires |evs| == n + 1 && NewKeys(FIRST_LAUNCH, evs)
    requires IsSending(Phones(NEW_PHONE, evs), d) && !SendsHead(Phones(NEW_PHONE, evs), d)
    ensures NewKeys(FIRST_LAUNCH, evs[..n]) && IsSending(Phones(NEW_PHONE, evs[..n]), d)
    ensures Phones(NEW_PHONE, evs[..n]).drains[d].item == Phones(NEW_PHONE, evs).drains[d].item
    ensures SendsHead(Phones(NEW_PHONE, evs[..n]), d) ==> evs[n].SignOut?
  {
    assert evs == evs[..n] + [evs[n]];
    OneMore(FIRST_LAUNCH, evs[..n], evs[n]);
    RunKeeps(FIRST_LAUNCH, evs[..n]);
    OnlySignOutUnseats(Run(FIRST_LAUNCH, evs[..n]), evs[n], d);
  }

  lemma {:induction false} HeadOrSignedOut(evs: seq<Event>, d: DrainId)
    requires NewKeys(FIRST_LAUNCH, evs) && IsSending(Phones(NEW_PHONE, evs), d)
    ensures var p := Phones(NEW_PHONE, evs);
            SendsHead(p, d) || exists k: nat :: SignedOutUnder(evs, k, d, p.drains[d].item)
    decreases |evs|
  {
    var p := Phones(NEW_PHONE, evs);
    if !SendsHead(p, d) {
      var n := |evs| - 1;
      var front := evs[..n];
      assert evs != [] by {
        assert Phones(NEW_PHONE, []) == NEW_PHONE;
      }
      SentBefore(evs, n, d);
      if SendsHead(Phones(NEW_PHONE, front), d) {
        assert SignedOutUnder(evs, n, d, p.drains[d].item);
      } else {
        HeadOrSignedOut(front, d);
        var k: nat :| SignedOutUnder(front, k, d, p.drains[d].item);
        assert front[..k] == evs[..k];
        assert SignedOutUnder(evs, k, d, p.drains[d].item);
      }
    }
  }

  /**
   * Over any such run the one send that may be out is of the head of the queue, or of the item that was
   * the head, being sent by that very drain, when a worker signed out.
   */
  lemma TheHeadIsSent(evs: seq<Event>, d: DrainId)
    requires NewKeys(FIRST_LAUNCH, evs) && IsSending(Phones(NEW_PHONE, evs), d)
    ensures var p := Phones(NEW_PHONE, evs);
            && p.inFlight == Some(d) && (forall e :: IsSending(p, e) ==> e == d)
            && (Has(ItemKey, p.items, p.drains[d].item.clientId) ==> p.items[0] == p.drains[d].item)
            && (SendsHead(p, d) || exists k: nat :: SignedOutUnder(evs, k, d, p.drains[d].item))
  {
    RunKeeps(FIRST_LAUNCH, evs);
    assert SendOk(Run(FIRST_LAUNCH, evs), Phones(NEW_PHONE, evs).drains[d].item);
    HeadOrSignedOut(evs, d);
  }

  /* ---- why an item leaves ---- */

  lemma SameRest<T>(a: seq<T>, b: seq<T>, c: seq<T>)
    requires a + b == a + c
    ensures b == c
  {
    assert b == (a + b)[|a|..] && c == (a + c)[|a|..];
  }

  lemma EnqueueAppends(h: History, item: Item)
    requires Conserved(h) && !Loses(h.p, Enqueue(item))
    ensures Owed(After(h.p, Enqueue(item))) == Owed(h.p) + Chunks(item)
  {
    Regrouped(Unread(h.p), h.p.items, Chunks(item));
  }

  /** Nothing but a verdict, a sign-out or a loss shortens what is owed. */
  lemma OthersStay(h: History, ev: Event)
    requires Conserved(h) && !Loses(h.p, ev) && !ev.SignOut? && !ev.Enqueue?
    requires ev.Answer? ==> !(IsSending(h.p, ev.d) && Settles(ev.outcome))
    ensures Owed(After(h.p, ev)) == Owed(h.p)
  {
    var h' := Step(h, ev);
    StepKeeps(h, ev);
    assert h.resolved + [] == h.resolved;
    SameRest(h.resolved, Owed(h.p), Owed(h'.p));
  }

  /**
   * Sign-out and lost storage aside, an item leaves the queue only because the server settled that very
   * item: took it, or refused it with none of 0 (no connection), 401, 429 and 500 or above.
   */
  lemma OnlyAVerdictRemoves(h: History, ev: Event, x: Item)
    requires Conserved(h) && MintsNewKeys(h, ev) && !ev.SignOut? && !Loses(h.p, ev)
    requires x in Owed(h.p) && x !in Owed(After(h.p, ev))
    ensures ev.Answer? && ev.d in h.p.drains && h.p.drains[ev.d] == Sending(x)
    ensures match ev.outcome
            case Accepted => true
            case Failed(status, _) => status != 0 && status != 401 && status != 429 && status < 500
            case Bug => false
  {
    if ev.Enqueue? {
      EnqueueAppends(h, ev.item);
    } else if !(ev.Answer? && IsSending(h.p, ev.d) && Settles(ev.outcome)) {
      OthersStay(h, ev);
    } else {
      var sent := h.p.drains[ev.d].item;
      assert SendOk(h, sent);
      DropsTheHead(h, sent);
      assert x in h.p.items && x !in After(h.p, ev).items;
    }
  }

  /* ---- what an answer does ---- */

  lemma OnlyDrain(p: Phone, d: DrainId, to: Running)
    requires OneDrain(p) && d in p.drains
    ensures p.drains[d := to] == map[d := to]
  {
  }

  /** An answer that is no verdict on the item: the drain is over, and nothing else is touched. */
  lemma AnItemIsKept(p: Phone, d: DrainId, o: Outcome)
    requires OneDrain(p) && IsSending(p, d)
    requires o.Bug? || (o.Failed? && (o.status == 0 || o.status == 401 || o.status == 429 || o.status >= 500))
    ensures After(p, Answer(d, o)) == p.(drains := map[d := Finished])
  {
    OnlyDrain(p, d, Finished);
  }

  /** Any other answer is one: the item that was sent leaves, and a refusal leaves its record. */
  lemma AnItemLeaves(h: History, d: DrainId, o: Outcome)
    requires Conserved(h) && IsSending(h.p, d)
    requires !o.Bug? && (o.Failed? ==> o.status != 0 && o.status != 401 && o.status != 429 && o.status < 500)
    ensures var p, q, x := h.p, After(h.p, Answer(d, o)), h.p.drains[d].item;
            && q.items == (if p.items != [] && p.items[0] == x then p.items[1..] else p.items)
            && (o.Accepted? ==> q.attention == p.attention)
            && (o.Failed? ==> q.attention == WithRecord(p.attention, x, o.code))
            && q.drains == map[d := if q.items == [] then Finished else Sending(q.items[0])]
            && q == p.(items := q.items, attention := q.attention, disk := Some(Blob(q.items, q.attention)),
            drains := q.drains)
  {
    assert SendOk(h, h.p.drains[d].item);
    DropsTheHead(h, h.p.drains[d].item);
    OnlyDrain(h.p, d, After(h.p, Answer(d, o)).drains[d]);
  }

  /** A record names the row it marks: a clock-in its own, a close the shift's, a breadcrumb batch none. */
  function WithRecord(records: seq<Attention>, x: Item, code: string): seq<Attention> {
    var row :=
      match x
      case InItem(key, _) => Some(key)
      case OutItem(_, shift, _) => Some(shift)
      case PingItem(_, _) => None;
    if |records| < 50 then records + [Attention(x.clientId, row, code)] else records[..50]
  }

  /**
   * Over every run, what the answer to a send does. No connection (0), 401, 429, 500 and above, or an
   * exception of our own: queue, records and storage stay as they are and that drain is finished. Anything
   * else: the item sent leaves, it alone, in memory and in storage, a refusal adds its record, and the
   * drain sends the next.
   */
  lemma WhatAnAnswerDoes(evs: seq<Event>, d: DrainId, o: Outcome)
    requires NewKeys(FIRST_LAUNCH, evs)
    requires d in Phones(NEW_PHONE, evs).drains && Phones(NEW_PHONE, evs).drains[d].Sending?
    ensures var p, q := Phones(NEW_PHONE, evs), Phones(NEW_PHONE, evs + [Answer(d, o)]);
            var x := p.drains[d].item;
            if o.Bug? || (o.Failed? && (o.status == 0 || o.status == 401 || o.status == 429 || o.status >= 500)) then
              q == p.(drains := map[d := Finished])
            else
              && q.items == (if p.items != [] && p.items[0] == x then p.items[1..] else p.items)
              && q.attention == (if o.Failed? then WithRecord(p.attention, x, o.code) else p.attention)
              && q.drains == map[d := if q.items == [] then Finished else Sending(q.items[0])]
              && q == p.(items := q.items, attention := q.attention, disk := Some(Blob(q.items, q.attention)),
              drains := q.drains)
  {
    var h := Run(FIRST_LAUNCH, evs);
    RunKeeps(FIRST_LAUNCH, evs);
    OneMore(FIRST_LAUNCH, evs, Answer(d, o));
    if o.Bug? || (o.Failed? && (o.status == 0 || o.status == 401 || o.status == 429 || o.status >= 500)) {
      AnItemIsKept(h.p, d, o);
    } else {
      AnItemLeaves(h, d, o);
    }
  }
}
