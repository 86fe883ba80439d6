/** When the outbox fails to conserve its queue: a stored queue that was never read back, written over. */
module StorageLoses {
  import opened Options
  import opened Names
  import opened Sorting
  import opened Queue
  import opened Outbox
  import opened OutboxConserves

  predicate JustLaunched(p: Phone) {
    p.items == [] && p.reading == Some(p.disk)
  }

  predicate OneProcess(evs: seq<Event>) {
    forall k :: 0 <= k < |evs| ==> !evs[k].SignOut? && !evs[k].Relaunch?
  }

  /** The launch read came back, and was good. */
  predicate ReadBack(evs: seq<Event>) {
    evs != [] && if evs[0].Rehydrated? then evs[0].ok else ReadBack(evs[1..])
  }

  predicate TapsOrDismisses(evs: seq<Event>) {
    exists k :: 0 <= k < |evs| && (evs[k].Enqueue? || evs[k].Dismiss?)
  }

  lemma FirstOf(evs: seq<Event>)
    requires evs != []
    ensures OneProcess(evs) ==> !evs[0].SignOut? && !evs[0].Relaunch? && OneProcess(evs[1..])
    ensures TapsOrDismisses(evs) <==> evs[0].Enqueue? || evs[0].Dismiss? || TapsOrDismisses(evs[1..])
    ensures (evs + [Relaunch])[1..] == evs[1..] + [Relaunch] && (evs + [Relaunch])[0] == evs[0]
  {
    assert forall k :: 0 < k < |evs| ==> evs[k] == evs[1..][k - 1];
    assert (evs + [Relaunch])[1..] == evs[1..] + [Relaunch];
    if TapsOrDismisses(evs) {
      var k :| 0 <= k < |evs| && (evs[k].Enqueue? || evs[k].Dismiss?);
      assert k > 0 ==> evs[1..][k - 1] == evs[k];
    }
  }

  lemma OnlyRelaunch(h: History)
    ensures Run(h, [Relaunch]) == Step(h, Relaunch)
  {
    assert [Relaunch][1..] == [];
    assert Run(Step(h, Relaunch), []) == Step(h, Relaunch);
  }

  /** Once lost, only a sign-out forgets it. */
  lemma {:induction false} LostStays(h: History, evs: seq<Event>)
    requires h.lost != {} && OneProcess(evs)
    ensures Run(h, evs + [Relaunch]).lost != {}
  {
    LostIff(h, evs + [Relaunch]);
  }

  /** Once the launch read is merged, memory and storage agree and nothing more can be lost. */
  lemma {:induction false} MergedIsSafe(h: History, evs: seq<Event>)
    requires Conserved(h) && NewKeys(h, evs) && OneProcess(evs)
    requires h.lost == {} && h.p.reading.None? && Unread(h.p) == []
    ensures Run(h, evs + [Relaunch]).lost == {}
    decreases |evs|
  {
    if evs == [] {
      assert evs + [Relaunch] == [Relaunch];
      OnlyRelaunch(h);
    } else {
      FirstOf(evs);
      StepKeeps(h, evs[0]);
      MergedIsSafe(Step(h, evs[0]), evs[1..]);
    }
  }

  /** After a read that failed on a stored queue, the first tap or dismissal loses it. */
  lemma {:induction false} UnreadIsOverwritten(h: History, evs: seq<Event>)
    requires Conserved(h) && NewKeys(h, evs) && OneProcess(evs)
    requires h.lost == {} && h.p.reading.None? && Unread(h.p) != []
    ensures Run(h, evs + [Relaunch]).lost != {} <==> TapsOrDismisses(evs)
    decreases |evs|
  {
    if evs == [] {
      assert evs + [Relaunch] == [Relaunch];
      OnlyRelaunch(h);
    } else {
      FirstOf(evs);
      StepKeeps(h, evs[0]);
      NothingSent(h);
      var h' := Step(h, evs[0]);
      if evs[0].Enqueue? || evs[0].Dismiss? {
        assert Unread(h.p)[0] in h'.lost;
        LostStays(h', evs[1..]);
      } else {
        UnreadIsOverwritten(h', evs[1..]);
      }
    }
  }

  /** The launch read comes back. */
  lemma WindowEnds(h: History, ok: bool, rest: seq<Event>)
    requires Conserved(h) && h.lost == {} && h.p.reading.Some?
    requires Conserved(Step(h, Rehydrated(ok))) && NewKeys(Step(h, Rehydrated(ok)), rest) && OneProcess(rest)
    ensures Run(Step(h, Rehydrated(ok)), rest + [Relaunch]).lost != {} <==>
            Unread(h.p) != [] && !ok && (StoredItems(h.p.disk) != Unread(h.p) || TapsOrDismisses(rest))
  {
    var h' := Step(h, Rehydrated(ok));
    if Loses(h.p, Rehydrated(ok)) {
      assert Unread(h.p)[0] in h'.lost;
      LostStays(h', rest);
    } else if ok || Unread(h.p) == [] {
      MergedIsSafe(h', rest);
    } else {
      WrittenDiffers(h);
      UnreadIsOverwritten(h', rest);
    }
  }

  /** While the launch read is out nothing is lost, and a tap or a dismissal leaves storage written. */
  lemma WindowGoesOn(h: History, ev: Event)
    requires Conserved(h) && MintsNewKeys(h, ev) && h.p.reading.Some?
    requires !ev.Rehydrated? && !ev.SignOut? && !ev.Relaunch?
    ensures var h' := Step(h, ev);
            && Conserved(h') && h'.lost == h.lost && h'.p.reading == h.p.reading
            && (Unread(h.p) != [] ==>
                  (StoredItems(h'.p.disk) != Unread(h.p) <==>
                   StoredItems(h.p.disk) != Unread(h.p) || ev.Enqueue? || ev.Dismiss?))
  {
    StepKeeps(h, ev);
    if ev.Enqueue? || ev.Dismiss? {
      WindowWritten(h, ev);
    } else {
      assert !ev.Answer? || !IsSending(h.p, ev.d) by {
        NothingSent(h);
      }
      OnlyDrainsMove(h.p, ev);
    }
  }

  lemma OnlyDrainsMove(p: Phone, ev: Event)
    requires ev.Flush? || ev.Resume? || ev.Finally? || (ev.Answer? && !IsSending(p, ev.d))
    ensures After(p, ev) == p.(inFlight := After(p, ev).inFlight, drains := After(p, ev).drains,
                               spawned := After(p, ev).spawned)
  {
  }

  lemma WindowWritten(h: History, ev: Event)
    requires Conserved(Step(h, ev)) && h.p.reading.Some? && (ev.Enqueue? || ev.Dismiss?)
    ensures var h' := Step(h, ev);
            && h'.lost == h.lost && h'.p.reading == h.p.reading
            && (Unread(h.p) != [] ==> StoredItems(h'.p.disk) != Unread(h.p))
  {
    var h' := Step(h, ev);
    assert StoredItems(h'.p.disk) == h'.p.items && h'.p.reading == h.p.reading;
    if Unread(h.p) != [] {
      WrittenDiffers(h');
    }
  }

  /** While the launch read is out. */
  lemma {:induction false} WindowLosesIff(h: History, evs: seq<Event>)
    requires Conserved(h) && NewKeys(h, evs) && OneProcess(evs) && h.lost == {} && h.p.reading.Some?
    ensures Run(h, evs + [Relaunch]).lost != {} <==>
            && Unread(h.p) != [] && !ReadBack(evs)
            && (StoredItems(h.p.disk) != Unread(h.p) || TapsOrDismisses(evs))
    decreases |evs|
  {
    if evs == [] {
      assert evs + [Relaunch] == [Relaunch];
      OnlyRelaunch(h);
      assert Unread(h.p) != [] ==> Unread(h.p)[0] in Elements(Unread(h.p));
    } else {
      FirstOf(evs);
      if evs[0].Rehydrated? {
        StepKeeps(h, evs[0]);
        WindowEnds(h, evs[0].ok, evs[1..]);
      } else {
        WindowGoesOn(h, evs[0]);
        WindowLosesIff(Step(h, evs[0]), evs[1..]);
      }
    }
  }

  /**
   * A process, from its launch to the next one, fails to conserve the queue exactly when there was a
   * stored queue, its launch read never came back good, and a tap or a dismissal wrote over it. (The third
   * write, a settled answer, has nothing to settle before a tap.)
   */
  lemma LaunchLosesIff(h: History, evs: seq<Event>)
    requires Conserved(h) && NewKeys(h, evs) && OneProcess(evs) && JustLaunched(h.p)
    requires h.enqueued == h.resolved + Owed(h.p)
    ensures var h' := Run(h, evs + [Relaunch]);
            h'.enqueued != h'.resolved + Owed(h'.p) <==>
            StoredItems(h.p.disk) != [] && !ReadBack(evs) && TapsOrDismisses(evs)
  {
    WholeIff(h);
    WindowLosesIff(h, evs);
    NewKeysToo(h, evs);
    RunKeeps(h, evs + [Relaunch]);
    WholeIff(Run(h, evs + [Relaunch]));
  }

  lemma {:induction false} NewKeysToo(h: History, evs: seq<Event>)
    requires NewKeys(h, evs)
    ensures NewKeys(h, evs + [Relaunch])
    decreases |evs|
  {
    if evs == [] {
      assert evs + [Relaunch] == [Relaunch] && [Relaunch][1..] == [];
    } else {
      FirstOf(evs);
      NewKeysToo(Step(h, evs[0]), evs[1..]);
    }
  }

  /** A tap queued, and the app killed. */
  lemma KilledAfterATap(x: Item) returns (evs: seq<Event>)
    requires !x.PingItem?
    ensures NewKeys(FIRST_LAUNCH, evs)
    ensures Run(FIRST_LAUNCH, evs) ==
            History(Phone([], [], Some(Blob([x], [])), Some(Some(Blob([x], []))), None, map[], 0),
                    [x], [], {}, {x.clientId})
  {
    assert NewKeys(FIRST_LAUNCH, []) && Run(FIRST_LAUNCH, []) == FIRST_LAUNCH;
    OneMore(FIRST_LAUNCH, [], Enqueue(x));
    assert [] + [x] == [x] && Map(ItemKey, [x]) == [x.clientId];
    var h := Step(FIRST_LAUNCH, Enqueue(x));
    assert h == History(Phone([x], [], Some(Blob([x], [])), Some(None), None, map[], 0), [x], [], {}, {x.clientId});
    OneMore(FIRST_LAUNCH, [] + [Enqueue(x)], Relaunch);
    evs := [] + [Enqueue(x)] + [Relaunch];
  }

  /**
   * And it does happen: a tap queued, the app killed, a launch read that fails, another tap, and by the next
   * launch the first is nowhere.
   */
  lemma SomeLaunchLoses(x: Item, y: Item) returns (before: seq<Event>, evs: seq<Event>)
    requires !x.PingItem? && !y.PingItem? && x.clientId != y.clientId
    ensures NewKeys(FIRST_LAUNCH, before)
    ensures var h := Run(FIRST_LAUNCH, before);
            && Conserved(h) && JustLaunched(h.p) && OneProcess(evs) && NewKeys(h, evs)
            && h.enqueued == h.resolved + Owed(h.p) == [x]
            && var h' := Run(h, evs + [Relaunch]);
               h'.enqueued != h'.resolved + Owed(h'.p)
  {
    before := KilledAfterATap(x);
    evs := [] + [Rehydrated(false)] + [Enqueue(y)];
    RunKeeps(FIRST_LAUNCH, before);
    var h := Run(FIRST_LAUNCH, before);
    assert Map(ItemKey, Chunks(y)) == [y.clientId];
    OneMore(h, [], Rehydrated(false));
    OneMore(h, [] + [Rehydrated(false)], Enqueue(y));
    assert evs[1].Enqueue? && !ReadBack(evs);
    LaunchLosesIff(h, evs);
  }
}
