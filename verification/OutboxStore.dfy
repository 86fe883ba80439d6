/** The queue as the store it is: fields the actions reassign, and storage rewritten on every set. */
module OutboxStores {
  import opened Options
  import opened Queue
  import opened Merging
  import opened Outbox
  import opened OutboxConserves

  class OutboxStore {
    var items: seq<Item>
    var needsAttention: seq<Attention>
    var storage: Option<Blob>
    /** What the launch read found; None once merged, which is when `hydrated` resolves. */
    var launchRead: Option<Option<Blob>>
    /** The cached promise, and the calls of drain that have not settled. */
    var inFlight: Option<DrainId>
    var drains: map<DrainId, Running>
    var spawned: nat

    ghost function State(): Phone
      reads this
    {
      Phone(items, needsAttention, storage, launchRead, inFlight, drains, spawned)
    }

    /** One drain at a time, and the cached promise is its own. */
    ghost predicate Valid()
      reads this
    {
      OneDrain(State())
    }

    constructor (disk: Option<Blob>)
      ensures Valid() && State() == After(NEW_PHONE.(disk := disk), Relaunch)
      ensures items == [] && needsAttention == [] && storage == disk && launchRead == Some(disk)
      ensures inFlight == None && drains == map[]
    {
      items, needsAttention, storage, launchRead := [], [], disk, Some(disk);
      inFlight, drains, spawned := None, map[], 0;
    }

    /** set, as persist wraps it. */
    method Set(newItems: seq<Item>, newAttention: seq<Attention>)
      modifies this`items, this`needsAttention, this`storage
      ensures items == newItems && needsAttention == newAttention && storage == Some(Blob(items, needsAttention))
    {
      items, needsAttention := newItems, newAttention;
      storage := Some(Blob(items, needsAttention));
    }

    method Enqueue(item: Item)
      requires Valid()
      modifies this
      ensures Valid() && State() == After(old(State()), Event.Enqueue(item))
      ensures items == old(items) + Chunks(item) && needsAttention == old(needsAttention)
      ensures storage == Some(Blob(items, needsAttention))
    {
      var pieces := Chunk(item);
      Set(items + pieces, needsAttention);
    }

    method ClearAttention()
      requires Valid()
      modifies this
      ensures Valid() && State() == After(old(State()), Dismiss)
      ensures needsAttention == [] && items == old(items) && storage == Some(Blob(items, []))
    {
      Set(items, []);
    }

    /** The top of drain's loop: send the head, or return. */
    method Loop(d: DrainId)
      modifies this`drains
      ensures drains == old(drains)[d := Next(items)]
    {
      if |items| == 0 {
        drains := drains[d := Finished];
        return;
      }
      drains := drains[d := Sending(items[0])];
    }

    /** inFlight ??= drain(): a second caller joins; a new drain first awaits the launch read. */
    method Flush() returns (joined: bool)
      requires Valid()
      modifies this
      ensures Valid() && State() == After(old(State()), Event.Flush)
      ensures joined == old(inFlight.Some?) && (joined ==> State() == old(State()))
      ensures !joined ==> drains == map[old(spawned) := Waiting]
    {
      joined := inFlight.Some?;
      if joined {
        return;
      }
      inFlight, drains, spawned := Some(spawned), drains[spawned := Waiting], spawned + 1;
    }

    /** `hydrated` has resolved. */
    method Resume(d: DrainId)
      requires Valid() && d in drains && drains[d].Waiting? && launchRead.None?
      modifies this`drains
      ensures Valid() && State() == After(old(State()), Event.Resume(d))
      ensures drains == old(drains)[d := if items == [] then Finished else Sending(items[0])]
    {
      Loop(d);
      EventKeepsOneDrain(old(State()), Event.Resume(d));
    }

    /** The finally of flush. */
    method Clear(d: DrainId)
      requires Valid() && d in drains && drains[d].Finished?
      modifies this`inFlight, this`drains
      ensures Valid() && State() == After(old(State()), Finally(d)) && inFlight == None && drains == map[]
    {
      EventKeepsOneDrain(State(), Finally(d));
      inFlight, drains := None, drains - {d};
    }

    /** s.items.filter(i => i.clientId !== key), against the items of this moment. */
    method Without(key: string) returns (kept: seq<Item>)
      ensures kept == Dropping(items, key)
    {
      kept := [];
      for i := 0 to |items|
        invariant kept == Dropping(items[..i], key)
      {
        assert items[..i + 1][..i] == items[..i];
        if items[i].clientId != key {
          kept := kept + [items[i]];
        }
      }
      assert items[..|items|] == items;
    }

    /**
     * The outstanding send of drain d settles: kept for no connection (0), 401, 429, 500 and above or our own
     * exception, and then nothing but the drain changes; gone on any other answer, of which a refusal is recorded.
     */
    method Settle(d: DrainId, outcome: Outcome)
      requires Valid() && IsSending(State(), d)
      modifies this
      ensures Valid() && State() == After(old(State()), Answer(d, outcome))
      ensures launchRead == old(launchRead) && inFlight == old(inFlight) && spawned == old(spawned)
      ensures var item := old(drains[d].item);
              if outcome.Bug? || (outcome.Failed? && (outcome.status in {0, 401, 429} || outcome.status >= 500)) then
                && items == old(items) && needsAttention == old(needsAttention) && storage == old(storage)
                && drains == map[d := Finished]
              else
                && items == Dropping(old(items), item.clientId)
                && needsAttention == (if outcome.Failed? then WithRecord(old(needsAttention), item, outcome.code)
                else old(needsAttention))
                && storage == Some(Blob(items, needsAttention))
                && drains == map[d := if items == [] then Finished else Sending(items[0])]
    {
      EventKeepsOneDrain(State(), Answer(d, outcome));
      OnlyDrain(State(), d, After(State(), Answer(d, outcome)).drains[d]);
      var item := drains[d].item;
      if outcome.Bug? || (outcome.Failed? && Retryable(outcome.status)) {
        drains := drains[d := Finished];
        return;
      }
      var kept := Without(item.clientId);
      if outcome.Failed? {
        Set(kept, Capped(needsAttention, AttentionFor(item, outcome.code)));
      } else {
        Set(kept, needsAttention);
      }
      Loop(d);
    }

    /** merge and onRehydrateStorage. */
    method Rehydrate(ok: bool)
      requires Valid() && launchRead.Some?
      modifies this
      ensures Valid() && State() == After(old(State()), Rehydrated(ok)) && launchRead == None
      ensures !ok ==> items == old(items) && needsAttention == old(needsAttention) && storage == old(storage)
      ensures ok ==> items == Unique(ItemKey, StoredItems(old(launchRead.value)) + old(items))
      ensures ok ==> needsAttention == Unique(RecordKey, StoredRecords(old(launchRead.value)) + old(needsAttention))
      ensures ok ==> storage == Some(Blob(items, needsAttention))
    {
      if ok {
        var stored := launchRead.value;
        Set(Unique(ItemKey, StoredItems(stored) + items), Unique(RecordKey, StoredRecords(stored) + needsAttention));
      }
      MarkHydrated();
    }

    method MarkHydrated()
      modifies this`launchRead
      ensures launchRead == None
    {
      launchRead := None;
    }

    method ClearForSignOut()
      requires Valid()
      modifies this
      ensures Valid() && State() == After(old(State()), SignOut)
      ensures items == [] && needsAttention == [] && storage == None && launchRead == None
    {
      Set([], []);
      storage := None;
      MarkHydrated();
    }
  }
}
