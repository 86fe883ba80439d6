/**
 * A live tap that overtakes the queue (mobile/src/lib/clockFlow.ts:293-369): exactly when it does no
 * harm. The program promises no order between live taps and the queue; this is the order they need.
 */
module EarlyTaps {
  import opened Entries
  import opened Requests
  import opened Lifecycle
  import opened AnswersAreTrue
  import opened Replay
  import opened Convergence

  /** The collection still reads back the delivery of some number of the taps. */
  ghost predicate InStep(db: Db, u: UserId, base: map<ClientId, Shift>, taps: seq<Body>) {
    exists m: nat :: ReadsBack(db, u, base, taps, m)
  }

  /** A shift is running exactly when the last tap landed is a clock-in. */
  lemma RunningIff(u: UserId, base: map<ClientId, Shift>, taps: seq<Body>, m: nat, db: Db)
    requires ReadsBack(db, u, base, taps, m) && FreshFor(base, taps)
    ensures Holds(db, OpenEntry(u)) <==> 0 < m && taps[m - 1].ClockIn?
  {
    if 0 < m && taps[m - 1].ClockIn? {
      var id := LastTapIsOpen(db, u, base, taps, m);
    }
    if Holds(db, OpenEntry(u)) {
      var id :| id in db && Matches(OpenEntry(u), db[id]);
      OpenIsLastTap(db, u, base, taps, m, id);
    }
  }

  lemma HeldBefore(db: Db, e: Entry, u: UserId, c: ClientId)
    requires c != e.clientId && Holds(db[e.id := e], ByClientId(u, c))
    ensures Holds(db, ByClientId(u, c))
  {
    var id :| id in db[e.id := e] && Matches(ByClientId(u, c), db[e.id := e][id]);
    assert id in db && Matches(ByClientId(u, c), db[id]);
  }

  /** Ahead of its turn, an insert takes effect exactly when no shift is running. */
  lemma EarlyInsertTakesIff(u: UserId, base: map<ClientId, Shift>, taps: seq<Body>, m: nat, db: Db, r: Request, j: nat,
                            newId: EntryId)
    requires ReadsBack(db, u, base, taps, m) && Queueable(taps) && FreshFor(base, taps)
    requires IsCopy(taps, u, r, j) && m < j && r.pc.InInsert? && r.body.ClockIn? && newId !in db
    ensures Takes(db, CommandOf(r, newId).value) <==> !(0 < m && taps[m - 1].ClockIn?)
  {
    var e := CommandOf(r, newId).value.e;
    ClockInFoundIff(db, u, base, taps, m, j);
    if 0 < m && taps[m - 1].ClockIn? {
      var id := LastTapIsOpen(db, u, base, taps, m);
      assert Duplicate(db, e);
    } else if Duplicate(db, e) {
      var id :| id in db && db[id].user == u && (db[id].clientId == e.clientId || db[id].status == Open);
      assert !Matches(ByClientId(u, e.clientId), db[id]);
      OpenIsLastTap(db, u, base, taps, m, id);
    }
  }

  /** If it does, taps before it can no longer be delivered in order. */
  lemma OutOfStep(u: UserId, base: map<ClientId, Shift>, taps: seq<Body>, m: nat, db: Db, r: Request, j: nat,
                  newId: EntryId)
    requires ReadsBack(db, u, base, taps, m) && Queueable(taps) && FreshFor(base, taps)
    requires IsCopy(taps, u, r, j) && m < j && r.pc.InInsert? && r.body.ClockIn? && newId !in db
    requires Takes(db, CommandOf(r, newId).value) && !(0 < m && taps[m - 1].ClockIn?)
    ensures !InStep(Exec(db, CommandOf(r, newId).value), u, base, taps)
  {
    var e := CommandOf(r, newId).value.e;
    var next := db[e.id := e];
    assert Alternates(taps, m);
    forall m': nat
      ensures !ReadsBack(next, u, base, taps, m')
    {
      if ReadsBack(next, u, base, taps, m') {
        OpenIsLastTap(next, u, base, taps, m', e.id);
        SameKeySameTap(taps, m' - 1, j);
        assert Before(taps, m, j);
        ClockInFoundIff(next, u, base, taps, m', m);
        HeldBefore(db, e, u, taps[m].clientId);
        ClockInFoundIff(db, u, base, taps, m, m);
      }
    }
  }

  /**
   * The live clock-in of a later tap, reaching its insert while tap m is still to land, leaves the user's
   * shifts those of some in-order delivery exactly when a shift is running at that moment.
   */
  lemma EarlyClockInHarmlessIff(u: UserId, base: map<ClientId, Shift>, taps: seq<Body>, m: nat, db: Db, r: Request,
                                j: nat, newId: EntryId)
    requires ReadsBack(db, u, base, taps, m) && Queueable(taps) && FreshFor(base, taps)
    requires IsCopy(taps, u, r, j) && m < j && r.pc.InInsert? && r.body.ClockIn? && newId !in db
    ensures InStep(Exec(db, CommandOf(r, newId).value), u, base, taps) <==> Holds(db, OpenEntry(u))
  {
    EarlyInsertTakesIff(u, base, taps, m, db, r, j, newId);
    RunningIff(u, base, taps, m, db);
    if Holds(db, OpenEntry(u)) {
      assert ReadsBack(db, u, base, taps, m);
    } else {
      OutOfStep(u, base, taps, m, db, r, j, newId);
    }
  }

  lemma ClosedNotHeld(db: Db, id: EntryId, e: Entry, u: UserId, c: ClientId)
    requires id in db && e.user == db[id].user && e.clientId == db[id].clientId
    requires Holds(db[id := e], ByClientId(u, c))
    ensures Holds(db, ByClientId(u, c))
  {
    var k :| k in db[id := e] && Matches(ByClientId(u, c), db[id := e][k]);
    assert k in db && Matches(ByClientId(u, c), db[k]);
  }

  /** A later close that takes effect early closes a shift that was not its own. */
  lemma ClosedOutOfStep(u: UserId, base: map<ClientId, Shift>, taps: seq<Body>, m: nat, hist: seq<Instant>, r: Request,
                        j: nat, newId: EntryId)
    requires GoodHist(hist) && LocalsOk(hist, r) && Queueable(taps) && FreshFor(base, taps)
    requires ReadsBack(hist[|hist| - 1].db, u, base, taps, m)
    requires IsCopy(taps, u, r, j) && m < j && r.pc.OutUpdate? && r.body.ClockOut?
    requires Takes(hist[|hist| - 1].db, CommandOf(r, newId).value)
    ensures !InStep(Exec(hist[|hist| - 1].db, CommandOf(r, newId).value), u, base, taps)
  {
    var db, e, cmd := hist[|hist| - 1].db, r.pc.e, CommandOf(r, newId).value;
    var next := Exec(db, cmd);
    SnapshotEvolved(hist, r, e);
    OpenIsLastTap(db, u, base, taps, m, e.id);
    assert Alternates(taps, m) && m + 1 < |taps| && Alternates(taps, m + 1);
    assert Matches(ByCloseClientId(u, taps[j].clientId), next[e.id]);
    forall m': nat
      ensures !ReadsBack(next, u, base, taps, m')
    {
      if ReadsBack(next, u, base, taps, m') {
        ClockOutFoundIff(next, u, base, taps, m', j);
        ClockInFoundIff(next, u, base, taps, m', m + 1);
        ClosedNotHeld(db, e.id, Updated(db[e.id], cmd), u, taps[m + 1].clientId);
        ClockInFoundIff(db, u, base, taps, m, m + 1);
      }
    }
  }

  /**
   * The live clock-out of a later tap, about to close the shift it found running, leaves the user's shifts
   * those of some in-order delivery exactly when that shift has been closed meanwhile.
   */
  lemma EarlyClockOutHarmlessIff(u: UserId, base: map<ClientId, Shift>, taps: seq<Body>, m: nat, hist: seq<Instant>,
                                 r: Request, j: nat, newId: EntryId)
    requires GoodHist(hist) && LocalsOk(hist, r) && Queueable(taps) && FreshFor(base, taps)
    requires ReadsBack(hist[|hist| - 1].db, u, base, taps, m)
    requires IsCopy(taps, u, r, j) && m < j && r.pc.OutUpdate? && r.body.ClockOut?
    ensures var db := hist[|hist| - 1].db;
            && r.pc.e.id in db
            && (InStep(Exec(db, CommandOf(r, newId).value), u, base, taps) <==> db[r.pc.e.id].status == Closed)
  {
    var db := hist[|hist| - 1].db;
    SnapshotEvolved(hist, r, r.pc.e);
    if db[r.pc.e.id].status == Closed {
      assert Exec(db, CommandOf(r, newId).value) == db;
      assert ReadsBack(db, u, base, taps, m);
    } else {
      ClosedOutOfStep(u, base, taps, m, hist, r, j, newId);
    }
  }
}
