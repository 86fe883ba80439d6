/**
 * Replay converges: draining the queue leaves exactly the shifts of one in-order, failure-free
 * delivery, whatever was lost, retried or finished late on the way.
 */
module Convergence {
  import opened Options
  import opened Geo
  import opened Entries
  import opened Requests
  import opened Lifecycle
  import opened AnswersAreTrue
  import opened Replay

  /** The shift in s of one document, and the document behind one shift of s. */
  ghost predicate ShownAs(db: Db, u: UserId, s: map<ClientId, Shift>, id: EntryId) {
    id in db && db[id].user == u ==> db[id].clientId in s && s[db[id].clientId] == ShiftOf(db[id])
  }

  ghost predicate Backed(db: Db, u: UserId, s: map<ClientId, Shift>, c: ClientId) {
    c in s ==> exists id :: id in db && db[id].user == u && db[id].clientId == c
  }

  /** s is ShiftsOf(db, u), said document by document. */
  ghost predicate Shows(db: Db, u: UserId, s: map<ClientId, Shift>) {
    && (forall id {:trigger ShownAs(db, u, s, id)} :: ShownAs(db, u, s, id))
    && (forall c {:trigger Backed(db, u, s, c)} :: Backed(db, u, s, c))
  }

  lemma ShowsShiftsOf(db: Db, u: UserId)
    requires GoodDb(db)
    ensures Shows(db, u, ShiftsOf(db, u))
  {
    var s := ShiftsOf(db, u);
    forall id
      ensures ShownAs(db, u, s, id)
    {
      if id in db && db[id].user == u {
        assert db[id].clientId in ClientIdsOf(db, u);
        assert SameClientId(db, id, EntryFor(db, u, db[id].clientId));
      }
    }
    forall c
      ensures Backed(db, u, s, c)
    {
      if c in s {
        var id := EntryFor(db, u, c);
        assert id in db && db[id].user == u && db[id].clientId == c;
      }
    }
  }

  lemma ShownIsShiftsOf(db: Db, u: UserId, s: map<ClientId, Shift>)
    requires Shows(db, u, s)
    ensures s == ShiftsOf(db, u)
  {
    var t := ShiftsOf(db, u);
    forall c
      ensures c in s <==> c in t
      ensures c in t ==> s[c] == t[c]
    {
      assert Backed(db, u, s, c);
      if c in t {
        var id := EntryFor(db, u, c);
        assert ShownAs(db, u, s, id);
      }
    }
  }

  lemma EntryOf(db: Db, u: UserId, s: map<ClientId, Shift>, c: ClientId) returns (id: EntryId)
    requires Shows(db, u, s) && c in s
    ensures id in db && db[id].user == u && db[id].clientId == c && s[c] == ShiftOf(db[id])
  {
    assert Backed(db, u, s, c);
    id :| id in db && db[id].user == u && db[id].clientId == c;
    assert ShownAs(db, u, s, id);
  }

  /** The collection reads back the shifts of the first m taps. */
  ghost predicate ReadsBack(db: Db, u: UserId, base: map<ClientId, Shift>, taps: seq<Body>, m: nat) {
    && GoodDb(db) && ClockTaps(taps) && m <= |taps|
    && exists s :: Shows(db, u, s) && Delivered(base, taps, m, s)
  }

  /** A clock-in id is found exactly when its tap has landed. */
  lemma ClockInFoundIff(db: Db, u: UserId, base: map<ClientId, Shift>, taps: seq<Body>, m: nat, k: nat)
    requires ReadsBack(db, u, base, taps, m) && Queueable(taps) && FreshFor(base, taps) && k < |taps|
             && taps[k].ClockIn?
    ensures Holds(db, ByClientId(u, taps[k].clientId)) <==> k < m
  {
    var s: map<ClientId, Shift> :| Shows(db, u, s) && Delivered(base, taps, m, s);
    var c := taps[k].clientId;
    if k < m {
      assert TappedShift(taps, m, k) == s[c];
      var id := EntryOf(db, u, s, c);
      assert Matches(ByClientId(u, c), db[id]);
    }
    if Holds(db, ByClientId(u, c)) {
      var id :| id in db && Matches(ByClientId(u, c), db[id]);
      assert ShownAs(db, u, s, id);
      assert Tapped(taps, m, c);
      var j: nat :| j < m && taps[j].ClockIn? && c == taps[j].clientId;
      SameKeySameTap(taps, j, k);
    }
  }

  /** A close id is found exactly when its tap has landed. */
  lemma ClockOutFoundIff(db: Db, u: UserId, base: map<ClientId, Shift>, taps: seq<Body>, m: nat, k: nat)
    requires ReadsBack(db, u, base, taps, m) && Queueable(taps) && FreshFor(base, taps) && k < |taps|
             && taps[k].ClockOut?
    ensures Holds(db, ByCloseClientId(u, taps[k].clientId)) <==> k < m
  {
    var s: map<ClientId, Shift> :| Shows(db, u, s) && Delivered(base, taps, m, s);
    var c := taps[k].clientId;
    assert Alternates(taps, k);
    if k < m {
      assert TappedShift(taps, m, k - 1) == s[taps[k - 1].clientId];
      var id := EntryOf(db, u, s, taps[k - 1].clientId);
      assert Matches(ByCloseClientId(u, c), db[id]);
    }
    if Holds(db, ByCloseClientId(u, c)) {
      var id :| id in db && Matches(ByCloseClientId(u, c), db[id]);
      assert ShownAs(db, u, s, id) && WellFormed(db[id]);
      var b := db[id].clientId;
      assert b in base ==> ClosedUnder(base, b, c);
      assert Tapped(taps, m, b);
      var j: nat :| j < m && taps[j].ClockIn? && b == taps[j].clientId;
      assert TappedShift(taps, m, j) == s[b];
      SameKeySameTap(taps, j + 1, k);
    }
  }

  /** The one open shift, if any, is the last landed tap's clock-in. */
  lemma OpenIsLastTap(db: Db, u: UserId, base: map<ClientId, Shift>, taps: seq<Body>, m: nat, id: EntryId)
    requires ReadsBack(db, u, base, taps, m) && FreshFor(base, taps)
    requires id in db && db[id].user == u && db[id].status == Open
    ensures m > 0 && taps[m - 1].ClockIn? && db[id].clientId == taps[m - 1].clientId
            && db[id].clockIn == PointOf(taps[m - 1].fix)
  {
    var s: map<ClientId, Shift> :| Shows(db, u, s) && Delivered(base, taps, m, s);
    assert ShownAs(db, u, s, id);
    var c := db[id].clientId;
    assert s[c].end.None?;
    assert Tapped(taps, m, c);
    var j: nat :| j < m && taps[j].ClockIn? && c == taps[j].clientId;
    assert TappedShift(taps, m, j) == s[c];
  }

  lemma LastTapIsOpen(db: Db, u: UserId, base: map<ClientId, Shift>, taps: seq<Body>, m: nat) returns (id: EntryId)
    requires ReadsBack(db, u, base, taps, m) && FreshFor(base, taps) && m > 0 && taps[m - 1].ClockIn?
    ensures id in db && db[id].user == u && db[id].status == Open && db[id].clientId == taps[m - 1].clientId
    ensures Holds(db, OpenEntry(u))
  {
    var s: map<ClientId, Shift> :| Shows(db, u, s) && Delivered(base, taps, m, s);
    assert TappedShift(taps, m, m - 1) == s[taps[m - 1].clientId];
    id := EntryOf(db, u, s, taps[m - 1].clientId);
    assert WellFormed(db[id]) && Matches(OpenEntry(u), db[id]);
  }

  lemma SameKeySameTap(taps: seq<Body>, j: nat, k: nat)
    requires Queueable(taps) && j < |taps| && k < |taps| && taps[j].clientId == taps[k].clientId
    ensures j == k
  {
    assert j < k ==> Before(taps, j, k);
    assert k < j ==> Before(taps, k, j);
  }

  /** What each command does to a user's shifts. */
  lemma InsertShift(db: Db, u: UserId, s: map<ClientId, Shift>, e: Entry)
    requires Shows(db, u, s) && !Duplicate(db, e)
    ensures Shows(db[e.id := e], u, if e.user == u then s[e.clientId := ShiftOf(e)] else s)
  {
    var next, t := db[e.id := e], if e.user == u then s[e.clientId := ShiftOf(e)] else s;
    forall id
      ensures ShownAs(next, u, t, id)
    {
      assert ShownAs(db, u, s, id);
    }
    forall c
      ensures Backed(next, u, t, c)
    {
      if c in s {
        var id := EntryOf(db, u, s, c);
        assert next[id] == db[id];
      } else if c in t {
        assert next[e.id].clientId == c;
      }
    }
  }

  lemma NeutralUpdate(db: Db, u: UserId, s: map<ClientId, Shift>, id: EntryId, e: Entry)
    requires Shows(db, u, s) && id in db && e.user == db[id].user && e.clientId == db[id].clientId
    requires e.user == u ==> ShiftOf(e) == ShiftOf(db[id])
    ensures Shows(db[id := e], u, s)
  {
    var next := db[id := e];
    forall o
      ensures ShownAs(next, u, s, o)
    {
      assert ShownAs(db, u, s, o);
    }
    UpdateBacks(db, u, s, id, e, next);
  }

  lemma UpdateBacks(db: Db, u: UserId, s: map<ClientId, Shift>, id: EntryId, e: Entry, next: Db)
    requires Shows(db, u, s) && id in db && e.user == db[id].user && e.clientId == db[id].clientId
    requires next == db[id := e]
    ensures forall c :: Backed(next, u, s, c)
  {
    forall c
      ensures Backed(next, u, s, c)
    {
      if c in s {
        var o := EntryOf(db, u, s, c);
        assert next[o].clientId == c && next[o].user == u;
      }
    }
  }

  lemma CloseShift(db: Db, s: map<ClientId, Shift>, id: EntryId, e: Entry, tap: Body)
    requires GoodDb(db) && id in db && db[id].status == Open && tap.ClockOut? && Shows(db, e.user, s)
    requires e.user == db[id].user && e.clientId == db[id].clientId && e.clockIn == db[id].clockIn
    requires e.status == Closed && e.closeClientId == Some(tap.clientId) && e.clockOut == Some(PointOf(tap.fix))
    ensures Shows(db[id := e], e.user, DeliverOne(s, tap))
  {
    var u, next, t := e.user, db[id := e], DeliverOne(s, tap);
    forall o
      ensures ShownAs(next, u, t, o)
    {
      assert ShownAs(db, u, s, o);
      if o in db && db[o].user == u {
        assert WellFormed(db[o]) && (BothOpen(db, o, id) || db[o].status == Closed);
      }
    }
    UpdateBacks(db, u, s, id, e, next);
    forall c
      ensures Backed(next, u, t, c)
    {
      assert Backed(next, u, s, c);
    }
  }

  /** Request r is an attempt at tap j, the queue's or the live one. */
  ghost predicate IsCopy(taps: seq<Body>, u: UserId, r: Request, j: nat) {
    && j < |taps| && (taps[j].ClockIn? || taps[j].ClockOut?)
    && r.user == u && PcFits(r.body, r.pc)
    && (r.body == ReplayBody(taps[j]) || (r.body == taps[j] && !Marked(r.body)))
  }

  /** What each copy of tap j knows once n taps are resolved and m have landed. */
  ghost predicate CopyOk(taps: seq<Body>, u: UserId, r: Request, j: nat, n: nat, m: nat) {
    IsCopy(taps, u, r, j) && if Marked(r.body) then ReplayOk(taps, r, j, n, m) else LiveOk(r, j, m)
  }

  /** A live attempt may be refused; one that succeeded has landed. */
  predicate LiveOk(r: Request, j: nat, m: nat) {
    r.pc.Done? && Succeeded(r.pc.answer) ==> j < m
  }

  ghost predicate ReplayOk(taps: seq<Body>, r: Request, j: nat, n: nat, m: nat)
    requires j < |taps|
  {
    && j <= n
    && match r.pc
       case InReread => j < m
       case OutReread => j < m
       case OutAnchor(e) => j > 0 && taps[j - 1].ClockIn? && e.clientId == taps[j - 1].clientId
       case OutJudge(e, _, _) => j > 0 && taps[j - 1].ClockIn? && e.clientId == taps[j - 1].clientId
       case OutFlags(e, _) => j > 0 && taps[j - 1].ClockIn? && e.clientId == taps[j - 1].clientId
       case OutUpdate(e, _, _) => j > 0 && taps[j - 1].ClockIn? && e.clientId == taps[j - 1].clientId
       case Done(Refused(_)) => j < n
       case Done(ServerError) => true
       case Done(_) => j < m
       case _ => true
  }

  /** The only requests that can move this user's shifts are copies of queued taps. */
  ghost predicate OnlyCopiesClock(p: Phone, u: UserId) {
    forall rid :: rid in p.server.reqs && rid !in p.copies && LiveClock(p.server.reqs[rid]) ==>
        p.server.reqs[rid].user != u
  }

  predicate LiveClock(r: Request) {
    (r.body.ClockIn? || r.body.ClockOut?) && !r.pc.Done?
  }

  /** `taps` is every tap of the drain, those still to be made included. */
  ghost predicate Converging(u: UserId, base: map<ClientId, Shift>, taps: seq<Body>, p: Phone) {
    && Inv(p.server) && Queueable(taps) && FreshFor(base, taps)
    && p.resolved <= p.landed <= p.resolved + 1 && p.landed <= |taps| && p.queue <= taps[p.resolved..]
    && ReadsBack(Now(p.server).db, u, base, taps, p.landed)
    && p.refused == []
    && p.copies.Keys <= p.server.reqs.Keys
    && (p.sent.Some? ==>
          && p.sent.value in p.copies && p.copies[p.sent.value] == p.resolved < |taps|
          && Marked(p.server.reqs[p.sent.value].body))
    && (forall rid {:trigger CopyOk(taps, u, p.server.reqs[rid], p.copies[rid], p.resolved, p.landed)} ::
          rid in p.copies ==> CopyOk(taps, u, p.server.reqs[rid], p.copies[rid], p.resolved, p.landed))
    && OnlyCopiesClock(p, u)
  }

  /** A queue of fresh taps, nothing open, and no other clock request of this user in flight. */
  ghost predicate Start(u: UserId, taps: seq<Body>, p: Phone) {
    && Inv(p.server) && Queueable(taps) && FreshFor(ShiftsOf(Now(p.server).db, u), taps)
    && p.queue <= taps && p.sent == None && p.refused == [] && p.copies == map[] && p.landed == 0 && p.resolved == 0
    && OnlyCopiesClock(p, u)
  }

  /** A step that is not a clock write of this user leaves this user's shifts alone. */
  lemma NeutralStep(hist: seq<Instant>, r: Request, newId: EntryId, u: UserId, s: map<ClientId, Shift>)
    requires GoodHist(hist) && LocalsOk(hist, r) && Shows(hist[|hist| - 1].db, u, s)
    requires r.user == u ==> !r.pc.InInsert? && !r.pc.OutUpdate?
    ensures Shows(StepDb(hist[|hist| - 1], r, newId), u, s)
  {
    var i := hist[|hist| - 1];
    var cmd := CommandOf(r, newId);
    GoodAt(hist, |hist| - 1);
    if cmd.Some? && Takes(i.db, cmd.value) {
      if cmd.value.Insert? {
        InsertShift(i.db, u, s, cmd.value.e);
      } else {
        SnapshotEvolved(hist, r, r.pc.e);
        NeutralUpdate(i.db, u, s, cmd.value.id, Updated(i.db[cmd.value.id], cmd.value));
      }
    }
  }

  /** A copy's insert takes effect exactly when its tap is the next to land, none before it being unsettled. */
  lemma InsertLandsIff(u: UserId, base: map<ClientId, Shift>, taps: seq<Body>, m: nat, db: Db, r: Request, j: nat,
                       n: nat, newId: EntryId)
    requires ReadsBack(db, u, base, taps, m) && Queueable(taps) && FreshFor(base, taps)
    requires IsCopy(taps, u, r, j) && j <= n <= m && r.pc.InInsert? && r.body.ClockIn? && newId !in db
    ensures Takes(db, CommandOf(r, newId).value) <==> j == m
  {
    var c := taps[j].clientId;
    ClockInFoundIff(db, u, base, taps, m, j);
    var e := CommandOf(r, newId).value.e;
    if j < m {
      var id :| id in db && Matches(ByClientId(u, c), db[id]);
      assert Duplicate(db, e);
    } else if Duplicate(db, e) {
      var id :| id in db && db[id].user == u && (db[id].clientId == c || db[id].status == Open);
      assert !Matches(ByClientId(u, c), db[id]);
      assert Alternates(taps, j);
      OpenIsLastTap(db, u, base, taps, m, id);
    }
  }

  lemma CloseLandsIff(u: UserId, base: map<ClientId, Shift>, taps: seq<Body>, m: nat, hist: seq<Instant>, r: Request,
                      j: nat, n: nat, newId: EntryId)
    requires GoodHist(hist) && LocalsOk(hist, r)
    requires ReadsBack(hist[|hist| - 1].db, u, base, taps, m) && Queueable(taps) && FreshFor(base, taps)
    requires CopyOk(taps, u, r, j, n, m) && Marked(r.body) && n <= m && r.pc.OutUpdate? && r.body.ClockOut?
    ensures Takes(hist[|hist| - 1].db, CommandOf(r, newId).value) <==> j == m
  {
    var db, e := hist[|hist| - 1].db, r.pc.e;
    SnapshotEvolved(hist, r, e);
    if db[e.id].status == Open {
      OpenIsLastTap(db, u, base, taps, m, e.id);
      SameKeySameTap(taps, j - 1, m - 1);
    } else if j == m {
      var id := LastTapIsOpen(db, u, base, taps, m);
      assert SameClientId(db, id, e.id);
    }
  }

  /** A copy's reads and writes, judged against how much has landed. */
  lemma ClockInCopyStep(cfg: Config, u: UserId, base: map<ClientId, Shift>, taps: seq<Body>, hist: seq<Instant>,
                        r: Request, j: nat, n: nat, m: nat, found: Option<Entry>, newId: EntryId, r': Request, m': nat)
    requires |hist| > 0 && ReadsBack(hist[|hist| - 1].db, u, base, taps, m) && Queueable(taps) && FreshFor(base, taps)
             && n <= m
    requires CopyOk(taps, u, r, j, n, m) && Marked(r.body) && r.body.ClockIn? && !r.pc.Done?
    requires QueryOf(r).Some? ==> Answers(hist[|hist| - 1].db, QueryOf(r).value, found)
    requires newId !in hist[|hist| - 1].db
    requires r' == r.(pc := NextPc(cfg, hist[|hist| - 1], |hist| - 1, r, found, newId))
    requires Judging(r.pc) ==> !r'.pc.Done?
    requires m' == m + if CommandOf(r, newId).Some? && Takes(hist[|hist| - 1].db, CommandOf(r, newId).value) then 1
             else 0
    ensures CopyOk(taps, u, r', j, n, m')
    ensures m' > m ==> j == m == n
  {
    var db := hist[|hist| - 1].db;
    if r.pc.InInsert? {
      InsertLandsIff(u, base, taps, m, db, r, j, n, newId);
    } else if r.pc.InLookup? || r.pc.InReread? {
      ClockInFoundIff(db, u, base, taps, m, j);
      if found.Some? {
        assert Matches(ByClientId(u, taps[j].clientId), db[found.value.id]);
      }
    }
  }

  lemma ClockOutCopyStep(cfg: Config, u: UserId, base: map<ClientId, Shift>, taps: seq<Body>, hist: seq<Instant>,
                         r: Request, j: nat, n: nat, m: nat, found: Option<Entry>, newId: EntryId, r': Request, m': nat)
    requires GoodHist(hist) && LocalsOk(hist, r) && m <= n + 1
    requires ReadsBack(hist[|hist| - 1].db, u, base, taps, m) && Queueable(taps) && FreshFor(base, taps) && n <= m
    requires CopyOk(taps, u, r, j, n, m) && Marked(r.body) && r.body.ClockOut? && !r.pc.Done?
    requires QueryOf(r).Some? ==> Answers(hist[|hist| - 1].db, QueryOf(r).value, found)
    requires r' == r.(pc := NextPc(cfg, hist[|hist| - 1], |hist| - 1, r, found, newId))
    requires Judging(r.pc) ==> !r'.pc.Done?
    requires m' == m + if CommandOf(r, newId).Some? && Takes(hist[|hist| - 1].db, CommandOf(r, newId).value) then 1
             else 0
    ensures CopyOk(taps, u, r', j, n, m')
    ensures m' > m ==> j == m == n
  {
    var db := hist[|hist| - 1].db;
    if r.pc.OutUpdate? {
      CloseLandsIff(u, base, taps, m, hist, r, j, n, newId);
    } else if r.pc.OutLookup? || r.pc.OutReread? {
      ClockOutFoundIff(db, u, base, taps, m, j);
      if found.Some? {
        assert Matches(ByCloseClientId(u, taps[j].clientId), db[found.value.id]);
      }
    } else if r.pc.OutOpen? {
      if found.Some? {
        OpenIsLastTap(db, u, base, taps, m, found.value.id);
        OpenFoundByCopy(taps, j, n, m, found.value.clockIn);
      } else if j == m {
        assert Alternates(taps, j);
        var id := LastTapIsOpen(db, u, base, taps, m);
      }
    }
  }

  /** An old close that finds the next shift open was captured before that shift began. */
  lemma OpenFoundByCopy(taps: seq<Body>, j: nat, n: nat, m: nat, start: ClockPoint)
    requires Queueable(taps) && j < |taps| && taps[j].ClockOut? && j <= n <= m <= n + 1 && m <= |taps|
    requires m > 0 && taps[m - 1].ClockIn? && start == PointOf(taps[m - 1].fix)
    ensures j < n ==> j != m
    ensures j < m ==> j < m - 1 && j < n && taps[j].fix.at < start.at
    ensures j == m ==> taps[j - 1].ClockIn? && start.at < taps[j].fix.at
  {
    assert Alternates(taps, j);
    assert j < m ==> Before(taps, j, m - 1);
    assert j == m ==> Before(taps, j - 1, j);
  }

  /** One more landed tap: the collection now reads back one more delivery. */
  lemma InsertLanded(u: UserId, base: map<ClientId, Shift>, taps: seq<Body>, db: Db, m: nat, e: Entry)
    requires ReadsBack(db, u, base, taps, m) && Queueable(taps) && FreshFor(base, taps) && m < |taps|
             && taps[m].ClockIn?
    requires !Duplicate(db, e) && e.status == Open && WellFormed(e)
    requires e.user == u && e.clientId == taps[m].clientId && e.clockIn == PointOf(taps[m].fix)
    ensures ReadsBack(db[e.id := e], u, base, taps, m + 1)
  {
    var s: map<ClientId, Shift> :| Shows(db, u, s) && Delivered(base, taps, m, s);
    InsertKeepsGood(db, e);
    InsertShift(db, u, s, e);
    OneMoreClockIn(base, taps, m, s);
    assert s[e.clientId := ShiftOf(e)] == DeliverOne(s, taps[m]);
  }

  lemma CloseLanded(u: UserId, base: map<ClientId, Shift>, taps: seq<Body>, db: Db, m: nat, cmd: Command)
    requires ReadsBack(db, u, base, taps, m) && FreshFor(base, taps) && m < |taps| && taps[m].ClockOut?
    requires cmd.Close? && cmd.id in db && db[cmd.id].status == Open && db[cmd.id].user == u
    requires cmd.clientId == taps[m].clientId && cmd.point == PointOf(taps[m].fix)
             && db[cmd.id].clockIn.at < cmd.point.at
    ensures ReadsBack(db[cmd.id := Updated(db[cmd.id], cmd)], u, base, taps, m + 1)
  {
    var s: map<ClientId, Shift> :| Shows(db, u, s) && Delivered(base, taps, m, s);
    UpdateEvolves(db[cmd.id], cmd);
    UpdateKeepsGood(db, cmd.id, Updated(db[cmd.id], cmd));
    CloseShift(db, s, cmd.id, Updated(db[cmd.id], cmd), taps[m]);
    OneMoreClockOut(base, taps, m, s);
  }

  lemma LandedOneMore(u: UserId, base: map<ClientId, Shift>, taps: seq<Body>, hist: seq<Instant>, r: Request, m: nat,
                      newId: EntryId, db': Db)
    requires GoodHist(hist) && LocalsOk(hist, r)
    requires ReadsBack(hist[|hist| - 1].db, u, base, taps, m) && Queueable(taps) && FreshFor(base, taps)
    requires IsCopy(taps, u, r, m)
    requires CommandOf(r, newId).Some? && Takes(hist[|hist| - 1].db, CommandOf(r, newId).value)
    requires db' == StepDb(hist[|hist| - 1], r, newId)
    ensures ReadsBack(db', u, base, taps, m + 1)
  {
    var db, cmd := hist[|hist| - 1].db, CommandOf(r, newId).value;
    if r.pc.InInsert? {
      InsertLanded(u, base, taps, db, m, cmd.e);
    } else {
      SnapshotEvolved(hist, r, r.pc.e);
      CloseLanded(u, base, taps, db, m, cmd);
    }
  }

  /** A live close that takes effect is the next to land. */
  lemma LiveCloseIsNext(u: UserId, base: map<ClientId, Shift>, taps: seq<Body>, m: nat, hist: seq<Instant>, r: Request,
                        j: nat, n: nat, newId: EntryId)
    requires GoodHist(hist) && LocalsOk(hist, r) && n <= m <= n + 1 && j <= n
    requires ReadsBack(hist[|hist| - 1].db, u, base, taps, m) && Queueable(taps) && FreshFor(base, taps)
    requires IsCopy(taps, u, r, j) && r.pc.OutUpdate? && r.body.ClockOut?
    requires Takes(hist[|hist| - 1].db, CommandOf(r, newId).value)
    ensures j == m
  {
    var db, e := hist[|hist| - 1].db, r.pc.e;
    SnapshotEvolved(hist, r, e);
    OpenIsLastTap(db, u, base, taps, m, e.id);
    OpenFoundByCopy(taps, j, n, m, db[e.id].clockIn);
  }

  lemma LiveStep(cfg: Config, u: UserId, base: map<ClientId, Shift>, taps: seq<Body>, hist: seq<Instant>, r: Request,
                 j: nat, n: nat, m: nat, found: Option<Entry>, newId: EntryId, r': Request, m': nat)
    requires GoodHist(hist) && LocalsOk(hist, r) && n <= m <= n + 1
    requires ReadsBack(hist[|hist| - 1].db, u, base, taps, m) && Queueable(taps) && FreshFor(base, taps)
    requires CopyOk(taps, u, r, j, n, m) && !Marked(r.body) && !r.pc.Done?
    requires QueryOf(r).Some? ==> Answers(hist[|hist| - 1].db, QueryOf(r).value, found)
    requires newId !in hist[|hist| - 1].db
    requires r' == r.(pc := NextPc(cfg, hist[|hist| - 1], |hist| - 1, r, found, newId))
    requires m' == m + if CommandOf(r, newId).Some? && Takes(hist[|hist| - 1].db, CommandOf(r, newId).value) then 1
             else 0
    requires m' > m ==> j <= n
    ensures CopyOk(taps, u, r', j, n, m')
    ensures m' > m ==> j == m == n
  {
    var db := hist[|hist| - 1].db;
    if m' > m {
      if r.pc.InInsert? {
        InsertLandsIff(u, base, taps, m, db, r, j, n, newId);
      } else {
        LiveCloseIsNext(u, base, taps, m, hist, r, j, n, newId);
      }
    } else if found.Some? && (r.pc.InLookup? || r.pc.InReread?) {
      ClockInFoundIff(db, u, base, taps, m, j);
      assert Matches(ByClientId(u, taps[j].clientId), db[found.value.id]);
    } else if found.Some? && (r.pc.OutLookup? || r.pc.OutReread?) {
      ClockOutFoundIff(db, u, base, taps, m, j);
      assert Matches(ByCloseClientId(u, taps[j].clientId), db[found.value.id]);
    }
  }

  /** A step of a copy: it stays consistent with what has landed, and lands at most its own tap. */
  lemma CopyStep(cfg: Config, u: UserId, base: map<ClientId, Shift>, taps: seq<Body>, hist: seq<Instant>, r: Request,
                 j: nat, n: nat, m: nat,
                 found: Option<Entry>, newId: EntryId, r': Request, m': nat)
    requires GoodHist(hist) && LocalsOk(hist, r) && n <= m <= n + 1
    requires ReadsBack(hist[|hist| - 1].db, u, base, taps, m) && Queueable(taps) && FreshFor(base, taps)
    requires CopyOk(taps, u, r, j, n, m) && !r.pc.Done?
    requires QueryOf(r).Some? ==> Answers(hist[|hist| - 1].db, QueryOf(r).value, found)
    requires newId !in hist[|hist| - 1].db
    requires r' == r.(pc := NextPc(cfg, hist[|hist| - 1], |hist| - 1, r, found, newId))
    requires Marked(r.body) && Judging(r.pc) ==> !r'.pc.Done?
    requires m' == m + if CommandOf(r, newId).Some? && Takes(hist[|hist| - 1].db, CommandOf(r, newId).value) then 1
             else 0
    requires m' > m ==> j <= n
    ensures CopyOk(taps, u, r', j, n, m')
    ensures m <= m' <= n + 1 && m' <= |taps|
    ensures m' > m ==> j == m
  {
    if !Marked(r.body) {
      LiveStep(cfg, u, base, taps, hist, r, j, n, m, found, newId, r', m');
    } else if r.body.ClockIn? {
      ClockInCopyStep(cfg, u, base, taps, hist, r, j, n, m, found, newId, r', m');
    } else {
      ClockOutCopyStep(cfg, u, base, taps, hist, r, j, n, m, found, newId, r', m');
    }
  }

  /** What a server step does to the request that takes it, spelt out. */
  lemma StepSpeltOut(cfg: Config, u: UserId, p: Phone, ev: Event, p': Phone)
    requires Possible(p, u, Server(ev)) && Favourable(cfg, u, p, Server(ev)) && p' == Moved(cfg, u, p, Server(ev))
    requires ev.Step? && ev.rid in p.copies
    ensures |p.server.hist| > 0 && |p'.server.hist| > 0
    ensures var hist, r := p.server.hist, p.server.reqs[ev.rid];
            && PcFits(r.body, r.pc) && !r.pc.Done?
            && (QueryOf(r).Some? ==> Answers(hist[|hist| - 1].db, QueryOf(r).value, ev.found))
                 && ev.newId !in hist[|hist| - 1].db
            && ev.rid in p'.server.reqs && p'.server.reqs[ev.rid] ==
                 r.(pc := NextPc(cfg, hist[|hist| - 1], |hist| - 1, r, ev.found, ev.newId))
            && (Marked(r.body) && Judging(r.pc) ==> !p'.server.reqs[ev.rid].pc.Done?)
            && (p'.landed > p.landed ==> p.copies[ev.rid] <= p.resolved)
            && Now(p'.server).db == StepDb(hist[|hist| - 1], r, ev.newId)
            && p'.landed == p.landed + if CommandOf(r, ev.newId).Some?
                 && Takes(hist[|hist| - 1].db, CommandOf(r, ev.newId).value) then 1 else 0
  {
  }

  lemma NothingLands(i: Instant, r: Request, newId: EntryId)
    requires PcFits(r.body, r.pc) && (CommandOf(r, newId).Some? ==> !Takes(i.db, CommandOf(r, newId).value))
    ensures StepDb(i, r, newId) == i.db
  {
  }

  /** A copy that took no step keeps what it knew: landing more only confirms it. */
  lemma CopyWaits(taps: seq<Body>, u: UserId, r: Request, j: nat, n: nat, m: nat, n': nat, m': nat)
    requires CopyOk(taps, u, r, j, n, m) && n <= n' && m <= m'
    ensures CopyOk(taps, u, r, j, n', m')
  {
  }

  lemma ServerMove(cfg: Config, u: UserId, base: map<ClientId, Shift>, taps: seq<Body>, p: Phone, ev: Event, p': Phone)
    requires Converging(u, base, taps, p) && Possible(p, u, Server(ev)) && Favourable(cfg, u, p, Server(ev))
    requires p' == Moved(cfg, u, p, Server(ev))
    ensures Converging(u, base, taps, p')
  {
    EventKeepsInv(cfg, p.server, ev);
    GoodAt(p'.server.hist, |p'.server.hist| - 1);
    LandedMove(cfg, u, base, taps, p, ev, p');
    CopiesMove(cfg, u, base, taps, p, ev, p');
    OnlyCopiesStill(cfg, u, p, ev, p');
  }

  lemma CopyCase(cfg: Config, u: UserId, base: map<ClientId, Shift>, taps: seq<Body>, p: Phone, rid: RequestId,
                 found: Option<Entry>, newId: EntryId, r': Request, m': nat)
    requires Converging(u, base, taps, p) && rid in p.copies && !p.server.reqs[rid].pc.Done?
    requires var i, r := Now(p.server), p.server.reqs[rid];
             && PcFits(r.body, r.pc)
             && (QueryOf(r).Some? ==> Answers(i.db, QueryOf(r).value, found)) && newId !in i.db
             && r' == r.(pc := NextPc(cfg, i, |p.server.hist| - 1, r, found, newId))
             && (Marked(r.body) && Judging(r.pc) ==> !r'.pc.Done?)
             && m' == p.landed + (if CommandOf(r, newId).Some? && Takes(i.db, CommandOf(r, newId).value) then 1 else 0)
    requires m' > p.landed ==> p.copies[rid] <= p.resolved
    ensures CopyOk(taps, u, r', p.copies[rid], p.resolved, m') && p.landed <= m' <= p.resolved + 1 && m' <= |taps|
    ensures m' > p.landed ==> p.copies[rid] == p.landed
  {
    var r, j := p.server.reqs[rid], p.copies[rid];
    assert LocalsOk(p.server.hist, r);
    assert CopyOk(taps, u, r, j, p.resolved, p.landed);
    CopyStep(cfg, u, base, taps, p.server.hist, r, j, p.resolved, p.landed, found, newId, r', m');
  }

  lemma CopyKnows(u: UserId, base: map<ClientId, Shift>, taps: seq<Body>, p: Phone, rid: RequestId)
    requires Converging(u, base, taps, p) && rid in p.copies
    ensures var r, j := p.server.reqs[rid], p.copies[rid];
            LocalsOk(p.server.hist, r) && IsCopy(taps, u, r, j)
  {
    assert LocalsOk(p.server.hist, p.server.reqs[rid]);
    assert CopyOk(taps, u, p.server.reqs[rid], p.copies[rid], p.resolved, p.landed);
  }

  lemma CopyIdles(u: UserId, base: map<ClientId, Shift>, taps: seq<Body>, p: Phone, r: Request, newId: EntryId)
    requires |p.server.hist| > 0 && ReadsBack(Now(p.server).db, u, base, taps, p.landed)
    requires PcFits(r.body, r.pc) && (CommandOf(r, newId).Some? ==> !Takes(Now(p.server).db, CommandOf(r, newId).value))
    ensures ReadsBack(StepDb(Now(p.server), r, newId), u, base, taps, p.landed)
  {
    NothingLands(Now(p.server), r, newId);
  }

  lemma StepByCopy(cfg: Config, u: UserId, base: map<ClientId, Shift>, taps: seq<Body>, p: Phone, ev: Event, p': Phone)
    requires Converging(u, base, taps, p) && Possible(p, u, Server(ev)) && Favourable(cfg, u, p, Server(ev))
    requires p' == Moved(cfg, u, p, Server(ev)) && ev.Step? && ev.rid in p.copies
    ensures p.landed <= p'.landed <= p.resolved + 1 && p'.landed <= |taps|
    ensures p'.landed > p.landed ==> p.copies[ev.rid] == p.landed
    ensures CopyOk(taps, u, p'.server.reqs[ev.rid], p.copies[ev.rid], p.resolved, p'.landed)
  {
    StepSpeltOut(cfg, u, p, ev, p');
    CopyCase(cfg, u, base, taps, p, ev.rid, ev.found, ev.newId, p'.server.reqs[ev.rid], p'.landed);
  }

  lemma LandedByCopy(cfg: Config, u: UserId, base: map<ClientId, Shift>, taps: seq<Body>, p: Phone, ev: Event,
                     p': Phone)
    requires Converging(u, base, taps, p) && Possible(p, u, Server(ev)) && Favourable(cfg, u, p, Server(ev))
    requires p' == Moved(cfg, u, p, Server(ev)) && ev.Step? && ev.rid in p.copies && p'.landed > p.landed
    requires p.copies[ev.rid] == p.landed
    ensures p.landed < |taps| && |p'.server.hist| > 0 && ReadsBack(Now(p'.server).db, u, base, taps, p.landed + 1)
  {
    StepSpeltOut(cfg, u, p, ev, p');
    CopyKnows(u, base, taps, p, ev.rid);
    LandedOneMore(u, base, taps, p.server.hist, p.server.reqs[ev.rid], p.landed, ev.newId, Now(p'.server).db);
  }

  lemma WaitedByCopy(cfg: Config, u: UserId, base: map<ClientId, Shift>, taps: seq<Body>, p: Phone, ev: Event,
                     p': Phone)
    requires Converging(u, base, taps, p) && Possible(p, u, Server(ev)) && Favourable(cfg, u, p, Server(ev))
    requires p' == Moved(cfg, u, p, Server(ev)) && ev.Step? && ev.rid in p.copies && p'.landed == p.landed
    ensures |p'.server.hist| > 0 && ReadsBack(Now(p'.server).db, u, base, taps, p.landed)
  {
    StepSpeltOut(cfg, u, p, ev, p');
    CopyIdles(u, base, taps, p, p.server.reqs[ev.rid], ev.newId);
  }

  /** Requests other than copies leave this user's shifts alone. */
  lemma OtherCase(u: UserId, base: map<ClientId, Shift>, taps: seq<Body>, p: Phone, rid: RequestId, newId: EntryId)
    requires Converging(u, base, taps, p) && rid in p.server.reqs && rid !in p.copies && !p.server.reqs[rid].pc.Done?
    requires PcFits(p.server.reqs[rid].body, p.server.reqs[rid].pc)
             && GoodDb(StepDb(Now(p.server), p.server.reqs[rid], newId))
    ensures ReadsBack(StepDb(Now(p.server), p.server.reqs[rid], newId), u, base, taps, p.landed)
  {
    var r := p.server.reqs[rid];
    assert LocalsOk(p.server.hist, r);
    assert r.user == u ==> !LiveClock(r);
    var s: map<ClientId, Shift> :| Shows(Now(p.server).db, u, s) && Delivered(base, taps, p.landed, s);
    NeutralStep(p.server.hist, r, newId, u, s);
  }

  lemma OthersSpeltOut(cfg: Config, u: UserId, p: Phone, ev: Event, p': Phone)
    requires Possible(p, u, Server(ev)) && p' == Moved(cfg, u, p, Server(ev))
    requires ev.Step? ==> ev.rid !in p.copies
    ensures |p.server.hist| > 0 && |p'.server.hist| > 0 && p'.landed == p.landed
    ensures if ev.Step? then
              var r := p.server.reqs[ev.rid];
              PcFits(r.body, r.pc) && !r.pc.Done? && Now(p'.server).db == StepDb(Now(p.server), r, ev.newId)
            else Now(p'.server).db == Now(p.server).db
  {
  }

  lemma LandedByOthers(cfg: Config, u: UserId, base: map<ClientId, Shift>, taps: seq<Body>, p: Phone, ev: Event,
                       p': Phone)
    requires Converging(u, base, taps, p) && Possible(p, u, Server(ev)) && p' == Moved(cfg, u, p, Server(ev))
    requires ev.Step? ==> ev.rid !in p.copies
    requires |p'.server.hist| > 0 && GoodDb(Now(p'.server).db)
    ensures p'.landed == p.landed && ReadsBack(Now(p'.server).db, u, base, taps, p.landed)
  {
    OthersSpeltOut(cfg, u, p, ev, p');
    if ev.Step? {
      OtherCase(u, base, taps, p, ev.rid, ev.newId);
    }
  }

  lemma LandedMove(cfg: Config, u: UserId, base: map<ClientId, Shift>, taps: seq<Body>, p: Phone, ev: Event, p': Phone)
    requires Converging(u, base, taps, p) && Possible(p, u, Server(ev)) && Favourable(cfg, u, p, Server(ev))
    requires p' == Moved(cfg, u, p, Server(ev)) && |p'.server.hist| > 0 && GoodDb(Now(p'.server).db)
    ensures p.landed <= p'.landed <= p.resolved + 1 && p'.landed <= |taps|
    ensures ReadsBack(Now(p'.server).db, u, base, taps, p'.landed)
    ensures ev.Step? && ev.rid in p.copies ==>
              CopyOk(taps, u, p'.server.reqs[ev.rid], p.copies[ev.rid], p.resolved, p'.landed)
  {
    if ev.Step? && ev.rid in p.copies {
      StepByCopy(cfg, u, base, taps, p, ev, p');
      if p'.landed > p.landed {
        LandedByCopy(cfg, u, base, taps, p, ev, p');
      } else {
        WaitedByCopy(cfg, u, base, taps, p, ev, p');
      }
    } else {
      LandedByOthers(cfg, u, base, taps, p, ev, p');
    }
  }

  lemma CopiesMove(cfg: Config, u: UserId, base: map<ClientId, Shift>, taps: seq<Body>, p: Phone, ev: Event, p': Phone)
    requires Converging(u, base, taps, p) && Possible(p, u, Server(ev)) && p' == Moved(cfg, u, p, Server(ev))
    requires p.landed <= p'.landed
    requires ev.Step? && ev.rid in p.copies ==>
               CopyOk(taps, u, p'.server.reqs[ev.rid], p.copies[ev.rid], p.resolved, p'.landed)
    ensures p'.copies.Keys <= p'.server.reqs.Keys
    ensures forall rid :: rid in p'.copies ==>
              CopyOk(taps, u, p'.server.reqs[rid], p'.copies[rid], p'.resolved, p'.landed)
  {
    forall rid | rid in p'.copies
      ensures CopyOk(taps, u, p'.server.reqs[rid], p'.copies[rid], p'.resolved, p'.landed)
    {
      if !ev.Step? || rid != ev.rid {
        assert CopyOk(taps, u, p.server.reqs[rid], p.copies[rid], p.resolved, p.landed);
        CopyWaits(taps, u, p'.server.reqs[rid], p.copies[rid], p.resolved, p.landed, p'.resolved, p'.landed);
      }
    }
  }

  lemma OnlyCopiesStill(cfg: Config, u: UserId, p: Phone, ev: Event, p': Phone)
    requires Possible(p, u, Server(ev)) && Favourable(cfg, u, p, Server(ev)) && p' == Moved(cfg, u, p, Server(ev))
    requires OnlyCopiesClock(p, u)
    ensures OnlyCopiesClock(p', u)
  {
    forall rid | rid in p'.server.reqs && rid !in p'.copies && LiveClock(p'.server.reqs[rid])
      ensures p'.server.reqs[rid].user != u
    {
      assert rid in p.server.reqs ==> LiveClock(p.server.reqs[rid]);
    }
  }

  /** Confirming more never contradicts what a copy knew. */
  lemma CopiesWait(taps: seq<Body>, u: UserId, p: Phone, n: nat)
    requires p.copies.Keys <= p.server.reqs.Keys && p.resolved <= n
    requires forall rid {:trigger CopyOk(taps, u, p.server.reqs[rid], p.copies[rid], p.resolved, p.landed)} ::
               rid in p.copies ==>
               CopyOk(taps, u, p.server.reqs[rid], p.copies[rid], p.resolved, p.landed)
    ensures forall rid {:trigger CopyOk(taps, u, p.server.reqs[rid], p.copies[rid], n, p.landed)} :: rid in p.copies ==>
              CopyOk(taps, u, p.server.reqs[rid], p.copies[rid], n, p.landed)
  {
    forall rid | rid in p.copies
      ensures CopyOk(taps, u, p.server.reqs[rid], p.copies[rid], n, p.landed)
    {
      CopyWaits(taps, u, p.server.reqs[rid], p.copies[rid], p.resolved, p.landed, n, p.landed);
    }
  }

  /** The client's own moves do not touch the server. */
  lemma ResolveMove(u: UserId, base: map<ClientId, Shift>, taps: seq<Body>, p: Phone, rid: RequestId)
    requires Converging(u, base, taps, p) && p.queue != [] && rid in p.copies && p.copies[rid] == p.resolved
    requires p.server.reqs[rid].pc.Done? && Succeeded(p.server.reqs[rid].pc.answer)
    ensures Converging(u, base, taps, Resolve(p, []))
  {
    assert CopyOk(taps, u, p.server.reqs[rid], p.copies[rid], p.resolved, p.landed);
    CopiesWait(taps, u, p, p.resolved + 1);
    assert OnlyCopiesClock(Resolve(p, []), u);
    assert ReadsBack(Now(p.server).db, u, base, taps, p.landed);
  }

  lemma TapMove(u: UserId, base: map<ClientId, Shift>, taps: seq<Body>, p: Phone, b: Body)
    requires Converging(u, base, taps, p) && p.queue + [b] <= taps[p.resolved..]
    ensures Converging(u, base, taps, p.(queue := p.queue + [b]))
  {
    assert OnlyCopiesClock(p.(queue := p.queue + [b]), u);
  }

  lemma GiveUpMove(u: UserId, base: map<ClientId, Shift>, taps: seq<Body>, p: Phone)
    requires Converging(u, base, taps, p)
    ensures Converging(u, base, taps, p.(sent := None))
  {
    assert OnlyCopiesClock(p.(sent := None), u);
  }

  /** The outstanding copy of the head is never refused. */
  lemma HeadIsNeverRefused(u: UserId, base: map<ClientId, Shift>, taps: seq<Body>, p: Phone)
    requires Converging(u, base, taps, p) && p.sent.Some? && p.server.reqs[p.sent.value].pc.Done?
    ensures !p.server.reqs[p.sent.value].pc.answer.Refused?
  {
    assert CopyOk(taps, u, p.server.reqs[p.sent.value], p.copies[p.sent.value], p.resolved, p.landed);
  }

  /** A tap of the phone's own stamping arrives unchanged. */
  lemma ArrivesAsSent(tap: Body)
    requires (tap.ClockIn? || tap.ClockOut?) && Stamped(tap)
    ensures Arrived(tap) == tap && Arrived(ReplayBody(tap)) == ReplayBody(tap)
  {
  }

  lemma SentCopies(cfg: Config, u: UserId, base: map<ClientId, Shift>, taps: seq<Body>, p: Phone, rid: RequestId,
                   p': Phone)
    requires Converging(u, base, taps, p) && Possible(p, u, Send(rid)) && p' == Moved(cfg, u, p, Send(rid))
    ensures forall o :: o in p'.copies ==>
              o in p'.server.reqs && CopyOk(taps, u, p'.server.reqs[o], p'.copies[o], p'.resolved, p'.landed)
    ensures OnlyCopiesClock(p', u)
  {
    ArrivesAsSent(p.queue[0]);
    forall o | o in p'.copies
      ensures CopyOk(taps, u, p'.server.reqs[o], p'.copies[o], p'.resolved, p'.landed)
    {
      assert o != rid ==> CopyOk(taps, u, p.server.reqs[o], p.copies[o], p.resolved, p.landed);
    }
  }

  lemma SendMove(cfg: Config, u: UserId, base: map<ClientId, Shift>, taps: seq<Body>, p: Phone, rid: RequestId,
                 p': Phone)
    requires Converging(u, base, taps, p) && Possible(p, u, Send(rid)) && p' == Moved(cfg, u, p, Send(rid))
    ensures Converging(u, base, taps, p')
  {
    EventKeepsInv(cfg, p.server, Submit(rid, u, ReplayBody(p.queue[0])));
    SentCopies(cfg, u, base, taps, p, rid, p');
    assert ReadsBack(Now(p.server).db, u, base, taps, p.landed);
  }

  lemma LiveCopies(cfg: Config, u: UserId, base: map<ClientId, Shift>, taps: seq<Body>, p: Phone, rid: RequestId,
                   k: nat,
                   p': Phone)
    requires Converging(u, base, taps, p) && Possible(p, u, Live(rid, k)) && p' == Moved(cfg, u, p, Live(rid, k))
    ensures forall o :: o in p'.copies ==>
              o in p'.server.reqs && CopyOk(taps, u, p'.server.reqs[o], p'.copies[o], p'.resolved, p'.landed)
    ensures OnlyCopiesClock(p', u)
  {
    assert p.queue[k] == taps[p.resolved..][k] == taps[p.resolved + k];
    ArrivesAsSent(p.queue[k]);
    forall o | o in p'.copies
      ensures CopyOk(taps, u, p'.server.reqs[o], p'.copies[o], p'.resolved, p'.landed)
    {
      assert o != rid ==> CopyOk(taps, u, p.server.reqs[o], p.copies[o], p.resolved, p.landed);
    }
  }

  lemma LiveMove(cfg: Config, u: UserId, base: map<ClientId, Shift>, taps: seq<Body>, p: Phone, rid: RequestId, k: nat,
                 p': Phone)
    requires Converging(u, base, taps, p) && Possible(p, u, Live(rid, k)) && p' == Moved(cfg, u, p, Live(rid, k))
    ensures Converging(u, base, taps, p')
  {
    EventKeepsInv(cfg, p.server, Submit(rid, u, p.queue[k]));
    LiveCopies(cfg, u, base, taps, p, rid, k, p');
    assert ReadsBack(Now(p.server).db, u, base, taps, p.landed);
  }

  lemma MoveKeepsConverging(cfg: Config, u: UserId, base: map<ClientId, Shift>, taps: seq<Body>, p: Phone, mv: Move,
                            p': Phone)
    requires Converging(u, base, taps, p) && Possible(p, u, mv) && Favourable(cfg, u, p, mv)
             && p' == Moved(cfg, u, p, mv)
    requires mv.Tap? ==> p.queue + [mv.body] <= taps[p.resolved..]
    ensures Converging(u, base, taps, p')
  {
    match mv {
      case Tap(b) => TapMove(u, base, taps, p, b);
      case Send(rid) => SendMove(cfg, u, base, taps, p, rid, p');
      case Server(ev) => ServerMove(cfg, u, base, taps, p, ev, p');
      case GiveUp => GiveUpMove(u, base, taps, p);
      case Truncated => ResolveMove(u, base, taps, p, p.sent.value);
      case Live(rid, k) => LiveMove(cfg, u, base, taps, p, rid, k, p');
      case Taken(rid) => ResolveMove(u, base, taps, p, rid);
      case Reply =>
        HeadIsNeverRefused(u, base, taps, p);
        if Succeeded(p.server.reqs[p.sent.value].pc.answer) {
          ResolveMove(u, base, taps, p, p.sent.value);
        } else {
          GiveUpMove(u, base, taps, p);
        }
    }
  }

  /** What is queued, then what is still to be tapped, is all that is not resolved. */
  ghost predicate ToCome(taps: seq<Body>, p: Phone, moves: seq<Move>) {
    p.resolved <= |taps| && taps[p.resolved..] == p.queue + TapsOf(moves)
  }

  lemma NextToCome(cfg: Config, u: UserId, taps: seq<Body>, p: Phone, moves: seq<Move>)
    requires moves != [] && ToCome(taps, p, moves) && Possible(p, u, moves[0])
    ensures ToCome(taps, Moved(cfg, u, p, moves[0]), moves[1..])
    ensures moves[0].Tap? ==> p.queue + [moves[0].body] <= taps[p.resolved..]
  {
    var rest := TapsOf(moves[1..]);
    if moves[0].Tap? {
      assert p.queue + ([moves[0].body] + rest) == (p.queue + [moves[0].body]) + rest;
    } else {
      assert TapsOf(moves) == rest;
      if p.queue != [] {
        assert (p.queue + rest)[1..] == p.queue[1..] + rest;
        assert taps[p.resolved..][1..] == taps[p.resolved + 1..];
      }
    }
  }

  /** No answer the queue waited for, at any point of the run, was a refusal. */
  ghost predicate NeverRefused(cfg: Config, u: UserId, p: Phone, moves: seq<Move>)
    decreases |moves|
  {
    moves != [] && Possible(p, u, moves[0]) ==>
      && (moves[0].Reply? ==> !p.server.reqs[p.sent.value].pc.answer.Refused?)
      && NeverRefused(cfg, u, Moved(cfg, u, p, moves[0]), moves[1..])
  }

  lemma {:induction false} DrainKeepsConverging(cfg: Config, u: UserId, base: map<ClientId, Shift>, taps: seq<Body>,
                                                p: Phone, moves: seq<Move>, p': Phone)
    requires Converging(u, base, taps, p) && Drains(cfg, u, p, moves, p') && ToCome(taps, p, moves)
    ensures Converging(u, base, taps, p') && taps[p'.resolved..] == p'.queue
    ensures NeverRefused(cfg, u, p, moves)
    decreases |moves|
  {
    if moves == [] {
      assert p.queue + [] == p.queue;
    } else {
      if moves[0].Reply? {
        HeadIsNeverRefused(u, base, taps, p);
      }
      NextToCome(cfg, u, taps, p, moves);
      MoveKeepsConverging(cfg, u, base, taps, p, moves[0], Moved(cfg, u, p, moves[0]));
      DrainKeepsConverging(cfg, u, base, taps, Moved(cfg, u, p, moves[0]), moves[1..], p');
    }
  }

  lemma DrainedIsDelivered(cfg: Config, u: UserId, taps: seq<Body>, p: Phone, moves: seq<Move>, p': Phone)
    requires Start(u, taps, p) && Drains(cfg, u, p, moves, p') && taps == p.queue + TapsOf(moves) && p'.queue == []
    ensures |p'.server.hist| > 0 && p'.refused == [] && NeverRefused(cfg, u, p, moves)
    ensures Delivered(ShiftsOf(Now(p.server).db, u), taps, |taps|, ShiftsOf(Now(p'.server).db, u))
  {
    var base := ShiftsOf(Now(p.server).db, u);
    StartConverges(u, taps, p);
    assert taps[0..] == taps;
    DrainKeepsConverging(cfg, u, base, taps, p, moves, p');
    EmptyQueueLanded(u, base, taps, p');
  }

  lemma AllLanded(u: UserId, base: map<ClientId, Shift>, taps: seq<Body>, p: Phone)
    requires Converging(u, base, taps, p) && taps[p.resolved..] == []
    ensures ReadsBack(Now(p.server).db, u, base, taps, |taps|)
  {
    assert |taps[p.resolved..]| == |taps| - p.resolved;
  }

  lemma ReadBackIsDelivered(db: Db, u: UserId, base: map<ClientId, Shift>, taps: seq<Body>, m: nat)
    requires ReadsBack(db, u, base, taps, m)
    ensures Delivered(base, taps, m, ShiftsOf(db, u))
  {
    var s: map<ClientId, Shift> :| Shows(db, u, s) && Delivered(base, taps, m, s);
    ShownIsShiftsOf(db, u, s);
  }

  lemma EmptyQueueLanded(u: UserId, base: map<ClientId, Shift>, taps: seq<Body>, p: Phone)
    requires Converging(u, base, taps, p) && taps[p.resolved..] == []
    ensures Delivered(base, taps, |taps|, ShiftsOf(Now(p.server).db, u))
  {
    AllLanded(u, base, taps, p);
    ReadBackIsDelivered(Now(p.server).db, u, base, taps, |taps|);
  }

  /**
   * The main theorem. However sends were lost, failed, timed out with the copy still running, or
   * overlapped their own replay, whatever taps joined on the way, and whatever became of the live attempt
   * made before a tap was queued, once the queue is empty nothing it sent was refused and the user's
   * shifts are those of delivering the taps once each, in order.
   */
  lemma ReplayConverges(cfg: Config, u: UserId, taps: seq<Body>, p: Phone, moves: seq<Move>, p': Phone)
    requires Start(u, taps, p) && Drains(cfg, u, p, moves, p') && taps == p.queue + TapsOf(moves) && p'.queue == []
    ensures |p'.server.hist| > 0 && ShiftsOf(Now(p'.server).db, u) == Deliver(ShiftsOf(Now(p.server).db, u), taps)
    ensures p'.refused == [] && NeverRefused(cfg, u, p, moves)
  {
    DrainedIsDelivered(cfg, u, taps, p, moves, p');
    DeliveredMeansDelivered(ShiftsOf(Now(p.server).db, u), taps, ShiftsOf(Now(p'.server).db, u));
  }

  lemma DeliveredMeansDelivered(base: map<ClientId, Shift>, taps: seq<Body>, s: map<ClientId, Shift>)
    requires Queueable(taps) && FreshFor(base, taps) && Delivered(base, taps, |taps|, s)
    ensures s == Deliver(base, taps)
  {
    InOrderDelivery(base, taps, |taps|);
    assert taps[..|taps|] == taps;
    DeliveredIsUnique(base, taps, Deliver(base, taps), s);
  }

  lemma StartConverges(u: UserId, taps: seq<Body>, p: Phone)
    requires Start(u, taps, p)
    ensures Converging(u, ShiftsOf(Now(p.server).db, u), taps, p)
  {
    GoodAt(p.server.hist, |p.server.hist| - 1);
    ShowsShiftsOf(Now(p.server).db, u);
    assert Delivered(ShiftsOf(Now(p.server).db, u), taps, 0, ShiftsOf(Now(p.server).db, u));
  }

  lemma DeliveredIsUnique(base: map<ClientId, Shift>, taps: seq<Body>, s: map<ClientId, Shift>, t: map<ClientId, Shift>)
    requires ClockTaps(taps) && Delivered(base, taps, |taps|, s) && Delivered(base, taps, |taps|, t)
    ensures s == t
  {
    AgreesOn(base, taps, s, t);
    AgreesOn(base, taps, t, s);
  }

  lemma AgreesOn(base: map<ClientId, Shift>, taps: seq<Body>, s: map<ClientId, Shift>, t: map<ClientId, Shift>)
    requires ClockTaps(taps) && Delivered(base, taps, |taps|, s) && Delivered(base, taps, |taps|, t)
    ensures forall c :: c in s ==> c in t && s[c] == t[c]
  {
    forall c | c in s
      ensures c in t && s[c] == t[c]
    {
      if c !in base {
        assert Tapped(taps, |taps|, c);
        var k: nat :| k < |taps| && taps[k].ClockIn? && c == taps[k].clientId;
        assert TappedShift(taps, |taps|, k) == s[c];
      }
    }
  }

  /* ---- in documents ---- */

  /** The document of the shift tap k started, closed by the tap after it if there is one. */
  ghost predicate WrittenAs(e: Entry, taps: seq<Body>, k: nat)
    requires ClockTaps(taps) && k < |taps|
  {
    var f := taps[k].fix;
    && e.clientId == taps[k].clientId
    && e.clockIn.at == f.at && e.clockIn.loc == f.loc && e.clockIn.accuracy == f.accuracy
    && e.clockIn.mocked == f.mocked
    && if k + 1 == |taps| then e.status == Open
       else
         && e.status == Closed && e.closeClientId == Some(taps[k + 1].clientId) && e.clockOut.Some?
         && var p, g := e.clockOut.value, taps[k + 1].fix;
            p.at == g.at && p.loc == g.loc && p.accuracy == g.accuracy && p.mocked == g.mocked
  }

  ghost predicate HasDocument(db: Db, u: UserId, taps: seq<Body>, k: nat)
    requires ClockTaps(taps) && k < |taps|
  {
    exists id :: id in db && db[id].user == u && WrittenAs(db[id], taps, k)
  }

  /** It is among the documents there were, under its key, as it was. */
  ghost predicate WasThere(before: Db, e: Entry) {
    exists id :: id in before && before[id].user == e.user && before[id].clientId == e.clientId
      && before[id].clockIn == e.clockIn && before[id].closeClientId == e.closeClientId
      && before[id].clockOut == e.clockOut
  }

  lemma DocumentOf(db: Db, u: UserId, taps: seq<Body>, k: nat)
    requires GoodDb(db) && ClockTaps(taps) && k < |taps|
    requires taps[k].clientId in ShiftsOf(db, u) && ShiftsOf(db, u)[taps[k].clientId] == TappedShift(taps, |taps|, k)
    ensures HasDocument(db, u, taps, k)
  {
    var id := EntryFor(db, u, taps[k].clientId);
    assert WrittenAs(db[id], taps, k);
  }

  lemma ShiftOfDocument(db: Db, id: EntryId)
    requires GoodDb(db) && id in db
    ensures var c := db[id].clientId; c in ShiftsOf(db, db[id].user) && ShiftsOf(db, db[id].user)[c] == ShiftOf(db[id])
  {
    var o := EntryFor(db, db[id].user, db[id].clientId);
    assert SameClientId(db, o, id);
  }

  lemma SameShift(before: Db, after: Db, id: EntryId)
    requires GoodDb(before) && GoodDb(after) && id in after
    requires var u, c := after[id].user, after[id].clientId;
             c in ShiftsOf(before, u) && c in ShiftsOf(after, u) && ShiftsOf(before, u)[c] == ShiftsOf(after, u)[c]
    requires var u, c := after[id].user, after[id].clientId; ShiftsOf(before, u)[c].end.Some?
    ensures WasThere(before, after[id])
  {
    var u, c := after[id].user, after[id].clientId;
    var o := EntryFor(before, u, c);
    ShiftOfDocument(after, id);
    assert ShiftOf(before[o]) == ShiftOf(after[id]);
  }

  /**
   * The main theorem once more, in documents: with the queue empty there is a document for every clock-in
   * tapped, under its key, with its fix field by field, closed under the key of the clock-out tapped after it
   * with that fix, or open if none was; and every other document of the user was there before, as it is.
   */
  lemma EveryTapHasItsDocument(cfg: Config, u: UserId, taps: seq<Body>, p: Phone, moves: seq<Move>, p': Phone)
    requires Start(u, taps, p) && Drains(cfg, u, p, moves, p') && taps == p.queue + TapsOf(moves) && p'.queue == []
    ensures |p'.server.hist| > 0 && GoodDb(Now(p'.server).db)
    ensures forall k: nat {:trigger HasDocument(Now(p'.server).db, u, taps, k)} ::
              k < |taps| && taps[k].ClockIn? ==> HasDocument(Now(p'.server).db, u, taps, k)
    ensures forall id {:trigger Now(p'.server).db[id]} :: id in Now(p'.server).db && Now(p'.server).db[id].user == u ==>
              || WasThere(Now(p.server).db, Now(p'.server).db[id])
              || exists k: nat :: k < |taps| && taps[k].ClockIn? && WrittenAs(Now(p'.server).db[id], taps, k)
  {
    DrainedIsDelivered(cfg, u, taps, p, moves, p');
    var before, after := Now(p.server).db, Now(p'.server).db;
    GoodDrained(cfg, u, taps, p, moves, p');
    forall k: nat | k < |taps| && taps[k].ClockIn?
      ensures HasDocument(after, u, taps, k)
    {
      assert TappedShift(taps, |taps|, k) == ShiftsOf(after, u)[taps[k].clientId];
      DocumentOf(after, u, taps, k);
    }
    forall id | id in after && after[id].user == u
      ensures WasThere(before, after[id])
              || exists k: nat :: k < |taps| && taps[k].ClockIn? && WrittenAs(after[id], taps, k)
    {
      OneDocument(u, taps, before, after, id);
    }
  }

  lemma OneDocument(u: UserId, taps: seq<Body>, before: Db, after: Db, id: EntryId)
    requires GoodDb(before) && GoodDb(after) && id in after && after[id].user == u
    requires ClockTaps(taps) && FreshFor(ShiftsOf(before, u), taps)
    requires Delivered(ShiftsOf(before, u), taps, |taps|, ShiftsOf(after, u))
    ensures WasThere(before, after[id])
            || exists k: nat :: k < |taps| && taps[k].ClockIn? && WrittenAs(after[id], taps, k)
  {
    var c := after[id].clientId;
    ShiftOfDocument(after, id);
    if c in ShiftsOf(before, u) {
      SameShift(before, after, id);
    } else {
      assert Tapped(taps, |taps|, c);
      var k: nat :| k < |taps| && taps[k].ClockIn? && c == taps[k].clientId;
      assert TappedShift(taps, |taps|, k) == ShiftOf(after[id]);
      assert WrittenAs(after[id], taps, k);
    }
  }

  lemma GoodDrained(cfg: Config, u: UserId, taps: seq<Body>, p: Phone, moves: seq<Move>, p': Phone)
    requires Start(u, taps, p) && Drains(cfg, u, p, moves, p') && taps == p.queue + TapsOf(moves) && p'.queue == []
    ensures |p.server.hist| > 0 && |p'.server.hist| > 0 && GoodDb(Now(p.server).db) && GoodDb(Now(p'.server).db)
    ensures ClockTaps(taps) && FreshFor(ShiftsOf(Now(p.server).db, u), taps)
  {
    var base := ShiftsOf(Now(p.server).db, u);
    StartConverges(u, taps, p);
    assert taps[0..] == taps;
    DrainKeepsConverging(cfg, u, base, taps, p, moves, p');
    GoodAt(p.server.hist, |p.server.hist| - 1);
    GoodAt(p'.server.hist, |p'.server.hist| - 1);
  }
}
