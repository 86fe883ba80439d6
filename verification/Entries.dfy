/**
 * The time_entries collection (backend/internal/entry/store.go) and its two unique indexes
 * (backend/internal/mongox/indexes.go). A single Mongo command is the only atomic unit.
 */
module Entries {
  import opened Options
  import opened Geo

  type UserId = nat
  type EmployerId = nat
  type EntryId = nat
  type ClientId = string

  datatype Status = Open | Closed
  datatype Flag = SpeedAnomaly | Backdated
  datatype ClockPoint = ClockPoint(at: Time, loc: Location, accuracy: Reading, mocked: bool)

  datatype Entry = Entry(
    id: EntryId, user: UserId, employer: Option<EmployerId>,
    clientId: ClientId, closeClientId: Option<ClientId>, status: Status,
    clockIn: ClockPoint, clockOut: Option<ClockPoint>,
    verified: bool, flags: set<Flag>, lastPing: Option<Time>)

  type Db = map<EntryId, Entry>

  const MILLISECOND: int := 1_000_000

  /** msTime: Mongo keeps milliseconds. */
  function Ms(t: Time): (r: Time)
    ensures r <= t < r + MILLISECOND
  {
    t - t % MILLISECOND
  }

  lemma MsTwice(t: Time)
    ensures Ms(Ms(t)) == Ms(t)
  {
  }

  /** What is stored of a fix. The store truncates its instant once more, which changes nothing by then. */
  function PointOf(f: Fix): ClockPoint {
    ClockPoint(f.at, f.loc, f.accuracy, f.mocked)
  }

  /** The filters findOne is called with. */
  datatype Query =
    | ByClientId(user: UserId, clientId: ClientId)
    | ByCloseClientId(user: UserId, clientId: ClientId)
    | OpenEntry(user: UserId)
    | ById(user: UserId, id: EntryId)

  predicate Matches(q: Query, e: Entry) {
    && e.user == q.user
    && match q
       case ByClientId(_, c) => e.clientId == c
       case ByCloseClientId(_, c) => e.closeClientId == Some(c) && e.status == Closed
       case OpenEntry(_) => e.status == Open
       case ById(_, id) => e.id == id
  }

  ghost predicate Holds(db: Db, q: Query) {
    exists id :: id in db && Matches(q, db[id])
  }

  /** A legal answer of findOne: any matching document, or nil when there is none. */
  ghost predicate Answers(db: Db, q: Query, found: Option<Entry>) {
    match found
    case None => !Holds(db, q)
    case Some(e) => e.id in db && db[e.id] == e && Matches(q, e)
  }

  datatype Command =
    | Insert(e: Entry)
    | Close(id: EntryId, point: ClockPoint, clientId: ClientId, flags: set<Flag>)
    | Assign(id: EntryId, user: UserId, employer: EmployerId, verified: bool)
    | TouchPing(id: EntryId, user: UserId, at: Time)
    | AddFlag(id: EntryId, user: UserId, flag: Flag)

  /** A duplicate-key error: one of the unique indexes already holds this document's key. */
  predicate Duplicate(db: Db, e: Entry) {
    || e.id in db
    || exists id | id in db ::
         db[id].user == e.user && (db[id].clientId == e.clientId || (db[id].status == Open && e.status == Open))
  }

  function Later(t: Option<Time>, u: Time): Option<Time> {
    if t.Some? && t.value >= u then t else Some(u)
  }

  /** The update operators: $set with $addToSet, $set, $max, $addToSet. */
  function Updated(e: Entry, cmd: Command): Entry
    requires !cmd.Insert?
  {
    match cmd
    case Close(_, p, c, flags) =>
      e.(clockOut := Some(p), status := Closed, closeClientId := Some(c), flags := e.flags + flags)
    case Assign(_, _, emp, v) => e.(employer := Some(emp), verified := v)
    case TouchPing(_, _, at) => e.(lastPing := Later(e.lastPing, at))
    case AddFlag(_, _, f) => e.(flags := e.flags + {f})
  }

  /** The guard in the update's filter; the filter of Assign does not test the status. */
  predicate Guard(e: Entry, cmd: Command)
    requires !cmd.Insert?
  {
    match cmd
    case Close(_, _, _, _) => e.status == Open
    case Assign(_, u, _, _) => e.user == u && e.employer == None
    case TouchPing(_, u, _) => e.user == u
    case AddFlag(_, u, _) => e.user == u
  }

  /** One atomic command: whether it took effect (inserted, or matched a document), and the result. */
  predicate Takes(db: Db, cmd: Command) {
    if cmd.Insert? then !Duplicate(db, cmd.e) else cmd.id in db && Guard(db[cmd.id], cmd)
  }

  function Exec(db: Db, cmd: Command): Db {
    if !Takes(db, cmd) then db
    else if cmd.Insert? then db[cmd.e.id := cmd.e]
    else db[cmd.id := Updated(db[cmd.id], cmd)]
  }

  /** What one document looks like in every reachable state. */
  predicate WellFormed(e: Entry) {
    match e.status
    case Open => e.clockOut == None && e.closeClientId == None
    case Closed => e.closeClientId.Some? && e.clockOut.Some? && e.clockIn.at < e.clockOut.value.at
  }

  predicate SameClientId(db: Db, i: EntryId, j: EntryId) {
    i in db && j in db && db[i].user == db[j].user && db[i].clientId == db[j].clientId
  }

  predicate BothOpen(db: Db, i: EntryId, j: EntryId) {
    i in db && j in db && db[i].user == db[j].user && db[i].status == Open && db[j].status == Open
  }

  /** What the two unique indexes and the key enforce. */
  ghost predicate GoodDb(db: Db) {
    && (forall id :: id in db ==> db[id].id == id && WellFormed(db[id]))
    && (forall i, j :: SameClientId(db, i, j) ==> i == j)
    && (forall i, j :: BothOpen(db, i, j) ==> i == j)
  }

  predicate NotBefore(t: Option<Time>, u: Option<Time>) {
    u.None? || (t.Some? && u.value <= t.value)
  }

  /** How a document may differ at a later instant, any number of commands apart. */
  predicate Evolves(e: Entry, f: Entry) {
    && f.id == e.id && f.user == e.user && f.clientId == e.clientId && f.clockIn == e.clockIn
    && (e.status == Closed ==> f.status == Closed && f.clockOut == e.clockOut && f.closeClientId == e.closeClientId)
    && (e.employer.Some? ==> f.employer == e.employer)
    && (f.employer == e.employer ==> f.verified == e.verified)
    && (f.employer != e.employer ==> f.status == Closed)
    && e.flags <= f.flags
    && NotBefore(f.lastPing, e.lastPing)
  }

  /** What the issuer of a command must already know about the document it names. */
  predicate Legal(db: Db, cmd: Command) {
    match cmd
    case Insert(e) => e.status == Open && e.clockOut == None && e.closeClientId == None
    case Close(id, p, _, _) => id in db ==> db[id].clockIn.at < p.at
    case Assign(id, _, _, _) => id in db ==> db[id].status == Closed
    case TouchPing(_, _, _) => true
    case AddFlag(_, _, _) => true
  }

  /** One command apart: at most one document differs, and it evolved or was inserted open. */
  ghost predicate DbStep(a: Db, b: Db) {
    && GoodDb(a) && GoodDb(b)
    && (forall id :: id in a ==> id in b && Evolves(a[id], b[id]))
    && (forall i, j :: i in b && j in b && i != j ==> (i in a && a[i] == b[i]) || (j in a && a[j] == b[j]))
    && (forall id :: id in b && id !in a ==> b[id].status == Open)
  }

  lemma UpdateEvolves(e: Entry, cmd: Command)
    requires !cmd.Insert? && WellFormed(e) && Guard(e, cmd)
    requires cmd.Close? ==> e.clockIn.at < cmd.point.at
    requires cmd.Assign? ==> e.status == Closed
    ensures WellFormed(Updated(e, cmd)) && Evolves(e, Updated(e, cmd))
    ensures Updated(e, cmd).status == Open ==> e.status == Open
  {
  }

  /** Both unique indexes survive any legal command, and every document evolves or is unchanged. */
  lemma ExecIsStep(db: Db, cmd: Command)
    requires GoodDb(db) && Legal(db, cmd)
    ensures DbStep(db, Exec(db, cmd))
  {
    var next := Exec(db, cmd);
    if Takes(db, cmd) {
      if cmd.Insert? {
        InsertKeepsGood(db, cmd.e);
      } else {
        UpdateEvolves(db[cmd.id], cmd);
        UpdateKeepsGood(db, cmd.id, Updated(db[cmd.id], cmd));
      }
    }
  }

  lemma InsertKeepsGood(db: Db, e: Entry)
    requires GoodDb(db) && !Duplicate(db, e) && e.status == Open && WellFormed(e)
    ensures GoodDb(db[e.id := e])
  {
    var next := db[e.id := e];
    forall i, j | SameClientId(next, i, j) || BothOpen(next, i, j)
      ensures i == j
    {
      assert SameClientId(next, i, j) && i != e.id && j != e.id ==> SameClientId(db, i, j);
      assert BothOpen(next, i, j) && i != e.id && j != e.id ==> BothOpen(db, i, j);
    }
  }

  lemma UpdateKeepsGood(db: Db, id: EntryId, e: Entry)
    requires GoodDb(db) && id in db && WellFormed(e) && Evolves(db[id], e)
    requires e.status == Open ==> db[id].status == Open
    ensures GoodDb(db[id := e])
  {
    var next := db[id := e];
    forall i, j | SameClientId(next, i, j) || BothOpen(next, i, j)
      ensures i == j
    {
      assert SameClientId(next, i, j) ==> SameClientId(db, i, j);
      assert BothOpen(next, i, j) ==> BothOpen(db, i, j);
    }
  }
}
