/**
 * The clock handlers as the step sequences they are (backend/internal/entry/handler.go). A request
 * is a program counter with its locals; between two steps of one request any other request, the
 * clock, and the owners of employers and memberships may move.
 */
module Requests {
  import opened Options
  import opened Geo
  import opened Entries

  type RequestId = nat

  datatype Body =
    | ClockIn(clientId: ClientId, employer: Option<EmployerId>, fix: Fix)
    | ClockOut(clientId: ClientId, fix: Fix)
    | AssignTo(entry: EntryId, to: EmployerId)
    | Pings(ats: seq<Time>, anomaly: bool)

  datatype Answer =
    | Created(e: Entry) | Replayed(e: Entry) | ClosedNow(e: Entry) | Assigned(e: Entry) | Accepted
    | Refused(code: Refusal)
    | ServerError

  /**
   * History variables, not program state: the instants (indices into World.hist) at which a fix's
   * anchor was read and at which ValidateFix or ValidateClose passed it, and whether it was queued.
   */
  datatype Verdict = Verdict(seen: nat, judged: nat, queued: bool)

  /** Where a request stands, with the locals it still needs. */
  datatype Pc =
    | InLookup | InMember | InAnchor | InJudge(anchor: Option<Location>, seen: nat)
    | InFlags(v: Verdict) | InInsert(v: Verdict, flags: set<Flag>) | InReread
    | OutLookup | OutOpen | OutAnchor(e: Entry) | OutJudge(e: Entry, at: Location, seen: nat)
    | OutFlags(e: Entry, v: Verdict) | OutUpdate(e: Entry, v: Verdict, flags: set<Flag>) | OutReread
    | AsRead | AsMember(e: Entry) | AsAnchor(e: Entry) | AsWrite(e: Entry, verified: bool, seen: nat)
    | PgOpen | PgTouch(e: Entry) | PgFlag(e: Entry)
    | Done(answer: Answer)

  datatype Request = Request(user: UserId, body: Body, pc: Pc, born: nat)

  /** What the steps of a request can read at one moment. */
  datatype Instant = Instant(db: Db, anchors: map<EmployerId, Location>, members: set<(EmployerId, UserId)>, now: Time)

  /** History: what each stored point, and a later assignment, was judged on. */
  datatype Evidence = Evidence(start: Verdict, end: Option<Verdict>, booking: Option<nat>)

  datatype World = World(hist: seq<Instant>, reqs: map<RequestId, Request>, evidence: map<EntryId, Evidence>)

  datatype Event =
    | Submit(rid: RequestId, user: UserId, body: Body)
    | Step(rid: RequestId, found: Option<Entry>, newId: EntryId)
    | Fail(rid: RequestId)
    | Tick(now: Time)
    | SetAnchors(anchors: map<EmployerId, Location>)
    | SetMembers(members: set<(EmployerId, UserId)>)

  function FirstPc(b: Body): Pc {
    match b
    case ClockIn(_, _, _) => InLookup
    case ClockOut(_, _) => OutLookup
    case AssignTo(_, _) => AsRead
    case Pings(_, _) => PgOpen
  }

  /** clockRequest.fix and pingFixes: a fix loses its part of a millisecond as it arrives, before anything is judged. */
  function Arrived(b: Body): Body {
    match b
    case ClockIn(c, emp, f) => ClockIn(c, emp, Trimmed(f))
    case ClockOut(c, f) => ClockOut(c, Trimmed(f))
    case AssignTo(_, _) => b
    case Pings(ats, anomaly) => Pings(TrimmedTimes(ats), anomaly)
  }

  function Trimmed(f: Fix): Fix {
    f.(at := Ms(f.at))
  }

  function TrimmedTimes(ats: seq<Time>): (r: seq<Time>)
    ensures |r| == |ats| && forall k :: 0 <= k < |r| ==> r[k] == Ms(ats[k])
  {
    seq(|ats|, k requires 0 <= k < |ats| => Ms(ats[k]))
  }

  predicate PcFits(b: Body, pc: Pc) {
    match b
    case ClockIn(_, emp, _) =>
      || pc.InLookup? || (emp.Some? && (pc.InMember? || pc.InAnchor?)) || pc.InJudge? || pc.InFlags? || pc.InInsert?
      || pc.InReread? || pc.Done?
    case ClockOut(_, _) =>
      || pc.OutLookup? || pc.OutOpen? || (pc.OutAnchor? && pc.e.employer.Some?) || pc.OutJudge? || pc.OutFlags?
      || pc.OutUpdate? || pc.OutReread? || pc.Done?
    case AssignTo(_, _) => pc.AsRead? || pc.AsMember? || pc.AsAnchor? || pc.AsWrite? || pc.Done?
    case Pings(ats, _) => pc.PgOpen? || (pc.PgTouch? && ats != []) || pc.PgFlag? || pc.Done?
  }

  /** pingFixes sorts the batch, so its last fix is the newest. */
  function Newest(ats: seq<Time>): Time
    requires ats != []
  {
    if |ats| == 1 then ats[0]
    else var rest := Newest(ats[1..]); if ats[0] > rest then ats[0] else rest
  }

  function BackdatedFlags(cfg: Config, now: Time, f: Fix): set<Flag> {
    if f.queued && Sub(now, f.at) > cfg.maxClockSkew then {Backdated} else {}
  }

  function NewEntry(id: EntryId, user: UserId, b: Body, flags: set<Flag>): Entry
    requires b.ClockIn?
  {
    Entry(id, user, b.employer, b.clientId, None, Open, PointOf(b.fix), None, true, flags, None)
  }

  /** The lookup a step performs, if it is a read. */
  function QueryOf(r: Request): Option<Query>
    requires PcFits(r.body, r.pc)
  {
    match r.pc
    case InLookup => Some(ByClientId(r.user, r.body.clientId))
    case InReread => Some(ByClientId(r.user, r.body.clientId))
    case OutLookup => Some(ByCloseClientId(r.user, r.body.clientId))
    case OutReread => Some(ByCloseClientId(r.user, r.body.clientId))
    case OutOpen => Some(OpenEntry(r.user))
    case PgOpen => Some(OpenEntry(r.user))
    case AsRead => Some(ById(r.user, r.body.entry))
    case _ => None
  }

  /** The write a step performs, if it is one. */
  function CommandOf(r: Request, newId: EntryId): Option<Command>
    requires PcFits(r.body, r.pc)
  {
    match r.pc
    case InInsert(_, flags) => Some(Insert(NewEntry(newId, r.user, r.body, flags)))
    case OutUpdate(e, _, flags) => Some(Close(e.id, PointOf(r.body.fix), r.body.clientId, flags))
    case AsWrite(e, verified, _) => Some(Assign(e.id, e.user, r.body.to, verified))
    case PgTouch(e) => Some(TouchPing(e.id, e.user, Newest(r.body.ats)))
    case PgFlag(e) => Some(AddFlag(e.id, e.user, SpeedAnomaly))
    case _ => None
  }

  /** Both ends of a shift measured against an employer's centre; position only. */
  predicate EntryWithin(cfg: Config, e: Entry, anchor: Location) {
    && WithinAnchor(cfg, e.clockIn.loc, anchor)
    && (e.clockOut.Some? ==> WithinAnchor(cfg, e.clockOut.value.loc, anchor))
  }

  /** Where the request goes after this step, taken at instant `i`, number `here` in the history. */
  function NextPc(cfg: Config, i: Instant, here: nat, r: Request, found: Option<Entry>, newId: EntryId): Pc
    requires PcFits(r.body, r.pc)
  {
    match r.pc
    case InLookup =>
      if found.Some? then Done(Replayed(found.value))
      else if r.body.employer.Some? then InMember else InJudge(None, here)
    case InMember =>
      if (r.body.employer.value, r.user) in i.members then InAnchor else Done(Refused(NotMember))
    case InAnchor =>
      if r.body.employer.value in i.anchors then InJudge(Some(i.anchors[r.body.employer.value]), here)
      else Done(Refused(NotMember))
    case InJudge(anchor, seen) =>
      var verdict := ValidateFix(cfg, i.now, r.body.fix, anchor);
      if verdict.Some? then Done(Refused(verdict.value)) else InFlags(Verdict(seen, here, r.body.fix.queued))
    case InFlags(v) => InInsert(v, BackdatedFlags(cfg, i.now, r.body.fix))
    case InInsert(_, _) =>
      var cmd := CommandOf(r, newId).value;
      if Takes(i.db, cmd) then Done(Created(cmd.e)) else InReread
    case InReread => if found.Some? then Done(Replayed(found.value)) else Done(Refused(OpenEntryExists))

    case OutLookup => if found.Some? then Done(Replayed(found.value)) else OutOpen
    case OutOpen =>
      if found.None? then OutReread
      else if r.body.fix.at <= found.value.clockIn.at then Done(Refused(InvalidArgument))
      else if found.value.employer.None? then OutJudge(found.value, found.value.clockIn.loc, here)
      else OutAnchor(found.value)
    case OutAnchor(e) =>
      if e.employer.value in i.anchors then OutJudge(e, i.anchors[e.employer.value], here)
      else Done(Refused(NotMember))
    case OutJudge(e, anchor, seen) =>
      var verdict := ValidateClose(cfg, i.now, r.body.fix, Some(anchor));
      if verdict.Some? then Done(Refused(verdict.value)) else OutFlags(e, Verdict(seen, here, r.body.fix.queued))
    case OutFlags(e, v) => OutUpdate(e, v, BackdatedFlags(cfg, i.now, r.body.fix))
    case OutUpdate(e, _, _) =>
      var cmd := CommandOf(r, newId).value;
      if Takes(i.db, cmd) then Done(ClosedNow(Updated(e, cmd))) else OutReread
    case OutReread => if found.Some? then Done(Replayed(found.value)) else Done(Refused(NoOpenEntry))

    case AsRead =>
      if found.None? then Done(Refused(NotFound))
      else if found.value.employer.Some? || found.value.status == Open then Done(Refused(InvalidArgument))
      else AsMember(found.value)
    case AsMember(e) => if (r.body.to, r.user) in i.members then AsAnchor(e) else Done(Refused(NotMember))
    case AsAnchor(e) =>
      if r.body.to in i.anchors then AsWrite(e, EntryWithin(cfg, e, i.anchors[r.body.to]), here)
      else Done(Refused(NotMember))
    case AsWrite(e, _, _) =>
      var cmd := CommandOf(r, newId).value;
      if Takes(i.db, cmd) then Done(Assigned(Updated(e, cmd))) else Done(Refused(InvalidArgument))

    case PgOpen => if found.None? || r.body.ats == [] then Done(Accepted) else PgTouch(found.value)
    case PgTouch(e) => if r.body.anomaly then PgFlag(e) else Done(Accepted)
    case PgFlag(_) => Done(Accepted)
    case Done(a) => Done(a)
  }

  /** The history variables after a write took effect. */
  function Recorded(ev: map<EntryId, Evidence>, r: Request, cmd: Command): map<EntryId, Evidence>
    requires PcFits(r.body, r.pc)
  {
    match r.pc
    case InInsert(v, _) => if cmd.Insert? then ev[cmd.e.id := Evidence(v, None, None)] else ev
    case OutUpdate(e, v, _) => if e.id in ev then ev[e.id := ev[e.id].(end := Some(v))] else ev
    case AsWrite(e, _, seen) => if e.id in ev then ev[e.id := ev[e.id].(booking := Some(seen))] else ev
    case _ => ev
  }

  ghost predicate ValidWorld(w: World) {
    |w.hist| > 0 && forall rid {:trigger w.reqs[rid].body} :: rid in w.reqs ==> PcFits(w.reqs[rid].body, w.reqs[rid].pc)
  }

  function Now(w: World): Instant
    requires |w.hist| > 0
  {
    w.hist[|w.hist| - 1]
  }

  ghost predicate Enabled(w: World, ev: Event) {
    && ValidWorld(w)
    && match ev
       case Submit(rid, _, _) => rid !in w.reqs
       case Step(rid, found, newId) =>
         && rid in w.reqs && !w.reqs[rid].pc.Done?
         && (QueryOf(w.reqs[rid]).Some? ==> Answers(Now(w).db, QueryOf(w.reqs[rid]).value, found))
         && newId !in Now(w).db
       case Fail(rid) => rid in w.reqs && !w.reqs[rid].pc.Done?
       case Tick(t) => Now(w).now <= t
       case SetAnchors(_) => true
       case SetMembers(_) => true
  }

  function StepDb(i: Instant, r: Request, newId: EntryId): Db
    requires PcFits(r.body, r.pc)
  {
    var cmd := CommandOf(r, newId);
    if cmd.Some? then Exec(i.db, cmd.value) else i.db
  }

  function Apply(cfg: Config, w: World, ev: Event): World
    requires Enabled(w, ev)
  {
    var i := Now(w);
    match ev
    case Submit(rid, u, b) =>
      w.(hist := w.hist + [i], reqs := w.reqs[rid := Request(u, Arrived(b), FirstPc(b), |w.hist| - 1)])
    case Step(rid, found, newId) =>
      var r := w.reqs[rid];
      var cmd := CommandOf(r, newId);
      World(w.hist + [i.(db := StepDb(i, r, newId))],
            w.reqs[rid := r.(pc := NextPc(cfg, i, |w.hist| - 1, r, found, newId))],
            if cmd.Some? && Takes(i.db, cmd.value) then Recorded(w.evidence, r, cmd.value) else w.evidence)
    case Fail(rid) => w.(hist := w.hist + [i], reqs := w.reqs[rid := w.reqs[rid].(pc := Done(ServerError))])
    case Tick(t) => w.(hist := w.hist + [i.(now := t)])
    case SetAnchors(a) => w.(hist := w.hist + [i.(anchors := a)])
    case SetMembers(m) => w.(hist := w.hist + [i.(members := m)])
  }

  /** The world after a whole run, when every event was possible where it happened. */
  ghost predicate Runs(cfg: Config, w: World, evs: seq<Event>, w': World)
    decreases |evs|
  {
    if evs == [] then w' == w
    else Enabled(w, evs[0]) && Runs(cfg, Apply(cfg, w, evs[0]), evs[1..], w')
  }

  predicate Initial(w: World) {
    |w.hist| == 1 && w.hist[0].db == map[] && w.reqs == map[] && w.evidence == map[]
  }
}
