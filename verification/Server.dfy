/**
 * The server as an object: the collections a handler's step reads and writes, and one step of one
 * request at a time, in any order. Every call is one event of the world in Requests, and the object
 * remembers the run it has made, so what is proved of runs holds of it.
 */
module Server {
  import opened Options
  import opened Geo
  import opened Entries
  import opened Requests
  import opened AnswersAreTrue
  import opened EvidenceIsSound
  import Closable
  import RefusalsHaveGrounds

  class ClockServer {
    const cfg: Config
    var docs: Db
    var anchors: map<EmployerId, Location>
    var members: set<(EmployerId, UserId)>
    var now: Time
    var reqs: map<RequestId, Request>
    /** The number of events so far; it names instants in the history. */
    var events: nat
    ghost var hist: seq<Instant>
    ghost var evidence: map<EntryId, Evidence>
    /** The run made so far, and where it began. */
    ghost var first: World
    ghost var trace: seq<Event>

    ghost function State(): World
      reads this
    {
      World(hist, reqs, evidence)
    }

    function Here(): Instant
      reads this
    {
      Instant(docs, anchors, members, now)
    }

    ghost predicate Keyed()
      reads this
    {
      forall id :: id in docs ==> docs[id].id == id
    }

    /** The history ends in the present. */
    ghost predicate Tracked()
      reads this
    {
      |hist| == events + 1 && hist[events] == Here() && ValidWorld(State()) && Keyed()
    }

    ghost predicate Valid()
      reads this
    {
      Tracked() && ValidConfig(cfg) && Reached(cfg, first, trace, State())
    }

    constructor (cfg: Config, anchors: map<EmployerId, Location>, members: set<(EmployerId, UserId)>, now: Time)
      requires ValidConfig(cfg)
      ensures Valid() && Initial(State()) && this.cfg == cfg && Here() == Instant(map[], anchors, members, now)
    {
      this.cfg, this.anchors, this.members, this.now := cfg, anchors, members, now;
      docs, reqs, events, hist, evidence := map[], map[], 0, [Instant(map[], anchors, members, now)], map[];
      first, trace := World([Instant(map[], anchors, members, now)], map[], map[]), [];
    }

    /* ---- single Mongo commands ---- */

    /** findOne: the documents are looked through in no particular order. */
    method FindOne(q: Query) returns (found: Option<Entry>)
      requires Keyed()
      ensures Answers(docs, q, found)
    {
      var left := docs.Keys;
      while left != {}
        invariant left <= docs.Keys && forall id :: id in docs && id !in left ==> !Matches(q, docs[id])
        decreases |left|
      {
        var id :| id in left;
        if Matches(q, docs[id]) {
          return Some(docs[id]);
        }
        left := left - {id};
      }
      return None;
    }

    /** InsertOne: false is a duplicate-key error. */
    method InsertOne(e: Entry) returns (inserted: bool)
      requires Keyed()
      modifies this`docs
      ensures Keyed() && inserted == Takes(old(docs), Insert(e)) && docs == Exec(old(docs), Insert(e))
    {
      var left := docs.Keys;
      while left != {}
        invariant left <= docs.Keys && docs == old(docs)
        invariant forall id :: id in docs && id !in left ==> !Clashes(docs[id], e)
        decreases |left|
      {
        var id :| id in left;
        if Clashes(docs[id], e) {
          return false;
        }
        left := left - {id};
      }
      if e.id in docs {
        return false;
      }
      docs := docs[e.id := e];
      return true;
    }

    /** UpdateOne: false is a matched count of zero. */
    method UpdateOne(cmd: Command) returns (matched: bool)
      requires Keyed() && !cmd.Insert?
      modifies this`docs
      ensures Keyed() && matched == Takes(old(docs), cmd) && docs == Exec(old(docs), cmd)
    {
      if cmd.id !in docs || !Guard(docs[cmd.id], cmd) {
        return false;
      }
      docs := docs[cmd.id := Updated(docs[cmd.id], cmd)];
      return true;
    }

    /* ---- one step of each handler ---- */

    method StepClockIn(r: Request, newId: EntryId) returns (next: Pc, ghost found: Option<Entry>)
      requires Keyed() && r.body.ClockIn? && PcFits(r.body, r.pc) && !r.pc.Done?
      modifies this`docs
      ensures Keyed() && docs == StepDb(old(Here()), r, newId)
      ensures QueryOf(r).Some? ==> Answers(old(docs), QueryOf(r).value, found)
      ensures next == NextPc(cfg, old(Here()), events, r, found, newId)
    {
      found := None;
      match r.pc
      case InLookup =>
        var prior := FindOne(ByClientId(r.user, r.body.clientId));
        found := prior;
        if prior.Some? {
          return Done(Replayed(prior.value)), found;
        }
        next := if r.body.employer.Some? then InMember else InJudge(None, events);
      case InMember =>
        next := if (r.body.employer.value, r.user) in members then InAnchor else Done(Refused(NotMember));
      case InAnchor =>
        if r.body.employer.value !in anchors {
          return Done(Refused(NotMember)), found;
        }
        next := InJudge(Some(anchors[r.body.employer.value]), events);
      case InJudge(anchor, seen) =>
        var refusal := ValidateFix(cfg, now, r.body.fix, anchor);
        if refusal.Some? {
          return Done(Refused(refusal.value)), found;
        }
        next := InFlags(Verdict(seen, events, r.body.fix.queued));
      case InFlags(v) =>
        next := InInsert(v, BackdatedFlags(cfg, now, r.body.fix));
      case InInsert(_, flags) =>
        var e := NewEntry(newId, r.user, r.body, flags);
        var inserted := InsertOne(e);
        next := if inserted then Done(Created(e)) else InReread;
      case InReread =>
        var prior := FindOne(ByClientId(r.user, r.body.clientId));
        found := prior;
        next := if prior.Some? then Done(Replayed(prior.value)) else Done(Refused(OpenEntryExists));
    }

    method StepClockOut(r: Request, newId: EntryId) returns (next: Pc, ghost found: Option<Entry>)
      requires Keyed() && r.body.ClockOut? && PcFits(r.body, r.pc) && !r.pc.Done?
      modifies this`docs
      ensures Keyed() && docs == StepDb(old(Here()), r, newId)
      ensures QueryOf(r).Some? ==> Answers(old(docs), QueryOf(r).value, found)
      ensures next == NextPc(cfg, old(Here()), events, r, found, newId)
    {
      found := None;
      match r.pc
      case OutLookup =>
        var prior := FindOne(ByCloseClientId(r.user, r.body.clientId));
        found := prior;
        next := if prior.Some? then Done(Replayed(prior.value)) else OutOpen;
      case OutOpen =>
        var e := FindOne(OpenEntry(r.user));
        found := e;
        if e.None? {
          return OutReread, found;
        }
        if r.body.fix.at <= e.value.clockIn.at {
          return Done(Refused(InvalidArgument)), found;
        }
        next := if e.value.employer.None? then OutJudge(e.value, e.value.clockIn.loc, events) else OutAnchor(e.value);
      case OutAnchor(e) =>
        if e.employer.value !in anchors {
          return Done(Refused(NotMember)), found;
        }
        next := OutJudge(e, anchors[e.employer.value], events);
      case OutJudge(e, anchor, seen) =>
        var refusal := ValidateClose(cfg, now, r.body.fix, Some(anchor));
        if refusal.Some? {
          return Done(Refused(refusal.value)), found;
        }
        next := OutFlags(e, Verdict(seen, events, r.body.fix.queued));
      case OutFlags(e, v) =>
        next := OutUpdate(e, v, BackdatedFlags(cfg, now, r.body.fix));
      case OutUpdate(e, _, flags) =>
        var cmd := Close(e.id, PointOf(r.body.fix), r.body.clientId, flags);
        var matched := UpdateOne(cmd);
        next := if matched then Done(ClosedNow(Updated(e, cmd))) else OutReread;
      case OutReread =>
        var prior := FindOne(ByCloseClientId(r.user, r.body.clientId));
        found := prior;
        next := if prior.Some? then Done(Replayed(prior.value)) else Done(Refused(NoOpenEntry));
    }

    method StepAssign(r: Request, newId: EntryId) returns (next: Pc, ghost found: Option<Entry>)
      requires Keyed() && r.body.AssignTo? && PcFits(r.body, r.pc) && !r.pc.Done?
      modifies this`docs
      ensures Keyed() && docs == StepDb(old(Here()), r, newId)
      ensures QueryOf(r).Some? ==> Answers(old(docs), QueryOf(r).value, found)
      ensures next == NextPc(cfg, old(Here()), events, r, found, newId)
    {
      found := None;
      match r.pc
      case AsRead =>
        var e := FindOne(ById(r.user, r.body.entry));
        found := e;
        if e.None? {
          return Done(Refused(NotFound)), found;
        }
        if e.value.employer.Some? || e.value.status == Open {
          return Done(Refused(InvalidArgument)), found;
        }
        next := AsMember(e.value);
      case AsMember(e) =>
        next := if (r.body.to, r.user) in members then AsAnchor(e) else Done(Refused(NotMember));
      case AsAnchor(e) =>
        if r.body.to !in anchors {
          return Done(Refused(NotMember)), found;
        }
        next := AsWrite(e, EntryWithin(cfg, e, anchors[r.body.to]), events);
      case AsWrite(e, verified, _) =>
        var cmd := Assign(e.id, e.user, r.body.to, verified);
        var matched := UpdateOne(cmd);
        next := if matched then Done(Assigned(Updated(e, cmd))) else Done(Refused(InvalidArgument));
    }

    method StepPings(r: Request, newId: EntryId) returns (next: Pc, ghost found: Option<Entry>)
      requires Keyed() && r.body.Pings? && PcFits(r.body, r.pc) && !r.pc.Done?
      modifies this`docs
      ensures Keyed() && docs == StepDb(old(Here()), r, newId)
      ensures QueryOf(r).Some? ==> Answers(old(docs), QueryOf(r).value, found)
      ensures next == NextPc(cfg, old(Here()), events, r, found, newId)
    {
      found := None;
      match r.pc
      case PgOpen =>
        var e := FindOne(OpenEntry(r.user));
        found := e;
        next := if e.None? || r.body.ats == [] then Done(Accepted) else PgTouch(e.value);
      case PgTouch(e) =>
        var _ := UpdateOne(TouchPing(e.id, e.user, Newest(r.body.ats)));
        next := if r.body.anomaly then PgFlag(e) else Done(Accepted);
      case PgFlag(e) =>
        var _ := UpdateOne(AddFlag(e.id, e.user, SpeedAnomaly));
        next := Done(Accepted);
    }

    method StepOf(r: Request, newId: EntryId) returns (next: Pc, ghost found: Option<Entry>)
      requires Keyed() && PcFits(r.body, r.pc) && !r.pc.Done?
      modifies this`docs
      ensures Keyed() && docs == StepDb(old(Here()), r, newId)
      ensures QueryOf(r).Some? ==> Answers(old(docs), QueryOf(r).value, found)
      ensures next == NextPc(cfg, old(Here()), events, r, found, newId) && PcFits(r.body, next)
    {
      ghost var before := Here();
      match r.body {
        case ClockIn(_, _, _) => next, found := StepClockIn(r, newId);
        case ClockOut(_, _) => next, found := StepClockOut(r, newId);
        case AssignTo(_, _) => next, found := StepAssign(r, newId);
        case Pings(_, _) => next, found := StepPings(r, newId);
      }
      NextFits(cfg, before, events, r, found, newId);
    }

    method Take(rid: RequestId, newId: EntryId) returns (ghost found: Option<Entry>)
      requires Tracked() && rid in reqs && !reqs[rid].pc.Done? && newId !in docs
      modifies this`docs, this`reqs, this`events, this`hist, this`evidence
      ensures Tracked() && Enabled(old(State()), Step(rid, found, newId))
      ensures State() == Apply(cfg, old(State()), Step(rid, found, newId))
    {
      var r := reqs[rid];
      assert PcFits(reqs[rid].body, reqs[rid].pc);
      ghost var was := State();
      var next: Pc;
      next, found := StepOf(r, newId);
      reqs := reqs[rid := r.(pc := next)];
      hist, events := hist + [Here()], events + 1;
      evidence := Apply(cfg, was, Step(rid, found, newId)).evidence;
    }

    /** One step of request rid: exactly the world's Step event. An answer it ends with is true and has its grounds. */
    method Advance(rid: RequestId, newId: EntryId) returns (ghost found: Option<Entry>)
      requires Valid() && rid in reqs && !reqs[rid].pc.Done? && newId !in docs
      modifies this
      ensures Valid() && Enabled(old(State()), Step(rid, found, newId))
      ensures State() == Apply(cfg, old(State()), Step(rid, found, newId))
      ensures rid in reqs && AnswerHolds(cfg, hist, reqs[rid])
    {
      ghost var was := State();
      found := Take(rid, newId);
      Happened(cfg, first, trace, was, Step(rid, found, newId));
      trace := trace + [Step(rid, found, newId)];
      AnswerStands(cfg, first, trace, State(), rid);
    }

    method Submit(rid: RequestId, user: UserId, body: Body)
      requires Valid() && rid !in reqs
      modifies this
      ensures Valid() && State() == Apply(cfg, old(State()), Event.Submit(rid, user, body))
    {
      Happened(cfg, first, trace, State(), Event.Submit(rid, user, body));
      reqs := reqs[rid := Request(user, Arrived(body), FirstPc(body), events)];
      hist, events := hist + [Here()], events + 1;
      trace := trace + [Event.Submit(rid, user, body)];
    }

    /** A command failed, or the request was cut short: nothing more of it takes effect. */
    method Fail(rid: RequestId)
      requires Valid() && rid in reqs && !reqs[rid].pc.Done?
      modifies this
      ensures Valid() && State() == Apply(cfg, old(State()), Event.Fail(rid)) && docs == old(docs)
    {
      Happened(cfg, first, trace, State(), Event.Fail(rid));
      reqs := reqs[rid := reqs[rid].(pc := Done(ServerError))];
      hist, events := hist + [Here()], events + 1;
      trace := trace + [Event.Fail(rid)];
    }

    method Tick(t: Time)
      requires Valid() && now <= t
      modifies this
      ensures Valid() && State() == Apply(cfg, old(State()), Event.Tick(t))
    {
      Happened(cfg, first, trace, State(), Event.Tick(t));
      now := t;
      hist, events := hist + [Here()], events + 1;
      trace := trace + [Event.Tick(t)];
    }

    method SetAnchors(to: map<EmployerId, Location>)
      requires Valid()
      modifies this
      ensures Valid() && State() == Apply(cfg, old(State()), Event.SetAnchors(to))
    {
      Happened(cfg, first, trace, State(), Event.SetAnchors(to));
      anchors := to;
      hist, events := hist + [Here()], events + 1;
      trace := trace + [Event.SetAnchors(to)];
    }

    method SetMembers(to: set<(EmployerId, UserId)>)
      requires Valid()
      modifies this
      ensures Valid() && State() == Apply(cfg, old(State()), Event.SetMembers(to))
    {
      Happened(cfg, first, trace, State(), Event.SetMembers(to));
      members := to;
      hist, events := hist + [Here()], events + 1;
      trace := trace + [Event.SetMembers(to)];
    }
  }

  /** The world is that of a run from an empty collection, and keeps what every run keeps. */
  ghost predicate Reached(cfg: Config, first: World, trace: seq<Event>, w: World) {
    Initial(first) && Runs(cfg, first, trace, w) && Inv(w) && Sound(cfg, w)
  }

  /** One more event keeps the run a run and the world sound. */
  lemma Happened(cfg: Config, first: World, trace: seq<Event>, w: World, ev: Event)
    requires ValidConfig(cfg) && Reached(cfg, first, trace, w) && Enabled(w, ev)
    ensures Reached(cfg, first, trace + [ev], Apply(cfg, w, ev))
  {
    Closable.Then(cfg, first, trace, w, ev);
    EventKeepsSound(cfg, w, ev);
  }

  lemma AnswerStands(cfg: Config, first: World, trace: seq<Event>, w: World, rid: RequestId)
    requires ValidConfig(cfg) && Reached(cfg, first, trace, w) && rid in w.reqs
    ensures AnswerHolds(cfg, w.hist, w.reqs[rid])
  {
    if w.reqs[rid].pc.Done? {
      EveryAnswerIsTrue(cfg, first, trace, w, rid);
      if w.reqs[rid].pc.answer.Refused? {
        RefusalsHaveGrounds.EveryRefusalHasGrounds(cfg, first, trace, w, rid);
      }
    }
  }

  /** An answer given was true inside the request, and a refusal had its grounds there. */
  ghost predicate AnswerHolds(cfg: Config, hist: seq<Instant>, r: Request) {
    r.pc.Done? ==>
      && AnswerTrue(hist, r, r.pc.answer)
      && (r.pc.answer.Refused? ==> RefusalsHaveGrounds.Grounds(cfg, hist, r, r.pc.answer.code))
  }

  predicate Clashes(d: Entry, e: Entry) {
    d.user == e.user && (d.clientId == e.clientId || (d.status == Open && e.status == Open))
  }

  /** A step never leaves a request where its body has no business. */
  lemma NextFits(cfg: Config, i: Instant, here: nat, r: Request, found: Option<Entry>, newId: EntryId)
    requires PcFits(r.body, r.pc)
    ensures PcFits(r.body, NextPc(cfg, i, here, r, found, newId))
  {
  }
}
