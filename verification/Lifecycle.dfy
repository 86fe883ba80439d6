/**
 * What every interleaved run keeps: both unique indexes, the one-way life of a shift, and the
 * truth of every answer at some instant between the request's arrival and its reply.
 */
module Lifecycle {
  import opened Entries
  import opened Requests

  ghost predicate InstantStep(a: Instant, b: Instant) {
    DbStep(a.db, b.db) && a.now <= b.now
  }

  ghost predicate StepAt(hist: seq<Instant>, k: nat)
    requires k + 1 < |hist|
  {
    InstantStep(hist[k], hist[k + 1])
  }

  ghost predicate GoodHist(hist: seq<Instant>) {
    && |hist| > 0 && GoodDb(hist[0].db)
    && forall k: nat {:trigger StepAt(hist, k)} :: k + 1 < |hist| ==> StepAt(hist, k)
  }

  lemma EvolvesTransitive(a: Entry, b: Entry, c: Entry)
    requires Evolves(a, b) && Evolves(b, c)
    ensures Evolves(a, c)
  {
  }

  lemma {:induction false} GoodAt(hist: seq<Instant>, k: nat)
    requires GoodHist(hist) && k < |hist|
    ensures GoodDb(hist[k].db)
  {
    if k > 0 {
      assert StepAt(hist, k - 1);
    }
  }

  /** A document never disappears, and only ever evolves; the clock never runs backwards. */
  lemma {:induction false} History(hist: seq<Instant>, i: nat, j: nat)
    requires GoodHist(hist) && i <= j < |hist|
    ensures forall id :: id in hist[i].db ==> id in hist[j].db && Evolves(hist[i].db[id], hist[j].db[id])
    ensures hist[i].now <= hist[j].now
  {
    if i < j {
      History(hist, i, j - 1);
      assert StepAt(hist, j - 1);
      forall id | id in hist[i].db
        ensures id in hist[j].db && Evolves(hist[i].db[id], hist[j].db[id])
      {
        EvolvesTransitive(hist[i].db[id], hist[j - 1].db[id], hist[j].db[id]);
      }
    } else {
      GoodAt(hist, i);
    }
  }

  /** A clock-in id and a close id, once recorded, are found by every later lookup. */
  lemma IdsArePermanent(hist: seq<Instant>, i: nat, j: nat, q: Query)
    requires GoodHist(hist) && i <= j < |hist| && (q.ByClientId? || q.ByCloseClientId?)
    ensures Holds(hist[i].db, q) ==> Holds(hist[j].db, q)
  {
    History(hist, i, j);
    if Holds(hist[i].db, q) {
      var id :| id in hist[i].db && Matches(q, hist[i].db[id]);
      assert Matches(q, hist[j].db[id]);
    }
  }

  /** The command that closes a shift leaves its user with nothing open. */
  lemma CloseLeavesNothingOpen(a: Db, b: Db, id: EntryId)
    requires DbStep(a, b) && id in a && a[id].status == Open && b[id].status == Closed
    ensures !Holds(b, OpenEntry(a[id].user))
  {
    forall o | o in b
      ensures !Matches(OpenEntry(a[id].user), b[o])
    {
      if o != id {
        assert a[id] != b[id];
        assert o in a && a[o] == b[o];
        assert BothOpen(a, o, id) <==> a[o].user == a[id].user && a[o].status == Open;
      }
    }
  }

  /**
   * A shift open at one instant and closed at a later one leaves an instant in between with
   * nothing open at all: its close and the next clock-in are two commands.
   */
  lemma {:induction false} GapBetweenShifts(hist: seq<Instant>, i: nat, j: nat, id: EntryId) returns (k: nat)
    requires GoodHist(hist) && i <= j < |hist|
    requires id in hist[i].db && hist[i].db[id].status == Open
    requires id in hist[j].db && hist[j].db[id].status == Closed
    ensures i < k <= j && !Holds(hist[k].db, OpenEntry(hist[i].db[id].user))
  {
    assert i < j;
    History(hist, i, j - 1);
    if hist[j - 1].db[id].status == Closed {
      k := GapBetweenShifts(hist, i, j - 1, id);
    } else {
      k := j;
      assert StepAt(hist, j - 1);
      CloseLeavesNothingOpen(hist[j - 1].db, hist[j].db, id);
    }
  }
}
