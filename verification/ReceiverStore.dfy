/** The receiver as an object: every method is one transaction under the scope lock. */
module ReceiverStore {
  import opened Wrappers
  import opened Projection
  import opened Ordering
  import opened Receiver
  import opened ReceiverRules
  import opened StreamStatus

  /** One row of the rest of the page, and what that leaves of the page. */
  lemma RowsUnfold(db: Db, rows: seq<Id>, k: nat, rejects: set<Id>, now: int)
    requires k < |rows| && forall id | id in rows :: id in db.inbox && db.inbox[id].envelope.aggregate in db.streams
    ensures var (after, result) := ApplyRow(db, rows[k], rows[k] in rejects, now);
            && SameRows(db.inbox, after.inbox) && db.streams.Keys == after.streams.Keys
            && ApplyRows(db, rows[k..], rejects, now) ==
               if result.Skipped? then ApplyRows(after, rows[k + 1..], rejects, now) else (after, result.Applied?)
  {
    assert rows[k..][0] == rows[k] && rows[k..][1..] == rows[k + 1..];
  }

  class ReceiverStore {
    var revision: nat
    var streams: map<Aggregate, Stream>
    var inbox: map<Id, Row>
    var transitions: map<Id, Event>
    var mismatches: seq<Mismatch>
    var adoptions: seq<Snapshot>

    function Data(): Db
      reads this
    {
      Db(revision, streams, inbox, transitions, mismatches, adoptions)
    }

    ghost predicate Valid()
      reads this
    {
      Constraints(Data())
    }

    constructor ()
      ensures Valid() && Data() == EmptyDb
    {
      revision, streams, inbox, transitions, mismatches, adoptions := 1, map[], map[], map[], [], [];
    }

    /** The writes for one admitted event. */
    method StoreRow(e: Event, wire: Option<Wire>, now: int) returns (result: StoreResult)
      modifies this
      ensures (Data(), result) == Store(old(Data()), e, wire, now)
    {
      var known := e.eventId in inbox;
      var collides := Collides(Data(), e);
      if known && Contradicts(inbox[e.eventId], e, wire) {
        result := Refused(PayloadMismatch);
      } else if collides {
        result := Refused(SequenceCollision);
      } else {
        result := if known then Duplicate else Stored;
      }
      if result.Refused? {
        mismatches := mismatches + [Mismatch(e.eventId, if wire.Some? then Bytes(wire.value) else Canonical(e), result.reason)];
        return;
      }
      if known {
        var row := inbox[e.eventId];
        if wire.Some? && row.wire.None? {
          inbox := inbox[e.eventId := row.(wire := wire)];
        }
        assert inbox[e.eventId := inbox[e.eventId]] == inbox;
        return;
      }
      if e.aggregate !in streams {
        streams := streams[e.aggregate := Stream(0, 0, None)];
      }
      inbox := inbox[e.eventId := Row(e, wire, now, None, None, 0)];
      revision := revision + 1;
    }

    /** Stores one admitted event; the signature, schema and identity checks precede the call. */
    method StoreEvent(e: Event, wire: Option<Wire>, now: int) returns (result: StoreResult)
      requires Valid() && e.sequence > 0
      modifies this
      ensures Valid()
      ensures (Data(), result) == Store(old(Data()), e, wire, now)
    {
      StoreKeepsConstraints(Data(), e, wire, now);
      result := StoreRow(e, wire, now);
    }

    /** Looks up the outcome of every requested item in turn. */
    method CheckDependencies(e: Event) returns (met: bool)
      ensures met == Dependencies(Data(), e)
    {
      if !e.body.Requested? {
        return true;
      }
      var items := e.body.request.items;
      for i := 0 to |items|
        invariant forall j | 0 <= j < i :: OutcomeKnown(Data(), items[j])
      {
        var found := OutcomeKnown(Data(), items[i]);
        if !found {
          return false;
        }
      }
      return true;
    }

    /** The writes for one row. Whatever fails, the savepoint takes every write back. */
    method TryApply(id: Id, rejected: bool, now: int) returns (problem: Option<Problem>)
      requires id in inbox && inbox[id].envelope.aggregate in streams
      modifies this
      ensures problem.None? ==> Attempt(old(Data()), id, rejected, now) == Ok(Data())
      ensures problem.Some? ==> Attempt(old(Data()), id, rejected, now) == Err(problem.value) && Data() == old(Data())
    {
      var savepoint := Data();
      var row, e := inbox[id], inbox[id].envelope;
      var stream := streams[e.aggregate];
      if e.sequence > stream.snapshot {
        var next := ProjectEvent(if stream.state.Some? then stream.state.value else EmptyProjection, e);
        if next.Err? {
          return Some(if next.error == LimitExceeded then ProjectionLimit else ProjectionFailed);
        }
        streams := streams[e.aggregate := stream.(state := Some(next.value), cursor := e.sequence)];
      }
      if rejected || id in transitions {
        streams := savepoint.streams;
        return Some(ProjectionFailed);
      }
      transitions := transitions[id := e];
      inbox := inbox[id := row.(appliedAt := Some(now), problem := None, attempts := row.attempts + 1)];
      revision := revision + 1;
      return None;
    }

    /** One row of the worker's page; a failed attempt is remembered on the row. */
    method ApplyOne(id: Id, rejected: bool, now: int) returns (result: RowResult)
      requires id in inbox && inbox[id].envelope.aggregate in streams
      modifies this
      ensures (Data(), result) == ApplyRow(old(Data()), id, rejected, now)
    {
      var e := inbox[id].envelope;
      var covered := e.sequence <= streams[e.aggregate].snapshot;
      if !covered {
        var met := CheckDependencies(e);
        if !met {
          inbox := inbox[id := inbox[id].(problem := Some(DependencyMissing), attempts := inbox[id].attempts + 1)];
          revision := revision + 1;
          return Skipped;
        }
      }
      var problem := TryApply(id, rejected, now);
      if problem.None? {
        return Applied;
      }
      inbox := inbox[id := inbox[id].(problem := problem, attempts := inbox[id].attempts + 1)];
      revision := revision + 1;
      return Unsuccessful;
    }

    /** The page in turn: skips rows whose dependency is missing and stops at the first other row. */
    method ApplyPage(rows: seq<Id>, rejects: set<Id>, now: int) returns (applied: bool)
      requires forall id | id in rows :: id in inbox && inbox[id].envelope.aggregate in streams
      modifies this
      ensures (Data(), applied) == ApplyRows(old(Data()), rows, rejects, now)
    {
      ghost var start := Data();
      var k := 0;
      while k < |rows|
        invariant 0 <= k <= |rows|
        invariant forall id | id in rows :: id in inbox && inbox[id].envelope.aggregate in streams
        invariant ApplyRows(start, rows, rejects, now) == ApplyRows(Data(), rows[k..], rejects, now)
      {
        ghost var before := Data();
        RowsUnfold(before, rows, k, rejects, now);
        var result := ApplyOne(rows[k], rows[k] in rejects, now);
        if !result.Skipped? {
          return result.Applied?;
        }
        k := k + 1;
      }
      return false;
    }

    /** Applies at most one event. `rejects` names the events whose writes fail for a reason
        outside the mapping. */
    method ApplyInboxOnce(rejects: set<Id>, now: int) returns (applied: bool)
      requires Valid()
      modifies this
      ensures Valid()
      ensures (Data(), applied) == ApplyInbox(old(Data()), rejects, now)
      ensures applied ==> exists id :: FirstInLine(old(Data()), id) && id in inbox && inbox[id].appliedAt == Some(now)
    {
      if ApplyInbox(Data(), rejects, now).1 {
        ghost var first := TakenInIsFirst(Data(), rejects, now);
      }
      var rows := Page(Data());
      RowsKeepConstraints(Data(), rows, rejects, now);
      applied := ApplyPage(rows, rejects, now);
    }

    method OpenStream(agg: Aggregate)
      requires Valid()
      modifies this
      ensures Valid() && Data() == EnsureStream(old(Data()), agg)
    {
      SameRowsKeepConstraints(Data(), EnsureStream(Data(), agg));
      if agg !in streams {
        streams := streams[agg := Stream(0, 0, None)];
      }
    }

    method AdoptSnapshot(agg: Aggregate, s: Snapshot) returns (result: AdoptResult)
      requires Valid()
      modifies this
      ensures Valid()
      ensures (Data(), result) == Adopt(old(Data()), agg, s)
    {
      AdoptKeepsConstraints(Data(), agg, s);
      var fits := SnapshotFits(agg, s);
      if !fits {
        return InvalidSnapshot;
      }
      if agg !in streams {
        streams := streams[agg := Stream(0, 0, None)];
      }
      if streams[agg].cursor >= s.throughSequence {
        return NotNewer;
      }
      streams := streams[agg := Stream(s.throughSequence, s.throughSequence, Some(s.state))];
      adoptions := adoptions + [s];
      revision := revision + 1;
      return Adopted;
    }

    /** A status read; `None` is the refusal of an unknown stream. */
    method ConsumerStatus(agg: Aggregate) returns (status: Option<Checkpoint>)
      requires Valid()
      ensures status.None? <==> agg !in streams
      ensures status.Some? ==> Describes(Data(), agg, status.value)
    {
      if agg !in streams {
        return None;
      }
      var c := ReadStatus(Data(), agg);
      return Some(c);
    }
  }
}
