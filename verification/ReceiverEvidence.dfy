/** What the receiver never forgets, whatever it is sent. */
module ReceiverEvidence {
  import opened Wrappers
  import opened Projection
  import opened Receiver
  import opened ReceiverRefinement
  import opened CheckpointReports

  /** The row is the one that was stored; what a worker noted about it only grows. */
  ghost predicate SameEvidence(before: Row, after: Row) {
    && after.envelope == before.envelope && after.receivedAt == before.receivedAt
    && (before.wire.Some? ==> after.wire == before.wire)
    && (before.appliedAt.Some? ==> after.appliedAt == before.appliedAt)
    && before.attempts <= after.attempts
  }

  ghost predicate RowsKept(before: Db, after: Db) {
    forall id | id in before.inbox :: id in after.inbox && SameEvidence(before.inbox[id], after.inbox[id])
  }

  ghost predicate HistoryKept(before: Db, after: Db) {
    && (forall id | id in before.transitions :: id in after.transitions && after.transitions[id] == before.transitions[id])
    && before.mismatches <= after.mismatches && before.adoptions <= after.adoptions
  }

  ghost predicate StreamsKept(before: Db, after: Db) {
    forall agg | agg in before.streams ::
      && agg in after.streams && before.streams[agg].cursor <= after.streams[agg].cursor
      && before.streams[agg].snapshot <= after.streams[agg].snapshot
  }

  ghost predicate Keeps(before: Db, after: Db) {
    RowsKept(before, after) && HistoryKept(before, after) && StreamsKept(before, after) && before.revision <= after.revision
  }

  lemma KeepsOn(a: Db, b: Db, c: Db)
    requires Keeps(a, b) && Keeps(b, c)
    ensures Keeps(a, c)
  {
    forall id | id in a.inbox ensures id in c.inbox && SameEvidence(a.inbox[id], c.inbox[id]) {
      assert SameEvidence(a.inbox[id], b.inbox[id]);
    }
  }

  lemma RowKeeps(db: Db, id: Id, rejected: bool, now: int)
    requires Eligible(db, id)
    ensures Keeps(db, ApplyRow(db, id, rejected, now).0)
  {}

  lemma {:induction false} RowsKeep(db: Db, ids: seq<Id>, rejects: set<Id>, now: int)
    requires forall id | id in ids :: Eligible(db, id)
    ensures forall id | id in ids :: id in db.inbox && db.inbox[id].envelope.aggregate in db.streams
    ensures Keeps(db, ApplyRows(db, ids, rejects, now).0)
    decreases |ids|
  {
    if ids != [] {
      assert ids[0] in ids;
      var (mid, result) := ApplyRow(db, ids[0], ids[0] in rejects, now);
      RowKeeps(db, ids[0], ids[0] in rejects, now);
      if result.Skipped? {
        RowShape(db, ids[0], ids[0] in rejects, now);
        SameHistoryKeepsReady(db, mid);
        RowsKeep(mid, ids[1..], rejects, now);
        KeepsOn(db, mid, ApplyRows(mid, ids[1..], rejects, now).0);
      }
    }
  }

  lemma InsertingKeeps(db: Db, e: Event, wire: Option<Wire>, now: int)
    requires e.eventId !in db.inbox
    ensures Keeps(db, Inserted(EnsureStream(db, e.aggregate), e, wire, now))
  {
  }

  /** A repetition may only add the bytes of a row that has none. */
  lemma RepeatingKeeps(db: Db, e: Event, wire: Option<Wire>, now: int)
    requires Store(db, e, wire, now).1.Duplicate?
    ensures Keeps(db, Store(db, e, wire, now).0)
  {
  }

  lemma StoringKeeps(db: Db, e: Event, wire: Option<Wire>, now: int)
    ensures Keeps(db, Store(db, e, wire, now).0)
  {
    StoreShape(db, e, wire, now);
    var result := Store(db, e, wire, now).1;
    if result.Stored? {
      InsertingKeeps(db, e, wire, now);
    } else if result.Duplicate? {
      RepeatingKeeps(db, e, wire, now);
    }
  }

  lemma AdoptingKeeps(db: Db, agg: Aggregate, s: Snapshot)
    requires Constraints(db)
    ensures Keeps(db, Adopt(db, agg, s).0)
  {}

  lemma CallKeeps(db: Db, rejects: set<Id>, now: int)
    ensures Keeps(db, ApplyInbox(db, rejects, now).0)
  {
    RowsKeep(db, Page(db), rejects, now);
  }

  lemma StepKeeps(db: Db, step: Step)
    requires Constraints(db)
    ensures Keeps(db, Next(db, step))
  {
    match step
    case StoreStep(e, wire, now) => StoringKeeps(db, e, wire, now);
    case ApplyStep(rejects, now) => CallKeeps(db, rejects, now);
    case AdoptStep(agg, s) => AdoptingKeeps(db, agg, s);
    case OpenStep(_) =>
  }

  /** Whatever arrives, honest or not, no run changes the content of a stored event, the bytes it came
      in, an applied mark or a transition, and no cursor goes back. */
  lemma {:induction false} NothingIsForgotten(db: Db, steps: seq<Step>)
    requires Constraints(db) && forall i | 0 <= i < |steps| && steps[i].StoreStep? :: steps[i].event.sequence > 0
    ensures Keeps(db, Run(db, steps)) && Constraints(Run(db, steps))
    decreases |steps|
  {
    if steps != [] {
      var before, step := Run(db, steps[..|steps| - 1]), steps[|steps| - 1];
      NothingIsForgotten(db, steps[..|steps| - 1]);
      StepKeeps(before, step);
      StepKeepsConstraints(before, step);
      KeepsOn(db, before, Next(before, step));
    }
  }
}
