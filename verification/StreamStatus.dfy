/** Reading the status of one stream: the loops over its rows. */
module StreamStatus {
  import opened Wrappers
  import opened Projection
  import opened Ordering
  import opened Receiver

  /** `ids` are the rows of the stream, ORDER BY sequence. */
  ghost predicate InSequence(db: Db, agg: Aggregate, ids: seq<Id>) {
    && (forall i | 0 <= i < |ids| :: ids[i] in db.inbox && db.inbox[ids[i]].envelope.aggregate == agg)
    && (forall id | id in db.inbox && db.inbox[id].envelope.aggregate == agg :: id in ids)
    && (forall i, j | 0 <= i < j < |ids| :: db.inbox[ids[i]].envelope.sequence < db.inbox[ids[j]].envelope.sequence)
  }

  predicate Precedes(db: Db, a: Id, b: Id) {
    a in db.inbox && b in db.inbox && db.inbox[a].envelope.sequence < db.inbox[b].envelope.sequence
  }

  lemma SequenceIsOrder(db: Db, agg: Aggregate)
    requires Constraints(db)
    ensures StrictOrderOn(StreamRows(db, agg), (a, b) => Precedes(db, a, b))
  {}

  method SelectRows(db: Db, agg: Aggregate) returns (ids: seq<Id>)
    requires Constraints(db)
    ensures InSequence(db, agg, ids)
  {
    SequenceIsOrder(db, agg);
    ids := Listed(StreamRows(db, agg), (a, b) => Precedes(db, a, b));
    forall i | 0 <= i < |ids| ensures ids[i] in StreamRows(db, agg) {
      assert ids[i] in ids;
    }
    assert forall i, j | 0 <= i < j < |ids| :: Precedes(db, ids[i], ids[j]);
  }

  method Watermarks(db: Db, agg: Aggregate, ids: seq<Id>) returns (received: nat, applied: nat)
    requires InSequence(db, agg, ids)
    ensures ReceivedTo(db, agg, received) && AppliedTo(db, agg, applied)
  {
    received, applied := 0, 0;
    for i := 0 to |ids|
      invariant forall n | 1 <= n <= received :: Has(db, agg, n)
      invariant forall n | 1 <= n <= applied :: HasApplied(db, agg, n)
      invariant forall j | 0 <= j < i :: db.inbox[ids[j]].envelope.sequence != received + 1
      invariant forall j | 0 <= j < i :: db.inbox[ids[j]].envelope.sequence == applied + 1 ==> db.inbox[ids[j]].appliedAt.None?
    {
      var row := db.inbox[ids[i]];
      if row.envelope.sequence == received + 1 {
        received := row.envelope.sequence;
      }
      if row.envelope.sequence == applied + 1 && row.appliedAt.Some? {
        applied := row.envelope.sequence;
      }
    }
  }

  method LatestReceived(db: Db, agg: Aggregate, ids: seq<Id>) returns (received: Option<int>)
    requires InSequence(db, agg, ids)
    ensures LatestReceipt(db, agg, received)
  {
    received := None;
    for i := 0 to |ids|
      invariant received.None? <==> i == 0
      invariant received.Some? ==>
        && (exists j | 0 <= j < i :: db.inbox[ids[j]].receivedAt == received.value)
        && (forall j | 0 <= j < i :: db.inbox[ids[j]].receivedAt <= received.value)
    {
      var row := db.inbox[ids[i]];
      if received.None? || received.value < row.receivedAt {
        received := Some(row.receivedAt);
      }
    }
    if received.None? {
      assert StreamRows(db, agg) == {};
    }
  }

  method LatestApplied(db: Db, agg: Aggregate, ids: seq<Id>) returns (applied: Option<int>)
    requires InSequence(db, agg, ids)
    ensures LatestApplication(db, agg, applied)
  {
    applied := None;
    for i := 0 to |ids|
      invariant applied.None? ==> forall j | 0 <= j < i :: db.inbox[ids[j]].appliedAt.None?
      invariant applied.Some? ==>
        && (exists j | 0 <= j < i :: db.inbox[ids[j]].appliedAt == applied)
        && (forall j | 0 <= j < i && db.inbox[ids[j]].appliedAt.Some? :: db.inbox[ids[j]].appliedAt.value <= applied.value)
    {
      var row := db.inbox[ids[i]];
      if row.appliedAt.Some? && (applied.None? || applied.value < row.appliedAt.value) {
        applied := row.appliedAt;
      }
    }
  }

  method LatestTimes(db: Db, agg: Aggregate, ids: seq<Id>) returns (received: Option<int>, applied: Option<int>)
    requires InSequence(db, agg, ids)
    ensures LatestReceipt(db, agg, received) && LatestApplication(db, agg, applied)
  {
    received := LatestReceived(db, agg, ids);
    applied := LatestApplied(db, agg, ids);
  }

  /** The first pending row, in sequence order, that carries a problem. */
  method FirstProblem(db: Db, agg: Aggregate, ids: seq<Id>) returns (problem: Option<Problem>)
    requires InSequence(db, agg, ids)
    ensures problem.None? ==> forall id | id in PendingRows(db, agg) :: db.inbox[id].problem.None?
    ensures problem.Some? ==> EarliestProblem(db, agg, problem.value)
  {
    for i := 0 to |ids|
      invariant forall j | 0 <= j < i && db.inbox[ids[j]].appliedAt.None? :: db.inbox[ids[j]].problem.None?
    {
      var row := db.inbox[ids[i]];
      if row.appliedAt.None? && row.problem.Some? {
        assert ids[i] in PendingRows(db, agg);
        return row.problem;
      }
    }
    return None;
  }

  lemma LastIsHighest(db: Db, agg: Aggregate, ids: seq<Id>)
    requires InSequence(db, agg, ids)
    ensures HighestIs(db, agg, if |ids| == 0 then 0 else db.inbox[ids[|ids| - 1]].envelope.sequence)
  {
    if |ids| > 0 {
      assert ids[|ids| - 1] in StreamRows(db, agg);
      assert Has(db, agg, db.inbox[ids[|ids| - 1]].envelope.sequence);
    } else {
      assert StreamRows(db, agg) == {};
    }
  }

  method ReadStatus(db: Db, agg: Aggregate) returns (c: Checkpoint)
    requires Constraints(db) && agg in db.streams
    ensures Describes(db, agg, c)
  {
    var ids := SelectRows(db, agg);
    var received, applied := Watermarks(db, agg, ids);
    var receivedAt, appliedAt := LatestTimes(db, agg, ids);
    LastIsHighest(db, agg, ids);
    var high := if |ids| == 0 then 0 else db.inbox[ids[|ids| - 1]].envelope.sequence;
    var pending := PendingRows(db, agg);
    var cursor, snapshot := db.streams[agg].cursor, db.streams[agg].snapshot;
    var problem := FirstProblem(db, agg, ids);
    var error: Option<StatusError>;
    if problem.Some? {
      error := Some(RowProblem(problem.value));
    } else if high > cursor && high > snapshot && !exists id | id in pending :: db.inbox[id].envelope.sequence == cursor + 1 {
      error := Some(SequenceGap);
    } else if applied < snapshot {
      error := Some(HistoryUnavailable);
    } else {
      error := None;
    }
    return Checkpoint(agg, db.revision, received, high, applied, cursor, snapshot, applied >= snapshot,
                      receivedAt, appliedAt, |pending|, error);
  }
}
