/** When the order in which the worker applies events does not matter. */
module ReceiverConfluence {
  import opened Wrappers
  import opened Projection
  import opened Receiver
  import opened ReceiverRefinement
  import opened ReceiverFairness

  function After(db: Db, calls: seq<Call>): Db
    decreases |calls|
  {
    if calls == [] then db else After(ApplyInbox(db, calls[0].rejects, calls[0].now).0, calls[1..])
  }

  lemma AfterFirst(db: Db, call: Call, rest: seq<Call>)
    ensures After(db, [call] + rest) == After(ApplyInbox(db, call.rejects, call.now).0, rest)
  {
    assert ([call] + rest)[1..] == rest;
  }

  ghost predicate Quiescent(db: Db) {
    forall id :: !Ready(db, id)
  }

  // ----- The schema of the projected state -----

  /** `id` can be applied now and the schema takes the state it leads to; nothing is projected for
      an event that the snapshot covers. */
  predicate Acceptable(db: Db, id: Id, accepts: State -> bool) {
    Ready(db, id) && (Covered(db, db.inbox[id].envelope) || accepts(Projected(db, db.inbox[id].envelope).value))
  }

  /** Nothing is left but what the schema refuses. */
  ghost predicate Finished(db: Db, accepts: State -> bool) {
    forall id :: !Acceptable(db, id, accepts)
  }

  /** Every call refuses at least the events that the schema refuses then. */
  ghost predicate Obeys(db: Db, calls: seq<Call>, accepts: State -> bool)
    decreases |calls|
  {
    calls != [] ==>
      && (forall id | Ready(db, id) && !Acceptable(db, id, accepts) :: id in calls[0].rejects)
      && Obeys(ApplyInbox(db, calls[0].rejects, calls[0].now).0, calls[1..], accepts)
  }

  // ----- Dependencies, once met, stay met -----

  predicate Carries(e: Event, outcomeId: Id) {
    EventOutcome(e).Some? && EventOutcome(e).value.outcomeId == outcomeId
  }

  predicate Recorded(transitions: map<Id, Event>, outcomeId: Id) {
    exists id | id in transitions :: Carries(transitions[id], outcomeId)
  }

  /** The row is applied, or the worker applies it as soon as it comes to it. */
  predicate Settled(db: Db, id: Id)
    requires id in db.inbox
  {
    db.inbox[id].appliedAt.Some? ||
    (db.inbox[id].envelope.aggregate in db.streams && Covered(db, db.inbox[id].envelope))
  }

  /** A received event that is applied or covered by the snapshot carries the outcome. */
  predicate Backed(db: Db, outcomeId: Id) {
    exists id | id in db.inbox :: Settled(db, id) && Carries(db.inbox[id].envelope, outcomeId)
  }

  /** Every outcome that the state of a task stream holds also came in as an event. */
  ghost predicate Grounded(db: Db) {
    forall agg, o | agg in db.streams && agg.kind.Task? && db.streams[agg].state.Some? && o in db.streams[agg].state.value.outcomes ::
      Backed(db, o.outcomeId)
  }

  /** Rows stay, applied rows stay applied, and no snapshot mark moves. */
  ghost predicate Continues(before: Db, after: Db) {
    && (forall id | id in before.inbox ::
          && id in after.inbox && after.inbox[id].envelope == before.inbox[id].envelope
          && (before.inbox[id].appliedAt.Some? ==> after.inbox[id].appliedAt.Some?))
    && (forall agg | agg in before.streams ::
          agg in after.streams && after.streams[agg].snapshot == before.streams[agg].snapshot)
  }

  lemma BackedStays(before: Db, after: Db, outcomeId: Id)
    requires Continues(before, after) && Backed(before, outcomeId)
    ensures Backed(after, outcomeId)
  {
    var id :| id in before.inbox && Settled(before, id) && Carries(before.inbox[id].envelope, outcomeId);
    assert id in after.inbox && Settled(after, id);
  }

  lemma FiringKeepsGrounded(before: Db, after: Db, id: Id)
    requires Grounded(before) && Ready(before, id) && Fired(before, after, id)
    ensures Grounded(after)
  {
    var e := before.inbox[id].envelope;
    forall agg, o | agg in after.streams && agg.kind.Task? && after.streams[agg].state.Some? && o in after.streams[agg].state.value.outcomes
      ensures Backed(after, o.outcomeId)
    {
      if agg in before.streams && before.streams[agg].state.Some? && o in before.streams[agg].state.value.outcomes {
        BackedStays(before, after, o.outcomeId);
      } else {
        assert agg == e.aggregate && !Covered(before, e);
        OutcomesComeFromEvents(StateOf(before.streams[agg]), e);
        assert Settled(after, id) && Carries(after.inbox[id].envelope, o.outcomeId);
      }
    }
  }

  lemma SameStatesKeepGrounded(before: Db, after: Db)
    requires Grounded(before) && Continues(before, after)
    requires forall agg | agg in after.streams ::
      if agg in before.streams then after.streams[agg] == before.streams[agg] else after.streams[agg].state.None?
    ensures Grounded(after)
  {
    forall agg, o | agg in after.streams && agg.kind.Task? && after.streams[agg].state.Some? && o in after.streams[agg].state.value.outcomes
      ensures Backed(after, o.outcomeId)
    {
      BackedStays(before, after, o.outcomeId);
    }
  }

  lemma CallKeepsGrounded(db: Db, rejects: set<Id>, now: int)
    requires Grounded(db)
    ensures Grounded(ApplyInbox(db, rejects, now).0)
  {
    ApplyShape(db, rejects, now);
    var (after, applied) := ApplyInbox(db, rejects, now);
    if applied {
      var id :| id !in rejects && Ready(db, id) && Fired(db, after, id);
      FiringKeepsGrounded(db, after, id);
    } else {
      SameStatesKeepGrounded(db, after);
    }
  }

  lemma StoringKeepsGrounded(db: Db, e: Event, wire: Option<Wire>, now: int)
    requires Grounded(db)
    ensures Grounded(Store(db, e, wire, now).0)
  {
    StoreShape(db, e, wire, now);
    SameStatesKeepGrounded(db, Store(db, e, wire, now).0);
  }

  lemma StepKeepsGrounded(db: Db, step: Step)
    requires Grounded(db) && !step.AdoptStep?
    ensures Grounded(Next(db, step))
  {
    match step
    case StoreStep(e, wire, now) => StoringKeepsGrounded(db, e, wire, now);
    case ApplyStep(rejects, now) => CallKeepsGrounded(db, rejects, now);
    case OpenStep(agg) => SameStatesKeepGrounded(db, Next(db, step));
  }

  // ----- One run stays below the end of another -----

  /** `b` has applied no more than `a`. */
  ghost predicate Below(b: Db, a: Db) {
    && SameRows(b.inbox, a.inbox)
    && b.streams.Keys == a.streams.Keys
    && b.transitions.Keys <= a.transitions.Keys
    && forall agg | agg in b.streams ::
         b.streams[agg].snapshot == a.streams[agg].snapshot && b.streams[agg].cursor <= a.streams[agg].cursor
  }

  ghost predicate HistoryExtends(before: map<Id, Event>, after: map<Id, Event>) {
    forall id | id in before :: id in after && after[id] == before[id]
  }

  /** Where nothing is left to apply, what came in stands in the history. */
  lemma BackedIsRecorded(b: Db, a: Db, accepts: State -> bool, outcomeId: Id)
    requires RowsInPlace(b) && RowsInPlace(a) && HistoryIsApplied(a) && Below(b, a) && Finished(a, accepts)
    requires Continues(b, a) && Backed(b, outcomeId)
    ensures Recorded(a.transitions, outcomeId)
  {
    var id :| id in b.inbox && Settled(b, id) && Carries(b.inbox[id].envelope, outcomeId);
    assert Settled(a, id) && RowInPlace(a, id);
    assert !Acceptable(a, id, accepts);
    assert Carries(a.transitions[id], outcomeId);
  }

  lemma RecordedCarriesOver(b: map<Id, Event>, a: map<Id, Event>, outcomeId: Id)
    requires HistoryExtends(b, a) && Recorded(b, outcomeId)
    ensures Recorded(a, outcomeId)
  {
    var id :| id in b && Carries(b[id], outcomeId);
    assert id in a;
  }

  lemma DependenciesCarryOver(b: Db, a: Db, accepts: State -> bool, e: Event)
    requires RowsInPlace(b) && RowsInPlace(a) && HistoryIsApplied(a) && Below(b, a) && Finished(a, accepts)
    requires Continues(b, a) && HistoryExtends(b.transitions, a.transitions)
    requires Grounded(b) && Dependencies(b, e)
    ensures Dependencies(a, e)
  {
    if e.body.Requested? {
      forall item | item in e.body.request.items ensures OutcomeKnown(a, item) {
        assert OutcomeKnown(b, item);
        if Recorded(b.transitions, item.outcomeId) {
          RecordedCarriesOver(b.transitions, a.transitions, item.outcomeId);
        } else {
          BackedIsRecorded(b, a, accepts, item.outcomeId);
        }
        assert Recorded(a.transitions, item.outcomeId);
      }
    }
  }

  lemma BelowContinues(b: Db, a: Db)
    requires HistoryIsApplied(b) && HistoryIsApplied(a) && Below(b, a)
    ensures Continues(b, a)
  {
  }

  lemma HistoryCarriesOver(b: Db, a: Db)
    requires HistoryIsApplied(b) && HistoryIsApplied(a) && Below(b, a)
    ensures HistoryExtends(b.transitions, a.transitions)
  {
    forall id | id in b.transitions ensures id in a.transitions && a.transitions[id] == b.transitions[id] {
      assert b.inbox[id].appliedAt.Some? && a.inbox[id].appliedAt.Some?;
    }
  }

  lemma SameCursorSameStream(log: Log, agg: Aggregate, s: Stream, t: Stream)
    requires FollowsLog(log, agg, s) && FollowsLog(log, agg, t) && s.cursor == t.cursor && s.snapshot == t.snapshot
    ensures s == t
  {
  }

  lemma StillUnapplied(log: Log, b: Db, a: Db, id: Id)
    requires Inv(log, b) && Inv(log, a) && Below(b, a) && Eligible(b, id) && id !in a.transitions
    ensures Eligible(a, id)
    ensures var e := b.inbox[id].envelope;
            Covered(a, e) == Covered(b, e) && (!Covered(b, e) ==> a.streams[e.aggregate].cursor == b.streams[e.aggregate].cursor)
  {
    assert a.inbox[id].envelope == b.inbox[id].envelope;
    assert a.inbox[id].appliedAt.None?;
    assert RowInPlace(a, id);
  }

  /** An event that `b` can apply next is already applied in a finished `a` above it. */
  lemma AcceptableIsAppliedAbove(log: Log, b: Db, a: Db, accepts: State -> bool, id: Id)
    requires Inv(log, b) && Grounded(b) && Inv(log, a) && Finished(a, accepts) && Below(b, a) && Acceptable(b, id, accepts)
    ensures id in a.transitions
  {
    assert !Acceptable(a, id, accepts);
    if id !in a.transitions {
      var e := b.inbox[id].envelope;
      StillUnapplied(log, b, a, id);
      assert a.inbox[id].envelope == e;
      if !Covered(b, e) {
        HistoryCarriesOver(b, a);
        BelowContinues(b, a);
        DependenciesCarryOver(b, a, accepts, e);
        assert FollowsLog(log, e.aggregate, a.streams[e.aggregate]) && FollowsLog(log, e.aggregate, b.streams[e.aggregate]);
        SameCursorSameStream(log, e.aggregate, a.streams[e.aggregate], b.streams[e.aggregate]);
      }
    }
  }

  lemma FiredStreamStaysBelow(b: Db, a: Db, id: Id, agg: Aggregate)
    requires Below(b, a) && Ready(b, id) && RowInPlace(a, id) && a.inbox[id].appliedAt.Some? && agg in b.streams
    ensures var after := StreamsAfter(b, b.inbox[id].envelope);
            after.Keys == b.streams.Keys && after[agg].snapshot == a.streams[agg].snapshot && after[agg].cursor <= a.streams[agg].cursor
  {
    assert a.inbox[id].envelope == b.inbox[id].envelope;
  }

  lemma FiringStaysBelow(b: Db, after: Db, a: Db, id: Id)
    requires RowsInPlace(a) && HistoryIsApplied(a) && Below(b, a) && Ready(b, id) && Fired(b, after, id) && id in a.transitions
    ensures Below(after, a)
  {
    assert RowInPlace(a, id);
    forall agg | agg in after.streams
      ensures after.streams[agg].snapshot == a.streams[agg].snapshot && after.streams[agg].cursor <= a.streams[agg].cursor
    {
      FiredStreamStaysBelow(b, a, id, agg);
    }
    assert after.transitions.Keys == b.transitions.Keys + {id};
  }

  lemma SameHistoryStaysBelow(b: Db, after: Db, a: Db)
    requires SameHistory(b, after) && Below(b, a)
    ensures Below(after, a)
  {
  }

  lemma CallStaysBelow(log: Log, b: Db, call: Call, a: Db, accepts: State -> bool)
    requires Inv(log, b) && Grounded(b) && Inv(log, a) && Finished(a, accepts) && Below(b, a)
    requires forall id | Ready(b, id) && !Acceptable(b, id, accepts) :: id in call.rejects
    ensures Below(ApplyInbox(b, call.rejects, call.now).0, a)
  {
    ApplyShape(b, call.rejects, call.now);
    var (after, applied) := ApplyInbox(b, call.rejects, call.now);
    if applied {
      var id :| id !in call.rejects && Ready(b, id) && Fired(b, after, id);
      AcceptableIsAppliedAbove(log, b, a, accepts, id);
      FiringStaysBelow(b, after, a, id);
    } else {
      SameHistoryStaysBelow(b, after, a);
    }
  }

  lemma {:induction false} RunStaysBelow(log: Log, b: Db, calls: seq<Call>, a: Db, accepts: State -> bool)
    requires Inv(log, b) && Grounded(b) && Inv(log, a) && Finished(a, accepts) && Below(b, a) && Obeys(b, calls, accepts)
    ensures Inv(log, After(b, calls)) && Below(After(b, calls), a)
    decreases |calls|
  {
    if calls != [] {
      CallStaysBelow(log, b, calls[0], a, accepts);
      StepKeepsInv(log, b, ApplyStep(calls[0].rejects, calls[0].now));
      StepKeepsGrounded(b, ApplyStep(calls[0].rejects, calls[0].now));
      RunStaysBelow(log, ApplyInbox(b, calls[0].rejects, calls[0].now).0, calls[1..], a, accepts);
    }
  }

  lemma FiringAdds(db: Db, after: Db, id: Id)
    requires Ready(db, id) && Fired(db, after, id)
    ensures Below(db, after)
  {
  }

  lemma BelowIsTransitive(a: Db, b: Db, c: Db)
    requires Below(a, b) && Below(b, c)
    ensures Below(a, c)
  {
  }

  lemma CallAdds(log: Log, db: Db, call: Call)
    requires Inv(log, db)
    ensures var after := ApplyInbox(db, call.rejects, call.now).0; Inv(log, after) && Below(db, after)
  {
    var (after, applied) := ApplyInbox(db, call.rejects, call.now);
    ApplyShape(db, call.rejects, call.now);
    if applied {
      var id :| id !in call.rejects && Ready(db, id) && Fired(db, after, id);
      FiringKeepsInv(log, db, after, id);
      FiringAdds(db, after, id);
    } else {
      SameHistoryKeepsInv(log, db, after);
    }
  }

  /** A run only ever adds. */
  lemma {:induction false} RunAdds(log: Log, db: Db, calls: seq<Call>)
    requires Inv(log, db)
    ensures Inv(log, After(db, calls)) && Below(db, After(db, calls))
    decreases |calls|
  {
    if calls != [] {
      var mid := ApplyInbox(db, calls[0].rejects, calls[0].now).0;
      CallAdds(log, db, calls[0]);
      RunAdds(log, mid, calls[1..]);
      BelowIsTransitive(db, mid, After(mid, calls[1..]));
    }
  }

  lemma EqualWhenBelowBoth(log: Log, a: Db, b: Db)
    requires StreamsFollow(log, a) && StreamsFollow(log, b) && HistoryIsApplied(a) && HistoryIsApplied(b)
    requires Below(a, b) && Below(b, a)
    ensures a.streams == b.streams && a.transitions == b.transitions
  {
    HistoryCarriesOver(a, b);
    forall agg | agg in a.streams ensures a.streams[agg] == b.streams[agg] {
      assert FollowsLog(log, agg, a.streams[agg]) && FollowsLog(log, agg, b.streams[agg]);
      SameCursorSameStream(log, agg, a.streams[agg], b.streams[agg]);
    }
  }

  /** Two runs of the worker that can go no further agree on every stream and on the history, whatever
      order, retries and failed writes they went through and whatever the schema refuses for ever. */
  lemma Confluence(log: Log, db: Db, first: seq<Call>, second: seq<Call>, accepts: State -> bool)
    requires Inv(log, db) && Grounded(db)
    requires Obeys(db, first, accepts) && Finished(After(db, first), accepts)
    requires Obeys(db, second, accepts) && Finished(After(db, second), accepts)
    ensures After(db, first).streams == After(db, second).streams
    ensures After(db, first).transitions == After(db, second).transitions
  {
    RunAdds(log, db, first);
    RunAdds(log, db, second);
    RunStaysBelow(log, db, second, After(db, first), accepts);
    RunStaysBelow(log, db, first, After(db, second), accepts);
    EqualWhenBelowBoth(log, After(db, first), After(db, second));
  }

  // ----- When the states are grounded -----

  lemma {:induction false} FoldedOutcomes(events: seq<Event>, o: Outcome)
    requires Fold(events).Ok? && o in Fold(events).value.outcomes
    ensures exists i | 0 <= i < |events| :: EventOutcome(events[i]) == Some(o)
    decreases |events|
  {
    var shorter, last := events[..|events| - 1], events[|events| - 1];
    OutcomesComeFromEvents(Fold(shorter).value, last);
    if o in Fold(shorter).value.outcomes {
      FoldedOutcomes(shorter, o);
      var i :| 0 <= i < |shorter| && EventOutcome(shorter[i]) == Some(o);
      assert EventOutcome(events[i]) == Some(o);
    }
  }

  /** Of every task stream everything up to the snapshot mark was received. */
  ghost predicate SnapshotsReceived(db: Db) {
    forall agg, n: nat | agg in db.streams && agg.kind.Task? && 1 <= n <= db.streams[agg].snapshot :: Has(db, agg, n)
  }

  lemma HeldIsSettled(log: Log, db: Db, agg: Aggregate, n: nat)
    requires Inv(log, db) && SnapshotsReceived(db) && agg in db.streams && agg.kind.Task? && 1 <= n <= db.streams[agg].cursor
    ensures exists id :: id in db.inbox && Settled(db, id) && db.inbox[id].envelope.aggregate == agg && db.inbox[id].envelope.sequence == n
  {
    if n <= db.streams[agg].snapshot {
      assert Has(db, agg, n);
      var id :| id in db.inbox && db.inbox[id].envelope.aggregate == agg && db.inbox[id].envelope.sequence == n;
      assert Settled(db, id);
    } else {
      ProjectedIsApplied(log, db, agg, n);
      var id :| id in db.inbox && db.inbox[id].envelope.aggregate == agg && db.inbox[id].envelope.sequence == n
        && db.inbox[id].appliedAt.Some?;
      assert Settled(db, id);
    }
  }

  lemma ReceivedHistoriesGround(log: Log, db: Db)
    requires Inv(log, db) && SnapshotsReceived(db)
    ensures Grounded(db)
  {
    forall agg, o | agg in db.streams && agg.kind.Task? && db.streams[agg].state.Some? && o in db.streams[agg].state.value.outcomes
      ensures Backed(db, o.outcomeId)
    {
      var stream := db.streams[agg];
      assert FollowsLog(log, agg, stream);
      var events := log[agg][..stream.cursor];
      FoldedOutcomes(events, o);
      var i :| 0 <= i < |events| && EventOutcome(events[i]) == Some(o);
      HeldIsSettled(log, db, agg, i + 1);
      var id :| id in db.inbox && Settled(db, id) && db.inbox[id].envelope.aggregate == agg && db.inbox[id].envelope.sequence == i + 1;
      assert db.inbox[id].envelope == events[i];
    }
  }

  /** Something a caller can see beforehand: in the status of every task stream `receivedThrough` has
      reached `snapshotThrough`. */
  lemma StatusTellsGrounded(log: Log, db: Db, statuses: map<Aggregate, Checkpoint>)
    requires Inv(log, db)
    requires forall agg | agg in db.streams && agg.kind.Task? ::
      agg in statuses && Describes(db, agg, statuses[agg]) && statuses[agg].receivedThrough >= statuses[agg].snapshotThrough
    ensures Grounded(db)
  {
    forall agg, n: nat | agg in db.streams && agg.kind.Task? && 1 <= n <= db.streams[agg].snapshot ensures Has(db, agg, n) {
      assert ReceivedTo(db, agg, statuses[agg].receivedThrough);
    }
    ReceivedHistoriesGround(log, db);
  }

  /** Every stream's whole history up to its cursor was received and applied. */
  ghost predicate HistoriesComplete(db: Db) {
    forall agg, n: nat | agg in db.streams && 1 <= n <= db.streams[agg].cursor :: HasApplied(db, agg, n)
  }

  /** `historyComplete` in every status read asks for more than that. */
  lemma CompleteHistoriesGround(log: Log, db: Db)
    requires Inv(log, db) && HistoriesComplete(db)
    ensures SnapshotsReceived(db) && Grounded(db)
  {
    forall agg, n: nat | agg in db.streams && agg.kind.Task? && 1 <= n <= db.streams[agg].snapshot ensures Has(db, agg, n) {
      assert FollowsLog(log, agg, db.streams[agg]);
      assert HasApplied(db, agg, n);
    }
    ReceivedHistoriesGround(log, db);
  }

  lemma NoSnapshotIsComplete(log: Log, db: Db)
    requires Inv(log, db) && forall agg | agg in db.streams :: db.streams[agg].snapshot == 0
    ensures HistoriesComplete(db)
  {
    forall agg, n: nat | agg in db.streams && 1 <= n <= db.streams[agg].cursor ensures HasApplied(db, agg, n) {
      ProjectedIsApplied(log, db, agg, n);
    }
  }

  /** What `historyComplete` in every status read amounts to. */
  lemma StatusTellsComplete(log: Log, db: Db, statuses: map<Aggregate, Checkpoint>)
    requires Inv(log, db)
    requires forall agg | agg in db.streams ::
      agg in statuses && Describes(db, agg, statuses[agg]) && statuses[agg].historyComplete
    ensures HistoriesComplete(db)
  {
    forall agg, n: nat | agg in db.streams && 1 <= n <= db.streams[agg].cursor ensures HasApplied(db, agg, n) {
      CompleteIsCaughtUp(log, db, agg, statuses[agg].appliedThrough);
    }
  }
}
