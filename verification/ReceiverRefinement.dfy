/** The receiver against the trivial consumer that reads the producer's log in order. */
module ReceiverRefinement {
  import opened Wrappers
  import opened Projection
  import opened Receiver

  /** Everything the producer ever publishes, per stream, in its own order. */
  type Log = map<Aggregate, seq<Event>>

  /** The event is in the log at the place its aggregate and sequence name. */
  ghost predicate Published(log: Log, e: Event) {
    && e.aggregate in log
    && 1 <= e.sequence <= |log[e.aggregate]|
    && log[e.aggregate][e.sequence - 1] == e
  }

  function EventsOf(log: Log, agg: Aggregate): seq<Event> {
    if agg in log then log[agg] else []
  }

  ghost predicate InTheirPlaces(log: Log) {
    forall agg, i | agg in log && 0 <= i < |log[agg]| :: log[agg][i].aggregate == agg && log[agg][i].sequence == i + 1
  }

  ghost predicate UniqueIds(log: Log) {
    forall e, f | Published(log, e) && Published(log, f) && e.eventId == f.eventId :: e == f
  }

  // ----- What one pass of the worker does -----

  /** `id` can be applied now: in turn, its dependencies met, and the mapping accepts it. */
  predicate Ready(db: Db, id: Id) {
    && Eligible(db, id)
    && id !in db.transitions
    && (Covered(db, db.inbox[id].envelope) ||
        (Dependencies(db, db.inbox[id].envelope) && Projected(db, db.inbox[id].envelope).Ok?))
  }

  function StreamsAfter(db: Db, e: Event): map<Aggregate, Stream>
    requires e.aggregate in db.streams && (Covered(db, e) || Projected(db, e).Ok?)
  {
    if Covered(db, e) then db.streams
    else db.streams[e.aggregate := Stream(e.sequence, db.streams[e.aggregate].snapshot, Some(Projected(db, e).value))]
  }

  ghost predicate SameMarks(before: map<Id, Row>, after: map<Id, Row>) {
    SameRows(before, after) && forall id | id in before :: before[id].appliedAt == after[id].appliedAt
  }

  /** Nothing but attempts, problems and the revision may differ. */
  ghost predicate SameHistory(before: Db, after: Db) {
    && before.streams == after.streams
    && before.transitions == after.transitions
    && SameMarks(before.inbox, after.inbox)
  }

  /** Exactly the event `id` was applied. */
  ghost predicate Fired(before: Db, after: Db, id: Id)
    requires Ready(before, id)
  {
    && after.streams == StreamsAfter(before, before.inbox[id].envelope)
    && after.transitions == before.transitions[id := before.inbox[id].envelope]
    && SameRows(before.inbox, after.inbox)
    && after.inbox[id].appliedAt.Some?
    && forall other | other in before.inbox && other != id :: before.inbox[other].appliedAt == after.inbox[other].appliedAt
  }

  lemma SameHistoryKeepsReady(before: Db, after: Db)
    requires SameHistory(before, after)
    ensures forall id :: Eligible(before, id) == Eligible(after, id)
    ensures forall id :: Ready(before, id) == Ready(after, id)
  {
    forall id | id in before.inbox
      ensures before.inbox[id].envelope == after.inbox[id].envelope
      ensures before.inbox[id].envelope.aggregate in before.streams ==>
                Dependencies(before, before.inbox[id].envelope) == Dependencies(after, before.inbox[id].envelope)
    {
      SameDependencies(before, after, before.inbox[id].envelope);
    }
  }

  lemma SameDependencies(before: Db, after: Db, e: Event)
    requires before.streams == after.streams && before.transitions == after.transitions
    ensures Dependencies(before, e) == Dependencies(after, e)
  {
    if e.body.Requested? {
      forall item | item in e.body.request.items ensures OutcomeKnown(before, item) == OutcomeKnown(after, item) {
      }
    }
  }

  lemma RowShape(db: Db, id: Id, rejected: bool, now: int)
    requires Eligible(db, id)
    ensures var (after, result) := ApplyRow(db, id, rejected, now);
            if result.Applied? then !rejected && Ready(db, id) && Fired(db, after, id) else SameHistory(db, after)
  {
  }

  lemma FiredAfterBookkeeping(start: Db, db: Db, after: Db, id: Id)
    requires SameHistory(start, db) && Ready(db, id) && Fired(db, after, id)
    ensures Ready(start, id) && Fired(start, after, id)
  {
    SameHistoryKeepsReady(start, db);
  }

  lemma {:induction false} RowsShape(db: Db, ids: seq<Id>, rejects: set<Id>, now: int)
    requires forall id | id in ids :: Eligible(db, id)
    ensures forall id | id in ids :: id in db.inbox && db.inbox[id].envelope.aggregate in db.streams
    ensures var (after, applied) := ApplyRows(db, ids, rejects, now);
            && (!applied ==> SameHistory(db, after))
            && (applied ==> exists id :: id !in rejects && Ready(db, id) && Fired(db, after, id))
    decreases |ids|
  {
    if ids != [] {
      var id := ids[0];
      assert id in ids;
      RowShape(db, id, id in rejects, now);
      var (mid, result) := ApplyRow(db, id, id in rejects, now);
      if result.Skipped? {
        SameHistoryKeepsReady(db, mid);
        RowsShape(mid, ids[1..], rejects, now);
        var (after, applied) := ApplyRows(mid, ids[1..], rejects, now);
        if applied {
          var fired :| fired !in rejects && Ready(mid, fired) && Fired(mid, after, fired);
          FiredAfterBookkeeping(db, mid, after, fired);
        }
      }
    }
  }

  /** One call of the worker either changes no history or applies exactly one ready event. */
  lemma ApplyShape(db: Db, rejects: set<Id>, now: int)
    ensures var (after, applied) := ApplyInbox(db, rejects, now);
            && (!applied ==> SameHistory(db, after))
            && (applied ==> exists id :: id !in rejects && Ready(db, id) && Fired(db, after, id))
  {
    RowsShape(db, Page(db), rejects, now);
  }

  // ----- The invariant of every run -----

  function StateOf(stream: Stream): State {
    if stream.state.Some? then stream.state.value else EmptyProjection
  }

  /** The stream's state is the fold of the log up to its cursor. */
  ghost predicate FollowsLog(log: Log, agg: Aggregate, stream: Stream) {
    && stream.snapshot <= stream.cursor
    && (stream.cursor == 0 ==> stream.state.None?)
    && (stream.cursor > 0 ==>
          && agg in log && stream.cursor <= |log[agg]| && stream.state.Some?
          && Fold(log[agg][..stream.cursor]) == Ok(StateOf(stream)))
  }

  /** A row is applied only up to the cursor; what is not applied lies at or below the snapshot or beyond the cursor. */
  ghost predicate RowInPlace(db: Db, id: Id)
    requires id in db.inbox
  {
    var e := db.inbox[id].envelope;
    && e.aggregate in db.streams
    && (if db.inbox[id].appliedAt.Some? then e.sequence <= db.streams[e.aggregate].cursor
        else e.sequence <= db.streams[e.aggregate].snapshot || db.streams[e.aggregate].cursor < e.sequence)
  }

  ghost predicate RowsFromLog(log: Log, db: Db) {
    forall id | id in db.inbox :: db.inbox[id].envelope.eventId == id && Published(log, db.inbox[id].envelope)
  }

  /** Every event between the snapshot and the cursor was received. */
  ghost predicate NoHoles(log: Log, db: Db) {
    forall agg, i | agg in db.streams && agg in log && db.streams[agg].snapshot <= i < db.streams[agg].cursor && i < |log[agg]| ::
      Holds(db, agg, i, log[agg][i])
  }

  /** `e` belongs at place `i` of the stream and a row holds it. */
  ghost predicate Holds(db: Db, agg: Aggregate, i: nat, e: Event) {
    && e.aggregate == agg && e.sequence == i + 1
    && e.eventId in db.inbox && db.inbox[e.eventId].envelope == e
  }

  ghost predicate StreamsFollow(log: Log, db: Db) {
    forall agg | agg in db.streams :: FollowsLog(log, agg, db.streams[agg])
  }

  ghost predicate RowsInPlace(db: Db) {
    forall id | id in db.inbox :: RowInPlace(db, id)
  }

  /** The history holds exactly the applied events, each once. */
  ghost predicate HistoryIsApplied(db: Db) {
    && (forall id | id in db.transitions :: id in db.inbox && db.inbox[id].appliedAt.Some?)
    && (forall id | id in db.inbox && db.inbox[id].appliedAt.Some? ::
          id in db.transitions && db.transitions[id] == db.inbox[id].envelope)
  }

  ghost predicate Inv(log: Log, db: Db) {
    && RowsFromLog(log, db)
    && StreamsFollow(log, db)
    && RowsInPlace(db)
    && NoHoles(log, db)
    && HistoryIsApplied(db)
  }

  lemma SlotsAreUnique(log: Log, db: Db)
    requires RowsFromLog(log, db)
    ensures forall a, b | a in db.inbox && b in db.inbox && a != b ::
              db.inbox[a].envelope.aggregate != db.inbox[b].envelope.aggregate ||
              db.inbox[a].envelope.sequence != db.inbox[b].envelope.sequence
  {
  }

  lemma InvImpliesConstraints(log: Log, db: Db)
    requires Inv(log, db)
    ensures Constraints(db)
  {
    SlotsAreUnique(log, db);
    forall id | id in db.inbox ensures db.inbox[id].envelope.aggregate in db.streams {
      assert RowInPlace(db, id);
    }
    forall agg | agg in db.streams ensures db.streams[agg].snapshot <= db.streams[agg].cursor {
      assert FollowsLog(log, agg, db.streams[agg]);
    }
  }

  datatype Step =
    | StoreStep(event: Event, wire: Option<Wire>, now: int)
    | ApplyStep(rejects: set<Id>, now: int)
    | AdoptStep(aggregate: Aggregate, snapshot: Snapshot)
    | OpenStep(aggregate: Aggregate)

  function Next(db: Db, step: Step): Db {
    match step
    case StoreStep(e, wire, now) => Store(db, e, wire, now).0
    case ApplyStep(rejects, now) => ApplyInbox(db, rejects, now).0
    case AdoptStep(agg, s) => Adopt(db, agg, s).0
    case OpenStep(agg) => EnsureStream(db, agg)
  }

  /** What signatures and the producer's API give: events come from the log, and a snapshot
      is the log's fold. Order, repetition, loss and timing stay open. */
  ghost predicate Honest(log: Log, step: Step) {
    match step
    case StoreStep(e, _, _) => Published(log, e)
    case AdoptStep(agg, s) =>
      s.throughSequence > 0 ==>
        agg in log && s.throughSequence <= |log[agg]| && Fold(log[agg][..s.throughSequence]) == Ok(s.state)
    case _ => true
  }

  lemma SameIdSameEvent(log: Log, db: Db, e: Event)
    requires RowsFromLog(log, db) && UniqueIds(log) && Published(log, e) && e.eventId in db.inbox
    ensures db.inbox[e.eventId].envelope == e
  {
    assert Published(log, db.inbox[e.eventId].envelope);
  }

  lemma OpeningKeepsStreams(log: Log, db: Db, agg: Aggregate)
    requires StreamsFollow(log, db)
    ensures StreamsFollow(log, EnsureStream(db, agg))
  {
    var after := EnsureStream(db, agg);
    forall other | other in after.streams ensures FollowsLog(log, other, after.streams[other]) {
      if other in db.streams { assert FollowsLog(log, other, db.streams[other]); }
    }
  }

  lemma OpeningKeepsPlaces(db: Db, agg: Aggregate)
    requires RowsInPlace(db)
    ensures RowsInPlace(EnsureStream(db, agg))
  {
    var after := EnsureStream(db, agg);
    forall id | id in after.inbox ensures RowInPlace(after, id) {
      assert RowInPlace(db, id);
    }
  }

  lemma OpeningKeepsHoles(log: Log, db: Db, agg: Aggregate)
    requires NoHoles(log, db)
    ensures NoHoles(log, EnsureStream(db, agg))
  {
    var after := EnsureStream(db, agg);
    forall other, i | other in after.streams && other in log && after.streams[other].snapshot <= i < after.streams[other].cursor && i < |log[other]|
      ensures Holds(after, other, i, log[other][i])
    {
      assert Holds(db, other, i, log[other][i]);
    }
  }

  lemma OpeningKeepsInv(log: Log, db: Db, agg: Aggregate)
    requires Inv(log, db)
    ensures Inv(log, EnsureStream(db, agg))
  {
    OpeningKeepsStreams(log, db, agg);
    OpeningKeepsPlaces(db, agg);
    OpeningKeepsHoles(log, db, agg);
  }

  lemma NewRowIsPending(log: Log, db: Db, e: Event)
    requires NoHoles(log, db) && Published(log, e) && e.eventId !in db.inbox && e.aggregate in db.streams
    ensures e.sequence <= db.streams[e.aggregate].snapshot || db.streams[e.aggregate].cursor < e.sequence
  {
    assert log[e.aggregate][e.sequence - 1] == e && !Holds(db, e.aggregate, e.sequence - 1, e);
  }

  function Inserted(db: Db, e: Event, wire: Option<Wire>, now: int): Db {
    db.(inbox := db.inbox[e.eventId := Row(e, wire, now, None, None, 0)], revision := db.revision + 1)
  }

  lemma InsertingKeepsPlaces(log: Log, db: Db, e: Event, wire: Option<Wire>, now: int)
    requires NoHoles(log, db) && RowsInPlace(db) && Published(log, e) && e.eventId !in db.inbox && e.aggregate in db.streams
    ensures RowsInPlace(Inserted(db, e, wire, now))
  {
    var after := Inserted(db, e, wire, now);
    NewRowIsPending(log, db, e);
    forall id | id in after.inbox ensures RowInPlace(after, id) {
      if id != e.eventId { assert RowInPlace(db, id); }
    }
  }

  lemma InsertingKeepsHoles(log: Log, db: Db, e: Event, wire: Option<Wire>, now: int)
    requires NoHoles(log, db) && e.eventId !in db.inbox
    ensures NoHoles(log, Inserted(db, e, wire, now))
  {
    var after := Inserted(db, e, wire, now);
    forall other, i | other in after.streams && other in log && after.streams[other].snapshot <= i < after.streams[other].cursor && i < |log[other]|
      ensures Holds(after, other, i, log[other][i])
    {
      assert Holds(db, other, i, log[other][i]);
    }
  }

  lemma InsertingKeepsInv(log: Log, db: Db, e: Event, wire: Option<Wire>, now: int)
    requires Inv(log, db) && Published(log, e) && e.eventId !in db.inbox && e.aggregate in db.streams
    ensures Inv(log, Inserted(db, e, wire, now))
  {
    InsertingKeepsPlaces(log, db, e, wire, now);
    InsertingKeepsHoles(log, db, e, wire, now);
  }

  lemma StoreShape(db: Db, e: Event, wire: Option<Wire>, now: int)
    ensures var (after, result) := Store(db, e, wire, now);
            if result.Stored? then e.eventId !in db.inbox && after == Inserted(EnsureStream(db, e.aggregate), e, wire, now)
            else SameHistory(db, after)
  {
  }

  lemma StoringKeepsInv(log: Log, db: Db, e: Event, wire: Option<Wire>, now: int)
    requires Inv(log, db) && Published(log, e)
    ensures Inv(log, Store(db, e, wire, now).0)
  {
    StoreShape(db, e, wire, now);
    var (after, result) := Store(db, e, wire, now);
    if result.Stored? {
      OpeningKeepsInv(log, db, e.aggregate);
      InsertingKeepsInv(log, EnsureStream(db, e.aggregate), e, wire, now);
    } else {
      SameHistoryKeepsInv(log, db, after);
    }
  }

  lemma SameHistoryKeepsInv(log: Log, before: Db, after: Db)
    requires Inv(log, before) && SameHistory(before, after)
    ensures Inv(log, after)
  {
    forall id | id in after.inbox ensures RowInPlace(after, id) {
      assert RowInPlace(before, id);
    }
  }

  /** The state after the next event is the fold of one event more. */
  lemma NextFolds(log: Log, agg: Aggregate, stream: Stream, e: Event)
    requires FollowsLog(log, agg, stream) && agg in log && stream.cursor < |log[agg]| && log[agg][stream.cursor] == e
    requires Project(StateOf(stream), e).Ok?
    ensures Fold(log[agg][..stream.cursor + 1]) == Ok(Project(StateOf(stream), e).value)
  {
    var prefix := log[agg][..stream.cursor + 1];
    assert prefix[..|prefix| - 1] == log[agg][..stream.cursor];
    assert stream.cursor == 0 ==> log[agg][..stream.cursor] == [];
  }

  lemma FiringFollowsLog(log: Log, before: Db, id: Id)
    requires RowsFromLog(log, before) && StreamsFollow(log, before) && Ready(before, id)
    ensures var e := before.inbox[id].envelope; FollowsLog(log, e.aggregate, StreamsAfter(before, e)[e.aggregate])
  {
    var e := before.inbox[id].envelope;
    assert FollowsLog(log, e.aggregate, before.streams[e.aggregate]);
    if !Covered(before, e) {
      NextFolds(log, e.aggregate, before.streams[e.aggregate], e);
    }
  }

  lemma FiringKeepsStreams(log: Log, before: Db, after: Db, id: Id)
    requires RowsFromLog(log, before) && StreamsFollow(log, before) && Ready(before, id) && Fired(before, after, id)
    ensures StreamsFollow(log, after)
  {
    FiringFollowsLog(log, before, id);
    forall agg | agg in after.streams ensures FollowsLog(log, agg, after.streams[agg]) {
      if agg != before.inbox[id].envelope.aggregate {
        assert FollowsLog(log, agg, before.streams[agg]);
      }
    }
  }

  lemma SameSlotSameRow(log: Log, db: Db, a: Id, b: Id)
    requires RowsFromLog(log, db) && a in db.inbox && b in db.inbox
    requires db.inbox[a].envelope.aggregate == db.inbox[b].envelope.aggregate
    requires db.inbox[a].envelope.sequence == db.inbox[b].envelope.sequence
    ensures a == b
  {
  }

  lemma FiringKeepsPlaces(log: Log, before: Db, after: Db, id: Id)
    requires RowsFromLog(log, before) && RowsInPlace(before) && Ready(before, id) && Fired(before, after, id)
    requires forall agg | agg in before.streams :: before.streams[agg].snapshot <= before.streams[agg].cursor
    ensures RowsInPlace(after)
  {
    var e := before.inbox[id].envelope;
    forall other | other in after.inbox ensures RowInPlace(after, other) {
      assert RowInPlace(before, other);
      var o := before.inbox[other].envelope;
      if o.aggregate == e.aggregate && o.sequence == e.sequence {
        SameSlotSameRow(log, before, other, id);
      }
    }
  }

  lemma FiringKeepsHoles(log: Log, before: Db, after: Db, id: Id)
    requires RowsFromLog(log, before) && NoHoles(log, before) && Ready(before, id) && Fired(before, after, id)
    ensures NoHoles(log, after)
  {
    var e := before.inbox[id].envelope;
    assert Holds(before, e.aggregate, e.sequence - 1, e);
    forall agg, i | agg in after.streams && agg in log && after.streams[agg].snapshot <= i < after.streams[agg].cursor && i < |log[agg]|
      ensures Holds(after, agg, i, log[agg][i])
    {
      if agg == e.aggregate && i == e.sequence - 1 {
        assert log[agg][i] == e;
      } else {
        assert Holds(before, agg, i, log[agg][i]);
      }
    }
  }

  lemma FiringKeepsInv(log: Log, before: Db, after: Db, id: Id)
    requires Inv(log, before) && Ready(before, id) && Fired(before, after, id)
    ensures Inv(log, after)
  {
    FiringKeepsStreams(log, before, after, id);
    InvImpliesConstraints(log, before);
    FiringKeepsPlaces(log, before, after, id);
    FiringKeepsHoles(log, before, after, id);
  }

  function AtSnapshot(db: Db, agg: Aggregate, s: Snapshot): Db {
    db.(streams := db.streams[agg := Stream(s.throughSequence, s.throughSequence, Some(s.state))],
        adoptions := db.adoptions + [s],
        revision := db.revision + 1)
  }

  lemma JumpingKeepsInv(log: Log, db: Db, agg: Aggregate, s: Snapshot)
    requires Inv(log, db) && Honest(log, AdoptStep(agg, s)) && agg in db.streams && db.streams[agg].cursor < s.throughSequence
    ensures Inv(log, AtSnapshot(db, agg, s))
  {
    var after := AtSnapshot(db, agg, s);
    forall other | other in after.streams ensures FollowsLog(log, other, after.streams[other]) {
      assert FollowsLog(log, other, db.streams[other]);
    }
    forall id | id in after.inbox ensures RowInPlace(after, id) {
      assert RowInPlace(db, id);
    }
  }

  lemma AdoptingKeepsInv(log: Log, db: Db, agg: Aggregate, s: Snapshot)
    requires Inv(log, db) && Honest(log, AdoptStep(agg, s))
    ensures Inv(log, Adopt(db, agg, s).0)
  {
    OpeningKeepsInv(log, db, agg);
    var (after, result) := Adopt(db, agg, s);
    if result.Adopted? {
      assert after == AtSnapshot(EnsureStream(db, agg), agg, s);
      JumpingKeepsInv(log, EnsureStream(db, agg), agg, s);
    }
  }

  lemma CallKeepsInv(log: Log, db: Db, rejects: set<Id>, now: int)
    requires Inv(log, db)
    ensures Inv(log, ApplyInbox(db, rejects, now).0)
  {
    ApplyShape(db, rejects, now);
    var (after, applied) := ApplyInbox(db, rejects, now);
    if applied {
      var id :| id !in rejects && Ready(db, id) && Fired(db, after, id);
      FiringKeepsInv(log, db, after, id);
    } else {
      SameHistoryKeepsInv(log, db, after);
    }
  }

  lemma StepKeepsInv(log: Log, db: Db, step: Step)
    requires Inv(log, db) && Honest(log, step)
    ensures Inv(log, Next(db, step))
  {
    match step
    case StoreStep(e, wire, now) => StoringKeepsInv(log, db, e, wire, now);
    case ApplyStep(rejects, now) => CallKeepsInv(log, db, rejects, now);
    case AdoptStep(agg, s) => AdoptingKeepsInv(log, db, agg, s);
    case OpenStep(agg) => OpeningKeepsInv(log, db, agg);
  }

  function Run(db: Db, steps: seq<Step>): Db
    decreases |steps|
  {
    if steps == [] then db else Next(Run(db, steps[..|steps| - 1]), steps[|steps| - 1])
  }

  lemma RunOneMore(db: Db, steps: seq<Step>, step: Step)
    ensures Run(db, steps + [step]) == Next(Run(db, steps), step)
  {
    assert (steps + [step])[..|steps|] == steps;
  }

  lemma {:induction false} RunKeepsInv(log: Log, db: Db, steps: seq<Step>)
    requires Inv(log, db)
    requires forall i | 0 <= i < |steps| :: Honest(log, steps[i])
    ensures Inv(log, Run(db, steps))
    decreases |steps|
  {
    if steps != [] {
      RunKeepsInv(log, db, steps[..|steps| - 1]);
      StepKeepsInv(log, Run(db, steps[..|steps| - 1]), steps[|steps| - 1]);
    }
  }

  /** Under every interleaving of deliveries, repetitions, reorderings, snapshots and applications,
      each stream holds what the trivial consumer holds after reading the log up to the cursor. */
  lemma Refinement(log: Log, steps: seq<Step>)
    requires forall i | 0 <= i < |steps| :: Honest(log, steps[i])
    ensures var db := Run(EmptyDb, steps);
            forall agg | agg in db.streams ::
              && (db.streams[agg].cursor > 0 ==> agg in log && db.streams[agg].cursor <= |log[agg]|)
              && Fold(if agg in log then log[agg][..db.streams[agg].cursor] else []) == Ok(StateOf(db.streams[agg]))
  {
    RunKeepsInv(log, EmptyDb, steps);
    var db := Run(EmptyDb, steps);
    forall agg | agg in db.streams
      ensures db.streams[agg].cursor > 0 ==> agg in log && db.streams[agg].cursor <= |log[agg]|
      ensures Fold(if agg in log then log[agg][..db.streams[agg].cursor] else []) == Ok(StateOf(db.streams[agg]))
    {
      assert FollowsLog(log, agg, db.streams[agg]);
    }
  }

  // ----- Delivering events -----

  /** Exactly the events `news` came in: nothing was applied and no snapshot adopted. */
  ghost predicate Arrived(before: Db, after: Db, news: seq<Event>) {
    && after.transitions == before.transitions
    && (forall agg | agg in after.streams ::
          if agg in before.streams then after.streams[agg] == before.streams[agg] else after.streams[agg] == Stream(0, 0, None))
    && before.streams.Keys <= after.streams.Keys
    && (forall id | id in before.inbox ::
          && id in after.inbox && after.inbox[id].envelope == before.inbox[id].envelope
          && after.inbox[id].appliedAt == before.inbox[id].appliedAt)
    && (forall id | id in after.inbox && id !in before.inbox :: after.inbox[id].envelope in news && after.inbox[id].appliedAt.None?)
    && (forall e | e in news :: e.eventId in after.inbox && after.inbox[e.eventId].envelope == e)
  }

  lemma InsertedArrives(db: Db, e: Event, wire: Option<Wire>, now: int)
    requires e.eventId !in db.inbox
    ensures Arrived(db, Inserted(EnsureStream(db, e.aggregate), e, wire, now), [e])
  {
  }

  lemma KnownArrives(before: Db, after: Db, e: Event)
    requires SameHistory(before, after) && e.eventId in before.inbox && before.inbox[e.eventId].envelope == e
    ensures Arrived(before, after, [e])
  {
  }

  /** What one delivery does, honest or not. */
  lemma StoreArrives(db: Db, e: Event, wire: Option<Wire>, now: int)
    ensures var (after, result) := Store(db, e, wire, now); Arrived(db, after, if result.Refused? then [] else [e])
  {
    StoreShape(db, e, wire, now);
    var (after, result) := Store(db, e, wire, now);
    if result.Stored? {
      InsertedArrives(db, e, wire, now);
    } else if result.Duplicate? {
      KnownArrives(db, after, e);
    }
  }

  /** An event from the log is never refused. */
  lemma PublishedIsTaken(log: Log, db: Db, e: Event, now: int)
    requires RowsFromLog(log, db) && UniqueIds(log) && Published(log, e)
    ensures !Store(db, e, None, now).1.Refused?
  {
    if e.eventId in db.inbox {
      SameIdSameEvent(log, db, e);
    }
  }

  lemma DeliverOne(log: Log, db: Db, e: Event, now: int)
    requires RowsFromLog(log, db) && UniqueIds(log) && Published(log, e)
    ensures Arrived(db, Store(db, e, None, now).0, [e])
  {
    StoreArrives(db, e, None, now);
    PublishedIsTaken(log, db, e, now);
  }

  lemma ArrivedBoth(a: Db, b: Db, c: Db, first: seq<Event>, second: seq<Event>)
    requires Arrived(a, b, first) && Arrived(b, c, second)
    ensures Arrived(a, c, first + second)
  {
  }

  // ----- What the reported watermarks mean -----

  lemma AppliedReach(log: Log, db: Db, agg: Aggregate, n: nat)
    requires Inv(log, db) && agg in db.streams && HasApplied(db, agg, n)
    ensures n <= db.streams[agg].cursor
  {
    var id :| id in db.inbox && db.inbox[id].envelope.aggregate == agg && db.inbox[id].envelope.sequence == n
      && db.inbox[id].appliedAt.Some?;
    assert RowInPlace(db, id);
  }

  lemma ProjectedIsApplied(log: Log, db: Db, agg: Aggregate, n: nat)
    requires StreamsFollow(log, db) && RowsInPlace(db) && NoHoles(log, db) && RowsFromLog(log, db)
    requires agg in db.streams && db.streams[agg].snapshot < n <= db.streams[agg].cursor
    ensures HasApplied(db, agg, n)
  {
    assert FollowsLog(log, agg, db.streams[agg]);
    assert Holds(db, agg, n - 1, log[agg][n - 1]);
    assert RowInPlace(db, log[agg][n - 1].eventId);
  }

  lemma AppliedIsReceived(db: Db, agg: Aggregate, applied: nat, received: nat)
    requires AppliedTo(db, agg, applied) && ReceivedTo(db, agg, received)
    ensures applied <= received
  {
    assert !HasApplied(db, agg, received + 1);
  }

  lemma ReceivedIsHigh(db: Db, agg: Aggregate, received: nat, high: nat)
    requires ReceivedTo(db, agg, received) && HighestIs(db, agg, high)
    ensures received <= high
  {
    if received > 0 {
      assert Has(db, agg, received);
      var id :| id in db.inbox && db.inbox[id].envelope.aggregate == agg && db.inbox[id].envelope.sequence == received;
      assert id in StreamRows(db, agg);
    }
  }

  lemma CompleteIsCaughtUp(log: Log, db: Db, agg: Aggregate, applied: nat)
    requires Inv(log, db) && agg in db.streams && AppliedTo(db, agg, applied)
    ensures applied <= db.streams[agg].cursor
    ensures applied >= db.streams[agg].snapshot <==> applied == db.streams[agg].cursor
  {
    assert FollowsLog(log, agg, db.streams[agg]);
    if applied > 0 {
      AppliedReach(log, db, agg, applied);
    }
    var next := applied + 1;
    assert !(db.streams[agg].snapshot < next <= db.streams[agg].cursor) by {
      if db.streams[agg].snapshot < next <= db.streams[agg].cursor {
        ProjectedIsApplied(log, db, agg, next);
      }
    }
  }

  /** A stream with nothing waiting at its cursor has not received the next event. */
  lemma GapIsReal(log: Log, db: Db, agg: Aggregate)
    requires Inv(log, db) && agg in db.streams
    requires !exists id | id in PendingRows(db, agg) :: db.inbox[id].envelope.sequence == db.streams[agg].cursor + 1
    ensures !Has(db, agg, db.streams[agg].cursor + 1)
  {
    forall id | id in db.inbox && db.inbox[id].envelope.aggregate == agg
      ensures db.inbox[id].envelope.sequence != db.streams[agg].cursor + 1
    {
      assert RowInPlace(db, id);
      assert db.inbox[id].appliedAt.None? ==> id in PendingRows(db, agg);
    }
  }

  lemma QuietStreamIsLevel(log: Log, db: Db, agg: Aggregate, c: Checkpoint)
    requires Inv(log, db) && Describes(db, agg, c) && c.pendingCount == 0 && c.lastError == None
    ensures c.receivedThrough == c.receivedHigh == c.appliedThrough == c.projectedThrough
  {
    assert PendingRows(db, agg) == {};
    CompleteIsCaughtUp(log, db, agg, c.appliedThrough);
    AppliedIsReceived(db, agg, c.appliedThrough, c.receivedThrough);
    ReceivedIsHigh(db, agg, c.receivedThrough, c.receivedHigh);
    assert FollowsLog(log, agg, db.streams[agg]);
    assert c.receivedHigh <= c.projectedThrough;
  }

  /** The watermarks are ordered, the history is complete exactly when application has reached
      the projection, a reported gap is real, and a quiet error-free stream has all four equal. */
  lemma WatermarksMeaning(log: Log, db: Db, agg: Aggregate, c: Checkpoint)
    requires Inv(log, db) && Describes(db, agg, c)
    ensures c.snapshotThrough <= c.projectedThrough
    ensures c.appliedThrough <= c.receivedThrough <= c.receivedHigh && c.appliedThrough <= c.projectedThrough
    ensures c.historyComplete <==> c.appliedThrough == c.projectedThrough
    ensures c.lastError == Some(SequenceGap) ==> !Has(db, agg, c.projectedThrough + 1) && c.projectedThrough < c.receivedHigh
    ensures c.pendingCount == 0 && c.lastError == None ==>
              c.receivedThrough == c.receivedHigh == c.appliedThrough == c.projectedThrough
  {
    assert FollowsLog(log, agg, db.streams[agg]);
    CompleteIsCaughtUp(log, db, agg, c.appliedThrough);
    AppliedIsReceived(db, agg, c.appliedThrough, c.receivedThrough);
    ReceivedIsHigh(db, agg, c.receivedThrough, c.receivedHigh);
    if c.lastError == Some(SequenceGap) {
      GapIsReal(log, db, agg);
    }
    if c.pendingCount == 0 && c.lastError == None {
      QuietStreamIsLevel(log, db, agg, c);
    }
  }
}
