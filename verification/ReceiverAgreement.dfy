/** What confluence needs, and where a receiver that has received everything ends. */
module ReceiverAgreement {
  import opened Wrappers
  import opened Projection
  import opened Receiver
  import opened ReceiverRefinement
  import opened ReceiverFairness
  import opened ReceiverConfluence

  // ----- A snapshot can take a met dependency away -----

  const TASK := Aggregate(Task, 1)
  const RETURNS := Aggregate(ReturnRequest, 2)
  const FIRST := Outcome(11, 5, 1, 1, "")
  const SECOND := Outcome(12, 5, 1, 2, "")
  const RECORDED := Event(101, TASK, 1, OutcomeRecorded(FIRST))
  const CORRECTED := Event(102, TASK, 2, OutcomeCorrected(Correction(Some(11), 1, SECOND)))
  const REQUEST := Event(201, RETURNS, 1, Requested(Request(2, [RequestItem(31, 1, 11, "", 1, 0, 0, 0, 1)])))
  const SAMPLE_LOG: Log := map[TASK := [RECORDED, CORRECTED], RETURNS := [REQUEST]]
  const AT_FIRST := State(None, [FIRST], None, [], [])

  /** A receiver that adopted the task's snapshot at 1 and then received the later events. */
  const SAMPLE_DB := Db(
    4,
    map[TASK := Stream(1, 1, Some(AT_FIRST)), RETURNS := Stream(0, 0, None)],
    map[102 := Row(CORRECTED, None, 0, None, None, 0), 201 := Row(REQUEST, None, 0, None, None, 0)],
    map[],
    [],
    [Snapshot(TASK, 1, AT_FIRST)])

  lemma SampleFolds()
    ensures Fold([RECORDED]) == Ok(AT_FIRST) && Fold([RECORDED, CORRECTED]).Ok? && Fold([REQUEST]).Ok?
  {
    assert Fold([]) == Ok(EmptyProjection);
    assert [RECORDED][..0] == [] && [REQUEST][..0] == [] && [RECORDED, CORRECTED][..1] == [RECORDED];
    assert OutcomesWithout([], 5) + [FIRST] == [FIRST];
    assert Project(EmptyProjection, RECORDED) == Ok(AT_FIRST);
    assert FindOutcome([FIRST], 5) == Some(FIRST) && OutcomesWithout([FIRST], 5) == [];
  }

  lemma SampleIsReachable()
    ensures Fold(SAMPLE_LOG[TASK][..1]) == Ok(AT_FIRST)
    ensures Published(SAMPLE_LOG, CORRECTED) && Published(SAMPLE_LOG, REQUEST)
    ensures SAMPLE_DB == Run(EmptyDb, [AdoptStep(TASK, Snapshot(TASK, 1, AT_FIRST)),
                                       StoreStep(CORRECTED, None, 0), StoreStep(REQUEST, None, 0)])
  {
    SampleFolds();
    assert SAMPLE_LOG[TASK][..1] == [RECORDED];
    SampleSteps();
  }

  lemma SampleSteps()
    ensures SAMPLE_DB == Run(EmptyDb, [AdoptStep(TASK, Snapshot(TASK, 1, AT_FIRST)),
                                       StoreStep(CORRECTED, None, 0), StoreStep(REQUEST, None, 0)])
  {
    var a, b, c := AdoptStep(TASK, Snapshot(TASK, 1, AT_FIRST)), StoreStep(CORRECTED, None, 0), StoreStep(REQUEST, None, 0);
    assert [a, b, c][..2] == [a, b] && [a, b][..1] == [a] && [a][..0] == [];
    var d0 := EmptyDb;
    var d1 := Next(d0, a);
    assert d1 == Db(2, map[TASK := Stream(1, 1, Some(AT_FIRST))], map[], map[], [], [Snapshot(TASK, 1, AT_FIRST)]);
    var d2 := Next(d1, b);
    assert Run(EmptyDb, [a]) == d1 && Run(EmptyDb, [a, b]) == d2;
  }

  function Streams(cursor: nat, outcome: Outcome): map<Aggregate, Stream> {
    map[TASK := Stream(cursor, 1, Some(State(None, [outcome], None, [], []))), RETURNS := Stream(0, 0, None)]
  }

  lemma SampleCanFork()
    ensures Ready(SAMPLE_DB, 102) && StreamsAfter(SAMPLE_DB, CORRECTED) == Streams(2, SECOND)
    ensures Ready(SAMPLE_DB, 201)
  {
    assert FindOutcome([FIRST], 5) == Some(FIRST);
    assert OutcomesWithout([FIRST], 5) == [];
    assert OutcomesWithout([FIRST], 5) + [SECOND] == [SECOND];
    var item := RequestItem(31, 1, 11, "", 1, 0, 0, 0, 1);
    assert FIRST in SAMPLE_DB.streams[TASK].state.value.outcomes;
    assert OutcomeKnown(SAMPLE_DB, item);
    assert Dependencies(SAMPLE_DB, REQUEST);
  }

  /** With an adopted snapshot the order does matter: applying the correction first removes the
      outcome the return request waits for, although the request could have been applied. */
  lemma SnapshotLosesDependency(stuck: Db)
    requires Ready(SAMPLE_DB, 102) && Fired(SAMPLE_DB, stuck, 102)
    ensures Ready(SAMPLE_DB, 201)
    ensures Quiescent(stuck) && 201 in stuck.inbox && stuck.inbox[201].appliedAt.None?
  {
    SampleCanFork();
    var item := RequestItem(31, 1, 11, "", 1, 0, 0, 0, 1);
    assert stuck.streams == Streams(2, SECOND);
    assert stuck.transitions == map[102 := CORRECTED];
    assert !OutcomeKnown(stuck, item);
    assert item in REQUEST.body.request.items;
    assert !Dependencies(stuck, REQUEST);
    forall id ensures !Ready(stuck, id) {
      if id in stuck.inbox {
        assert id == 102 || id == 201;
        assert stuck.inbox[id].envelope == SAMPLE_DB.inbox[id].envelope;
      }
    }
  }

  /** Every event of the sample is one of these three. */
  lemma SampleIsPublishedOnce()
    ensures forall e | Published(SAMPLE_LOG, e) :: e == RECORDED || e == CORRECTED || e == REQUEST
    ensures InTheirPlaces(SAMPLE_LOG) && UniqueIds(SAMPLE_LOG)
  {
  }

  lemma SampleIsReadable()
    ensures Readable(SAMPLE_LOG)
  {
    SampleFolds();
  }

  // ----- A receiver that has received everything -----

  ghost predicate Delivered(log: Log, db: Db) {
    forall agg, i | agg in log && 0 <= i < |log[agg]| ::
      log[agg][i].eventId in db.inbox && db.inbox[log[agg][i].eventId].envelope == log[agg][i]
  }

  /** The producer published in some order: `rank` grows along every stream, and a return
      request comes after each outcome it names, which stands in its task's own stream. */
  ghost predicate Causal(log: Log, rank: map<Id, nat>) {
    && (forall agg, i | agg in log && 0 <= i < |log[agg]| ::
          && log[agg][i].aggregate == agg && log[agg][i].sequence == i + 1 && log[agg][i].eventId in rank)
    && (forall agg, i | agg in log && 0 < i < |log[agg]| ::
          rank[log[agg][i - 1].eventId] < rank[log[agg][i].eventId])
    && (forall agg, i | agg in log && 0 <= i < |log[agg]| && log[agg][i].body.Requested? ::
          forall item | item in log[agg][i].body.request.items ::
            Precedes(log, rank, item, log[agg][i]))
  }

  ghost predicate Precedes(log: Log, rank: map<Id, nat>, item: RequestItem, e: Event)
    requires e.eventId in rank
  {
    var task := Aggregate(Task, item.taskId);
    task in log && exists k | 0 <= k < |log[task]| ::
      && EventOutcome(log[task][k]).Some? && EventOutcome(log[task][k]).value.outcomeId == item.outcomeId
      && log[task][k].eventId in rank && rank[log[task][k].eventId] < rank[e.eventId]
  }

  /** The mapping accepts the whole log, as it must for the trivial consumer to read it. */
  ghost predicate Readable(log: Log) {
    forall agg | agg in log :: Fold(log[agg]).Ok?
  }

  lemma {:induction false} PrefixReadable(events: seq<Event>, i: nat)
    requires i <= |events| && Fold(events).Ok?
    ensures Fold(events[..i]).Ok?
    decreases |events|
  {
    if i == |events| {
      assert events[..i] == events;
    } else {
      PrefixReadable(events[..|events| - 1], i);
      assert events[..|events| - 1][..i] == events[..i];
    }
  }

  lemma NextProjects(log: Log, db: Db, agg: Aggregate, i: nat)
    requires StreamsFollow(log, db) && Readable(log) && agg in log && i < |log[agg]| && agg in db.streams
    requires db.streams[agg].cursor == i && log[agg][i].aggregate == agg
    ensures Projected(db, log[agg][i]).Ok?
  {
    assert FollowsLog(log, agg, db.streams[agg]);
    PrefixReadable(log[agg], i + 1);
    var prefix := log[agg][..i + 1];
    assert prefix[..|prefix| - 1] == log[agg][..i];
    assert i == 0 ==> log[agg][..i] == [];
  }

  /** Every event of lower rank than `e` has been applied. */
  ghost predicate AppliedBefore(log: Log, rank: map<Id, nat>, db: Db, e: Event)
    requires e.eventId in rank
  {
    forall agg, i | agg in log && 0 <= i < |log[agg]| && log[agg][i].eventId in rank && rank[log[agg][i].eventId] < rank[e.eventId] ::
      log[agg][i].eventId in db.transitions
  }

  lemma ItemWhenApplied(log: Log, rank: map<Id, nat>, db: Db, e: Event, item: RequestItem)
    requires HistoryIsApplied(db) && RowsInPlace(db) && Delivered(log, db) && e.eventId in rank
    requires Precedes(log, rank, item, e) && AppliedBefore(log, rank, db, e)
    requires forall agg, i | agg in log && 0 <= i < |log[agg]| :: log[agg][i].aggregate == agg
    ensures OutcomeKnown(db, item)
  {
    var task := Aggregate(Task, item.taskId);
    var k :| 0 <= k < |log[task]| && EventOutcome(log[task][k]).Some? && EventOutcome(log[task][k]).value.outcomeId == item.outcomeId &&
      log[task][k].eventId in rank && rank[log[task][k].eventId] < rank[e.eventId];
    var id := log[task][k].eventId;
    assert id in db.transitions && db.inbox[id].envelope == log[task][k];
    assert db.transitions[id] == log[task][k];
    assert RowInPlace(db, id);
  }

  /** In a quiescent receiver that holds the whole log, every event has been applied. */
  lemma {:induction false} AllApplied(log: Log, rank: map<Id, nat>, db: Db, agg: Aggregate, i: nat)
    requires Inv(log, db) && Delivered(log, db) && Causal(log, rank) && Readable(log) && Quiescent(db)
    requires agg in log && i < |log[agg]|
    ensures log[agg][i].eventId in db.transitions
    decreases rank[log[agg][i].eventId]
  {
    var id := log[agg][i].eventId;
    forall a, j | a in log && 0 <= j < |log[a]| && log[a][j].eventId in rank && rank[log[a][j].eventId] < rank[id]
      ensures log[a][j].eventId in db.transitions
    {
      AllApplied(log, rank, db, a, j);
    }
    if id !in db.transitions {
      BecomesReady(log, rank, db, agg, i);
    }
  }

  lemma BecomesReady(log: Log, rank: map<Id, nat>, db: Db, agg: Aggregate, i: nat)
    requires Inv(log, db) && Delivered(log, db) && Causal(log, rank) && Readable(log)
    requires agg in log && i < |log[agg]| && log[agg][i].eventId !in db.transitions
    requires AppliedBefore(log, rank, db, log[agg][i])
    ensures Ready(db, log[agg][i].eventId)
  {
    var e := log[agg][i];
    PredecessorApplied(log, rank, db, agg, i);
    if !Covered(db, e) {
      NextProjects(log, db, agg, i);
      DependenciesWhenApplied(log, rank, db, agg, i);
    }
  }

  lemma DependenciesWhenApplied(log: Log, rank: map<Id, nat>, db: Db, agg: Aggregate, i: nat)
    requires HistoryIsApplied(db) && RowsInPlace(db) && Delivered(log, db) && Causal(log, rank)
    requires agg in log && i < |log[agg]| && AppliedBefore(log, rank, db, log[agg][i])
    ensures Dependencies(db, log[agg][i])
  {
    var e := log[agg][i];
    if e.body.Requested? {
      forall item | item in e.body.request.items ensures OutcomeKnown(db, item) {
        assert Precedes(log, rank, item, e);
        ItemWhenApplied(log, rank, db, e, item);
      }
    }
  }

  /** Once its predecessors are applied, a pending event beyond the snapshot is the next one. */
  lemma PredecessorApplied(log: Log, rank: map<Id, nat>, db: Db, agg: Aggregate, i: nat)
    requires HistoryIsApplied(db) && RowsInPlace(db) && Delivered(log, db) && Causal(log, rank)
    requires agg in log && i < |log[agg]| && log[agg][i].eventId !in db.transitions
    requires AppliedBefore(log, rank, db, log[agg][i])
    ensures Eligible(db, log[agg][i].eventId)
    ensures agg in db.streams && (log[agg][i].sequence > db.streams[agg].snapshot ==> db.streams[agg].cursor == i)
  {
    var e := log[agg][i];
    assert RowInPlace(db, e.eventId) && db.inbox[e.eventId].envelope == e;
    if i > 0 {
      var before := log[agg][i - 1];
      assert rank[before.eventId] < rank[e.eventId];
      assert before.eventId in db.transitions && db.inbox[before.eventId].envelope == before;
      assert RowInPlace(db, before.eventId);
    }
  }

  // ----- Getting there -----

  function Repeated(step: Db -> Db, db: Db, n: nat): Db
    decreases n
  {
    if n == 0 then db else Repeated(step, step(db), n - 1)
  }

  /** One call of the worker in which no write is made to fail. */
  function OneCall(now: int): Db -> Db {
    (db: Db) => ApplyInbox(db, {}, now).0
  }

  /** The receiver after `n` such calls. */
  function Worked(db: Db, n: nat, now: int): Db {
    Repeated(OneCall(now), db, n)
  }

  function Waiting(db: Db): set<Id> {
    set id | id in db.inbox && db.inbox[id].appliedAt.None?
  }

  lemma FiringShrinksWaiting(db: Db, after: Db, id: Id)
    requires Ready(db, id) && Fired(db, after, id)
    ensures |Waiting(after)| < |Waiting(db)|
  {
    assert id in Waiting(db);
    assert Waiting(after) == Waiting(db) - {id};
  }

  lemma CallAdvances(db: Db, id: Id, now: int)
    requires Ready(db, id)
    ensures var (after, applied) := ApplyInbox(db, {}, now);
            if applied then |Waiting(after)| < |Waiting(db)|
            else Waiting(after) == Waiting(db) && Ready(after, id) && Debt(after, id) < Debt(db, id)
  {
    ApplyShape(db, {}, now);
    var (after, applied) := ApplyInbox(db, {}, now);
    if applied {
      var fired :| fired !in {} && Ready(db, fired) && Fired(db, after, fired);
      FiringShrinksWaiting(db, after, fired);
    } else {
      UnsuccessfulCallPays(db, id, Call({}, now));
      assert SameHistory(db, after);
    }
  }

  /** The step applied an event, or brought a ready one nearer. */
  ghost predicate Nearer(db: Db, after: Db, id: Id)
    requires id in db.inbox
  {
    || |Waiting(after)| < |Waiting(db)|
    || (Waiting(after) == Waiting(db) && Ready(after, id) && Debt(after, id) < Debt(db, id))
  }

  ghost predicate Advances(step: Db -> Db) {
    forall db, id {:trigger Nearer(db, step(db), id)} | Ready(db, id) :: Nearer(db, step(db), id)
  }

  lemma CallsAdvance(now: int)
    ensures Advances(OneCall(now))
  {
    forall db, id | Ready(db, id) ensures Nearer(db, OneCall(now)(db), id) {
      CallAdvances(db, id, now);
    }
  }

  lemma {:induction false} EndReached(step: Db -> Db, db: Db) returns (n: nat)
    requires Advances(step)
    ensures Quiescent(Repeated(step, db, n))
    decreases |Waiting(db)|, 1, 0
  {
    if id :| Ready(db, id) {
      n := EndReachedFrom(step, db, id);
    } else {
      n := 0;
    }
  }

  lemma {:induction false} EndReachedFrom(step: Db -> Db, db: Db, id: Id) returns (n: nat)
    requires Advances(step) && Ready(db, id)
    ensures Quiescent(Repeated(step, db, n))
    decreases |Waiting(db)|, 0, Debt(db, id)
  {
    assert Nearer(db, step(db), id);
    var m;
    if |Waiting(step(db))| < |Waiting(db)| {
      m := EndReached(step, step(db));
    } else {
      m := EndReachedFrom(step, step(db), id);
    }
    n := m + 1;
  }

  /** Repeating the call reaches a receiver in which nothing more can be applied. */
  lemma WorkEnds(db: Db, now: int) returns (n: nat)
    ensures Quiescent(Worked(db, n, now))
  {
    CallsAdvance(now);
    n := EndReached(OneCall(now), db);
  }

  ghost predicate Adding(log: Log, step: Db -> Db) {
    forall db {:trigger step(db)} | Inv(log, db) :: Inv(log, step(db)) && Below(db, step(db))
  }

  lemma {:induction false} RepeatedAdds(log: Log, step: Db -> Db, db: Db, n: nat)
    requires Adding(log, step) && Inv(log, db)
    ensures Inv(log, Repeated(step, db, n)) && Below(db, Repeated(step, db, n))
    decreases n
  {
    if n > 0 {
      assert Inv(log, step(db)) && Below(db, step(db));
      RepeatedAdds(log, step, step(db), n - 1);
      BelowIsTransitive(db, step(db), Repeated(step, step(db), n - 1));
    }
  }

  lemma WorkKeeps(log: Log, db: Db, n: nat, now: int)
    requires Inv(log, db)
    ensures Inv(log, Worked(db, n, now)) && Below(db, Worked(db, n, now))
  {
    forall d | Inv(log, d) ensures Inv(log, OneCall(now)(d)) && Below(d, OneCall(now)(d)) {
      CallAdds(log, d, Call({}, now));
    }
    RepeatedAdds(log, OneCall(now), db, n);
  }

  /** The receiver stands where the trivial consumer of the log ends, with every event in its history. */
  ghost predicate CaughtUp(log: Log, db: Db) {
    && (forall agg, i | agg in log && 0 <= i < |log[agg]| :: log[agg][i].eventId in db.transitions)
    && (forall agg | agg in log && log[agg] != [] ::
          agg in db.streams && db.streams[agg].cursor == |log[agg]| && Fold(log[agg]) == Ok(StateOf(db.streams[agg])))
  }

  lemma QuiescentIsCaughtUp(log: Log, rank: map<Id, nat>, db: Db)
    requires Inv(log, db) && Delivered(log, db) && Causal(log, rank) && Readable(log) && Quiescent(db)
    ensures CaughtUp(log, db)
  {
    forall agg, i | agg in log && 0 <= i < |log[agg]| ensures log[agg][i].eventId in db.transitions {
      AllApplied(log, rank, db, agg, i);
    }
    forall agg | agg in log && log[agg] != []
      ensures agg in db.streams && db.streams[agg].cursor == |log[agg]| && Fold(log[agg]) == Ok(StateOf(db.streams[agg]))
    {
      LastAppliedIsEnd(log, db, agg);
    }
  }

  lemma DeliveredStays(log: Log, db: Db, after: Db)
    requires Delivered(log, db) && Below(db, after)
    ensures Delivered(log, after)
  {
  }

  /** A receiver into which every published event was delivered, in whatever order and however
      often, ends after finitely many calls of the worker exactly where the trivial consumer
      ends, with every event in its history. */
  lemma EventualAgreement(log: Log, rank: map<Id, nat>, db: Db, now: int) returns (n: nat)
    requires Inv(log, db) && Delivered(log, db) && Causal(log, rank) && Readable(log)
    ensures CaughtUp(log, Worked(db, n, now))
  {
    n := WorkEnds(db, now);
    WorkKeeps(log, db, n, now);
    DeliveredStays(log, db, Worked(db, n, now));
    QuiescentIsCaughtUp(log, rank, Worked(db, n, now));
  }

  lemma LastAppliedIsEnd(log: Log, db: Db, agg: Aggregate)
    requires Inv(log, db) && Delivered(log, db) && agg in log && log[agg] != []
    requires log[agg][|log[agg]| - 1].aggregate == agg && log[agg][|log[agg]| - 1].sequence == |log[agg]|
    requires log[agg][|log[agg]| - 1].eventId in db.transitions
    ensures agg in db.streams && db.streams[agg].cursor == |log[agg]| && Fold(log[agg]) == Ok(StateOf(db.streams[agg]))
  {
    var last := log[agg][|log[agg]| - 1];
    assert db.inbox[last.eventId].envelope == last;
    assert RowInPlace(db, last.eventId);
    assert FollowsLog(log, agg, db.streams[agg]);
    assert log[agg][..|log[agg]|] == log[agg];
  }
}
