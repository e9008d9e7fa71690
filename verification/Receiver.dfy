/** The durable receiver: its tables, what each transaction makes of them, and
    the object whose methods are those transactions. */
module Receiver {
  import opened Wrappers
  import opened Projection
  import opened Ordering

  const PAGE_LIMIT := 100

  type Wire = seq<bv8>

  /** The values the worker writes into `error_code`. */
  datatype Problem = DependencyMissing | ProjectionFailed | ProjectionLimit

  datatype Row = Row(
    envelope: Event, wire: Option<Wire>, receivedAt: int,
    appliedAt: Option<int>, problem: Option<Problem>, attempts: nat)

  datatype Stream = Stream(cursor: nat, snapshot: nat, state: Option<State>)

  datatype Refusal = PayloadMismatch | SequenceCollision

  datatype Incoming = Bytes(wire: Wire) | Canonical(event: Event)

  datatype Mismatch = Mismatch(eventId: Id, incoming: Incoming, reason: Refusal)

  datatype Snapshot = Snapshot(aggregate: Aggregate, throughSequence: nat, state: State)

  datatype Db = Db(
    revision: nat,
    streams: map<Aggregate, Stream>,
    inbox: map<Id, Row>,
    transitions: map<Id, Event>,
    mismatches: seq<Mismatch>,
    adoptions: seq<Snapshot>)

  const EmptyDb := Db(1, map[], map[], map[], [], [])

  datatype StoreResult = Stored | Duplicate | Refused(reason: Refusal)

  /** The tables' own constraints: keys match rows, rows reference streams, and one row per sequence. */
  ghost predicate Constraints(db: Db) {
    && (forall id | id in db.inbox ::
          && db.inbox[id].envelope.eventId == id
          && db.inbox[id].envelope.aggregate in db.streams
          && db.inbox[id].envelope.sequence > 0)
    && (forall a, b | a in db.inbox && b in db.inbox && a != b ::
          db.inbox[a].envelope.aggregate != db.inbox[b].envelope.aggregate ||
          db.inbox[a].envelope.sequence != db.inbox[b].envelope.sequence)
    && (forall agg | agg in db.streams :: db.streams[agg].snapshot <= db.streams[agg].cursor)
  }

  // ----- Receiving -----

  predicate Collides(db: Db, e: Event) {
    exists id | id in db.inbox ::
      id != e.eventId && db.inbox[id].envelope.aggregate == e.aggregate && db.inbox[id].envelope.sequence == e.sequence
  }

  predicate Contradicts(row: Row, e: Event, wire: Option<Wire>) {
    row.envelope != e || (wire.Some? && row.wire.Some? && wire != row.wire)
  }

  function EnsureStream(db: Db, agg: Aggregate): Db {
    if agg in db.streams then db else db.(streams := db.streams[agg := Stream(0, 0, None)])
  }

  function Refuse(db: Db, e: Event, wire: Option<Wire>, reason: Refusal): Db {
    var incoming := if wire.Some? then Bytes(wire.value) else Canonical(e);
    db.(mismatches := db.mismatches + [Mismatch(e.eventId, incoming, reason)])
  }

  function Store(db: Db, e: Event, wire: Option<Wire>, now: int): (Db, StoreResult) {
    if e.eventId in db.inbox && Contradicts(db.inbox[e.eventId], e, wire) then
      (Refuse(db, e, wire, PayloadMismatch), Refused(PayloadMismatch))
    else if Collides(db, e) then
      (Refuse(db, e, wire, SequenceCollision), Refused(SequenceCollision))
    else if e.eventId in db.inbox then
      var row := db.inbox[e.eventId];
      var kept := if wire.Some? && row.wire.None? then row.(wire := wire) else row;
      (db.(inbox := db.inbox[e.eventId := kept]), Duplicate)
    else
      var with := EnsureStream(db, e.aggregate);
      (with.(inbox := with.inbox[e.eventId := Row(e, wire, now, None, None, 0)], revision := with.revision + 1), Stored)
  }

  // ----- Applying -----

  predicate OutcomeKnown(db: Db, item: RequestItem) {
    var agg := Aggregate(Task, item.taskId);
    && agg in db.streams
    && ((db.streams[agg].state.Some? &&
         exists o | o in db.streams[agg].state.value.outcomes :: o.outcomeId == item.outcomeId)
        || exists id | id in db.transitions ::
             EventOutcome(db.transitions[id]).Some? && EventOutcome(db.transitions[id]).value.outcomeId == item.outcomeId)
  }

  predicate Dependencies(db: Db, e: Event) {
    e.body.Requested? ==> forall item | item in e.body.request.items :: OutcomeKnown(db, item)
  }

  predicate Covered(db: Db, e: Event)
    requires e.aggregate in db.streams
  {
    e.sequence <= db.streams[e.aggregate].snapshot
  }

  /** The WHERE clause of the worker's query. */
  predicate Eligible(db: Db, id: Id) {
    && id in db.inbox
    && db.inbox[id].appliedAt.None?
    && db.inbox[id].envelope.aggregate in db.streams
    && (Covered(db, db.inbox[id].envelope) ||
        db.inbox[id].envelope.sequence == db.streams[db.inbox[id].envelope.aggregate].cursor + 1)
  }

  /** Its ORDER BY: attempts, then arrival, then event id. */
  predicate Before(inbox: map<Id, Row>, a: Id, b: Id) {
    if a in inbox && b in inbox then
      || inbox[a].attempts < inbox[b].attempts
      || (inbox[a].attempts == inbox[b].attempts && inbox[a].receivedAt < inbox[b].receivedAt)
      || (inbox[a].attempts == inbox[b].attempts && inbox[a].receivedAt == inbox[b].receivedAt && a < b)
    else a < b
  }

  function EligibleIds(db: Db): set<Id> {
    set id | id in db.inbox && Eligible(db, id)
  }

  /** One row is preferred to the next all along the listing. */
  ghost predicate InRetryOrder(inbox: map<Id, Row>, ids: seq<Id>) {
    forall i, j | 0 <= i < j < |ids| :: Before(inbox, ids[i], ids[j])
  }

  function EligibleInOrder(db: Db): (all: seq<Id>)
    ensures forall id :: id in all <==> Eligible(db, id)
    ensures InRetryOrder(db.inbox, all)
  {
    var lt := (a, b) => Before(db.inbox, a, b);
    var all := Listed(EligibleIds(db), lt);
    assert forall i, j | 0 <= i < j < |all| :: lt(all[i], all[j]);
    all
  }

  lemma FrontIsPreferred(inbox: map<Id, Row>, all: seq<Id>, n: nat)
    requires n <= |all| && InRetryOrder(inbox, all)
    ensures InRetryOrder(inbox, all[..n])
    ensures forall id, k | id in all && id !in all[..n] && 0 <= k < n :: Before(inbox, all[..n][k], id)
  {
    forall id, k | id in all && id !in all[..n] && 0 <= k < n ensures Before(inbox, all[..n][k], id) {
      assert all == all[..n] + all[n..];
      var i :| 0 <= i < |all[n..]| && all[n..][i] == id;
      assert all[n + i] == id;
    }
  }

  function Page(db: Db): (ids: seq<Id>)
    ensures |ids| <= PAGE_LIMIT
    ensures forall id | id in ids :: Eligible(db, id)
    ensures InRetryOrder(db.inbox, ids)
    ensures forall id | Eligible(db, id) && id !in ids ::
      |ids| == PAGE_LIMIT && forall k | 0 <= k < |ids| :: Before(db.inbox, ids[k], id)
  {
    var all := EligibleInOrder(db);
    var n := if |all| <= PAGE_LIMIT then |all| else PAGE_LIMIT;
    FrontIsPreferred(db.inbox, all, n);
    all[..n]
  }

  function Failed(db: Db, id: Id, problem: Problem): Db
    requires id in db.inbox
  {
    var row := db.inbox[id];
    db.(inbox := db.inbox[id := row.(problem := Some(problem), attempts := row.attempts + 1)], revision := db.revision + 1)
  }

  function Projected(db: Db, e: Event): Result<State, ProjectionError>
    requires e.aggregate in db.streams
  {
    var stream := db.streams[e.aggregate];
    Project(if stream.state.Some? then stream.state.value else EmptyProjection, e)
  }

  /** The writes inside the savepoint. `rejected` stands for every failure that does not come
      from the mapping: the State schema check and an interruption of the writes. */
  function Attempt(db: Db, id: Id, rejected: bool, now: int): Result<Db, Problem>
    requires id in db.inbox && db.inbox[id].envelope.aggregate in db.streams
  {
    var row, e := db.inbox[id], db.inbox[id].envelope;
    var next := Projected(db, e);
    if !Covered(db, e) && next.Err? then
      Err(if next.error == LimitExceeded then ProjectionLimit else ProjectionFailed)
    else if rejected || id in db.transitions then Err(ProjectionFailed)
    else
      var stream := db.streams[e.aggregate];
      var streams := if Covered(db, e) then db.streams
                     else db.streams[e.aggregate := stream.(state := Some(next.value), cursor := e.sequence)];
      Ok(db.(streams := streams,
             transitions := db.transitions[id := e],
             inbox := db.inbox[id := row.(appliedAt := Some(now), problem := None, attempts := row.attempts + 1)],
             revision := db.revision + 1))
  }

  datatype RowResult = Skipped | Applied | Unsuccessful

  function ApplyRow(db: Db, id: Id, rejected: bool, now: int): (Db, RowResult)
    requires id in db.inbox && db.inbox[id].envelope.aggregate in db.streams
  {
    var e := db.inbox[id].envelope;
    if !Covered(db, e) && !Dependencies(db, e) then (Failed(db, id, DependencyMissing), Skipped)
    else
      match Attempt(db, id, rejected, now)
      case Ok(after) => (after, Applied)
      case Err(problem) => (Failed(db, id, problem), Unsuccessful)
  }

  /** One pass over the page: skip rows whose dependency is missing, stop at the first other row. */
  function ApplyRows(db: Db, ids: seq<Id>, rejects: set<Id>, now: int): (Db, bool)
    requires forall id | id in ids :: id in db.inbox && db.inbox[id].envelope.aggregate in db.streams
    decreases |ids|
  {
    if ids == [] then (db, false)
    else
      var (after, result) := ApplyRow(db, ids[0], ids[0] in rejects, now);
      if result.Skipped? then ApplyRows(after, ids[1..], rejects, now) else (after, result.Applied?)
  }

  function ApplyInbox(db: Db, rejects: set<Id>, now: int): (Db, bool) {
    ApplyRows(db, Page(db), rejects, now)
  }

  // ----- Adopting a snapshot -----

  /** The identity rules a snapshot must meet beside its schema. */
  predicate SnapshotFits(agg: Aggregate, s: Snapshot) {
    && s.aggregate == agg
    && (s.state.task.Some? ==> s.state.task.value.taskId == agg.id)
    && (forall o | o in s.state.outcomes :: o.taskId == agg.id)
    && (s.state.returnRequest.Some? ==> s.state.returnRequest.value.requestId == agg.id)
    && (forall n | n in s.state.notices :: n.event.aggregate == agg && n.event.sequence <= s.throughSequence)
  }

  datatype AdoptResult = InvalidSnapshot | NotNewer | Adopted

  function Adopt(db: Db, agg: Aggregate, s: Snapshot): (Db, AdoptResult) {
    if !SnapshotFits(agg, s) then (db, InvalidSnapshot)
    else
      var with := EnsureStream(db, agg);
      if with.streams[agg].cursor >= s.throughSequence then (with, NotNewer)
      else
        (with.(streams := with.streams[agg := Stream(s.throughSequence, s.throughSequence, Some(s.state))],
               adoptions := with.adoptions + [s],
               revision := with.revision + 1), Adopted)
  }

  // ----- Reading the status of a stream -----

  datatype StatusError = RowProblem(problem: Problem) | SequenceGap | HistoryUnavailable

  datatype Checkpoint = Checkpoint(
    aggregate: Aggregate, revision: nat,
    receivedThrough: nat, receivedHigh: nat, appliedThrough: nat, projectedThrough: nat, snapshotThrough: nat,
    historyComplete: bool, receivedAt: Option<int>, appliedAt: Option<int>,
    pendingCount: nat, lastError: Option<StatusError>)

  function StreamRows(db: Db, agg: Aggregate): set<Id> {
    set id | id in db.inbox && db.inbox[id].envelope.aggregate == agg
  }

  function PendingRows(db: Db, agg: Aggregate): set<Id> {
    set id | id in db.inbox && db.inbox[id].envelope.aggregate == agg && db.inbox[id].appliedAt.None?
  }

  predicate Has(db: Db, agg: Aggregate, n: nat) {
    exists id | id in db.inbox :: db.inbox[id].envelope.aggregate == agg && db.inbox[id].envelope.sequence == n
  }

  predicate HasApplied(db: Db, agg: Aggregate, n: nat) {
    exists id | id in db.inbox ::
      db.inbox[id].envelope.aggregate == agg && db.inbox[id].envelope.sequence == n && db.inbox[id].appliedAt.Some?
  }

  /** `n` is the end of the unbroken run of received sequences starting at 1. */
  ghost predicate ReceivedTo(db: Db, agg: Aggregate, n: nat) {
    (forall k | 1 <= k <= n :: Has(db, agg, k)) && !Has(db, agg, n + 1)
  }

  /** `n` is the end of the unbroken run of applied sequences starting at 1. */
  ghost predicate AppliedTo(db: Db, agg: Aggregate, n: nat) {
    (forall k | 1 <= k <= n :: HasApplied(db, agg, k)) && !HasApplied(db, agg, n + 1)
  }

  ghost predicate HighestIs(db: Db, agg: Aggregate, n: nat) {
    && (forall id | id in StreamRows(db, agg) :: db.inbox[id].envelope.sequence <= n)
    && (if StreamRows(db, agg) == {} then n == 0 else Has(db, agg, n))
  }

  ghost predicate LatestReceipt(db: Db, agg: Aggregate, t: Option<int>) {
    match t
    case None => StreamRows(db, agg) == {}
    case Some(at) =>
      && (exists id | id in StreamRows(db, agg) :: db.inbox[id].receivedAt == at)
      && (forall id | id in StreamRows(db, agg) :: db.inbox[id].receivedAt <= at)
  }

  ghost predicate LatestApplication(db: Db, agg: Aggregate, t: Option<int>) {
    match t
    case None => forall id | id in StreamRows(db, agg) :: db.inbox[id].appliedAt.None?
    case Some(at) =>
      && (exists id | id in StreamRows(db, agg) :: db.inbox[id].appliedAt == Some(at))
      && (forall id | id in StreamRows(db, agg) && db.inbox[id].appliedAt.Some? :: db.inbox[id].appliedAt.value <= at)
  }

  /** The problem of the earliest pending row that has one. */
  ghost predicate EarliestProblem(db: Db, agg: Aggregate, problem: Problem) {
    exists id | id in PendingRows(db, agg) ::
      && db.inbox[id].problem == Some(problem)
      && forall other | other in PendingRows(db, agg) && db.inbox[other].problem.Some? ::
           db.inbox[id].envelope.sequence <= db.inbox[other].envelope.sequence
  }

  ghost predicate ErrorIs(db: Db, agg: Aggregate, c: Checkpoint)
    requires agg in db.streams
  {
    var stream := db.streams[agg];
    if exists id | id in PendingRows(db, agg) :: db.inbox[id].problem.Some? then
      c.lastError.Some? && c.lastError.value.RowProblem? && EarliestProblem(db, agg, c.lastError.value.problem)
    else if c.receivedHigh > stream.cursor && c.receivedHigh > stream.snapshot &&
            !(exists id | id in PendingRows(db, agg) :: db.inbox[id].envelope.sequence == stream.cursor + 1) then
      c.lastError == Some(SequenceGap)
    else if c.appliedThrough < stream.snapshot then c.lastError == Some(HistoryUnavailable)
    else c.lastError == None
  }

  /** What a status read reports, said without its loops. */
  ghost predicate Describes(db: Db, agg: Aggregate, c: Checkpoint) {
    && agg in db.streams
    && c.aggregate == agg && c.revision == db.revision
    && ReceivedTo(db, agg, c.receivedThrough) && AppliedTo(db, agg, c.appliedThrough) && HighestIs(db, agg, c.receivedHigh)
    && c.projectedThrough == db.streams[agg].cursor && c.snapshotThrough == db.streams[agg].snapshot
    && (c.historyComplete <==> c.appliedThrough >= c.snapshotThrough)
    && LatestReceipt(db, agg, c.receivedAt) && LatestApplication(db, agg, c.appliedAt)
    && c.pendingCount == |PendingRows(db, agg)|
    && ErrorIs(db, agg, c)
  }

  // ----- Every transaction keeps the constraints -----

  lemma NewRowKeepsConstraints(db: Db, e: Event, row: Row)
    requires Constraints(db) && e.sequence > 0 && e.eventId !in db.inbox && row.envelope == e && !Collides(db, e)
    ensures var with := EnsureStream(db, e.aggregate); Constraints(with.(inbox := with.inbox[e.eventId := row], revision := with.revision + 1))
  {
    assert forall id | id in db.inbox ::
      db.inbox[id].envelope.aggregate != e.aggregate || db.inbox[id].envelope.sequence != e.sequence;
  }

  lemma StoreKeepsConstraints(db: Db, e: Event, wire: Option<Wire>, now: int)
    requires Constraints(db) && e.sequence > 0
    ensures Constraints(Store(db, e, wire, now).0)
  {
    if Store(db, e, wire, now).1.Stored? {
      NewRowKeepsConstraints(db, e, Row(e, wire, now, None, None, 0));
    } else if Store(db, e, wire, now).1.Duplicate? {
      SameRowsKeepConstraints(db, Store(db, e, wire, now).0);
    }
  }

  /** The same rows, apart from what a worker records on them. */
  ghost predicate SameRows(before: map<Id, Row>, after: map<Id, Row>) {
    && before.Keys == after.Keys
    && forall id | id in before ::
         before[id].envelope == after[id].envelope && before[id].receivedAt == after[id].receivedAt
  }

  lemma SameRowsKeepConstraints(before: Db, after: Db)
    requires Constraints(before) && SameRows(before.inbox, after.inbox) && before.streams.Keys <= after.streams.Keys
    requires forall agg | agg in after.streams :: after.streams[agg].snapshot <= after.streams[agg].cursor
    ensures Constraints(after)
  {
    forall a, b | a in after.inbox && b in after.inbox && a != b
      ensures after.inbox[a].envelope.aggregate != after.inbox[b].envelope.aggregate ||
              after.inbox[a].envelope.sequence != after.inbox[b].envelope.sequence
    {
      assert before.inbox[a].envelope == after.inbox[a].envelope && before.inbox[b].envelope == after.inbox[b].envelope;
    }
  }

  lemma ApplyRowKeepsConstraints(db: Db, id: Id, rejected: bool, now: int)
    requires Constraints(db) && id in db.inbox
    ensures SameRows(db.inbox, ApplyRow(db, id, rejected, now).0.inbox)
    ensures db.streams.Keys == ApplyRow(db, id, rejected, now).0.streams.Keys
    ensures Constraints(ApplyRow(db, id, rejected, now).0)
  {
    var after := ApplyRow(db, id, rejected, now).0;
    SameRowsKeepConstraints(db, after);
  }

  lemma {:induction false} RowsKeepConstraints(db: Db, ids: seq<Id>, rejects: set<Id>, now: int)
    requires Constraints(db) && forall id | id in ids :: id in db.inbox
    ensures forall id | id in ids :: id in db.inbox && db.inbox[id].envelope.aggregate in db.streams
    ensures Constraints(ApplyRows(db, ids, rejects, now).0)
    decreases |ids|
  {
    if ids != [] {
      assert ids[0] in ids;
      ApplyRowKeepsConstraints(db, ids[0], ids[0] in rejects, now);
      var (mid, result) := ApplyRow(db, ids[0], ids[0] in rejects, now);
      if result.Skipped? {
        RowsKeepConstraints(mid, ids[1..], rejects, now);
      }
    }
  }

  lemma AdoptKeepsConstraints(db: Db, agg: Aggregate, s: Snapshot)
    requires Constraints(db)
    ensures Constraints(Adopt(db, agg, s).0)
  {
    SameRowsKeepConstraints(db, Adopt(db, agg, s).0);
  }
}
