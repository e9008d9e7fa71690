/** What the receiver's transactions decide and leave, said about the rows of its tables alone. */
module ReceiverRules {
  import opened Wrappers
  import opened Projection
  import opened Ordering
  import opened Receiver

  // ----- Receiving -----

  /** The row that is already stored under this id holds something else. */
  predicate SaysOtherwise(row: Row, e: Event, wire: Option<Wire>) {
    row.envelope != e || (wire.Some? && row.wire.Some? && row.wire.value != wire.value)
  }

  predicate PlaceTaken(db: Db, e: Event) {
    exists id | id in db.inbox && id != e.eventId ::
      (db.inbox[id].envelope.aggregate, db.inbox[id].envelope.sequence) == (e.aggregate, e.sequence)
  }

  lemma StoreExactlyWhen(db: Db, e: Event, wire: Option<Wire>, now: int)
    ensures var result, known := Store(db, e, wire, now).1, e.eventId in db.inbox;
      && (result == Refused(PayloadMismatch) <==> known && SaysOtherwise(db.inbox[e.eventId], e, wire))
      && (result == Refused(SequenceCollision) <==>
            PlaceTaken(db, e) && !(known && SaysOtherwise(db.inbox[e.eventId], e, wire)))
      && (result == Duplicate <==> known && !SaysOtherwise(db.inbox[e.eventId], e, wire) && !PlaceTaken(db, e))
      && (result == Stored <==> !known && !PlaceTaken(db, e))
  {
    assert Collides(db, e) <==> PlaceTaken(db, e);
  }

  /** The streams of before and the event's own, new ones standing at their beginning. */
  predicate StreamOpened(db: Db, after: Db, agg: Aggregate) {
    && after.streams.Keys == db.streams.Keys + {agg}
    && (forall other | other in db.streams :: after.streams[other] == db.streams[other])
    && (agg !in db.streams ==> after.streams[agg] == Stream(0, 0, None))
  }

  /** What a receipt leaves: a note for a refusal, the late wire body for a repetition, or one new row. */
  lemma StoreLeaves(db: Db, e: Event, wire: Option<Wire>, now: int)
    ensures var (after, result) := Store(db, e, wire, now);
      && (after.transitions, after.adoptions) == (db.transitions, db.adoptions)
      && (forall id | id in db.inbox && id != e.eventId :: id in after.inbox && after.inbox[id] == db.inbox[id])
      && match result
         case Refused(reason) =>
           && (after.inbox, after.streams, after.revision) == (db.inbox, db.streams, db.revision)
           && |after.mismatches| == |db.mismatches| + 1 && after.mismatches[..|db.mismatches|] == db.mismatches
           && after.mismatches[|db.mismatches|] == Mismatch(e.eventId, match wire case Some(w) => Bytes(w) case None => Canonical(e), reason)
         case Duplicate =>
           && (after.mismatches, after.streams, after.revision) == (db.mismatches, db.streams, db.revision)
           && after.inbox.Keys == db.inbox.Keys
           && after.inbox[e.eventId] == db.inbox[e.eventId].(wire := after.inbox[e.eventId].wire)
           && after.inbox[e.eventId].wire == (match db.inbox[e.eventId].wire case Some(w) => Some(w) case None => wire)
         case Stored =>
           && after.mismatches == db.mismatches && after.revision == db.revision + 1 && StreamOpened(db, after, e.aggregate)
           && after.inbox.Keys == db.inbox.Keys + {e.eventId} && after.inbox[e.eventId] == Row(e, wire, now, None, None, 0)
  {
    StoreExactlyWhen(db, e, wire, now);
  }

  // ----- The order in which rows are tried -----

  /** A pending row that a snapshot covers or that comes next in its stream. */
  predicate Awaiting(db: Db, id: Id) {
    && id in db.inbox && db.inbox[id].appliedAt == None && db.inbox[id].envelope.aggregate in db.streams
    && var stream := db.streams[db.inbox[id].envelope.aggregate];
      db.inbox[id].envelope.sequence <= stream.snapshot || db.inbox[id].envelope.sequence == stream.cursor + 1
  }

  /** Fewer attempts come first, then the earlier arrival, then the smaller event id. */
  predicate NoLater(inbox: map<Id, Row>, a: Id, b: Id) {
    && a in inbox && b in inbox && inbox[a].attempts <= inbox[b].attempts
    && (inbox[a].attempts == inbox[b].attempts ==> inbox[a].receivedAt <= inbox[b].receivedAt)
    && (inbox[a].attempts == inbox[b].attempts && inbox[a].receivedAt == inbox[b].receivedAt ==> a <= b)
  }

  lemma BeforeIsNoLater(db: Db, a: Id, b: Id)
    requires a in db.inbox && b in db.inbox && Before(db.inbox, a, b)
    ensures a != b && NoLater(db.inbox, a, b)
  {}

  /** The page is in this order, and only a full page leaves rows out, each no earlier than the whole page. */
  lemma PageInOrder(db: Db, ids: seq<Id>)
    requires ids == Page(db)
    ensures |ids| <= 100 && forall id | id in ids :: Awaiting(db, id)
    ensures forall i, j | 0 <= i < j < |ids| :: ids[i] != ids[j] && NoLater(db.inbox, ids[i], ids[j])
    ensures forall id | Awaiting(db, id) && id !in ids :: |ids| == 100 && forall k | 0 <= k < |ids| :: NoLater(db.inbox, ids[k], id)
  {
    forall id | id in ids ensures Awaiting(db, id) {
      assert Eligible(db, id);
    }
    forall i, j | 0 <= i < j < |ids| ensures ids[i] != ids[j] && NoLater(db.inbox, ids[i], ids[j]) {
      assert ids[i] in ids && ids[j] in ids && Before(db.inbox, ids[i], ids[j]);
      BeforeIsNoLater(db, ids[i], ids[j]);
    }
    forall id, k | Awaiting(db, id) && id !in ids && 0 <= k < |ids| ensures NoLater(db.inbox, ids[k], id) {
      assert Eligible(db, id) && ids[k] in ids && Before(db.inbox, ids[k], id);
      BeforeIsNoLater(db, ids[k], id);
    }
  }

  // ----- What the worker does with a row -----

  /** The outcome stands in the state of its task's stream or came in with an applied event. */
  predicate OutcomeSeen(db: Db, item: RequestItem) {
    && Aggregate(Task, item.taskId) in db.streams
    && ((match db.streams[Aggregate(Task, item.taskId)].state
         case None => false
         case Some(s) => exists o | o in s.outcomes :: o.outcomeId == item.outcomeId)
        || exists id | id in db.transitions ::
             match db.transitions[id].body
             case OutcomeRecorded(o) => o.outcomeId == item.outcomeId
             case OutcomeCorrected(c) => c.outcome.outcomeId == item.outcomeId
             case _ => false)
  }

  predicate CoveredRow(db: Db, id: Id)
    requires Awaiting(db, id)
  {
    db.inbox[id].envelope.sequence <= db.streams[db.inbox[id].envelope.aggregate].snapshot
  }

  /** A return request for an outcome that was not seen yet. */
  predicate HeldUp(db: Db, id: Id)
    requires Awaiting(db, id)
  {
    && !CoveredRow(db, id)
    && match db.inbox[id].envelope.body
       case Requested(request) => exists item | item in request.items :: !OutcomeSeen(db, item)
       case _ => false
  }

  lemma HeldUpMeans(db: Db, id: Id)
    requires Awaiting(db, id)
    ensures HeldUp(db, id) <==> !Covered(db, db.inbox[id].envelope) && !Dependencies(db, db.inbox[id].envelope)
  {
    forall item: RequestItem ensures OutcomeSeen(db, item) <==> OutcomeKnown(db, item) {
    }
  }

  /** The row remembers a failed attempt. */
  predicate Marked(before: Row, after: Row, problem: Problem) {
    after.problem == Some(problem) && after.attempts == before.attempts + 1
    && (after.envelope, after.wire, after.receivedAt, after.appliedAt) == (before.envelope, before.wire, before.receivedAt, before.appliedAt)
  }

  /** What the event makes of its stream's state, if the worker projects it. */
  function NextState(db: Db, id: Id): Result<State, ProjectionError>
    requires Awaiting(db, id)
  {
    Project(match db.streams[db.inbox[id].envelope.aggregate].state case Some(s) => s case None => EmptyProjection, db.inbox[id].envelope)
  }

  /** The row's event is in the history, and its stream has taken it in unless a snapshot had. */
  predicate TakenIn(db: Db, after: Db, id: Id, now: int)
    requires Awaiting(db, id)
  {
    var row, e := db.inbox[id], db.inbox[id].envelope;
    && id in after.inbox && after.inbox[id] == Row(e, row.wire, row.receivedAt, Some(now), None, row.attempts + 1)
    && id !in db.transitions && after.transitions == db.transitions[id := e]
    && (CoveredRow(db, id) ==> after.streams == db.streams)
    && (!CoveredRow(db, id) ==>
          && NextState(db, id).Ok?
          && after.streams == db.streams[e.aggregate := Stream(e.sequence, db.streams[e.aggregate].snapshot, Some(NextState(db, id).value))])
  }

  /** Nothing but the row shows the attempt. */
  predicate PutBack(db: Db, after: Db, id: Id)
    requires Awaiting(db, id)
  {
    && (after.streams, after.transitions) == (db.streams, db.transitions) && id in after.inbox
    && Marked(db.inbox[id], after.inbox[id],
              if !CoveredRow(db, id) && NextState(db, id) == Err(LimitExceeded) then ProjectionLimit else ProjectionFailed)
  }

  /** The writes go through when the event can be projected, or need not be, and nothing else fails. */
  predicate GoesThrough(db: Db, id: Id, rejected: bool)
    requires Awaiting(db, id)
  {
    (CoveredRow(db, id) || NextState(db, id).Ok?) && !rejected && id !in db.transitions
  }

  lemma RowTurn(db: Db, id: Id, rejected: bool, now: int)
    requires Awaiting(db, id)
    ensures var (after, result) := ApplyRow(db, id, rejected, now);
      && after.revision == db.revision + 1 && (after.mismatches, after.adoptions) == (db.mismatches, db.adoptions)
      && after.inbox.Keys == db.inbox.Keys && (forall other | other in db.inbox && other != id :: after.inbox[other] == db.inbox[other])
      && (result.Skipped? <==> HeldUp(db, id)) && (result.Applied? <==> !HeldUp(db, id) && GoesThrough(db, id, rejected))
      && match result
         case Skipped =>
           && (after.streams, after.transitions) == (db.streams, db.transitions)
           && Marked(db.inbox[id], after.inbox[id], DependencyMissing)
         case Applied => TakenIn(db, after, id, now)
         case Unsuccessful => PutBack(db, after, id)
  {
    HeldUpMeans(db, id);
  }

  ghost predicate AllDiffer(ids: seq<Id>) {
    forall i, j | 0 <= i < j < |ids| :: ids[i] != ids[j]
  }

  /** The first `n` rows were held up and marked so, and nothing else happened. */
  ghost predicate Passed(db: Db, mid: Db, ids: seq<Id>, n: nat)
    requires n <= |ids| && forall id | id in ids :: Awaiting(db, id)
  {
    && mid.inbox.Keys == db.inbox.Keys && (mid.streams, mid.transitions) == (db.streams, db.transitions)
    && (forall k | 0 <= k < n :: HeldUp(db, ids[k]) && Marked(db.inbox[ids[k]], mid.inbox[ids[k]], DependencyMissing))
    && forall id | id in db.inbox && id !in ids[..n] :: mid.inbox[id] == db.inbox[id]
  }

  /** The next row is not held up, and is taken in or put back. */
  predicate Tried(db: Db, mid: Db, after: Db, applied: bool, id: Id, rejected: bool, now: int)
    requires Awaiting(db, id) && Awaiting(mid, id)
  {
    && !HeldUp(db, id) && applied == GoesThrough(db, id, rejected) && after.inbox.Keys == mid.inbox.Keys
    && (forall other | other in mid.inbox && other != id :: after.inbox[other] == mid.inbox[other])
    && if applied then TakenIn(mid, after, id, now) else PutBack(mid, after, id)
  }

  lemma PassedRow(db: Db, mid: Db, ids: seq<Id>, n: nat)
    requires n < |ids| && AllDiffer(ids) && (forall id | id in ids :: Awaiting(db, id)) && Passed(db, mid, ids, n)
    ensures ids[n] in ids && ids[n] !in ids[..n] && Awaiting(mid, ids[n]) && mid.inbox[ids[n]] == db.inbox[ids[n]]
    ensures HeldUp(mid, ids[n]) <==> HeldUp(db, ids[n])
    ensures CoveredRow(mid, ids[n]) == CoveredRow(db, ids[n]) && NextState(mid, ids[n]) == NextState(db, ids[n])
  {
    assert ids[n] in ids && ids[n] !in ids[..n];
    assert forall item: RequestItem :: OutcomeSeen(db, item) <==> OutcomeSeen(mid, item);
  }

  lemma PassedNext(db: Db, mid: Db, after: Db, ids: seq<Id>, n: nat)
    requires n < |ids| && AllDiffer(ids) && (forall id | id in ids :: Awaiting(db, id)) && Passed(db, mid, ids, n)
    requires (after.streams, after.transitions) == (mid.streams, mid.transitions) && after.inbox.Keys == mid.inbox.Keys
    requires forall other | other in mid.inbox && other != ids[n] :: after.inbox[other] == mid.inbox[other]
    requires ids[n] in db.inbox && HeldUp(db, ids[n]) && Marked(db.inbox[ids[n]], after.inbox[ids[n]], DependencyMissing)
    ensures Passed(db, after, ids, n + 1)
  {
    assert ids[..n + 1] == ids[..n] + [ids[n]];
    assert forall k | 0 <= k < n :: ids[k] in ids && ids[k] != ids[n];
  }

  /** All rows were passed over, or the one behind those that were is tried. */
  ghost predicate Worked(db: Db, there: Db, result: (Db, bool), ids: seq<Id>, n: nat, rejects: set<Id>, now: int)
    requires forall id | id in ids :: Awaiting(db, id)
  {
    && n <= |ids| && Passed(db, there, ids, n)
    && (n == |ids| ==> result == (there, false))
    && (n < |ids| ==> Awaiting(there, ids[n]) && Tried(db, there, result.0, result.1, ids[n], ids[n] in rejects, now))
  }

  lemma TriedNow(db: Db, mid: Db, ids: seq<Id>, n: nat, rejects: set<Id>, now: int)
    requires n < |ids| && AllDiffer(ids) && (forall id | id in ids :: Awaiting(db, id)) && Passed(db, mid, ids, n)
    requires Awaiting(mid, ids[n]) && !ApplyRow(mid, ids[n], ids[n] in rejects, now).1.Skipped?
    ensures var (after, result) := ApplyRow(mid, ids[n], ids[n] in rejects, now);
      Tried(db, mid, after, result.Applied?, ids[n], ids[n] in rejects, now)
  {
    PassedRow(db, mid, ids, n);
    RowTurn(mid, ids[n], ids[n] in rejects, now);
  }

  lemma SkippedNow(db: Db, mid: Db, ids: seq<Id>, n: nat, rejects: set<Id>, now: int)
    requires n < |ids| && AllDiffer(ids) && (forall id | id in ids :: Awaiting(db, id)) && Passed(db, mid, ids, n)
    requires Awaiting(mid, ids[n]) && ApplyRow(mid, ids[n], ids[n] in rejects, now).1.Skipped?
    ensures Passed(db, ApplyRow(mid, ids[n], ids[n] in rejects, now).0, ids, n + 1)
  {
    PassedRow(db, mid, ids, n);
    RowTurn(mid, ids[n], ids[n] in rejects, now);
    PassedNext(db, mid, ApplyRow(mid, ids[n], ids[n] in rejects, now).0, ids, n);
  }

  lemma {:induction false} RowsAreWorked(db: Db, mid: Db, ids: seq<Id>, k: nat, rejects: set<Id>, now: int) returns (n: nat, there: Db)
    requires k <= |ids| && AllDiffer(ids) && (forall id | id in ids :: Awaiting(db, id)) && Passed(db, mid, ids, k)
    ensures forall id | id in ids[k..] :: id in mid.inbox && mid.inbox[id].envelope.aggregate in mid.streams
    ensures Worked(db, there, ApplyRows(mid, ids[k..], rejects, now), ids, n, rejects, now)
    decreases |ids| - k
  {
    RestIsThere(db, mid, ids, k);
    n, there := k, mid;
    if k < |ids| {
      PassedRow(db, mid, ids, k);
      assert ids[k..][0] == ids[k] && ids[k..][1..] == ids[k + 1..];
      if ApplyRow(mid, ids[k], ids[k] in rejects, now).1.Skipped? {
        SkippedNow(db, mid, ids, k, rejects, now);
        n, there := RowsAreWorked(db, ApplyRow(mid, ids[k], ids[k] in rejects, now).0, ids, k + 1, rejects, now);
      } else {
        TriedNow(db, mid, ids, k, rejects, now);
      }
    }
  }

  lemma RestIsThere(db: Db, mid: Db, ids: seq<Id>, k: nat)
    requires k <= |ids| && AllDiffer(ids) && (forall id | id in ids :: Awaiting(db, id)) && Passed(db, mid, ids, k)
    ensures forall id | id in ids[k..] :: id in mid.inbox && mid.inbox[id].envelope.aggregate in mid.streams
  {
    forall id | id in ids[k..] ensures id in mid.inbox && mid.inbox[id].envelope.aggregate in mid.streams {
      var j :| 0 <= j < |ids[k..]| && ids[k..][j] == id;
      assert ids[k + j] == id && id in ids && id !in ids[..k];
    }
  }

  /** What a call does with its page: it passes the rows over that are held up and tries the first that
      is not, which is taken in exactly when its writes go through. */
  lemma PageIsWorked(db: Db, ids: seq<Id>, rejects: set<Id>, now: int) returns (n: nat, there: Db)
    requires ids == Page(db)
    ensures forall id | id in ids :: Awaiting(db, id)
    ensures Worked(db, there, ApplyInbox(db, rejects, now), ids, n, rejects, now)
  {
    PageInOrder(db, ids);
    assert ids[0..] == ids;
    n, there := RowsAreWorked(db, db, ids, 0, rejects, now);
  }

  /** Everything that awaits its turn and is no later in the retry order is held up. */
  ghost predicate FirstInLine(db: Db, id: Id) {
    && Awaiting(db, id) && !HeldUp(db, id)
    && forall other | Awaiting(db, other) && other != id && NoLater(db.inbox, other, id) :: HeldUp(db, other)
  }

  /** The row that a call takes in comes first in the retry order of all that await it, but for return
      requests whose outcome was not seen yet. */
  lemma TakenInIsFirst(db: Db, rejects: set<Id>, now: int) returns (id: Id)
    requires ApplyInbox(db, rejects, now).1
    ensures FirstInLine(db, id) && GoesThrough(db, id, id in rejects)
    ensures var after := ApplyInbox(db, rejects, now).0; id in after.inbox && after.inbox[id].appliedAt == Some(now)
  {
    var ids := Page(db);
    PageInOrder(db, ids);
    var n, there := PageIsWorked(db, ids, rejects, now);
    id := ids[n];
    assert ids[n] in ids;
    forall other | Awaiting(db, other) && other != id && NoLater(db.inbox, other, id) ensures HeldUp(db, other) {
      EarlierWasPassed(db, ids, n, other);
      assert HeldUp(db, other);
    }
  }

  lemma EarlierWasPassed(db: Db, ids: seq<Id>, n: nat, other: Id)
    requires n < |ids| && other != ids[n] && NoLater(db.inbox, other, ids[n])
    requires forall i, j | 0 <= i < j < |ids| :: ids[i] != ids[j] && NoLater(db.inbox, ids[i], ids[j])
    requires other in ids || forall k | 0 <= k < |ids| :: NoLater(db.inbox, ids[k], other)
    ensures exists k | 0 <= k < n :: ids[k] == other
  {
    var k :| 0 <= k < |ids| && ids[k] == other;
    OrderedAt(db, ids, n, k);
  }

  lemma OrderedAt(db: Db, ids: seq<Id>, i: nat, j: nat)
    requires i < |ids| && j < |ids|
    requires forall i, j | 0 <= i < j < |ids| :: ids[i] != ids[j] && NoLater(db.inbox, ids[i], ids[j])
    ensures i < j ==> ids[i] != ids[j] && NoLater(db.inbox, ids[i], ids[j])
  {}

  // ----- Snapshots -----

  /** Everything in the snapshot is about this stream, and no notice is newer than it. */
  predicate IsOf(s: Snapshot, agg: Aggregate) {
    && s.aggregate == agg
    && (match s.state.task case Some(t) => t.taskId == agg.id case None => true)
    && (match s.state.returnRequest case Some(r) => r.requestId == agg.id case None => true)
    && (forall k | 0 <= k < |s.state.outcomes| :: s.state.outcomes[k].taskId == agg.id)
    && (forall k | 0 <= k < |s.state.notices| ::
          s.state.notices[k].event.aggregate == agg && s.state.notices[k].event.sequence <= s.throughSequence)
  }

  function CursorOf(db: Db, agg: Aggregate): nat {
    if agg in db.streams then db.streams[agg].cursor else 0
  }

  /** A snapshot of the stream is taken over exactly when it lies ahead of the cursor. */
  lemma AdoptExactlyWhen(db: Db, agg: Aggregate, s: Snapshot)
    ensures var (after, result) := Adopt(db, agg, s);
      && (result.InvalidSnapshot? <==> !IsOf(s, agg)) && (result.Adopted? <==> IsOf(s, agg) && CursorOf(db, agg) < s.throughSequence)
      && (after.inbox, after.transitions, after.mismatches) == (db.inbox, db.transitions, db.mismatches)
      && match result
         case InvalidSnapshot => after == db
         case NotNewer => (after.adoptions, after.revision) == (db.adoptions, db.revision) && StreamOpened(db, after, agg)
         case Adopted =>
           && after.adoptions == db.adoptions + [s] && after.revision == db.revision + 1
           && after.streams.Keys == db.streams.Keys + {agg}
           && after.streams[agg] == Stream(s.throughSequence, s.throughSequence, Some(s.state))
           && forall other | other in db.streams && other != agg :: after.streams[other] == db.streams[other]
  {
    assert SnapshotFits(agg, s) <==> IsOf(s, agg) by {
      assert forall k | 0 <= k < |s.state.outcomes| :: s.state.outcomes[k] in s.state.outcomes;
      assert forall k | 0 <= k < |s.state.notices| :: s.state.notices[k] in s.state.notices;
    }
  }
}
