/** The scope revision as a version stamp, and the reports that rely on it. */
module CheckpointReports {
  import opened Wrappers
  import opened Projection
  import opened Receiver
  import opened ReceiverRefinement

  datatype ReportCommand = ReportCommand(actionId: Id, checkpoint: Checkpoint)

  datatype Report = Report(revision: nat, command: ReportCommand, reported: bool)

  type Reports = map<Aggregate, Report>

  /** Choosing what to send: the unconfirmed command again, nothing, or a new command. */
  function Prepare(reports: Reports, status: Checkpoint, actionId: Id): (Reports, Option<ReportCommand>) {
    var agg := status.aggregate;
    if agg in reports && !reports[agg].reported then (reports, Some(reports[agg].command))
    else if agg in reports && reports[agg].revision >= status.revision then (reports, None)
    else
      var command := ReportCommand(actionId, status);
      (reports[agg := Report(status.revision, command, false)], Some(command))
  }

  function Confirm(reports: Reports, agg: Aggregate, actionId: Id): Reports {
    if agg in reports && reports[agg].command.actionId == actionId then reports[agg := reports[agg].(reported := true)]
    else reports
  }

  /** The report table as an object; each method is one statement or transaction. */
  class ReportTable {
    var reports: Reports

    constructor ()
      ensures reports == map[]
    {
      reports := map[];
    }

    method PrepareReport(status: Checkpoint, actionId: Id) returns (command: Option<ReportCommand>)
      modifies this
      ensures (reports, command) == Prepare(old(reports), status, actionId)
    {
      var agg := status.aggregate;
      if agg in reports {
        var row := reports[agg];
        if !row.reported {
          return Some(row.command);
        }
        if row.revision >= status.revision {
          return None;
        }
      }
      var value := ReportCommand(actionId, status);
      reports := reports[agg := Report(status.revision, value, false)];
      return Some(value);
    }

    method MarkReported(agg: Aggregate, actionId: Id)
      modifies this
      ensures reports == Confirm(old(reports), agg, actionId)
    {
      if agg in reports && reports[agg].command.actionId == actionId {
        reports := reports[agg := reports[agg].(reported := true)];
      }
    }
  }

  // ----- What is sent and what is noted -----

  /** Nothing is sent exactly when the stream's last report is confirmed and no older than the status; an
      unconfirmed one goes out again, and otherwise a new one does and is kept unconfirmed. */
  lemma ReportExactlyWhen(reports: Reports, status: Checkpoint, actionId: Id)
    ensures var (after, command) := Prepare(reports, status, actionId);
      var agg := status.aggregate;
      && (command.None? <==> agg in reports && reports[agg].reported && status.revision <= reports[agg].revision)
      && (agg in reports && !reports[agg].reported ==> command == Some(reports[agg].command))
      && (agg !in reports || (reports[agg].reported && reports[agg].revision < status.revision) ==>
            && command == Some(ReportCommand(actionId, status))
            && after == reports[agg := Report(status.revision, ReportCommand(actionId, status), false)])
      && (command != Some(ReportCommand(actionId, status)) ==> after == reports)
  {}

  /** Confirming marks the stream's report if it is of this very command, and touches nothing else. */
  lemma ConfirmExactlyWhen(reports: Reports, agg: Aggregate, actionId: Id)
    ensures var after := Confirm(reports, agg, actionId);
      && after.Keys == reports.Keys
      && forall other | other in reports ::
           && (after[other].revision, after[other].command) == (reports[other].revision, reports[other].command)
           && (after[other].reported <==> reports[other].reported || (other == agg && reports[other].command.actionId == actionId))
  {}

  // ----- A checkpoint is determined by what it describes -----

  lemma SameWatermarks(db: Db, agg: Aggregate, c: Checkpoint, d: Checkpoint)
    requires Describes(db, agg, c) && Describes(db, agg, d)
    ensures c.receivedThrough == d.receivedThrough && c.appliedThrough == d.appliedThrough && c.receivedHigh == d.receivedHigh
  {
    assert !Has(db, agg, c.receivedThrough + 1) && !Has(db, agg, d.receivedThrough + 1);
    assert !HasApplied(db, agg, c.appliedThrough + 1) && !HasApplied(db, agg, d.appliedThrough + 1);
    if StreamRows(db, agg) != {} {
      HighBound(db, agg, c.receivedHigh, d.receivedHigh);
      HighBound(db, agg, d.receivedHigh, c.receivedHigh);
    }
  }

  lemma HighBound(db: Db, agg: Aggregate, n: nat, high: nat)
    requires Has(db, agg, n) && HighestIs(db, agg, high)
    ensures n <= high
  {
    var id :| id in db.inbox && db.inbox[id].envelope.aggregate == agg && db.inbox[id].envelope.sequence == n;
    assert id in StreamRows(db, agg);
  }

  lemma SameProblem(db: Db, agg: Aggregate, p: Problem, q: Problem)
    requires Constraints(db) && EarliestProblem(db, agg, p) && EarliestProblem(db, agg, q)
    ensures p == q
  {
    var a :| a in PendingRows(db, agg) && db.inbox[a].problem == Some(p) &&
      forall other | other in PendingRows(db, agg) && db.inbox[other].problem.Some? ::
        db.inbox[a].envelope.sequence <= db.inbox[other].envelope.sequence;
    var b :| b in PendingRows(db, agg) && db.inbox[b].problem == Some(q) &&
      forall other | other in PendingRows(db, agg) && db.inbox[other].problem.Some? ::
        db.inbox[b].envelope.sequence <= db.inbox[other].envelope.sequence;
  }

  lemma CheckpointIsUnique(db: Db, agg: Aggregate, c: Checkpoint, d: Checkpoint)
    requires Constraints(db) && Describes(db, agg, c) && Describes(db, agg, d)
    ensures c == d
  {
    SameWatermarks(db, agg, c, d);
    if c.lastError.Some? && c.lastError.value.RowProblem? && d.lastError.Some? && d.lastError.value.RowProblem? {
      SameProblem(db, agg, c.lastError.value.problem, d.lastError.value.problem);
    }
    SameTimes(db, agg, c, d);
  }

  lemma SameTimes(db: Db, agg: Aggregate, c: Checkpoint, d: Checkpoint)
    requires Describes(db, agg, c) && Describes(db, agg, d)
    ensures c.receivedAt == d.receivedAt && c.appliedAt == d.appliedAt
  {
  }

  // ----- Equal revisions mean equal views -----

  /** Everything a status read looks at is the same. */
  ghost predicate SameView(before: Db, after: Db) {
    && before.revision == after.revision
    && SameMarks(before.inbox, after.inbox)
    && (forall id | id in before.inbox :: before.inbox[id].problem == after.inbox[id].problem)
    && (forall agg | agg in before.streams :: agg in after.streams && before.streams[agg] == after.streams[agg])
  }

  lemma {:induction false} RowsStamp(db: Db, ids: seq<Id>, rejects: set<Id>, now: int)
    requires forall id | id in ids :: Eligible(db, id)
    ensures forall id | id in ids :: id in db.inbox && db.inbox[id].envelope.aggregate in db.streams
    ensures var after := ApplyRows(db, ids, rejects, now).0;
            after == db || db.revision < after.revision
    decreases |ids|
  {
    if ids != [] {
      assert ids[0] in ids;
      RowShape(db, ids[0], ids[0] in rejects, now);
      var (mid, result) := ApplyRow(db, ids[0], ids[0] in rejects, now);
      if result.Skipped? {
        SameHistoryKeepsReady(db, mid);
        RowsStamp(mid, ids[1..], rejects, now);
      }
    }
  }

  lemma StoreStamps(db: Db, e: Event, wire: Option<Wire>, now: int)
    ensures var after := Store(db, e, wire, now).0; db.revision < after.revision || SameView(db, after)
  {
  }

  lemma CallStamps(db: Db, rejects: set<Id>, now: int)
    ensures var after := ApplyInbox(db, rejects, now).0; after == db || db.revision < after.revision
  {
    RowsStamp(db, Page(db), rejects, now);
  }

  lemma AdoptStamps(db: Db, agg: Aggregate, s: Snapshot)
    ensures var after := Adopt(db, agg, s).0; db.revision < after.revision || SameView(db, after)
  {
  }

  lemma OpenStamps(db: Db, agg: Aggregate)
    ensures SameView(db, EnsureStream(db, agg))
  {
  }

  /** A step that leaves the revision alone leaves every status alone. */
  lemma StepStamps(db: Db, step: Step)
    ensures db.revision < Next(db, step).revision || SameView(db, Next(db, step))
  {
    match step
    case StoreStep(e, wire, now) => StoreStamps(db, e, wire, now);
    case ApplyStep(rejects, now) => CallStamps(db, rejects, now);
    case AdoptStep(agg, s) => AdoptStamps(db, agg, s);
    case OpenStep(agg) => OpenStamps(db, agg);
  }

  lemma SameViewSameRows(before: Db, after: Db, agg: Aggregate)
    requires SameView(before, after)
    ensures StreamRows(before, agg) == StreamRows(after, agg) && PendingRows(before, agg) == PendingRows(after, agg)
    ensures forall n: nat :: Has(before, agg, n) == Has(after, agg, n) && HasApplied(before, agg, n) == HasApplied(after, agg, n)
  {
  }

  lemma SameViewSameCheckpoint(before: Db, after: Db, agg: Aggregate, c: Checkpoint)
    requires SameView(before, after) && Describes(before, agg, c)
    ensures Describes(after, agg, c)
  {
    SameViewSameRows(before, after, agg);
    assert HighestIs(after, agg, c.receivedHigh);
    assert LatestReceipt(after, agg, c.receivedAt) && LatestApplication(after, agg, c.appliedAt);
    SameViewSameError(before, after, agg, c);
  }

  lemma SameViewSameError(before: Db, after: Db, agg: Aggregate, c: Checkpoint)
    requires SameView(before, after) && agg in before.streams && ErrorIs(before, agg, c)
    ensures ErrorIs(after, agg, c)
  {
    SameViewSameRows(before, after, agg);
    if exists id | id in PendingRows(before, agg) :: before.inbox[id].problem.Some? {
      assert EarliestProblem(after, agg, c.lastError.value.problem);
    }
  }

  // ----- Over whole runs -----

  /** The tables with every status ever read from them. */
  datatype System = System(db: Db, reports: Reports, seen: set<Checkpoint>)

  datatype Action =
    | Work(step: Step)
    | Read(status: Checkpoint)
    | Choose(status: Checkpoint, actionId: Id)
    | Mark(aggregate: Aggregate, actionId: Id)

  /** What may happen: any transaction, a true status read, a report chosen from some earlier
      read however old, and a confirmation at any time. */
  ghost predicate Allowed(s: System, a: Action) {
    match a
    case Work(step) => step.StoreStep? ==> step.event.sequence > 0
    case Read(status) => Describes(s.db, status.aggregate, status)
    case Choose(status, _) => status in s.seen
    case Mark(_, _) => true
  }

  ghost function Act(s: System, a: Action): System {
    match a
    case Work(step) => s.(db := Next(s.db, step))
    case Read(status) => s.(seen := s.seen + {status})
    case Choose(status, actionId) => s.(reports := Prepare(s.reports, status, actionId).0)
    case Mark(agg, actionId) => s.(reports := Confirm(s.reports, agg, actionId))
  }

  /** A status that is not older than the tables still describes them. */
  ghost predicate Stamped(db: Db, c: Checkpoint) {
    c.revision <= db.revision && (c.revision == db.revision ==> Describes(db, c.aggregate, c))
  }

  ghost predicate Agreeing(seen: set<Checkpoint>) {
    forall c, d | c in seen && d in seen && c.aggregate == d.aggregate && c.revision == d.revision :: c == d
  }

  ghost predicate ReportsFromReads(s: System) {
    forall agg | agg in s.reports ::
      && s.reports[agg].command.checkpoint in s.seen
      && s.reports[agg].command.checkpoint.aggregate == agg
      && s.reports[agg].revision == s.reports[agg].command.checkpoint.revision
  }

  ghost predicate StampInv(s: System) {
    && Constraints(s.db)
    && (forall c | c in s.seen :: Stamped(s.db, c))
    && Agreeing(s.seen)
    && ReportsFromReads(s)
  }

  lemma CallKeepsConstraints(db: Db, rejects: set<Id>, now: int)
    requires Constraints(db)
    ensures Constraints(ApplyInbox(db, rejects, now).0)
  {
    RowsKeepConstraints(db, Page(db), rejects, now);
  }

  lemma StepKeepsConstraints(db: Db, step: Step)
    requires Constraints(db) && (step.StoreStep? ==> step.event.sequence > 0)
    ensures Constraints(Next(db, step))
  {
    match step
    case StoreStep(e, wire, now) => StoreKeepsConstraints(db, e, wire, now);
    case ApplyStep(rejects, now) => CallKeepsConstraints(db, rejects, now);
    case AdoptStep(agg, s) => AdoptKeepsConstraints(db, agg, s);
    case OpenStep(agg) => SameRowsKeepConstraints(db, EnsureStream(db, agg));
  }

  lemma StampSurvives(db: Db, step: Step, c: Checkpoint)
    requires Stamped(db, c)
    ensures Stamped(Next(db, step), c)
  {
    StepStamps(db, step);
    var after := Next(db, step);
    if c.revision == after.revision {
      SameViewSameCheckpoint(db, after, c.aggregate, c);
    }
  }

  lemma WorkKeepsStamps(s: System, step: Step)
    requires StampInv(s) && Allowed(s, Work(step))
    ensures StampInv(Act(s, Work(step)))
  {
    StepKeepsConstraints(s.db, step);
    forall c | c in s.seen ensures Stamped(Next(s.db, step), c) {
      StampSurvives(s.db, step, c);
    }
  }

  lemma ReadKeepsStamps(s: System, status: Checkpoint)
    requires StampInv(s) && Allowed(s, Read(status))
    ensures StampInv(Act(s, Read(status)))
  {
    forall c | c in s.seen && c.aggregate == status.aggregate && c.revision == status.revision ensures c == status {
      assert Stamped(s.db, c);
      CheckpointIsUnique(s.db, c.aggregate, c, status);
    }
  }

  lemma ActKeepsStamps(s: System, a: Action)
    requires StampInv(s) && Allowed(s, a)
    ensures StampInv(Act(s, a))
  {
    match a
    case Work(step) => WorkKeepsStamps(s, step);
    case Read(status) => ReadKeepsStamps(s, status);
    case _ =>
  }

  ghost predicate AllAllowed(s: System, actions: seq<Action>)
    decreases |actions|
  {
    actions == [] || (Allowed(s, actions[0]) && AllAllowed(Act(s, actions[0]), actions[1..]))
  }

  ghost function Acted(s: System, actions: seq<Action>): System
    decreases |actions|
  {
    if actions == [] then s else Acted(Act(s, actions[0]), actions[1..])
  }

  lemma {:induction false} RunKeepsStamps(s: System, actions: seq<Action>)
    requires StampInv(s) && AllAllowed(s, actions)
    ensures StampInv(Acted(s, actions))
    decreases |actions|
  {
    if actions != [] {
      ActKeepsStamps(s, actions[0]);
      RunKeepsStamps(Act(s, actions[0]), actions[1..]);
    }
  }

  /** Two status seen of one stream at one scope revision are the same checkpoint, however far
      apart they were made. */
  lemma RevisionIsVersionStamp(actions: seq<Action>, c: Checkpoint, d: Checkpoint)
    requires AllAllowed(System(EmptyDb, map[], {}), actions)
    requires c in Acted(System(EmptyDb, map[], {}), actions).seen && d in Acted(System(EmptyDb, map[], {}), actions).seen
    requires c.aggregate == d.aggregate && c.revision == d.revision
    ensures c == d
  {
    RunKeepsStamps(System(EmptyDb, map[], {}), actions);
  }

  /** Deciding not to send is right: the last command is confirmed and carries this status or a
      later one, and this very status when the read is still current. */
  lemma SilenceIsUpToDate(actions: seq<Action>, status: Checkpoint, actionId: Id)
    requires AllAllowed(System(EmptyDb, map[], {}), actions)
    requires var s := Acted(System(EmptyDb, map[], {}), actions);
             status in s.seen && Prepare(s.reports, status, actionId).1.None?
    ensures var s := Acted(System(EmptyDb, map[], {}), actions);
            && status.aggregate in s.reports
            && var last := s.reports[status.aggregate];
               && last.reported && last.command.checkpoint.aggregate == status.aggregate
               && last.command.checkpoint.revision >= status.revision
               && (last.command.checkpoint.revision == status.revision ==> last.command.checkpoint == status)
               && (status.revision == s.db.revision ==> last.command.checkpoint == status)
  {
    RunKeepsStamps(System(EmptyDb, map[], {}), actions);
    var s := Acted(System(EmptyDb, map[], {}), actions);
    var last := s.reports[status.aggregate];
    assert Stamped(s.db, last.command.checkpoint);
  }

  /** An unconfirmed command is offered again unchanged, and stays so until it is confirmed. */
  lemma {:induction false} UnconfirmedStays(s: System, actions: seq<Action>, agg: Aggregate)
    requires agg in s.reports && !s.reports[agg].reported && AllAllowed(s, actions)
    requires forall i | 0 <= i < |actions| :: actions[i] != Mark(agg, s.reports[agg].command.actionId)
    ensures var after := Acted(s, actions);
            && agg in after.reports && after.reports[agg] == s.reports[agg]
            && forall status: Checkpoint, actionId | status.aggregate == agg ::
                 Prepare(after.reports, status, actionId) == (after.reports, Some(s.reports[agg].command))
    decreases |actions|
  {
    if actions != [] {
      assert actions[0] != Mark(agg, s.reports[agg].command.actionId);
      UnconfirmedStays(Act(s, actions[0]), actions[1..], agg);
    }
  }
}
