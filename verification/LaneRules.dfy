/** When a command of the source lane is saved, claimed and completed, said about its rows alone, and
    why a lease keeps other workers away. */
module LaneRules {
  import opened Wrappers
  import opened SourceLane
  import opened SourceOrder

  // ----- Claiming -----

  predicate IsHead(commands: seq<Row>, i: nat) {
    i < |commands| && commands[i].status.Pending? && forall j | 0 <= j < i :: commands[j].status.Settled?
  }

  /** The row as it was, but under this lease and with one more attempt. */
  predicate LeasedTo(before: Row, after: Row, lease: Id) {
    after.lease == Some(lease) && after.attempts == before.attempts + 1
    && (after.submission, after.actor, after.status, after.lastError, after.result)
         == (before.submission, before.actor, before.status, before.lastError, before.result)
  }

  /** A new attempt is open; the attempt under the lease that ran out is closed as expired, if it was open. */
  predicate AttemptOpened(lane: Lane, after: Lane, row: Row, lease: Id) {
    var id := row.submission.command.actionId;
    && after.attempts.Keys == lane.attempts.Keys + {(id, row.attempts + 1)}
    && after.attempts[(id, row.attempts + 1)] == Attempt(lease, None)
    && forall key | key in lane.attempts && key != (id, row.attempts + 1) ::
         after.attempts[key] ==
           if key == (id, row.attempts) && row.lease.Some? && lane.attempts[key].result.None?
           then Attempt(lane.attempts[key].lease, Some(LeaseExpired)) else lane.attempts[key]
  }

  /** The head is handed out exactly when it is due and under no lease, or one that ran out. */
  lemma ClaimExactlyWhen(lane: Lane, due: bool, unexpired: bool, lease: Id, i: nat)
    requires IsHead(lane.commands, i)
    ensures var row, (after, claim) := lane.commands[i], TakeClaim(lane, due, unexpired, lease);
      && (claim.Some? <==> due && (row.lease.None? || !unexpired))
      && (claim.None? ==> after == lane)
      && (claim.Some? ==>
            && claim.value == Claim(row.submission.command.actionId, lease, row.attempts + 1)
            && |after.commands| == |lane.commands| && LeasedTo(row, after.commands[i], lease)
            && (forall j | 0 <= j < |lane.commands| && j != i :: after.commands[j] == lane.commands[j])
            && AttemptOpened(lane, after, row, lease) && (after.records, after.changes) == (lane.records, lane.changes))
  {
    assert FirstPending(lane.commands) == i;
  }

  lemma NothingToClaim(lane: Lane, due: bool, unexpired: bool, lease: Id)
    requires forall j | 0 <= j < |lane.commands| :: lane.commands[j].status.Settled?
    ensures TakeClaim(lane, due, unexpired, lease) == (lane, None)
  {}

  // ----- A lease keeps other workers away -----

  /** The command is pending under the lease of this claim. */
  predicate UnderLease(lane: Lane, claim: Claim) {
    exists i | 0 <= i < |lane.commands| ::
      lane.commands[i].ActionId() == claim.actionId && lane.commands[i].status.Pending? && lane.commands[i].lease == Some(claim.lease)
  }

  /** Neither has the lease run out, nor has its worker completed the claim. */
  predicate LeavesLease(step: Step, claim: Claim) {
    !(step.ClaimStep? && !step.unexpired) && !(step.CompleteStep? && step.claim == claim)
  }

  lemma UnderLeaseHolds(lane: Lane, claim: Claim)
    requires Queue(lane)
    ensures UnderLease(lane, claim) <==> Holds(lane, claim)
  {
    if UnderLease(lane, claim) {
      var i :| 0 <= i < |lane.commands| && lane.commands[i].ActionId() == claim.actionId && lane.commands[i].status.Pending?
        && lane.commands[i].lease == Some(claim.lease);
      FindOwn(lane.commands, i);
    }
  }

  /** Two claims with the same lease are the same claim. */
  lemma OneClaimPerLease(s: System, a: Claim, b: Claim)
    requires Inv(s) && a in s.claims && b in s.claims && a.lease == b.lease
    ensures a == b
  {
    assert s.lane.attempts[(a.actionId, a.number)].lease == s.lane.attempts[(b.actionId, b.number)].lease;
  }

  lemma StepLeavesLease(s: System, step: Step, claim: Claim)
    requires Inv(s) && claim in s.claims && UnderLease(s.lane, claim) && Allowed(s, step) && LeavesLease(step, claim)
    ensures Next(s, step).claims == s.claims && UnderLease(Next(s, step).lane, claim)
  {
    UnderLeaseHolds(s.lane, claim);
    var i := Find(s.lane.commands, claim.actionId);
    match step
    case SaveStep(actor, input, conforms, inScope) =>
      SaveShape(s.lane, actor, input, conforms, inScope);
      assert Next(s, step).lane.commands[i] == s.lane.commands[i];
    case ClaimStep(due, unexpired, lease) =>
      HolderIsHead(s.lane, claim);
      ClaimExactlyWhen(s.lane, due, unexpired, lease, i);
    case SendStep(_) =>
    case CompleteStep(other, response) =>
      if Holds(s.lane, other) && other.lease == claim.lease {
        OneClaimPerLease(s, claim, other);
      }
      assert Holds(s.lane, other) ==> other.actionId != claim.actionId;
      assert Next(s, step).lane.commands[i] == s.lane.commands[i];
  }

  /** From the claim of a command until its lease runs out or its worker completes it, no worker gets
      any claim, whatever else happens. */
  lemma {:induction false} LeaseExcludesOthers(s: System, steps: seq<Step>, claim: Claim)
    requires Inv(s) && claim in s.claims && UnderLease(s.lane, claim)
    requires AllAllowed(s, steps) && forall k | 0 <= k < |steps| :: LeavesLease(steps[k], claim)
    ensures Run(s, steps).claims == s.claims && UnderLease(Run(s, steps).lane, claim)
    decreases |steps|
  {
    if steps != [] {
      StepLeavesLease(s, steps[0], claim);
      StepKeepsInv(s, steps[0]);
      LeaseExcludesOthers(Next(s, steps[0]), steps[1..], claim);
    }
  }

  lemma ClaimTakesLease(s: System, step: Step)
    requires Inv(s) && step.ClaimStep? && Allowed(s, step) && TakeClaim(s.lane, step.due, step.unexpired, step.lease).1.Some?
    ensures var claim := TakeClaim(s.lane, step.due, step.unexpired, step.lease).1.value;
      Inv(Next(s, step)) && claim in Next(s, step).claims && UnderLease(Next(s, step).lane, claim)
  {
    StepKeepsInv(s, step);
    var i := FirstPending(s.lane.commands);
    ClaimExactlyWhen(s.lane, step.due, step.unexpired, step.lease, i);
    assert Next(s, step).lane.commands[i].ActionId() == s.lane.commands[i].ActionId();
  }

  /** The same for whole runs, from the moment at which the claim is handed out. */
  lemma ClaimExcludesOthers(before: seq<Step>, step: Step, steps: seq<Step>)
    requires AllAllowed(Start, before) && step.ClaimStep? && Allowed(Run(Start, before), step)
    requires var claim := TakeClaim(Run(Start, before).lane, step.due, step.unexpired, step.lease).1;
      claim.Some? && forall k | 0 <= k < |steps| :: LeavesLease(steps[k], claim.value)
    requires AllAllowed(Next(Run(Start, before), step), steps)
    ensures var claimed := Next(Run(Start, before), step);
      && Run(claimed, steps).claims == claimed.claims
      && UnderLease(Run(claimed, steps).lane, TakeClaim(Run(Start, before).lane, step.due, step.unexpired, step.lease).1.value)
  {
    RunKeepsInv(Start, before);
    var s := Run(Start, before);
    ClaimTakesLease(s, step);
    LeaseExcludesOthers(Next(s, step), steps, TakeClaim(s.lane, step.due, step.unexpired, step.lease).1.value);
  }

  // ----- Completing -----

  predicate FirstWith(commands: seq<Row>, id: Id, i: nat) {
    i < |commands| && commands[i].submission.command.actionId == id
    && forall j | 0 <= j < i :: commands[j].submission.command.actionId != id
  }

  /** What the answer makes of the row: settled with its decision and body, or pending again. */
  predicate Answered(before: Row, after: Row, response: Response) {
    && (after.submission, after.actor, after.attempts, after.lease) == (before.submission, before.actor, before.attempts, None)
    && match response
       case Decided(decision, problem, body) => (after.status, after.lastError, after.result) == (Settled(decision), problem, Some(body))
       case Unknown(error) => (after.status, after.lastError, after.result) == (Pending, Some(error), None)
  }

  predicate AttemptClosed(before: Attempt, after: Attempt, response: Response) {
    after.lease == before.lease
    && match response
       case Decided(decision, _, _) => after.result == Some(Verdict(decision))
       case Unknown(error) => after.result == Some(Failure(Some(error)))
  }

  /** A completion takes effect exactly while its command is pending under its lease. */
  lemma CompleteExactlyWhen(lane: Lane, claim: Claim, response: Response, i: nat)
    requires FirstWith(lane.commands, claim.actionId, i)
    ensures var row, after, key := lane.commands[i], Complete(lane, claim, response), (claim.actionId, claim.number);
      if row.lease == Some(claim.lease) && row.status.Pending? then
        && |after.commands| == |lane.commands| && Answered(row, after.commands[i], response)
        && (forall j | 0 <= j < |lane.commands| && j != i :: after.commands[j] == lane.commands[j])
        && after.attempts.Keys == lane.attempts.Keys
        && (key in lane.attempts ==> AttemptClosed(lane.attempts[key], after.attempts[key], response))
        && (forall other | other in lane.attempts && other != key :: after.attempts[other] == lane.attempts[other])
        && (after.records, after.changes) == (lane.records, lane.changes)
      else after == lane
  {
    assert Find(lane.commands, claim.actionId) == i;
  }

  // ----- Saving -----

  /** The submission names an actor and 1 to 100 records with usable ids and revisions. */
  predicate WellStated(actor: string, records: seq<Edit>) {
    && actor != "" && 0 < |records| <= 100
    && forall k | 0 <= k < |records| :: 0 < |records[k].key.externalId| <= 256 && records[k].expectedRevision <= 9007199254740991
  }

  predicate NoRecordTwice(records: seq<Edit>) {
    forall i, j | 0 <= i < |records| && 0 <= j < |records| && records[i].key == records[j].key :: i == j
  }

  /** Every record stands at the revision that its edit expects; an unknown one stands at 0. */
  predicate AtExpected(lane: Lane, records: seq<Edit>) {
    forall k | 0 <= k < |records| ::
      if records[k].key in lane.records then lane.records[records[k].key].revision == records[k].expectedRevision
      else records[k].expectedRevision == 0
  }

  predicate Unused(lane: Lane, id: Id) {
    forall j | 0 <= j < |lane.commands| :: lane.commands[j].submission.command.actionId != id
  }

  /** What is wrong with the submission itself, if anything is. */
  predicate Misstated(actor: string, input: Submission, conforms: bool, inScope: bool, error: SaveError) {
    if !conforms then error == InvalidCommand
    else if !inScope then error == ScopeMismatch
    else if !WellStated(actor, input.records) then error == InvalidRecords
    else !NoRecordTwice(input.records) && error == DuplicateRecord
  }

  predicate Acceptable(actor: string, input: Submission, conforms: bool, inScope: bool) {
    conforms && inScope && WellStated(actor, input.records) && NoRecordTwice(input.records)
  }

  lemma AcceptableMeans(actor: string, input: Submission)
    ensures RecordsValid(actor, input.records) <==> WellStated(actor, input.records)
    ensures KeysDistinct(input.records) <==> NoRecordTwice(input.records)
  {
    assert forall k | 0 <= k < |input.records| :: input.records[k] in input.records;
  }

  /** An unused id is saved exactly when the submission is well stated and every record is at the expected
      revision; a used one only by repeating the same submission of the same actor. */
  lemma SaveExactlyWhen(lane: Lane, actor: string, input: Submission, conforms: bool, inScope: bool)
    ensures var (after, result) := Save(lane, actor, input, conforms, inScope);
      var id := input.command.actionId;
      && (result.Saved? <==> Acceptable(actor, input, conforms, inScope) && Unused(lane, id) && AtExpected(lane, input.records))
      && (!result.Saved? ==> after == lane)
      && (!Acceptable(actor, input, conforms, inScope) ==> result.NotSaved? && Misstated(actor, input, conforms, inScope, result.error))
      && (Acceptable(actor, input, conforms, inScope) && Unused(lane, id) && !AtExpected(lane, input.records) ==>
            result == NotSaved(RevisionConflict))
  {
    AcceptableMeans(actor, input);
    CurrentMeans(lane, input.records);
    var i := Find(lane.commands, input.command.actionId);
    assert i < |lane.commands| ==> lane.commands[i].submission.command.actionId == input.command.actionId;
  }

  lemma CurrentMeans(lane: Lane, records: seq<Edit>)
    ensures Current(lane, records) <==> AtExpected(lane, records)
  {
    assert forall k | 0 <= k < |records| :: records[k] in records;
  }

  lemma UsedIdExactlyWhen(lane: Lane, actor: string, input: Submission, i: nat)
    requires FirstWith(lane.commands, input.command.actionId, i) && Acceptable(actor, input, true, true)
    ensures Save(lane, actor, input, true, true).1 ==
      if lane.commands[i].submission == input && lane.commands[i].actor == actor then AlreadySaved(lane.commands[i])
      else NotSaved(IdentityConflict)
  {
    AcceptableMeans(actor, input);
    assert Find(lane.commands, input.command.actionId) == i;
  }

  /** The records are those of before, but for the edits of this command. */
  ghost predicate RecordsEdited(lane: Lane, after: Lane, records: seq<Edit>, id: Id) {
    && (forall e | e in records :: e.key in after.records && after.records[e.key] == RecordRow(e.expectedRevision + 1, e.desired, id))
    && forall key | Untouched(records, key) ::
         (key in after.records <==> key in lane.records) && (key in lane.records ==> after.records[key] == lane.records[key])
  }

  /** So are the changes, each edit being the next revision of its record. */
  ghost predicate ChangesAdded(lane: Lane, after: Lane, records: seq<Edit>, id: Id) {
    && (forall e | e in records :: EditRecorded(after.changes, e, id))
    && forall v | !(exists e :: e in records && v == Version(e.key, e.expectedRevision + 1)) ::
         (v in after.changes <==> v in lane.changes) && (v in lane.changes ==> after.changes[v] == lane.changes[v])
  }

  lemma {:induction false} RecordAllEdits(lane: Lane, records: seq<Edit>, id: Id)
    requires NoRecordTwice(records)
    ensures RecordsEdited(lane, RecordAll(lane, records, id), records, id) && ChangesAdded(lane, RecordAll(lane, records, id), records, id)
    decreases |records|
  {
    if records != [] {
      var shorter, last := records[..|records| - 1], records[|records| - 1];
      RecordAllEdits(lane, shorter, id);
      LastIsNew(records);
      assert records == shorter + [last];
      RecordsEditedNext(lane, RecordAll(lane, shorter, id), shorter, last, id);
      ChangesAddedNext(lane, RecordAll(lane, shorter, id), shorter, last, id);
    }
  }

  lemma LastIsNew(records: seq<Edit>)
    requires records != [] && NoRecordTwice(records)
    ensures NoRecordTwice(records[..|records| - 1])
    ensures forall e | e in records[..|records| - 1] :: e.key != records[|records| - 1].key
  {
    forall e | e in records[..|records| - 1] ensures e.key != records[|records| - 1].key {
      var k :| 0 <= k < |records| - 1 && records[k] == e;
    }
  }

  lemma RecordsEditedNext(lane: Lane, mid: Lane, shorter: seq<Edit>, last: Edit, id: Id)
    requires RecordsEdited(lane, mid, shorter, id) && forall e | e in shorter :: e.key != last.key
    ensures RecordsEdited(lane, Record(mid, last, id), shorter + [last], id)
  {
    var after, records := Record(mid, last, id), shorter + [last];
    assert last in records && forall e | e in shorter :: e in records;
    forall key | Untouched(records, key)
      ensures (key in after.records <==> key in lane.records) && (key in lane.records ==> after.records[key] == lane.records[key])
    {
      assert Untouched(shorter, key);
    }
  }

  lemma ChangesAddedNext(lane: Lane, mid: Lane, shorter: seq<Edit>, last: Edit, id: Id)
    requires ChangesAdded(lane, mid, shorter, id) && forall e | e in shorter :: e.key != last.key
    ensures ChangesAdded(lane, Record(mid, last, id), shorter + [last], id)
  {
    assert last in shorter + [last] && forall e | e in shorter :: e in shorter + [last];
  }

  /** What a save adds: the command at the end of the queue, and its edits. */
  lemma SaveStores(lane: Lane, actor: string, input: Submission, conforms: bool, inScope: bool)
    requires Save(lane, actor, input, conforms, inScope).1.Saved?
    ensures var (after, result) := Save(lane, actor, input, conforms, inScope);
      && result.row == Row(input, actor, Pending, 0, None, None, None)
      && after.commands == lane.commands + [result.row] && after.attempts == lane.attempts
      && RecordsEdited(lane, after, input.records, input.command.actionId) && ChangesAdded(lane, after, input.records, input.command.actionId)
  {
    SaveShape(lane, actor, input, conforms, inScope);
    SaveExactlyWhen(lane, actor, input, conforms, inScope);
    var row := Row(input, actor, Pending, 0, None, None, None);
    RecordAllEdits(lane.(commands := lane.commands + [row]), input.records, input.command.actionId);
  }
}
