/** When a command continues a round and what it then makes of it, said about the fields of the round
    and of the command alone. */
module CommandRules {
  import opened Wrappers
  import opened Ordering
  import opened LocalCommands

  // ----- What a command must meet -----

  predicate KnownFormat(c: Envelope) {
    && c.schemaVersion == V1
    && match c.payloadVersion
       case V1 => true
       case V2 => c.operation in {RecordFull, RecordPartial, RecordRefusal, RecordNoAnswer, Correct}
       case OtherVersion => false
  }

  predicate OnPhone(op: Operation) {
    op in {SelectHeading, RecordArrival, RecordFull, RecordPartial, RecordRefusal, RecordNoAnswer}
  }

  predicate Names(p: Payload, t: Target) { p.taskId == Some(t.taskId) && p.attemptId == Some(t.attemptId) }

  /** `i` is the first of the remaining targets that the command names. */
  predicate FirstNamed(s: Current, p: Payload, i: nat) {
    i < |s.targets| && Names(p, s.targets[i]) && forall j | 0 <= j < i :: !Names(p, s.targets[j])
  }

  /** The command expects exactly the versions that the round and the target are in. */
  predicate SeesCurrent(s: Current, p: Payload, t: Target) {
    && p.activityRevision == Some(s.revision)
    && p.currentAttempt == Some(match s.activity case None => None case Some(a) => Some(a.attemptId))
    && p.sourceRevision == Some(t.sourceRevision) && p.assignmentRevision == Some(t.assignmentRevision)
    && p.pinRevision == Some(t.pinRevision)
  }

  /** The driver is at this stop, at this stage. */
  predicate At(s: Current, t: Target, stage: Stage) {
    s.activity.Some? && s.activity.value.attemptId == t.attemptId && s.activity.value.stage == stage
  }

  /** The step fits what was recorded of the stop so far. */
  predicate StepFits(s: Current, op: Operation, t: Target) {
    match op
    case SelectHeading => s.activity.None?
    case RecordArrival => At(s, t, Heading)
    case RecordFull => Full in t.allowed && At(s, t, Arrived)
    case RecordPartial => Partial in t.allowed && At(s, t, Arrived)
    case RecordRefusal => Refusal in t.allowed && (s.activity.None? || s.activity.value.attemptId == t.attemptId)
    case RecordNoAnswer => NoAnswer in t.allowed && (At(s, t, Heading) || At(s, t, Arrived))
    case _ => false
  }

  /** A remaining target is named, in the versions that are current, and no branch is at work. */
  ghost predicate Addressed(s: Current, p: Payload) {
    !s.branchActivity && exists i: nat :: FirstNamed(s, p, i) && SeesCurrent(s, p, s.targets[i])
  }

  ghost predicate Continues(s: Current, c: Envelope) {
    !s.branchActivity && exists i: nat ::
      FirstNamed(s, c.payload, i) && SeesCurrent(s, c.payload, s.targets[i]) && StepFits(s, c.operation, s.targets[i])
  }

  lemma {:induction false} FoundIsFirst(targets: seq<Target>, p: Payload)
    ensures match FindTarget(targets, p)
      case None => forall j | 0 <= j < |targets| :: !Names(p, targets[j])
      case Some(t) => exists i :: 0 <= i < |targets| && targets[i] == t && Names(p, t) && forall j | 0 <= j < i :: !Names(p, targets[j])
  {
    if targets != [] && !Aims(targets[0], p) {
      FoundIsFirst(targets[1..], p);
      if FindTarget(targets[1..], p).Some? {
        var i :| 0 <= i < |targets[1..]| && targets[1..][i] == FindTarget(targets, p).value
          && forall j | 0 <= j < i :: !Names(p, targets[1..][j]);
        assert targets[i + 1] == FindTarget(targets, p).value;
        assert forall j | 0 <= j < i + 1 :: j == 0 || targets[j] == targets[1..][j - 1];
      }
    }
  }

  lemma FirstIsUnique(s: Current, p: Payload, i: nat)
    requires FirstNamed(s, p, i)
    ensures FindTarget(s.targets, p) == Some(s.targets[i])
  {
    FoundIsFirst(s.targets, p);
    assert FindTarget(s.targets, p).Some?;
    var j :| 0 <= j < |s.targets| && s.targets[j] == FindTarget(s.targets, p).value && forall l | 0 <= l < j :: !Names(p, s.targets[l]);
    assert i == j;
  }

  // ----- One more command -----

  /** An offline command is accepted exactly when it continues the round. */
  lemma AcceptedExactlyWhen(confirmed: Current, commands: seq<Envelope>, c: Envelope)
    requires Project(confirmed, commands).Ok?
    ensures var s := Project(confirmed, commands).value;
      Project(confirmed, commands + [c]).Ok? <==> KnownFormat(c) && (!OnPhone(c.operation) || Continues(s, c))
  {
    ProjectNext(confirmed, commands, c);
    RefusedBecause(Project(confirmed, commands).value, c);
  }

  /** Each refusal has its own reason. */
  lemma RefusedExactlyWhen(confirmed: Current, commands: seq<Envelope>, c: Envelope)
    requires Project(confirmed, commands).Ok?
    ensures var s, r := Project(confirmed, commands).value, Project(confirmed, commands + [c]);
      var ready := KnownFormat(c) && OnPhone(c.operation);
      && (r == Err(VersionUnsupported) <==> !KnownFormat(c))
      && (r == Err(StateChanged) <==> ready && !Addressed(s, c.payload))
      && (r == Err(FinishCurrentStop) <==> ready && Addressed(s, c.payload) && c.operation.SelectHeading? && s.activity.Some?)
      && (r == Err(HeadingFirst) <==> ready && Addressed(s, c.payload) && c.operation.RecordArrival? && !Continues(s, c))
      && (r == Err(OutcomeUnavailable) <==>
            ready && Addressed(s, c.payload) && !c.operation.SelectHeading? && !c.operation.RecordArrival? && !Continues(s, c))
  {
    ProjectNext(confirmed, commands, c);
    RefusedBecause(Project(confirmed, commands).value, c);
  }

  lemma RefusedBecause(s: Current, c: Envelope)
    ensures KnownFormat(c) <==> Supported(c)
    ensures OnPhone(c.operation) <==> Offline(c.operation)
    ensures Addressed(s, c.payload) <==>
      !s.branchActivity && FindTarget(s.targets, c.payload).Some? && Fresh(s, c.payload, FindTarget(s.targets, c.payload).value)
    ensures Continues(s, c) <==> Addressed(s, c.payload) && StepFits(s, c.operation, FindTarget(s.targets, c.payload).value)
    ensures OnPhone(c.operation) ==> (Objection(s, c).None? <==> Continues(s, c))
  {
    FoundIsFirst(s.targets, c.payload);
    forall i: nat | FirstNamed(s, c.payload, i) ensures FindTarget(s.targets, c.payload) == Some(s.targets[i]) {
      FirstIsUnique(s, c.payload, i);
    }
    if FindTarget(s.targets, c.payload).Some? {
      var i :| 0 <= i < |s.targets| && s.targets[i] == FindTarget(s.targets, c.payload).value
        && forall j | 0 <= j < i :: !Names(c.payload, s.targets[j]);
      assert FirstNamed(s, c.payload, i);
    }
  }

  // ----- What an accepted command makes of the round -----

  lemma {:induction false} WithoutThins(all: seq<Target>, attempt: Option<Id>)
    ensures Thinned(Without(all, attempt), all, (t: Target) => Some(t.attemptId) == attempt)
  {
    if all != [] {
      WithoutThins(all[1..], attempt);
      var rest := Without(all[1..], attempt);
      assert Some(all[0].attemptId) == attempt ==> Without(all, attempt) == rest;
      assert ([all[0]] + rest)[1..] == rest;
    }
  }

  /** A command of another page changes nothing; one that the phone recorded counts up once and moves
      the stop on: towards it, at it, or away with its result. */
  lemma AcceptedMoves(confirmed: Current, commands: seq<Envelope>, c: Envelope)
    requires Project(confirmed, commands).Ok? && Project(confirmed, commands + [c]).Ok?
    ensures var s, after := Project(confirmed, commands).value, Project(confirmed, commands + [c]).value;
      if !OnPhone(c.operation) then after == s
      else
        && after.revision == s.revision + 1
        && (after.roundId, after.driverId, after.owner, after.planId, after.branchActivity)
             == (s.roundId, s.driverId, s.owner, s.planId, s.branchActivity)
        && match c.operation
           case SelectHeading =>
             && after.targets == s.targets && after.nextSuggestion == s.nextSuggestion && after.activity.Some?
             && Some(after.activity.value.taskId) == c.payload.taskId && Some(after.activity.value.attemptId) == c.payload.attemptId
             && after.activity.value.revision == after.revision && after.activity.value.stage == Heading
             && after.activity.value.heading == ActionTime(c.actionId, c.observedAt) && after.activity.value.arrival == None
           case RecordArrival =>
             && after.targets == s.targets && after.nextSuggestion == s.nextSuggestion && s.activity.Some? && after.activity.Some?
             && after.activity.value.taskId == s.activity.value.taskId && after.activity.value.attemptId == s.activity.value.attemptId
             && after.activity.value.heading == s.activity.value.heading && after.activity.value.stage == Arrived
             && after.activity.value.revision == after.revision
             && after.activity.value.arrival == Some(ActionTime(c.actionId, c.observedAt))
           case _ =>
             && after.activity == None && after.nextSuggestion == None
             && Thinned(after.targets, s.targets, (t: Target) => Some(t.attemptId) == c.payload.attemptId)
  {
    var s := Project(confirmed, commands).value;
    ProjectNext(confirmed, commands, c);
    RefusedBecause(s, c);
    WithoutThins(s.targets, c.payload.attemptId);
  }
}
