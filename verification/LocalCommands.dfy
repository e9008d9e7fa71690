/** Captured actions, the round they act on, and the projection of pending actions over it. */
module LocalCommands {
  import opened Wrappers

  type Id = nat

  datatype Operation =
    SelectHeading | RecordArrival | RecordFull | RecordPartial | RecordRefusal | RecordNoAnswer
  | Correct | Online(name: string)

  datatype Version = V1 | V2 | OtherVersion

  datatype Context =
    | Device(tenantId: Id, accountId: Id, deviceId: Id, generation: int, sequence: int)
    | NoDevice

  /** `None` stands for a property that the payload does not carry. */
  datatype Payload = Payload(
    taskId: Option<Id>, attemptId: Option<Id>,
    activityRevision: Option<int>, currentAttempt: Option<Option<Id>>,
    sourceRevision: Option<int>, assignmentRevision: Option<int>, pinRevision: Option<int>)

  datatype BaseVersions = BaseVersions(
    deviceGeneration: Option<int>, resource: Option<int>, source: Option<int>,
    assignment: Option<int>, location: Option<int>)

  datatype Envelope = Envelope(
    actionId: Id, operation: Operation, schemaVersion: Version, payloadVersion: Version, context: Context,
    dependsOn: seq<Id>, tripId: Option<string>, taskId: Option<Id>, payload: Payload,
    baseVersions: BaseVersions, observedAt: int)

  datatype Delivery = Full | Partial | Refusal | NoAnswer

  datatype Target = Target(
    taskId: Id, attemptId: Id, sourceRevision: int, assignmentRevision: int, pinRevision: int,
    allowed: set<Delivery>)

  datatype Stage = Heading | Arrived

  datatype ActionTime = ActionTime(actionId: Id, recordedAt: int)

  datatype Activity = Activity(
    taskId: Id, attemptId: Id, revision: int, stage: Stage, heading: ActionTime, arrival: Option<ActionTime>)

  datatype Owner = Owner(accountId: Id, deviceId: Id, generation: int)

  datatype Current = Current(
    roundId: string, driverId: Id, owner: Owner, planId: Option<Id>, revision: int, branchActivity: bool,
    activity: Option<Activity>, targets: seq<Target>, nextSuggestion: Option<Target>)

  datatype Refused =
    VersionUnsupported | StateChanged | FinishCurrentStop | HeadingFirst | OutcomeUnavailable

  // ----- Which actions a phone may record on its own -----

  predicate Offline(op: Operation) { op.SelectHeading? || op.RecordArrival? || Outcome(op).Some? }

  /** The delivery result that an outcome operation reports. */
  function Outcome(op: Operation): Option<Delivery> {
    match op
    case RecordFull => Some(Full)
    case RecordPartial => Some(Partial)
    case RecordRefusal => Some(Refusal)
    case RecordNoAnswer => Some(NoAnswer)
    case _ => None
  }

  predicate Supported(c: Envelope) {
    c.schemaVersion == V1
    && (c.payloadVersion == V1 || (c.payloadVersion == V2 && (Outcome(c.operation).Some? || c.operation.Correct?)))
  }

  // ----- One action against a state -----

  predicate Aims(t: Target, p: Payload) {
    Some(t.taskId) == p.taskId && Some(t.attemptId) == p.attemptId
  }

  function FindTarget(targets: seq<Target>, p: Payload): (t: Option<Target>)
    ensures t.Some? ==> t.value in targets && Aims(t.value, p)
    ensures t.None? ==> forall x | x in targets :: !Aims(x, p)
  {
    if targets == [] then None
    else if Aims(targets[0], p) then Some(targets[0])
    else FindTarget(targets[1..], p)
  }

  function CurrentAttempt(s: Current): Option<Id> {
    if s.activity.Some? then Some(s.activity.value.attemptId) else None
  }

  predicate Fresh(s: Current, p: Payload, t: Target) {
    && p.activityRevision == Some(s.revision) && p.currentAttempt == Some(CurrentAttempt(s))
    && p.sourceRevision == Some(t.sourceRevision) && p.assignmentRevision == Some(t.assignmentRevision)
    && p.pinRevision == Some(t.pinRevision)
  }

  /** Why `c` may not continue the round in state `s`, if it may not. */
  function Objection(s: Current, c: Envelope): Option<Refused> {
    var target := FindTarget(s.targets, c.payload);
    if !Offline(c.operation) || s.branchActivity || target.None? || !Fresh(s, c.payload, target.value) then Some(StateChanged)
    else
      var t := target.value;
      var stage := if CurrentAttempt(s) == Some(t.attemptId) then Some(s.activity.value.stage) else None;
      if c.operation.SelectHeading? then (if s.activity.Some? then Some(FinishCurrentStop) else None)
      else if c.operation.RecordArrival? then (if stage != Some(Heading) then Some(HeadingFirst) else None)
      else
        var outcome := Outcome(c.operation).value;
        var unavailable :=
          match outcome
          case Refusal => s.activity.Some? && s.activity.value.attemptId != t.attemptId
          case NoAnswer => stage.None?
          case _ => stage != Some(Arrived);
        if outcome !in t.allowed || unavailable then Some(OutcomeUnavailable) else None
  }

  function Without(targets: seq<Target>, attempt: Option<Id>): (r: seq<Target>)
    ensures forall t :: t in r <==> t in targets && Some(t.attemptId) != attempt
  {
    if targets == [] then []
    else (if Some(targets[0].attemptId) == attempt then [] else [targets[0]]) + Without(targets[1..], attempt)
  }

  function Perform(s: Current, c: Envelope): Current
    requires Objection(s, c).None?
  {
    var p, time, revision := c.payload, ActionTime(c.actionId, c.observedAt), s.revision + 1;
    match c.operation
    case SelectHeading =>
      s.(revision := revision, activity := Some(Activity(p.taskId.value, p.attemptId.value, revision, Heading, time, None)))
    case RecordArrival =>
      s.(revision := revision,
         activity := Some(s.activity.value.(revision := revision, stage := Arrived, arrival := Some(time))))
    case _ =>
      s.(revision := revision, targets := Without(s.targets, p.attemptId), activity := None, nextSuggestion := None)
  }

  /** One command of the projection; commands of other pages leave the round as it is. */
  function Advance(s: Current, c: Envelope): Result<Current, Refused> {
    if !Supported(c) then Err(VersionUnsupported)
    else if !Offline(c.operation) then Ok(s)
    else match Objection(s, c)
      case Some(refused) => Err(refused)
      case None => Ok(Perform(s, c))
  }

  /** The pending projection over the confirmed state. */
  function Project(confirmed: Current, commands: seq<Envelope>): Result<Current, Refused>
    decreases |commands|
  {
    if commands == [] then Ok(confirmed)
    else
      var n := |commands| - 1;
      match Project(confirmed, commands[..n])
      case Err(refused) => Err(refused)
      case Ok(s) => Advance(s, commands[n])
  }

  lemma ProjectNext(confirmed: Current, commands: seq<Envelope>, c: Envelope)
    requires Project(confirmed, commands).Ok?
    ensures Project(confirmed, commands + [c]) == Advance(Project(confirmed, commands).value, c)
  {
    assert (commands + [c])[..|commands|] == commands;
  }

  lemma {:induction false} ProjectPrefix(confirmed: Current, commands: seq<Envelope>, k: nat)
    requires k <= |commands|
    ensures Project(confirmed, commands[..k]).Err? ==> Project(confirmed, commands) == Project(confirmed, commands[..k])
    decreases |commands|
  {
    if k == |commands| {
      assert commands[..k] == commands;
    } else {
      var n := |commands| - 1;
      ProjectPrefix(confirmed, commands[..n], k);
      assert commands[..n][..k] == commands[..k];
    }
  }

  /** Works on a copy of the confirmed state, command by command. */
  method ProjectCurrent(confirmed: Current, commands: seq<Envelope>) returns (r: Result<Current, Refused>)
    ensures r == Project(confirmed, commands)
  {
    var state := confirmed;
    for i := 0 to |commands|
      invariant Project(confirmed, commands[..i]) == Ok(state)
    {
      var command := commands[i];
      assert commands[..i + 1][..i] == commands[..i];
      ProjectPrefix(confirmed, commands, i + 1);
      if !Supported(command) {
        return Err(VersionUnsupported);
      }
      if !Offline(command.operation) {
        continue;
      }
      var objection := Objection(state, command);
      if objection.Some? {
        return Err(objection.value);
      }
      var p, time := command.payload, ActionTime(command.actionId, command.observedAt);
      state := state.(revision := state.revision + 1);
      if command.operation.SelectHeading? {
        state := state.(activity := Some(Activity(p.taskId.value, p.attemptId.value, state.revision, Heading, time, None)));
      } else if command.operation.RecordArrival? {
        state := state.(activity := Some(state.activity.value.(revision := state.revision, stage := Arrived, arrival := Some(time))));
      } else {
        state := state.(targets := Without(state.targets, p.attemptId), activity := None, nextSuggestion := None);
      }
    }
    assert commands[..|commands|] == commands;
    r := Ok(state);
  }
}
