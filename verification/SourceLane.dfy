/** The outgoing source lane: optimistic saves, one ordered queue, fenced leases. */
module SourceLane {
  import opened Wrappers

  type Id = nat

  const MAX_RECORDS := 100
  const MAX_EXTERNAL_ID := 256
  const MAX_SAFE_INTEGER := 0x1F_FFFF_FFFF_FFFF

  datatype RecordKind = Branch | Role | User | Driver | Shipment | Return

  datatype RecordKey = RecordKey(kind: RecordKind, externalId: string)

  datatype Edit = Edit(key: RecordKey, expectedRevision: nat, desired: string)

  datatype Command = Command(actionId: Id, operationId: string, content: string)

  datatype Submission = Submission(command: Command, records: seq<Edit>)

  datatype Decision = Accepted | Rejected | ReviewRequired

  datatype Status = Pending | Settled(decision: Decision)

  datatype Row = Row(
    submission: Submission, actor: string, status: Status, attempts: nat,
    lease: Option<Id>, lastError: Option<string>, result: Option<string>)
  {
    function ActionId(): Id { submission.command.actionId }
  }

  datatype RecordRow = RecordRow(revision: nat, desired: string, commandId: Id)

  datatype Version = Version(key: RecordKey, revision: nat)

  datatype Change = Change(desired: string, commandId: Id)

  datatype AttemptResult = LeaseExpired | Verdict(decision: Decision) | Failure(error: Option<string>)

  datatype Attempt = Attempt(lease: Id, result: Option<AttemptResult>)

  datatype Lane = Lane(
    commands: seq<Row>,
    records: map<RecordKey, RecordRow>,
    changes: map<Version, Change>,
    attempts: map<(Id, nat), Attempt>)

  const EmptyLane := Lane([], map[], map[], map[])

  function Find(commands: seq<Row>, actionId: Id): (i: nat)
    ensures i <= |commands|
    ensures i < |commands| ==> commands[i].ActionId() == actionId
    ensures forall j | 0 <= j < i :: commands[j].ActionId() != actionId
  {
    if commands == [] then 0
    else if commands[0].ActionId() == actionId then 0
    else 1 + Find(commands[1..], actionId)
  }

  /** The head of the queue: the pending command of least ordinal. */
  function FirstPending(commands: seq<Row>): (i: nat)
    ensures i <= |commands|
    ensures i < |commands| ==> commands[i].status.Pending?
    ensures forall j | 0 <= j < i :: !commands[j].status.Pending?
  {
    if commands == [] then 0
    else if commands[0].status.Pending? then 0
    else 1 + FirstPending(commands[1..])
  }

  // ----- Saving -----

  datatype SaveError =
    InvalidCommand | ScopeMismatch | InvalidRecords | DuplicateRecord | IdentityConflict | RevisionConflict

  datatype SaveResult = Saved(row: Row) | AlreadySaved(row: Row) | NotSaved(error: SaveError)

  predicate RecordsValid(actor: string, records: seq<Edit>) {
    && actor != "" && 1 <= |records| <= MAX_RECORDS
    && forall r | r in records ::
         1 <= |r.key.externalId| <= MAX_EXTERNAL_ID && r.expectedRevision <= MAX_SAFE_INTEGER
  }

  predicate KeysDistinct(records: seq<Edit>) {
    forall i, j | 0 <= i < j < |records| :: records[i].key != records[j].key
  }

  function CurrentRevision(lane: Lane, key: RecordKey): nat {
    if key in lane.records then lane.records[key].revision else 0
  }

  predicate Current(lane: Lane, records: seq<Edit>) {
    forall r | r in records :: CurrentRevision(lane, r.key) == r.expectedRevision
  }

  function Record(lane: Lane, e: Edit, actionId: Id): Lane {
    lane.(changes := lane.changes[Version(e.key, e.expectedRevision + 1) := Change(e.desired, actionId)],
          records := lane.records[e.key := RecordRow(e.expectedRevision + 1, e.desired, actionId)])
  }

  function RecordAll(lane: Lane, records: seq<Edit>, actionId: Id): Lane
    decreases |records|
  {
    if records == [] then lane
    else Record(RecordAll(lane, records[..|records| - 1], actionId), records[|records| - 1], actionId)
  }

  /** `conforms` and `inScope` are the schema check and the comparison of tenant and integration. */
  function Save(lane: Lane, actor: string, input: Submission, conforms: bool, inScope: bool): (Lane, SaveResult) {
    if !conforms then (lane, NotSaved(InvalidCommand))
    else if !inScope then (lane, NotSaved(ScopeMismatch))
    else if !RecordsValid(actor, input.records) then (lane, NotSaved(InvalidRecords))
    else if !KeysDistinct(input.records) then (lane, NotSaved(DuplicateRecord))
    else
      var i := Find(lane.commands, input.command.actionId);
      if i < |lane.commands| then
        if lane.commands[i].submission != input || lane.commands[i].actor != actor then (lane, NotSaved(IdentityConflict))
        else (lane, AlreadySaved(lane.commands[i]))
      else if !Current(lane, input.records) then (lane, NotSaved(RevisionConflict))
      else
        var row := Row(input, actor, Pending, 0, None, None, None);
        (RecordAll(lane.(commands := lane.commands + [row]), input.records, input.command.actionId), Saved(row))
  }

  // ----- Claiming and completing -----

  datatype Claim = Claim(actionId: Id, lease: Id, number: nat)

  /** `due` and `unexpired` are what the clock says of the head's next attempt and of its lease;
      `lease` is the fresh random lease id. */
  function TakeClaim(lane: Lane, due: bool, unexpired: bool, lease: Id): (Lane, Option<Claim>) {
    var i := FirstPending(lane.commands);
    if i == |lane.commands| || !due || (lane.commands[i].lease.Some? && unexpired) then (lane, None)
    else
      var row := lane.commands[i];
      var id := row.ActionId();
      var previous := (id, row.attempts);
      var closed :=
        if row.lease.Some? && previous in lane.attempts && lane.attempts[previous].result.None?
        then lane.attempts[previous := lane.attempts[previous].(result := Some(LeaseExpired))]
        else lane.attempts;
      (lane.(commands := lane.commands[i := row.(lease := Some(lease), attempts := row.attempts + 1)],
             attempts := closed[(id, row.attempts + 1) := Attempt(lease, None)]),
       Some(Claim(id, lease, row.attempts + 1)))
  }

  /** What came back: a matching durable result with its business status, problem code and text, or
      why acceptance is unknown. */
  datatype Response = Decided(decision: Decision, problem: Option<string>, body: string) | Unknown(error: string)

  function Complete(lane: Lane, claim: Claim, response: Response): Lane {
    var i := Find(lane.commands, claim.actionId);
    if i == |lane.commands| || lane.commands[i].lease != Some(claim.lease) || !lane.commands[i].status.Pending? then lane
    else
      var row := lane.commands[i];
      var status := if response.Decided? then Settled(response.decision) else Pending;
      var error := if response.Decided? then response.problem else Some(response.error);
      var result := if response.Decided? then Verdict(response.decision) else Failure(Some(response.error));
      var body := if response.Decided? then Some(response.body) else None;
      var key := (claim.actionId, claim.number);
      lane.(commands := lane.commands[i := row.(status := status, lastError := error, lease := None, result := body)],
            attempts := if key in lane.attempts then lane.attempts[key := lane.attempts[key].(result := Some(result))]
                        else lane.attempts)
  }

  /** The lane's tables as an object; each method is one transaction. */
  class SourceStore {
    var commands: seq<Row>
    var records: map<RecordKey, RecordRow>
    var changes: map<Version, Change>
    var attempts: map<(Id, nat), Attempt>

    function Data(): Lane
      reads this
    {
      Lane(commands, records, changes, attempts)
    }

    constructor ()
      ensures Data() == EmptyLane
    {
      commands, records, changes, attempts := [], map[], map[], map[];
    }

    method CheckRevisions(edits: seq<Edit>) returns (current: bool)
      ensures current == Current(Data(), edits)
    {
      for i := 0 to |edits|
        invariant forall j | 0 <= j < i :: CurrentRevision(Data(), edits[j].key) == edits[j].expectedRevision
      {
        var r := edits[i];
        var revision := if r.key in records then records[r.key].revision else 0;
        if revision != r.expectedRevision {
          return false;
        }
      }
      return true;
    }

    method RecordChanges(edits: seq<Edit>, actionId: Id)
      modifies this
      ensures Data() == RecordAll(old(Data()), edits, actionId)
    {
      for i := 0 to |edits|
        invariant Data() == RecordAll(old(Data()), edits[..i], actionId)
      {
        var r := edits[i];
        assert edits[..i + 1][..i] == edits[..i];
        changes := changes[Version(r.key, r.expectedRevision + 1) := Change(r.desired, actionId)];
        records := records[r.key := RecordRow(r.expectedRevision + 1, r.desired, actionId)];
      }
      assert edits[..|edits|] == edits;
    }

    method SaveSource(actor: string, input: Submission, conforms: bool, inScope: bool) returns (result: SaveResult)
      modifies this
      ensures (Data(), result) == Save(old(Data()), actor, input, conforms, inScope)
    {
      if !conforms {
        return NotSaved(InvalidCommand);
      }
      if !inScope {
        return NotSaved(ScopeMismatch);
      }
      if !RecordsValid(actor, input.records) {
        return NotSaved(InvalidRecords);
      }
      if !KeysDistinct(input.records) {
        return NotSaved(DuplicateRecord);
      }
      var i := Find(commands, input.command.actionId);
      if i < |commands| {
        if commands[i].submission != input || commands[i].actor != actor {
          return NotSaved(IdentityConflict);
        }
        return AlreadySaved(commands[i]);
      }
      var current := CheckRevisions(input.records);
      if !current {
        return NotSaved(RevisionConflict);
      }
      var row := Row(input, actor, Pending, 0, None, None, None);
      commands := commands + [row];
      RecordChanges(input.records, input.command.actionId);
      return Saved(row);
    }

    method ClaimHead(due: bool, unexpired: bool, lease: Id) returns (claim: Option<Claim>)
      modifies this
      ensures (Data(), claim) == TakeClaim(old(Data()), due, unexpired, lease)
    {
      var i := FirstPending(commands);
      if i == |commands| || !due {
        return None;
      }
      var row := commands[i];
      if row.lease.Some? && unexpired {
        return None;
      }
      var id := row.ActionId();
      if row.lease.Some? && (id, row.attempts) in attempts && attempts[(id, row.attempts)].result.None? {
        attempts := attempts[(id, row.attempts) := attempts[(id, row.attempts)].(result := Some(LeaseExpired))];
      }
      commands := commands[i := row.(lease := Some(lease), attempts := row.attempts + 1)];
      attempts := attempts[(id, row.attempts + 1) := Attempt(lease, None)];
      return Some(Claim(id, lease, row.attempts + 1));
    }

    method CompleteClaim(claim: Claim, response: Response)
      modifies this
      ensures Data() == Complete(old(Data()), claim, response)
    {
      var i := Find(commands, claim.actionId);
      if i < |commands| && commands[i].lease == Some(claim.lease) && commands[i].status.Pending? {
        var status := if response.Decided? then Settled(response.decision) else Pending;
        var error := if response.Decided? then response.problem else Some(response.error);
        var body := if response.Decided? then Some(response.body) else None;
        commands := commands[i := commands[i].(status := status, lastError := error, lease := None, result := body)];
        if (claim.actionId, claim.number) in attempts {
          var result := if response.Decided? then Verdict(response.decision) else Failure(error);
          attempts := attempts[(claim.actionId, claim.number) := attempts[(claim.actionId, claim.number)].(result := Some(result))];
        }
      }
    }
  }
}
