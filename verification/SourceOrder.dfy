/** What every run of the source lane keeps, whatever workers, crashes and lease expiries it meets. */
module SourceOrder {
  import opened Wrappers
  import opened SourceLane

  datatype TraceEvent = SendOf(actionId: Id) | VerdictOn(actionId: Id, decision: Decision)

  /** The tables, every claim ever handed out, every lease id ever drawn, and what left the
      process or was stored, in order. A claim is never taken back, so a worker may stop at any
      point, go on long after its lease was replaced, or act twice. */
  datatype System = System(lane: Lane, claims: set<Claim>, leases: set<Id>, trace: seq<TraceEvent>)

  const Start := System(EmptyLane, {}, {}, [])

  datatype Step =
    | SaveStep(actor: string, input: Submission, conforms: bool, inScope: bool)
    | ClaimStep(due: bool, unexpired: bool, lease: Id)
    | SendStep(claim: Claim)
    | CompleteStep(claim: Claim, response: Response)

  predicate Allowed(s: System, step: Step) {
    match step
    case SaveStep(_, _, _, _) => true
    case ClaimStep(_, _, lease) => lease !in s.leases
    case SendStep(claim) => claim in s.claims
    case CompleteStep(claim, _) => claim in s.claims
  }

  /** The completion finds its own lease in place. */
  predicate Holds(lane: Lane, claim: Claim) {
    var i := Find(lane.commands, claim.actionId);
    i < |lane.commands| && lane.commands[i].lease == Some(claim.lease) && lane.commands[i].status.Pending?
  }

  function Next(s: System, step: Step): System {
    match step
    case SaveStep(actor, input, conforms, inScope) =>
      s.(lane := Save(s.lane, actor, input, conforms, inScope).0)
    case ClaimStep(due, unexpired, lease) =>
      var (lane, claim) := TakeClaim(s.lane, due, unexpired, lease);
      s.(lane := lane, leases := s.leases + {lease}, claims := if claim.Some? then s.claims + {claim.value} else s.claims)
    case SendStep(claim) =>
      s.(trace := s.trace + [SendOf(claim.actionId)])
    case CompleteStep(claim, response) =>
      s.(lane := Complete(s.lane, claim, response),
         trace := if Holds(s.lane, claim) && response.Decided?
                  then s.trace + [VerdictOn(claim.actionId, response.decision)] else s.trace)
  }

  // ----- The queue -----

  ghost predicate DistinctIds(commands: seq<Row>) {
    forall i, j | 0 <= i < j < |commands| :: commands[i].ActionId() != commands[j].ActionId()
  }

  /** Settled commands are a prefix of the ordinals, and nothing behind a pending command was ever claimed. */
  ghost predicate InOrder(commands: seq<Row>) {
    forall i, j | 0 <= i < j < |commands| && commands[i].status.Pending? ::
      commands[j].status.Pending? && commands[j].attempts == 0
  }

  ghost predicate LeasesFit(commands: seq<Row>) {
    forall i | 0 <= i < |commands| && commands[i].lease.Some? ::
      commands[i].status.Pending? && commands[i].attempts > 0
  }

  ghost predicate Queue(lane: Lane) {
    DistinctIds(lane.commands) && InOrder(lane.commands) && LeasesFit(lane.commands)
  }

  lemma FindOwn(commands: seq<Row>, i: nat)
    requires DistinctIds(commands) && i < |commands|
    ensures Find(commands, commands[i].ActionId()) == i
  {
  }

  lemma {:induction false} FindAppended(commands: seq<Row>, row: Row, actionId: Id)
    ensures Find(commands + [row], actionId) ==
            if Find(commands, actionId) < |commands| then Find(commands, actionId)
            else if row.ActionId() == actionId then |commands| else |commands| + 1
  {
    if commands != [] {
      assert (commands + [row])[1..] == commands[1..] + [row];
      if commands[0].ActionId() != actionId {
        FindAppended(commands[1..], row, actionId);
      }
    }
  }

  lemma {:induction false} RecordAllFrame(lane: Lane, records: seq<Edit>, actionId: Id)
    ensures RecordAll(lane, records, actionId).commands == lane.commands
    ensures RecordAll(lane, records, actionId).attempts == lane.attempts
    decreases |records|
  {
    if records != [] {
      RecordAllFrame(lane, records[..|records| - 1], actionId);
    }
  }

  lemma SaveShape(lane: Lane, actor: string, input: Submission, conforms: bool, inScope: bool)
    ensures var (after, result) := Save(lane, actor, input, conforms, inScope);
            if result.Saved? then
              && after.commands == lane.commands + [Row(input, actor, Pending, 0, None, None, None)]
              && after.attempts == lane.attempts
              && Find(lane.commands, input.command.actionId) == |lane.commands|
            else after == lane
  {
    var row := Row(input, actor, Pending, 0, None, None, None);
    RecordAllFrame(lane.(commands := lane.commands + [row]), input.records, input.command.actionId);
  }

  lemma SaveKeepsQueue(lane: Lane, actor: string, input: Submission, conforms: bool, inScope: bool)
    requires Queue(lane)
    ensures Queue(Save(lane, actor, input, conforms, inScope).0)
  {
    SaveShape(lane, actor, input, conforms, inScope);
  }

  lemma ClaimKeepsQueue(lane: Lane, due: bool, unexpired: bool, lease: Id)
    requires Queue(lane)
    ensures Queue(TakeClaim(lane, due, unexpired, lease).0)
  {
  }

  /** Whoever holds the lease holds the head: everything before it is settled. */
  lemma HolderIsHead(lane: Lane, claim: Claim)
    requires Queue(lane) && Holds(lane, claim)
    ensures forall j | 0 <= j < Find(lane.commands, claim.actionId) :: !lane.commands[j].status.Pending?
  {
    var i := Find(lane.commands, claim.actionId);
    assert lane.commands[i].attempts > 0;
  }

  lemma CompleteKeepsQueue(lane: Lane, claim: Claim, response: Response)
    requires Queue(lane)
    ensures Queue(Complete(lane, claim, response))
  {
    if Holds(lane, claim) {
      HolderIsHead(lane, claim);
    }
  }

  // ----- The attempts -----

  function AttemptsOf(lane: Lane, id: Id): nat {
    var i := Find(lane.commands, id);
    if i < |lane.commands| then lane.commands[i].attempts else 0
  }

  function LeaseOf(lane: Lane, id: Id): Option<Id> {
    var i := Find(lane.commands, id);
    if i < |lane.commands| then lane.commands[i].lease else None
  }

  /** A command's attempt rows are numbered 1 to its attempt count, and no others exist. */
  ghost predicate AttemptsCounted(lane: Lane) {
    forall id: Id, n: nat :: (id, n) in lane.attempts <==> 1 <= n <= AttemptsOf(lane, id)
  }

  /** The unfinished attempt of a command is its last, under the command's lease; without a
      lease every attempt is finished. */
  ghost predicate AttemptFits(lane: Lane, id: Id, n: nat, attempt: Attempt) {
    && (attempt.result.None? <==> LeaseOf(lane, id).Some? && n == AttemptsOf(lane, id))
    && (attempt.result.None? ==> LeaseOf(lane, id) == Some(attempt.lease))
  }

  ghost predicate UnfinishedIsLeased(lane: Lane) {
    forall id, n | (id, n) in lane.attempts :: AttemptFits(lane, id, n, lane.attempts[(id, n)])
  }

  /** Lease ids are never drawn twice. */
  ghost predicate LeasesDistinct(lane: Lane, leases: set<Id>) {
    && (forall key | key in lane.attempts :: lane.attempts[key].lease in leases)
    && (forall a, b | a in lane.attempts && b in lane.attempts && a != b :: lane.attempts[a].lease != lane.attempts[b].lease)
  }

  ghost predicate ClaimsRecorded(lane: Lane, claims: set<Claim>) {
    forall c | c in claims ::
      (c.actionId, c.number) in lane.attempts && lane.attempts[(c.actionId, c.number)].lease == c.lease
  }

  ghost predicate Fenced(s: System) {
    && AttemptsCounted(s.lane) && UnfinishedIsLeased(s.lane)
    && LeasesDistinct(s.lane, s.leases) && ClaimsRecorded(s.lane, s.claims)
  }

  lemma SaveKeepsFences(s: System, step: Step)
    requires step.SaveStep? && Fenced(s)
    ensures Fenced(Next(s, step))
  {
    SaveShape(s.lane, step.actor, step.input, step.conforms, step.inScope);
    var (after, result) := Save(s.lane, step.actor, step.input, step.conforms, step.inScope);
    if result.Saved? {
      var row := Row(step.input, step.actor, Pending, 0, None, None, None);
      forall id ensures AttemptsOf(after, id) == AttemptsOf(s.lane, id) && LeaseOf(after, id) == LeaseOf(s.lane, id) {
        FindAppended(s.lane.commands, row, id);
      }
      forall id, n | (id, n) in after.attempts ensures AttemptFits(after, id, n, after.attempts[(id, n)]) {
        assert AttemptFits(s.lane, id, n, s.lane.attempts[(id, n)]);
      }
    }
  }

  lemma {:induction false} FindSameIds(before: seq<Row>, after: seq<Row>, actionId: Id)
    requires |before| == |after| && forall i | 0 <= i < |before| :: before[i].ActionId() == after[i].ActionId()
    ensures Find(before, actionId) == Find(after, actionId)
  {
    if before != [] && before[0].ActionId() != actionId {
      FindSameIds(before[1..], after[1..], actionId);
    }
  }

  /** Replacing one row changes the counts of its own command only. */
  lemma RowReplaced(lane: Lane, after: Lane, i: nat, row: Row, id: Id)
    requires Queue(lane) && i < |lane.commands| && row.ActionId() == lane.commands[i].ActionId()
    requires after.commands == lane.commands[i := row]
    ensures AttemptsOf(after, id) == if id == row.ActionId() then row.attempts else AttemptsOf(lane, id)
    ensures LeaseOf(after, id) == if id == row.ActionId() then row.lease else LeaseOf(lane, id)
  {
    FindSameIds(lane.commands, after.commands, id);
    FindOwn(lane.commands, i);
  }

  /** `claim` opened the next attempt of its command, closed the one that was open, and moved nothing else. */
  ghost predicate Opened(lane: Lane, after: Lane, claim: Claim) {
    && claim.number == AttemptsOf(lane, claim.actionId) + 1
    && (forall id :: AttemptsOf(after, id) == AttemptsOf(lane, id) + if id == claim.actionId then 1 else 0)
    && (forall id :: LeaseOf(after, id) == if id == claim.actionId then Some(claim.lease) else LeaseOf(lane, id))
    && after.attempts.Keys == lane.attempts.Keys + {(claim.actionId, claim.number)}
    && after.attempts[(claim.actionId, claim.number)] == Attempt(claim.lease, None)
    && (forall key | key in lane.attempts && key.0 != claim.actionId :: after.attempts[key] == lane.attempts[key])
    && (forall key | key in lane.attempts && key.0 == claim.actionId && key != (claim.actionId, claim.number) ::
          after.attempts[key].lease == lane.attempts[key].lease && after.attempts[key].result.Some?)
  }

  /** The claim closes whatever attempt of its command was still open. */
  lemma ClaimCloses(lane: Lane, due: bool, unexpired: bool, lease: Id, n: nat)
    requires Queue(lane) && UnfinishedIsLeased(lane)
    requires var claim := TakeClaim(lane, due, unexpired, lease).1;
             claim.Some? && (claim.value.actionId, n) in lane.attempts && n != claim.value.number
    ensures var (after, claim) := TakeClaim(lane, due, unexpired, lease);
            var key := (claim.value.actionId, n);
            key in after.attempts && after.attempts[key].lease == lane.attempts[key].lease && after.attempts[key].result.Some?
  {
    var id := TakeClaim(lane, due, unexpired, lease).1.value.actionId;
    FindOwn(lane.commands, FirstPending(lane.commands));
    assert AttemptFits(lane, id, n, lane.attempts[(id, n)]);
  }

  lemma ClaimOpens(lane: Lane, due: bool, unexpired: bool, lease: Id)
    requires Queue(lane) && UnfinishedIsLeased(lane)
    ensures var (after, claim) := TakeClaim(lane, due, unexpired, lease);
            if claim.None? then after == lane else claim.value.lease == lease && Opened(lane, after, claim.value)
  {
    var (after, claim) := TakeClaim(lane, due, unexpired, lease);
    if claim.Some? {
      var i := FirstPending(lane.commands);
      FindOwn(lane.commands, i);
      var id := claim.value.actionId;
      forall x ensures AttemptsOf(after, x) == AttemptsOf(lane, x) + (if x == id then 1 else 0)
                    && LeaseOf(after, x) == if x == id then Some(lease) else LeaseOf(lane, x)
      {
        RowReplaced(lane, after, i, after.commands[i], x);
      }
      forall key | key in lane.attempts && key.0 == id && key != (id, claim.value.number)
        ensures after.attempts[key].lease == lane.attempts[key].lease && after.attempts[key].result.Some?
      {
        ClaimCloses(lane, due, unexpired, lease, key.1);
      }
    }
  }

  lemma OpenedKeepsCount(lane: Lane, after: Lane, claim: Claim)
    requires AttemptsCounted(lane) && Opened(lane, after, claim)
    ensures AttemptsCounted(after)
  {
  }

  lemma OpenedKeepsLeased(lane: Lane, after: Lane, claim: Claim)
    requires AttemptsCounted(lane) && UnfinishedIsLeased(lane) && Opened(lane, after, claim)
    ensures UnfinishedIsLeased(after)
  {
    forall id, n | (id, n) in after.attempts ensures AttemptFits(after, id, n, after.attempts[(id, n)]) {
      if id != claim.actionId {
        assert AttemptFits(lane, id, n, lane.attempts[(id, n)]);
      } else if n != claim.number {
        assert (id, n) in lane.attempts;
      }
    }
  }

  lemma OpenedKeepsLeases(lane: Lane, after: Lane, claim: Claim, leases: set<Id>)
    requires LeasesDistinct(lane, leases) && claim.lease !in leases && (claim.actionId, claim.number) !in lane.attempts
    requires after.attempts.Keys == lane.attempts.Keys + {(claim.actionId, claim.number)}
    requires after.attempts[(claim.actionId, claim.number)].lease == claim.lease
    requires forall key | key in lane.attempts :: after.attempts[key].lease == lane.attempts[key].lease
    ensures LeasesDistinct(after, leases + {claim.lease})
  {
    var newest := (claim.actionId, claim.number);
    forall a, b | a in after.attempts && b in after.attempts && a != b ensures after.attempts[a].lease != after.attempts[b].lease {
      if a == newest {
        assert lane.attempts[b].lease in leases;
      } else if b == newest {
        assert lane.attempts[a].lease in leases;
      }
    }
  }

  /** A claim opens an attempt that did not exist and leaves the other attempts their leases. */
  lemma ClaimLeavesLeases(s: System, step: Step)
    requires step.ClaimStep? && Allowed(s, step) && Queue(s.lane) && AttemptsCounted(s.lane) && UnfinishedIsLeased(s.lane)
    ensures var (after, claim) := TakeClaim(s.lane, step.due, step.unexpired, step.lease);
      claim.Some? ==>
        && (claim.value.actionId, claim.value.number) !in s.lane.attempts
        && forall key | key in s.lane.attempts :: key in after.attempts && after.attempts[key].lease == s.lane.attempts[key].lease
  {
    ClaimOpens(s.lane, step.due, step.unexpired, step.lease);
  }

  lemma ClaimKeepsFences(s: System, step: Step)
    requires step.ClaimStep? && Allowed(s, step) && Queue(s.lane) && Fenced(s)
    ensures Fenced(Next(s, step))
  {
    ClaimOpens(s.lane, step.due, step.unexpired, step.lease);
    ClaimLeavesLeases(s, step);
    var (after, claim) := TakeClaim(s.lane, step.due, step.unexpired, step.lease);
    if claim.Some? {
      OpenedKeepsCount(s.lane, after, claim.value);
      OpenedKeepsLeased(s.lane, after, claim.value);
      OpenedKeepsLeases(s.lane, after, claim.value, s.leases);
    }
  }

  /** A claim that still holds its lease is the command's last attempt. */
  lemma HolderIsCurrent(s: System, claim: Claim)
    requires Fenced(s) && claim in s.claims && Holds(s.lane, claim)
    requires AttemptsOf(s.lane, claim.actionId) > 0
    ensures claim.number == AttemptsOf(s.lane, claim.actionId)
  {
    var last := (claim.actionId, AttemptsOf(s.lane, claim.actionId));
    assert last in s.lane.attempts;
    assert AttemptFits(s.lane, last.0, last.1, s.lane.attempts[last]);
    assert (claim.actionId, claim.number) in s.lane.attempts;
  }

  lemma CompleteKeepsFences(s: System, step: Step)
    requires step.CompleteStep? && Allowed(s, step) && Queue(s.lane) && Fenced(s)
    ensures Fenced(Next(s, step))
  {
    var claim := step.claim;
    var after := Complete(s.lane, claim, step.response);
    if Holds(s.lane, claim) {
      var i := Find(s.lane.commands, claim.actionId);
      assert s.lane.commands[i].attempts > 0;
      HolderIsCurrent(s, claim);
      forall id ensures AttemptsOf(after, id) == AttemptsOf(s.lane, id)
                     && LeaseOf(after, id) == if id == claim.actionId then None else LeaseOf(s.lane, id)
      {
        RowReplaced(s.lane, after, i, after.commands[i], id);
      }
      forall id, n | (id, n) in after.attempts ensures AttemptFits(after, id, n, after.attempts[(id, n)]) {
        assert AttemptFits(s.lane, id, n, s.lane.attempts[(id, n)]);
      }
    }
  }

  // ----- The revision chain of every record -----

  predicate Earlier(commands: seq<Row>, first: Id, second: Id) {
    Find(commands, first) < Find(commands, second)
  }

  /** The revisions of a record are 1 to its current one. */
  ghost predicate Dense(lane: Lane) {
    forall v: Version :: v in lane.changes <==> 1 <= v.revision <= CurrentRevision(lane, v.key)
  }

  /** Each revision was made by a saved command, and a later revision by a later command. */
  ghost predicate Ascending(commands: seq<Row>, changes: map<Version, Change>) {
    && (forall v | v in changes :: Find(commands, changes[v].commandId) < |commands|)
    && (forall v, w | v in changes && w in changes && v.key == w.key && v.revision < w.revision ::
          Earlier(commands, changes[v].commandId, changes[w].commandId))
  }

  ghost predicate Chained(lane: Lane) {
    Dense(lane) && Ascending(lane.commands, lane.changes)
  }

  predicate EditRecorded(changes: map<Version, Change>, e: Edit, actionId: Id) {
    var v := Version(e.key, e.expectedRevision + 1);
    v in changes && changes[v] == Change(e.desired, actionId)
  }

  /** The change that an edit of a saved command made is still there under that command. */
  ghost predicate EditsRecorded(lane: Lane) {
    forall i, e | 0 <= i < |lane.commands| && e in lane.commands[i].submission.records ::
      EditRecorded(lane.changes, e, lane.commands[i].ActionId())
  }

  predicate Untouched(records: seq<Edit>, key: RecordKey) {
    forall e | e in records :: e.key != key
  }

  lemma {:induction false} RecordAllTouches(lane: Lane, records: seq<Edit>, actionId: Id, key: RecordKey)
    requires Untouched(records, key)
    ensures CurrentRevision(RecordAll(lane, records, actionId), key) == CurrentRevision(lane, key)
    decreases |records|
  {
    if records != [] {
      var shorter := records[..|records| - 1];
      assert records[|records| - 1] in records && forall e | e in shorter :: e in records;
      RecordAllTouches(lane, shorter, actionId, key);
    }
  }

  ghost predicate Extends(before: map<Version, Change>, after: map<Version, Change>) {
    forall v | v in before :: v in after && after[v] == before[v]
  }

  lemma RecordKeepsDense(lane: Lane, e: Edit, actionId: Id)
    requires Dense(lane) && CurrentRevision(lane, e.key) == e.expectedRevision
    ensures Dense(Record(lane, e, actionId)) && Extends(lane.changes, Record(lane, e, actionId).changes)
  {
    var after := Record(lane, e, actionId);
    assert Version(e.key, e.expectedRevision + 1) !in lane.changes;
    forall v: Version ensures v in after.changes <==> 1 <= v.revision <= CurrentRevision(after, v.key) {
      assert v in lane.changes <==> 1 <= v.revision <= CurrentRevision(lane, v.key);
    }
  }

  lemma RecordKeepsAscending(commands: seq<Row>, changes: map<Version, Change>, latest: Version, change: Change)
    requires Ascending(commands, changes) && Find(commands, change.commandId) < |commands|
    requires forall v | v in changes && v.key == latest.key :: v.revision < latest.revision
    requires forall v | v in changes && v.key == latest.key :: Earlier(commands, changes[v].commandId, change.commandId)
    ensures Ascending(commands, changes[latest := change])
  {
  }

  lemma RecordKeepsChain(lane: Lane, e: Edit, actionId: Id)
    requires Chained(lane) && CurrentRevision(lane, e.key) == e.expectedRevision
    requires Find(lane.commands, actionId) < |lane.commands|
    requires forall v | v in lane.changes && v.key == e.key :: Earlier(lane.commands, lane.changes[v].commandId, actionId)
    ensures Chained(Record(lane, e, actionId)) && Extends(lane.changes, Record(lane, e, actionId).changes)
  {
    RecordKeepsDense(lane, e, actionId);
    RecordKeepsAscending(lane.commands, lane.changes, Version(e.key, e.expectedRevision + 1), Change(e.desired, actionId));
  }

  /** All the edits of one command: the chains stay, and the changes outside its keys are older. */
  lemma {:induction false} RecordAllKeepsChain(lane: Lane, records: seq<Edit>, actionId: Id)
    requires Chained(lane) && Current(lane, records) && KeysDistinct(records)
    requires Find(lane.commands, actionId) < |lane.commands|
    requires forall v | v in lane.changes :: Earlier(lane.commands, lane.changes[v].commandId, actionId)
    ensures var after := RecordAll(lane, records, actionId);
            && Chained(after) && Extends(lane.changes, after.changes)
            && (forall v | v in after.changes && Untouched(records, v.key) :: Earlier(lane.commands, after.changes[v].commandId, actionId))
            && (forall e | e in records :: EditRecorded(after.changes, e, actionId))
    decreases |records|
  {
    if records != [] {
      var shorter, last := records[..|records| - 1], records[|records| - 1];
      assert forall e | e in shorter :: e in records;
      RecordAllKeepsChain(lane, shorter, actionId);
      RecordAllFrame(lane, shorter, actionId);
      assert last in records && Untouched(shorter, last.key);
      RecordAllTouches(lane, shorter, actionId, last.key);
      RecordKeepsChain(RecordAll(lane, shorter, actionId), last, actionId);
      LastEdit(RecordAll(lane, shorter, actionId), records, actionId, lane.commands);
    }
  }

  lemma LastEdit(mid: Lane, records: seq<Edit>, actionId: Id, commands: seq<Row>)
    requires records != []
    requires var shorter := records[..|records| - 1];
             && (forall v | v in mid.changes && Untouched(shorter, v.key) :: Earlier(commands, mid.changes[v].commandId, actionId))
             && (forall e | e in shorter :: EditRecorded(mid.changes, e, actionId))
    requires Extends(mid.changes, Record(mid, records[|records| - 1], actionId).changes)
    ensures var after := Record(mid, records[|records| - 1], actionId);
            && (forall v | v in after.changes && Untouched(records, v.key) :: Earlier(commands, after.changes[v].commandId, actionId))
            && (forall e | e in records :: EditRecorded(after.changes, e, actionId))
  {
    var shorter, last := records[..|records| - 1], records[|records| - 1];
    var after := Record(mid, last, actionId);
    assert forall e | e in records :: e in shorter || e == last;
    assert last in records && forall e | e in shorter :: e in records;
    forall v | v in after.changes && Untouched(records, v.key) ensures Earlier(commands, after.changes[v].commandId, actionId) {
      assert v.key != last.key && Untouched(shorter, v.key);
    }
  }

  lemma AppendingKeepsChain(commands: seq<Row>, changes: map<Version, Change>, row: Row)
    requires Ascending(commands, changes) && Find(commands, row.ActionId()) == |commands|
    ensures Ascending(commands + [row], changes) && Find(commands + [row], row.ActionId()) == |commands|
    ensures forall v | v in changes :: Earlier(commands + [row], changes[v].commandId, row.ActionId())
  {
    FindAppended(commands, row, row.ActionId());
    forall v | v in changes ensures Find(commands + [row], changes[v].commandId) == Find(commands, changes[v].commandId) {
      FindAppended(commands, row, changes[v].commandId);
    }
  }

  lemma SavedKeepsRecords(lane: Lane, row: Row)
    requires Chained(lane) && EditsRecorded(lane) && Find(lane.commands, row.ActionId()) == |lane.commands|
    requires Current(lane, row.submission.records) && KeysDistinct(row.submission.records)
    ensures var after := RecordAll(lane.(commands := lane.commands + [row]), row.submission.records, row.ActionId());
            Chained(after) && EditsRecorded(after) && Extends(lane.changes, after.changes)
  {
    var appended, edits := lane.(commands := lane.commands + [row]), row.submission.records;
    AppendingKeepsChain(lane.commands, lane.changes, row);
    assert forall r | r in edits :: CurrentRevision(appended, r.key) == CurrentRevision(lane, r.key);
    assert Current(appended, edits) && Dense(appended);
    RecordAllKeepsChain(appended, edits, row.ActionId());
    RecordAllFrame(appended, edits, row.ActionId());
    var after := RecordAll(appended, edits, row.ActionId());
    forall i, e | 0 <= i < |after.commands| && e in after.commands[i].submission.records
      ensures EditRecorded(after.changes, e, after.commands[i].ActionId())
    {
      if i < |lane.commands| {
        assert EditRecorded(lane.changes, e, lane.commands[i].ActionId());
      }
    }
  }

  lemma SaveKeepsRecords(lane: Lane, actor: string, input: Submission, conforms: bool, inScope: bool)
    requires Chained(lane) && EditsRecorded(lane)
    ensures var after := Save(lane, actor, input, conforms, inScope).0;
            Chained(after) && EditsRecorded(after) && Extends(lane.changes, after.changes)
  {
    var (after, result) := Save(lane, actor, input, conforms, inScope);
    if result.Saved? {
      SavedKeepsRecords(lane, Row(input, actor, Pending, 0, None, None, None));
    }
  }

  lemma SameIdsKeepRecords(lane: Lane, after: Lane)
    requires Chained(lane) && EditsRecorded(lane) && lane.records == after.records && lane.changes == after.changes
    requires |lane.commands| == |after.commands|
    requires forall i | 0 <= i < |lane.commands| :: lane.commands[i].submission == after.commands[i].submission
    ensures Chained(after) && EditsRecorded(after)
  {
    forall v | v in lane.changes ensures Find(lane.commands, lane.changes[v].commandId) == Find(after.commands, lane.changes[v].commandId) {
      FindSameIds(lane.commands, after.commands, lane.changes[v].commandId);
    }
    assert forall key :: CurrentRevision(after, key) == CurrentRevision(lane, key);
    forall i, e | 0 <= i < |after.commands| && e in after.commands[i].submission.records
      ensures EditRecorded(after.changes, e, after.commands[i].ActionId())
    {
      assert EditRecorded(lane.changes, e, lane.commands[i].ActionId());
    }
  }

  // ----- What was sent, and when -----

  ghost predicate VerdictBefore(trace: seq<TraceEvent>, p: nat, id: Id) {
    exists q | 0 <= q < p && q < |trace| :: trace[q].VerdictOn? && trace[q].actionId == id
  }

  /** Every send was of a saved, claimed command, after the verdict on every earlier command. */
  ghost predicate SendsInOrder(lane: Lane, trace: seq<TraceEvent>) {
    forall p | 0 <= p < |trace| && trace[p].SendOf? :: SendInOrder(lane.commands, trace, p, trace[p].actionId)
  }

  ghost predicate SendInOrder(commands: seq<Row>, trace: seq<TraceEvent>, p: nat, id: Id) {
    && Find(commands, id) < |commands|
    && forall j | 0 <= j < Find(commands, id) :: VerdictBefore(trace, p, commands[j].ActionId())
  }

  /** The stored verdicts are exactly the settled commands, each once. */
  ghost predicate VerdictsMatch(lane: Lane, trace: seq<TraceEvent>) {
    && (forall j | 0 <= j < |lane.commands| && lane.commands[j].status.Settled? ::
          VerdictOn(lane.commands[j].ActionId(), lane.commands[j].status.decision) in trace)
    && (forall q | 0 <= q < |trace| && trace[q].VerdictOn? ::
          var i := Find(lane.commands, trace[q].actionId);
          i < |lane.commands| && lane.commands[i].status == Settled(trace[q].decision))
    && (forall p, q | 0 <= p < q < |trace| && trace[p].VerdictOn? && trace[q].VerdictOn? ::
          trace[p].actionId != trace[q].actionId)
  }

  ghost predicate Inv(s: System) {
    && Queue(s.lane) && Fenced(s)
    && Chained(s.lane) && EditsRecorded(s.lane)
    && SendsInOrder(s.lane, s.trace) && VerdictsMatch(s.lane, s.trace)
  }

  lemma SaveKeepsTrace(lane: Lane, trace: seq<TraceEvent>, actor: string, input: Submission, conforms: bool, inScope: bool)
    requires SendsInOrder(lane, trace) && VerdictsMatch(lane, trace)
    ensures var after := Save(lane, actor, input, conforms, inScope).0; SendsInOrder(after, trace) && VerdictsMatch(after, trace)
  {
    SaveShape(lane, actor, input, conforms, inScope);
    var (after, result) := Save(lane, actor, input, conforms, inScope);
    if result.Saved? {
      var row := Row(input, actor, Pending, 0, None, None, None);
      forall id ensures Find(lane.commands, id) < |lane.commands| ==> Find(after.commands, id) == Find(lane.commands, id) {
        FindAppended(lane.commands, row, id);
      }
      forall p | 0 <= p < |trace| && trace[p].SendOf? ensures SendInOrder(after.commands, trace, p, trace[p].actionId) {
        assert SendInOrder(lane.commands, trace, p, trace[p].actionId);
      }
    }
  }

  lemma SameStatusKeepsTrace(lane: Lane, after: Lane, trace: seq<TraceEvent>)
    requires SendsInOrder(lane, trace) && VerdictsMatch(lane, trace) && |lane.commands| == |after.commands|
    requires forall i | 0 <= i < |lane.commands| ::
      lane.commands[i].ActionId() == after.commands[i].ActionId() && lane.commands[i].status == after.commands[i].status
    ensures SendsInOrder(after, trace) && VerdictsMatch(after, trace)
  {
    forall id ensures Find(lane.commands, id) == Find(after.commands, id) {
      FindSameIds(lane.commands, after.commands, id);
    }
    forall p | 0 <= p < |trace| && trace[p].SendOf? ensures SendInOrder(after.commands, trace, p, trace[p].actionId) {
      assert SendInOrder(lane.commands, trace, p, trace[p].actionId);
    }
  }

  lemma VerdictGrows(trace: seq<TraceEvent>, e: TraceEvent, p: nat, id: Id)
    requires VerdictBefore(trace, p, id)
    ensures VerdictBefore(trace + [e], p, id)
  {
    var q :| 0 <= q < p && q < |trace| && trace[q].VerdictOn? && trace[q].actionId == id;
    assert (trace + [e])[q] == trace[q];
  }

  lemma SendsGrow(lane: Lane, trace: seq<TraceEvent>, e: TraceEvent)
    requires SendsInOrder(lane, trace)
    requires e.SendOf? ==> SendInOrder(lane.commands, trace + [e], |trace|, e.actionId)
    ensures SendsInOrder(lane, trace + [e])
  {
    forall p | 0 <= p < |trace + [e]| && (trace + [e])[p].SendOf?
      ensures SendInOrder(lane.commands, trace + [e], p, (trace + [e])[p].actionId)
    {
      if p < |trace| {
        assert SendInOrder(lane.commands, trace, p, trace[p].actionId);
        forall j | 0 <= j < Find(lane.commands, trace[p].actionId) ensures VerdictBefore(trace + [e], p, lane.commands[j].ActionId()) {
          VerdictGrows(trace, e, p, lane.commands[j].ActionId());
        }
      }
    }
  }

  lemma SettledHasVerdict(lane: Lane, trace: seq<TraceEvent>, e: TraceEvent, j: nat)
    requires VerdictsMatch(lane, trace) && j < |lane.commands| && lane.commands[j].status.Settled?
    ensures VerdictBefore(trace + [e], |trace|, lane.commands[j].ActionId())
  {
    var verdict := VerdictOn(lane.commands[j].ActionId(), lane.commands[j].status.decision);
    assert verdict in trace;
    var q :| 0 <= q < |trace| && trace[q] == verdict;
    assert (trace + [e])[q] == verdict;
  }

  /** A claimed command has everything before it settled, so its sending comes after their verdicts. */
  lemma SendKeepsTrace(lane: Lane, trace: seq<TraceEvent>, id: Id)
    requires Queue(lane) && SendsInOrder(lane, trace) && VerdictsMatch(lane, trace) && AttemptsOf(lane, id) > 0
    ensures SendsInOrder(lane, trace + [SendOf(id)]) && VerdictsMatch(lane, trace + [SendOf(id)])
  {
    forall j | 0 <= j < Find(lane.commands, id) ensures VerdictBefore(trace + [SendOf(id)], |trace|, lane.commands[j].ActionId()) {
      SettledHasVerdict(lane, trace, SendOf(id), j);
    }
    SendsGrow(lane, trace, SendOf(id));
  }

  lemma SettleKeepsTrace(lane: Lane, after: Lane, trace: seq<TraceEvent>, i: nat, decision: Decision)
    requires Queue(lane) && SendsInOrder(lane, trace) && VerdictsMatch(lane, trace)
    requires i < |lane.commands| && lane.commands[i].status.Pending?
    requires |after.commands| == |lane.commands|
    requires after.commands == lane.commands[i := after.commands[i]] && after.commands[i].ActionId() == lane.commands[i].ActionId()
    requires after.commands[i].status == Settled(decision)
    ensures var e := VerdictOn(lane.commands[i].ActionId(), decision);
            SendsInOrder(after, trace + [e]) && VerdictsMatch(after, trace + [e])
  {
    var e := VerdictOn(lane.commands[i].ActionId(), decision);
    forall id ensures Find(lane.commands, id) == Find(after.commands, id) {
      FindSameIds(lane.commands, after.commands, id);
    }
    FindOwn(lane.commands, i);
    assert SendsInOrder(after, trace) by {
      forall p | 0 <= p < |trace| && trace[p].SendOf? ensures SendInOrder(after.commands, trace, p, trace[p].actionId) {
        assert SendInOrder(lane.commands, trace, p, trace[p].actionId);
      }
    }
    SendsGrow(after, trace, e);
    VerdictAdded(lane, after, trace, i, decision);
  }

  /** The trace with the verdict on row `i`, which was pending. */
  ghost predicate Adds(lane: Lane, after: Lane, i: nat, decision: Decision) {
    && i < |lane.commands| == |after.commands| && lane.commands[i].status.Pending?
    && after.commands == lane.commands[i := after.commands[i]] && after.commands[i].ActionId() == lane.commands[i].ActionId()
    && after.commands[i].status == Settled(decision)
    && (forall id :: Find(lane.commands, id) == Find(after.commands, id))
    && Find(lane.commands, lane.commands[i].ActionId()) == i
  }

  lemma VerdictIsIn(lane: Lane, after: Lane, trace: seq<TraceEvent>, i: nat, decision: Decision, j: nat)
    requires VerdictsMatch(lane, trace) && Adds(lane, after, i, decision) && j < |after.commands| && after.commands[j].status.Settled?
    ensures VerdictOn(after.commands[j].ActionId(), after.commands[j].status.decision) in
            trace + [VerdictOn(lane.commands[i].ActionId(), decision)]
  {
    if j != i {
      assert VerdictOn(lane.commands[j].ActionId(), lane.commands[j].status.decision) in trace;
    } else {
      assert (trace + [VerdictOn(lane.commands[i].ActionId(), decision)])[|trace|] == VerdictOn(lane.commands[i].ActionId(), decision);
    }
  }

  lemma VerdictAdded(lane: Lane, after: Lane, trace: seq<TraceEvent>, i: nat, decision: Decision)
    requires VerdictsMatch(lane, trace) && Adds(lane, after, i, decision)
    ensures VerdictsMatch(after, trace + [VerdictOn(lane.commands[i].ActionId(), decision)])
  {
    forall j | 0 <= j < |after.commands| && after.commands[j].status.Settled?
      ensures VerdictOn(after.commands[j].ActionId(), after.commands[j].status.decision) in
              trace + [VerdictOn(lane.commands[i].ActionId(), decision)]
    {
      VerdictIsIn(lane, after, trace, i, decision, j);
    }
  }

  lemma SettlingKeepsTrace(lane: Lane, trace: seq<TraceEvent>, claim: Claim, response: Response)
    requires Queue(lane) && SendsInOrder(lane, trace) && VerdictsMatch(lane, trace) && Holds(lane, claim) && response.Decided?
    ensures var after, longer := Complete(lane, claim, response), trace + [VerdictOn(claim.actionId, response.decision)];
      SendsInOrder(after, longer) && VerdictsMatch(after, longer)
  {
    SettleKeepsTrace(lane, Complete(lane, claim, response), trace, Find(lane.commands, claim.actionId), response.decision);
  }

  lemma ReleasingKeepsTrace(lane: Lane, trace: seq<TraceEvent>, claim: Claim, response: Response)
    requires SendsInOrder(lane, trace) && VerdictsMatch(lane, trace) && (!Holds(lane, claim) || response.Unknown?)
    ensures SendsInOrder(Complete(lane, claim, response), trace) && VerdictsMatch(Complete(lane, claim, response), trace)
  {
    SameStatusKeepsTrace(lane, Complete(lane, claim, response), trace);
  }

  lemma CompleteKeepsTrace(s: System, claim: Claim, response: Response)
    requires Queue(s.lane) && SendsInOrder(s.lane, s.trace) && VerdictsMatch(s.lane, s.trace)
    ensures var after := Next(s, CompleteStep(claim, response));
            SendsInOrder(after.lane, after.trace) && VerdictsMatch(after.lane, after.trace)
  {
    if Holds(s.lane, claim) && response.Decided? {
      SettlingKeepsTrace(s.lane, s.trace, claim, response);
    } else {
      ReleasingKeepsTrace(s.lane, s.trace, claim, response);
    }
  }

  lemma SaveKeepsInv(s: System, step: Step)
    requires Inv(s) && step.SaveStep?
    ensures Inv(Next(s, step))
  {
    SaveKeepsQueue(s.lane, step.actor, step.input, step.conforms, step.inScope);
    SaveKeepsFences(s, step);
    SaveKeepsRecords(s.lane, step.actor, step.input, step.conforms, step.inScope);
    SaveKeepsTrace(s.lane, s.trace, step.actor, step.input, step.conforms, step.inScope);
  }

  /** Claiming and completing replace one row, keeping its command. */
  lemma ClaimTouches(lane: Lane, due: bool, unexpired: bool, lease: Id)
    ensures var after := TakeClaim(lane, due, unexpired, lease).0;
            && after.records == lane.records && after.changes == lane.changes && |after.commands| == |lane.commands|
            && forall i | 0 <= i < |lane.commands| ::
                 lane.commands[i].submission == after.commands[i].submission && lane.commands[i].status == after.commands[i].status
  {
  }

  lemma CompleteTouches(lane: Lane, claim: Claim, response: Response)
    ensures var after := Complete(lane, claim, response);
            && after.records == lane.records && after.changes == lane.changes && |after.commands| == |lane.commands|
            && forall i | 0 <= i < |lane.commands| :: lane.commands[i].submission == after.commands[i].submission
  {
  }

  lemma ClaimKeepsInv(s: System, step: Step)
    requires Inv(s) && step.ClaimStep? && Allowed(s, step)
    ensures Inv(Next(s, step))
  {
    var after := TakeClaim(s.lane, step.due, step.unexpired, step.lease).0;
    ClaimKeepsQueue(s.lane, step.due, step.unexpired, step.lease);
    ClaimKeepsFences(s, step);
    ClaimTouches(s.lane, step.due, step.unexpired, step.lease);
    SameIdsKeepRecords(s.lane, after);
    SameStatusKeepsTrace(s.lane, after, s.trace);
  }

  lemma SendKeepsInv(s: System, step: Step)
    requires Inv(s) && step.SendStep? && Allowed(s, step)
    ensures Inv(Next(s, step))
  {
    assert (step.claim.actionId, step.claim.number) in s.lane.attempts;
    assert AttemptsOf(s.lane, step.claim.actionId) > 0;
    SendKeepsTrace(s.lane, s.trace, step.claim.actionId);
  }

  lemma CompleteKeepsInv(s: System, step: Step)
    requires Inv(s) && step.CompleteStep? && Allowed(s, step)
    ensures Inv(Next(s, step))
  {
    CompleteKeepsQueue(s.lane, step.claim, step.response);
    CompleteKeepsFences(s, step);
    CompleteTouches(s.lane, step.claim, step.response);
    SameIdsKeepRecords(s.lane, Complete(s.lane, step.claim, step.response));
    CompleteKeepsTrace(s, step.claim, step.response);
  }

  lemma StepKeepsInv(s: System, step: Step)
    requires Inv(s) && Allowed(s, step)
    ensures Inv(Next(s, step))
  {
    match step
    case SaveStep(_, _, _, _) => SaveKeepsInv(s, step);
    case ClaimStep(_, _, _) => ClaimKeepsInv(s, step);
    case SendStep(_) => SendKeepsInv(s, step);
    case CompleteStep(_, _) => CompleteKeepsInv(s, step);
  }

  // ----- Whole runs -----

  function Run(s: System, steps: seq<Step>): System
    decreases |steps|
  {
    if steps == [] then s else Run(Next(s, steps[0]), steps[1..])
  }

  predicate AllAllowed(s: System, steps: seq<Step>)
    decreases |steps|
  {
    steps == [] || (Allowed(s, steps[0]) && AllAllowed(Next(s, steps[0]), steps[1..]))
  }

  lemma {:induction false} RunKeepsInv(s: System, steps: seq<Step>)
    requires Inv(s) && AllAllowed(s, steps)
    ensures Inv(Run(s, steps))
    decreases |steps|
  {
    if steps != [] {
      StepKeepsInv(s, steps[0]);
      RunKeepsInv(Next(s, steps[0]), steps[1..]);
    }
  }

  /** Settled commands are a prefix of the ordinals. */
  lemma SettledIsPrefix(steps: seq<Step>)
    requires AllAllowed(Start, steps)
    ensures var commands := Run(Start, steps).lane.commands;
            forall i | 0 <= i < |commands| :: commands[i].status.Settled? <==> i < FirstPending(commands)
  {
    RunKeepsInv(Start, steps);
  }

  /** For every record, the verdict on the command of a revision is stored before the command of
      the next revision is first sent, across workers, crashes and lease expiries. */
  lemma RecordOrder(steps: seq<Step>, key: RecordKey, r: nat, p: nat)
    requires AllAllowed(Start, steps)
    requires var s := Run(Start, steps);
             && Version(key, r) in s.lane.changes && Version(key, r + 1) in s.lane.changes
             && p < |s.trace| && s.trace[p] == SendOf(s.lane.changes[Version(key, r + 1)].commandId)
    ensures var s := Run(Start, steps); VerdictBefore(s.trace, p, s.lane.changes[Version(key, r)].commandId)
  {
    RunKeepsInv(Start, steps);
    var s := Run(Start, steps);
    var first, second := s.lane.changes[Version(key, r)].commandId, s.lane.changes[Version(key, r + 1)].commandId;
    assert Earlier(s.lane.commands, first, second);
    assert SendInOrder(s.lane.commands, s.trace, p, second);
    assert s.lane.commands[Find(s.lane.commands, first)].ActionId() == first;
  }

  /** Every edit of every saved command is one revision of its record, still under that command. */
  lemma EditsStay(steps: seq<Step>, i: nat, e: Edit)
    requires AllAllowed(Start, steps)
    requires i < |Run(Start, steps).lane.commands| && e in Run(Start, steps).lane.commands[i].submission.records
    ensures EditRecorded(Run(Start, steps).lane.changes, e, Run(Start, steps).lane.commands[i].ActionId())
    ensures e.expectedRevision < CurrentRevision(Run(Start, steps).lane, e.key)
  {
    RunKeepsInv(Start, steps);
    var lane := Run(Start, steps).lane;
    assert EditRecorded(lane.changes, e, lane.commands[i].ActionId());
    assert Version(e.key, e.expectedRevision + 1) in lane.changes;
  }

  /** The attempt count of a command is the number of its attempt rows, and exactly one of them
      is unfinished when the command is leased and none otherwise. */
  lemma AttemptAccounting(steps: seq<Step>, id: Id)
    requires AllAllowed(Start, steps)
    ensures var lane := Run(Start, steps).lane;
            && (forall n: nat :: (id, n) in lane.attempts <==> 1 <= n <= AttemptsOf(lane, id))
            && (forall n | (id, n) in lane.attempts ::
                  lane.attempts[(id, n)].result.None? <==> LeaseOf(lane, id).Some? && n == AttemptsOf(lane, id))
            && (LeaseOf(lane, id).Some? ==>
                  AttemptsOf(lane, id) > 0 && lane.attempts[(id, AttemptsOf(lane, id))].lease == LeaseOf(lane, id).value)
  {
    RunKeepsInv(Start, steps);
    var lane := Run(Start, steps).lane;
    forall n | (id, n) in lane.attempts
      ensures lane.attempts[(id, n)].result.None? <==> LeaseOf(lane, id).Some? && n == AttemptsOf(lane, id)
    {
      assert AttemptFits(lane, id, n, lane.attempts[(id, n)]);
    }
    if LeaseOf(lane, id).Some? {
      assert AttemptsOf(lane, id) > 0;
      assert AttemptFits(lane, id, AttemptsOf(lane, id), lane.attempts[(id, AttemptsOf(lane, id))]);
    }
  }

  lemma ReplacedClaimIsIdle(s: System, claim: Claim, response: Response)
    requires Inv(s) && claim in s.claims && claim.number < AttemptsOf(s.lane, claim.actionId)
    ensures Next(s, CompleteStep(claim, response)) == s
  {
    if Holds(s.lane, claim) {
      HolderIsCurrent(s, claim);
    }
  }

  /** A worker whose lease was replaced changes nothing, whatever answer it brings. */
  lemma ReplacedWorkerIsFenced(steps: seq<Step>, claim: Claim, response: Response)
    requires AllAllowed(Start, steps) && claim in Run(Start, steps).claims
    requires claim.number < AttemptsOf(Run(Start, steps).lane, claim.actionId)
    ensures Next(Run(Start, steps), CompleteStep(claim, response)) == Run(Start, steps)
  {
    RunKeepsInv(Start, steps);
    ReplacedClaimIsIdle(Run(Start, steps), claim, response);
  }

  /** A settled command keeps its decision, its stored result and its attempt count in every later run. */
  lemma {:induction false} SettledStays(s: System, steps: seq<Step>, i: nat)
    requires Inv(s) && AllAllowed(s, steps) && i < |s.lane.commands| && s.lane.commands[i].status.Settled?
    ensures i < |Run(s, steps).lane.commands| && Run(s, steps).lane.commands[i] == s.lane.commands[i]
    decreases |steps|
  {
    if steps != [] {
      StepKeepsInv(s, steps[0]);
      SettledSurvivesStep(s, steps[0], i);
      SettledStays(Next(s, steps[0]), steps[1..], i);
    }
  }

  lemma SettledSurvivesStep(s: System, step: Step, i: nat)
    requires i < |s.lane.commands| && s.lane.commands[i].status.Settled?
    ensures i < |Next(s, step).lane.commands| && Next(s, step).lane.commands[i] == s.lane.commands[i]
  {
    if step.SaveStep? {
      SaveShape(s.lane, step.actor, step.input, step.conforms, step.inScope);
    }
  }
}
