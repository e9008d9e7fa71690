/** The phone's journal: its tables and what each transaction does to them. */
module LocalWork {
  import opened Wrappers
  import opened Ordering
  import opened LocalCommands

  const MAX_SAFE_INTEGER := 0x1F_FFFF_FFFF_FFFF

  datatype Kind = Company | Personal

  /** An identity tuple; the key of everything the phone keeps for one account. */
  datatype Scope = Scope(kind: Kind, tenantId: Id, accountId: Id, deviceId: Id)

  datatype Key = Key(scope: Scope, id: Id)

  datatype RoundKey = RoundKey(scope: Scope, roundId: string)

  datatype Session = Session(
    kind: Kind, tenantId: Id, accountId: Id, driverId: Option<Id>, ownsExecution: bool, expiresAt: int)

  datatype Partition = Partition(session: Session, blocked: bool, endedSession: Option<int>)

  datatype Selection = Selection(scope: Scope, exiting: bool)

  datatype Ownership = Ownership(
    roundId: string, driverId: Id, roundActive: bool, workdayOpen: bool, owned: bool, owner: Owner,
    viewerDeviceId: Id, snapshotRequired: bool)

  datatype Plan = Plan(driverId: Id, planId: Id, road: Option<string>)

  datatype Download = Download(
    scope: Scope, roundId: string, format: nat, downloadedAt: int, session: Session, ownership: Ownership,
    snapshotToken: string, current: Current, outcomesRoundId: string, plan: Option<Plan>, road: Option<string>)

  /** The text that `JSON.stringify` makes of an envelope, which determines the envelope. */
  datatype Bytes = Stringified(envelope: Envelope)

  datatype Action = Action(sequence: int, roundId: string, envelope: Envelope, bytes: Bytes, href: string)

  datatype Effect = Effect(sequence: int, roundId: string, operation: Operation, taskId: Option<Id>, href: string)

  datatype Business = Accepted | Rejected | ReviewRequired | OtherStatus(name: string)

  datatype Receipt = Receipt(
    actionId: Id, receiptId: string, evidenceReceived: bool, business: Business, revision: Option<int>, detail: string)

  datatype ActionResult = ActionResult(operation: Operation, receipt: Receipt, detail: string)

  datatype Db = Db(
    partitions: map<Scope, Partition>,
    selection: Option<Selection>,
    downloads: map<RoundKey, Download>,
    actions: map<Key, Action>,
    pending: map<Key, Effect>,
    acks: map<Key, ActionResult>,
    counters: map<Scope, int>)

  const EmptyDb := Db(map[], None, map[], map[], map[], map[], map[])

  datatype Problem =
    FinishExitFirst | OtherAccountHasWork | SignOutFirst | AccountUnavailable | Unsynchronized | AccountChanged
  | NotOwned | OlderDownload | ForeignAction | UnsupportedFormat | UnverifiedBytes | ContentChanged | NotDownloaded
  | OtherActionWaits | ReviewFirst | UnsafeSequence | ConstraintViolated | NoMatchingReceipt | ReceiptConflict
  | NotProjectable(reason: Refused)

  // ----- Selection -----

  function SessionScope(session: Session, deviceId: Id): Scope {
    Scope(session.kind, session.tenantId, session.accountId, deviceId)
  }

  predicate Selected(db: Db, scope: Scope) {
    && db.selection == Some(Selection(scope, false))
    && scope in db.partitions && !db.partitions[scope].blocked
  }

  predicate Received(db: Db, k: Key) {
    k in db.acks && db.acks[k].receipt.evidenceReceived
  }

  /** Actions and overlays for which no receipt of evidence is stored. */
  function Unreceived(db: Db): set<Key> {
    set k | k in db.actions.Keys + db.pending.Keys && !Received(db, k)
  }

  function UnreceivedIn(db: Db, scope: Scope): set<Key> {
    set k | k in Unreceived(db) && k.scope == scope
  }

  function EndedSession(db: Db, scope: Scope): Option<int> {
    if scope in db.partitions then db.partitions[scope].endedSession else None
  }

  function Select(db: Db, session: Session, deviceId: Id): Result<Db, Problem> {
    var scope := SessionScope(session, deviceId);
    var previous := db.selection;
    if (previous.Some? && previous.value.exiting) || EndedSession(db, scope) == Some(session.expiresAt) then Err(FinishExitFirst)
    else if previous.Some? && previous.value.scope != scope then
      if UnreceivedIn(db, previous.value.scope) != {} then Err(OtherAccountHasWork) else Err(SignOutFirst)
    else
      Ok(db.(partitions := db.partitions[scope := Partition(session, false, EndedSession(db, scope))],
             selection := Some(Selection(scope, false))))
  }

  function BlockSelected(db: Db): Db {
    if db.selection.Some? && db.selection.value.scope in db.partitions then
      var scope := db.selection.value.scope;
      db.(partitions := db.partitions[scope := db.partitions[scope].(blocked := true)])
    else db
  }

  function PrepareExit(db: Db): Result<Db, Problem> {
    if db.selection.None? then Ok(db)
    else
      var scope := db.selection.value.scope;
      if UnreceivedIn(db, scope) != {} then Err(Unsynchronized)
      else
        var partitions :=
          if scope in db.partitions then
            var p := db.partitions[scope];
            db.partitions[scope := p.(blocked := true, endedSession := Some(p.session.expiresAt))]
          else db.partitions;
        Ok(db.(partitions := partitions, selection := Some(Selection(scope, true))))
  }

  function FinishExit(db: Db, scope: Option<Scope>): Result<Db, Problem> {
    if db.selection.Some? && (Some(db.selection.value.scope) != scope || !db.selection.value.exiting) then Err(AccountChanged)
    else Ok(db.(selection := None))
  }

  // ----- Downloads -----

  /** The download is a started round that this account and this phone own. */
  predicate Owned(value: Download) {
    var current, ownership, session := value.current, value.ownership, value.session;
    && value.format == 1 && SessionScope(session, value.scope.deviceId) == value.scope
    && current.roundId == value.roundId && ownership.roundId == value.roundId && value.outcomesRoundId == value.roundId
    && ownership.roundActive && ownership.workdayOpen && ownership.owned
    && Some(current.driverId) == session.driverId && ownership.driverId == current.driverId
    && (value.plan.Some? ==> value.plan.value.driverId == current.driverId && Some(value.plan.value.planId) == current.planId)
    && (value.road.Some? ==> value.plan.Some? && value.road == value.plan.value.road)
    && current.owner.accountId == value.scope.accountId && current.owner.deviceId == value.scope.deviceId
    && ownership.viewerDeviceId == value.scope.deviceId && current.owner == ownership.owner
    && session.ownsExecution && (ownership.snapshotRequired ==> value.snapshotToken != "")
  }

  /** `a` was taken after `b`: by owner generation, then by revision. */
  predicate Newer(a: Current, b: Current) {
    a.owner.generation > b.owner.generation || (a.owner.generation == b.owner.generation && a.revision > b.revision)
  }

  /** The overlay is accepted work which the downloaded state already shows. */
  predicate Covered(db: Db, k: Key, revision: int) {
    && k in db.acks && db.acks[k].receipt.business.Accepted?
    && db.acks[k].receipt.revision.Some? && revision >= db.acks[k].receipt.revision.value
  }

  predicate OfRound(db: Db, k: Key, round: RoundKey) {
    k in db.pending && k.scope == round.scope && db.pending[k].roundId == round.roundId
  }

  function SaveDownload(db: Db, value: Download): Result<Db, Problem> {
    var round := RoundKey(value.scope, value.roundId);
    if !Selected(db, value.scope) then Err(AccountUnavailable)
    else if !Owned(value) then Err(NotOwned)
    else if round in db.downloads && Newer(db.downloads[round].current, value.current) then Err(OlderDownload)
    else
      Ok(db.(downloads := db.downloads[round := value],
             pending := map k | k in db.pending && !(OfRound(db, k, round) && Covered(db, k, value.current.revision)) :: db.pending[k]))
  }

  function RetireConfirmedRound(db: Db, round: RoundKey): Result<Db, Problem> {
    if !Selected(db, round.scope) then Err(AccountUnavailable)
    else
      Ok(db.(downloads := db.downloads - {round},
             pending := map k | k in db.pending && !(OfRound(db, k, round) && k in db.acks) :: db.pending[k]))
  }

  // ----- The pending overlays in their order -----

  function KeysIn<V>(table: map<Key, V>, scope: Scope): set<Key> {
    set k | k in table && k.scope == scope
  }

  /** By sequence; entries of equal sequence stay in the order of the primary key. */
  predicate Earlier(pending: map<Key, Effect>, a: Key, b: Key) {
    a in pending && b in pending
    && (pending[a].sequence < pending[b].sequence || (pending[a].sequence == pending[b].sequence && a.id < b.id))
  }

  lemma EarlierIsOrder(pending: map<Key, Effect>, scope: Scope)
    ensures StrictOrderOn(KeysIn(pending, scope), (a, b) => Earlier(pending, a, b))
  {}

  function PendingIn(pending: map<Key, Effect>, scope: Scope): (keys: seq<Key>)
    ensures forall k :: k in keys <==> k in KeysIn(pending, scope)
    ensures Ascending(keys, (a, b) => Earlier(pending, a, b))
  {
    EarlierIsOrder(pending, scope);
    Listed(KeysIn(pending, scope), (a, b) => Earlier(pending, a, b))
  }

  function OfRoundOnly(pending: map<Key, Effect>, keys: seq<Key>, roundId: string): (r: seq<Key>)
    requires forall k | k in keys :: k in pending
    ensures forall k :: k in r <==> k in keys && pending[k].roundId == roundId
  {
    if keys == [] then []
    else
      var n := |keys| - 1;
      OfRoundOnly(pending, keys[..n], roundId) + if pending[keys[n]].roundId == roundId then [keys[n]] else []
  }

  // ----- Preview -----

  /** The explicit readers: two released formats, and bytes that still spell the envelope. */
  function ReadLocalAction(a: Action): Option<Problem> {
    var e := a.envelope;
    if e.schemaVersion != V1 || e.payloadVersion.OtherVersion? then Some(UnsupportedFormat)
    else if a.bytes != Stringified(e) then Some(UnverifiedBytes)
    else if e.payloadVersion == V2 && Outcome(e.operation).None? && !e.operation.Correct? then Some(UnsupportedFormat)
    else None
  }

  /** A predecessor was not accepted, or is itself held back. */
  predicate HeldBack(db: Db, scope: Scope, e: Envelope, blocked: set<Id>) {
    exists id | id in e.dependsOn ::
      id in blocked || (Key(scope, id) in db.acks && !db.acks[Key(scope, id)].receipt.business.Accepted?)
  }

  datatype Overlay = Overlay(commands: seq<Envelope>, blocked: set<Id>)

  function Consider(db: Db, o: Overlay, k: Key): Result<Overlay, Problem> {
    if k !in db.actions then Ok(o)
    else
      var a := db.actions[k];
      var problem := ReadLocalAction(a);
      if problem.Some? then Err(problem.value)
      else if HeldBack(db, k.scope, a.envelope, o.blocked) then Ok(o.(blocked := o.blocked + {k.id}))
      else Ok(o.(commands := o.commands + [a.envelope]))
  }

  function Overlaid(db: Db, keys: seq<Key>): Result<Overlay, Problem> {
    if keys == [] then Ok(Overlay([], {}))
    else
      match Overlaid(db, keys[..|keys| - 1])
      case Err(problem) => Err(problem)
      case Ok(o) => Consider(db, o, keys[|keys| - 1])
  }

  function Preview(db: Db, download: Download): Result<Current, Problem> {
    if !Selected(db, download.scope) then Err(AccountUnavailable)
    else
      match Overlaid(db, OfRoundOnly(db.pending, PendingIn(db.pending, download.scope), download.roundId))
      case Err(problem) => Err(problem)
      case Ok(o) =>
        match Project(download.current, o.commands)
        case Err(reason) => Err(NotProjectable(reason))
        case Ok(state) => Ok(state)
  }

  // ----- Capture -----

  function RoundOf(e: Envelope): string { if e.tripId.Some? then e.tripId.value else "" }

  /** The key under which a continuation looks its download up; a missing id prints as this word. */
  function TripText(e: Envelope): string { if e.tripId.Some? then e.tripId.value else "undefined" }

  function Unique(ids: seq<Id>): (r: seq<Id>)
    ensures forall id :: id in r <==> id in ids
  {
    if ids == [] then []
    else
      var n := |ids| - 1;
      var kept := Unique(ids[..n]);
      if ids[n] in kept then kept else kept + [ids[n]]
  }

  function Positive(x: Option<int>, otherwise: Option<int>): Option<int> {
    if x.Some? && x.value > 0 then x else otherwise
  }

  /** The envelope as captured: its place in the sequence, its predecessor, and the versions it was based on. */
  function Enriched(e: Envelope, sequence: int, prior: Option<Id>): Envelope
    requires e.context.Device?
  {
    var base, p := e.baseVersions, e.payload;
    e.(context := e.context.(sequence := sequence),
       dependsOn := Unique(e.dependsOn + if prior.Some? then [prior.value] else []),
       baseVersions := BaseVersions(
         Some(e.context.generation), Positive(p.activityRevision, base.resource), Positive(p.sourceRevision, base.source),
         Positive(p.assignmentRevision, base.assignment), Positive(p.pinRevision, base.location)))
  }

  function Counter(db: Db, scope: Scope): int {
    if scope in db.counters then db.counters[scope] else 0
  }

  predicate SequenceTaken(db: Db, scope: Scope, sequence: int) {
    exists k | k in db.actions :: k.scope == scope && db.actions[k].sequence == sequence
  }

  predicate BelongsTo(e: Envelope, scope: Scope) {
    && e.context.Device? && e.context.tenantId == scope.tenantId && e.context.accountId == scope.accountId
    && e.context.deviceId == scope.deviceId
  }

  /** Why the round may not be continued, or the account's other change not be made, at this point. */
  function Admission(db: Db, scope: Scope, e: Envelope, continuation: bool): Option<Problem>
    requires e.context.Device?
  {
    var effects := PendingIn(db.pending, scope);
    var round := RoundKey(scope, TripText(e));
    if !continuation then (if effects != [] then Some(ReviewFirst) else None)
    else if round !in db.downloads || db.downloads[round].format != 1
            || db.downloads[round].current.owner.generation != e.context.generation then Some(NotDownloaded)
    else if exists k | k in effects ::
        !Offline(db.pending[k].operation) || db.pending[k].roundId != db.downloads[round].roundId then Some(OtherActionWaits)
    else
      match Preview(db, db.downloads[round])
      case Err(problem) => Some(problem)
      case Ok(state) =>
        var objection := Objection(state, e);
        if objection.Some? then Some(NotProjectable(objection.value)) else None
  }

  function NextSequence(db: Db, scope: Scope, e: Envelope, preserve: bool): int
    requires e.context.Device?
  {
    if preserve || e.context.sequence > Counter(db, scope) then e.context.sequence else Counter(db, scope) + 1
  }

  function Recorded(db: Db, scope: Scope, e: Envelope, preserve: bool): Envelope
    requires e.context.Device?
  {
    var effects := PendingIn(db.pending, scope);
    var prior := if effects == [] then None else Some(effects[|effects| - 1].id);
    if preserve then e else Enriched(e, NextSequence(db, scope, e, preserve), prior)
  }

  function Append(db: Db, k: Key, e: Envelope, next: int, href: string): Db {
    db.(actions := db.actions[k := Action(next, RoundOf(e), e, Stringified(e), href)],
        pending := db.pending[k := Effect(next, RoundOf(e), e.operation, e.taskId, href)],
        counters := db.counters[k.scope := if next > Counter(db, k.scope) then next else Counter(db, k.scope)])
  }

  /** The journal after capturing; the captured action is the one then stored under its id. */
  function Capture(db: Db, scope: Scope, e: Envelope, href: string, continuation: bool, preserve: bool): Result<Db, Problem> {
    var k := Key(scope, e.actionId);
    if !Selected(db, scope) then Err(AccountUnavailable)
    else if !BelongsTo(e, scope) then Err(ForeignAction)
    else if !Supported(e) then Err(UnsupportedFormat)
    else if k in db.actions then
      if db.actions[k].bytes != Stringified(e) then Err(ContentChanged) else Ok(db)
    else
      var admission := Admission(db, scope, e, continuation);
      if admission.Some? then Err(admission.value)
      else
        var next := NextSequence(db, scope, e, preserve);
        if next > MAX_SAFE_INTEGER || next < -MAX_SAFE_INTEGER then Err(UnsafeSequence)
        else if SequenceTaken(db, scope, next) || k in db.pending then Err(ConstraintViolated)
        else Ok(Append(db, k, Recorded(db, scope, e, preserve), next, href))
  }

  // ----- Receipts -----

  predicate Matches(db: Db, scope: Scope, result: ActionResult) {
    var k, receipt := Key(scope, result.receipt.actionId), result.receipt;
    && k in db.actions && db.actions[k].envelope.operation == result.operation && receipt.receiptId != ""
    && receipt.evidenceReceived && !receipt.business.OtherStatus?
  }

  function Acknowledge(db: Db, scope: Scope, result: ActionResult): Result<Db, Problem> {
    var k := Key(scope, result.receipt.actionId);
    if !Selected(db, scope) then Err(AccountUnavailable)
    else if !Matches(db, scope, result) then Err(NoMatchingReceipt)
    else if k in db.acks && db.acks[k].receipt != result.receipt then Err(ReceiptConflict)
    else
      Ok(db.(acks := db.acks[k := result],
             pending := if !result.receipt.business.Accepted? || !Offline(result.operation) then db.pending - {k} else db.pending))
  }

  // ----- Runs -----

  /** One transaction of some tab. */
  datatype Op =
    | SelectOp(session: Session, deviceId: Id)
    | BlockOp
    | PrepareOp
    | FinishOp(ended: Option<Scope>)
    | DownloadOp(value: Download)
    | CaptureOp(scope: Scope, envelope: Envelope, href: string, continuation: bool, preserve: bool)
    | AcknowledgeOp(owner: Scope, result: ActionResult)
    | RetireOp(round: RoundKey)

  function Transact(db: Db, op: Op): Result<Db, Problem> {
    match op
    case SelectOp(session, deviceId) => Select(db, session, deviceId)
    case BlockOp => Ok(BlockSelected(db))
    case PrepareOp => PrepareExit(db)
    case FinishOp(ended) => FinishExit(db, ended)
    case DownloadOp(value) => SaveDownload(db, value)
    case CaptureOp(scope, e, href, continuation, preserve) => Capture(db, scope, e, href, continuation, preserve)
    case AcknowledgeOp(owner, result) => Acknowledge(db, owner, result)
    case RetireOp(round) => RetireConfirmedRound(db, round)
  }

  /** A transaction that fails is rolled back. */
  function Next(db: Db, op: Op): Db {
    match Transact(db, op)
    case Ok(after) => after
    case Err(_) => db
  }

  function Run(db: Db, ops: seq<Op>): Db
    decreases |ops|
  {
    if ops == [] then db else Next(Run(db, ops[..|ops| - 1]), ops[|ops| - 1])
  }
}
