/** When each transaction of the journal goes through, why it is refused otherwise, and what it leaves,
    said about the tables alone. */
module JournalRules {
  import opened Wrappers
  import opened Ordering
  import opened LocalCommands
  import opened CommandRules
  import opened LocalWork

  /** The account is the selected one, is not being left and is not blocked. */
  predicate OpenFor(db: Db, scope: Scope) {
    && db.selection.Some? && db.selection.value.scope == scope && !db.selection.value.exiting
    && scope in db.partitions && !db.partitions[scope].blocked
  }

  // ----- Capturing -----

  predicate OwnEnvelope(e: Envelope, scope: Scope) {
    e.context.Device? && (e.context.tenantId, e.context.accountId, e.context.deviceId) == (scope.tenantId, scope.accountId, scope.deviceId)
  }

  lemma CaptureTurnsAway(db: Db, op: Op)
    requires op.CaptureOp?
    ensures !OpenFor(db, op.scope) ==> Transact(db, op) == Err(AccountUnavailable)
    ensures OpenFor(db, op.scope) && !OwnEnvelope(op.envelope, op.scope) ==> Transact(db, op) == Err(ForeignAction)
    ensures OpenFor(db, op.scope) && OwnEnvelope(op.envelope, op.scope) && !KnownFormat(op.envelope)
      ==> Transact(db, op) == Err(UnsupportedFormat)
  {
    assert Supported(op.envelope) <==> KnownFormat(op.envelope);
  }

  /** What may be captured at all. */
  predicate Capturable(db: Db, op: Op) {
    op.CaptureOp? && OpenFor(db, op.scope) && OwnEnvelope(op.envelope, op.scope) && KnownFormat(op.envelope)
  }

  function KeyIn(op: Op): Key
    requires op.CaptureOp?
  {
    Key(op.scope, op.envelope.actionId)
  }

  /** An id that is already stored never gets other content, and the caller learns of it. */
  lemma ReusedId(db: Db, op: Op)
    requires Capturable(db, op) && KeyIn(op) in db.actions
    ensures Transact(db, op).Ok? <==> db.actions[KeyIn(op)].bytes == Stringified(op.envelope)
    ensures Transact(db, op).Err? ==> Transact(db, op) == Err(ContentChanged)
    ensures Next(db, op) == db
  {
    assert Supported(op.envelope);
  }

  /** The started round that a continuation continues, on this phone in this generation. */
  predicate Downloaded(db: Db, op: Op)
    requires op.CaptureOp? && op.envelope.context.Device?
  {
    var round := RoundKey(op.scope, match op.envelope.tripId case Some(id) => id case None => "undefined");
    && round in db.downloads && db.downloads[round].format == 1
    && db.downloads[round].current.owner.generation == op.envelope.context.generation
  }

  function DownloadOf(db: Db, op: Op): Download
    requires op.CaptureOp? && op.envelope.context.Device? && Downloaded(db, op)
  {
    db.downloads[RoundKey(op.scope, match op.envelope.tripId case Some(id) => id case None => "undefined")]
  }

  /** Everything that waits is offline work of this round. */
  predicate OnlyThisRoundWaits(db: Db, scope: Scope, roundId: string) {
    forall l | l in db.pending && l.scope == scope :: OnPhone(db.pending[l].operation) && db.pending[l].roundId == roundId
  }

  predicate NonePending(db: Db, scope: Scope) {
    forall l | l in db.pending :: l.scope != scope
  }

  /** The action may be added now: it continues what the phone shows of its round, or nothing waits. */
  ghost predicate Admitted(db: Db, op: Op)
    requires op.CaptureOp? && op.envelope.context.Device?
  {
    if !op.continuation then NonePending(db, op.scope)
    else
      && Downloaded(db, op) && OnlyThisRoundWaits(db, op.scope, DownloadOf(db, op).roundId)
      && Preview(db, DownloadOf(db, op)).Ok? && OnPhone(op.envelope.operation)
      && Continues(Preview(db, DownloadOf(db, op)).value, op.envelope)
  }

  /** Its own sequence for an import, otherwise at least its own and above all earlier ones. */
  function SequenceFor(db: Db, op: Op): int
    requires op.CaptureOp? && op.envelope.context.Device?
  {
    var own := op.envelope.context.sequence;
    var next := (if op.scope in db.counters then db.counters[op.scope] else 0) + 1;
    if op.preserve || own >= next then own else next
  }

  predicate SequenceFree(db: Db, scope: Scope, n: int) {
    forall l | l in db.actions && l.scope == scope :: db.actions[l].sequence != n
  }

  predicate IsSafe(n: int) { -9007199254740991 <= n <= 9007199254740991 }

  lemma WaitingIsListed(db: Db, scope: Scope, roundId: string)
    ensures NonePending(db, scope) <==> PendingIn(db.pending, scope) == []
    ensures OnlyThisRoundWaits(db, scope, roundId) <==>
      !exists k | k in PendingIn(db.pending, scope) :: !Offline(db.pending[k].operation) || db.pending[k].roundId != roundId
  {
    var keys := PendingIn(db.pending, scope);
    assert forall l | l in db.pending && l.scope == scope :: l in KeysIn(db.pending, scope) && l in keys;
    assert keys != [] ==> keys[0] in keys;
    assert forall o: Operation :: Offline(o) <==> OnPhone(o);
  }

  lemma AdmissionIsAdmitted(db: Db, op: Op)
    requires Capturable(db, op)
    ensures var admission := Admission(db, op.scope, op.envelope, op.continuation);
      && (admission.None? <==> Admitted(db, op))
      && (!op.continuation && admission.Some? ==> admission == Some(ReviewFirst))
      && (op.continuation && !Downloaded(db, op) ==> admission == Some(NotDownloaded))
      && (op.continuation && Downloaded(db, op) && !OnlyThisRoundWaits(db, op.scope, DownloadOf(db, op).roundId) ==>
            admission == Some(OtherActionWaits))
  {
    if !op.continuation {
      WaitingIsListed(db, op.scope, "");
    } else if Downloaded(db, op) {
      ContinuationIsAdmitted(db, op, DownloadOf(db, op));
    }
  }

  lemma ContinuationIsAdmitted(db: Db, op: Op, download: Download)
    requires Capturable(db, op) && op.continuation && Downloaded(db, op) && download == DownloadOf(db, op)
    ensures var admission := Admission(db, op.scope, op.envelope, true);
      && (!OnlyThisRoundWaits(db, op.scope, download.roundId) ==> admission == Some(OtherActionWaits))
      && (admission.None? <==> Admitted(db, op))
  {
    assert download == db.downloads[RoundKey(op.scope, TripText(op.envelope))];
    WaitingIsListed(db, op.scope, download.roundId);
    if Preview(db, download).Ok? {
      RefusedBecause(Preview(db, download).value, op.envelope);
      assert Objection(Preview(db, download).value, op.envelope).None? ==> OnPhone(op.envelope.operation);
    }
  }

  /** A new action is stored exactly when it may be added now, its sequence is a safe integer, and no
      action of the account has that sequence and no overlay this id. */
  lemma FreshCaptureExactlyWhen(db: Db, op: Op)
    requires Capturable(db, op) && KeyIn(op) !in db.actions
    ensures Transact(db, op).Ok? <==>
      && Admitted(db, op) && IsSafe(SequenceFor(db, op)) && SequenceFree(db, op.scope, SequenceFor(db, op)) && KeyIn(op) !in db.pending
    ensures Admitted(db, op) && !IsSafe(SequenceFor(db, op)) ==> Transact(db, op) == Err(UnsafeSequence)
    ensures Admitted(db, op) && IsSafe(SequenceFor(db, op)) && Transact(db, op).Err? ==> Transact(db, op) == Err(ConstraintViolated)
  {
    AdmissionIsAdmitted(db, op);
    assert Supported(op.envelope);
    assert SequenceFor(db, op) == NextSequence(db, op.scope, op.envelope, op.preserve);
  }

  /** Why a new action may not be added now. */
  lemma CaptureMustWait(db: Db, op: Op)
    requires Capturable(db, op) && KeyIn(op) !in db.actions && !Admitted(db, op)
    ensures !op.continuation ==> Transact(db, op) == Err(ReviewFirst)
    ensures op.continuation && !Downloaded(db, op) ==> Transact(db, op) == Err(NotDownloaded)
    ensures op.continuation && Downloaded(db, op) && !OnlyThisRoundWaits(db, op.scope, DownloadOf(db, op).roundId)
      ==> Transact(db, op) == Err(OtherActionWaits)
  {
    AdmissionIsAdmitted(db, op);
    assert Supported(op.envelope);
  }

  /** The counter is the highest sequence that the account was given so far. */
  predicate CounterRaised(db: Db, after: Db, scope: Scope, n: int) {
    var before := if scope in db.counters then db.counters[scope] else 0;
    scope in after.counters && n <= after.counters[scope] && before <= after.counters[scope] && after.counters[scope] in {n, before}
  }

  /** Only what stands under `k` is new, and the account's counter. */
  predicate OnlyAdded(db: Db, after: Db, k: Key) {
    && after.actions.Keys == db.actions.Keys + {k} && after.pending.Keys == db.pending.Keys + {k}
    && (forall l | l in db.actions :: after.actions[l] == db.actions[l])
    && (forall l | l in db.pending :: after.pending[l] == db.pending[l])
    && after.counters.Keys == db.counters.Keys + {k.scope}
    && (forall s | s in db.counters && s != k.scope :: after.counters[s] == db.counters[s])
    && (after.partitions, after.selection, after.downloads, after.acks) == (db.partitions, db.selection, db.downloads, db.acks)
  }

  /** The action as given, with its place in the sequence, beside an overlay that says the same of it. */
  predicate StoredWithOverlay(a: Action, waiting: Effect, op: Op, n: int)
    requires op.CaptureOp?
  {
    && a.sequence == n && a.href == op.href && a.bytes == Stringified(a.envelope) && a.envelope.actionId == op.envelope.actionId
    && a.roundId == (match op.envelope.tripId case Some(id) => id case None => "")
    && waiting == Effect(n, a.roundId, op.envelope.operation, op.envelope.taskId, op.href)
  }

  lemma AppendAddsOnly(db: Db, k: Key, e: Envelope, next: int, href: string)
    requires k !in db.actions && k !in db.pending
    ensures OnlyAdded(db, Append(db, k, e, next, href), k)
  {}

  /** What a successful capture stores: the action, its overlay and the counter, and nothing else. */
  lemma CaptureStores(db: Db, op: Op)
    requires Capturable(db, op) && KeyIn(op) !in db.actions && Transact(db, op).Ok?
    ensures var k, n, after := KeyIn(op), SequenceFor(db, op), Transact(db, op).value;
      && OnlyAdded(db, after, k) && StoredWithOverlay(after.actions[k], after.pending[k], op, n)
      && CounterRaised(db, after, op.scope, n)
  {
    var stored := Recorded(db, op.scope, op.envelope, op.preserve);
    CaptureAppended(db, op);
    AppendAddsOnly(db, KeyIn(op), stored, SequenceFor(db, op), op.href);
  }

  lemma CaptureAppended(db: Db, op: Op)
    requires Capturable(db, op) && KeyIn(op) !in db.actions && Transact(db, op).Ok?
    ensures KeyIn(op) !in db.pending
    ensures Transact(db, op).value ==
      Append(db, KeyIn(op), Recorded(db, op.scope, op.envelope, op.preserve), SequenceFor(db, op), op.href)
  {
    FreshCaptureExactlyWhen(db, op);
    assert SequenceFor(db, op) == NextSequence(db, op.scope, op.envelope, op.preserve);
  }

  // ----- The overlays in their order -----

  /** By sequence, and by id where sequences are equal. */
  lemma OverlaysInOrder(db: Db, scope: Scope, keys: seq<Key>)
    requires keys == PendingIn(db.pending, scope)
    ensures forall k :: k in keys <==> k in db.pending && k.scope == scope
    ensures forall i, j | 0 <= i < j < |keys| :: keys[i] in db.pending && keys[j] in db.pending && keys[i] != keys[j]
    ensures forall i, j | 0 <= i < j < |keys| ::
      && db.pending[keys[i]].sequence <= db.pending[keys[j]].sequence
      && (db.pending[keys[i]].sequence == db.pending[keys[j]].sequence ==> keys[i].id <= keys[j].id)
  {
    var lt := (a, b) => Earlier(db.pending, a, b);
    assert forall k :: k in keys <==> k in KeysIn(db.pending, scope);
    assert forall i, j | 0 <= i < j < |keys| :: lt(keys[i], keys[j]);
  }

  /** A stored action can be read when its format is known and its text spells the envelope. */
  lemma ReadExactlyWhen(a: Action)
    ensures ReadLocalAction(a).None? <==> KnownFormat(a.envelope) && a.bytes == Stringified(a.envelope)
    ensures ReadLocalAction(a) == Some(UnverifiedBytes) <==>
      a.envelope.schemaVersion == V1 && a.envelope.payloadVersion in {V1, V2} && a.bytes != Stringified(a.envelope)
    ensures ReadLocalAction(a).Some? ==> ReadLocalAction(a).value in {UnverifiedBytes, UnsupportedFormat}
  {}

  // ----- Opening and leaving an account -----

  predicate EvidenceIsIn(db: Db, k: Key) { k in db.acks && db.acks[k].receipt.evidenceReceived }

  /** Every action and every overlay of the account has a receipt of its evidence. */
  predicate AllIn(db: Db, scope: Scope) {
    (forall k | k in db.actions && k.scope == scope :: EvidenceIsIn(db, k))
    && forall k | k in db.pending && k.scope == scope :: EvidenceIsIn(db, k)
  }

  lemma AllInMeans(db: Db, scope: Scope)
    ensures AllIn(db, scope) <==> UnreceivedIn(db, scope) == {}
  {
    if UnreceivedIn(db, scope) != {} {
      var k :| k in UnreceivedIn(db, scope);
      assert !EvidenceIsIn(db, k);
    } else {
      forall k | k in db.actions.Keys + db.pending.Keys && k.scope == scope ensures EvidenceIsIn(db, k) {
        assert k !in UnreceivedIn(db, scope);
      }
    }
  }

  /** The tables that hold what was recorded and downloaded are the same. */
  predicate SameWork(db: Db, after: Db) {
    (after.downloads, after.actions, after.pending, after.acks, after.counters)
      == (db.downloads, db.actions, db.pending, db.acks, db.counters)
  }

  ghost predicate OtherPartitionsSame(db: Db, after: Db, scope: Scope) {
    forall other | other != scope && (other in db.partitions || other in after.partitions) ::
      other in db.partitions && other in after.partitions && after.partitions[other] == db.partitions[other]
  }

  function AccountOf(session: Session, deviceId: Id): Scope {
    Scope(session.kind, session.tenantId, session.accountId, deviceId)
  }

  /** The account was left with this very session. */
  predicate LeftWith(db: Db, scope: Scope, session: Session) {
    scope in db.partitions && db.partitions[scope].endedSession == Some(session.expiresAt)
  }

  /** An account opens exactly when no exit is under way, its session has not ended, and no other account
      is selected; another one with work not yet received has its own refusal. */
  lemma SelectExactlyWhen(db: Db, session: Session, deviceId: Id)
    ensures var scope, r := AccountOf(session, deviceId), Transact(db, SelectOp(session, deviceId));
      var shut := (db.selection.Some? && db.selection.value.exiting) || LeftWith(db, scope, session);
      && (r.Ok? <==> !shut && (db.selection.Some? ==> db.selection.value.scope == scope))
      && (r.Err? ==>
            r.error == if shut then FinishExitFirst else if AllIn(db, db.selection.value.scope) then SignOutFirst else OtherAccountHasWork)
      && (r.Ok? ==>
            && OpenFor(r.value, scope) && SameWork(db, r.value) && OtherPartitionsSame(db, r.value, scope)
            && r.value.partitions[scope].session == session
            && r.value.partitions[scope].endedSession == if scope in db.partitions then db.partitions[scope].endedSession else None)
  {
    if db.selection.Some? {
      AllInMeans(db, db.selection.value.scope);
    }
  }

  /** Blocking shuts the selected account, and only it. */
  lemma BlockMeans(db: Db)
    ensures var after := Next(db, BlockOp);
      && SameWork(db, after) && after.selection == db.selection && after.partitions.Keys == db.partitions.Keys
      && forall scope | scope in db.partitions ::
           && (after.partitions[scope].session, after.partitions[scope].endedSession)
                == (db.partitions[scope].session, db.partitions[scope].endedSession)
           && (after.partitions[scope].blocked <==>
                 db.partitions[scope].blocked || (db.selection.Some? && db.selection.value.scope == scope))
  {}

  /** An exit is sealed exactly when nothing of the selected account is unreceived; the account is then
      blocked and its session ended. */
  lemma PrepareExactlyWhen(db: Db)
    ensures var r := Transact(db, PrepareOp);
      && (r.Ok? <==> db.selection.None? || AllIn(db, db.selection.value.scope))
      && (r.Err? ==> r.error == Unsynchronized)
      && (r.Ok? && db.selection.None? ==> r.value == db)
      && (r.Ok? && db.selection.Some? ==>
            var scope, after := db.selection.value.scope, r.value;
            && after.selection == Some(Selection(scope, true)) && SameWork(db, after) && OtherPartitionsSame(db, after, scope)
            && (scope in after.partitions <==> scope in db.partitions)
            && (scope in db.partitions ==>
                  var p := db.partitions[scope]; after.partitions[scope] == Partition(p.session, true, Some(p.session.expiresAt))))
  {
    if db.selection.Some? {
      AllInMeans(db, db.selection.value.scope);
    }
  }

  /** An exit finishes exactly when it is the one that was sealed; without a selection there is nothing to do. */
  lemma FinishExactlyWhen(db: Db, ended: Option<Scope>)
    ensures var r := Transact(db, FinishOp(ended));
      && (r.Ok? <==> db.selection.None? || (db.selection.value.exiting && ended == Some(db.selection.value.scope)))
      && (r.Err? ==> r.error == AccountChanged)
      && (r.Ok? ==> SameWork(db, r.value) && r.value.partitions == db.partitions && r.value.selection.None?)
  {}

  // ----- Downloads and receipts -----

  /** A started round of this account, owned by it on this phone, with all its parts about the same round. */
  predicate StartedHere(value: Download) {
    var scope, current, ownership, session := value.scope, value.current, value.ownership, value.session;
    && value.format == 1
    && (session.kind, session.tenantId, session.accountId) == (scope.kind, scope.tenantId, scope.accountId)
    && current.roundId == value.roundId && ownership.roundId == value.roundId && value.outcomesRoundId == value.roundId
    && ownership.roundActive && ownership.workdayOpen && ownership.owned && session.ownsExecution
    && session.driverId == Some(current.driverId) && ownership.driverId == current.driverId
    && (current.owner.accountId, current.owner.deviceId) == (scope.accountId, scope.deviceId)
    && ownership.owner == current.owner && ownership.viewerDeviceId == scope.deviceId
    && (ownership.snapshotRequired ==> value.snapshotToken != "")
    && match value.plan
       case None => value.road.None?
       case Some(plan) => plan.driverId == current.driverId && current.planId == Some(plan.planId) && value.road in {None, plan.road}
  }

  /** The stored copy is of a later generation, or of the same one and a later revision. */
  predicate HasNewer(db: Db, value: Download) {
    var round := RoundKey(value.scope, value.roundId);
    round in db.downloads
    && var stored, given := db.downloads[round].current, value.current;
      if stored.owner.generation == given.owner.generation then given.revision < stored.revision
      else given.owner.generation < stored.owner.generation
  }

  /** An overlay of the round whose accepted receipt says that this revision shows it. */
  predicate IsShown(db: Db, k: Key, value: Download) {
    && k in db.pending && k.scope == value.scope && db.pending[k].roundId == value.roundId && k in db.acks
    && db.acks[k].receipt.business == Accepted
    && match db.acks[k].receipt.revision case Some(n) => n <= value.current.revision case None => false
  }

  /** The overlays are those of before without the ones that `drop` names. */
  ghost predicate PendingWithout(db: Db, after: Db, drop: Key -> bool) {
    forall k :: (k in after.pending <==> k in db.pending && !drop(k)) && (k in after.pending ==> after.pending[k] == db.pending[k])
  }

  /** A download is taken in exactly when the account is open, the round is its own and nothing newer is
      stored; it replaces the stored copy and the overlays that it shows. */
  lemma DownloadExactlyWhen(db: Db, value: Download)
    ensures var r, round := Transact(db, DownloadOp(value)), RoundKey(value.scope, value.roundId);
      && (r.Ok? <==> OpenFor(db, value.scope) && StartedHere(value) && !HasNewer(db, value))
      && (r.Err? ==>
            r.error == if !OpenFor(db, value.scope) then AccountUnavailable else if !StartedHere(value) then NotOwned else OlderDownload)
      && (r.Ok? ==>
            && r.value.downloads == db.downloads[round := value] && PendingWithout(db, r.value, k => IsShown(db, k, value))
            && (r.value.partitions, r.value.selection, r.value.actions, r.value.acks, r.value.counters)
                 == (db.partitions, db.selection, db.actions, db.acks, db.counters))
  {
    assert Owned(value) <==> StartedHere(value);
  }

  /** Retiring a round drops its stored copy and its overlays that have a receipt. */
  lemma RetireExactlyWhen(db: Db, round: RoundKey)
    ensures var r := Transact(db, RetireOp(round));
      && (r.Ok? <==> OpenFor(db, round.scope)) && (r.Err? ==> r.error == AccountUnavailable)
      && (r.Ok? ==>
            && r.value.downloads == db.downloads - {round}
            && PendingWithout(db, r.value, k => k in db.pending && k.scope == round.scope && db.pending[k].roundId == round.roundId && k in db.acks)
            && (r.value.partitions, r.value.selection, r.value.actions, r.value.acks, r.value.counters)
                 == (db.partitions, db.selection, db.actions, db.acks, db.counters))
  {}

  /** The receipt is the server's, for an action that the account recorded, of the operation recorded. */
  predicate ReceiptFor(db: Db, owner: Scope, result: ActionResult) {
    var k, receipt := Key(owner, result.receipt.actionId), result.receipt;
    && k in db.actions && db.actions[k].envelope.operation == result.operation
    && receipt.receiptId != "" && receipt.evidenceReceived && receipt.business in {Accepted, Rejected, ReviewRequired}
  }

  /** A receipt is stored exactly when the account is open, it is for a recorded action, and no other
      receipt of that action is stored; only accepted offline work keeps its overlay. */
  lemma AcknowledgeExactlyWhen(db: Db, owner: Scope, result: ActionResult)
    ensures var r, k := Transact(db, AcknowledgeOp(owner, result)), Key(owner, result.receipt.actionId);
      && (r.Ok? <==> OpenFor(db, owner) && ReceiptFor(db, owner, result) && (k in db.acks ==> db.acks[k].receipt == result.receipt))
      && (r.Err? ==>
            r.error == if !OpenFor(db, owner) then AccountUnavailable
                       else if !ReceiptFor(db, owner, result) then NoMatchingReceipt else ReceiptConflict)
      && (r.Ok? ==>
            && r.value.acks == db.acks[k := result]
            && PendingWithout(db, r.value, l => l == k && !(result.receipt.business == Accepted && OnPhone(result.operation)))
            && (r.value.partitions, r.value.selection, r.value.downloads, r.value.actions, r.value.counters)
                 == (db.partitions, db.selection, db.downloads, db.actions, db.counters))
  {
    assert Offline(result.operation) <==> OnPhone(result.operation);
  }
}
