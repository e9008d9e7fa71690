/** What every run of journal transactions keeps: evidence, account isolation, ended sessions.
    A run lists the committed or failed transactions of all tabs in the order in which the database
    serialised them; a crash is a run that stops. */
module LocalEvidence {
  import opened Wrappers
  import opened Ordering
  import opened LocalCommands
  import opened LocalWork

  // ----- The invariant -----

  predicate IsSelected(db: Db, scope: Scope) { db.selection == Some(Selection(scope, false)) }

  ghost predicate ActionFits(db: Db, k: Key)
    requires k in db.actions
  {
    var a := db.actions[k];
    && a.envelope.actionId == k.id && a.bytes == Stringified(a.envelope) && a.roundId == RoundOf(a.envelope)
    && BelongsTo(a.envelope, k.scope) && Supported(a.envelope)
    && a.sequence == a.envelope.context.sequence && a.sequence <= Counter(db, k.scope)
  }

  /** An action without a receipt still has its overlay, and belongs to the account in use. */
  ghost predicate ActionKept(db: Db, k: Key) {
    k in db.acks || (k in db.pending && IsSelected(db, k.scope))
  }

  ghost predicate EffectFits(db: Db, k: Key)
    requires k in db.pending
  {
    && k in db.actions
    && var a, effect := db.actions[k], db.pending[k];
      effect.sequence == a.sequence && effect.roundId == a.roundId && effect.operation == a.envelope.operation
  }

  ghost predicate AckFits(db: Db, k: Key)
    requires k in db.acks
  {
    && k in db.actions && db.acks[k].operation == db.actions[k].envelope.operation
    && db.acks[k].receipt.actionId == k.id && db.acks[k].receipt.evidenceReceived
    && !db.acks[k].receipt.business.OtherStatus?
  }

  ghost predicate Actions(db: Db) { forall k | k in db.actions :: ActionFits(db, k) }

  ghost predicate Kept(db: Db) { forall k | k in db.actions :: ActionKept(db, k) }

  ghost predicate Effects(db: Db) { forall k | k in db.pending :: EffectFits(db, k) }

  ghost predicate Acks(db: Db) { forall k | k in db.acks :: AckFits(db, k) }

  /** The unique index on scope and sequence. */
  ghost predicate Sequences(db: Db) {
    forall k, l | k in db.actions && l in db.actions && k.scope == l.scope && db.actions[k].sequence == db.actions[l].sequence :: k == l
  }

  ghost predicate Inv(db: Db) {
    Actions(db) && Kept(db) && Effects(db) && Acks(db) && Sequences(db)
  }

  lemma CaptureShape(db: Db, op: Op)
    requires op.CaptureOp?
    ensures var k, after := Key(op.scope, op.envelope.actionId), Next(db, op);
      after == db ||
      (&& Selected(db, op.scope) && BelongsTo(op.envelope, op.scope) && Supported(op.envelope) && k !in db.actions && k !in db.pending
       && var next := NextSequence(db, op.scope, op.envelope, op.preserve);
         !SequenceTaken(db, op.scope, next) && after == Append(db, k, Recorded(db, op.scope, op.envelope, op.preserve), next, op.href))
  {}

  lemma AppendKeepsSequences(db: Db, k: Key, e: Envelope, href: string)
    requires e.context.Device?
    requires Sequences(db) && k !in db.actions && !SequenceTaken(db, k.scope, e.context.sequence)
    ensures Sequences(Append(db, k, e, e.context.sequence, href))
  {
    assert forall l | l in db.actions && l.scope == k.scope :: db.actions[l].sequence != e.context.sequence;
  }

  lemma AppendKeepsActions(db: Db, k: Key, e: Envelope, href: string)
    requires Actions(db) && Kept(db) && IsSelected(db, k.scope) && e.actionId == k.id && BelongsTo(e, k.scope) && Supported(e)
    ensures var after := Append(db, k, e, e.context.sequence, href); Actions(after) && Kept(after)
  {
    var after := Append(db, k, e, e.context.sequence, href);
    forall l | l in after.actions ensures ActionFits(after, l) {
      assert l != k ==> ActionFits(db, l);
    }
    forall l | l in after.actions ensures ActionKept(after, l) {
      assert l != k ==> ActionKept(db, l);
    }
  }

  lemma AppendKeepsInv(db: Db, k: Key, e: Envelope, href: string)
    requires Inv(db) && IsSelected(db, k.scope) && k !in db.actions && e.actionId == k.id
    requires BelongsTo(e, k.scope) && Supported(e) && !SequenceTaken(db, k.scope, e.context.sequence)
    ensures Inv(Append(db, k, e, e.context.sequence, href))
  {
    var after := Append(db, k, e, e.context.sequence, href);
    AppendKeepsActions(db, k, e, href);
    AppendKeepsSequences(db, k, e, href);
    forall l | l in after.pending ensures EffectFits(after, l) {
      assert l != k ==> EffectFits(db, l);
    }
    forall l | l in after.acks ensures AckFits(after, l) {
      assert AckFits(db, l);
    }
  }

  /** Steps that leave the actions, the receipts and the counters alone, and drop only received overlays. */
  lemma DroppingKeepsInv(db: Db, after: Db)
    requires Inv(db) && after.actions == db.actions && after.acks == db.acks && after.counters == db.counters
    requires after.pending.Keys <= db.pending.Keys && forall k | k in after.pending :: after.pending[k] == db.pending[k]
    requires forall k | k in db.pending && k !in after.pending :: k in db.acks
    requires after.selection == db.selection || UnreceivedIsNone(db) || (db.selection.Some? && IsSelected(after, db.selection.value.scope))
    ensures Inv(after)
  {
    forall k | k in after.actions ensures ActionFits(after, k) && ActionKept(after, k) {
      assert ActionFits(db, k) && ActionKept(db, k);
    }
    forall k | k in after.pending ensures EffectFits(after, k) {
      assert EffectFits(db, k);
    }
    forall k | k in after.acks ensures AckFits(after, k) {
      assert AckFits(db, k);
    }
  }

  ghost predicate UnreceivedIsNone(db: Db) { forall k | k in db.actions :: k in db.acks }

  lemma NothingWaits(db: Db)
    requires Inv(db) && (db.selection.None? || db.selection.value.exiting || UnreceivedIn(db, db.selection.value.scope) == {})
    ensures UnreceivedIsNone(db)
  {
    forall k | k in db.actions ensures k in db.acks {
      assert ActionKept(db, k);
      assert k in db.acks || k in UnreceivedIn(db, k.scope);
    }
  }

  lemma AcknowledgeKeepsInv(db: Db, scope: Scope, result: ActionResult)
    requires Inv(db) && Acknowledge(db, scope, result).Ok?
    ensures Inv(Acknowledge(db, scope, result).value)
  {
    var after := Acknowledge(db, scope, result).value;
    var k := Key(scope, result.receipt.actionId);
    forall l | l in after.actions ensures ActionFits(after, l) && ActionKept(after, l) {
      assert ActionFits(db, l) && ActionKept(db, l);
    }
    forall l | l in after.pending ensures EffectFits(after, l) {
      assert EffectFits(db, l);
    }
    forall l | l in after.acks ensures AckFits(after, l) {
      assert l != k ==> AckFits(db, l);
    }
  }

  lemma CaptureKeepsInv(db: Db, op: Op)
    requires Inv(db) && op.CaptureOp?
    ensures Inv(Next(db, op))
  {
    CaptureShape(db, op);
    if Next(db, op) != db {
      var e := Recorded(db, op.scope, op.envelope, op.preserve);
      assert e.context.sequence == NextSequence(db, op.scope, op.envelope, op.preserve);
      AppendKeepsInv(db, Key(op.scope, op.envelope.actionId), e, op.href);
    }
  }

  /** The steps that change the selection touch nothing but it and the partitions. */
  lemma SelectionShape(db: Db, op: Op)
    requires op.SelectOp? || op.PrepareOp? || op.FinishOp?
    ensures var after := Next(db, op);
      after == db.(partitions := after.partitions, selection := after.selection)
    ensures Next(db, op).selection == db.selection || db.selection.None? || db.selection.value.exiting
      || UnreceivedIn(db, db.selection.value.scope) == {}
  {}

  lemma SelectionKeepsInv(db: Db, op: Op)
    requires Inv(db) && (op.SelectOp? || op.PrepareOp? || op.FinishOp?)
    ensures Inv(Next(db, op))
  {
    SelectionShape(db, op);
    if Next(db, op).selection != db.selection {
      NothingWaits(db);
    }
    DroppingKeepsInv(db, Next(db, op));
  }

  /** The steps on downloads and blocking drop no overlay but those with a stored receipt. */
  lemma DownloadShape(db: Db, op: Op)
    requires op.BlockOp? || op.DownloadOp? || op.RetireOp?
    ensures var after := Next(db, op);
      && after.actions == db.actions && after.acks == db.acks && after.counters == db.counters
      && after.selection == db.selection && after.pending.Keys <= db.pending.Keys
      && (forall k | k in after.pending :: after.pending[k] == db.pending[k])
      && (forall k | k in db.pending && k !in after.pending :: k in db.acks)
  {}

  lemma DownloadsKeepInv(db: Db, op: Op)
    requires Inv(db) && (op.BlockOp? || op.DownloadOp? || op.RetireOp?)
    ensures Inv(Next(db, op))
  {
    DownloadShape(db, op);
    DroppingKeepsInv(db, Next(db, op));
  }

  lemma StepKeepsInv(db: Db, op: Op)
    requires Inv(db)
    ensures Inv(Next(db, op))
  {
    match op
    case CaptureOp(_, _, _, _, _) => CaptureKeepsInv(db, op);
    case AcknowledgeOp(owner, result) =>
      if Acknowledge(db, owner, result).Ok? {
        AcknowledgeKeepsInv(db, owner, result);
      }
    case SelectOp(_, _) => SelectionKeepsInv(db, op);
    case PrepareOp => SelectionKeepsInv(db, op);
    case FinishOp(_) => SelectionKeepsInv(db, op);
    case BlockOp => DownloadsKeepInv(db, op);
    case DownloadOp(_) => DownloadsKeepInv(db, op);
    case RetireOp(_) => DownloadsKeepInv(db, op);
  }

  lemma {:induction false} RunKeepsInv(db: Db, ops: seq<Op>)
    requires Inv(db)
    ensures Inv(Run(db, ops))
    decreases |ops|
  {
    if ops != [] {
      RunKeepsInv(db, ops[..|ops| - 1]);
      StepKeepsInv(Run(db, ops[..|ops| - 1]), ops[|ops| - 1]);
    }
  }

  // ----- Account isolation -----

  lemma UnreceivedIsUnacknowledged(db: Db, k: Key)
    requires Inv(db) && k in Unreceived(db)
    ensures k in db.actions && k !in db.acks
  {
    if k in db.pending {
      assert EffectFits(db, k);
    }
  }

  /** After any run, everything not yet received belongs to the one selected account that is not
      being left; so nothing waits when no account is selected or an exit is under way. */
  lemma AccountIsolation(ops: seq<Op>)
    ensures var db := Run(EmptyDb, ops);
      && (forall k | k in Unreceived(db) :: IsSelected(db, k.scope))
      && (db.selection.None? || db.selection.value.exiting ==> Unreceived(db) == {})
  {
    var db := Run(EmptyDb, ops);
    RunKeepsInv(EmptyDb, ops);
    forall k | k in Unreceived(db) ensures IsSelected(db, k.scope) {
      UnreceivedIsUnacknowledged(db, k);
      assert ActionKept(db, k);
    }
  }

  /** An exit is refused exactly while the selected account has an action without a receipt. */
  lemma ExitNeedsReceipts(ops: seq<Op>)
    ensures var db := Run(EmptyDb, ops);
      PrepareExit(db).Err? <==> db.selection.Some? && exists k :: k in db.actions && k !in db.acks && k.scope == db.selection.value.scope
  {
    var db := Run(EmptyDb, ops);
    RunKeepsInv(EmptyDb, ops);
    if db.selection.Some? {
      var scope := db.selection.value.scope;
      forall k | k in UnreceivedIn(db, scope) ensures k in db.actions && k !in db.acks {
        UnreceivedIsUnacknowledged(db, k);
      }
      forall k | k in db.actions && k !in db.acks && k.scope == scope ensures k in UnreceivedIn(db, scope) {}
      if UnreceivedIn(db, scope) != {} {
        var k :| k in UnreceivedIn(db, scope);
      }
    }
  }

  // ----- Evidence -----

  /** `after` still has every action with its bytes, and every receipt. */
  ghost predicate Remembers(after: Db, db: Db) {
    && (forall k | k in db.actions :: k in after.actions && after.actions[k] == db.actions[k])
    && (forall k | k in db.acks :: k in after.acks && after.acks[k].receipt == db.acks[k].receipt)
  }

  lemma StepRemembers(db: Db, op: Op)
    ensures Remembers(Next(db, op), db)
  {
    if op.CaptureOp? {
      CaptureShape(db, op);
    }
  }

  lemma {:induction false} EvidenceStays(db: Db, ops: seq<Op>)
    ensures Remembers(Run(db, ops), db)
    decreases |ops|
  {
    if ops != [] {
      EvidenceStays(db, ops[..|ops| - 1]);
      StepRemembers(Run(db, ops[..|ops| - 1]), ops[|ops| - 1]);
    }
  }

  /** Nothing is lost: after any run every captured action has a stored receipt or its pending
      overlay, and its bytes still spell the envelope it was captured with. */
  lemma NothingIsLost(ops: seq<Op>, more: seq<Op>, k: Key)
    requires k in Run(EmptyDb, ops).actions
    ensures var early, late := Run(EmptyDb, ops), Run(Run(EmptyDb, ops), more);
      && k in late.actions && late.actions[k] == early.actions[k]
      && late.actions[k].bytes == Stringified(early.actions[k].envelope)
      && (k in late.acks || k in late.pending)
      && (k in early.acks ==> k in late.acks && late.acks[k].receipt == early.acks[k].receipt)
  {
    RunKeepsInv(EmptyDb, ops);
    RunKeepsInv(Run(EmptyDb, ops), more);
    EvidenceStays(Run(EmptyDb, ops), more);
    assert ActionKept(Run(Run(EmptyDb, ops), more), k);
    assert ActionFits(Run(EmptyDb, ops), k);
  }

  predicate LatestPending(db: Db, k: Key) {
    k in db.pending && forall l | l in db.pending && l.scope == k.scope :: db.pending[l].sequence <= db.pending[k].sequence
  }

  lemma ListedBeforeLast(pending: map<Key, Effect>, scope: Scope, k: Key)
    requires k in KeysIn(pending, scope)
    ensures var keys := PendingIn(pending, scope);
      keys != [] && keys[|keys| - 1] in KeysIn(pending, scope) && (keys[|keys| - 1] == k || Earlier(pending, k, keys[|keys| - 1]))
  {
    var keys := PendingIn(pending, scope);
    assert k in keys;
    var i :| 0 <= i < |keys| && keys[i] == k;
    var lt := (a, b) => Earlier(pending, a, b);
    assert i < |keys| - 1 ==> lt(keys[i], keys[|keys| - 1]);
    assert keys[|keys| - 1] in keys;
  }

  lemma LatestIsLast(db: Db, k: Key)
    requires Effects(db) && Sequences(db) && LatestPending(db, k)
    ensures var keys := PendingIn(db.pending, k.scope); keys != [] && keys[|keys| - 1] == k
  {
    ListedBeforeLast(db.pending, k.scope, k);
    var keys := PendingIn(db.pending, k.scope);
    assert EffectFits(db, k) && EffectFits(db, keys[|keys| - 1]);
  }

  lemma FreshIsHighest(db: Db, scope: Scope, e: Envelope)
    requires Actions(db) && e.context.Device?
    ensures forall l | l in db.actions && l.scope == scope :: db.actions[l].sequence < NextSequence(db, scope, e, false)
  {
    forall l | l in db.actions && l.scope == scope ensures db.actions[l].sequence <= Counter(db, scope) {
      assert ActionFits(db, l);
    }
  }

  lemma EnrichedDepends(e: Envelope, sequence: int, prior: Id)
    requires e.context.Device?
    ensures prior in Enriched(e, sequence, Some(prior)).dependsOn
  {
    assert prior in e.dependsOn + [prior];
  }

  lemma FreshFollowsOne(db: Db, scope: Scope, e: Envelope, l: Key)
    requires Effects(db) && Sequences(db) && e.context.Device? && LatestPending(db, l) && l.scope == scope
    ensures l.id in Recorded(db, scope, e, false).dependsOn
  {
    LatestIsLast(db, l);
    EnrichedDepends(e, NextSequence(db, scope, e, false), l.id);
  }

  lemma FreshFollowsLatest(db: Db, scope: Scope, e: Envelope)
    requires Effects(db) && Sequences(db) && e.context.Device?
    ensures forall l: Key | LatestPending(db, l) && l.scope == scope :: l.id in Recorded(db, scope, e, false).dependsOn
  {
    forall l: Key | LatestPending(db, l) && l.scope == scope ensures l.id in Recorded(db, scope, e, false).dependsOn {
      FreshFollowsOne(db, scope, e, l);
    }
  }

  lemma FreshIsLast(db: Db, op: Op)
    requires Inv(db) && op.CaptureOp? && !op.preserve && Next(db, op) != db
    ensures var k, after := Key(op.scope, op.envelope.actionId), Next(db, op);
      && k !in db.actions && k in after.actions && k in after.pending
      && (forall l | l in db.actions && l.scope == op.scope :: db.actions[l].sequence < after.actions[k].sequence)
      && forall l: Key | LatestPending(db, l) && l.scope == op.scope :: l.id in after.actions[k].envelope.dependsOn
  {
    CaptureShape(db, op);
    FreshIsHighest(db, op.scope, op.envelope);
    FreshFollowsLatest(db, op.scope, op.envelope);
  }

  /** A fresh capture comes after everything captured before, and depends on the last pending action. */
  lemma FreshCaptureIsLast(ops: seq<Op>, op: Op)
    requires op.CaptureOp? && !op.preserve
    ensures var db, k := Run(EmptyDb, ops), Key(op.scope, op.envelope.actionId);
      var after := Next(db, op);
      after == db ||
      (&& k !in db.actions && k in after.actions && k in after.pending
       && (forall l | l in db.actions && l.scope == op.scope :: db.actions[l].sequence < after.actions[k].sequence)
       && forall l: Key | LatestPending(db, l) && l.scope == op.scope :: l.id in after.actions[k].envelope.dependsOn)
  {
    RunKeepsInv(EmptyDb, ops);
    if Next(Run(EmptyDb, ops), op) != Run(EmptyDb, ops) {
      FreshIsLast(Run(EmptyDb, ops), op);
    }
  }

  lemma {:induction false} UniqueHasNoRepeats(ids: seq<Id>)
    ensures forall i, j | 0 <= i < j < |Unique(ids)| :: Unique(ids)[i] != Unique(ids)[j]
  {
    if ids != [] {
      UniqueHasNoRepeats(ids[..|ids| - 1]);
    }
  }

  /** What stands at place `j` first occurs behind all that stands before it. */
  ghost predicate FirstBehind(r: seq<Id>, ids: seq<Id>, j: nat, q: nat) {
    && j < |r| && q < |ids| && ids[q] == r[j] && r[j] !in ids[..q]
    && forall i | 0 <= i < j :: r[i] in ids[..q]
  }

  ghost predicate Placed(r: seq<Id>, ids: seq<Id>, j: nat) { exists q: nat :: FirstBehind(r, ids, j, q) }

  /** The ids in the order in which they first occur. */
  ghost predicate InFirstOrder(r: seq<Id>, ids: seq<Id>) {
    forall j: nat | j < |r| :: Placed(r, ids, j)
  }

  lemma FirstBehindMore(r: seq<Id>, ids: seq<Id>, more: seq<Id>, longer: seq<Id>, j: nat, q: nat)
    requires FirstBehind(r, ids, j, q)
    ensures FirstBehind(r + more, ids + longer, j, q)
  {
    assert (ids + longer)[..q] == ids[..q];
  }

  lemma {:induction false} UniqueKeepsOrder(ids: seq<Id>)
    ensures InFirstOrder(Unique(ids), ids)
  {
    if ids != [] {
      var n := |ids| - 1;
      UniqueKeepsOrder(ids[..n]);
      UniqueGrows(ids[..n], ids[n]);
      assert ids == ids[..n] + [ids[n]];
    }
  }

  lemma UniqueGrows(ids: seq<Id>, id: Id)
    requires InFirstOrder(Unique(ids), ids)
    ensures InFirstOrder(Unique(ids + [id]), ids + [id])
  {
    var kept, r := Unique(ids), Unique(ids + [id]);
    assert (ids + [id])[..|ids|] == ids;
    var more := if id in kept then [] else [id];
    assert r == kept + more;
    forall j: nat | j < |r| ensures Placed(r, ids + [id], j) {
      if j < |kept| {
        assert Placed(kept, ids, j);
        var q: nat :| FirstBehind(kept, ids, j, q);
        FirstBehindMore(kept, ids, more, [id], j, q);
      } else {
        assert FirstBehind(r, ids + [id], j, |ids|);
      }
    }
  }

  /** Everything the account holder recorded is stored as recorded; only the place in the sequence, the
      predecessors and the versions the work was based on are filled in. */
  ghost predicate CapturedFrom(e: Envelope, a: Action, prior: set<Id>) {
    var stored := a.envelope;
    && stored == e.(context := stored.context, dependsOn := stored.dependsOn, baseVersions := stored.baseVersions)
    && e.context.Device? && stored.context == e.context.(sequence := a.sequence)
    && (forall id :: id in stored.dependsOn <==> id in e.dependsOn || id in prior)
    && (forall i, j | 0 <= i < j < |stored.dependsOn| :: stored.dependsOn[i] != stored.dependsOn[j])
    && stored.baseVersions.deviceGeneration == Some(e.context.generation)
    && BasedOn(stored.baseVersions.resource, e.payload.activityRevision, e.baseVersions.resource)
    && BasedOn(stored.baseVersions.source, e.payload.sourceRevision, e.baseVersions.source)
    && BasedOn(stored.baseVersions.assignment, e.payload.assignmentRevision, e.baseVersions.assignment)
    && BasedOn(stored.baseVersions.location, e.payload.pinRevision, e.baseVersions.location)
  }

  /** A positive expected revision is the version the work was based on; otherwise the given one stays. */
  predicate BasedOn(stored: Option<int>, expected: Option<int>, given: Option<int>) {
    if expected.Some? && expected.value > 0 then stored == expected else stored == given
  }

  lemma EnrichedFrom(e: Envelope, sequence: int, prior: Option<Id>, a: Action)
    requires e.context.Device? && a.sequence == sequence && a.envelope == Enriched(e, sequence, prior)
    ensures CapturedFrom(e, a, if prior.Some? then {prior.value} else {})
  {
    UniqueHasNoRepeats(e.dependsOn + if prior.Some? then [prior.value] else []);
  }

  /** The action that a new capture of the account comes behind. */
  function LastPending(db: Db, scope: Scope): Option<Id> {
    var keys := PendingIn(db.pending, scope);
    if keys == [] then None else Some(keys[|keys| - 1].id)
  }

  lemma LastPendingIsLatest(db: Db, scope: Scope)
    ensures LastPending(db, scope).None? <==> KeysIn(db.pending, scope) == {}
    ensures LastPending(db, scope).Some? ==> LatestPending(db, Key(scope, LastPending(db, scope).value))
  {
    var keys := PendingIn(db.pending, scope);
    if keys != [] {
      var last := keys[|keys| - 1];
      assert last in keys && last == Key(scope, last.id);
      forall l | l in db.pending && l.scope == scope ensures db.pending[l].sequence <= db.pending[last].sequence {
        LastIsLatest(db, scope, l);
      }
    } else {
      assert forall l | l in KeysIn(db.pending, scope) :: l in keys;
    }
  }

  lemma LastIsLatest(db: Db, scope: Scope, l: Key)
    requires l in KeysIn(db.pending, scope)
    ensures var keys := PendingIn(db.pending, scope);
      keys != [] && (l == keys[|keys| - 1] || Earlier(db.pending, l, keys[|keys| - 1]))
  {
    assert l in PendingIn(db.pending, scope);
  }

  lemma CapturedAsGiven(db: Db, op: Op)
    requires op.CaptureOp? && Next(db, op) != db
    ensures var k, after := Key(op.scope, op.envelope.actionId), Next(db, op);
      var prior := LastPending(db, op.scope);
      && k in after.actions
      && (op.preserve ==> after.actions[k].envelope == op.envelope)
      && (!op.preserve ==>
            && CapturedFrom(op.envelope, after.actions[k], if prior.Some? then {prior.value} else {})
            && InFirstOrder(after.actions[k].envelope.dependsOn, op.envelope.dependsOn + if prior.Some? then [prior.value] else []))
  {
    CaptureShape(db, op);
    if !op.preserve {
      var prior := LastPending(db, op.scope);
      UniqueKeepsOrder(op.envelope.dependsOn + if prior.Some? then [prior.value] else []);
      EnrichedFrom(op.envelope, NextSequence(db, op.scope, op.envelope, false), LastPending(db, op.scope),
                   Next(db, op).actions[Key(op.scope, op.envelope.actionId)]);
    }
  }

  // ----- Downloads -----

  lemma StepNeverGoesBack(db: Db, op: Op, round: RoundKey)
    requires round in db.downloads && op != RetireOp(round)
    ensures round in Next(db, op).downloads && !Newer(db.downloads[round].current, Next(db, op).downloads[round].current)
  {
    if op.CaptureOp? {
      CaptureShape(db, op);
    }
  }

  /** Until it is retired the stored copy of a round is never replaced by an older one. */
  lemma {:induction false} DownloadsNeverGoBack(db: Db, ops: seq<Op>, round: RoundKey)
    requires round in db.downloads && RetireOp(round) !in ops
    ensures round in Run(db, ops).downloads && !Newer(db.downloads[round].current, Run(db, ops).downloads[round].current)
    decreases |ops|
  {
    if ops != [] {
      DownloadsNeverGoBack(db, ops[..|ops| - 1], round);
      assert ops[|ops| - 1] in ops;
      StepNeverGoesBack(Run(db, ops[..|ops| - 1]), ops[|ops| - 1], round);
    }
  }

  // ----- Overlays -----

  /** The step neither retires the round, nor brings a refusal of the action, nor a download at `revision` or later. */
  predicate LeavesUncovered(op: Op, k: Key, roundId: string, revision: int) {
    match op
    case DownloadOp(value) => value.scope == k.scope && value.roundId == roundId ==> value.current.revision < revision
    case RetireOp(round) => round != RoundKey(k.scope, roundId)
    case AcknowledgeOp(owner, result) => Key(owner, result.receipt.actionId) == k ==> AcceptedFrom(result, revision)
    case _ => true
  }

  /** An acceptance that takes effect at `revision` or later, as far as it says. */
  predicate AcceptedFrom(result: ActionResult, revision: int) {
    result.receipt.business.Accepted? && (result.receipt.revision.Some? ==> result.receipt.revision.value >= revision)
  }

  ghost predicate OverlayWaits(db: Db, k: Key, effect: Effect, revision: int) {
    && k in db.pending && db.pending[k] == effect && Offline(effect.operation)
    && (k in db.acks ==> AcceptedFrom(db.acks[k], revision))
  }

  lemma CaptureLeavesOverlay(db: Db, op: Op, k: Key, effect: Effect, revision: int)
    requires op.CaptureOp? && OverlayWaits(db, k, effect, revision)
    ensures OverlayWaits(Next(db, op), k, effect, revision)
  {
    CaptureShape(db, op);
  }

  lemma ReceiptLeavesOverlay(db: Db, op: Op, k: Key, effect: Effect, revision: int)
    requires op.AcknowledgeOp? && Effects(db) && OverlayWaits(db, k, effect, revision) && LeavesUncovered(op, k, effect.roundId, revision)
    ensures OverlayWaits(Next(db, op), k, effect, revision)
  {
    assert EffectFits(db, k);
  }

  lemma StepLeavesOverlay(db: Db, op: Op, k: Key, effect: Effect, revision: int)
    requires Effects(db) && OverlayWaits(db, k, effect, revision) && LeavesUncovered(op, k, effect.roundId, revision)
    ensures OverlayWaits(Next(db, op), k, effect, revision)
  {
    if op.CaptureOp? {
      CaptureLeavesOverlay(db, op, k, effect, revision);
    } else if op.AcknowledgeOp? {
      ReceiptLeavesOverlay(db, op, k, effect, revision);
    }
  }

  /** The overlay of accepted offline work stays until a download covers its revision or its round is retired. */
  lemma {:induction false} OverlayWaitsForCover(db: Db, ops: seq<Op>, k: Key, effect: Effect, revision: int)
    requires Inv(db) && OverlayWaits(db, k, effect, revision)
    requires forall i | 0 <= i < |ops| :: LeavesUncovered(ops[i], k, effect.roundId, revision)
    ensures OverlayWaits(Run(db, ops), k, effect, revision)
    decreases |ops|
  {
    if ops != [] {
      OverlayWaitsForCover(db, ops[..|ops| - 1], k, effect, revision);
      RunKeepsInv(db, ops[..|ops| - 1]);
      StepLeavesOverlay(Run(db, ops[..|ops| - 1]), ops[|ops| - 1], k, effect, revision);
    }
  }

  // ----- Ended sessions -----

  predicate SelectionFits(db: Db) { db.selection.Some? ==> db.selection.value.scope in db.partitions }

  lemma StepKeepsSelectionFits(db: Db, op: Op)
    requires SelectionFits(db)
    ensures SelectionFits(Next(db, op))
  {
    if op.CaptureOp? {
      CaptureShape(db, op);
    }
  }

  lemma {:induction false} RunKeepsSelectionFits(db: Db, ops: seq<Op>)
    requires SelectionFits(db)
    ensures SelectionFits(Run(db, ops))
    decreases |ops|
  {
    if ops != [] {
      RunKeepsSelectionFits(db, ops[..|ops| - 1]);
      StepKeepsSelectionFits(Run(db, ops[..|ops| - 1]), ops[|ops| - 1]);
    }
  }

  /** The account was left, and its session with expiry `t` with it. */
  predicate Closed(db: Db, scope: Scope, t: int) {
    && scope in db.partitions && db.partitions[scope].session.expiresAt == t
    && db.partitions[scope].endedSession == Some(t) && !IsSelected(db, scope)
  }

  lemma PrepareCloses(db: Db)
    requires db.selection.Some? && db.selection.value.scope in db.partitions && PrepareExit(db).Ok?
    ensures var scope := db.selection.value.scope;
      Closed(PrepareExit(db).value, scope, db.partitions[scope].session.expiresAt)
  {}

  lemma StepKeepsClosed(db: Db, op: Op, scope: Scope, t: int)
    requires Closed(db, scope, t)
    requires op.SelectOp? && SessionScope(op.session, op.deviceId) == scope ==> op.session.expiresAt == t
    ensures Closed(Next(db, op), scope, t)
  {
    if op.CaptureOp? {
      CaptureShape(db, op);
    }
  }

  /** No select opens the account again with the session that ended; only another session does. */
  lemma {:induction false} EndedSessionStaysOut(db: Db, ops: seq<Op>, scope: Scope, t: int)
    requires Closed(db, scope, t)
    requires forall op | op in ops && op.SelectOp? && SessionScope(op.session, op.deviceId) == scope :: op.session.expiresAt == t
    ensures Closed(Run(db, ops), scope, t) && !Selected(Run(db, ops), scope)
    decreases |ops|
  {
    if ops != [] {
      EndedSessionStaysOut(db, ops[..|ops| - 1], scope, t);
      assert ops[|ops| - 1] in ops;
      StepKeepsClosed(Run(db, ops[..|ops| - 1]), ops[|ops| - 1], scope, t);
    }
  }

  // ----- Updating the application -----

  /** The page's check: no overlay, nothing unreceived, no exit under way. */
  predicate PageSafe(db: Db) {
    db.pending == map[] && Unreceived(db) == {} && !(db.selection.Some? && db.selection.value.exiting)
  }

  /** The worker's own check over the stored tables. */
  predicate WorkerSafe(db: Db) {
    db.pending == map[] && !(db.selection.Some? && db.selection.value.exiting) && forall k | k in db.actions :: Received(db, k)
  }

  lemma UpdateChecksAgree(db: Db)
    ensures PageSafe(db) <==> WorkerSafe(db)
  {
    if WorkerSafe(db) {
      assert forall k :: k !in db.pending;
    }
    if PageSafe(db) {
      forall k | k in db.actions ensures Received(db, k) {
        assert !Received(db, k) ==> k in Unreceived(db);
      }
    }
  }
}
