/** Runs of the journal around one downloaded round: its preview never fails. */
module PreviewRuns {
  import opened Wrappers
  import opened Ordering
  import opened LocalCommands
  import opened LocalWork
  import opened LocalEvidence
  import opened PreviewValidity

  // ----- What the preview depends on -----

  predicate Declined(db: Db, k: Key) { k in db.acks && !db.acks[k].receipt.business.Accepted? }

  ghost predicate SameActions(db: Db, after: Db, keys: seq<Key>) {
    forall k | k in keys :: k in db.actions && k in after.actions && after.actions[k] == db.actions[k]
  }

  /** No receipt of this account turned from or into a refusal. */
  ghost predicate SameVerdicts(db: Db, after: Db, scope: Scope) {
    forall id :: Declined(after, Key(scope, id)) <==> Declined(db, Key(scope, id))
  }

  ghost predicate MoreVerdicts(db: Db, after: Db, scope: Scope) {
    forall id :: Declined(db, Key(scope, id)) ==> Declined(after, Key(scope, id))
  }

  lemma RefusingMeans(db: Db, k: Key)
    requires k in db.actions
    ensures Refusing(db, k) <==> exists id :: id in db.actions[k].envelope.dependsOn && Declined(db, Key(k.scope, id))
  {
    if Refusing(db, k) {
      var id :| id in db.actions[k].envelope.dependsOn && Key(k.scope, id) in db.acks
        && !db.acks[Key(k.scope, id)].receipt.business.Accepted?;
      assert Declined(db, Key(k.scope, id));
    }
  }

  lemma StillRefusing(db: Db, after: Db, k: Key)
    requires Refusing(db, k) && k in after.actions && after.actions[k] == db.actions[k]
    requires MoreVerdicts(db, after, k.scope)
    ensures Refusing(after, k)
  {
    RefusingMeans(db, k);
    RefusingMeans(after, k);
  }

  lemma SameRefusing(db: Db, after: Db, scope: Scope, keys: seq<Key>)
    requires SameActions(db, after, keys) && SameVerdicts(db, after, scope) && forall k | k in keys :: k.scope == scope
    ensures FirstRefusing(after, keys) == FirstRefusing(db, keys)
    ensures forall k | k in keys :: Refusing(after, k) <==> Refusing(db, k)
  {
    forall k | k in keys ensures Refusing(after, k) <==> Refusing(db, k) {
      RefusingMeans(db, k);
      RefusingMeans(after, k);
    }
    assert forall i | 0 <= i < |keys| :: keys[i] in keys;
  }

  lemma {:induction false} SameEnvelopes(db: Db, after: Db, keys: seq<Key>)
    requires SameActions(db, after, keys)
    ensures Envelopes(after, keys) == Envelopes(db, keys)
  {
    if keys != [] {
      assert forall k | k in keys[..|keys| - 1] :: k in keys;
      assert keys[|keys| - 1] in keys;
      SameEnvelopes(db, after, keys[..|keys| - 1]);
    }
  }

  lemma {:induction false} EnvelopesPrefix(db: Db, keys: seq<Key>, i: nat)
    requires i <= |keys|
    ensures Envelopes(db, keys[..i]) <= Envelopes(db, keys)
    decreases |keys|
  {
    if i == |keys| {
      assert keys[..i] == keys;
    } else {
      EnvelopesPrefix(db, keys[..|keys| - 1], i);
      assert keys[..|keys| - 1][..i] == keys[..i];
    }
  }

  // ----- The invariant -----

  /** An overlay of the round leaves room for nothing but more overlays of the round, all offline work. */
  ghost predicate Alone(db: Db, round: RoundKey) {
    forall k, l | k in RoundSet(db.pending, round) && l in KeysIn(db.pending, round.scope) && l != k ::
      l in RoundSet(db.pending, round) && Offline(db.pending[k].operation) && Offline(db.pending[l].operation)
  }

  ghost predicate DownloadsFit(db: Db) {
    forall r | r in db.downloads :: db.downloads[r].scope == r.scope && db.downloads[r].roundId == r.roundId
  }

  lemma RoundIsReadable(db: Db, round: RoundKey)
    requires Inv(db)
    ensures Readable(db, round.scope, RoundKeys(db, round))
  {
    forall k | k in RoundKeys(db, round)
      ensures k.scope == round.scope && k in db.actions && ActionFits(db, k)
    {
      assert k in RoundSet(db.pending, round);
      assert EffectFits(db, k);
    }
  }

  /** The overlays that are shown: those before the first refusing one. */
  function Leading(db: Db, round: RoundKey): seq<Key> {
    RoundKeys(db, round)[..FirstRefusing(db, RoundKeys(db, round))]
  }

  /** The confirmed state with those overlays projected over it. */
  function Shown(db: Db, d: Download): Result<Current, Refused> {
    ShownOf(db, d.current, RoundKeys(db, RoundOfDownload(d)))
  }

  function ShownOf(db: Db, base: Current, keys: seq<Key>): Result<Current, Refused> {
    Project(base, Envelopes(db, keys[..FirstRefusing(db, keys)]))
  }

  function RoundOfDownload(d: Download): RoundKey { RoundKey(d.scope, d.roundId) }

  /** The download is the stored one, of a round with a proper id. */
  ghost predicate InUse(db: Db, d: Download) {
    RoundOfDownload(d) in db.downloads && db.downloads[RoundOfDownload(d)] == d && d.roundId != "" && d.roundId != "undefined"
  }

  ghost predicate Live(db: Db, d: Download) {
    && Inv(db) && DownloadsFit(db) && InUse(db, d) && Alone(db, RoundOfDownload(d))
    && Chained(db, RoundKeys(db, RoundOfDownload(d))) && Shown(db, d).Ok?
  }

  lemma PreviewIsShown(db: Db, d: Download)
    requires Inv(db) && Chained(db, RoundKeys(db, RoundOfDownload(d))) && Selected(db, d.scope)
    ensures Shown(db, d).Ok? ==> Preview(db, d) == Ok(Shown(db, d).value)
    ensures Shown(db, d).Err? ==> Preview(db, d) == Err(NotProjectable(Shown(db, d).error))
  {
    var round := RoundOfDownload(d);
    RoundIsReadable(db, round);
    OverlaySplits(db, round.scope, RoundKeys(db, round));
  }

  // ----- Steps elsewhere -----

  ghost predicate Untouched(db: Db, after: Db, round: RoundKey) {
    && RoundSet(after.pending, round) == RoundSet(db.pending, round)
    && (forall k | k in RoundSet(db.pending, round) :: k in db.actions && k in after.actions && after.actions[k] == db.actions[k])
    && (forall k | k in RoundSet(db.pending, round) :: after.pending[k] == db.pending[k])
    && SameVerdicts(db, after, round.scope)
  }

  lemma SameChain(db: Db, after: Db, scope: Scope, keys: seq<Key>)
    requires SameActions(db, after, keys) && MoreVerdicts(db, after, scope) && forall k | k in keys :: k.scope == scope
    requires Chained(db, keys)
    ensures Chained(after, keys)
  {
    forall i, j | 0 <= i < j < |keys| && j == i + 1 ensures Follows(after, keys[i], keys[j]) {
      assert keys[j] in keys && Follows(db, keys[i], keys[j]);
      if Refusing(db, keys[j]) {
        StillRefusing(db, after, keys[j]);
      }
    }
  }

  lemma UntouchedMeans(db: Db, after: Db, round: RoundKey)
    requires Effects(db) && Untouched(db, after, round)
    ensures RoundKeys(after, round) == RoundKeys(db, round) && SameActions(db, after, RoundKeys(db, round))
    ensures forall k | k in RoundKeys(db, round) :: k.scope == round.scope
  {
    SameRound(db, after, round);
    assert forall k | k in RoundKeys(db, round) :: k in RoundSet(db.pending, round);
  }

  lemma UntouchedKeepsShown(db: Db, after: Db, d: Download)
    requires Effects(db) && Untouched(db, after, RoundOfDownload(d))
    ensures Leading(after, RoundOfDownload(d)) == Leading(db, RoundOfDownload(d))
    ensures Shown(after, d) == Shown(db, d)
  {
    var round := RoundOfDownload(d);
    UntouchedMeans(db, after, round);
    SameRefusing(db, after, round.scope, RoundKeys(db, round));
    assert forall k | k in Leading(db, round) :: k in RoundKeys(db, round);
    SameEnvelopes(db, after, Leading(db, round));
  }

  lemma UntouchedKeepsLive(db: Db, after: Db, d: Download)
    requires Live(db, d) && Inv(after) && DownloadsFit(after) && InUse(after, d)
    requires Untouched(db, after, RoundOfDownload(d)) && Alone(after, RoundOfDownload(d))
    ensures Live(after, d) && Shown(after, d) == Shown(db, d)
  {
    var round := RoundOfDownload(d);
    UntouchedKeepsShown(db, after, d);
    UntouchedMeans(db, after, round);
    SameChain(db, after, round.scope, RoundKeys(db, round));
  }

  /** While the download stays: no newer copy or retirement of the round; into the round, no byte-preserving
      import through the continuation and, outside it, nothing that is offline work. */
  predicate Allowed(op: Op, round: RoundKey) {
    match op
    case DownloadOp(value) => RoundOfDownload(value) != round
    case RetireOp(retired) => retired != round
    case CaptureOp(_, e, _, continuation, preserve) =>
      Into(op, round) ==> if continuation then !preserve else !Offline(e.operation)
    case _ => true
  }

  /** A capture into the round. */
  predicate Into(op: Op, round: RoundKey) {
    op.CaptureOp? && op.scope == round.scope && RoundOf(op.envelope) == round.roundId
  }

  lemma CaptureLeavesDownloads(db: Db, op: Op)
    requires op.CaptureOp?
    ensures Next(db, op).downloads == db.downloads
  {
    CaptureShape(db, op);
  }

  lemma DownloadStays(db: Db, op: Op, d: Download)
    requires DownloadsFit(db) && InUse(db, d) && Allowed(op, RoundOfDownload(d))
    ensures DownloadsFit(Next(db, op)) && InUse(Next(db, op), d)
  {
    if op.CaptureOp? {
      CaptureLeavesDownloads(db, op);
    }
  }

  lemma QuietShape(db: Db, op: Op, round: RoundKey)
    requires Allowed(op, round) && !op.CaptureOp? && !op.AcknowledgeOp?
    ensures var after := Next(db, op);
      && after.actions == db.actions && after.acks == db.acks
      && (forall k | k in after.pending :: k in db.pending && after.pending[k] == db.pending[k])
      && (forall k | k in RoundSet(db.pending, round) :: k in after.pending)
  {}

  lemma FewerOverlays(db: Db, after: Db, round: RoundKey)
    requires Effects(db) && after.actions == db.actions && after.acks == db.acks
    requires forall k | k in after.pending :: k in db.pending && after.pending[k] == db.pending[k]
    requires forall k | k in RoundSet(db.pending, round) :: k in after.pending
    ensures Untouched(db, after, round)
    ensures Alone(db, round) ==> Alone(after, round)
  {
    assert forall k | k in RoundSet(db.pending, round) :: EffectFits(db, k);
    assert forall k | k in KeysIn(after.pending, round.scope) :: k in KeysIn(db.pending, round.scope);
    assert RoundSet(after.pending, round) == RoundSet(db.pending, round);
  }

  lemma QuietStep(db: Db, op: Op, d: Download)
    requires Live(db, d) && Allowed(op, RoundOfDownload(d)) && !op.CaptureOp? && !op.AcknowledgeOp?
    ensures Live(Next(db, op), d) && Shown(Next(db, op), d) == Shown(db, d)
  {
    StepKeepsInv(db, op);
    DownloadStays(db, op, d);
    QuietShape(db, op, RoundOfDownload(d));
    FewerOverlays(db, Next(db, op), RoundOfDownload(d));
    UntouchedKeepsLive(db, Next(db, op), d);
  }

  /** What a capture that took place says about the journal before it. */
  lemma CaptureWasAdmitted(db: Db, op: Op)
    requires op.CaptureOp? && Next(db, op) != db
    ensures op.envelope.context.Device?
    ensures !op.continuation ==> KeysIn(db.pending, op.scope) == {}
    ensures op.continuation ==>
      var round := RoundKey(op.scope, TripText(op.envelope));
      && round in db.downloads
      && (forall k | k in KeysIn(db.pending, op.scope) ::
            Offline(db.pending[k].operation) && db.pending[k].roundId == db.downloads[round].roundId)
      && Preview(db, db.downloads[round]).Ok?
      && Objection(Preview(db, db.downloads[round]).value, op.envelope).None?
  {
    assert Admission(db, op.scope, op.envelope, op.continuation).None?;
    assert forall k | k in KeysIn(db.pending, op.scope) :: k in PendingIn(db.pending, op.scope);
  }

  /** `after` has one more action and its overlay. */
  ghost predicate Appended(db: Db, after: Db, k: Key) {
    && k !in db.pending && k !in db.actions && k in after.pending && k in after.actions
    && after.pending == db.pending[k := after.pending[k]] && after.actions == db.actions[k := after.actions[k]]
    && after.acks == db.acks
  }

  lemma CaptureAppends(db: Db, op: Op)
    requires op.CaptureOp? && Next(db, op) != db
    ensures var k, after := Key(op.scope, op.envelope.actionId), Next(db, op);
      && op.envelope.context.Device? && Appended(db, after, k)
      && after.pending[k].roundId == RoundOf(op.envelope) && after.pending[k].operation == op.envelope.operation
      && after.actions[k].envelope == Recorded(db, op.scope, op.envelope, op.preserve)
  {
    CaptureShape(db, op);
  }

  lemma AppendedElsewhere(db: Db, after: Db, round: RoundKey, k: Key)
    requires Effects(db) && Appended(db, after, k) && k !in RoundSet(after.pending, round)
    ensures Untouched(db, after, round)
  {
    forall l | l in RoundSet(db.pending, round)
      ensures l in db.actions && l in after.actions && after.actions[l] == db.actions[l]
    {
      assert EffectFits(db, l);
    }
    assert RoundSet(after.pending, round) == RoundSet(db.pending, round);
  }

  lemma AloneElsewhere(db: Db, after: Db, round: RoundKey, k: Key)
    requires Appended(db, after, k) && k !in RoundSet(after.pending, round) && Alone(db, round)
    requires k.scope == round.scope ==> RoundSet(db.pending, round) == {}
    ensures Alone(after, round)
  {
    assert RoundSet(after.pending, round) == RoundSet(db.pending, round);
    assert k.scope != round.scope ==> KeysIn(after.pending, round.scope) == KeysIn(db.pending, round.scope);
  }

  lemma OtherRoundIsEmpty(db: Db, op: Op, d: Download)
    requires DownloadsFit(db) && InUse(db, d) && op.CaptureOp? && op.scope == d.scope && RoundOf(op.envelope) != d.roundId
    requires Next(db, op) != db
    ensures RoundSet(db.pending, RoundOfDownload(d)) == {}
  {
    CaptureWasAdmitted(db, op);
    assert forall k | k in RoundSet(db.pending, RoundOfDownload(d)) :: k in KeysIn(db.pending, op.scope);
  }

  lemma CaptureElsewhere(db: Db, op: Op, d: Download)
    requires Live(db, d) && op.CaptureOp? && !Into(op, RoundOfDownload(d)) && Allowed(op, RoundOfDownload(d))
    ensures Live(Next(db, op), d) && Shown(Next(db, op), d) == Shown(db, d)
  {
    var after, round := Next(db, op), RoundOfDownload(d);
    if after != db {
      StepKeepsInv(db, op);
      DownloadStays(db, op, d);
      CaptureAppends(db, op);
      if op.scope == d.scope {
        OtherRoundIsEmpty(db, op, d);
      }
      AppendedElsewhere(db, after, round, Key(op.scope, op.envelope.actionId));
      AloneElsewhere(db, after, round, Key(op.scope, op.envelope.actionId));
      UntouchedKeepsLive(db, after, d);
    }
  }

  // ----- Capturing into the round -----

  lemma {:induction false} FirstRefusingNext(db: Db, keys: seq<Key>, k: Key)
    ensures FirstRefusing(db, keys + [k]) ==
      if FirstRefusing(db, keys) < |keys| || Refusing(db, k) then FirstRefusing(db, keys) else |keys| + 1
  {
    var m := FirstRefusing(db, keys + [k]);
    assert forall i | 0 <= i < |keys| :: (keys + [k])[i] == keys[i];
    assert (keys + [k])[|keys|] == k;
  }

  lemma AppendedKeepsActions(db: Db, after: Db, round: RoundKey, k: Key)
    requires Effects(db) && Appended(db, after, k)
    ensures SameActions(db, after, RoundKeys(db, round)) && k !in RoundKeys(db, round)
    ensures forall l | l in RoundKeys(db, round) :: l.scope == round.scope
  {
    forall l | l in RoundKeys(db, round) ensures l in db.actions && l in db.pending && l.scope == round.scope {
      assert l in RoundSet(db.pending, round);
      assert EffectFits(db, l);
    }
  }

  /** One more overlay, after all others: it is shown if nothing before it and no predecessor of it is refused. */
  lemma FirstRefusingAfter(db: Db, after: Db, scope: Scope, keys: seq<Key>, k: Key)
    requires SameActions(db, after, keys) && SameVerdicts(db, after, scope) && forall l | l in keys :: l.scope == scope
    ensures FirstRefusing(after, keys + [k]) ==
      if FirstRefusing(db, keys) < |keys| || Refusing(after, k) then FirstRefusing(db, keys) else |keys| + 1
  {
    SameRefusing(db, after, scope, keys);
    FirstRefusingNext(after, keys, k);
  }

  lemma {:induction false} EnvelopesLast(db: Db, keys: seq<Key>, k: Key)
    requires k in db.actions
    ensures Envelopes(db, keys + [k]) == Envelopes(db, keys) + [db.actions[k].envelope]
  {
    assert (keys + [k])[..|keys|] == keys;
  }

  lemma ShownOfAll(db: Db, base: Current, keys: seq<Key>)
    requires FirstRefusing(db, keys) == |keys|
    ensures ShownOf(db, base, keys) == Project(base, Envelopes(db, keys))
  {
    assert keys[..|keys|] == keys;
  }

  lemma ShownWithMore(db: Db, after: Db, base: Current, keys: seq<Key>, k: Key)
    requires SameActions(db, after, keys) && k in after.actions && ShownOf(db, base, keys).Ok?
    requires FirstRefusing(db, keys) == |keys| && FirstRefusing(after, keys + [k]) == |keys| + 1
    ensures ShownOf(after, base, keys + [k]) == Advance(ShownOf(db, base, keys).value, after.actions[k].envelope)
  {
    ShownOfAll(db, base, keys);
    ShownOfAll(after, base, keys + [k]);
    SameEnvelopes(db, after, keys);
    EnvelopesLast(after, keys, k);
    ProjectNext(base, Envelopes(db, keys), after.actions[k].envelope);
  }

  lemma ShownWithout(db: Db, after: Db, base: Current, keys: seq<Key>, k: Key, m: nat)
    requires SameActions(db, after, keys) && m <= |keys|
    requires FirstRefusing(db, keys) == m && FirstRefusing(after, keys + [k]) == m
    ensures ShownOf(after, base, keys + [k]) == ShownOf(db, base, keys)
  {
    assert (keys + [k])[..m] == keys[..m];
    assert forall l | l in keys[..m] :: l in keys;
    SameEnvelopes(db, after, keys[..m]);
  }

  lemma ShownOfMore(db: Db, after: Db, base: Current, scope: Scope, keys: seq<Key>, k: Key)
    requires SameActions(db, after, keys) && SameVerdicts(db, after, scope) && forall l | l in keys :: l.scope == scope
    requires ShownOf(db, base, keys).Ok? && k in after.actions
    ensures var m := FirstRefusing(after, keys + [k]);
      ShownOf(after, base, keys + [k]) ==
        if m > |keys| then Advance(ShownOf(db, base, keys).value, after.actions[k].envelope) else ShownOf(db, base, keys)
  {
    var m := FirstRefusing(after, keys + [k]);
    FirstRefusingAfter(db, after, scope, keys, k);
    if m > |keys| {
      ShownWithMore(db, after, base, keys, k);
    } else {
      ShownWithout(db, after, base, keys, k, m);
    }
  }

  lemma ShownNext(db: Db, after: Db, d: Download, k: Key)
    requires Effects(db) && Shown(db, d).Ok? && Appended(db, after, k)
    requires RoundKeys(after, RoundOfDownload(d)) == RoundKeys(db, RoundOfDownload(d)) + [k]
    ensures Shown(after, d) ==
      if k in Leading(after, RoundOfDownload(d)) then Advance(Shown(db, d).value, after.actions[k].envelope) else Shown(db, d)
  {
    var round := RoundOfDownload(d);
    var keys := RoundKeys(db, round);
    AppendedKeepsActions(db, after, round, k);
    ShownOfMore(db, after, d.current, d.scope, keys, k);
    LastLeads(keys, k, FirstRefusing(after, keys + [k]));
  }

  lemma LastLeads(keys: seq<Key>, k: Key, m: nat)
    requires k !in keys && m <= |keys| + 1
    ensures k in (keys + [k])[..m] <==> m == |keys| + 1
  {
    if m <= |keys| {
      assert (keys + [k])[..m] == keys[..m];
    } else {
      assert (keys + [k])[..m][|keys|] == k;
    }
  }

  /** In a round in use a capture's trip id is the round's own id. */
  lemma IntoHasTrip(op: Op, d: Download)
    requires Into(op, RoundOfDownload(d)) && d.roundId != ""
    ensures op.envelope.tripId == Some(d.roundId) && RoundKey(op.scope, TripText(op.envelope)) == RoundOfDownload(d)
  {}

  lemma IntoFindsRoundAlone(db: Db, op: Op, d: Download)
    requires InUse(db, d) && Into(op, RoundOfDownload(d)) && Next(db, op) != db
    ensures KeysIn(db.pending, d.scope) == RoundSet(db.pending, RoundOfDownload(d))
    ensures op.continuation ==> Offline(op.envelope.operation)
    ensures !op.continuation ==> KeysIn(db.pending, d.scope) == {}
    ensures forall k | k in KeysIn(db.pending, d.scope) :: Offline(db.pending[k].operation)
  {
    IntoHasTrip(op, d);
    CaptureWasAdmitted(db, op);
  }

  lemma AppendedIsAlone(db: Db, after: Db, round: RoundKey, k: Key)
    requires Appended(db, after, k) && k in RoundSet(after.pending, round)
    requires KeysIn(db.pending, round.scope) == RoundSet(db.pending, round)
    requires KeysIn(db.pending, round.scope) == {} ||
      (Offline(after.pending[k].operation) && forall l | l in KeysIn(db.pending, round.scope) :: Offline(db.pending[l].operation))
    ensures Alone(after, round)
  {
    assert KeysIn(after.pending, round.scope) == KeysIn(db.pending, round.scope) + {k};
    assert RoundSet(after.pending, round) == RoundSet(db.pending, round) + {k};
  }

  lemma IntoIsAlone(db: Db, op: Op, d: Download)
    requires InUse(db, d) && Into(op, RoundOfDownload(d)) && Next(db, op) != db
    ensures Alone(Next(db, op), RoundOfDownload(d))
  {
    IntoFindsRoundAlone(db, op, d);
    CaptureAppends(db, op);
    AppendedIsAlone(db, Next(db, op), RoundOfDownload(d), Key(op.scope, op.envelope.actionId));
  }

  lemma NewestSequence(db: Db, op: Op)
    requires Inv(db) && op.CaptureOp? && Next(db, op) != db && !op.preserve
    ensures var k, after := Key(op.scope, op.envelope.actionId), Next(db, op);
      k in after.pending && forall l | l in KeysIn(db.pending, op.scope) :: db.pending[l].sequence < after.pending[k].sequence
  {
    var k, after := Key(op.scope, op.envelope.actionId), Next(db, op);
    FreshIsLast(db, op);
    StepKeepsInv(db, op);
    assert EffectFits(after, k);
    forall l | l in KeysIn(db.pending, op.scope) ensures db.pending[l].sequence < after.pending[k].sequence {
      assert EffectFits(db, l);
    }
  }

  lemma LastOfRoundIsLatest(db: Db, round: RoundKey)
    requires KeysIn(db.pending, round.scope) == RoundSet(db.pending, round) && RoundKeys(db, round) != []
    ensures var last := RoundKeys(db, round)[|RoundKeys(db, round)| - 1]; last.scope == round.scope && LatestPending(db, last)
  {
    var keys := RoundKeys(db, round);
    var last := keys[|keys| - 1];
    assert last in keys;
    RoundAscends(db, round);
    forall l | l in db.pending && l.scope == last.scope ensures db.pending[l].sequence <= db.pending[last].sequence {
      assert l in KeysIn(db.pending, round.scope);
      assert l in keys;
    }
  }

  lemma IntoComesLast(db: Db, op: Op, d: Download)
    requires Inv(db) && InUse(db, d) && Into(op, RoundOfDownload(d)) && Next(db, op) != db && (op.continuation ==> !op.preserve)
    ensures RoundKeys(Next(db, op), RoundOfDownload(d)) == RoundKeys(db, RoundOfDownload(d)) + [Key(op.scope, op.envelope.actionId)]
  {
    IntoFindsRoundAlone(db, op, d);
    CaptureAppends(db, op);
    if op.continuation {
      NewestSequence(db, op);
    }
    AddedLast(db, Next(db, op), RoundOfDownload(d), Key(op.scope, op.envelope.actionId));
  }

  /** A fresh capture depends on whatever pending action comes last in its scope. */
  lemma FollowsLatest(db: Db, op: Op, l: Key)
    requires Inv(db) && op.CaptureOp? && !op.preserve && Next(db, op) != db && LatestPending(db, l) && l.scope == op.scope
    ensures Follows(Next(db, op), l, Key(op.scope, op.envelope.actionId))
  {
    FreshIsLast(db, op);
  }

  lemma IntoFollows(db: Db, op: Op, d: Download)
    requires Inv(db) && InUse(db, d) && Into(op, RoundOfDownload(d)) && Next(db, op) != db && (op.continuation ==> !op.preserve)
    requires RoundKeys(db, RoundOfDownload(d)) != []
    ensures var keys := RoundKeys(db, RoundOfDownload(d));
      Follows(Next(db, op), keys[|keys| - 1], Key(op.scope, op.envelope.actionId))
  {
    var keys := RoundKeys(db, RoundOfDownload(d));
    IntoFindsRoundAlone(db, op, d);
    LastOfRoundIsLatest(db, RoundOfDownload(d));
    FollowsLatest(db, op, keys[|keys| - 1]);
  }

  /** `after` has one more overlay of the round, behind the others and chained to the last of them. */
  ghost predicate Extended(db: Db, after: Db, round: RoundKey, k: Key) {
    var keys := RoundKeys(db, round);
    && Appended(db, after, k) && RoundKeys(after, round) == keys + [k] && Alone(after, round)
    && (keys != [] ==> Follows(after, keys[|keys| - 1], k))
  }

  lemma IntoExtends(db: Db, op: Op, d: Download)
    requires Inv(db) && InUse(db, d) && Into(op, RoundOfDownload(d)) && Next(db, op) != db && (op.continuation ==> !op.preserve)
    ensures Extended(db, Next(db, op), RoundOfDownload(d), Key(op.scope, op.envelope.actionId))
  {
    CaptureAppends(db, op);
    IntoIsAlone(db, op, d);
    IntoComesLast(db, op, d);
    if RoundKeys(db, RoundOfDownload(d)) != [] {
      IntoFollows(db, op, d);
    }
  }

  lemma ChainedNext(db: Db, keys: seq<Key>, k: Key)
    requires Chained(db, keys) && (keys != [] ==> Follows(db, keys[|keys| - 1], k))
    ensures Chained(db, keys + [k])
  {}

  lemma ExtendedIsChained(db: Db, after: Db, round: RoundKey, k: Key)
    requires Effects(db) && Chained(db, RoundKeys(db, round)) && Extended(db, after, round, k)
    ensures Chained(after, RoundKeys(after, round))
  {
    var keys := RoundKeys(db, round);
    AppendedKeepsActions(db, after, round, k);
    SameChain(db, after, round.scope, keys);
    ChainedNext(after, keys, k);
  }

  lemma ExtendedIsLive(db: Db, after: Db, d: Download, k: Key)
    requires Live(db, d) && Inv(after) && DownloadsFit(after) && InUse(after, d)
    requires Extended(db, after, RoundOfDownload(d), k) && Advance(Shown(db, d).value, after.actions[k].envelope).Ok?
    ensures Live(after, d)
    ensures Shown(after, d) ==
      if k in Leading(after, RoundOfDownload(d)) then Advance(Shown(db, d).value, after.actions[k].envelope) else Shown(db, d)
  {
    ExtendedIsChained(db, after, RoundOfDownload(d), k);
    ShownNext(db, after, d, k);
  }

  /** Filling an envelope in changes nothing that the projection looks at. */
  lemma EnrichedAdvancesAlike(s: Current, e: Envelope, sequence: int, prior: Option<Id>)
    requires e.context.Device?
    ensures Objection(s, Enriched(e, sequence, prior)) == Objection(s, e)
    ensures Supported(Enriched(e, sequence, prior)) == Supported(e)
  {}

  lemma RecordedAdvancesAlike(db: Db, op: Op, s: Current)
    requires op.CaptureOp? && op.envelope.context.Device?
    ensures var e := Recorded(db, op.scope, op.envelope, op.preserve);
      && Objection(s, e) == Objection(s, op.envelope) && Supported(e) == Supported(op.envelope)
      && e.operation == op.envelope.operation
  {
    var effects := PendingIn(db.pending, op.scope);
    var prior := if effects == [] then None else Some(effects[|effects| - 1].id);
    EnrichedAdvancesAlike(s, op.envelope, NextSequence(db, op.scope, op.envelope, op.preserve), prior);
  }

  /** The stored envelope carries on from the shown state whenever the given one did. */
  lemma IntoAdvances(db: Db, op: Op, d: Download, state: Current)
    requires Live(db, d) && Into(op, RoundOfDownload(d)) && Next(db, op) != db && Allowed(op, RoundOfDownload(d))
    requires Shown(db, d) == Ok(state)
    ensures op.envelope.context.Device? && Advance(state, Recorded(db, op.scope, op.envelope, op.preserve)).Ok?
  {
    CaptureShape(db, op);
    if op.continuation {
      IntoHasTrip(op, d);
      CaptureWasAdmitted(db, op);
      PreviewIsShown(db, d);
      assert Objection(state, op.envelope).None?;
    }
    RecordedAdvancesAlike(db, op, state);
  }

  /** Such a capture appends one overlay, the last of its round, which the preview can take. */
  lemma CaptureExtends(db: Db, op: Op, d: Download, k: Key, after: Db)
    requires Live(db, d) && Into(op, RoundOfDownload(d)) && Allowed(op, RoundOfDownload(d))
    requires k == Key(op.scope, op.envelope.actionId) && after == Next(db, op) && after != db
    ensures Extended(db, after, RoundOfDownload(d), k) && Advance(Shown(db, d).value, after.actions[k].envelope).Ok?
  {
    CaptureAppends(db, op);
    IntoExtends(db, op, d);
    IntoAdvances(db, op, d, Shown(db, d).value);
  }

  lemma CaptureInto(db: Db, op: Op, d: Download, k: Key, after: Db)
    requires Live(db, d) && Into(op, RoundOfDownload(d)) && Allowed(op, RoundOfDownload(d))
    requires k == Key(op.scope, op.envelope.actionId) && after == Next(db, op) && after != db
    ensures Live(after, d) && k in after.actions
    ensures Shown(after, d) ==
      if k in Leading(after, RoundOfDownload(d)) then Advance(Shown(db, d).value, after.actions[k].envelope) else Shown(db, d)
  {
    StepKeepsInv(db, op);
    DownloadStays(db, op, d);
    CaptureExtends(db, op, d, k, after);
    ExtendedIsLive(db, after, d, k);
  }

  // ----- Receipts -----

  lemma PrefixProjects(base: Current, commands: seq<Envelope>, fewer: seq<Envelope>)
    requires Project(base, commands).Ok? && fewer <= commands
    ensures Project(base, fewer).Ok?
  {
    ProjectPrefix(base, commands, |fewer|);
    assert commands[..|fewer|] == fewer;
  }

  /** What is shown can only shrink when verdicts arrive and the first held-back place moves forward. */
  lemma ShownOfLess(db: Db, after: Db, base: Current, keys: seq<Key>, kept: seq<Key>, m: nat, n: nat)
    requires SameActions(db, after, keys) && n == FirstRefusing(db, keys) && m == FirstRefusing(after, kept)
    requires ShownOf(db, base, keys).Ok? && m <= n && kept[..m] == keys[..m]
    ensures ShownOf(after, base, kept).Ok?
  {
    assert forall k | k in keys[..m] :: k in keys;
    SameEnvelopes(db, after, keys[..m]);
    assert keys[..n][..m] == keys[..m];
    EnvelopesPrefix(db, keys[..n], m);
    PrefixProjects(base, Envelopes(db, keys[..n]), Envelopes(db, keys[..m]));
  }

  lemma VerdictsComeEarlier(db: Db, after: Db, keys: seq<Key>, scope: Scope)
    requires SameActions(db, after, keys) && MoreVerdicts(db, after, scope) && forall k | k in keys :: k.scope == scope
    ensures FirstRefusing(after, keys) <= FirstRefusing(db, keys)
  {
    var m := FirstRefusing(db, keys);
    if m < |keys| {
      assert keys[m] in keys;
      StillRefusing(db, after, keys[m]);
    }
  }

  lemma DeclinedHoldsNext(db: Db, after: Db, a: Key, b: Key)
    requires Follows(db, a, b) && b in db.actions && b in after.actions && after.actions[b] == db.actions[b]
    requires a.scope == b.scope && MoreVerdicts(db, after, b.scope) && Declined(after, a)
    ensures Refusing(after, b)
  {
    if Refusing(db, b) {
      StillRefusing(db, after, b);
    } else {
      assert Declined(after, Key(b.scope, a.id));
      RefusingMeans(after, b);
    }
  }

  /** Without the declined overlay the list stays chained, and nothing behind its place is shown. */
  lemma DeclinedLeaves(db: Db, after: Db, scope: Scope, keys: seq<Key>, i: nat)
    requires i < |keys| && SameActions(db, after, keys) && MoreVerdicts(db, after, scope) && forall k | k in keys :: k.scope == scope
    requires Chained(db, keys) && Declined(after, keys[i])
    ensures var kept := keys[..i] + keys[i + 1..];
      Chained(after, kept) && FirstRefusing(after, kept) <= i && FirstRefusing(after, kept) <= FirstRefusing(db, keys)
  {
    var kept, m := keys[..i] + keys[i + 1..], FirstRefusing(db, keys);
    assert forall j | 0 <= j < |keys| :: keys[j] in keys;
    SameChain(db, after, scope, keys);
    if i + 1 < |keys| {
      assert Follows(db, keys[i], keys[i + 1]);
      DeclinedHoldsNext(db, after, keys[i], keys[i + 1]);
      assert kept[i] == keys[i + 1];
    }
    if m < i {
      StillRefusing(db, after, keys[m]);
      assert kept[m] == keys[m];
    }
    forall j, l | 0 <= j < l < |kept| && l == j + 1 ensures Follows(after, kept[j], kept[l]) {
      if l < i {
        assert Follows(after, keys[j], keys[l]);
      } else if l > i {
        assert Follows(after, keys[j + 1], keys[l + 1]);
      }
    }
  }

  /** A stored receipt: everything else of the journal is as before, but for the overlay it may end. */
  ghost predicate Receipted(db: Db, after: Db, k: Key) {
    && after.actions == db.actions && k in db.actions && k in after.acks && after.acks == db.acks[k := after.acks[k]]
    && (k in db.acks ==> after.acks[k].receipt == db.acks[k].receipt)
    && after.pending == if Declined(after, k) || !Offline(db.actions[k].envelope.operation) then db.pending - {k} else db.pending
  }

  lemma AcknowledgeReceipts(db: Db, op: Op)
    requires op.AcknowledgeOp? && Next(db, op) != db
    ensures Receipted(db, Next(db, op), Key(op.owner, op.result.receipt.actionId))
  {
    assert Matches(db, op.owner, op.result);
  }

  lemma ReceiptedVerdicts(db: Db, after: Db, k: Key, scope: Scope)
    requires Receipted(db, after, k)
    ensures MoreVerdicts(db, after, scope)
    ensures !Declined(after, k) || k.scope != scope ==> SameVerdicts(db, after, scope)
  {}

  lemma ReceiptedActions(db: Db, after: Db, k: Key, round: RoundKey)
    requires Effects(db) && Receipted(db, after, k)
    ensures SameActions(db, after, RoundKeys(db, round)) && forall l | l in RoundKeys(db, round) :: l.scope == round.scope
  {
    forall l | l in RoundKeys(db, round) ensures l in db.actions && l.scope == round.scope {
      assert l in RoundSet(db.pending, round);
      assert EffectFits(db, l);
    }
  }

  lemma ReceiptKeepsAlone(db: Db, after: Db, k: Key, round: RoundKey)
    requires Receipted(db, after, k) && Alone(db, round)
    ensures Alone(after, round)
  {
    assert forall l | l in KeysIn(after.pending, round.scope) :: l in KeysIn(db.pending, round.scope);
    assert forall l | l in RoundSet(after.pending, round) :: l in RoundSet(db.pending, round);
  }

  /** A receipt that leaves the overlays of the round as they are. */
  lemma ReceiptBeside(db: Db, after: Db, k: Key, d: Download)
    requires Effects(db) && Chained(db, RoundKeys(db, RoundOfDownload(d))) && Shown(db, d).Ok? && Receipted(db, after, k)
    requires k in RoundSet(db.pending, RoundOfDownload(d)) ==> after.pending == db.pending
    ensures Chained(after, RoundKeys(after, RoundOfDownload(d))) && Shown(after, d).Ok?
  {
    var round := RoundOfDownload(d);
    assert RoundSet(after.pending, round) == RoundSet(db.pending, round);
    SameRound(db, after, round);
    ReceiptedActions(db, after, k, round);
    ReceiptedVerdicts(db, after, k, round.scope);
    KeysKeepShown(db, after, d.current, round.scope, RoundKeys(db, round));
  }

  lemma KeysKeepShown(db: Db, after: Db, base: Current, scope: Scope, keys: seq<Key>)
    requires SameActions(db, after, keys) && MoreVerdicts(db, after, scope) && forall k | k in keys :: k.scope == scope
    requires Chained(db, keys) && ShownOf(db, base, keys).Ok?
    ensures Chained(after, keys) && ShownOf(after, base, keys).Ok?
  {
    SameChain(db, after, scope, keys);
    VerdictsComeEarlier(db, after, keys, scope);
    ShownOfLess(db, after, base, keys, keys, FirstRefusing(after, keys), FirstRefusing(db, keys));
  }

  lemma FewerKeysKeepShown(db: Db, after: Db, base: Current, scope: Scope, keys: seq<Key>, i: nat)
    requires i < |keys| && SameActions(db, after, keys) && MoreVerdicts(db, after, scope) && forall k | k in keys :: k.scope == scope
    requires Chained(db, keys) && ShownOf(db, base, keys).Ok? && Declined(after, keys[i])
    ensures Chained(after, keys[..i] + keys[i + 1..]) && ShownOf(after, base, keys[..i] + keys[i + 1..]).Ok?
  {
    var kept := keys[..i] + keys[i + 1..];
    var m := FirstRefusing(after, kept);
    DeclinedLeaves(db, after, scope, keys, i);
    assert kept[..m] == keys[..m];
    ShownOfLess(db, after, base, keys, kept, m, FirstRefusing(db, keys));
  }

  lemma ReceiptDeclined(db: Db, after: Db, k: Key, d: Download)
    requires Effects(db) && Chained(db, RoundKeys(db, RoundOfDownload(d))) && Shown(db, d).Ok? && Receipted(db, after, k)
    requires Declined(after, k) && k in RoundSet(db.pending, RoundOfDownload(d))
    ensures Chained(after, RoundKeys(after, RoundOfDownload(d))) && Shown(after, d).Ok?
  {
    var round := RoundOfDownload(d);
    var keys := RoundKeys(db, round);
    assert k in keys;
    var i :| 0 <= i < |keys| && keys[i] == k;
    Removed(db, after, round, i);
    ReceiptedActions(db, after, k, round);
    ReceiptedVerdicts(db, after, k, round.scope);
    FewerKeysKeepShown(db, after, d.current, round.scope, keys, i);
  }

  /** An accepted action that is no offline work was alone. */
  lemma ReceiptOnline(db: Db, after: Db, k: Key, d: Download)
    requires Live(db, d) && Receipted(db, after, k) && k in RoundSet(db.pending, RoundOfDownload(d))
    requires !Offline(db.actions[k].envelope.operation)
    ensures Chained(after, RoundKeys(after, RoundOfDownload(d))) && Shown(after, d).Ok?
  {
    var round := RoundOfDownload(d);
    assert EffectFits(db, k);
    assert RoundSet(after.pending, round) == {} by {
      assert forall l | l in RoundSet(db.pending, round) :: l in KeysIn(db.pending, round.scope);
    }
    OnlyListing(after, round, []);
  }

  lemma ReceiptKeepsPreview(db: Db, after: Db, k: Key, d: Download)
    requires Live(db, d) && Receipted(db, after, k)
    ensures Chained(after, RoundKeys(after, RoundOfDownload(d))) && Shown(after, d).Ok?
  {
    if k !in RoundSet(db.pending, RoundOfDownload(d)) || after.pending == db.pending {
      ReceiptBeside(db, after, k, d);
    } else if Declined(after, k) {
      ReceiptDeclined(db, after, k, d);
    } else {
      ReceiptOnline(db, after, k, d);
    }
  }

  lemma ReceiptKeepsLive(db: Db, op: Op, d: Download)
    requires Live(db, d) && op.AcknowledgeOp?
    ensures Live(Next(db, op), d)
  {
    if Next(db, op) != db {
      var k := Key(op.owner, op.result.receipt.actionId);
      StepKeepsInv(db, op);
      DownloadStays(db, op, d);
      AcknowledgeReceipts(db, op);
      ReceiptKeepsAlone(db, Next(db, op), k, RoundOfDownload(d));
      ReceiptKeepsPreview(db, Next(db, op), k, d);
    }
  }

  // ----- Runs -----

  lemma StepKeepsLive(db: Db, op: Op, d: Download)
    requires Live(db, d) && Allowed(op, RoundOfDownload(d))
    ensures Live(Next(db, op), d)
  {
    if op.AcknowledgeOp? {
      ReceiptKeepsLive(db, op, d);
    } else if !op.CaptureOp? {
      QuietStep(db, op, d);
    } else if !Into(op, RoundOfDownload(d)) {
      CaptureElsewhere(db, op, d);
    } else if Next(db, op) != db {
      CaptureInto(db, op, d, Key(op.scope, op.envelope.actionId), Next(db, op));
    }
  }

  predicate AllAllowed(ops: seq<Op>, round: RoundKey) {
    forall i | 0 <= i < |ops| :: Allowed(ops[i], round)
  }

  lemma {:induction false} RunKeepsLive(db: Db, ops: seq<Op>, d: Download)
    requires Live(db, d) && AllAllowed(ops, RoundOfDownload(d))
    ensures Live(Run(db, ops), d)
    decreases |ops|
  {
    if ops != [] {
      RunKeepsLive(db, ops[..|ops| - 1], d);
      StepKeepsLive(Run(db, ops[..|ops| - 1]), ops[|ops| - 1], d);
    }
  }

  lemma {:induction false} RunKeepsDownloads(db: Db, ops: seq<Op>)
    requires DownloadsFit(db)
    ensures DownloadsFit(Run(db, ops))
    decreases |ops|
  {
    if ops != [] {
      var before, op := Run(db, ops[..|ops| - 1]), ops[|ops| - 1];
      RunKeepsDownloads(db, ops[..|ops| - 1]);
      StepKeepsDownloads(before, op);
    }
  }

  lemma StepKeepsDownloads(db: Db, op: Op)
    requires DownloadsFit(db)
    ensures DownloadsFit(Next(db, op))
  {
    if op.CaptureOp? {
      CaptureShape(db, op);
    }
  }

  /** The journal after a run, a download of the round, and nothing pending for it. */
  ghost predicate JustDownloaded(db: Db, before: seq<Op>, d: Download) {
    && SaveDownload(Run(EmptyDb, before), d) == Ok(db) && d.roundId != "" && d.roundId != "undefined"
    && RoundSet(db.pending, RoundOfDownload(d)) == {}
  }

  lemma DownloadIsLive(db: Db, before: seq<Op>, d: Download)
    requires JustDownloaded(db, before, d)
    ensures Live(db, d)
  {
    RunKeepsInv(EmptyDb, before);
    RunKeepsDownloads(EmptyDb, before);
    assert db == Next(Run(EmptyDb, before), DownloadOp(d));
    StepKeepsInv(Run(EmptyDb, before), DownloadOp(d));
    StepKeepsDownloads(Run(EmptyDb, before), DownloadOp(d));
    OnlyListing(db, RoundOfDownload(d), []);
  }

  /** Whatever is captured and whatever the server answers, the preview of the download never fails. */
  lemma PreviewNeverFails(db: Db, before: seq<Op>, d: Download, ops: seq<Op>)
    requires JustDownloaded(db, before, d) && AllAllowed(ops, RoundOfDownload(d))
    requires Selected(Run(db, ops), d.scope)
    ensures Preview(Run(db, ops), d).Ok?
  {
    DownloadIsLive(db, before, d);
    RunKeepsLive(db, ops, d);
    PreviewIsShown(Run(db, ops), d);
  }
}
