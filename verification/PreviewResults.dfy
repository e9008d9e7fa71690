/** What one capture does to the preview, and why work outside the continuation is excluded. */
module PreviewResults {
  import opened Wrappers
  import opened LocalCommands
  import opened LocalWork
  import opened LocalEvidence
  import opened PreviewValidity
  import opened PreviewRuns

  /** Some overlay of the round waits behind a predecessor that was not accepted. */
  ghost predicate Held(db: Db, round: RoundKey) {
    exists k :: k in RoundSet(db.pending, round) && Refusing(db, k)
  }

  lemma HeldMeans(db: Db, round: RoundKey)
    ensures Held(db, round) <==> FirstRefusing(db, RoundKeys(db, round)) < |RoundKeys(db, round)|
  {
    var keys := RoundKeys(db, round);
    var m := FirstRefusing(db, keys);
    if m < |keys| {
      assert keys[m] in keys;
    } else {
      forall k | k in RoundSet(db.pending, round) ensures !Refusing(db, k) {
        assert k in keys;
      }
    }
  }

  lemma CaptureKeepsSelected(db: Db, op: Op)
    requires op.CaptureOp? && Next(db, op) != db
    ensures Selected(db, op.scope) && Selected(Next(db, op), op.scope)
  {
    CaptureShape(db, op);
  }

  lemma LastLeadsUnlessHeld(db: Db, after: Db, round: RoundKey, k: Key)
    requires Effects(db) && Extended(db, after, round, k)
    ensures k in Leading(after, round) <==> !Held(after, round)
  {
    AppendedKeepsActions(db, after, round, k);
    HeldMeans(after, round);
    LastLeads(RoundKeys(db, round), k, FirstRefusing(after, RoundKeys(after, round)));
  }

  lemma LiveCaptureExtends(db: Db, d: Download, op: Op, after: Db, k: Key)
    requires Live(db, d) && Into(op, RoundOfDownload(d)) && Allowed(op, RoundOfDownload(d))
    requires after == Next(db, op) && after != db && k == Key(op.scope, op.envelope.actionId)
    ensures Preview(db, d).Ok? && Preview(after, d).Ok? && k in after.actions
    ensures if Held(after, RoundOfDownload(d)) then Preview(after, d) == Preview(db, d)
      else Advance(Preview(db, d).value, after.actions[k].envelope) == Ok(Preview(after, d).value)
  {
    CaptureKeepsSelected(db, op);
    PreviewIsShown(db, d);
    CaptureInto(db, op, d, k, after);
    PreviewIsShown(after, d);
    IntoExtends(db, op, d);
    LastLeadsUnlessHeld(db, after, RoundOfDownload(d), k);
  }

  /** With nothing held back a capture extends the preview by exactly its own step; otherwise it
      leaves the preview as it is. */
  lemma CaptureExtendsPreview(db: Db, before: seq<Op>, d: Download, ops: seq<Op>, op: Op)
    requires JustDownloaded(db, before, d) && AllAllowed(ops, RoundOfDownload(d)) && Allowed(op, RoundOfDownload(d))
    requires Into(op, RoundOfDownload(d)) && Next(Run(db, ops), op) != Run(db, ops)
    ensures var here, k := Run(db, ops), Key(op.scope, op.envelope.actionId);
      var after := Next(here, op);
      && Preview(here, d).Ok? && Preview(after, d).Ok? && k in after.actions
      && if Held(after, RoundOfDownload(d)) then Preview(after, d) == Preview(here, d)
         else Advance(Preview(here, d).value, after.actions[k].envelope) == Ok(Preview(after, d).value)
  {
    DownloadIsLive(db, before, d);
    RunKeepsLive(db, ops, d);
    LiveCaptureExtends(Run(db, ops), d, op, Next(Run(db, ops), op), Key(op.scope, op.envelope.actionId));
  }

  // ----- Actions recorded outside the continuation -----

  lemma RecordedIsHeldAlike(db: Db, op: Op, after: Db, k: Key)
    requires op.CaptureOp? && !op.continuation && after == Next(db, op) && after != db && k == Key(op.scope, op.envelope.actionId)
    ensures Refusing(after, k) <==> HeldBack(db, op.scope, op.envelope, {})
  {
    CaptureWasAdmitted(db, op);
    CaptureAppends(db, op);
    LastPendingIsLatest(db, op.scope);
    CapturedAsGiven(db, op);
    var stored := after.actions[k].envelope;
    assert forall id :: id in stored.dependsOn <==> id in op.envelope.dependsOn;
    RefusingMeans(after, k);
    if HeldBack(db, op.scope, op.envelope, {}) {
      var id :| id in op.envelope.dependsOn && Key(op.scope, id) in db.acks && !db.acks[Key(op.scope, id)].receipt.business.Accepted?;
      assert Declined(after, Key(k.scope, id));
    }
  }

  /** Outside the continuation nothing is checked against the round, for fresh actions and for imports
      alike: the preview then stands exactly when the action waits behind a refused predecessor, is no
      offline work, or happens to fit the confirmed state. */
  lemma UncheckedCapture(db: Db, d: Download, op: Op, after: Db)
    requires Inv(db) && InUse(db, d) && Into(op, RoundOfDownload(d)) && !op.continuation
    requires after == Next(db, op) && after != db
    ensures Preview(after, d).Ok? <==>
      HeldBack(db, op.scope, op.envelope, {}) || !Offline(op.envelope.operation) || Objection(d.current, op.envelope).None?
  {
    var round, k := RoundOfDownload(d), Key(op.scope, op.envelope.actionId);
    CaptureKeepsSelected(db, op);
    CaptureAppends(db, op);
    IntoFindsRoundAlone(db, op, d);
    OnlyListing(db, round, []);
    IntoComesLast(db, op, d);
    StepKeepsInv(db, op);
    PreviewIsShown(after, d);
    ShownOfMore(db, after, d.current, d.scope, [], k);
    FirstRefusingAfter(db, after, d.scope, [], k);
    RecordedAdvancesAlike(db, op, d.current);
    RecordedIsHeldAlike(db, op, after, k);
    CaptureShape(db, op);
  }

  const SAMPLE_SCOPE := Scope(Personal, 1, 2, 3)
  const SAMPLE_SESSION := Session(Personal, 1, 2, Some(4), true, 9)
  const SAMPLE_OWNER := Owner(2, 3, 1)
  const SAMPLE_CURRENT :=
    Current("round", 4, SAMPLE_OWNER, None, 0, false, None, [Target(7, 8, 0, 0, 0, {Full, Refusal})], None)
  const SAMPLE_DOWNLOAD := Download(
    SAMPLE_SCOPE, "round", 1, 0, SAMPLE_SESSION, Ownership("round", 4, true, true, true, SAMPLE_OWNER, 3, false), "",
    SAMPLE_CURRENT, "round", None, None)
  const SAMPLE_ARRIVAL := Envelope(
    5, RecordArrival, V1, V1, Device(1, 2, 3, 1, 1), [], Some("round"), Some(7),
    Payload(Some(7), Some(8), Some(0), Some(None), Some(0), Some(0), Some(0)), BaseVersions(None, None, None, None, None), 0)

  function SampleRun(): seq<Op> {
    [SelectOp(SAMPLE_SESSION, 3), DownloadOp(SAMPLE_DOWNLOAD)]
  }

  lemma HasMember<T>(xs: seq<T>)
    ensures xs != [] ==> exists x :: x in xs
  {
    if xs != [] {
      assert xs[0] in xs;
    }
  }

  const SAMPLE_OPENED := EmptyDb.(
    partitions := map[SAMPLE_SCOPE := Partition(SAMPLE_SESSION, false, None)], selection := Some(Selection(SAMPLE_SCOPE, false)))

  lemma SampleOpens()
    ensures Next(EmptyDb, SelectOp(SAMPLE_SESSION, 3)) == SAMPLE_OPENED
  {}

  /** What the sample run leaves: an open account with one download and nothing recorded. */
  lemma SampleSaves()
    ensures SaveDownload(SAMPLE_OPENED, SAMPLE_DOWNLOAD) ==
      Ok(SAMPLE_OPENED.(downloads := map[RoundOfDownload(SAMPLE_DOWNLOAD) := SAMPLE_DOWNLOAD]))
  {
    assert Selected(SAMPLE_OPENED, SAMPLE_SCOPE);
  }

  lemma SampleRuns()
    ensures Run(EmptyDb, SampleRun()[..1]) == SAMPLE_OPENED
    ensures Run(EmptyDb, SampleRun()) == SAMPLE_OPENED.(downloads := map[RoundOfDownload(SAMPLE_DOWNLOAD) := SAMPLE_DOWNLOAD])
  {
    var first := SampleRun()[..1];
    assert first == [SelectOp(SAMPLE_SESSION, 3)] && first[..0] == [];
    SampleOpens();
    SampleSaves();
    assert Run(EmptyDb, SampleRun()) == Next(Run(EmptyDb, first), DownloadOp(SAMPLE_DOWNLOAD));
  }

  lemma SampleReaches(db: Db)
    requires db == Run(EmptyDb, SampleRun())
    ensures Inv(db) && Selected(db, SAMPLE_SCOPE) && InUse(db, SAMPLE_DOWNLOAD)
    ensures db.actions == map[] && db.pending == map[] && db.acks == map[] && db.counters == map[]
  {
    RunKeepsInv(EmptyDb, SampleRun());
    SampleRuns();
  }

  /** The sample journal is one from which the preview never fails as long as its download stays. */
  lemma SampleIsDownloaded()
    ensures JustDownloaded(Run(EmptyDb, SampleRun()), SampleRun()[..1], SAMPLE_DOWNLOAD)
  {
    SampleRuns();
    SampleSaves();
  }

  /** An arrival without a heading, recorded outside the continuation, is stored; after that the
      preview of the round fails. */
  lemma UncheckedCaptureCanFail()
    ensures var db, op := Run(EmptyDb, SampleRun()), CaptureOp(SAMPLE_SCOPE, SAMPLE_ARRIVAL, "", false, false);
      Next(db, op) != db && Preview(db, SAMPLE_DOWNLOAD).Ok? && Preview(Next(db, op), SAMPLE_DOWNLOAD).Err?
  {
    var db, op := Run(EmptyDb, SampleRun()), CaptureOp(SAMPLE_SCOPE, SAMPLE_ARRIVAL, "", false, false);
    SampleReaches(db);
    var after, k := Next(db, op), Key(SAMPLE_SCOPE, 5);
    assert PendingIn(db.pending, SAMPLE_SCOPE) == [] by {
      assert forall l :: l !in KeysIn(db.pending, SAMPLE_SCOPE);
      HasMember(PendingIn(db.pending, SAMPLE_SCOPE));
    }
    assert k in after.actions;
    CaptureAppends(db, op);
    RefusingMeans(after, k);
    assert Objection(SAMPLE_CURRENT, SAMPLE_ARRIVAL) == Some(HeadingFirst);
    UncheckedCapture(db, SAMPLE_DOWNLOAD, op, after);
    OnlyListing(db, RoundOfDownload(SAMPLE_DOWNLOAD), []);
    PreviewIsShown(db, SAMPLE_DOWNLOAD);
  }
}
