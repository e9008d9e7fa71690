/** The journal as an object: every method is one transaction over its tables. */
module LocalStore {
  import opened Wrappers
  import opened LocalCommands
  import opened LocalWork

  /** A transaction with specification `spec` either took place or changed nothing. */
  ghost predicate Committed<V>(before: Db, after: Db, spec: Result<Db, Problem>, r: Result<V, Problem>) {
    match spec
    case Ok(db) => r.Ok? && after == db
    case Err(problem) => r == Err(problem) && after == before
  }

  class LocalStore {
    var partitions: map<Scope, Partition>
    var selection: Option<Selection>
    var downloads: map<RoundKey, Download>
    var actions: map<Key, Action>
    var pending: map<Key, Effect>
    var acknowledgements: map<Key, ActionResult>
    var counters: map<Scope, int>

    function Data(): Db
      reads this
    {
      Db(partitions, selection, downloads, actions, pending, acknowledgements, counters)
    }

    constructor ()
      ensures Data() == EmptyDb
    {
      partitions, selection, downloads := map[], None, map[];
      actions, pending, acknowledgements, counters := map[], map[], map[], map[];
    }

    /** The transactions of other tabs that take place while this one waits. */
    method Elsewhere(ops: seq<Op>)
      modifies this
      ensures Data() == Run(old(Data()), ops)
    {
      var db := Run(Data(), ops);
      partitions, selection, downloads := db.partitions, db.selection, db.downloads;
      actions, pending, acknowledgements, counters := db.actions, db.pending, db.acks, db.counters;
    }

    method SelectAccount(session: Session, deviceId: Id) returns (r: Result<Scope, Problem>)
      modifies this
      ensures Committed(old(Data()), Data(), Select(old(Data()), session, deviceId), r)
      ensures r.Ok? ==> r.value == SessionScope(session, deviceId)
    {
      var scope := SessionScope(session, deviceId);
      var previous := selection;
      var ended := if scope in partitions then partitions[scope].endedSession else None;
      if (previous.Some? && previous.value.exiting) || ended == Some(session.expiresAt) {
        return Err(FinishExitFirst);
      }
      if previous.Some? && previous.value.scope != scope {
        var missing := UnreceivedWork(previous.value.scope);
        if missing != {} {
          return Err(OtherAccountHasWork);
        }
        return Err(SignOutFirst);
      }
      partitions := partitions[scope := Partition(session, false, ended)];
      selection := Some(Selection(scope, false));
      r := Ok(scope);
    }

    method AssertSelected(scope: Scope) returns (available: bool)
      ensures available == Selected(Data(), scope)
    {
      available := selection.Some? && selection.value.scope == scope && !selection.value.exiting
        && scope in partitions && !partitions[scope].blocked;
    }

    method Block()
      modifies this
      ensures Data() == BlockSelected(old(Data()))
    {
      if selection.Some? && selection.value.scope in partitions {
        var scope := selection.value.scope;
        partitions := partitions[scope := partitions[scope].(blocked := true)];
      }
    }

    /** Looks the receipt of every action and every overlay of the account up. */
    method UnreceivedWork(scope: Scope) returns (missing: set<Key>)
      ensures missing == UnreceivedIn(Data(), scope)
    {
      var candidates := set k | k in actions.Keys + pending.Keys && k.scope == scope;
      missing := {};
      while candidates != {}
        invariant candidates <= set k | k in actions.Keys + pending.Keys && k.scope == scope
        invariant missing == UnreceivedIn(Data(), scope) - candidates
        decreases |candidates|
      {
        var k :| k in candidates;
        if k !in acknowledgements || !acknowledgements[k].receipt.evidenceReceived {
          missing := missing + {k};
        }
        candidates := candidates - {k};
      }
    }

    method Prepare() returns (r: Result<Option<Scope>, Problem>)
      modifies this
      ensures Committed(old(Data()), Data(), PrepareExit(old(Data())), r)
      ensures r.Ok? && selection.Some? ==> r.value == Some(selection.value.scope)
      ensures r.Ok? && selection.None? ==> r.value.None?
    {
      if selection.None? {
        return Ok(None);
      }
      var scope := selection.value.scope;
      var missing := UnreceivedWork(scope);
      if missing != {} {
        return Err(Unsynchronized);
      }
      if scope in partitions {
        var p := partitions[scope];
        partitions := partitions[scope := p.(blocked := true, endedSession := Some(p.session.expiresAt))];
      }
      selection := Some(Selection(scope, true));
      r := Ok(Some(scope));
    }

    method Finish(scope: Option<Scope>) returns (r: Result<(), Problem>)
      modifies this
      ensures Committed(old(Data()), Data(), FinishExit(old(Data()), scope), r)
    {
      if selection.Some? && (Some(selection.value.scope) != scope || !selection.value.exiting) {
        return Err(AccountChanged);
      }
      selection := None;
      r := Ok(());
    }

    /** Takes away the round's overlays whose accepted work the revision covers. */
    method DropCovered(round: RoundKey, revision: int)
      modifies `pending
      ensures var before := old(Data());
        pending == map k | k in before.pending && !(OfRound(before, k, round) && Covered(before, k, revision)) :: before.pending[k]
    {
      ghost var before := Data();
      var effects := set k | k in pending && k.scope == round.scope && pending[k].roundId == round.roundId;
      while effects != {}
        invariant forall k | k in effects :: OfRound(before, k, round) && k in pending
        invariant pending == map k | k in before.pending
          && (k in effects || !(OfRound(before, k, round) && Covered(before, k, revision))) :: before.pending[k]
        decreases |effects|
      {
        var k :| k in effects;
        effects := effects - {k};
        if k in acknowledgements && acknowledgements[k].receipt.business.Accepted? {
          var effective := acknowledgements[k].receipt.revision;
          if effective.Some? && revision >= effective.value {
            pending := pending - {k};
          }
        }
      }
    }

    method Save(value: Download) returns (r: Result<(), Problem>)
      modifies this
      ensures Committed(old(Data()), Data(), SaveDownload(old(Data()), value), r)
    {
      var available := AssertSelected(value.scope);
      if !available {
        return Err(AccountUnavailable);
      }
      if !Owned(value) {
        return Err(NotOwned);
      }
      var round := RoundKey(value.scope, value.roundId);
      if round in downloads && Newer(downloads[round].current, value.current) {
        return Err(OlderDownload);
      }
      downloads := downloads[round := value];
      DropCovered(round, value.current.revision);
      r := Ok(());
    }

    method Retire(round: RoundKey) returns (r: Result<(), Problem>)
      modifies this
      ensures Committed(old(Data()), Data(), RetireConfirmedRound(old(Data()), round), r)
    {
      var available := AssertSelected(round.scope);
      if !available {
        return Err(AccountUnavailable);
      }
      ghost var before := Data();
      var effects := set k | k in pending && k.scope == round.scope && pending[k].roundId == round.roundId;
      while effects != {}
        modifies `pending
        invariant forall k | k in effects :: OfRound(before, k, round) && k in pending
        invariant pending == map k | k in before.pending
          && (k in effects || !(OfRound(before, k, round) && k in before.acks)) :: before.pending[k]
        decreases |effects|
      {
        var k :| k in effects;
        effects := effects - {k};
        if k in acknowledgements {
          pending := pending - {k};
        }
      }
      downloads := downloads - {round};
      r := Ok(());
    }

    /** Overlays the round's pending commands, in order, leaving out what a refused predecessor holds back. */
    method ShowPreview(download: Download) returns (r: Result<Current, Problem>)
      ensures r == Preview(Data(), download)
    {
      var available := AssertSelected(download.scope);
      if !available {
        return Err(AccountUnavailable);
      }
      var effects := OfRoundOnly(pending, PendingIn(pending, download.scope), download.roundId);
      var projected: seq<Envelope>, blocked: set<Id> := [], {};
      for i := 0 to |effects|
        invariant Overlaid(Data(), effects[..i]) == Ok(Overlay(projected, blocked))
      {
        var k := effects[i];
        assert effects[..i + 1][..i] == effects[..i];
        OverlaidPrefix(Data(), effects, i + 1);
        if k !in actions {
          continue;
        }
        var value := actions[k];
        var problem := ReadLocalAction(value);
        if problem.Some? {
          return Err(problem.value);
        }
        var held := IsHeldBack(k.scope, value.envelope, blocked);
        if held {
          blocked := blocked + {k.id};
        } else {
          projected := projected + [value.envelope];
        }
      }
      assert effects[..|effects|] == effects;
      var state := ProjectCurrent(download.current, projected);
      match state
      case Err(reason) => r := Err(NotProjectable(reason));
      case Ok(s) => r := Ok(s);
    }

    method IsHeldBack(scope: Scope, e: Envelope, blocked: set<Id>) returns (held: bool)
      ensures held == HeldBack(Data(), scope, e, blocked)
    {
      for i := 0 to |e.dependsOn|
        invariant forall j | 0 <= j < i ::
          e.dependsOn[j] !in blocked && !(Key(scope, e.dependsOn[j]) in acknowledgements
            && !acknowledgements[Key(scope, e.dependsOn[j])].receipt.business.Accepted?)
      {
        var k := Key(scope, e.dependsOn[i]);
        if e.dependsOn[i] in blocked || (k in acknowledgements && !acknowledgements[k].receipt.business.Accepted?) {
          return true;
        }
      }
      held := false;
    }

    /** Whether an overlay is no offline work or belongs to another round. */
    method OthersWait(effects: seq<Key>, roundId: string) returns (found: bool)
      requires forall k | k in effects :: k in pending
      ensures found <==> exists k | k in effects :: !Offline(pending[k].operation) || pending[k].roundId != roundId
    {
      for i := 0 to |effects|
        invariant forall j | 0 <= j < i :: Offline(pending[effects[j]].operation) && pending[effects[j]].roundId == roundId
      {
        if !Offline(pending[effects[i]].operation) || pending[effects[i]].roundId != roundId {
          assert effects[i] in effects;
          return true;
        }
      }
      return false;
    }

    /** Why this action may not be added now, if it may not. */
    method Admit(scope: Scope, e: Envelope, continuation: bool) returns (problem: Option<Problem>)
      requires e.context.Device?
      ensures problem == Admission(Data(), scope, e, continuation)
    {
      var effects := PendingIn(pending, scope);
      if !continuation {
        return if effects != [] then Some(ReviewFirst) else None;
      }
      var round := RoundKey(scope, TripText(e));
      if round !in downloads || downloads[round].format != 1
         || downloads[round].current.owner.generation != e.context.generation {
        return Some(NotDownloaded);
      }
      var download := downloads[round];
      var others := OthersWait(effects, download.roundId);
      if others {
        return Some(OtherActionWaits);
      }
      var projected := ShowPreview(download);
      match projected
      case Err(refused) => return Some(refused);
      case Ok(state) =>
        var objection := Objection(state, e);
        problem := if objection.Some? then Some(NotProjectable(objection.value)) else None;
    }

    /** The counter, the immutable bytes and the pending effect are all written, or none of them. */
    method CaptureLocked(scope: Scope, original: Envelope, href: string, continuation: bool, preserveBytes: bool)
      returns (r: Result<Action, Problem>)
      modifies this
      ensures Committed(old(Data()), Data(), Capture(old(Data()), scope, original, href, continuation, preserveBytes), r)
      ensures var k := Key(scope, original.actionId);
        r.Ok? ==> k in actions && r.value == actions[k] && (k in old(actions) ==> Data() == old(Data()))
      ensures r.Ok? ==>
        if Key(scope, original.actionId) in old(actions) then r.value.bytes == Stringified(original)
        else original.context.Device? && r.value.envelope == Recorded(old(Data()), scope, original, preserveBytes)
      ensures var k := Key(scope, original.actionId);
        Selected(old(Data()), scope) && BelongsTo(original, scope) && Supported(original) && k in old(actions) ==>
          && (r.Ok? <==> old(actions)[k].bytes == Stringified(original))
          && (r.Err? ==> r.error == ContentChanged) && Data() == old(Data())
    {
      var available := AssertSelected(scope);
      if !available {
        return Err(AccountUnavailable);
      }
      if !BelongsTo(original, scope) {
        return Err(ForeignAction);
      }
      if !Supported(original) {
        return Err(UnsupportedFormat);
      }
      var k := Key(scope, original.actionId);
      if k in actions {
        if actions[k].bytes != Stringified(original) {
          return Err(ContentChanged);
        }
        return Ok(actions[k]);
      }
      var problem := Admit(scope, original, continuation);
      if problem.Some? {
        return Err(problem.value);
      }
      var sequence := if scope in counters then counters[scope] else 0;
      var next := if preserveBytes || original.context.sequence > sequence then original.context.sequence else sequence + 1;
      if next > MAX_SAFE_INTEGER || next < -MAX_SAFE_INTEGER {
        return Err(UnsafeSequence);
      }
      var envelope := Complete(scope, original, next, preserveBytes);
      if SequenceTaken(Data(), scope, next) || k in pending {
        return Err(ConstraintViolated);
      }
      Add(k, envelope, next, href);
      r := Ok(actions[k]);
    }

    /** The envelope that is stored: as given, or with its sequence, predecessor and base versions. */
    method Complete(scope: Scope, original: Envelope, next: int, preserveBytes: bool) returns (envelope: Envelope)
      requires original.context.Device? && next == NextSequence(Data(), scope, original, preserveBytes)
      ensures envelope == Recorded(Data(), scope, original, preserveBytes)
    {
      if preserveBytes {
        return original;
      }
      var effects := PendingIn(pending, scope);
      var prior := if effects == [] then None else Some(effects[|effects| - 1].id);
      envelope := Enriched(original, next, prior);
    }

    method Add(k: Key, envelope: Envelope, next: int, href: string)
      modifies this
      ensures Data() == Append(old(Data()), k, envelope, next, href)
    {
      var sequence := if k.scope in counters then counters[k.scope] else 0;
      actions := actions[k := Action(next, RoundOf(envelope), envelope, Stringified(envelope), href)];
      pending := pending[k := Effect(next, RoundOf(envelope), envelope.operation, envelope.taskId, href)];
      counters := counters[k.scope := if next > sequence then next else sequence];
    }

    method StoreReceipt(scope: Scope, result: ActionResult) returns (r: Result<(), Problem>)
      modifies this
      ensures Committed(old(Data()), Data(), Acknowledge(old(Data()), scope, result), r)
    {
      var available := AssertSelected(scope);
      if !available {
        return Err(AccountUnavailable);
      }
      if !Matches(Data(), scope, result) {
        return Err(NoMatchingReceipt);
      }
      var k := Key(scope, result.receipt.actionId);
      if k in acknowledgements && acknowledgements[k].receipt != result.receipt {
        return Err(ReceiptConflict);
      }
      acknowledgements := acknowledgements[k := result];
      if !result.receipt.business.Accepted? || !Offline(actions[k].envelope.operation) {
        pending := pending - {k};
      }
      r := Ok(());
    }
  }

  lemma {:induction false} OverlaidPrefix(db: Db, keys: seq<Key>, i: nat)
    requires i <= |keys|
    ensures Overlaid(db, keys[..i]).Err? ==> Overlaid(db, keys) == Overlaid(db, keys[..i])
    decreases |keys|
  {
    if i == |keys| {
      assert keys[..i] == keys;
    } else {
      OverlaidPrefix(db, keys[..|keys| - 1], i);
      assert keys[..|keys| - 1][..i] == keys[..i];
    }
  }
}
