/** The replay coordinator: one run over the journal of one account, under the journal lock. */
module ReplayCoordinator {
  import opened Wrappers
  import opened Ordering
  import opened LocalCommands
  import opened LocalWork
  import opened LocalEvidence
  import opened LocalStore
  import opened AccountLifecycle
  import opened Replay

  /** Something that the action depends on is not received here, and stands in the journal or was called
      pending by the server in these calls. */
  ghost predicate Waits(env: Environment, w: Window, db: Db, scope: Scope, e: Envelope) {
    exists id | id in e.dependsOn :: Key(scope, id) !in db.acks && (Key(scope, id) in db.actions || CalledPending(env, id, w))
  }

  ghost predicate CalledPending(env: Environment, id: Id, w: Window) {
    exists n: nat :: w.from <= n < w.to && env.stillPending(n, id) == Some(true)
  }

  // ----- An environment that answers everything -----

  predicate Answers(entry: Entry, e: Envelope) {
    && entry.actionId == e.actionId && entry.status.Got? && entry.status.result.operation == e.operation
    && var receipt := entry.status.result.receipt;
      receipt.actionId == e.actionId && receipt.receiptId != "" && receipt.evidenceReceived && !receipt.business.OtherStatus?
  }

  function IdsOfEntries(entries: seq<Entry>): (ids: set<Id>)
    ensures forall i | 0 <= i < |entries| :: entries[i].actionId in ids
  {
    set entry | entry in entries :: entry.actionId
  }

  /** One entry for each action of the batch and no other, each with a matching receipt. */
  ghost predicate AnswersAll(entries: seq<Entry>, batch: seq<Envelope>) {
    && (forall i, j | 0 <= i < j < |entries| :: entries[i].actionId != entries[j].actionId)
    && IdsOfEntries(entries) == IdsOf(batch)
    && forall entry, e | entry in entries && e in batch && entry.actionId == e.actionId :: Answers(entry, e)
  }

  ghost predicate Cooperative(env: Environment) {
    && (forall n: nat :: env.elsewhere(n) == [])
    && (forall n: nat, id: Id :: env.stillPending(n, id) == Some(false))
    && forall n: nat, batch: seq<Envelope> | IdsDiffer(batch) ::
         env.submit(n, batch).Some? && AnswersAll(env.submit(n, batch).value, batch)
  }

  /** The server's receipt for an action, with the same business status for every action. */
  function AnswerTo(e: Envelope, business: Business): Entry {
    Entry(e.actionId, Got(ActionResult(e.operation, Receipt(e.actionId, "r", true, business, None, ""), "")))
  }

  function AnswersTo(batch: seq<Envelope>, business: Business): (entries: seq<Entry>)
    ensures |entries| == |batch| && forall i | 0 <= i < |batch| :: entries[i] == AnswerTo(batch[i], business)
  {
    seq(|batch|, i requires 0 <= i < |batch| => AnswerTo(batch[i], business))
  }

  /** A server that receives everything, while no other tab does anything. */
  function Obliging(session: Session, business: Business): Environment {
    Environment(Some(session), (n: nat, batch: seq<Envelope>) => Some(AnswersTo(batch, business)),
                (n: nat, id: Id) => Some(false), true, (n: nat) => [])
  }

  lemma AnswersMatch(batch: seq<Envelope>, business: Business)
    requires IdsDiffer(batch) && !business.OtherStatus?
    ensures AnswersAll(AnswersTo(batch, business), batch)
  {
    var entries := AnswersTo(batch, business);
    forall id | id in IdsOf(batch) ensures id in IdsOfEntries(entries) {
      var e :| e in batch && e.actionId == id;
      var i :| 0 <= i < |batch| && batch[i] == e;
      assert entries[i].actionId == id;
    }
  }

  /** There are such servers, whatever session they confirm and however they decide. */
  lemma ObligingIsCooperative(session: Session, business: Business, scope: Scope)
    requires !business.OtherStatus?
    ensures Cooperative(Obliging(session, business)) && LockHeld(Obliging(session, business), scope)
  {
    forall batch: seq<Envelope> | IdsDiffer(batch) ensures AnswersAll(AnswersTo(batch, business), batch) {
      AnswersMatch(batch, business);
    }
  }

  // ----- What may end a run -----

  ghost predicate Failed(env: Environment, n: nat, id: Id) { env.stillPending(n, id).None? }

  ghost predicate Unanswered(env: Environment, n: nat, batch: seq<Envelope>) { env.submit(n, batch).None? }

  /** One of these calls for the status of an action failed. */
  ghost predicate StatusFails(env: Environment, w: Window) {
    exists n: nat, id: Id :: w.from <= n < w.to && Failed(env, n, id)
  }

  /** The journal refused this receipt, for this reason, at some moment of the run. */
  ghost predicate JournalRefuses(scope: Scope, start: Db, result: ActionResult, problem: Problem) {
    exists db: Db :: Carries(db, start, scope) && Acknowledge(db, scope, result) == Err(problem)
  }

  ghost predicate Unavailable(scope: Scope, start: Db, db: Db) { Carries(db, start, scope) && !Selected(db, scope) }

  /** A receipt is not for what was sent, or the journal refuses it; other entries never fail. */
  ghost predicate EntryFails(scope: Scope, start: Db, original: Envelope, entry: Entry, error: ReplayProblem) {
    && entry.status.Got?
    && match error
       case MismatchedResponse => !MatchesEntry(entry, original)
       case Storage(problem) => JournalRefuses(scope, start, entry.status.result, problem)
       case _ => false
  }

  /** Every entry is for an action of the batch, no two are for the same, and receipts are for what was sent. */
  ghost predicate ProperAnswer(entries: seq<Entry>, batch: seq<Envelope>) {
    && (forall i, j | 0 <= i < j < |entries| :: entries[i].actionId != entries[j].actionId)
    && (forall i | 0 <= i < |entries| :: exists e :: e in batch && e.actionId == entries[i].actionId)
    && forall i, e | 0 <= i < |entries| && e in batch && e.actionId == entries[i].actionId && entries[i].status.Got? ::
         MatchesEntry(entries[i], e)
  }

  ghost predicate AnswerFails(scope: Scope, start: Db, entries: seq<Entry>, batch: seq<Envelope>, error: ReplayProblem) {
    match error
    case MismatchedResponse => !ProperAnswer(entries, batch)
    case Storage(problem) => exists entry :: entry in entries && entry.status.Got? && JournalRefuses(scope, start, entry.status.result, problem)
    case _ => false
  }

  /** An answer in these calls fails for this reason. */
  ghost predicate SomeAnswerFails(env: Environment, scope: Scope, start: Db, w: Window, error: ReplayProblem) {
    exists n: nat, batch: seq<Envelope> ::
      w.from <= n < w.to && env.submit(n, batch).Some? && AnswerFails(scope, start, env.submit(n, batch).value, batch, error)
  }

  /** Nothing but this ends a run that has begun: a call failed, an answer was not about what was sent, the
      account became unavailable, or the journal refused a receipt. */
  ghost predicate RunFails(env: Environment, scope: Scope, start: Db, w: Window, error: ReplayProblem) {
    || (error == CallFailed && StatusFails(env, w))
    || (error == CallFailed && exists n: nat, batch: seq<Envelope> :: w.from <= n < w.to && Unanswered(env, n, batch))
    || (error == Storage(AccountUnavailable) && exists db :: Unavailable(scope, start, db))
    || SomeAnswerFails(env, scope, start, w, error)
  }

  lemma RunFailsLonger(env: Environment, scope: Scope, start: Db, w: Window, longer: Window, error: ReplayProblem)
    requires RunFails(env, scope, start, w, error) && longer.from <= w.from && w.to <= longer.to
    ensures RunFails(env, scope, start, longer, error)
  {
    if error == CallFailed && StatusFails(env, w) {
      StatusFailsRun(env, scope, start, w, longer);
    }
  }

  lemma StatusFailsRun(env: Environment, scope: Scope, start: Db, w: Window, longer: Window)
    requires StatusFails(env, w) && longer.from <= w.from && w.to <= longer.to
    ensures RunFails(env, scope, start, longer, CallFailed)
  {
    var n: nat, id: Id :| w.from <= n < w.to && Failed(env, n, id);
    assert StatusFails(env, longer);
  }

  lemma ForeignOrRepeated(entries: seq<Entry>, i: nat, batch: seq<Envelope>)
    requires i < |entries|
    requires Find(batch, entries[i].actionId).None? || entries[i].actionId in IdsOfEntries(entries[..i])
    ensures !ProperAnswer(entries, batch)
  {
    if entries[i].actionId in IdsOfEntries(entries[..i]) {
      var entry :| entry in entries[..i] && entry.actionId == entries[i].actionId;
      var j :| 0 <= j < i && entries[j] == entry;
    }
  }

  lemma EntryFailsAnswer(scope: Scope, start: Db, entries: seq<Entry>, i: nat, batch: seq<Envelope>, original: Envelope, error: ReplayProblem)
    requires i < |entries| && original in batch && original.actionId == entries[i].actionId
    requires EntryFails(scope, start, original, entries[i], error)
    ensures AnswerFails(scope, start, entries, batch, error)
  {
    assert entries[i] in entries;
  }

  lemma AnswerFailsRun(env: Environment, scope: Scope, start: Db, w: Window, n: nat, batch: seq<Envelope>, error: ReplayProblem)
    requires w.from <= n < w.to && env.submit(n, batch).Some? && AnswerFails(scope, start, env.submit(n, batch).value, batch, error)
    ensures RunFails(env, scope, start, w, error)
  {
    assert SomeAnswerFails(env, scope, start, w, error);
  }

  /** The account is the one selected on this phone. */
  predicate AccountInUse(db: Db, scope: Scope) {
    scope in db.partitions && db.selection.Some? && db.selection.value.scope == scope
  }

  /** The session that the server confirms is one of this account. */
  predicate SameAccount(env: Environment, scope: Scope) {
    && env.session.Some?
    && (env.session.value.kind, env.session.value.tenantId, env.session.value.accountId) == (scope.kind, scope.tenantId, scope.accountId)
  }

  /** The account is being left, or the session is the one it was left with. */
  predicate Leaving(env: Environment, db: Db, scope: Scope) {
    && env.session.Some? && scope in db.partitions && db.selection.Some?
    && (db.selection.value.exiting || db.partitions[scope].endedSession == Some(env.session.value.expiresAt))
  }

  /** Why a run ends before anything is sent, if it does. */
  predicate EndsAtOnce<V>(env: Environment, db: Db, scope: Scope, r: Result<V, ReplayProblem>) {
    if !AccountInUse(db, scope) then r == Err(OpenAccountFirst)
    else if env.session.None? then r == Err(CallFailed)
    else if !SameAccount(env, scope) then r == Err(SameAccountFirst)
    else Leaving(env, db, scope) && r == Err(Entering(Journal(FinishExitFirst)))
  }

  /** Nothing keeps this account's actions from going out under the session that the server confirms. */
  predicate Enterable(env: Environment, db: Db, scope: Scope) {
    AccountInUse(db, scope) && SameAccount(env, scope) && !Leaving(env, db, scope)
  }

  lemma BindsUnlessLeaving(env: Environment, db: Db, scope: Scope)
    requires AccountInUse(db, scope) && SameAccount(env, scope)
    ensures var (after, r) := Bind(db, env.session.value, scope.deviceId);
      if Leaving(env, db, scope) then r == Err(Journal(FinishExitFirst)) && after == db else r.Ok?
  {}

  /** An account that was just opened may be entered with the session that opened it. */
  lemma OpenedIsEnterable(db: Db, session: Session, deviceId: Id, business: Business)
    requires Select(db, session, deviceId).Ok?
    ensures Enterable(Obliging(session, business), Next(db, SelectOp(session, deviceId)), SessionScope(session, deviceId))
  {
  }

  class ReplayCoordinator {
    const store: LocalStore
    const env: Environment
    var calls: nat

    constructor (store: LocalStore, env: Environment)
      ensures this.store == store && this.env == env
    {
      this.store, this.env, calls := store, env, 0;
    }

    /** Other tabs' transactions between two of this run. */
    method Pause(scope: Scope, ghost start: Db)
      requires Carries(store.Data(), start, scope) && LockHeld(env, scope)
      modifies store, `calls
      ensures Carries(store.Data(), start, scope)
      ensures calls == old(calls) + 1 && Remembers(store.Data(), old(store.Data()))
      ensures Cooperative(env) ==> store.Data() == old(store.Data())
    {
      RunCarries(store.Data(), start, env.elsewhere(calls), scope);
      EvidenceStays(store.Data(), env.elsewhere(calls));
      store.Elsewhere(env.elsewhere(calls));
      calls := calls + 1;
    }

    /** Whether the action must wait. An external predecessor is settled by its own status alone. */
    method MustWait(scope: Scope, e: Envelope) returns (r: Result<bool, ReplayProblem>)
      modifies `calls
      ensures r.Err? ==> r.error == CallFailed && StatusFails(env, Window(old(calls), calls))
      ensures old(calls) <= calls
      ensures r == Ok(false) ==> Unlocked(store.Data(), scope, e)
      ensures r == Ok(false) ==> Released(env, store.Data(), scope, e, Window(old(calls), calls))
      ensures r == Ok(true) ==> Waits(env, Window(old(calls), calls), store.Data(), scope, e)
    {
      for i := 0 to |e.dependsOn|
        invariant old(calls) <= calls
        invariant forall j | 0 <= j < i ::
          Key(scope, e.dependsOn[j]) in store.acknowledgements ||
          (Key(scope, e.dependsOn[j]) !in store.actions && Confirmed(env, e.dependsOn[j], Window(old(calls), calls)))
      {
        var k := Key(scope, e.dependsOn[i]);
        if k in store.acknowledgements {
          continue;
        }
        if k !in store.actions {
          var known := env.stillPending(calls, k.id);
          calls := calls + 1;
          if known.None? {
            assert Failed(env, calls - 1, k.id);
            return Err(CallFailed);
          }
          if !known.value {
            continue;
          }
          assert CalledPending(env, k.id, Window(old(calls), calls));
        }
        assert e.dependsOn[i] in e.dependsOn;
        return Ok(true);
      }
      r := Ok(false);
    }

    /** Whether the action belongs into the next batch. */
    method Consider(k: Key, attempted: set<Id>) returns (r: Result<bool, ReplayProblem>)
      requires Inv(store.Data()) && k in store.actions
      modifies `calls
      ensures r.Err? ==> r.error == CallFailed && StatusFails(env, Window(old(calls), calls))
      ensures old(calls) <= calls
      ensures r == Ok(false) ==> Settled(env, Window(old(calls), calls), store.Data(), attempted, k)
      ensures r == Ok(true) ==> Sendable(store.Data(), attempted, k)
      ensures r == Ok(true) ==> Released(env, store.Data(), k.scope, store.actions[k].envelope, Window(old(calls), calls))
    {
      if k.id in attempted || k in store.acknowledgements {
        return Ok(false);
      }
      var action := store.actions[k];
      ActionIsReadable(store.Data(), k);
      var problem := ReadLocalAction(action);
      if problem.Some? {
        assert false;  // stored bytes always spell their envelope
      }
      var missing := MustWait(k.scope, action.envelope);
      match missing
      case Err(failed) => r := Err(failed);
      case Ok(waits) => r := Ok(!waits);
    }

    /** The batch after looking at action `i`. */
    method Weigh(scope: Scope, attempted: set<Id>, unsent: seq<Key>, i: nat, ready: seq<Envelope>, ghost from: nat)
      returns (r: Result<seq<Envelope>, ReplayProblem>)
      requires from <= calls && AllReleased(env, store.Data(), scope, ready, Window(from, calls))
      requires Inv(store.Data()) && unsent == ActionsIn(store.actions, scope) && i < |unsent| && |ready| < MAX_BATCH
      requires Gathered(env, Window(from, calls), store.Data(), scope, attempted, ready, unsent, i)
      modifies `calls
      ensures r.Err? ==> r.error == CallFailed && StatusFails(env, Window(old(calls), calls))
      ensures r.Ok? ==>
        Gathered(env, Window(from, calls), store.Data(), scope, attempted, r.value, unsent, i + 1) && |r.value| <= MAX_BATCH
      ensures r.Ok? && |r.value| == MAX_BATCH ==> NextBatch(env, Window(from, calls), store.Data(), scope, attempted, r.value)
      ensures from <= calls && (r.Ok? ==> AllReleased(env, store.Data(), scope, r.value, Window(from, calls)))
    {
      var k := unsent[i];
      assert k in unsent;
      var belongs := Consider(k, attempted);
      if belongs.Err? {
        return Err(belongs.error);
      }
      ghost var more := WeighedLater(env, store.Data(), scope, attempted, ready, unsent, i, belongs.value, from, old(calls), calls);
      r := Ok(if belongs.value then ready + [store.actions[k].envelope] else ready);
    }

    /** The next batch: in order, what has no receipt, was not tried yet and waits for nothing. */
    method Collect(scope: Scope, attempted: set<Id>) returns (r: Result<seq<Envelope>, ReplayProblem>)
      requires Inv(store.Data())
      modifies `calls
      ensures r.Err? ==> r.error == CallFailed && StatusFails(env, Window(old(calls), calls))
      ensures r.Ok? ==> NextBatch(env, Window(old(calls), calls), store.Data(), scope, attempted, r.value)
      ensures old(calls) <= calls && (r.Ok? ==> AllReleased(env, store.Data(), scope, r.value, Window(old(calls), calls)))
    {
      var unsent := ActionsIn(store.actions, scope);
      var ready: seq<Envelope> := [];
      ghost var db := store.Data();
      for i := 0 to |unsent|
        invariant store.Data() == db
        invariant old(calls) <= calls && |ready| < MAX_BATCH
        invariant Gathered(env, Window(old(calls), calls), db, scope, attempted, ready, unsent, i)
        invariant AllReleased(env, db, scope, ready, Window(old(calls), calls))
      {
        var more := Weigh(scope, attempted, unsent, i, ready, old(calls));
        if more.Err? {
          return more;
        }
        ready := more.value;
        if |ready| == MAX_BATCH {
          return Ok(ready);
        }
      }
      WholeBatch(env, Window(old(calls), calls), db, scope, attempted, ready, unsent);
      r := Ok(ready);
    }

    /** Stores one receipt, after whatever other tabs did meanwhile. */
    method Store(scope: Scope, result: ActionResult, ghost start: Db) returns (r: Result<(), Problem>)
      requires Carries(store.Data(), start, scope) && LockHeld(env, scope)
      modifies store, `calls
      ensures Carries(store.Data(), start, scope) && old(calls) <= calls
      ensures Remembers(store.Data(), old(store.Data()))
      ensures r.Ok? ==> Filed(store.Data(), scope, result)
      ensures r.Err? ==> JournalRefuses(scope, start, result, r.error)
      ensures Cooperative(env) ==> StoredAs(old(store.Data()), store.Data(), scope, result, r.Ok?)
    {
      Pause(scope, start);
      ghost var there := store.Data();
      r := store.StoreReceipt(scope, result);
      ReceiptCarries(there, store.Data(), start, scope, result, r);
      ReceiptRemembers(there, store.Data(), scope, result, r);
    }

    /** Stores the receipt of one entry, or notes what the entry says instead. */
    method TakeEntry(scope: Scope, original: Envelope, entry: Entry, report: Report, ghost start: Db)
      returns (r: Result<Report, ReplayProblem>)
      requires Carries(store.Data(), start, scope) && LockHeld(env, scope) && entry.actionId == original.actionId
      modifies store, `calls
      ensures Carries(store.Data(), start, scope) && old(calls) <= calls
      ensures Cooperative(env) && Answers(entry, original)
        ==> StoredAs(old(store.Data()), store.Data(), scope, entry.status.result, r.Ok?)
      ensures Remembers(store.Data(), old(store.Data()))
      ensures r.Ok? ==> r.value == AddEntry(report, entry)
      ensures r.Err? ==> EntryFails(scope, start, original, entry, r.error)
      ensures r.Ok? && entry.status.Got? ==> MatchesEntry(entry, original) && Filed(store.Data(), scope, entry.status.result)
    {
      match entry.status
      case Waiting => r := Ok(report.(message := WAITING));
      case Retry(message) => r := Ok(report.(message := message));
      case Got(result) =>
        if result.receipt.actionId != entry.actionId || result.operation != original.operation {
          return Err(MismatchedResponse);
        }
        var stored := Store(scope, result, start);
        match stored
        case Err(problem) => r := Err(Storage(problem));
        case Ok(_) =>
          r := Ok(Counted(report, result.receipt.business));
    }

    /** Takes the entries of a response in turn; a partial response leaves the rest in the journal. */
    method TakeResponse(scope: Scope, ready: seq<Envelope>, entries: seq<Entry>, before: Report, ghost start: Db)
      returns (r: Result<Report, ReplayProblem>)
      requires Carries(store.Data(), start, scope) && LockHeld(env, scope)
      modifies store, `calls
      ensures Carries(store.Data(), start, scope) && old(calls) <= calls
      ensures Cooperative(env) && AnswersAll(entries, ready) && Steady(old(store.Data()), scope, ready, {})
        ==> r.Ok? && Steady(store.Data(), scope, ready, IdsOf(ready))
      ensures Remembers(store.Data(), old(store.Data()))
      ensures r.Ok? ==> r.value == Tallied(before, entries)
      ensures r.Ok? ==> AllTaken(store.Data(), scope, entries, ready)
      ensures r.Err? ==> AnswerFails(scope, start, entries, ready, r.error)
    {
      ghost var good := Cooperative(env) && AnswersAll(entries, ready) && Steady(store.Data(), scope, ready, {});
      var report := before;
      var seen: set<Id> := {};
      for i := 0 to |entries|
        invariant Carries(store.Data(), start, scope) && old(calls) <= calls
        invariant seen == IdsOfEntries(entries[..i]) && report == Tallied(before, entries[..i])
        invariant good ==> Steady(store.Data(), scope, ready, seen)
        invariant Remembers(store.Data(), old(store.Data()))
        invariant AllTaken(store.Data(), scope, entries[..i], ready)
      {
        ghost var there := store.Data();
        var entry := entries[i];
        SeenNext(entries, i);
        assert entries[..i + 1][..i] == entries[..i];
        var original := Find(ready, entry.actionId);
        if good {
          EntryIsExpected(ready, entries, i);
        }
        if original.None? || entry.actionId in seen {
          ForeignOrRepeated(entries, i, ready);
          return Err(MismatchedResponse);
        }
        var taken := TakeEntry(scope, original.value, entry, report, start);
        if good {
          SteadyOnceStored(there, store.Data(), scope, ready, seen, original.value, entry, taken.Ok?);
        }
        if taken.Err? {
          EntryFailsAnswer(scope, start, entries, i, ready, original.value, taken.error);
          return Err(taken.error);
        }
        TakenNext(there, store.Data(), scope, entries, i, ready, original.value);
        seen := seen + {entry.actionId};
        report := taken.value;
      }
      assert entries[..|entries|] == entries;
      r := Ok(report);
    }

    /** Sends one batch and takes the response. */
    method Exchange(scope: Scope, ready: seq<Envelope>, before: Report, ghost start: Db) returns (r: Result<Report, ReplayProblem>)
      requires Carries(store.Data(), start, scope) && LockHeld(env, scope)
      requires IdsDiffer(ready) && forall e | e in ready :: ReadyToSend(store.Data(), scope, e)
      modifies store, `calls
      ensures Carries(store.Data(), start, scope) && Remembers(store.Data(), old(store.Data())) && old(calls) < calls
      ensures Cooperative(env) && Selected(old(store.Data()), scope)
        ==> r.Ok? && Advanced(store.Data(), scope, ready, before, r.value)
      ensures r.Ok? ==> ResponseTaken(env, store.Data(), scope, old(calls), ready)
      ensures r.Ok? ==> r.value == TalliedFor(env, before, old(calls), ready)
      ensures r.Err? ==> RunFails(env, scope, start, Window(old(calls), calls), r.error)
    {
      ghost var there := store.Data();
      var response := env.submit(calls, ready);
      calls := calls + 1;
      if response.None? {
        assert Unanswered(env, calls - 1, ready);
        return Err(CallFailed);
      }
      if Selected(there, scope) {
        SteadyAtFirst(there, scope, ready);
      }
      if Cooperative(env) {
        AllTallied(before, response.value, ready);
      }
      r := TakeResponse(scope, ready, response.value, before, start);
      if r.Err? {
        AnswerFailsRun(env, scope, start, Window(old(calls), calls), old(calls), ready, r.error);
      }
    }

    /** The next batch, if the account is still available. */
    method NextReady(scope: Scope, attempted: set<Id>, ghost start: Db)
      returns (r: Result<seq<Envelope>, ReplayProblem>, ghost sent: Sent)
      requires Carries(store.Data(), start, scope) && LockHeld(env, scope)
      modifies store, `calls
      ensures Carries(store.Data(), start, scope)
      ensures old(calls) < calls && sent.asked == Window(old(calls) + 1, calls) && sent.journal == store.Data()
      ensures Remembers(store.Data(), old(store.Data()))
      ensures r.Ok? ==> sent.batch == r.value && MayBeSent(env, scope, attempted, sent, start, old(calls))
      ensures Cooperative(env) ==> store.Data() == old(store.Data())
      ensures Cooperative(env) && Selected(old(store.Data()), scope) ==> r.Ok?
      ensures r.Err? ==> RunFails(env, scope, start, Window(old(calls), calls), r.error)
    {
      Pause(scope, start);
      ghost var began := calls;
      var available := store.AssertSelected(scope);
      if !available {
        assert Unavailable(scope, start, store.Data());
        return Err(Storage(AccountUnavailable)), Sent([], store.Data(), Window(began, calls));
      }
      r := Collect(scope, attempted);
      if r.Err? {
        StatusFailsRun(env, scope, start, Window(began, calls), Window(old(calls), calls));
      }
      sent := Sent(if r.Ok? then r.value else [], store.Data(), Window(began, calls));
    }

    /** Collects the next batch and sends it; `ready` is what went out, even if the call failed then. */
    method SendNext(scope: Scope, attempted: set<Id>, report: Report, ghost start: Db)
      returns (r: Result<Report, ReplayProblem>, ready: seq<Envelope>, ghost sent: Sent)
      requires Carries(store.Data(), start, scope) && LockHeld(env, scope)
      modifies store, `calls
      ensures Carries(store.Data(), start, scope) && old(calls) < calls
      ensures ready != [] || r.Ok? ==> sent.batch == ready && MayBeSent(env, scope, attempted, sent, start, old(calls))
      ensures ready != [] ==> sent.asked.to < calls
      ensures ready == [] && r.Ok? ==> r.value == report && sent.asked.to == calls && sent.journal == store.Data()
      ensures Cooperative(env) && Selected(old(store.Data()), scope)
        ==> r.Ok? && Advanced(store.Data(), scope, ready, report, r.value)
      ensures Remembers(store.Data(), old(store.Data()))
      ensures ready != [] && r.Ok? ==> ResponseTaken(env, store.Data(), scope, sent.asked.to, ready)
      ensures ready != [] && r.Ok? ==> r.value == TalliedFor(env, report, sent.asked.to, ready)
      ensures r.Err? ==> RunFails(env, scope, start, Window(old(calls), calls), r.error)
    {
      var next;
      next, sent := NextReady(scope, attempted, start);
      if next.Err? {
        return Err(next.error), [], sent;
      }
      ready := next.value;
      if ready == [] {
        return Ok(report), [], sent;
      }
      ghost var between := calls;
      r := Exchange(scope, ready, report, start);
      if r.Err? {
        RunFailsLonger(env, scope, start, Window(between, calls), Window(old(calls), calls), r.error);
      }
    }

    /** Batch after batch, until nothing that was not tried yet is ready. */
    method SendAll(scope: Scope, before: Report, ghost start: Db)
      returns (r: Result<Report, ReplayProblem>, ghost trace: seq<Sent>, ghost last: Window)
      requires Carries(store.Data(), start, scope) && LockHeld(env, scope)
      modifies store, `calls
      ensures Carries(store.Data(), start, scope) && ProperRun(env, scope, trace) && InTurn(trace, old(calls), calls)
      ensures old(calls) <= calls
      ensures r.Ok? ==> AllResponsesTaken(env, store.Data(), scope, trace) && r.value == TalliedOver(env, before, trace)
      ensures r.Err? ==> RunFails(env, scope, start, Window(old(calls), calls), r.error)
      ensures r.Ok? ==> old(calls) <= last.from && last.to <= calls && NextBatch(env, last, store.Data(), scope, SentIds(trace), [])
      ensures Cooperative(env) && Selected(old(store.Data()), scope)
        ==> r.Ok? && Progress(store.Data(), scope, SentIds(trace), before, r.value)
    {
      ghost var good := Cooperative(env) && Selected(store.Data(), scope);
      var report := before;
      var attempted: set<Id> := {};
      trace := [];
      while true
        invariant Carries(store.Data(), start, scope) && old(calls) <= calls
        invariant SoFar(env, scope, trace, attempted, old(calls), calls)
        invariant AllResponsesTaken(env, store.Data(), scope, trace) && report == TalliedOver(env, before, trace)
        invariant good ==> Progress(store.Data(), scope, attempted, before, report)
        decreases JournalIds(start, scope) - attempted
      {
        ghost var began, there := calls, store.Data();
        var taken, ready;
        ghost var sent;
        taken, ready, sent := SendNext(scope, attempted, report, start);
        last := sent.asked;
        if good {
          SentIsNew(env, scope, attempted, sent, start, began);
          MoreProgress(there, store.Data(), scope, attempted, ready, before, report, taken.value);
        }
        ResponsesStay(env, there, store.Data(), scope, trace);
        if taken.Err? {
          RunFailsLonger(env, scope, start, Window(began, calls), Window(old(calls), calls), taken.error);
        }
        if ready == [] {
          assert attempted + IdsOf([]) == attempted;
          SoFarLonger(env, scope, trace, attempted, old(calls), began, calls);
          return taken, trace, last;
        }
        SoFarNext(env, scope, attempted, trace, sent, start, old(calls), began, calls);
        if taken.Err? {
          return taken, trace + [sent], last;
        }
        ResponsesNext(env, store.Data(), scope, trace, sent);
        TalliedNext(env, before, trace, sent);
        trace := trace + [sent];
        report := taken.value;
        attempted := attempted + IdsOf(ready);
      }
    }

    method CountRemaining(scope: Scope) returns (n: nat)
      ensures n == |Remaining(store.Data(), scope)|
    {
      var all := KeysIn(store.actions, scope);
      ghost var rest := Remaining(store.Data(), scope);
      n := 0;
      while all != {}
        invariant rest <= Remaining(store.Data(), scope) && rest == Remaining(store.Data(), scope) * all
        invariant n == |Remaining(store.Data(), scope)| - |rest|
        decreases |all|
      {
        var k :| k in all;
        all := all - {k};
        if k !in store.acknowledgements && k in store.actions && k.scope == scope {
          n := n + 1;
          rest := rest - {k};
        }
      }
    }

    /** The accepted actions of the round that was worked on last. */
    method AcceptedOfLastRound(scope: Scope) returns (ids: seq<Id>)
      ensures forall id :: id in ids <==> InLastRound(store.Data(), scope, id)
      ensures InJournalOrder(store.Data(), scope, ids)
    {
      var actions := ActionsIn(store.actions, scope);
      var lastRound := LastRound(store.actions, scope);
      ids := [];
      for i := 0 to |actions|
        invariant AcceptedUpTo(store.Data(), scope, actions, i, ids) && InJournalOrder(store.Data(), scope, ids)
      {
        var k := actions[i];
        assert k in actions;
        LaterThanAccepted(store.Data(), scope, actions, i, ids);
        AcceptedNext(store.Data(), scope, actions, i, ids);
        if lastRound == Some(store.actions[k].roundId)
           && k in store.acknowledgements && store.acknowledgements[k].receipt.business.Accepted? {
          ids := ids + [k.id];
        }
      }
      AcceptedAll(store.Data(), scope, actions, ids);
    }

    /** Runs first, and hands a new start only to an account with nothing left to synchronise. */
    method BeforeStart(scope: Scope) returns (r: Result<seq<Id>, ReplayProblem>)
      requires Inv(store.Data()) && LockHeld(env, scope)
      modifies store, `calls
      ensures Carries(store.Data(), old(store.Data()), scope)
      ensures r.Ok? ==>
        && Remaining(store.Data(), scope) == {} && KeysIn(store.pending, scope) == {}
        && (forall id :: id in r.value <==> AcceptedThere(store.Data(), scope, id)) && InJournalOrder(store.Data(), scope, r.value)
      ensures !Enterable(env, old(store.Data()), scope) ==>
        EndsAtOnce(env, old(store.Data()), scope, r) && calls == old(calls) && store.Data() == old(store.Data())
      ensures r.Ok? ==> SameAccount(env, scope) && Selected(store.Data(), scope)
      ensures r.Err? && Enterable(env, old(store.Data()), scope) ==>
        || RunFails(env, scope, old(store.Data()), Window(old(calls), calls), r.error)
        || (r.error == CallFailed && Remaining(store.Data(), scope) == {} && !env.refreshed)
        || (r.error == StillUnsynchronized && (Remaining(store.Data(), scope) != {} || KeysIn(store.pending, scope) != {}))
    {
      ghost var trace;
      var report;
      report, trace := RunLocked(scope);
      if report.Err? {
        return Err(report.error);
      }
      if report.value.remaining > 0 {
        return Err(StillUnsynchronized);
      }
      var available := store.AssertSelected(scope);
      if !available {
        assert Unavailable(scope, old(store.Data()), store.Data());
        return Err(Storage(AccountUnavailable));
      }
      SomethingPending(store.pending, scope);
      if PendingIn(store.pending, scope) != [] {
        return Err(StillUnsynchronized);
      }
      var ids := AcceptedOfLastRound(scope);
      forall id ensures InLastRound(store.Data(), scope, id) <==> AcceptedThere(store.Data(), scope, id) {
        LastRoundMeans(store.Data(), scope, id);
      }
      r := Ok(ids);
    }

    /** One run for the account whose session the server confirms; the caller holds the journal lock. */
    method RunLocked(scope: Scope) returns (r: Result<Report, ReplayProblem>, ghost trace: seq<Sent>)
      requires Inv(store.Data()) && LockHeld(env, scope)
      modifies store, `calls
      ensures Carries(store.Data(), old(store.Data()), scope) && ProperRun(env, scope, trace) && InTurn(trace, old(calls), calls)
      ensures old(calls) <= calls && (r.Ok? ==> r.value.remaining == |Remaining(store.Data(), scope)|)
      ensures r.Ok? ==> AllResponsesTaken(env, store.Data(), scope, trace)
      ensures r.Ok? ==> r.value == TalliedOver(env, Report(0, 0, 0, ""), trace).(remaining := r.value.remaining)
      ensures r.Ok? ==> forall k | k in Remaining(store.Data(), scope) ::
        k.id in SentIds(trace) || Waits(env, Window(old(calls), calls), store.Data(), scope, store.actions[k].envelope)
      ensures Cooperative(env) && Enterable(env, old(store.Data()), scope) ==>
        && (r.Ok? <==> Remaining(store.Data(), scope) != {} || env.refreshed)
        && (r.Ok? ==> r.value.received == |SentIds(trace)|)
      ensures Cooperative(env) && Enterable(env, old(store.Data()), scope) && LowerDependencies(old(store.Data()), scope)
        ==> Remaining(store.Data(), scope) == {} && (r.Ok? ==> r.value.remaining == 0)
      ensures r.Ok? && r.value.remaining == 0 ==> env.refreshed
      ensures !Enterable(env, old(store.Data()), scope) ==>
        EndsAtOnce(env, old(store.Data()), scope, r) && trace == [] && calls == old(calls) && store.Data() == old(store.Data())
      ensures trace != [] ==> Enterable(env, old(store.Data()), scope)
      ensures r.Err? && Enterable(env, old(store.Data()), scope) ==>
        || RunFails(env, scope, old(store.Data()), Window(old(calls), calls), r.error)
        || (r.error == CallFailed && Remaining(store.Data(), scope) == {} && !env.refreshed)
    {
      ghost var start := store.Data();
      trace := [];
      if scope !in store.partitions || store.selection.None? || store.selection.value.scope != scope {
        return Err(OpenAccountFirst), trace;
      }
      if env.session.None? {
        return Err(CallFailed), trace;
      }
      var session := env.session.value;
      if SessionScope(session, scope.deviceId) != scope {
        return Err(SameAccountFirst), trace;
      }
      BindCarries(start, start, session, scope.deviceId, scope);
      BindsUnlessLeaving(env, start, scope);
      if Enterable(env, start, scope) {
        BindOpens(env, start, scope);
      }
      var bound := BindSession(store, session, scope.deviceId);
      if bound.Err? {
        return Err(Entering(bound.error)), trace;
      }
      var sent;
      ghost var last;
      sent, trace, last := SendAll(scope, Report(0, 0, 0, ""), start);
      if sent.Err? {
        return sent, trace;
      }
      var remaining := CountRemaining(scope);
      LastLonger(env, last, Window(old(calls), calls), store.Data(), scope, SentIds(trace));
      OnlyWaiting(env, Window(old(calls), calls), store.Data(), scope, SentIds(trace));
      if Cooperative(env) && Enterable(env, start, scope) && LowerDependencies(start, scope) {
        SameDependencies(start, store.Data(), scope);
        NothingRemains(env, Window(old(calls), calls), store.Data(), scope, SentIds(trace));
      }
      if remaining == 0 && !env.refreshed {
        return Err(CallFailed), trace;
      }
      r := Ok(sent.value.(remaining := remaining));
    }
  }

  function LastRound(actions: map<Key, Action>, scope: Scope): Option<string> {
    var keys := ActionsIn(actions, scope);
    if keys == [] then None
    else
      assert keys[|keys| - 1] in keys;
      Some(actions[keys[|keys| - 1]].roundId)
  }

  /** The action is accepted and of the same round as the account's last action. */
  predicate InLastRound(db: Db, scope: Scope, id: Id) {
    var k := Key(scope, id);
    && k in db.actions && k in db.acks && db.acks[k].receipt.business.Accepted?
    && LastRound(db.actions, scope) == Some(db.actions[k].roundId)
  }

  /** No action of the account has a higher sequence. */
  ghost predicate Latest(db: Db, scope: Scope, l: Key) {
    l in db.actions && l.scope == scope && forall k | k in db.actions && k.scope == scope :: db.actions[k].sequence <= db.actions[l].sequence
  }

  /** An accepted action of the round that the account's latest action belongs to. */
  ghost predicate AcceptedThere(db: Db, scope: Scope, id: Id) {
    var k := Key(scope, id);
    && k in db.actions && k in db.acks && db.acks[k].receipt.business == Accepted
    && exists l :: Latest(db, scope, l) && db.actions[l].roundId == db.actions[k].roundId
  }

  lemma LastComesLast(db: Db, scope: Scope, keys: seq<Key>, k: Key)
    requires keys == ActionsIn(db.actions, scope) && k in db.actions && k.scope == scope
    ensures keys != [] && keys[|keys| - 1] in db.actions && keys[|keys| - 1].scope == scope
    ensures k == keys[|keys| - 1] || Sooner(db.actions, k, keys[|keys| - 1])
  {
    assert k in keys;
    var i :| 0 <= i < |keys| && keys[i] == k;
    assert keys[|keys| - 1] in keys;
  }

  /** The journal's last action of the account, which is its latest, if there is one. */
  lemma LatestAction(db: Db, scope: Scope) returns (last: Option<Key>)
    requires Sequences(db)
    ensures last.None? ==> LastRound(db.actions, scope).None? && forall k | k in db.actions :: k.scope != scope
    ensures last.Some? ==>
      && last.value in db.actions && LastRound(db.actions, scope) == Some(db.actions[last.value].roundId)
      && forall l :: Latest(db, scope, l) <==> l == last.value
  {
    var keys := ActionsIn(db.actions, scope);
    last := if keys == [] then None else Some(keys[|keys| - 1]);
    forall k | k in db.actions && k.scope == scope
      ensures last.Some? && last.value in db.actions && last.value.scope == scope
      ensures k == last.value || Sooner(db.actions, k, last.value)
    {
      LastComesLast(db, scope, keys, k);
    }
    assert keys != [] ==> keys[|keys| - 1] in keys;
  }

  lemma LastRoundMeans(db: Db, scope: Scope, id: Id)
    requires Sequences(db)
    ensures InLastRound(db, scope, id) <==> AcceptedThere(db, scope, id)
  {
    var last := LatestAction(db, scope);
    if last.Some? {
      assert Latest(db, scope, last.value);
    }
  }

  ghost predicate AcceptedUpTo(db: Db, scope: Scope, keys: seq<Key>, n: nat, ids: seq<Id>)
    requires n <= |keys|
  {
    forall id :: id in ids <==> InLastRound(db, scope, id) && exists i :: 0 <= i < n && keys[i] == Key(scope, id)
  }

  /** The ids stand in the order of the journal, each once. */
  ghost predicate InJournalOrder(db: Db, scope: Scope, ids: seq<Id>) {
    forall i, j | 0 <= i < j < |ids| :: Sooner(db.actions, Key(scope, ids[i]), Key(scope, ids[j]))
  }

  lemma LaterThanAccepted(db: Db, scope: Scope, keys: seq<Key>, n: nat, ids: seq<Id>)
    requires n < |keys| && Forwards(db.actions, keys) && keys[n].scope == scope
    requires AcceptedUpTo(db, scope, keys, n, ids) && InJournalOrder(db, scope, ids)
    ensures InJournalOrder(db, scope, ids + [keys[n].id])
  {
    forall i | 0 <= i < |ids| ensures Sooner(db.actions, Key(scope, ids[i]), Key(scope, keys[n].id)) {
      assert ids[i] in ids;
      var j :| 0 <= j < n && keys[j] == Key(scope, ids[i]);
      assert keys[n] == Key(scope, keys[n].id);
    }
  }

  lemma AcceptedNext(db: Db, scope: Scope, keys: seq<Key>, n: nat, ids: seq<Id>)
    requires n < |keys| && keys[n].scope == scope && AcceptedUpTo(db, scope, keys, n, ids)
    ensures AcceptedUpTo(db, scope, keys, n + 1, if InLastRound(db, scope, keys[n].id) then ids + [keys[n].id] else ids)
  {
    assert keys[n] == Key(scope, keys[n].id);
  }

  lemma AcceptedAll(db: Db, scope: Scope, keys: seq<Key>, ids: seq<Id>)
    requires keys == ActionsIn(db.actions, scope) && AcceptedUpTo(db, scope, keys, |keys|, ids)
    ensures forall id :: id in ids <==> InLastRound(db, scope, id)
  {
    forall id | InLastRound(db, scope, id) ensures id in ids {
      assert Key(scope, id) in keys;
    }
  }

  lemma SomethingPending(pending: map<Key, Effect>, scope: Scope)
    ensures KeysIn(pending, scope) != {} <==> PendingIn(pending, scope) != []
  {
    assert PendingIn(pending, scope) != [] ==> PendingIn(pending, scope)[0] in KeysIn(pending, scope);
    if KeysIn(pending, scope) != {} {
      var k :| k in KeysIn(pending, scope);
      assert k in PendingIn(pending, scope);
    }
  }

  function SentIds(trace: seq<Sent>): (ids: set<Id>)
    ensures forall i | 0 <= i < |trace| :: IdsOf(trace[i].batch) <= ids
  {
    set i, e | 0 <= i < |trace| && e in trace[i].batch :: e.actionId
  }

  function JournalIds(db: Db, scope: Scope): set<Id> {
    set k | k in KeysIn(db.actions, scope) :: k.id
  }

  predicate AllReceived(db: Db, scope: Scope, ids: set<Id>) {
    forall id | id in ids :: Key(scope, id) in db.acks
  }

  lemma SentIdsNext(trace: seq<Sent>, sent: Sent)
    ensures SentIds(trace + [sent]) == SentIds(trace) + IdsOf(sent.batch)
  {
    var more := trace + [sent];
    forall id | id in SentIds(trace) + IdsOf(sent.batch) ensures id in SentIds(more) {
      if id in SentIds(trace) {
        var i, e :| 0 <= i < |trace| && e in trace[i].batch && e.actionId == id;
        assert e in more[i].batch;
      } else {
        var e :| e in sent.batch && e.actionId == id;
        assert e in more[|trace|].batch;
      }
    }
    forall id | id in SentIds(more) ensures id in SentIds(trace) + IdsOf(sent.batch) {
      var i, e :| 0 <= i < |more| && e in more[i].batch && e.actionId == id;
      assert i < |trace| ==> e in trace[i].batch;
    }
  }

  lemma CarriesOn(db: Db, there: Db, start: Db, scope: Scope)
    requires Carries(db, there, scope) && Carries(there, start, scope)
    ensures Carries(db, start, scope)
  {}

  /** The account is open, and what was sent is received and counted. */
  predicate Progress(db: Db, scope: Scope, sent: set<Id>, before: Report, report: Report) {
    Selected(db, scope) && AllReceived(db, scope, sent) && report.received == before.received + |sent|
  }

  /** The account is open, and the batch is received and counted. */
  predicate Advanced(db: Db, scope: Scope, batch: seq<Envelope>, before: Report, report: Report) {
    Progress(db, scope, IdsOf(batch), before, report)
  }

  lemma MoreProgress(there: Db, db: Db, scope: Scope, attempted: set<Id>, ready: seq<Envelope>, before: Report, report: Report, more: Report)
    requires Progress(there, scope, attempted, before, report) && Remembers(db, there)
    requires Advanced(db, scope, ready, report, more) && IdsOf(ready) !! attempted
    ensures Progress(db, scope, attempted + IdsOf(ready), before, more)
  {}

  lemma SentIsNew(env: Environment, scope: Scope, attempted: set<Id>, sent: Sent, start: Db, hi: nat)
    requires MayBeSent(env, scope, attempted, sent, start, hi)
    ensures IdsOf(sent.batch) !! attempted
  {
    if sent.batch != [] {
      BatchIsNew(env, sent.asked, sent.journal, scope, attempted, sent.batch);
    }
  }

  lemma SteadyAtFirst(db: Db, scope: Scope, ready: seq<Envelope>)
    requires Selected(db, scope) && IdsDiffer(ready) && forall e | e in ready :: ReadyToSend(db, scope, e)
    ensures Steady(db, scope, ready, {})
  {}

  lemma ProperNext(env: Environment, scope: Scope, trace: seq<Sent>, sent: Sent)
    requires ProperRun(env, scope, trace) && ProperBatch(env, scope, sent) && IdsOf(sent.batch) !! SentIds(trace)
    ensures ProperRun(env, scope, trace + [sent])
  {
    var more := trace + [sent];
    forall i, j | 0 <= i < j < |more| ensures IdsOf(more[i].batch) !! IdsOf(more[j].batch) {
      assert IdsOf(trace[i].batch) <= SentIds(trace);
    }
  }

  lemma BatchIsNew(env: Environment, w: Window, db: Db, scope: Scope, attempted: set<Id>, ready: seq<Envelope>)
    requires NextBatch(env, w, db, scope, attempted, ready) && ready != []
    ensures IdsOf(ready) !! attempted && IdsOf(ready) != {} && IdsOf(ready) <= JournalIds(db, scope)
  {
    assert ready[0] in ready;
    forall id | id in IdsOf(ready) ensures id !in attempted && id in JournalIds(db, scope) {
      assert Key(scope, id) in KeysIn(db.actions, scope);
    }
  }

  lemma SentShrinksRest(all: set<Id>, attempted: set<Id>, ids: set<Id>)
    requires ids !! attempted && ids != {} && ids <= all
    ensures all - (attempted + ids) < all - attempted
  {
    var id :| id in ids;
    assert id in all - attempted && id !in all - (attempted + ids);
  }

  lemma NextIsProper(env: Environment, scope: Scope, attempted: set<Id>, sent: Sent)
    requires NextBatch(env, sent.asked, sent.journal, scope, attempted, sent.batch) && sent.batch != []
    requires AllReleased(env, sent.journal, scope, sent.batch, sent.asked) && Selected(sent.journal, scope)
    ensures ProperBatch(env, scope, sent)
  {
  }

  lemma BatchIsProper(env: Environment, scope: Scope, attempted: set<Id>, trace: seq<Sent>, sent: Sent, start: Db)
    requires ProperRun(env, scope, trace) && attempted == SentIds(trace) && sent.batch != []
    requires NextBatch(env, sent.asked, sent.journal, scope, attempted, sent.batch)
    requires JournalIds(sent.journal, scope) == JournalIds(start, scope)
    requires AllReleased(env, sent.journal, scope, sent.batch, sent.asked) && Selected(sent.journal, scope)
    ensures ProperRun(env, scope, trace + [sent]) && SentIds(trace + [sent]) == attempted + IdsOf(sent.batch)
    ensures IdsOf(sent.batch) !! attempted
    ensures JournalIds(start, scope) - (attempted + IdsOf(sent.batch)) < JournalIds(start, scope) - attempted
  {
    SentIdsNext(trace, sent);
    BatchIsNew(env, sent.asked, sent.journal, scope, attempted, sent.batch);
    NextIsProper(env, scope, attempted, sent);
    ProperNext(env, scope, trace, sent);
    SentShrinksRest(JournalIds(start, scope), attempted, IdsOf(sent.batch));
  }

  /** What was sent up to now: proper batches, one after the other, of the actions tried. */
  ghost predicate SoFar(env: Environment, scope: Scope, trace: seq<Sent>, attempted: set<Id>, lo: nat, hi: nat) {
    ProperRun(env, scope, trace) && attempted == SentIds(trace) && InTurn(trace, lo, hi)
  }

  lemma SoFarLonger(env: Environment, scope: Scope, trace: seq<Sent>, attempted: set<Id>, lo: nat, hi: nat, later: nat)
    requires SoFar(env, scope, trace, attempted, lo, hi) && hi <= later
    ensures SoFar(env, scope, trace, attempted, lo, later)
  {
    InTurnLonger(trace, lo, hi, later);
  }

  /** A batch that may go out after call `hi`. */
  ghost predicate MayBeSent(env: Environment, scope: Scope, attempted: set<Id>, sent: Sent, start: Db, hi: nat) {
    && hi <= sent.asked.from <= sent.asked.to && Carries(sent.journal, start, scope) && Selected(sent.journal, scope)
    && NextBatch(env, sent.asked, sent.journal, scope, attempted, sent.batch) && AllReleased(env, sent.journal, scope, sent.batch, sent.asked)
  }

  lemma SoFarNext(env: Environment, scope: Scope, attempted: set<Id>, trace: seq<Sent>, sent: Sent, start: Db, lo: nat, hi: nat, later: nat)
    requires SoFar(env, scope, trace, attempted, lo, hi) && lo <= hi && sent.batch != []
    requires MayBeSent(env, scope, attempted, sent, start, hi) && sent.asked.to < later
    ensures SoFar(env, scope, trace + [sent], attempted + IdsOf(sent.batch), lo, later)
    ensures JournalIds(start, scope) - (attempted + IdsOf(sent.batch)) < JournalIds(start, scope) - attempted
  {
    assert JournalIds(sent.journal, scope) == JournalIds(start, scope);
    BatchIsProper(env, scope, attempted, trace, sent, start);
    InTurnNext(trace, sent, lo, hi, later);
  }

  /** Actions depend on earlier ones of the journal only. */
  predicate LowerDependencies(db: Db, scope: Scope) {
    forall k, id | k in KeysIn(db.actions, scope) && id in db.actions[k].envelope.dependsOn && Key(scope, id) in db.actions ::
      db.actions[Key(scope, id)].sequence < db.actions[k].sequence
  }

  lemma SameDependencies(start: Db, db: Db, scope: Scope)
    requires Carries(db, start, scope) && LowerDependencies(start, scope)
    ensures LowerDependencies(db, scope)
  {
    assert forall k | k in KeysIn(db.actions, scope) :: k in KeysIn(start.actions, scope);
    assert forall id | Key(scope, id) in db.actions :: Key(scope, id) in KeysIn(db.actions, scope);
  }

  lemma WaitsForEarlier(env: Environment, w: Window, db: Db, scope: Scope, k: Key) returns (l: Key)
    requires Cooperative(env) && LowerDependencies(db, scope) && k in KeysIn(db.actions, scope)
    requires Waits(env, w, db, scope, db.actions[k].envelope)
    ensures l in Remaining(db, scope) && db.actions[l].sequence < db.actions[k].sequence
  {
    var id :| id in db.actions[k].envelope.dependsOn && Key(scope, id) !in db.acks
      && (Key(scope, id) in db.actions || CalledPending(env, id, w));
    l := Key(scope, id);
  }

  lemma Earliest(db: Db, scope: Scope) returns (k: Key)
    requires Remaining(db, scope) != {}
    ensures k in Remaining(db, scope) && forall l | l in Remaining(db, scope) :: db.actions[k].sequence <= db.actions[l].sequence
  {
    var lt := (a, b) => Sooner(db.actions, a, b);
    LeastExists(Remaining(db, scope), lt);
    k :| k in Remaining(db, scope) && forall x | x in Remaining(db, scope) && x != k :: lt(k, x);
    assert forall x | x in Remaining(db, scope) && x != k :: Sooner(db.actions, k, x);
  }

  lemma OnlyWaiting(env: Environment, w: Window, db: Db, scope: Scope, attempted: set<Id>)
    requires NextBatch(env, w, db, scope, attempted, [])
    ensures forall k | k in Remaining(db, scope) :: k.id in attempted || Waits(env, w, db, scope, db.actions[k].envelope)
  {
    forall k | k in Remaining(db, scope) ensures k.id in attempted || Waits(env, w, db, scope, db.actions[k].envelope) {
      assert Handled(env, w, db, attempted, [], k);
    }
  }

  /** The earliest action without a receipt would have nothing to wait for. */
  lemma NothingRemains(env: Environment, w: Window, db: Db, scope: Scope, attempted: set<Id>)
    requires Cooperative(env) && LowerDependencies(db, scope) && AllReceived(db, scope, attempted)
    requires NextBatch(env, w, db, scope, attempted, [])
    ensures Remaining(db, scope) == {}
  {
    OnlyWaiting(env, w, db, scope, attempted);
    if Remaining(db, scope) != {} {
      var k := Earliest(db, scope);
      assert k == Key(scope, k.id);
      var l := WaitsForEarlier(env, w, db, scope, k);
      assert false;
    }
  }

  lemma BindOpens(env: Environment, db: Db, scope: Scope)
    requires Enterable(env, db, scope)
    ensures var (after, r) := Bind(db, env.session.value, scope.deviceId); r == Ok(scope) && Selected(after, scope)
  {}

  lemma ReceiptIsStep(db: Db, after: Db, scope: Scope, result: ActionResult, r: Result<(), Problem>)
    requires Committed(db, after, Acknowledge(db, scope, result), r)
    ensures after == Next(db, AcknowledgeOp(scope, result))
  {
  }

  lemma ReceiptRemembers(db: Db, after: Db, scope: Scope, result: ActionResult, r: Result<(), Problem>)
    requires Committed(db, after, Acknowledge(db, scope, result), r)
    ensures Remembers(after, db) && (r.Ok? ==> Filed(after, scope, result))
  {
    ReceiptIsStep(db, after, scope, result, r);
    StepRemembers(db, AcknowledgeOp(scope, result));
  }

  /** Storing the receipt is what happened, and it is known whether it succeeded. */
  predicate StoredAs(before: Db, after: Db, scope: Scope, result: ActionResult, ok: bool) {
    match Acknowledge(before, scope, result)
    case Ok(db) => ok && after == db
    case Err(_) => !ok && after == before
  }

  /** The receipt is in the journal, beside the action it is for. */
  predicate Filed(db: Db, scope: Scope, result: ActionResult) {
    var k := Key(scope, result.receipt.actionId);
    k in db.actions && k in db.acks && db.acks[k].receipt == result.receipt
  }

  /** The entry's receipt is for the action that was sent. */
  predicate MatchesEntry(entry: Entry, original: Envelope)
    requires entry.status.Got?
  {
    entry.actionId == original.actionId && entry.status.result.receipt.actionId == entry.actionId
    && entry.status.result.operation == original.operation
  }

  /** The entry is for an action of the batch; its receipt, if it has one, matches the action and is stored. */
  ghost predicate EntryTaken(db: Db, scope: Scope, entry: Entry, batch: seq<Envelope>) {
    exists e :: e in batch && e.actionId == entry.actionId
      && (entry.status.Got? ==> MatchesEntry(entry, e) && Filed(db, scope, entry.status.result))
  }

  /** Every entry was taken, and no two were for the same action. */
  ghost predicate AllTaken(db: Db, scope: Scope, entries: seq<Entry>, batch: seq<Envelope>) {
    && (forall i, j | 0 <= i < j < |entries| :: entries[i].actionId != entries[j].actionId)
    && forall i | 0 <= i < |entries| :: EntryTaken(db, scope, entries[i], batch)
  }

  /** The server answered this batch at this call, and its answer was taken. */
  ghost predicate ResponseTaken(env: Environment, db: Db, scope: Scope, call: nat, batch: seq<Envelope>) {
    env.submit(call, batch).Some? && AllTaken(db, scope, env.submit(call, batch).value, batch)
  }

  /** Of all batches: every receipt that the server gave is in the journal. */
  ghost predicate AllResponsesTaken(env: Environment, db: Db, scope: Scope, trace: seq<Sent>) {
    forall i | 0 <= i < |trace| :: ResponseTaken(env, db, scope, trace[i].asked.to, trace[i].batch)
  }

  lemma ResponseStays(env: Environment, there: Db, db: Db, scope: Scope, call: nat, batch: seq<Envelope>)
    requires Remembers(db, there) && ResponseTaken(env, there, scope, call, batch)
    ensures ResponseTaken(env, db, scope, call, batch)
  {
    var entries := env.submit(call, batch).value;
    forall i | 0 <= i < |entries| ensures EntryTaken(db, scope, entries[i], batch) {
      TakenStays(there, db, scope, entries[i], batch);
    }
  }

  lemma ResponsesStay(env: Environment, there: Db, db: Db, scope: Scope, trace: seq<Sent>)
    requires Remembers(db, there) && AllResponsesTaken(env, there, scope, trace)
    ensures AllResponsesTaken(env, db, scope, trace)
  {
    forall i | 0 <= i < |trace| ensures ResponseTaken(env, db, scope, trace[i].asked.to, trace[i].batch) {
      ResponseStays(env, there, db, scope, trace[i].asked.to, trace[i].batch);
    }
  }

  lemma ResponsesNext(env: Environment, db: Db, scope: Scope, trace: seq<Sent>, sent: Sent)
    requires AllResponsesTaken(env, db, scope, trace) && ResponseTaken(env, db, scope, sent.asked.to, sent.batch)
    ensures AllResponsesTaken(env, db, scope, trace + [sent])
  {
  }

  /** What remains of the journal after being sent got no receipt in the answer to its batch. */
  lemma RemainingGotNone(env: Environment, db: Db, scope: Scope, trace: seq<Sent>, i: nat, entry: Entry)
    requires i < |trace| && AllResponsesTaken(env, db, scope, trace)
    requires env.submit(trace[i].asked.to, trace[i].batch).Some? && entry in env.submit(trace[i].asked.to, trace[i].batch).value
    ensures Key(scope, entry.actionId) in Remaining(db, scope) ==> !entry.status.Got?
  {
    var entries := env.submit(trace[i].asked.to, trace[i].batch).value;
    var j :| 0 <= j < |entries| && entries[j] == entry;
    assert ResponseTaken(env, db, scope, trace[i].asked.to, trace[i].batch);
    assert EntryTaken(db, scope, entries[j], trace[i].batch);
  }

  lemma TakenStays(there: Db, db: Db, scope: Scope, entry: Entry, batch: seq<Envelope>)
    requires Remembers(db, there) && EntryTaken(there, scope, entry, batch)
    ensures EntryTaken(db, scope, entry, batch)
  {
  }

  lemma TakenNext(there: Db, db: Db, scope: Scope, entries: seq<Entry>, i: nat, batch: seq<Envelope>, e: Envelope)
    requires i < |entries| && Remembers(db, there) && AllTaken(there, scope, entries[..i], batch)
    requires e in batch && e.actionId == entries[i].actionId && entries[i].actionId !in IdsOfEntries(entries[..i])
    requires entries[i].status.Got? ==> MatchesEntry(entries[i], e) && Filed(db, scope, entries[i].status.result)
    ensures AllTaken(db, scope, entries[..i + 1], batch)
  {
    var before, now := entries[..i], entries[..i + 1];
    assert now == before + [entries[i]];
    forall j | 0 <= j < i ensures EntryTaken(db, scope, now[j], batch) && now[j].actionId != entries[i].actionId {
      assert now[j] == before[j];
      TakenStays(there, db, scope, before[j], batch);
    }
    assert EntryTaken(db, scope, entries[i], batch);
  }

  lemma ReceiptCarries(db: Db, after: Db, start: Db, scope: Scope, result: ActionResult, r: Result<(), Problem>)
    requires Carries(db, start, scope) && Committed(db, after, Acknowledge(db, scope, result), r)
    ensures Carries(after, start, scope)
  {
    ReceiptIsStep(db, after, scope, result, r);
    StepCarries(db, start, AcknowledgeOp(scope, result), scope);
  }

  /** What one entry adds to the report; whatever is not accepted needs a review. */
  function AddEntry(report: Report, entry: Entry): Report {
    match entry.status
    case Waiting => report.(message := WAITING)
    case Retry(message) => report.(message := message)
    case Got(result) => Counted(report, result.receipt.business)
  }

  function Counted(report: Report, business: Business): Report {
    report.(received := report.received + 1, review := if business.Accepted? then report.review else report.review + 1)
  }

  function Tallied(before: Report, entries: seq<Entry>): Report {
    if entries == [] then before
    else AddEntry(Tallied(before, entries[..|entries| - 1]), entries[|entries| - 1])
  }

  /** The report with the answer that the server gave to the batch at this call. */
  function TalliedFor(env: Environment, before: Report, call: nat, batch: seq<Envelope>): Report {
    var answer := env.submit(call, batch);
    if answer.Some? then Tallied(before, answer.value) else before
  }

  /** The report of a whole run: every entry of every answer, in turn. */
  function TalliedOver(env: Environment, before: Report, trace: seq<Sent>): Report {
    if trace == [] then before
    else
      var last := trace[|trace| - 1];
      TalliedFor(env, TalliedOver(env, before, trace[..|trace| - 1]), last.asked.to, last.batch)
  }

  lemma TalliedNext(env: Environment, before: Report, trace: seq<Sent>, sent: Sent)
    ensures TalliedOver(env, before, trace + [sent]) == TalliedFor(env, TalliedOver(env, before, trace), sent.asked.to, sent.batch)
  {
    assert (trace + [sent])[..|trace|] == trace;
  }

  function GotAt(entries: seq<Entry>): set<nat> {
    set i: nat | i < |entries| && entries[i].status.Got?
  }

  function DeclinedAt(entries: seq<Entry>): set<nat> {
    set i: nat | i < |entries| && entries[i].status.Got? && entries[i].status.result.receipt.business != Accepted
  }

  lemma PlacesNext(entries: seq<Entry>, n: nat)
    requires |entries| == n + 1
    ensures GotAt(entries) == GotAt(entries[..n]) + if entries[n].status.Got? then {n} else {}
    ensures DeclinedAt(entries) ==
      DeclinedAt(entries[..n]) + if entries[n].status.Got? && entries[n].status.result.receipt.business != Accepted then {n} else {}
    ensures n !in GotAt(entries[..n]) && n !in DeclinedAt(entries[..n])
  {}

  /** Every receipt is counted once as received, and once for review if it is not accepted. */
  lemma {:induction false} TalliedMeans(before: Report, entries: seq<Entry>)
    ensures Tallied(before, entries).received == before.received + |GotAt(entries)|
    ensures Tallied(before, entries).review == before.review + |DeclinedAt(entries)|
    ensures Tallied(before, entries).remaining == before.remaining
  {
    if entries != [] {
      TalliedMeans(before, entries[..|entries| - 1]);
      PlacesNext(entries, |entries| - 1);
    }
  }

  /** The message is that of the last entry without a receipt. */
  lemma {:induction false} MessageMeans(before: Report, entries: seq<Entry>, i: nat)
    requires i <= |entries| && forall j | i < j < |entries| :: entries[j].status.Got?
    ensures (forall j | 0 <= j < |entries| :: entries[j].status.Got?) ==> Tallied(before, entries).message == before.message
    ensures i < |entries| ==>
      match entries[i].status
      case Waiting => Tallied(before, entries).message == "waiting"
      case Retry(message) => Tallied(before, entries).message == message
      case Got(_) => true
  {
    if entries != [] {
      var n: nat := |entries| - 1;
      MessageMeans(before, entries[..n], if i <= n then i else n);
    }
  }

  lemma {:induction false} TalliedCounts(before: Report, entries: seq<Entry>)
    requires forall entry | entry in entries :: entry.status.Got?
    ensures Tallied(before, entries).received == before.received + |entries|
  {
    if entries != [] {
      assert forall entry | entry in entries[..|entries| - 1] :: entry in entries;
      TalliedCounts(before, entries[..|entries| - 1]);
      assert entries[|entries| - 1] in entries;
    }
  }

  lemma {:induction false} DistinctEntries(entries: seq<Entry>)
    requires forall i, j | 0 <= i < j < |entries| :: entries[i].actionId != entries[j].actionId
    ensures |IdsOfEntries(entries)| == |entries|
  {
    if entries != [] {
      var n := |entries| - 1;
      DistinctEntries(entries[..n]);
      SeenNext(entries, n);
      assert entries[..n + 1] == entries;
      assert forall x | x in entries[..n] :: x.actionId != entries[n].actionId;
    }
  }

  lemma AllTallied(before: Report, entries: seq<Entry>, batch: seq<Envelope>)
    requires AnswersAll(entries, batch)
    ensures Tallied(before, entries).received == before.received + |IdsOf(batch)|
  {
    DistinctEntries(entries);
    forall entry | entry in entries ensures entry.status.Got? {
      assert entry.actionId in IdsOf(batch);
      var e :| e in batch && e.actionId == entry.actionId;
      assert Answers(entry, e);
    }
    TalliedCounts(before, entries);
  }

  function Find(batch: seq<Envelope>, id: Id): (e: Option<Envelope>)
    ensures e.Some? ==> e.value in batch && e.value.actionId == id
    ensures e.None? ==> forall x | x in batch :: x.actionId != id
  {
    if batch == [] then None
    else if batch[0].actionId == id then Some(batch[0])
    else Find(batch[1..], id)
  }

  /** The account stays open, and of the batch exactly the actions in `seen` have receipts. */
  ghost predicate Steady(db: Db, scope: Scope, batch: seq<Envelope>, seen: set<Id>) {
    && Selected(db, scope) && IdsDiffer(batch)
    && forall e | e in batch ::
         var k := Key(scope, e.actionId); k in db.actions && db.actions[k].envelope == e && (k in db.acks <==> e.actionId in seen)
  }

  lemma SeenNext(entries: seq<Entry>, i: nat)
    requires i < |entries|
    ensures IdsOfEntries(entries[..i + 1]) == IdsOfEntries(entries[..i]) + {entries[i].actionId}
  {
    assert entries[..i + 1] == entries[..i] + [entries[i]];
  }

  lemma EntryIsExpected(ready: seq<Envelope>, entries: seq<Entry>, i: nat)
    requires i < |entries| && AnswersAll(entries, ready)
    ensures var original := Find(ready, entries[i].actionId);
      original.Some? && Answers(entries[i], original.value) && entries[i].actionId !in IdsOfEntries(entries[..i])
  {
    var entry := entries[i];
    assert entry in entries && entry.actionId in IdsOf(ready);
    var e :| e in ready && e.actionId == entry.actionId;
    assert forall x | x in entries[..i] :: x.actionId != entry.actionId;
  }

  lemma StaysSteady(db: Db, scope: Scope, batch: seq<Envelope>, seen: set<Id>, e: Envelope, entry: Entry)
    requires e in batch && e.actionId !in seen && Answers(entry, e) && Steady(db, scope, batch, seen)
    ensures Acknowledge(db, scope, entry.status.result).Ok?
    ensures Steady(Acknowledge(db, scope, entry.status.result).value, scope, batch, seen + {e.actionId})
  {}

  lemma SteadyOnceStored(db: Db, after: Db, scope: Scope, batch: seq<Envelope>, seen: set<Id>, e: Envelope, entry: Entry, ok: bool)
    requires e in batch && e.actionId !in seen && Answers(entry, e) && Steady(db, scope, batch, seen)
    requires StoredAs(db, after, scope, entry.status.result, ok)
    ensures ok && Steady(after, scope, batch, seen + {e.actionId})
  {
    StaysSteady(db, scope, batch, seen, e, entry);
  }

  /** The action needs no place in a batch: it is received, was tried, or must wait. */
  ghost predicate Settled(env: Environment, w: Window, db: Db, attempted: set<Id>, k: Key) {
    k in db.acks || k.id in attempted || (k in db.actions && Waits(env, w, db, k.scope, db.actions[k].envelope))
  }

  ghost predicate Handled(env: Environment, w: Window, db: Db, attempted: set<Id>, ready: seq<Envelope>, k: Key) {
    k.id in IdsOf(ready) || Settled(env, w, db, attempted, k)
  }

  /** What may be sent next. Nothing before the last action of a full batch is left out that could be
      in it, and nothing at all if the batch is not full. */
  ghost predicate NextBatch(env: Environment, w: Window, db: Db, scope: Scope, attempted: set<Id>, ready: seq<Envelope>) {
    && |ready| <= 50 && IdsDiffer(ready) && InSequence(db, scope, ready)
    && (forall e | e in ready :: ReadyToSend(db, scope, e) && e.actionId !in attempted)
    && forall k | k in KeysIn(db.actions, scope) ::
         |ready| < 50 || Sooner(db.actions, k, Key(scope, ready[49].actionId)) ==> Handled(env, w, db, attempted, ready, k)
  }

  ghost predicate FromKeys(scope: Scope, ready: seq<Envelope>, keys: seq<Key>, n: nat)
    requires n <= |keys|
  {
    forall e | e in ready :: exists i :: 0 <= i < n && keys[i] == Key(scope, e.actionId)
  }

  /** `ready` is what the first `n` keys contribute to the batch. */
  ghost predicate Gathered(env: Environment, w: Window, db: Db, scope: Scope, attempted: set<Id>, ready: seq<Envelope>, keys: seq<Key>, n: nat)
    requires n <= |keys|
  {
    && IdsDiffer(ready) && InSequence(db, scope, ready) && FromKeys(scope, ready, keys, n)
    && (forall e | e in ready :: ReadyToSend(db, scope, e) && e.actionId !in attempted)
    && forall i | 0 <= i < n :: Handled(env, w, db, attempted, ready, keys[i])
  }

  lemma PassOver(env: Environment, w: Window, db: Db, scope: Scope, attempted: set<Id>, ready: seq<Envelope>, keys: seq<Key>, n: nat)
    requires n < |keys| && Gathered(env, w, db, scope, attempted, ready, keys, n) && Settled(env, w, db, attempted, keys[n])
    ensures Gathered(env, w, db, scope, attempted, ready, keys, n + 1)
  {}

  lemma LaterThanBatch(db: Db, scope: Scope, ready: seq<Envelope>, keys: seq<Key>, n: nat)
    requires n < |keys| && Forwards(db.actions, keys) && FromKeys(scope, ready, keys, n)
    ensures forall i | 0 <= i < |ready| :: Sooner(db.actions, Key(scope, ready[i].actionId), keys[n])
  {
    forall i | 0 <= i < |ready| ensures Sooner(db.actions, Key(scope, ready[i].actionId), keys[n]) {
      assert ready[i] in ready;
      var j :| 0 <= j < n && keys[j] == Key(scope, ready[i].actionId);
      assert Sooner(db.actions, keys[j], keys[n]);
    }
  }

  lemma StillHandled(env: Environment, w: Window, db: Db, attempted: set<Id>, ready: seq<Envelope>, e: Envelope, keys: seq<Key>, n: nat)
    requires n < |keys| && e.actionId == keys[n].id && forall i | 0 <= i < n :: Handled(env, w, db, attempted, ready, keys[i])
    ensures forall i | 0 <= i < n + 1 :: Handled(env, w, db, attempted, ready + [e], keys[i])
  {
    assert e in ready + [e] && IdsOf(ready) <= IdsOf(ready + [e]);
    forall i | 0 <= i < n ensures Handled(env, w, db, attempted, ready + [e], keys[i]) {
      assert Handled(env, w, db, attempted, ready, keys[i]);
    }
  }

  lemma StillFromKeys(scope: Scope, ready: seq<Envelope>, e: Envelope, keys: seq<Key>, n: nat)
    requires n < |keys| && keys[n] == Key(scope, e.actionId) && FromKeys(scope, ready, keys, n)
    ensures FromKeys(scope, ready + [e], keys, n + 1)
  {
    forall x | x in ready + [e] ensures exists i :: 0 <= i < n + 1 && keys[i] == Key(scope, x.actionId) {
      if x in ready {
        var i :| 0 <= i < n && keys[i] == Key(scope, x.actionId);
      }
    }
  }

  lemma StillInSequence(db: Db, scope: Scope, ready: seq<Envelope>, e: Envelope)
    requires IdsDiffer(ready) && InSequence(db, scope, ready)
    requires forall i | 0 <= i < |ready| :: Sooner(db.actions, Key(scope, ready[i].actionId), Key(scope, e.actionId))
    ensures IdsDiffer(ready + [e]) && InSequence(db, scope, ready + [e])
  {
  }

  lemma AddReady(env: Environment, w: Window, db: Db, scope: Scope, attempted: set<Id>, ready: seq<Envelope>, keys: seq<Key>, n: nat)
    requires n < |keys| && Gathered(env, w, db, scope, attempted, ready, keys, n)
    requires Forwards(db.actions, keys)
    requires keys[n].scope == scope && keys[n] in db.actions && Sendable(db, attempted, keys[n])
    ensures Gathered(env, w, db, scope, attempted, ready + [db.actions[keys[n]].envelope], keys, n + 1)
  {
    var e := db.actions[keys[n]].envelope;
    assert keys[n] == Key(scope, e.actionId);
    LaterThanBatch(db, scope, ready, keys, n);
    StillInSequence(db, scope, ready, e);
    StillFromKeys(scope, ready, e, keys, n);
    StillHandled(env, w, db, attempted, ready, e, keys, n);
  }

  lemma SettledLonger(env: Environment, w: Window, longer: Window, db: Db, attempted: set<Id>, k: Key)
    requires Settled(env, w, db, attempted, k) && longer.from <= w.from && w.to <= longer.to
    ensures Settled(env, longer, db, attempted, k)
  {
    if k !in db.acks && k.id !in attempted {
      var id :| id in db.actions[k].envelope.dependsOn && Key(k.scope, id) !in db.acks
        && (Key(k.scope, id) in db.actions || CalledPending(env, id, w));
      assert CalledPending(env, id, w) ==> CalledPending(env, id, longer);
    }
  }

  lemma GatheredLonger(env: Environment, w: Window, longer: Window, db: Db, scope: Scope, attempted: set<Id>, ready: seq<Envelope>, keys: seq<Key>, n: nat)
    requires n <= |keys| && Gathered(env, w, db, scope, attempted, ready, keys, n) && longer.from <= w.from && w.to <= longer.to
    ensures Gathered(env, longer, db, scope, attempted, ready, keys, n)
  {
    forall i | 0 <= i < n ensures Handled(env, longer, db, attempted, ready, keys[i]) {
      assert Handled(env, w, db, attempted, ready, keys[i]);
      if keys[i].id !in IdsOf(ready) {
        SettledLonger(env, w, longer, db, attempted, keys[i]);
      }
    }
  }

  /** What waits at the end of a scan waited, as far as the server was asked, within any longer stretch. */
  lemma LastLonger(env: Environment, w: Window, longer: Window, db: Db, scope: Scope, attempted: set<Id>)
    requires NextBatch(env, w, db, scope, attempted, []) && longer.from <= w.from && w.to <= longer.to
    ensures NextBatch(env, longer, db, scope, attempted, [])
  {
    forall k | k in KeysIn(db.actions, scope) ensures Handled(env, longer, db, attempted, [], k) {
      assert Handled(env, w, db, attempted, [], k);
      SettledLonger(env, w, longer, db, attempted, k);
    }
  }

  /** The action was considered in the calls from `mid` on, the batch put together before. */
  lemma WeighedLater(env: Environment, db: Db, scope: Scope, attempted: set<Id>, ready: seq<Envelope>, keys: seq<Key>, n: nat, belongs: bool,
      from: nat, mid: nat, to: nat)
    returns (more: seq<Envelope>)
    requires from <= mid <= to && keys == ActionsIn(db.actions, scope) && n < |keys| && |ready| < MAX_BATCH && keys[n] in db.actions
    requires Gathered(env, Window(from, mid), db, scope, attempted, ready, keys, n)
    requires AllReleased(env, db, scope, ready, Window(from, mid))
    requires if belongs then Sendable(db, attempted, keys[n]) && Released(env, db, scope, db.actions[keys[n]].envelope, Window(mid, to))
             else Settled(env, Window(mid, to), db, attempted, keys[n])
    ensures more == if belongs then ready + [db.actions[keys[n]].envelope] else ready
    ensures Gathered(env, Window(from, to), db, scope, attempted, more, keys, n + 1) && |more| <= MAX_BATCH
    ensures |more| == MAX_BATCH ==> NextBatch(env, Window(from, to), db, scope, attempted, more)
    ensures AllReleased(env, db, scope, more, Window(from, to))
  {
    GatheredLonger(env, Window(from, mid), Window(from, to), db, scope, attempted, ready, keys, n);
    if belongs {
      ReleasedMore(env, db, scope, ready, db.actions[keys[n]].envelope, from, mid, to);
    } else {
      SettledLonger(env, Window(mid, to), Window(from, to), db, attempted, keys[n]);
      AllReleasedLonger(env, db, scope, ready, Window(from, mid), Window(from, to));
    }
    more := Weighed(env, Window(from, to), db, scope, attempted, ready, keys, n, belongs);
  }

  /** The batch grows by the action if it belongs into it. */
  lemma Weighed(env: Environment, w: Window, db: Db, scope: Scope, attempted: set<Id>, ready: seq<Envelope>, keys: seq<Key>, n: nat, belongs: bool)
    returns (more: seq<Envelope>)
    requires keys == ActionsIn(db.actions, scope) && n < |keys| && Gathered(env, w, db, scope, attempted, ready, keys, n)
    requires |ready| < MAX_BATCH && keys[n] in db.actions
    requires if belongs then Sendable(db, attempted, keys[n]) else Settled(env, w, db, attempted, keys[n])
    ensures more == if belongs then ready + [db.actions[keys[n]].envelope] else ready
    ensures Gathered(env, w, db, scope, attempted, more, keys, n + 1) && |more| <= MAX_BATCH
    ensures |more| == MAX_BATCH ==> NextBatch(env, w, db, scope, attempted, more)
  {
    assert keys[n] in keys;
    if belongs {
      more := ready + [db.actions[keys[n]].envelope];
      AddReady(env, w, db, scope, attempted, ready, keys, n);
      if |more| == MAX_BATCH {
        FullBatch(env, w, db, scope, attempted, more, keys, n + 1);
      }
    } else {
      more := ready;
      PassOver(env, w, db, scope, attempted, ready, keys, n);
    }
  }

  predicate Sendable(db: Db, attempted: set<Id>, k: Key)
    requires k in db.actions
  {
    && k !in db.acks && k.id !in attempted && db.actions[k].envelope.actionId == k.id
    && Unlocked(db, k.scope, db.actions[k].envelope)
  }

  lemma FullBatch(env: Environment, w: Window, db: Db, scope: Scope, attempted: set<Id>, ready: seq<Envelope>, keys: seq<Key>, n: nat)
    requires 0 < n <= |keys| && Gathered(env, w, db, scope, attempted, ready, keys, n) && |ready| == MAX_BATCH
    requires Forwards(db.actions, keys) && keys[n - 1] == Key(scope, ready[MAX_BATCH - 1].actionId)
    requires forall k :: k in keys <==> k in KeysIn(db.actions, scope)
    ensures NextBatch(env, w, db, scope, attempted, ready)
  {
    forall k | k in KeysIn(db.actions, scope) && Sooner(db.actions, k, keys[n - 1])
      ensures Handled(env, w, db, attempted, ready, k)
    {
      assert k in keys;
      var i :| 0 <= i < |keys| && keys[i] == k;
      assert i > n - 1 ==> Sooner(db.actions, keys[n - 1], keys[i]);
    }
  }

  lemma WholeBatch(env: Environment, w: Window, db: Db, scope: Scope, attempted: set<Id>, ready: seq<Envelope>, keys: seq<Key>)
    requires Gathered(env, w, db, scope, attempted, ready, keys, |keys|) && |ready| < MAX_BATCH
    requires forall k :: k in keys <==> k in KeysIn(db.actions, scope)
    ensures NextBatch(env, w, db, scope, attempted, ready)
  {
    forall k | k in KeysIn(db.actions, scope) ensures Handled(env, w, db, attempted, ready, k) {
      assert k in keys;
    }
  }

  lemma ActionIsReadable(db: Db, k: Key)
    requires Inv(db) && k in db.actions
    ensures ReadLocalAction(db.actions[k]).None? && db.actions[k].envelope.actionId == k.id
  {
    assert ActionFits(db, k);
  }
}
