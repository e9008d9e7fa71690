/** Entering and leaving an account over the journal, while other tabs go on. */
module AccountLifecycle {
  import opened Wrappers
  import opened LocalCommands
  import opened LocalWork
  import opened LocalEvidence
  import opened LocalStore

  datatype EntryProblem = SameAccountRequired | LogoutFailed | Journal(problem: Problem)

  /** A session of another account blocks the one in use; its own session opens it. */
  function Bind(db: Db, session: Session, deviceId: Id): (Db, Result<Scope, EntryProblem>) {
    var scope := SessionScope(session, deviceId);
    if db.selection.Some? && db.selection.value.scope != scope then (BlockSelected(db), Err(SameAccountRequired))
    else
      match Select(db, session, deviceId)
      case Ok(after) => (after, Ok(scope))
      case Err(problem) => (db, Err(Journal(problem)))
  }

  method BindSession(store: LocalStore, session: Session, deviceId: Id) returns (r: Result<Scope, EntryProblem>)
    modifies store
    ensures (store.Data(), r) == Bind(old(store.Data()), session, deviceId)
  {
    if store.selection.Some? && store.selection.value.scope != SessionScope(session, deviceId) {
      store.Block();
      return Err(SameAccountRequired);
    }
    var selected := store.SelectAccount(session, deviceId);
    match selected
    case Ok(scope) => r := Ok(scope);
    case Err(problem) => r := Err(Journal(problem));
  }

  lemma BindIsARun(db: Db, session: Session, deviceId: Id)
    ensures exists op: Op :: Bind(db, session, deviceId).0 == Next(db, op) && (op.BlockOp? || op.SelectOp?)
  {
    var op := if db.selection.Some? && db.selection.value.scope != SessionScope(session, deviceId) then BlockOp else SelectOp(session, deviceId);
    assert Bind(db, session, deviceId).0 == Next(db, op);
  }

  /** A session of another account blocks the one in use and opens nothing; one of the account itself opens
      it, unless the account is being left or was left with this very session. */
  lemma BindExactlyWhen(db: Db, session: Session, deviceId: Id)
    ensures var scope, (after, r) := Scope(session.kind, session.tenantId, session.accountId, deviceId), Bind(db, session, deviceId);
      var other := db.selection.Some? && db.selection.value.scope != scope;
      var left := (db.selection.Some? && db.selection.value.exiting)
                  || (scope in db.partitions && db.partitions[scope].endedSession == Some(session.expiresAt));
      && (other ==> r == Err(SameAccountRequired) && after == Next(db, BlockOp))
      && (!other && left ==> r == Err(Journal(FinishExitFirst)) && after == db)
      && (!other && !left ==> r == Ok(scope) && after == Next(db, SelectOp(session, deviceId)) && Selected(after, scope))
  {}

  // ----- Leaving -----

  predicate Sealed(db: Db, scope: Scope) { db.selection == Some(Selection(scope, true)) }

  lemma SealedStep(db: Db, op: Op, scope: Scope)
    requires Sealed(db, scope) && op != FinishOp(Some(scope))
    ensures Sealed(Next(db, op), scope) && Next(db, op).actions == db.actions && Next(db, op).acks == db.acks
  {
    if op.CaptureOp? {
      CaptureShape(db, op);
    }
  }

  /** Until the exit finishes no tab captures, receives or selects anything, through any crash. */
  lemma {:induction false} ExitSeals(db: Db, ops: seq<Op>, scope: Scope)
    requires Sealed(db, scope) && FinishOp(Some(scope)) !in ops
    ensures Sealed(Run(db, ops), scope) && Run(db, ops).actions == db.actions && Run(db, ops).acks == db.acks
    decreases |ops|
  {
    if ops != [] {
      var n := |ops| - 1;
      ExitSeals(db, ops[..n], scope);
      assert ops[n] in ops;
      SealedStep(Run(db, ops[..n]), ops[n], scope);
    }
  }

  /** An exit that stopped half-way can be taken up again: both of its steps go through. */
  lemma ExitCanBeRetried(ops: seq<Op>, scope: Scope)
    requires Sealed(Run(EmptyDb, ops), scope)
    ensures var prepared := PrepareExit(Run(EmptyDb, ops));
      && prepared.Ok? && Sealed(prepared.value, scope)
      && FinishExit(prepared.value, Some(scope)).Ok? && FinishExit(prepared.value, Some(scope)).value.selection.None?
  {
    var db := Run(EmptyDb, ops);
    AccountIsolation(ops);
    assert UnreceivedIn(db, scope) == {};
  }

  function SelectedScope(db: Db): Option<Scope> {
    if db.selection.Some? then Some(db.selection.value.scope) else None
  }

  predicate HasUnreceived(db: Db) {
    db.selection.Some? && UnreceivedIn(db, db.selection.value.scope) != {}
  }

  /** `waiting` and `meanwhile` are the transactions of other tabs while the lock is awaited and while
      the logout is under way; `loggedOut` is how the logout ends. */
  method ExitAccount(store: LocalStore, loggedOut: bool, waiting: seq<Op>, meanwhile: seq<Op>) returns (r: Result<(), EntryProblem>)
    modifies store
    ensures HasUnreceived(old(store.Data())) ==> r == Err(Journal(Unsynchronized)) && store.Data() == old(store.Data())
    ensures !HasUnreceived(old(store.Data())) ==>
      var before := Run(old(store.Data()), waiting);
      match PrepareExit(before)
      case Err(problem) => r == Err(Journal(problem)) && store.Data() == before
      case Ok(prepared) =>
        var there := Run(prepared, meanwhile);
        if !loggedOut then r == Err(LogoutFailed) && store.Data() == there
        else
          match FinishExit(there, SelectedScope(before))
          case Err(problem) => r == Err(Journal(problem)) && store.Data() == there
          case Ok(left) => r == Ok(()) && store.Data() == left && left.selection.None?
  {
    if store.selection.Some? {
      var missing := store.UnreceivedWork(store.selection.value.scope);
      if missing != {} {
        return Err(Journal(Unsynchronized));
      }
    }
    store.Elsewhere(waiting);
    var prepared := store.Prepare();
    if prepared.Err? {
      return Err(Journal(prepared.error));
    }
    store.Elsewhere(meanwhile);
    if !loggedOut {
      return Err(LogoutFailed);
    }
    var finished := store.Finish(prepared.value);
    if finished.Err? {
      return Err(Journal(finished.error));
    }
    r := Ok(());
  }

  /** Leaving keeps all evidence, and unless another tab ended this exit first it leaves the account
      closed to its ended session. */
  lemma LeavingIsClean(before: seq<Op>, meanwhile: seq<Op>, scope: Scope)
    requires var db := Run(EmptyDb, before); db.selection.Some? && db.selection.value.scope == scope
    requires PrepareExit(Run(EmptyDb, before)).Ok? && FinishOp(Some(scope)) !in meanwhile
    ensures var db := Run(EmptyDb, before);
      var there := Run(PrepareExit(db).value, meanwhile);
      && FinishExit(there, Some(scope)).Ok?
      && var left := FinishExit(there, Some(scope)).value;
        && left.actions == db.actions && left.acks == db.acks && Unreceived(left) == {}
        && left.selection.None? && scope in db.partitions && Closed(left, scope, db.partitions[scope].session.expiresAt)
  {
    var db := Run(EmptyDb, before);
    var prepared := PrepareExit(db).value;
    RunKeepsSelectionFits(EmptyDb, before);
    assert prepared == Next(db, PrepareOp);
    ExitSeals(prepared, meanwhile, scope);
    RunKeepsInv(EmptyDb, before);
    StepKeepsInv(db, PrepareOp);
    RunKeepsInv(prepared, meanwhile);
    var there := Run(prepared, meanwhile);
    var left := FinishExit(there, Some(scope)).value;
    forall k | k in Unreceived(left) ensures false {
      assert k in Unreceived(there);
      UnreceivedIsUnacknowledged(there, k);
      assert ActionKept(there, k);
    }
    PrepareCloses(db);
    SealedStaysClosed(prepared, meanwhile, scope, db.partitions[scope].session.expiresAt);
  }

  lemma {:induction false} SealedStaysClosed(db: Db, ops: seq<Op>, scope: Scope, t: int)
    requires Sealed(db, scope) && Closed(db, scope, t) && FinishOp(Some(scope)) !in ops
    ensures Closed(Run(db, ops), scope, t)
    decreases |ops|
  {
    if ops != [] {
      var n := |ops| - 1;
      SealedStaysClosed(db, ops[..n], scope, t);
      ExitSeals(db, ops[..n], scope);
      var before, op := Run(db, ops[..n]), ops[n];
      if op.SelectOp? {
        assert Next(before, op) == before;
      } else {
        StepKeepsClosed(before, op, scope, t);
      }
    }
  }
}
