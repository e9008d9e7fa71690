/** Sending the journal: batches of ready actions, receipts stored one by one. */
module Replay {
  import opened Wrappers
  import opened Ordering
  import opened LocalCommands
  import opened LocalWork
  import opened LocalEvidence
  import opened LocalStore
  import opened AccountLifecycle

  const MAX_BATCH := 50

  datatype Status = Got(result: ActionResult) | Waiting | Retry(message: string)

  datatype Entry = Entry(actionId: Id, status: Status)

  /** The environment. What it does at the n-th call is arbitrary, and `None` is a call that fails;
      `elsewhere` are the transactions of other tabs between this run's own. */
  datatype Environment = Environment(
    session: Option<Session>,
    submit: (nat, seq<Envelope>) -> Option<seq<Entry>>,
    stillPending: (nat, Id) -> Option<bool>,
    refreshed: bool,
    elsewhere: nat -> seq<Op>)

  datatype ReplayProblem =
    OpenAccountFirst | SameAccountFirst | Entering(reason: EntryProblem) | CallFailed | MismatchedResponse
  | Storage(problem: Problem) | StillUnsynchronized

  datatype Report = Report(received: nat, remaining: nat, review: nat, message: string)

  const WAITING := "waiting"

  /** A stretch of the run's calls: those from `from` on and before `to`. */
  datatype Window = Window(from: nat, to: nat)

  /** A batch, the journal at the moment it was sent, and the calls in which it was put together; the
      batch itself goes out as call `asked.to`. */
  datatype Sent = Sent(batch: seq<Envelope>, journal: Db, asked: Window)

  // ----- The actions of one account in order -----

  predicate Sooner(actions: map<Key, Action>, a: Key, b: Key) {
    a in actions && b in actions
    && (actions[a].sequence < actions[b].sequence || (actions[a].sequence == actions[b].sequence && a.id < b.id))
  }

  lemma SoonerIsOrder(actions: map<Key, Action>, scope: Scope)
    ensures StrictOrderOn(KeysIn(actions, scope), (a, b) => Sooner(actions, a, b))
  {}

  ghost predicate Forwards(actions: map<Key, Action>, keys: seq<Key>) {
    forall i, j | 0 <= i < j < |keys| :: Sooner(actions, keys[i], keys[j])
  }

  function ActionsIn(actions: map<Key, Action>, scope: Scope): (keys: seq<Key>)
    ensures forall k :: k in keys <==> k in KeysIn(actions, scope)
    ensures Forwards(actions, keys)
  {
    SoonerIsOrder(actions, scope);
    var lt := (a, b) => Sooner(actions, a, b);
    var keys := Listed(KeysIn(actions, scope), lt);
    assert forall i, j | 0 <= i < j < |keys| :: lt(keys[i], keys[j]);
    keys
  }

  function Remaining(db: Db, scope: Scope): set<Key> {
    set k | k in KeysIn(db.actions, scope) && k !in db.acks
  }

  // ----- What a run promises -----

  /** Nothing in the journal that the action depends on is without a receipt. */
  predicate Unlocked(db: Db, scope: Scope, e: Envelope) {
    forall id | id in e.dependsOn :: Key(scope, id) in db.acks || Key(scope, id) !in db.actions
  }

  predicate ReadyToSend(db: Db, scope: Scope, e: Envelope) {
    var k := Key(scope, e.actionId);
    k in db.actions && db.actions[k].envelope == e && k !in db.acks && Unlocked(db, scope, e)
  }

  /** The server said, in one of these calls, that the predecessor is no longer pending. */
  ghost predicate Confirmed(env: Environment, id: Id, w: Window) {
    exists n: nat :: w.from <= n < w.to && env.stillPending(n, id) == Some(false)
  }

  /** Whatever the action depends on is received here or was confirmed by the server in these calls. */
  ghost predicate Released(env: Environment, db: Db, scope: Scope, e: Envelope, w: Window) {
    forall id | id in e.dependsOn && Key(scope, id) !in db.acks :: Confirmed(env, id, w)
  }

  ghost predicate AllReleased(env: Environment, db: Db, scope: Scope, batch: seq<Envelope>, w: Window) {
    forall e | e in batch :: Released(env, db, scope, e, w)
  }

  lemma ReleasedLonger(env: Environment, db: Db, scope: Scope, e: Envelope, w: Window, longer: Window)
    requires Released(env, db, scope, e, w) && longer.from <= w.from && w.to <= longer.to
    ensures Released(env, db, scope, e, longer)
  {
    forall id | id in e.dependsOn && Key(scope, id) !in db.acks ensures Confirmed(env, id, longer) {
      assert Confirmed(env, id, w);
    }
  }

  lemma AllReleasedLonger(env: Environment, db: Db, scope: Scope, batch: seq<Envelope>, w: Window, longer: Window)
    requires AllReleased(env, db, scope, batch, w) && longer.from <= w.from && w.to <= longer.to
    ensures AllReleased(env, db, scope, batch, longer)
  {
    forall e | e in batch ensures Released(env, db, scope, e, longer) {
      ReleasedLonger(env, db, scope, e, w, longer);
    }
  }

  /** A further action that was considered in the calls from `mid` on. */
  lemma ReleasedMore(env: Environment, db: Db, scope: Scope, batch: seq<Envelope>, e: Envelope, from: nat, mid: nat, to: nat)
    requires AllReleased(env, db, scope, batch, Window(from, mid)) && from <= mid <= to
    requires Released(env, db, scope, e, Window(mid, to))
    ensures AllReleased(env, db, scope, batch + [e], Window(from, to))
  {
    AllReleasedLonger(env, db, scope, batch, Window(from, mid), Window(from, to));
    ReleasedLonger(env, db, scope, e, Window(mid, to), Window(from, to));
  }

  predicate IdsDiffer(batch: seq<Envelope>) {
    forall i, j | 0 <= i < j < |batch| :: batch[i].actionId != batch[j].actionId
  }

  /** The batch goes through the journal forwards. */
  predicate InSequence(db: Db, scope: Scope, batch: seq<Envelope>) {
    forall i, j | 0 <= i < j < |batch| ::
      Sooner(db.actions, Key(scope, batch[i].actionId), Key(scope, batch[j].actionId))
  }

  ghost predicate ProperBatch(env: Environment, scope: Scope, sent: Sent) {
    && 1 <= |sent.batch| <= 50 && IdsDiffer(sent.batch) && InSequence(sent.journal, scope, sent.batch)
    && (forall e | e in sent.batch :: ReadyToSend(sent.journal, scope, e))
    && AllReleased(env, sent.journal, scope, sent.batch, sent.asked) && Selected(sent.journal, scope)
  }

  function IdsOf(batch: seq<Envelope>): (ids: set<Id>)
    ensures forall e | e in batch :: e.actionId in ids
  {
    set e | e in batch :: e.actionId
  }

  /** Every batch is proper and no action is in two of them. */
  ghost predicate ProperRun(env: Environment, scope: Scope, trace: seq<Sent>) {
    && (forall i | 0 <= i < |trace| :: ProperBatch(env, scope, trace[i]))
    && forall i, j | 0 <= i < j < |trace| :: IdsOf(trace[i].batch) !! IdsOf(trace[j].batch)
  }

  /** For whatever a sent action depends on there was a receipt, or it was not in the journal and the server
      said, while the batch was put together, that it was no longer pending. */
  lemma SentOnlyWhenFree(env: Environment, scope: Scope, trace: seq<Sent>, i: nat, e: Envelope, id: Id)
    requires ProperRun(env, scope, trace) && i < |trace| && e in trace[i].batch && id in e.dependsOn
    ensures var sent, k := trace[i], Key(scope, id);
      && Key(scope, e.actionId) in sent.journal.actions && sent.journal.actions[Key(scope, e.actionId)].envelope == e
      && Key(scope, e.actionId) !in sent.journal.acks
      && (k in sent.journal.acks
          || (k !in sent.journal.actions && exists n: nat :: sent.asked.from <= n < sent.asked.to && env.stillPending(n, id) == Some(false)))
  {
    assert ProperBatch(env, scope, trace[i]) && ReadyToSend(trace[i].journal, scope, e) && Released(env, trace[i].journal, scope, e, trace[i].asked);
    assert Key(scope, id) !in trace[i].journal.acks ==> Confirmed(env, id, trace[i].asked);
  }

  /** One batch after the other is put together and sent, all within calls `lo` to `hi`. */
  ghost predicate InTurn(trace: seq<Sent>, lo: nat, hi: nat) {
    && (forall i | 0 <= i < |trace| :: lo <= trace[i].asked.from <= trace[i].asked.to < hi)
    && forall i, j | 0 <= i < j < |trace| :: trace[i].asked.to < trace[j].asked.from
  }

  lemma InTurnLonger(trace: seq<Sent>, lo: nat, hi: nat, later: nat)
    requires InTurn(trace, lo, hi) && hi <= later
    ensures InTurn(trace, lo, later)
  {
  }

  lemma InTurnNext(trace: seq<Sent>, sent: Sent, lo: nat, hi: nat, later: nat)
    requires InTurn(trace, lo, hi) && lo <= hi <= sent.asked.from <= sent.asked.to < later
    ensures InTurn(trace + [sent], lo, later)
  {
  }

  /** The journal lock keeps other tabs from capturing into this account during the run. */
  ghost predicate LockHeld(env: Environment, scope: Scope) {
    forall n: nat, op | op in env.elsewhere(n) :: op.CaptureOp? ==> op.scope != scope
  }

  lemma StepKeepsActions(db: Db, op: Op, scope: Scope)
    requires op.CaptureOp? ==> op.scope != scope
    ensures KeysIn(Next(db, op).actions, scope) == KeysIn(db.actions, scope)
  {
    if op.CaptureOp? {
      CaptureShape(db, op);
    }
  }

  lemma {:induction false} RunKeepsActions(db: Db, ops: seq<Op>, scope: Scope)
    requires forall op | op in ops && op.CaptureOp? :: op.scope != scope
    ensures KeysIn(Run(db, ops).actions, scope) == KeysIn(db.actions, scope)
    decreases |ops|
  {
    if ops != [] {
      var n := |ops| - 1;
      assert forall op | op in ops[..n] :: op in ops;
      RunKeepsActions(db, ops[..n], scope);
      assert ops[n] in ops;
      StepKeepsActions(Run(db, ops[..n]), ops[n], scope);
    }
  }

  /** What every step of the run keeps of the journal it started from. */
  ghost predicate Carries(db: Db, start: Db, scope: Scope) {
    Inv(db) && Remembers(db, start) && KeysIn(db.actions, scope) == KeysIn(start.actions, scope)
  }

  lemma RunCarries(db: Db, start: Db, ops: seq<Op>, scope: Scope)
    requires Carries(db, start, scope) && forall op | op in ops && op.CaptureOp? :: op.scope != scope
    ensures Carries(Run(db, ops), start, scope)
  {
    RunKeepsInv(db, ops);
    EvidenceStays(db, ops);
    RunKeepsActions(db, ops, scope);
  }

  lemma StepCarries(db: Db, start: Db, op: Op, scope: Scope)
    requires Carries(db, start, scope) && (op.CaptureOp? ==> op.scope != scope)
    ensures Carries(Next(db, op), start, scope)
  {
    StepKeepsInv(db, op);
    StepRemembers(db, op);
    StepKeepsActions(db, op, scope);
  }

  lemma BindCarries(db: Db, start: Db, session: Session, deviceId: Id, scope: Scope)
    requires Carries(db, start, scope)
    ensures Carries(Bind(db, session, deviceId).0, start, scope)
  {
    BindIsARun(db, session, deviceId);
    var op: Op :| Bind(db, session, deviceId).0 == Next(db, op) && (op.BlockOp? || op.SelectOp?);
    StepCarries(db, start, op, scope);
  }
}
