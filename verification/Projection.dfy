/** The public reference mapping from event streams to current state. */
module Projection {
  import opened Wrappers

  type Id = nat  // a UUID, read as its 128-bit number

  const LIST_LIMIT := 1000

  datatype AggregateType = Task | Assignment | Trip | Workday | ReturnRequest | Integration

  datatype Aggregate = Aggregate(kind: AggregateType, id: Id)

  datatype TaskView = TaskView(taskId: Id, content: string)

  datatype Outcome = Outcome(outcomeId: Id, attemptId: Id, taskId: Id, revision: nat, content: string)

  datatype Correction = Correction(previousOutcomeId: Option<Id>, previousRevision: nat, outcome: Outcome)

  datatype RequestItem = RequestItem(
    itemId: Id, taskId: Id, outcomeId: Id, sourceLineId: string,
    requested: nat, received: nat, lost: nat, damaged: nat, unresolved: nat)

  datatype Request = Request(requestId: Id, items: seq<RequestItem>)

  datatype MoveKind = Received | Lost | Damaged

  datatype ReturnMove = ReturnMove(
    requestId: Id, itemId: Id, taskId: Id, sourceLineId: string, kind: MoveKind, quantity: nat)

  datatype ReturnItem = ReturnItem(
    itemId: Id, taskId: Id, sourceLineId: string,
    requested: nat, received: nat, lost: nat, damaged: nat, unresolved: nat)

  /** What an event's type and payload say. `TaskChanged` is any payload that
      carries a task; `Moved` is a received subset or a disposition; `Provisioned`
      and `Noted` are every remaining event type. */
  datatype Body =
    | TaskChanged(task: TaskView)
    | OutcomeRecorded(outcome: Outcome)
    | OutcomeCorrected(correction: Correction)
    | Requested(request: Request)
    | Moved(move: ReturnMove)
    | Provisioned(entity: string, resourceId: Id)
    | Noted(eventType: string)

  datatype Event = Event(eventId: Id, aggregate: Aggregate, sequence: nat, body: Body)

  datatype NoticeKey = ByType(eventType: string) | ByResource(entity: string, resourceId: Id)

  datatype Notice = Notice(key: NoticeKey, event: Event)

  datatype State = State(
    task: Option<TaskView>, outcomes: seq<Outcome>, returnRequest: Option<Request>,
    returnItems: seq<ReturnItem>, notices: seq<Notice>)

  datatype ProjectionError = RevisionNotAdvanced | PredecessorMismatch | ReturnMismatch | LimitExceeded

  const EmptyProjection := State(None, [], None, [], [])

  // ----- Array helpers of the mapping -----

  function FindOutcome(outcomes: seq<Outcome>, attemptId: Id): (r: Option<Outcome>)
    ensures r.Some? ==> r.value in outcomes && r.value.attemptId == attemptId
    ensures r.None? ==> forall o | o in outcomes :: o.attemptId != attemptId
  {
    if outcomes == [] then None
    else if outcomes[0].attemptId == attemptId then Some(outcomes[0])
    else FindOutcome(outcomes[1..], attemptId)
  }

  function OutcomesWithout(outcomes: seq<Outcome>, attemptId: Id): (r: seq<Outcome>)
    ensures |r| <= |outcomes|
    ensures forall o :: o in r <==> o in outcomes && o.attemptId != attemptId
  {
    if outcomes == [] then []
    else if outcomes[0].attemptId == attemptId then OutcomesWithout(outcomes[1..], attemptId)
    else [outcomes[0]] + OutcomesWithout(outcomes[1..], attemptId)
  }

  function NoticesWithout(notices: seq<Notice>, key: NoticeKey): (r: seq<Notice>)
    ensures |r| <= |notices|
    ensures forall n :: n in r <==> n in notices && n.key != key
  {
    if notices == [] then []
    else if notices[0].key == key then NoticesWithout(notices[1..], key)
    else [notices[0]] + NoticesWithout(notices[1..], key)
  }

  /** Position of the first item with this id, or the length when there is none. */
  function ItemIndex(items: seq<ReturnItem>, itemId: Id): (i: nat)
    ensures i <= |items|
    ensures i < |items| ==> items[i].itemId == itemId
    ensures forall j | 0 <= j < i :: items[j].itemId != itemId
  {
    if items == [] then 0
    else if items[0].itemId == itemId then 0
    else 1 + ItemIndex(items[1..], itemId)
  }

  function RequestedItems(items: seq<RequestItem>): (r: seq<ReturnItem>)
    ensures |r| == |items|
    ensures forall i | 0 <= i < |items| ::
      r[i] == ReturnItem(items[i].itemId, items[i].taskId, items[i].sourceLineId, items[i].requested,
                         items[i].received, items[i].lost, items[i].damaged, items[i].unresolved)
  {
    seq(|items|, i requires 0 <= i < |items| =>
      ReturnItem(items[i].itemId, items[i].taskId, items[i].sourceLineId, items[i].requested,
                 items[i].received, items[i].lost, items[i].damaged, items[i].unresolved))
  }

  function MoveItem(item: ReturnItem, kind: MoveKind, quantity: nat): ReturnItem
    requires quantity <= item.unresolved
  {
    var rest := item.(unresolved := item.unresolved - quantity);
    match kind
    case Received => rest.(received := item.received + quantity)
    case Lost => rest.(lost := item.lost + quantity)
    case Damaged => rest.(damaged := item.damaged + quantity)
  }

  function KeyOf(e: Event): NoticeKey {
    match e.body
    case Provisioned(entity, resourceId) => ByResource(entity, resourceId)
    case Noted(eventType) => ByType(eventType)
    case _ => ByType("")
  }

  // ----- The mapping -----

  function RecordOutcome(s: State, outcome: Outcome, correction: Option<Correction>): Result<State, ProjectionError> {
    var prior := FindOutcome(s.outcomes, outcome.attemptId);
    if prior.Some? && outcome.revision <= prior.value.revision then Err(RevisionNotAdvanced)
    else if correction.Some? && prior.Some? &&
            (correction.value.previousOutcomeId != Some(prior.value.outcomeId) ||
             correction.value.previousRevision != prior.value.revision) then Err(PredecessorMismatch)
    else Ok(s.(outcomes := OutcomesWithout(s.outcomes, outcome.attemptId) + [outcome]))
  }

  function RecordMove(s: State, t: ReturnMove): Result<State, ProjectionError> {
    var i := ItemIndex(s.returnItems, t.itemId);
    if i == |s.returnItems| || s.returnRequest.None? || s.returnRequest.value.requestId != t.requestId ||
       s.returnItems[i].taskId != t.taskId || s.returnItems[i].sourceLineId != t.sourceLineId ||
       s.returnItems[i].unresolved < t.quantity then Err(ReturnMismatch)
    else Ok(s.(returnItems := s.returnItems[i := MoveItem(s.returnItems[i], t.kind, t.quantity)]))
  }

  function Change(s: State, e: Event): Result<State, ProjectionError> {
    match e.body
    case TaskChanged(task) => Ok(s.(task := Some(task)))
    case OutcomeRecorded(outcome) => RecordOutcome(s, outcome, None)
    case OutcomeCorrected(correction) => RecordOutcome(s, correction.outcome, Some(correction))
    case Requested(request) => Ok(s.(returnRequest := Some(request), returnItems := RequestedItems(request.items)))
    case Moved(move) => RecordMove(s, move)
    case _ => Ok(s.(notices := NoticesWithout(s.notices, KeyOf(e)) + [Notice(KeyOf(e), e)]))
  }

  predicate WithinLimits(s: State) {
    |s.outcomes| <= LIST_LIMIT && |s.returnItems| <= LIST_LIMIT && |s.notices| <= LIST_LIMIT
  }

  /** What one event makes of a state: the specification of `ProjectEvent`. */
  function Project(s: State, e: Event): Result<State, ProjectionError> {
    var r := Change(s, e);
    if r.Ok? && !WithinLimits(r.value) then Err(LimitExceeded) else r
  }

  /** The mapping as the client performs it: a copy changed in place, then checked. */
  method ProjectEvent(previous: State, e: Event) returns (r: Result<State, ProjectionError>)
    ensures r == Project(previous, e)
  {
    var state := previous;
    if e.body.TaskChanged? {
      state := state.(task := Some(e.body.task));
    } else if e.body.OutcomeRecorded? || e.body.OutcomeCorrected? {
      var correction := if e.body.OutcomeCorrected? then Some(e.body.correction) else None;
      var outcome := if e.body.OutcomeRecorded? then e.body.outcome else e.body.correction.outcome;
      var prior := FindOutcome(state.outcomes, outcome.attemptId);
      if prior.Some? && outcome.revision <= prior.value.revision {
        return Err(RevisionNotAdvanced);
      }
      if correction.Some? && prior.Some? &&
         (correction.value.previousOutcomeId != Some(prior.value.outcomeId) ||
          correction.value.previousRevision != prior.value.revision) {
        return Err(PredecessorMismatch);
      }
      state := state.(outcomes := OutcomesWithout(state.outcomes, outcome.attemptId));
      state := state.(outcomes := state.outcomes + [outcome]);
    } else if e.body.Requested? {
      state := state.(returnRequest := Some(e.body.request));
      state := state.(returnItems := RequestedItems(e.body.request.items));
    } else if e.body.Moved? {
      var t := e.body.move;
      var i := ItemIndex(state.returnItems, t.itemId);
      if i == |state.returnItems| || state.returnRequest.None? || state.returnRequest.value.requestId != t.requestId {
        return Err(ReturnMismatch);
      }
      var item := state.returnItems[i];
      if item.taskId != t.taskId || item.sourceLineId != t.sourceLineId || item.unresolved < t.quantity {
        return Err(ReturnMismatch);
      }
      match t.kind {
        case Received => item := item.(received := item.received + t.quantity);
        case Lost => item := item.(lost := item.lost + t.quantity);
        case Damaged => item := item.(damaged := item.damaged + t.quantity);
      }
      item := item.(unresolved := item.unresolved - t.quantity);
      state := state.(returnItems := state.returnItems[i := item]);
    } else {
      var key := KeyOf(e);
      state := state.(notices := NoticesWithout(state.notices, key));
      state := state.(notices := state.notices + [Notice(key, e)]);
    }
    if |state.outcomes| > LIST_LIMIT || |state.returnItems| > LIST_LIMIT || |state.notices| > LIST_LIMIT {
      return Err(LimitExceeded);
    }
    return Ok(state);
  }

  /** The trivial consumer: the producer's log, read in order from nothing. */
  function Fold(log: seq<Event>): Result<State, ProjectionError>
    decreases |log|
  {
    if log == [] then Ok(EmptyProjection)
    else
      var before := Fold(log[..|log| - 1]);
      if before.Err? then before else Project(before.value, log[|log| - 1])
  }

  // ----- What every event sequence keeps -----

  ghost predicate OnePerAttempt(outcomes: seq<Outcome>) {
    forall i, j | 0 <= i < j < |outcomes| :: outcomes[i].attemptId != outcomes[j].attemptId
  }

  ghost predicate OnePerKey(notices: seq<Notice>) {
    forall i, j | 0 <= i < j < |notices| :: notices[i].key != notices[j].key
  }

  ghost predicate WellFormed(s: State) {
    WithinLimits(s) && OnePerAttempt(s.outcomes) && OnePerKey(s.notices)
  }

  lemma {:induction false} ReplacingOutcomeKeepsOne(outcomes: seq<Outcome>, o: Outcome)
    requires OnePerAttempt(outcomes)
    ensures OnePerAttempt(OutcomesWithout(outcomes, o.attemptId) + [o])
  {
    var kept := OutcomesWithout(outcomes, o.attemptId);
    if outcomes != [] {
      ReplacingOutcomeKeepsOne(outcomes[1..], o);
      var rest := OutcomesWithout(outcomes[1..], o.attemptId);
      if outcomes[0].attemptId != o.attemptId {
        assert kept + [o] == [outcomes[0]] + (rest + [o]);
        forall k | 0 <= k < |rest| ensures rest[k].attemptId != outcomes[0].attemptId {
          assert rest[k] in outcomes[1..];
        }
      }
    }
  }

  lemma {:induction false} ReplacingNoticeKeepsOne(notices: seq<Notice>, n: Notice)
    requires OnePerKey(notices)
    ensures OnePerKey(NoticesWithout(notices, n.key) + [n])
  {
    var kept := NoticesWithout(notices, n.key);
    if notices != [] {
      ReplacingNoticeKeepsOne(notices[1..], n);
      var rest := NoticesWithout(notices[1..], n.key);
      if notices[0].key != n.key {
        assert kept + [n] == [notices[0]] + (rest + [n]);
        forall k | 0 <= k < |rest| ensures rest[k].key != notices[0].key {
          assert rest[k] in notices[1..];
        }
      }
    }
  }

  lemma ProjectKeepsWellFormed(s: State, e: Event)
    requires WellFormed(s) && Project(s, e).Ok?
    ensures WellFormed(Project(s, e).value)
  {
    match e.body
    case OutcomeRecorded(o) => ReplacingOutcomeKeepsOne(s.outcomes, o);
    case OutcomeCorrected(c) => ReplacingOutcomeKeepsOne(s.outcomes, c.outcome);
    case TaskChanged(_) =>
    case Requested(_) =>
    case Moved(_) =>
    case _ => ReplacingNoticeKeepsOne(s.notices, Notice(KeyOf(e), e));
  }

  /** Over every event sequence: one outcome per attempt, one notice per key, no list past the limit. */
  lemma {:induction false} FoldIsWellFormed(log: seq<Event>)
    requires Fold(log).Ok?
    ensures WellFormed(Fold(log).value)
    decreases |log|
  {
    if log != [] {
      FoldIsWellFormed(log[..|log| - 1]);
      ProjectKeepsWellFormed(Fold(log[..|log| - 1]).value, log[|log| - 1]);
    }
  }

  lemma {:induction false} FindAppended(outcomes: seq<Outcome>, o: Outcome, attemptId: Id)
    ensures FindOutcome(OutcomesWithout(outcomes, o.attemptId) + [o], attemptId) ==
            if attemptId == o.attemptId then Some(o) else FindOutcome(outcomes, attemptId)
  {
    var kept := OutcomesWithout(outcomes, o.attemptId);
    if outcomes == [] {
      assert kept + [o] == [o];
    } else {
      FindAppended(outcomes[1..], o, attemptId);
      if outcomes[0].attemptId != o.attemptId {
        assert (kept + [o])[1..] == OutcomesWithout(outcomes[1..], o.attemptId) + [o];
      }
    }
  }

  /** An attempt's outcome is either the one it had or one of a strictly higher revision. */
  ghost predicate Advances(before: Option<Outcome>, after: Option<Outcome>) {
    before.None? || (after.Some? && (after == before || before.value.revision < after.value.revision))
  }

  lemma ProjectAdvances(s: State, e: Event, attemptId: Id)
    requires Project(s, e).Ok?
    ensures Advances(FindOutcome(s.outcomes, attemptId), FindOutcome(Project(s, e).value.outcomes, attemptId))
  {
    match e.body
    case OutcomeRecorded(o) => FindAppended(s.outcomes, o, attemptId);
    case OutcomeCorrected(c) => FindAppended(s.outcomes, c.outcome, attemptId);
    case _ =>
  }

  /** Along a log the outcome of an attempt never disappears and every replacement has a higher revision. */
  lemma {:induction false} RevisionsRise(log: seq<Event>, i: nat, attemptId: Id)
    requires i <= |log| && Fold(log).Ok?
    ensures Fold(log[..i]).Ok?
    ensures Advances(FindOutcome(Fold(log[..i]).value.outcomes, attemptId),
                     FindOutcome(Fold(log).value.outcomes, attemptId))
    decreases |log|
  {
    if i == |log| {
      assert log[..i] == log;
    } else {
      var shorter := log[..|log| - 1];
      RevisionsRise(shorter, i, attemptId);
      assert shorter[..i] == log[..i];
      ProjectAdvances(Fold(shorter).value, log[|log| - 1], attemptId);
    }
  }

  /** Pieces that an event moves out of the item with this id as this kind. */
  function PiecesAs(e: Event, itemId: Id, kind: MoveKind): nat {
    if e.body.Moved? && e.body.move.itemId == itemId && e.body.move.kind == kind then e.body.move.quantity else 0
  }

  function MovedAs(log: seq<Event>, itemId: Id, kind: MoveKind): nat
    decreases |log|
  {
    if log == [] then 0
    else MovedAs(log[..|log| - 1], itemId, kind) + PiecesAs(log[|log| - 1], itemId, kind)
  }

  /** The same item with these pieces out of `unresolved` and each kind where it belongs; `unresolved`
      cannot fall below zero. */
  predicate Dealt(before: ReturnItem, after: ReturnItem, received: nat, lost: nat, damaged: nat) {
    && (after.itemId, after.taskId, after.sourceLineId, after.requested)
         == (before.itemId, before.taskId, before.sourceLineId, before.requested)
    && after.received == before.received + received && after.lost == before.lost + lost && after.damaged == before.damaged + damaged
    && before.unresolved == after.unresolved + received + lost + damaged
  }

  /** Moves name the first item of an id. */
  predicate FirstOfId(items: seq<ReturnItem>, k: nat)
    requires k < |items|
  {
    forall j | 0 <= j < k :: items[j].itemId != items[k].itemId
  }

  ghost predicate AllDealt(before: seq<ReturnItem>, after: seq<ReturnItem>, log: seq<Event>) {
    && |before| == |after|
    && forall k | 0 <= k < |before| ::
         if FirstOfId(before, k)
         then Dealt(before[k], after[k], MovedAs(log, before[k].itemId, Received), MovedAs(log, before[k].itemId, Lost),
                    MovedAs(log, before[k].itemId, Damaged))
         else after[k] == before[k]
  }

  predicate DealtBy(before: ReturnItem, after: ReturnItem, e: Event) {
    Dealt(before, after, PiecesAs(e, before.itemId, Received), PiecesAs(e, before.itemId, Lost), PiecesAs(e, before.itemId, Damaged))
  }

  ghost predicate DealtOnce(before: seq<ReturnItem>, after: seq<ReturnItem>, e: Event) {
    && |before| == |after|
    && forall k | 0 <= k < |before| ::
         if FirstOfId(before, k) then DealtBy(before[k], after[k], e) else after[k] == before[k]
  }

  lemma OneMoveDeals(item: ReturnItem, e: Event)
    requires e.body.Moved? && e.body.move.itemId == item.itemId && e.body.move.quantity <= item.unresolved
    ensures DealtBy(item, MoveItem(item, e.body.move.kind, e.body.move.quantity), e)
  {}

  lemma OthersKeep(item: ReturnItem, e: Event)
    requires !e.body.Moved? || e.body.move.itemId != item.itemId
    ensures DealtBy(item, item, e)
  {}

  lemma EventDeals(s: State, e: Event)
    requires Project(s, e).Ok? && !e.body.Requested?
    ensures DealtOnce(s.returnItems, Project(s, e).value.returnItems, e)
  {
    if e.body.Moved? {
      MoveDeals(s.returnItems, Project(s, e).value.returnItems, e, ItemIndex(s.returnItems, e.body.move.itemId));
    } else {
      forall k | 0 <= k < |s.returnItems| ensures DealtBy(s.returnItems[k], s.returnItems[k], e) {
        OthersKeep(s.returnItems[k], e);
      }
    }
  }

  lemma MoveDeals(items: seq<ReturnItem>, after: seq<ReturnItem>, e: Event, i: nat)
    requires e.body.Moved? && i < |items| && items[i].itemId == e.body.move.itemId && FirstOfId(items, i)
    requires e.body.move.quantity <= items[i].unresolved
    requires after == items[i := MoveItem(items[i], e.body.move.kind, e.body.move.quantity)]
    ensures DealtOnce(items, after, e)
  {
    OneMoveDeals(items[i], e);
    forall k | 0 <= k < |items| && k != i && FirstOfId(items, k) ensures DealtBy(items[k], after[k], e) {
      OthersKeep(items[k], e);
    }
  }

  lemma DealtFurther(before: seq<ReturnItem>, mid: seq<ReturnItem>, after: seq<ReturnItem>, log: seq<Event>, e: Event)
    requires AllDealt(before, mid, log) && DealtOnce(mid, after, e)
    ensures AllDealt(before, after, log + [e])
  {
    assert (log + [e])[..|log|] == log && (log + [e])[|log|] == e;
    assert forall k | 0 <= k < |before| :: mid[k].itemId == before[k].itemId;
    assert forall k | 0 <= k < |before| :: FirstOfId(before, k) <==> FirstOfId(mid, k);
  }

  /** After a return request no piece is made or lost: of each item exactly what the moves carried as
      received, as lost and as damaged has gone there out of `unresolved`. */
  lemma {:induction false} ReturnsConserve(log: seq<Event>, i: nat)
    requires i <= |log| && Fold(log).Ok?
    requires forall k | i <= k < |log| :: !log[k].body.Requested?
    ensures Fold(log[..i]).Ok?
    ensures AllDealt(Fold(log[..i]).value.returnItems, Fold(log).value.returnItems, log[i..])
    decreases |log|
  {
    if i == |log| {
      assert log[..i] == log;
    } else {
      var shorter, last := log[..|log| - 1], log[|log| - 1];
      ReturnsConserve(shorter, i);
      assert shorter[..i] == log[..i] && log[i..] == shorter[i..] + [last];
      EventDeals(Fold(shorter).value, last);
      DealtFurther(Fold(log[..i]).value.returnItems, Fold(shorter).value.returnItems, Fold(log).value.returnItems, shorter[i..], last);
    }
  }

  lemma OutcomesComeFromEvents(s: State, e: Event)
    requires Project(s, e).Ok?
    ensures forall o | o in Project(s, e).value.outcomes :: o in s.outcomes || EventOutcome(e) == Some(o)
  {
  }

  /** The outcome a payload carries, directly or inside its correction. */
  function EventOutcome(e: Event): Option<Outcome> {
    match e.body
    case OutcomeRecorded(o) => Some(o)
    case OutcomeCorrected(c) => Some(c.outcome)
    case _ => None
  }
}
