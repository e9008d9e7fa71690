/** When the mapping refuses an event and what it otherwise makes of a state, said about the lists of the
    state alone. */
module ProjectionRules {
  import opened Wrappers
  import opened Ordering
  import opened Projection

  // ----- Refusals -----

  predicate FirstOutcome(outcomes: seq<Outcome>, attemptId: Id, i: nat) {
    i < |outcomes| && outcomes[i].attemptId == attemptId && forall j | 0 <= j < i :: outcomes[j].attemptId != attemptId
  }

  predicate FirstItem(items: seq<ReturnItem>, itemId: Id, i: nat) {
    i < |items| && items[i].itemId == itemId && forall j | 0 <= j < i :: items[j].itemId != itemId
  }

  /** The outcome that the event carries, if it carries one. */
  predicate Carries(e: Event, o: Outcome) {
    match e.body
    case OutcomeRecorded(outcome) => outcome == o
    case OutcomeCorrected(correction) => correction.outcome == o
    case _ => false
  }

  /** The attempt has an outcome already, of this or a higher revision. */
  ghost predicate Outdated(s: State, o: Outcome) {
    exists i: nat :: FirstOutcome(s.outcomes, o.attemptId, i) && o.revision <= s.outcomes[i].revision
  }

  /** The attempt has an outcome that is not the one which is corrected. */
  ghost predicate CorrectsAnother(s: State, c: Correction) {
    exists i: nat :: FirstOutcome(s.outcomes, c.outcome.attemptId, i)
      && (c.previousOutcomeId, c.previousRevision) != (Some(s.outcomes[i].outcomeId), s.outcomes[i].revision)
  }

  /** The request in place has an item that the move names, with enough of it unresolved. */
  ghost predicate CanMove(s: State, t: ReturnMove) {
    && s.returnRequest.Some? && s.returnRequest.value.requestId == t.requestId
    && exists i: nat :: FirstItem(s.returnItems, t.itemId, i) && t.quantity <= s.returnItems[i].unresolved
         && (s.returnItems[i].taskId, s.returnItems[i].sourceLineId) == (t.taskId, t.sourceLineId)
  }

  lemma {:induction false} FoundOutcome(outcomes: seq<Outcome>, attemptId: Id)
    ensures match FindOutcome(outcomes, attemptId)
      case None => forall i: nat :: !FirstOutcome(outcomes, attemptId, i)
      case Some(o) => exists i: nat :: FirstOutcome(outcomes, attemptId, i) && outcomes[i] == o
  {
    if outcomes != [] && outcomes[0].attemptId != attemptId {
      FoundOutcome(outcomes[1..], attemptId);
      if FindOutcome(outcomes[1..], attemptId).Some? {
        var i: nat :| FirstOutcome(outcomes[1..], attemptId, i) && outcomes[1..][i] == FindOutcome(outcomes, attemptId).value;
        assert forall j | 0 < j < i + 1 :: outcomes[j] == outcomes[1..][j - 1];
        assert FirstOutcome(outcomes, attemptId, i + 1);
      } else {
        assert forall i: nat | FirstOutcome(outcomes, attemptId, i) :: i > 0 && outcomes[1..][i - 1] == outcomes[i];
      }
    } else if outcomes != [] {
      assert FirstOutcome(outcomes, attemptId, 0);
    }
  }

  lemma FoundOutcomeIs(outcomes: seq<Outcome>, attemptId: Id, i: nat)
    requires FirstOutcome(outcomes, attemptId, i)
    ensures FindOutcome(outcomes, attemptId) == Some(outcomes[i])
  {
    FoundOutcome(outcomes, attemptId);
    var j: nat :| FirstOutcome(outcomes, attemptId, j) && Some(outcomes[j]) == FindOutcome(outcomes, attemptId);
    assert i == j;
  }

  lemma RefusedOutcome(s: State, o: Outcome, correction: Option<Correction>)
    requires correction.Some? ==> correction.value.outcome == o
    ensures RecordOutcome(s, o, correction) == Err(RevisionNotAdvanced) <==> Outdated(s, o)
    ensures RecordOutcome(s, o, correction) == Err(PredecessorMismatch) <==>
      !Outdated(s, o) && correction.Some? && CorrectsAnother(s, correction.value)
    ensures RecordOutcome(s, o, correction).Ok? <==>
      !Outdated(s, o) && (correction.Some? ==> !CorrectsAnother(s, correction.value))
  {
    FoundOutcome(s.outcomes, o.attemptId);
    forall i: nat | FirstOutcome(s.outcomes, o.attemptId, i) ensures FindOutcome(s.outcomes, o.attemptId) == Some(s.outcomes[i]) {
      FoundOutcomeIs(s.outcomes, o.attemptId, i);
    }
  }

  lemma RefusedMove(s: State, t: ReturnMove)
    ensures RecordMove(s, t).Ok? <==> CanMove(s, t)
    ensures RecordMove(s, t).Err? ==> RecordMove(s, t) == Err(ReturnMismatch)
  {
    var i := ItemIndex(s.returnItems, t.itemId);
    assert i < |s.returnItems| ==> FirstItem(s.returnItems, t.itemId, i);
    forall j: nat | FirstItem(s.returnItems, t.itemId, j) ensures j == i {
    }
  }

  /** Before any list is measured, an event is refused exactly for an outdated outcome, a correction of
      another outcome, or a move that does not fit. */
  lemma RefusedExactlyWhen(s: State, e: Event)
    ensures Project(s, e) == Err(RevisionNotAdvanced) <==> exists o :: Carries(e, o) && Outdated(s, o)
    ensures Project(s, e) == Err(PredecessorMismatch) <==>
      match e.body case OutcomeCorrected(c) => !Outdated(s, c.outcome) && CorrectsAnother(s, c) case _ => false
    ensures Project(s, e) == Err(ReturnMismatch) <==> match e.body case Moved(t) => !CanMove(s, t) case _ => false
  {
    match e.body
    case OutcomeRecorded(o) =>
      RefusedOutcome(s, o, None);
      assert Carries(e, o);
    case OutcomeCorrected(c) =>
      RefusedOutcome(s, c.outcome, Some(c));
      assert Carries(e, c.outcome);
    case Moved(t) => RefusedMove(s, t);
    case _ =>
  }

  // ----- What an accepted event makes of the state -----

  /** Provisioning has a notice for each resource; everything else that has one has it by its type. */
  predicate NoticeFor(n: Notice, e: Event) {
    n.event == e
    && match e.body
       case Provisioned(entity, resourceId) => n.key == ByResource(entity, resourceId)
       case Noted(eventType) => n.key == ByType(eventType)
       case _ => false
  }

  lemma {:induction false} OutcomesThinned(outcomes: seq<Outcome>, attemptId: Id)
    ensures Thinned(OutcomesWithout(outcomes, attemptId), outcomes, (o: Outcome) => o.attemptId == attemptId)
  {
    if outcomes != [] {
      OutcomesThinned(outcomes[1..], attemptId);
    }
  }

  lemma {:induction false} NoticesThinned(notices: seq<Notice>, key: NoticeKey)
    ensures Thinned(NoticesWithout(notices, key), notices, (n: Notice) => n.key == key)
  {
    if notices != [] {
      NoticesThinned(notices[1..], key);
    }
  }

  /** The last entry is new, and takes the place of those that `drop` names. */
  ghost predicate Replaced<T>(before: seq<T>, after: seq<T>, drop: T -> bool) {
    after != [] && Thinned(after[..|after| - 1], before, drop)
  }

  /** Each event changes its own part of the state and nothing else. */
  lemma AcceptedChanges(s: State, e: Event)
    requires Project(s, e).Ok?
    ensures var after := Project(s, e).value;
      && (!e.body.TaskChanged? ==> after.task == s.task)
      && (!(e.body.OutcomeRecorded? || e.body.OutcomeCorrected?) ==> after.outcomes == s.outcomes)
      && (!e.body.Requested? ==> after.returnRequest == s.returnRequest)
      && (!(e.body.Requested? || e.body.Moved?) ==> after.returnItems == s.returnItems)
      && (!(e.body.Provisioned? || e.body.Noted?) ==> after.notices == s.notices)
      && match e.body
         case TaskChanged(task) => after.task == Some(task)
         case OutcomeRecorded(o) =>
           Replaced(s.outcomes, after.outcomes, (x: Outcome) => x.attemptId == o.attemptId) && after.outcomes[|after.outcomes| - 1] == o
         case OutcomeCorrected(c) =>
           && Replaced(s.outcomes, after.outcomes, (x: Outcome) => x.attemptId == c.outcome.attemptId)
           && after.outcomes[|after.outcomes| - 1] == c.outcome
         case Requested(request) => after.returnRequest == Some(request) && ItemsOf(request, after.returnItems)
         case Moved(_) => DealtOnce(s.returnItems, after.returnItems, e)
         case _ =>
           && after.notices != [] && NoticeFor(after.notices[|after.notices| - 1], e)
           && Replaced(s.notices, after.notices, (n: Notice) => n.key == after.notices[|after.notices| - 1].key)
  {
    var after := Project(s, e).value;
    match e.body
    case OutcomeRecorded(o) => OutcomeReplaced(s, after, o);
    case OutcomeCorrected(c) => OutcomeReplaced(s, after, c.outcome);
    case Moved(_) => EventDeals(s, e);
    case Provisioned(_, _) => NoticeReplaced(s, after, Notice(KeyOf(e), e));
    case Noted(_) => NoticeReplaced(s, after, Notice(KeyOf(e), e));
    case _ =>
  }

  lemma OutcomeReplaced(s: State, after: State, o: Outcome)
    requires after.outcomes == OutcomesWithout(s.outcomes, o.attemptId) + [o]
    ensures Replaced(s.outcomes, after.outcomes, (x: Outcome) => x.attemptId == o.attemptId)
  {
    OutcomesThinned(s.outcomes, o.attemptId);
    assert after.outcomes[..|after.outcomes| - 1] == OutcomesWithout(s.outcomes, o.attemptId);
  }

  lemma NoticeReplaced(s: State, after: State, n: Notice)
    requires after.notices == NoticesWithout(s.notices, n.key) + [n]
    ensures Replaced(s.notices, after.notices, (x: Notice) => x.key == n.key)
  {
    NoticesThinned(s.notices, n.key);
    assert after.notices[..|after.notices| - 1] == NoticesWithout(s.notices, n.key);
  }

  /** One item for each of the request's, with its quantities. */
  predicate ItemsOf(request: Request, items: seq<ReturnItem>) {
    |items| == |request.items|
    && forall k | 0 <= k < |items| ::
         var from, item := request.items[k], items[k];
         && (item.itemId, item.taskId, item.sourceLineId, item.requested) == (from.itemId, from.taskId, from.sourceLineId, from.requested)
         && (item.received, item.lost, item.damaged, item.unresolved) == (from.received, from.lost, from.damaged, from.unresolved)
  }

  /** A list that is as long as allowed refuses what would make it longer, and nothing else is refused for
      its length. */
  lemma LimitExactlyWhen(s: State, e: Event)
    requires WellFormed(s)
    ensures Project(s, e) == Err(LimitExceeded) <==>
      match e.body
      case TaskChanged(_) => false
      case OutcomeRecorded(o) => |s.outcomes| == 1000 && forall x | x in s.outcomes :: x.attemptId != o.attemptId
      case OutcomeCorrected(c) => |s.outcomes| == 1000 && forall x | x in s.outcomes :: x.attemptId != c.outcome.attemptId
      case Requested(request) => |request.items| > 1000
      case Moved(_) => false
      case _ => |s.notices| == 1000 && forall n | n in s.notices :: !NoticeFor(Notice(n.key, e), e)
  {
    match e.body
    case OutcomeRecorded(o) =>
      RefusedOutcome(s, o, None);
      OneOutcomeLess(s.outcomes, o.attemptId);
    case OutcomeCorrected(c) =>
      RefusedOutcome(s, c.outcome, Some(c));
      OneOutcomeLess(s.outcomes, c.outcome.attemptId);
    case Provisioned(_, _) => OneNoticeLess(s.notices, KeyOf(e));
    case Noted(_) => OneNoticeLess(s.notices, KeyOf(e));
    case _ =>
  }

  lemma {:induction false} OneOutcomeLess(outcomes: seq<Outcome>, attemptId: Id)
    requires OnePerAttempt(outcomes)
    ensures |OutcomesWithout(outcomes, attemptId)| == |outcomes| - if exists x :: x in outcomes && x.attemptId == attemptId then 1 else 0
  {
    if outcomes != [] {
      OneOutcomeLess(outcomes[1..], attemptId);
      assert forall x | x in outcomes[1..] :: x in outcomes && x.attemptId != outcomes[0].attemptId;
    }
  }

  lemma {:induction false} OneNoticeLess(notices: seq<Notice>, key: NoticeKey)
    requires OnePerKey(notices)
    ensures |NoticesWithout(notices, key)| == |notices| - if exists n :: n in notices && n.key == key then 1 else 0
  {
    if notices != [] {
      OneNoticeLess(notices[1..], key);
      assert forall n | n in notices[1..] :: n in notices && n.key != notices[0].key;
    }
  }
}
