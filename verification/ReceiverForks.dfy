/** Exactly when the order of application can matter: the converse of confluence. */
module ReceiverForks {
  import opened Wrappers
  import opened Projection
  import opened Receiver
  import opened ReceiverRefinement
  import opened ReceiverFairness
  import opened ReceiverConfluence
  import opened ReceiverAgreement

  // ----- Logs and their continuations -----

  ghost predicate UniqueOutcomes(log: Log) {
    forall e, f | Published(log, e) && Published(log, f) && EventOutcome(e).Some? && EventOutcome(f).Some? &&
                  EventOutcome(e).value.outcomeId == EventOutcome(f).value.outcomeId :: e == f
  }

  ghost predicate RequestsApart(log: Log) {
    forall e | Published(log, e) && e.aggregate.kind.Task? :: !e.body.Requested?
  }

  /** A log as a producer keeps it: every event in its place, ids used once, an outcome published
      once, return requests in streams of their own, and the whole readable. */
  ghost predicate Proper(log: Log) {
    InTheirPlaces(log) && UniqueIds(log) && UniqueOutcomes(log) && RequestsApart(log) && Readable(log)
  }

  /** `more` is what `log` has become after some further publications. */
  ghost predicate Extends(log: Log, more: Log) {
    forall agg | agg in log :: agg in more && log[agg] <= more[agg]
  }

  lemma ExtendsKeepsInv(log: Log, more: Log, db: Db)
    requires Inv(log, db) && Extends(log, more)
    ensures Inv(more, db)
  {
    forall id | id in db.inbox ensures Published(more, db.inbox[id].envelope) {
      assert Published(log, db.inbox[id].envelope);
    }
    forall agg | agg in db.streams ensures FollowsLog(more, agg, db.streams[agg]) {
      assert FollowsLog(log, agg, db.streams[agg]);
      if db.streams[agg].cursor > 0 {
        assert more[agg][..db.streams[agg].cursor] == log[agg][..db.streams[agg].cursor];
      }
    }
    forall agg, i | agg in db.streams && agg in more && db.streams[agg].snapshot <= i < db.streams[agg].cursor && i < |more[agg]|
      ensures Holds(db, agg, i, more[agg][i])
    {
      assert FollowsLog(log, agg, db.streams[agg]);
      assert Holds(db, agg, i, log[agg][i]);
    }
  }

  function Appended(log: Log, e: Event): Log {
    log[e.aggregate := EventsOf(log, e.aggregate) + [e]]
  }

  lemma AppendedPublishes(log: Log, e: Event, f: Event)
    requires e.sequence == |EventsOf(log, e.aggregate)| + 1
    ensures Published(Appended(log, e), f) <==> Published(log, f) || f == e
  {
  }

  /** `e` comes next in its stream, the mapping takes it, and the ids it brings are new. */
  ghost predicate CanFollow(log: Log, e: Event) {
    && e.sequence == |EventsOf(log, e.aggregate)| + 1
    && Fold(EventsOf(log, e.aggregate) + [e]).Ok?
    && (e.aggregate.kind.Task? ==> !e.body.Requested?)
    && (forall f | Published(log, f) :: f.eventId != e.eventId)
    && (forall f | Published(log, f) && EventOutcome(f).Some? && EventOutcome(e).Some? ::
          EventOutcome(f).value.outcomeId != EventOutcome(e).value.outcomeId)
  }

  lemma AppendingKeepsIds(log: Log, e: Event)
    requires UniqueIds(log) && CanFollow(log, e)
    ensures UniqueIds(Appended(log, e))
  {
    forall f ensures Published(Appended(log, e), f) <==> Published(log, f) || f == e {
      AppendedPublishes(log, e, f);
    }
  }

  lemma AppendingKeepsOutcomes(log: Log, e: Event)
    requires UniqueOutcomes(log) && CanFollow(log, e)
    ensures UniqueOutcomes(Appended(log, e))
  {
    forall f ensures Published(Appended(log, e), f) <==> Published(log, f) || f == e {
      AppendedPublishes(log, e, f);
    }
  }

  lemma AppendingKeepsApart(log: Log, e: Event)
    requires RequestsApart(log) && CanFollow(log, e)
    ensures RequestsApart(Appended(log, e))
  {
    forall f ensures Published(Appended(log, e), f) <==> Published(log, f) || f == e {
      AppendedPublishes(log, e, f);
    }
  }

  lemma AppendingKeepsProper(log: Log, e: Event)
    requires Proper(log) && CanFollow(log, e)
    ensures Proper(Appended(log, e)) && Extends(log, Appended(log, e)) && Published(Appended(log, e), e)
  {
    AppendingKeepsIds(log, e);
    AppendingKeepsOutcomes(log, e);
    AppendingKeepsApart(log, e);
    AppendedPublishes(log, e, e);
  }

  lemma {:induction false} AboveAll(ids: set<nat>) returns (n: nat)
    ensures forall id | id in ids :: id < n
    decreases |ids|
  {
    if ids == {} {
      n := 0;
    } else {
      var id :| id in ids;
      var below := AboveAll(ids - {id});
      n := if below > id then below else id + 1;
      assert forall x | x in ids :: x == id || x in ids - {id};
    }
  }

  lemma UnusedEventId(log: Log) returns (id: Id)
    ensures forall f | Published(log, f) :: f.eventId != id
  {
    var used := set agg, i | agg in log && 0 <= i < |log[agg]| :: log[agg][i].eventId;
    id := AboveAll(used);
    forall f | Published(log, f) ensures f.eventId != id {
      assert log[f.aggregate][f.sequence - 1].eventId in used;
    }
  }

  lemma UnusedOutcomeId(log: Log) returns (id: Id)
    ensures forall f | Published(log, f) && EventOutcome(f).Some? :: EventOutcome(f).value.outcomeId != id
  {
    var used := set agg, i | agg in log && 0 <= i < |log[agg]| && EventOutcome(log[agg][i]).Some? ::
      EventOutcome(log[agg][i]).value.outcomeId;
    id := AboveAll(used);
    forall f | Published(log, f) && EventOutcome(f).Some? ensures EventOutcome(f).value.outcomeId != id {
      assert EventOutcome(log[f.aggregate][f.sequence - 1]).value.outcomeId in used;
    }
  }

  lemma UnusedRequestId(log: Log, db: Db) returns (id: Id)
    ensures Aggregate(ReturnRequest, id) !in log && Aggregate(ReturnRequest, id) !in db.streams
  {
    var used := set agg | agg in log.Keys + db.streams.Keys :: agg.id;
    id := AboveAll(used);
    assert forall agg | agg in log.Keys + db.streams.Keys :: agg.id in used;
  }

  // ----- A correction that takes an outcome out of the state -----

  predicate HoldsOutcome(s: State, outcomeId: Id) {
    exists o | o in s.outcomes :: o.outcomeId == outcomeId
  }

  function CorrectionOf(o: Outcome, agg: Aggregate, sequence: nat, eventId: Id, outcomeId: Id): Event {
    Event(eventId, agg, sequence,
          OutcomeCorrected(Correction(Some(o.outcomeId), o.revision, Outcome(outcomeId, o.attemptId, o.taskId, o.revision + 1, ""))))
  }

  lemma {:induction false} WithoutIsShorter(outcomes: seq<Outcome>, o: Outcome)
    requires o in outcomes
    ensures |OutcomesWithout(outcomes, o.attemptId)| < |outcomes|
  {
    if outcomes[0].attemptId != o.attemptId {
      WithoutIsShorter(outcomes[1..], o);
    }
  }

  lemma OnlyOneForAttempt(outcomes: seq<Outcome>, o: Outcome)
    requires OnePerAttempt(outcomes) && o in outcomes
    ensures FindOutcome(outcomes, o.attemptId) == Some(o)
  {
    var found := FindOutcome(outcomes, o.attemptId).value;
    var i :| 0 <= i < |outcomes| && outcomes[i] == o;
    var j :| 0 <= j < |outcomes| && outcomes[j] == found;
  }

  lemma CorrectionReplaces(s: State, o: Outcome, agg: Aggregate, sequence: nat, eventId: Id, outcomeId: Id)
    requires WellFormed(s) && o in s.outcomes && outcomeId != o.outcomeId
    requires forall p | p in s.outcomes && p.outcomeId == o.outcomeId :: p == o
    ensures var next := Project(s, CorrectionOf(o, agg, sequence, eventId, outcomeId));
            next.Ok? && !HoldsOutcome(next.value, o.outcomeId)
  {
    OnlyOneForAttempt(s.outcomes, o);
    WithoutIsShorter(s.outcomes, o);
  }

  /** In a folded state an outcome id belongs to one outcome, which one event of the log carries. */
  lemma FoldedOnce(log: Log, agg: Aggregate, n: nat, o: Outcome, p: Outcome)
    requires InTheirPlaces(log) && UniqueOutcomes(log) && agg in log && n <= |log[agg]| && Fold(log[agg][..n]).Ok?
    requires o in Fold(log[agg][..n]).value.outcomes && p in Fold(log[agg][..n]).value.outcomes && o.outcomeId == p.outcomeId
    ensures o == p
  {
    var i := CarrierIn(log, agg, n, o);
    var j := CarrierIn(log, agg, n, p);
    assert Published(log, log[agg][i]) && Published(log, log[agg][j]);
  }

  lemma CarrierIn(log: Log, agg: Aggregate, n: nat, o: Outcome) returns (i: nat)
    requires agg in log && n <= |log[agg]| && Fold(log[agg][..n]).Ok? && o in Fold(log[agg][..n]).value.outcomes
    ensures i < n && EventOutcome(log[agg][i]) == Some(o)
  {
    FoldedOutcomes(log[agg][..n], o);
    i :| 0 <= i < n && EventOutcome(log[agg][..n][i]) == Some(o);
  }

  lemma AppendedFold(events: seq<Event>, e: Event)
    requires Fold(events).Ok?
    ensures Fold(events + [e]) == Project(Fold(events).value, e)
  {
    assert (events + [e])[..|events|] == events;
  }

  /** Some further publication, if any is needed, takes the outcome out of the stream's state. */
  lemma LoseOutcome(log: Log, agg: Aggregate, o: Outcome) returns (more: Log)
    requires Proper(log) && agg in log && agg.kind.Task? && o in Fold(log[agg]).value.outcomes
    ensures Proper(more) && Extends(log, more) && agg in more && more.Keys == log.Keys && !HoldsOutcome(Fold(more[agg]).value, o.outcomeId)
  {
    var eventId := UnusedEventId(log);
    var outcomeId := UnusedOutcomeId(log);
    var e := CorrectionOf(o, agg, |log[agg]| + 1, eventId, outcomeId);
    assert log[agg][..|log[agg]|] == log[agg];
    var i := CarrierIn(log, agg, |log[agg]|, o);
    assert Published(log, log[agg][i]);
    forall p | p in Fold(log[agg]).value.outcomes && p.outcomeId == o.outcomeId ensures p == o {
      FoldedOnce(log, agg, |log[agg]|, o, p);
    }
    FoldIsWellFormed(log[agg]);
    CorrectionReplaces(Fold(log[agg]).value, o, agg, |log[agg]| + 1, eventId, outcomeId);
    AppendedFold(log[agg], e);
    more := Appended(log, e);
    AppendingKeepsProper(log, e);
  }

  // ----- A return request that names the outcome -----

  function RequestFor(task: Id, outcomeId: Id, requestId: Id, eventId: Id): Event {
    Event(eventId, Aggregate(ReturnRequest, requestId), 1,
          Requested(Request(requestId, [RequestItem(0, task, outcomeId, "", 1, 0, 0, 0, 1)])))
  }

  lemma RequestProjects(e: Event, task: Id, outcomeId: Id, requestId: Id)
    requires e == RequestFor(task, outcomeId, requestId, e.eventId)
    ensures Project(EmptyProjection, e).Ok? && Fold([e]).Ok?
  {
    assert [e][..0] == [];
    assert Fold([]) == Ok(EmptyProjection);
  }

  lemma AskFor(log: Log, db: Db, agg: Aggregate, outcomeId: Id) returns (more: Log, e: Event)
    requires Proper(log)
    ensures Proper(more) && Extends(log, more) && Published(more, e) && (agg in log && agg.kind.Task? ==> more[agg] == log[agg])
    ensures e == RequestFor(agg.id, outcomeId, e.aggregate.id, e.eventId) && e.aggregate !in db.streams
    ensures forall f | Published(log, f) :: f.eventId != e.eventId
  {
    var eventId := UnusedEventId(log);
    var requestId := UnusedRequestId(log, db);
    e := RequestFor(agg.id, outcomeId, requestId, eventId);
    RequestProjects(e, agg.id, outcomeId, requestId);
    assert [] + [e] == [e];
    more := Appended(log, e);
    AppendingKeepsProper(log, e);
  }

  // ----- Delivering events -----

  lemma DeliverOneMore(log: Log, start: Db, db: Db, news: seq<Event>, e: Event)
    requires Inv(log, db) && UniqueIds(log) && Published(log, e) && Arrived(start, db, news)
    ensures var after := Next(db, StoreStep(e, None, 0)); Inv(log, after) && Arrived(start, after, news + [e])
  {
    DeliverOne(log, db, e, 0);
    StepKeepsInv(log, db, StoreStep(e, None, 0));
    ArrivedBoth(start, db, Next(db, StoreStep(e, None, 0)), news, [e]);
  }

  ghost predicate Deliveries(log: Log, steps: seq<Step>) {
    forall i | 0 <= i < |steps| :: steps[i].StoreStep? && Honest(log, steps[i])
  }

  lemma DeliveredThen(log: Log, db: Db, steps: seq<Step>, events: seq<Event>, e: Event)
    requires Deliveries(log, steps) && Inv(log, Run(db, steps)) && Arrived(db, Run(db, steps), events)
    requires UniqueIds(log) && Published(log, e)
    ensures var all := steps + [StoreStep(e, None, 0)];
            Deliveries(log, all) && Inv(log, Run(db, all)) && Arrived(db, Run(db, all), events + [e])
  {
    RunOneMore(db, steps, StoreStep(e, None, 0));
    DeliverOneMore(log, db, Run(db, steps), events, e);
  }

  /** Published events can be delivered, and then they are there. */
  lemma {:induction false} DeliverAll(log: Log, db: Db, events: seq<Event>) returns (steps: seq<Step>)
    requires Inv(log, db) && UniqueIds(log) && forall e | e in events :: Published(log, e)
    ensures Deliveries(log, steps) && Inv(log, Run(db, steps)) && Arrived(db, Run(db, steps), events)
    decreases |events|
  {
    if events == [] {
      steps := [];
    } else {
      var shorter, e := events[..|events| - 1], events[|events| - 1];
      steps := DeliverAll(log, db, shorter);
      DeliveredThen(log, db, steps, shorter, e);
      steps := steps + [StoreStep(e, None, 0)];
      assert events == shorter + [e];
    }
  }

  // ----- Making a chosen event the next one -----

  lemma {:induction false} AfterBoth(db: Db, first: seq<Call>, second: seq<Call>)
    ensures After(db, first + second) == After(After(db, first), second)
    decreases |first|
  {
    if first == [] {
      assert first + second == second;
    } else {
      var mid := ApplyInbox(db, first[0].rejects, first[0].now).0;
      AfterFirst(db, first[0], first[1..] + second);
      assert [first[0]] + (first[1..] + second) == first + second;
      AfterFirst(db, first[0], first[1..]);
      assert [first[0]] + first[1..] == first;
      AfterBoth(mid, first[1..], second);
    }
  }

  /** Any event that can be applied may be the next one applied: let every other write fail. */
  lemma {:induction false} ApplyNext(db: Db, id: Id) returns (calls: seq<Call>)
    requires Ready(db, id)
    ensures Fired(db, After(db, calls), id)
    decreases Debt(db, id)
  {
    var call := Call(db.inbox.Keys - {id}, 0);
    var (after, applied) := ApplyInbox(db, call.rejects, call.now);
    ApplyShape(db, call.rejects, call.now);
    if applied {
      var fired :| fired !in call.rejects && Ready(db, fired) && Fired(db, after, fired);
      assert fired == id;
      calls := [call];
      AfterFirst(db, call, []);
      assert [call] + [] == calls;
    } else {
      UnsuccessfulCallPays(db, id, call);
      var rest := ApplyNext(after, id);
      calls := [call] + rest;
      AfterFirst(db, call, rest);
      FiredAfterBookkeeping(db, after, After(after, rest), id);
    }
  }

  lemma {:induction false} WorkedAfter(db: Db, n: nat)
    ensures After(db, seq(n, _ => Call({}, 0))) == ReceiverAgreement.Worked(db, n, 0)
    decreases n
  {
    if n > 0 {
      var calls := seq(n, _ => Call({}, 0));
      assert calls[1..] == seq(n - 1, _ => Call({}, 0));
      WorkedAfter(ApplyInbox(db, {}, 0).0, n - 1);
    }
  }

  lemma WorkOut(db: Db) returns (calls: seq<Call>)
    ensures Quiescent(After(db, calls))
  {
    var n := WorkEnds(db, 0);
    calls := seq(n, _ => Call({}, 0));
    WorkedAfter(db, n);
  }

  // ----- An outcome that is gone for good -----

  /** No received event carries the outcome. */
  ghost predicate NoRowCarries(db: Db, outcomeId: Id) {
    forall id | id in db.inbox :: !Carries(db.inbox[id].envelope, outcomeId)
  }

  /** `q` waits for an outcome that neither the task's state nor any received event has. */
  ghost predicate WaitsForever(db: Db, agg: Aggregate, outcomeId: Id, q: Id) {
    && agg in db.streams && !HoldsOutcome(StateOf(db.streams[agg]), outcomeId) && NoRowCarries(db, outcomeId)
    && Asks(db, agg, outcomeId, q)
  }

  /** `q` is a received, unapplied request at the start of its own stream, for this outcome alone. */
  ghost predicate Asks(db: Db, agg: Aggregate, outcomeId: Id, q: Id) {
    && agg.kind.Task? && q in db.inbox && db.inbox[q].appliedAt.None?
    && (var e := db.inbox[q].envelope;
        && e == RequestFor(agg.id, outcomeId, e.aggregate.id, q)
        && e.aggregate in db.streams && db.streams[e.aggregate] == Stream(0, 0, None))
  }

  lemma WaitingIsNotReady(db: Db, agg: Aggregate, outcomeId: Id, q: Id)
    requires HistoryIsApplied(db) && WaitsForever(db, agg, outcomeId, q)
    ensures !Ready(db, q) && q !in db.transitions
  {
    var e := db.inbox[q].envelope;
    var item := RequestItem(0, agg.id, outcomeId, "", 1, 0, 0, 0, 1);
    assert item in e.body.request.items;
    assert agg == Aggregate(Task, item.taskId);
    forall id | id in db.transitions ensures !Carries(db.transitions[id], outcomeId) {
      assert db.transitions[id] == db.inbox[id].envelope;
    }
    assert !OutcomeKnown(db, item);
  }

  lemma FiringKeepsWaiting(db: Db, after: Db, agg: Aggregate, outcomeId: Id, q: Id, id: Id)
    requires WaitsForever(db, agg, outcomeId, q) && Ready(db, id) && Fired(db, after, id) && id != q
    requires db.inbox[id].envelope.aggregate != db.inbox[q].envelope.aggregate
    ensures WaitsForever(after, agg, outcomeId, q)
  {
    var e := db.inbox[id].envelope;
    if e.aggregate == agg && !Covered(db, e) {
      OutcomesComeFromEvents(StateOf(db.streams[agg]), e);
    }
  }

  lemma OthersElsewhere(log: Log, db: Db, agg: Aggregate, outcomeId: Id, q: Id, id: Id)
    requires RowsFromLog(log, db) && Asks(db, agg, outcomeId, q) && Ready(db, id) && id != q
    ensures db.inbox[id].envelope.aggregate != db.inbox[q].envelope.aggregate
  {
    if db.inbox[id].envelope.aggregate == db.inbox[q].envelope.aggregate {
      SameSlotSameRow(log, db, id, q);
    }
  }

  lemma {:induction false} WaitingStays(log: Log, db: Db, calls: seq<Call>, agg: Aggregate, outcomeId: Id, q: Id)
    requires Inv(log, db) && WaitsForever(db, agg, outcomeId, q)
    ensures q !in After(db, calls).transitions
    decreases |calls|
  {
    WaitingIsNotReady(db, agg, outcomeId, q);
    if calls != [] {
      var (after, applied) := ApplyInbox(db, calls[0].rejects, calls[0].now);
      ApplyShape(db, calls[0].rejects, calls[0].now);
      StepKeepsInv(log, db, ApplyStep(calls[0].rejects, calls[0].now));
      if applied {
        var id :| id !in calls[0].rejects && Ready(db, id) && Fired(db, after, id);
        OthersElsewhere(log, db, agg, outcomeId, q, id);
        FiringKeepsWaiting(db, after, agg, outcomeId, q, id);
      }
      WaitingStays(log, after, calls[1..], agg, outcomeId, q);
    }
  }

  // ----- The fork -----

  /** Both runs can go no further, and they end with different histories. */
  ghost predicate Fork(db: Db, first: seq<Call>, second: seq<Call>) {
    Quiescent(After(db, first)) && Quiescent(After(db, second)) && After(db, first).transitions != After(db, second).transitions
  }

  /** The task's state holds the outcome, no received event carries it, and `q` asks for it. */
  ghost predicate AtRisk(db: Db, agg: Aggregate, outcomeId: Id, q: Id) {
    && agg in db.streams && HoldsOutcome(StateOf(db.streams[agg]), outcomeId) && NoRowCarries(db, outcomeId)
    && Asks(db, agg, outcomeId, q)
  }

  /** The rest of the stream behind its cursor was received. */
  ghost predicate RestReceived(log: Log, db: Db, agg: Aggregate)
    requires agg in log && agg in db.streams
  {
    forall i | db.streams[agg].cursor <= i < |log[agg]| ::
      log[agg][i].eventId in db.inbox && db.inbox[log[agg][i].eventId].envelope == log[agg][i]
  }

  lemma RequestIsReady(db: Db, agg: Aggregate, outcomeId: Id, q: Id)
    requires HistoryIsApplied(db) && AtRisk(db, agg, outcomeId, q)
    ensures Ready(db, q)
  {
    var e := db.inbox[q].envelope;
    RequestProjects(e, agg.id, outcomeId, e.aggregate.id);
    forall item | item in e.body.request.items ensures OutcomeKnown(db, item) {
      assert agg == Aggregate(Task, item.taskId);
    }
  }

  lemma NextIsReady(log: Log, db: Db, agg: Aggregate)
    requires Inv(log, db) && Proper(log) && agg in log && agg in db.streams && agg.kind.Task? && RestReceived(log, db, agg)
    requires db.streams[agg].cursor < |log[agg]|
    ensures var e := log[agg][db.streams[agg].cursor];
            e.eventId in db.inbox && db.inbox[e.eventId].envelope == e && e.aggregate == agg && Ready(db, e.eventId) && !Covered(db, e)
  {
    var i := db.streams[agg].cursor;
    var e := log[agg][i];
    assert Published(log, e);
    NextProjects(log, db, agg, i);
    assert FollowsLog(log, agg, db.streams[agg]);
    assert RowInPlace(db, e.eventId);
  }

  /** The request first: it is applied and stays so. */
  lemma RequestFirst(log: Log, db: Db, q: Id) returns (calls: seq<Call>)
    requires Inv(log, db) && Ready(db, q)
    ensures Quiescent(After(db, calls)) && q in After(db, calls).transitions
  {
    var now := ApplyNext(db, q);
    var rest := WorkOut(After(db, now));
    calls := now + rest;
    AfterBoth(db, now, rest);
    RunAdds(log, db, now);
    RunAdds(log, After(db, now), rest);
  }

  lemma LosingWaits(log: Log, db: Db, after: Db, agg: Aggregate, outcomeId: Id, q: Id, id: Id)
    requires Inv(log, db) && AtRisk(db, agg, outcomeId, q) && Ready(db, id) && Fired(db, after, id) && id != q
    requires db.inbox[id].envelope.aggregate == agg && !Covered(db, db.inbox[id].envelope)
    requires !HoldsOutcome(Projected(db, db.inbox[id].envelope).value, outcomeId)
    ensures WaitsForever(after, agg, outcomeId, q)
  {
  }

  /** The event that takes the outcome away first: the request waits for ever. */
  lemma LossFirst(log: Log, db: Db, agg: Aggregate, outcomeId: Id, q: Id, id: Id) returns (calls: seq<Call>)
    requires Inv(log, db) && AtRisk(db, agg, outcomeId, q) && Ready(db, id) && id != q
    requires db.inbox[id].envelope.aggregate == agg && !Covered(db, db.inbox[id].envelope)
    requires !HoldsOutcome(Projected(db, db.inbox[id].envelope).value, outcomeId)
    ensures Quiescent(After(db, calls)) && q !in After(db, calls).transitions
  {
    var now := ApplyNext(db, id);
    var mid := After(db, now);
    LosingWaits(log, db, mid, agg, outcomeId, q, id);
    RunAdds(log, db, now);
    var rest := WorkOut(mid);
    calls := now + rest;
    AfterBoth(db, now, rest);
    WaitingStays(log, mid, rest, agg, outcomeId, q);
  }

  lemma KeepingStaysAtRisk(log: Log, db: Db, after: Db, agg: Aggregate, outcomeId: Id, q: Id, id: Id)
    requires Inv(log, db) && agg in log && AtRisk(db, agg, outcomeId, q) && RestReceived(log, db, agg)
    requires Ready(db, id) && Fired(db, after, id) && id != q
    requires db.inbox[id].envelope.aggregate == agg && !Covered(db, db.inbox[id].envelope)
    requires HoldsOutcome(Projected(db, db.inbox[id].envelope).value, outcomeId)
    ensures AtRisk(after, agg, outcomeId, q) && RestReceived(log, after, agg) && after.streams[agg].cursor == db.streams[agg].cursor + 1
  {
  }

  /** Where an outcome is at risk and its stream loses it in the end, two runs of the worker part. */
  lemma {:induction false} RunsPart(log: Log, db: Db, agg: Aggregate, outcomeId: Id, q: Id) returns (first: seq<Call>, second: seq<Call>)
    requires Inv(log, db) && Proper(log) && agg in log && AtRisk(db, agg, outcomeId, q) && RestReceived(log, db, agg)
    requires !HoldsOutcome(Fold(log[agg]).value, outcomeId)
    ensures Fork(db, first, second)
    decreases |log[agg]| - db.streams[agg].cursor
  {
    assert FollowsLog(log, agg, db.streams[agg]);
    assert log[agg][..|log[agg]|] == log[agg];
    NextIsReady(log, db, agg);
    var id := log[agg][db.streams[agg].cursor].eventId;
    if HoldsOutcome(Projected(db, db.inbox[id].envelope).value, outcomeId) {
      var now := ApplyNext(db, id);
      RunAdds(log, db, now);
      KeepingStaysAtRisk(log, db, After(db, now), agg, outcomeId, q, id);
      var a, b := RunsPart(log, After(db, now), agg, outcomeId, q);
      first, second := now + a, now + b;
      AfterBoth(db, now, a);
      AfterBoth(db, now, b);
    } else {
      RequestIsReady(db, agg, outcomeId, q);
      first := RequestFirst(log, db, q);
      second := LossFirst(log, db, agg, outcomeId, q, id);
    }
  }

  // ----- The exact condition -----

  lemma CarrierIsSettled(log: Log, db: Db, agg: Aggregate, i: nat, outcomeId: Id, id: Id)
    requires Inv(log, db) && InTheirPlaces(log) && UniqueOutcomes(log) && agg in db.streams && agg in log
    requires i < |log[agg]| && i < db.streams[agg].cursor && Carries(log[agg][i], outcomeId)
    requires id in db.inbox && Carries(db.inbox[id].envelope, outcomeId)
    ensures Settled(db, id)
  {
    assert Published(log, db.inbox[id].envelope) && Published(log, log[agg][i]) && RowInPlace(db, id);
  }

  /** An outcome that is not backed came in no event at all. */
  lemma UnbackedHasNoRow(log: Log, db: Db, agg: Aggregate, o: Outcome) returns (i: nat)
    requires Inv(log, db) && InTheirPlaces(log) && UniqueOutcomes(log) && agg in db.streams
    requires o in StateOf(db.streams[agg]).outcomes && !Backed(db, o.outcomeId)
    ensures NoRowCarries(db, o.outcomeId)
    ensures agg in log && i < |log[agg]| && i < db.streams[agg].cursor && EventOutcome(log[agg][i]) == Some(o)
  {
    assert FollowsLog(log, agg, db.streams[agg]);
    i := CarrierIn(log, agg, db.streams[agg].cursor, o);
    forall id | id in db.inbox ensures !Carries(db.inbox[id].envelope, o.outcomeId) {
      if Carries(db.inbox[id].envelope, o.outcomeId) {
        CarrierIsSettled(log, db, agg, i, o.outcomeId, id);
      }
    }
  }

  /** What later events of the stream and the request carry is something else. */
  lemma NewsCarryNothing(log: Log, agg: Aggregate, i: nat, from: nat, o: Outcome, q: Event)
    requires InTheirPlaces(log) && UniqueOutcomes(log) && agg in log && i < from <= |log[agg]| && EventOutcome(log[agg][i]) == Some(o)
    requires q.body.Requested?
    ensures forall e | e in log[agg][from..] + [q] :: !Carries(e, o.outcomeId)
  {
    forall e | e in log[agg][from..] + [q] ensures !Carries(e, o.outcomeId) {
      if e != q {
        var j :| from <= j < |log[agg]| && log[agg][j] == e;
        assert Published(log, log[agg][i]) && Published(log, log[agg][j]);
      }
    }
  }

  lemma ArrivedAtRisk(log: Log, db: Db, after: Db, agg: Aggregate, o: Outcome, q: Event, news: seq<Event>)
    requires RowsFromLog(log, after) && Arrived(db, after, news) && agg in db.streams && agg.kind.Task? && q in news
    requires o in StateOf(db.streams[agg]).outcomes && NoRowCarries(db, o.outcomeId)
    requires forall e | e in news :: !Carries(e, o.outcomeId)
    requires q == RequestFor(agg.id, o.outcomeId, q.aggregate.id, q.eventId) && q.aggregate !in db.streams && q.eventId !in db.inbox
    requires q.aggregate in after.streams
    ensures AtRisk(after, agg, o.outcomeId, q.eventId)
  {
  }

  lemma PublishForFork(log: Log, db: Db, agg: Aggregate, o: Outcome) returns (more: Log, q: Event)
    requires Inv(log, db) && Proper(log) && agg in log && agg.kind.Task?
    ensures Proper(more) && Extends(log, more) && Inv(more, db) && agg in more && !HoldsOutcome(Fold(more[agg]).value, o.outcomeId)
    ensures Published(more, q) && q == RequestFor(agg.id, o.outcomeId, q.aggregate.id, q.eventId)
    ensures q.aggregate !in db.streams && q.eventId !in db.inbox
  {
    var base := log;
    if HoldsOutcome(Fold(log[agg]).value, o.outcomeId) {
      var held :| held in Fold(log[agg]).value.outcomes && held.outcomeId == o.outcomeId;
      base := LoseOutcome(log, agg, held);
    }
    ExtendsKeepsInv(log, base, db);
    more, q := AskFor(base, db, agg, o.outcomeId);
    ExtendsKeepsInv(base, more, db);
  }

  /** An outcome that stands in a task's state and came in no applied or covered event: the producer may
      go on so that two runs of the worker end in different histories. */
  lemma UngroundedForks(log: Log, db: Db, agg: Aggregate, o: Outcome)
    returns (more: Log, steps: seq<Step>, first: seq<Call>, second: seq<Call>)
    requires Inv(log, db) && Proper(log) && agg in db.streams && agg.kind.Task?
    requires o in StateOf(db.streams[agg]).outcomes && !Backed(db, o.outcomeId)
    ensures Proper(more) && Extends(log, more) && Deliveries(more, steps)
    ensures Fork(Run(db, steps), first, second)
  {
    var i := UnbackedHasNoRow(log, db, agg, o);
    var q: Event;
    more, q := PublishForFork(log, db, agg, o);
    assert FollowsLog(more, agg, db.streams[agg]);
    var from := db.streams[agg].cursor;
    var news := more[agg][from..] + [q];
    RestIsPublished(more, agg, from, q);
    steps := DeliverAll(more, db, news);
    var after := Run(db, steps);
    assert q in news;
    assert RowInPlace(after, q.eventId);
    NewsCarryNothing(more, agg, i, from, o, q);
    ArrivedAtRisk(more, db, after, agg, o, q, news);
    RestArrived(more, db, after, agg, q);
    first, second := RunsPart(more, after, agg, o.outcomeId, q.eventId);
  }

  lemma RestIsPublished(log: Log, agg: Aggregate, from: nat, q: Event)
    requires InTheirPlaces(log) && agg in log && from <= |log[agg]| && Published(log, q)
    ensures forall e | e in log[agg][from..] + [q] :: Published(log, e)
  {
  }

  lemma RestArrived(log: Log, db: Db, after: Db, agg: Aggregate, q: Event)
    requires agg in log && agg in db.streams && db.streams[agg].cursor <= |log[agg]|
    requires Arrived(db, after, log[agg][db.streams[agg].cursor..] + [q])
    ensures RestReceived(log, after, agg)
  {
    var news := log[agg][db.streams[agg].cursor..] + [q];
    forall i | db.streams[agg].cursor <= i < |log[agg]|
      ensures log[agg][i].eventId in after.inbox && after.inbox[log[agg][i].eventId].envelope == log[agg][i]
    {
      assert news[i - db.streams[agg].cursor] == log[agg][i];
    }
  }

  /** Honest deliveries, repetitions and applications in any order, without a snapshot. */
  ghost predicate WithoutSnapshot(log: Log, steps: seq<Step>) {
    forall i | 0 <= i < |steps| :: Honest(log, steps[i]) && !steps[i].AdoptStep?
  }

  /** The run goes on until only what the schema refuses is left. */
  ghost predicate Exhausts(db: Db, calls: seq<Call>, accepts: State -> bool) {
    Obeys(db, calls, accepts) && Finished(After(db, calls), accepts)
  }

  /** If both runs can go no further then they agree. */
  ghost predicate Agrees(db: Db, first: seq<Call>, second: seq<Call>, accepts: State -> bool) {
    Exhausts(db, first, accepts) && Exhausts(db, second, accepts) ==>
      After(db, first).streams == After(db, second).streams && After(db, first).transitions == After(db, second).transitions
  }

  /** However the producer goes on and whatever arrives, the order of application makes no difference. */
  ghost predicate OrderNeverMatters(log: Log, db: Db) {
    forall more, steps, first, second, accepts | Proper(more) && Extends(log, more) && WithoutSnapshot(more, steps) ::
      Agrees(Run(db, steps), first, second, accepts)
  }

  lemma {:induction false} RunKeepsGrounded(log: Log, db: Db, steps: seq<Step>)
    requires Inv(log, db) && Grounded(db) && WithoutSnapshot(log, steps)
    ensures Inv(log, Run(db, steps)) && Grounded(Run(db, steps))
    decreases |steps|
  {
    if steps != [] {
      var before := steps[..|steps| - 1];
      RunKeepsGrounded(log, db, before);
      StepKeepsInv(log, Run(db, before), steps[|steps| - 1]);
      StepKeepsGrounded(Run(db, before), steps[|steps| - 1]);
    }
  }

  function TakesAll(s: State): bool {
    true
  }

  lemma {:induction false} AllObey(db: Db, calls: seq<Call>)
    ensures Obeys(db, calls, TakesAll)
    decreases |calls|
  {
    if calls != [] {
      AllObey(ApplyInbox(db, calls[0].rejects, calls[0].now).0, calls[1..]);
    }
  }

  lemma ForkDisagrees(db: Db, first: seq<Call>, second: seq<Call>)
    requires Fork(db, first, second)
    ensures !Agrees(db, first, second, TakesAll)
  {
    AllObey(db, first);
    AllObey(db, second);
  }

  lemma GroundedAgrees(log: Log, db: Db, first: seq<Call>, second: seq<Call>, accepts: State -> bool)
    requires Inv(log, db) && Grounded(db)
    ensures Agrees(db, first, second, accepts)
  {
    if Exhausts(db, first, accepts) && Exhausts(db, second, accepts) {
      Confluence(log, db, first, second, accepts);
    }
  }

  lemma GroundedNeverMatters(log: Log, db: Db)
    requires Inv(log, db) && Grounded(db)
    ensures OrderNeverMatters(log, db)
  {
    forall more, steps, first, second, accepts | Proper(more) && Extends(log, more) && WithoutSnapshot(more, steps)
      ensures Agrees(Run(db, steps), first, second, accepts)
    {
      ExtendsKeepsInv(log, more, db);
      RunKeepsGrounded(more, db, steps);
      GroundedAgrees(more, Run(db, steps), first, second, accepts);
    }
  }

  lemma ExampleMatters(log: Log, db: Db, more: Log, steps: seq<Step>, first: seq<Call>, second: seq<Call>, accepts: State -> bool)
    requires Proper(more) && Extends(log, more) && WithoutSnapshot(more, steps) && !Agrees(Run(db, steps), first, second, accepts)
    ensures !OrderNeverMatters(log, db)
  {
  }

  lemma UngroundedMatters(log: Log, db: Db)
    requires Inv(log, db) && Proper(log) && !Grounded(db)
    ensures !OrderNeverMatters(log, db)
  {
    var agg, o :| agg in db.streams && agg.kind.Task? && db.streams[agg].state.Some?
      && o in db.streams[agg].state.value.outcomes && !Backed(db, o.outcomeId);
    var more, steps, first, second := UngroundedForks(log, db, agg, o);
    ForkDisagrees(Run(db, steps), first, second);
    ExampleMatters(log, db, more, steps, first, second, TakesAll);
  }

  /** The order of application never matters exactly when every outcome in the state of a task stream
      came in as an event that is applied or covered by the snapshot. */
  lemma OrderMattersExactly(log: Log, db: Db)
    requires Inv(log, db) && Proper(log)
    ensures Grounded(db) <==> OrderNeverMatters(log, db)
  {
    if Grounded(db) {
      GroundedNeverMatters(log, db);
    } else {
      UngroundedMatters(log, db);
    }
  }

  lemma SampleKeepsInv()
    ensures Inv(SAMPLE_LOG, SAMPLE_DB)
  {
    SampleIsReachable();
    var steps := [AdoptStep(TASK, Snapshot(TASK, 1, AT_FIRST)), StoreStep(CORRECTED, None, 0), StoreStep(REQUEST, None, 0)];
    RunKeepsInv(SAMPLE_LOG, EmptyDb, steps);
  }

  lemma SampleIsProper()
    ensures Proper(SAMPLE_LOG)
  {
    SampleIsPublishedOnce();
    SampleIsReadable();
  }

  lemma SampleIsUngrounded()
    ensures !Grounded(SAMPLE_DB)
  {
    assert FIRST in AT_FIRST.outcomes && FIRST.outcomeId == 11;
    assert SAMPLE_DB.streams[TASK].state == Some(AT_FIRST);
    assert !Carries(CORRECTED, 11) && !Carries(REQUEST, 11);
    assert forall id | id in SAMPLE_DB.inbox :: SAMPLE_DB.inbox[id].envelope == CORRECTED || SAMPLE_DB.inbox[id].envelope == REQUEST;
    assert !Backed(SAMPLE_DB, 11);
  }

  /** The receiver of the sample is one for which the order matters: its snapshot covers an outcome that
      came in no event. */
  lemma SampleOrderMatters()
    ensures Inv(SAMPLE_LOG, SAMPLE_DB) && Proper(SAMPLE_LOG) && !Grounded(SAMPLE_DB)
    ensures !OrderNeverMatters(SAMPLE_LOG, SAMPLE_DB)
  {
    SampleKeepsInv();
    SampleIsProper();
    SampleIsUngrounded();
    OrderMattersExactly(SAMPLE_LOG, SAMPLE_DB);
  }
}
