/** The worker's retry order starves no row. */
module ReceiverFairness {
  import opened Wrappers
  import opened Projection
  import opened Ordering
  import opened Receiver
  import opened ReceiverRefinement

  datatype Call = Call(rejects: set<Id>, now: int)

  // ----- A debt that every unsuccessful call lowers -----

  /** How many times `other` can still be preferred to a row with `attempts` attempts. */
  function Owed(inbox: map<Id, Row>, attempts: nat, other: Id): nat {
    if other in inbox && inbox[other].attempts <= attempts then attempts + 1 - inbox[other].attempts else 0
  }

  ghost function Owing(inbox: map<Id, Row>, attempts: nat, ids: set<Id>): nat
    decreases |ids|
  {
    if ids == {} then 0
    else
      var x :| x in ids;
      Owed(inbox, attempts, x) + Owing(inbox, attempts, ids - {x})
  }

  ghost function Debt(db: Db, id: Id): nat
    requires id in db.inbox
  {
    Owing(db.inbox, db.inbox[id].attempts, EligibleIds(db) - {id})
  }

  lemma {:induction false} OwingSplits(inbox: map<Id, Row>, attempts: nat, ids: set<Id>, x: Id)
    requires x in ids
    ensures Owing(inbox, attempts, ids) == Owed(inbox, attempts, x) + Owing(inbox, attempts, ids - {x})
    decreases |ids|
  {
    var y :| y in ids && Owing(inbox, attempts, ids) == Owed(inbox, attempts, y) + Owing(inbox, attempts, ids - {y});
    if x != y {
      OwingSplits(inbox, attempts, ids - {y}, x);
      OwingSplits(inbox, attempts, ids - {x}, y);
      assert ids - {y} - {x} == ids - {x} - {y};
    }
  }

  lemma {:induction false} OwingFalls(before: map<Id, Row>, after: map<Id, Row>, attempts: nat, ids: set<Id>)
    requires before.Keys == after.Keys && forall x | x in before :: before[x].attempts <= after[x].attempts
    ensures Owing(after, attempts, ids) <= Owing(before, attempts, ids)
    decreases |ids|
  {
    if ids != {} {
      var x :| x in ids;
      OwingSplits(before, attempts, ids, x);
      OwingSplits(after, attempts, ids, x);
      OwingFalls(before, after, attempts, ids - {x});
    }
  }

  // ----- What an unsuccessful pass does to the attempts -----

  ghost predicate AttemptsGrow(before: Db, after: Db) {
    before.inbox.Keys == after.inbox.Keys && forall x | x in before.inbox :: before.inbox[x].attempts <= after.inbox[x].attempts
  }

  lemma {:induction false} RowsCount(db: Db, ids: seq<Id>, rejects: set<Id>, now: int, target: Id)
    requires forall id | id in ids :: Eligible(db, id)
    requires Ready(db, target) && target !in rejects
    ensures forall id | id in ids :: id in db.inbox && db.inbox[id].envelope.aggregate in db.streams
    ensures var (after, applied) := ApplyRows(db, ids, rejects, now);
            !applied ==>
              && AttemptsGrow(db, after)
              && db.inbox[target].attempts == after.inbox[target].attempts
              && (ids != [] ==> ids[0] != target && db.inbox[ids[0]].attempts < after.inbox[ids[0]].attempts)
    decreases |ids|
  {
    if ids != [] {
      var id := ids[0];
      assert id in ids;
      RowShape(db, id, id in rejects, now);
      var (mid, result) := ApplyRow(db, id, id in rejects, now);
      if result.Skipped? {
        SameHistoryKeepsReady(db, mid);
        RowsCount(mid, ids[1..], rejects, now, target);
      }
    }
  }

  /** The row at the head of the page is never behind an eligible row. */
  lemma HeadComesFirst(db: Db, id: Id)
    requires Eligible(db, id)
    ensures Page(db) != []
    ensures Page(db)[0] != id ==> Before(db.inbox, Page(db)[0], id)
  {
    var ids := Page(db);
    if id in ids {
      var k :| 0 <= k < |ids| && ids[k] == id;
      assert k > 0 ==> Before(db.inbox, ids[0], ids[k]);
    }
  }

  lemma SameEligible(before: Db, after: Db)
    requires SameHistory(before, after)
    ensures EligibleIds(before) == EligibleIds(after)
  {
    SameHistoryKeepsReady(before, after);
  }

  /** A call that applies nothing leaves a ready row ready and lowers its debt. */
  lemma UnsuccessfulCallPays(db: Db, id: Id, call: Call)
    requires Ready(db, id) && id !in call.rejects
    ensures var (after, applied) := ApplyInbox(db, call.rejects, call.now);
            !applied ==> SameHistory(db, after) && Ready(after, id) && Debt(after, id) < Debt(db, id)
  {
    var (after, applied) := ApplyInbox(db, call.rejects, call.now);
    if !applied {
      ApplyShape(db, call.rejects, call.now);
      SameHistoryKeepsReady(db, after);
      SameEligible(db, after);
      HeadComesFirst(db, id);
      RowsCount(db, Page(db), call.rejects, call.now, id);
      var head, n, rest := Page(db)[0], db.inbox[id].attempts, EligibleIds(db) - {id};
      assert head in Page(db);
      assert head in rest;
      OwingSplits(db.inbox, n, rest, head);
      OwingSplits(after.inbox, n, rest, head);
      OwingFalls(db.inbox, after.inbox, n, rest - {head});
    }
  }

  /** Some call of the sequence applies an event. */
  ghost predicate SomeApplies(db: Db, calls: seq<Call>)
    decreases |calls|
  {
    calls != [] &&
    var (after, applied) := ApplyInbox(db, calls[0].rejects, calls[0].now);
    applied || SomeApplies(after, calls[1..])
  }

  /** While a row is ready and its own attempt is not made to fail, no more calls than its debt
      can pass without an event being applied, whatever happens to the other rows. */
  lemma {:induction false} NoStarvation(db: Db, id: Id, calls: seq<Call>)
    requires Ready(db, id) && |calls| > Debt(db, id)
    requires forall i | 0 <= i < |calls| :: id !in calls[i].rejects
    ensures SomeApplies(db, calls)
    decreases |calls|
  {
    UnsuccessfulCallPays(db, id, calls[0]);
    var (after, applied) := ApplyInbox(db, calls[0].rejects, calls[0].now);
    if !applied {
      NoStarvation(after, id, calls[1..]);
    }
  }
}
