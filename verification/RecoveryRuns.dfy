/** What a recovery call reports, what it commits, and where repeated calls lead. */
module RecoveryRuns {
  import opened Wrappers
  import opened Projection
  import opened Receiver
  import opened ReceiverRefinement
  import opened ReceiverFairness
  import opened ReceiverConfluence
  import opened ReceiverAgreement
  import opened Recovery

  // ----- One page -----

  /** The events continue the stream behind `after`, and each is admitted. */
  ghost predicate InOrder(agg: Aggregate, api: Api, after: nat, events: seq<Event>) {
    forall i | 0 <= i < |events| :: events[i].aggregate == agg && events[i].sequence == after + i + 1 && api.admits(events[i])
  }

  /** What stops a page in which `n` events were stored. */
  ghost predicate PageEnds(agg: Aggregate, api: Api, events: seq<Event>, after: nat, n: nat, failure: Option<Failure>)
    requires n <= |events|
  {
    if n == |events| then failure.None?
    else if events[n].aggregate != agg || events[n].sequence != after + n + 1 then failure == Some(InvalidReplay)
    else if !api.admits(events[n]) then failure == Some(NotAdmitted)
    else failure.Some? && failure.value.Conflict?
  }

  /** Exactly the first `n` events of the page were stored. */
  ghost predicate PageMeans(db: Db, agg: Aggregate, api: Api, events: seq<Event>, after: nat, p: StoredPage, n: nat) {
    && n <= |events| && p.after == after + n && InOrder(agg, api, after, events[..n])
    && PageEnds(agg, api, events, after, n, p.failure) && Arrived(db, p.db, events[..n])
  }

  /** Whether the first event of the page is stored. */
  ghost predicate Taken(db: Db, agg: Aggregate, api: Api, events: seq<Event>, after: nat, now: int) {
    && events != [] && events[0].aggregate == agg && events[0].sequence == after + 1 && api.admits(events[0])
    && !Store(db, events[0], None, now).1.Refused?
  }

  lemma FirstIsTaken(db: Db, agg: Aggregate, api: Api, events: seq<Event>, after: nat, now: int) returns (next: Db)
    requires Taken(db, agg, api, events, after, now)
    ensures Arrived(db, next, [events[0]]) && InOrder(agg, api, after, events[..1])
    ensures StoreFrom(db, agg, api, events, after, now) == StoreFrom(next, agg, api, events[1..], after + 1, now)
  {
    StoreArrives(db, events[0], None, now);
    next := Store(db, events[0], None, now).0;
  }

  lemma PageStops(db: Db, agg: Aggregate, api: Api, events: seq<Event>, after: nat, now: int)
    requires !Taken(db, agg, api, events, after, now)
    ensures PageMeans(db, agg, api, events, after, StoreFrom(db, agg, api, events, after, now), 0)
  {
    assert events[..0] == [];
    if events != [] {
      StoreArrives(db, events[0], None, now);
    }
  }

  /** A page is stored up to the first event that is out of place, not admitted or in conflict with
      what is there. */
  lemma {:induction false} PageMeaning(db: Db, agg: Aggregate, api: Api, events: seq<Event>, after: nat, now: int) returns (n: nat)
    ensures PageMeans(db, agg, api, events, after, StoreFrom(db, agg, api, events, after, now), n)
    decreases |events|
  {
    if Taken(db, agg, api, events, after, now) {
      var next := FirstIsTaken(db, agg, api, events, after, now);
      n := PageMeaning(next, agg, api, events[1..], after + 1, now);
      PageJoins(db, next, agg, api, events, after, StoreFrom(next, agg, api, events[1..], after + 1, now), n);
      n := n + 1;
    } else {
      n := 0;
      PageStops(db, agg, api, events, after, now);
    }
  }

  lemma PageJoins(db: Db, next: Db, agg: Aggregate, api: Api, events: seq<Event>, after: nat, p: StoredPage, n: nat)
    requires events != [] && InOrder(agg, api, after, events[..1]) && Arrived(db, next, [events[0]])
    requires PageMeans(next, agg, api, events[1..], after + 1, p, n)
    ensures PageMeans(db, agg, api, events, after, p, n + 1)
  {
    assert events[..1] == [events[0]];
    PartsJoin(db, next, p.db, agg, api, after, [events[0]], events[1..][..n]);
    assert events[..n + 1] == [events[0]] + events[1..][..n];
  }

  lemma PartsJoin(db: Db, next: Db, last: Db, agg: Aggregate, api: Api, after: nat, first: seq<Event>, second: seq<Event>)
    requires Arrived(db, next, first) && Arrived(next, last, second)
    requires InOrder(agg, api, after, first) && InOrder(agg, api, after + |first|, second)
    ensures Arrived(db, last, first + second) && InOrder(agg, api, after, first + second)
  {
    ArrivedBoth(db, next, last, first, second);
  }

  /** A conflict is noted, and nothing else is. */
  lemma {:induction false} PageNotes(db: Db, agg: Aggregate, api: Api, events: seq<Event>, after: nat, now: int)
    ensures var p := StoreFrom(db, agg, api, events, after, now);
            if p.failure.Some? && p.failure.value.Conflict?
            then after <= p.after < after + |events| &&
                 var e := events[p.after - after];
                 p.db.mismatches == db.mismatches + [Mismatch(e.eventId, Canonical(e), p.failure.value.reason)]
            else p.db.mismatches == db.mismatches
    decreases |events|
  {
    if events != [] && events[0].aggregate == agg && events[0].sequence == after + 1 && api.admits(events[0]) {
      PageNotes(Store(db, events[0], None, now).0, agg, api, events[1..], after + 1, now);
    }
  }

  // ----- Page after page -----

  /** The events of the first `n` answers, when each is asked for behind the one before. */
  function Whole(api: Api, after: nat, n: nat): seq<Event> {
    if n == 0 then [] else Whole(api, after, n - 1) + AnswerAt(api, n - 1, after + |Whole(api, after, n - 1)|)
  }

  function AnswerAt(api: Api, page: nat, after: nat): seq<Event> {
    if api.replay(page, after).Replayed? then api.replay(page, after).events else []
  }

  /** The answer to request `page`, asked behind `at`, carries events and promises more right behind them. */
  predicate Promises(api: Api, page: nat, at: nat) {
    var answer := api.replay(page, at);
    answer.Replayed? && answer.events != [] && answer.nextAfterSequence == Some(at + |answer.events|)
  }

  /** How the answer to request `page`, asked behind `at`, ends the fetch once `tail` of it was stored. */
  ghost predicate FetchEnds(agg: Aggregate, api: Api, page: nat, at: nat, tail: seq<Event>, fetch: Fetch) {
    if page >= 10 then tail == [] && fetch == PagesUsedUp
    else
      match api.replay(page, at)
      case Expired => tail == [] && fetch == HistoryGone
      case Unavailable => tail == [] && fetch == FetchFailed(ReplayUnavailable)
      case Malformed => tail == [] && fetch == FetchFailed(InvalidReplay)
      case Replayed(events, next) =>
        && tail <= events
        && if |tail| < |events| then fetch.FetchFailed? && PageEnds(agg, api, events, at, |tail|, Some(fetch.failure))
           else if next.None? then fetch == Complete
           else fetch == FetchFailed(InvalidReplay) && (next.value != at + |events| || events == [])
  }

  /** From one request to the next the whole answer was stored, and it promised more. */
  ghost predicate Moves(agg: Aggregate, api: Api, page: nat, state: (Db, nat), next: (Db, nat)) {
    var events := AnswerAt(api, page, state.1);
    && Promises(api, page, state.1) && next.1 == state.1 + |events|
    && InOrder(agg, api, state.1, events) && Arrived(state.0, next.0, events)
  }

  lemma OnwardsMoves(agg: Aggregate, api: Api, page: nat, state: (Db, nat), next: (Db, nat), now: int)
    requires AskPage(state.0, agg, api, page, state.1, now) == Onwards(next.0, next.1)
    ensures Moves(agg, api, page, state, next)
  {
    var events := api.replay(page, state.1).events;
    var k := PageMeaning(state.0, agg, api, events, state.1, now);
    assert events[..k] == events;
  }

  /** The answer to the last request was stored in part, and ended the fetch. */
  ghost predicate Stops(agg: Aggregate, api: Api, page: nat, state: (Db, nat), tail: seq<Event>, f: Fetched) {
    && FetchEnds(agg, api, page, state.1, tail, f.fetch) && f.after == state.1 + |tail|
    && InOrder(agg, api, state.1, tail) && Arrived(state.0, f.db, tail)
  }

  lemma EndedStops(agg: Aggregate, api: Api, page: nat, state: (Db, nat), f: Fetched, now: int) returns (tail: seq<Event>)
    requires page < PAGES && AskPage(state.0, agg, api, page, state.1, now) == Ended(f)
    ensures Stops(agg, api, page, state, tail, f)
  {
    tail := [];
    if api.replay(page, state.1).Replayed? {
      var events := api.replay(page, state.1).events;
      var k := PageMeaning(state.0, agg, api, events, state.1, now);
      tail := events[..k];
      assert k == |events| ==> tail == events;
    }
  }

  ghost predicate AllMove(agg: Aggregate, api: Api, states: seq<(Db, nat)>) {
    forall i | 0 <= i < |states| - 1 :: Moves(agg, api, i, states[i], states[i + 1])
  }

  lemma RequestsMove(states: seq<(Db, nat)>, agg: Aggregate, api: Api, now: int, f: Fetched) returns (tail: seq<Event>)
    requires Requests(states, 0, Asker(agg, api, now), f)
    ensures AllMove(agg, api, states) && Stops(agg, api, |states| - 1, states[|states| - 1], tail, f)
  {
    forall i | 0 <= i < |states| - 1 ensures Moves(agg, api, i, states[i], states[i + 1]) {
      assert Asker(agg, api, now)(states[i].0, 0 + i, states[i].1) == Onwards(states[i + 1].0, states[i + 1].1);
      OnwardsMoves(agg, api, i, states[i], states[i + 1], now);
    }
    var n: nat := |states| - 1;
    if n == PAGES {
      tail := [];
    } else {
      tail := EndedStops(agg, api, n, states[n], f, now);
    }
  }

  /** Before request `k` exactly the first `k` answers were stored. */
  ghost predicate Reached(db: Db, agg: Aggregate, api: Api, after: nat, state: (Db, nat), k: nat) {
    && state.1 == after + |Whole(api, after, k)| && InOrder(agg, api, after, Whole(api, after, k))
    && Arrived(db, state.0, Whole(api, after, k))
  }

  /** The answer behind the first `i` promises more. */
  predicate PromisesAfter(api: Api, after: nat, i: nat) {
    Promises(api, i, after + |Whole(api, after, i)|)
  }

  lemma ReachedNext(db: Db, agg: Aggregate, api: Api, after: nat, state: (Db, nat), next: (Db, nat), k: nat)
    requires Reached(db, agg, api, after, state, k) && Moves(agg, api, k, state, next)
    ensures Reached(db, agg, api, after, next, k + 1) && PromisesAfter(api, after, k)
  {
    PartsJoin(db, state.0, next.0, agg, api, after, Whole(api, after, k), AnswerAt(api, k, state.1));
  }

  lemma {:induction false} ReachedAt(states: seq<(Db, nat)>, agg: Aggregate, api: Api, after: nat, k: nat)
    requires AllMove(agg, api, states) && k < |states| && states[0].1 == after
    ensures Reached(states[0].0, agg, api, after, states[k], k) && forall i | 0 <= i < k :: PromisesAfter(api, after, i)
  {
    if k == 0 {
      assert Arrived(states[0].0, states[0].0, []);
    } else {
      var i: nat := k - 1;
      ReachedAt(states, agg, api, after, i);
      assert Moves(agg, api, i, states[i], states[i + 1]);
      ReachedNext(states[0].0, agg, api, after, states[i], states[k], i);
    }
  }

  /** `f` stored `n` whole answers, all of which promised more, and `tail` of the one that ended it. */
  ghost predicate Means(db: Db, agg: Aggregate, api: Api, after: nat, f: Fetched, n: nat, tail: seq<Event>) {
    var whole := Whole(api, after, n);
    && (forall i | 0 <= i < n :: PromisesAfter(api, after, i))
    && FetchEnds(agg, api, n, after + |whole|, tail, f.fetch)
    && f.after == after + |whole + tail| && InOrder(agg, api, after, whole + tail) && Arrived(db, f.db, whole + tail)
  }

  /** A fetch stores whole answers as long as they promise more, and then stops for exactly one reason. */
  lemma FetchMeaning(db: Db, agg: Aggregate, api: Api, after: nat, now: int) returns (n: nat, tail: seq<Event>)
    ensures Means(db, agg, api, after, FetchFrom(db, agg, api, after, now), n, tail)
  {
    var f := FetchFrom(db, agg, api, after, now);
    var states := PagesMeaning(db, 0, after, Asker(agg, api, now));
    tail := RequestsMove(states, agg, api, now, f);
    n := |states| - 1;
    StopsAt(states, agg, api, after, f, tail);
  }

  lemma StopsAt(states: seq<(Db, nat)>, agg: Aggregate, api: Api, after: nat, f: Fetched, tail: seq<Event>)
    requires |states| > 0 && AllMove(agg, api, states) && states[0].1 == after
    requires Stops(agg, api, |states| - 1, states[|states| - 1], tail, f)
    ensures Means(states[0].0, agg, api, after, f, |states| - 1, tail)
  {
    var n: nat := |states| - 1;
    ReachedAt(states, agg, api, after, n);
    PartsJoin(states[0].0, states[n].0, f.db, agg, api, after, Whole(api, after, n), tail);
  }

  // ----- The whole call -----

  lemma ArrivedHas(before: Db, after: Db, news: seq<Event>, agg: Aggregate, n: nat)
    requires Arrived(before, after, news) && Has(before, agg, n)
    ensures Has(after, agg, n)
  {
    var id :| id in before.inbox && before.inbox[id].envelope.aggregate == agg && before.inbox[id].envelope.sequence == n;
    assert id in after.inbox;
  }

  /** What was received behind an unbroken part lengthens it. */
  lemma ArrivedExtends(before: Db, after: Db, agg: Aggregate, api: Api, start: nat, events: seq<Event>)
    requires ReceivedUpTo(before, agg, start) && InOrder(agg, api, start, events) && Arrived(before, after, events)
    ensures ReceivedUpTo(after, agg, start + |events|)
  {
    forall k | 1 <= k <= start + |events| ensures Has(after, agg, k) {
      if k <= start {
        ArrivedHas(before, after, events, agg, k);
      } else {
        var e := events[k - start - 1];
        assert e in events;
        assert after.inbox[e.eventId].envelope == e;
      }
    }
  }

  lemma SameRowsStillReceived(before: Db, after: Db, agg: Aggregate, n: nat)
    requires SameRows(before.inbox, after.inbox) && ReceivedUpTo(before, agg, n)
    ensures ReceivedUpTo(after, agg, n)
  {
    forall k | 1 <= k <= n ensures Has(after, agg, k) {
      assert Has(before, agg, k);
      var id :| id in before.inbox && before.inbox[id].envelope.aggregate == agg && before.inbox[id].envelope.sequence == k;
      assert after.inbox[id].envelope == before.inbox[id].envelope;
    }
  }

  lemma OpeningKeepsThrough(db: Db, agg: Aggregate)
    ensures ReceivedThrough(EnsureStream(db, agg), agg) == ReceivedThrough(db, agg)
    ensures Arrived(db, EnsureStream(db, agg), [])
  {
    var open := EnsureStream(db, agg);
    assert ReceivedTo(db, agg, ReceivedThrough(open, agg)) by {
      assert forall n: nat :: Has(open, agg, n) == Has(db, agg, n);
    }
    ReceivedToIsUnique(db, agg, ReceivedThrough(open, agg), ReceivedThrough(db, agg));
  }

  /** The fetch of a call, from the tables as it finds them. */
  ghost function FetchOf(db: Db, agg: Aggregate, api: Api, now: int): Fetched {
    FetchFrom(EnsureStream(db, agg), agg, api, ReceivedThrough(EnsureStream(db, agg), agg), now)
  }

  function StreamOf(db: Db, agg: Aggregate): Stream {
    if agg in db.streams then db.streams[agg] else Stream(0, 0, None)
  }

  function AtSnapshotOf(s: Snapshot): Stream {
    Stream(s.throughSequence, s.throughSequence, Some(s.state))
  }

  /** Why a call ends without a status. */
  function FailureOf(agg: Aggregate, api: Api, fetch: Fetch): Option<Failure> {
    if fetch.FetchFailed? then Some(fetch.failure)
    else if !fetch.HistoryGone? then None
    else if api.snapshot.None? then Some(SnapshotUnavailable)
    else if !SnapshotFits(agg, api.snapshot.value) then Some(InvalidSnapshotBody)
    else None
  }

  /** The snapshot is asked for only when the history is gone; it counts if it fits and lies ahead. */
  predicate Jumps(db: Db, agg: Aggregate, api: Api, fetch: Fetch) {
    && fetch.HistoryGone? && api.snapshot.Some? && SnapshotFits(agg, api.snapshot.value)
    && StreamOf(db, agg).cursor < api.snapshot.value.throughSequence
  }

  lemma OpenedMeans(db: Db, agg: Aggregate, api: Api, after: nat, f: Fetched, n: nat, tail: seq<Event>)
    requires Means(EnsureStream(db, agg), agg, api, after, f, n, tail)
    ensures Means(db, agg, api, after, f, n, tail)
  {
    var news := Whole(api, after, n) + tail;
    ArrivedBoth(db, EnsureStream(db, agg), f.db, [], news);
    assert [] + news == news;
  }

  lemma FetchOfMeaning(db: Db, agg: Aggregate, api: Api, now: int) returns (n: nat, tail: seq<Event>)
    ensures Means(db, agg, api, ReceivedThrough(db, agg), FetchOf(db, agg, api, now), n, tail)
  {
    OpeningKeepsThrough(db, agg);
    n, tail := FetchMeaning(EnsureStream(db, agg), agg, api, ReceivedThrough(db, agg), now);
    OpenedMeans(db, agg, api, ReceivedThrough(db, agg), FetchOf(db, agg, api, now), n, tail);
  }

  /** What a call makes of its fetch. */
  lemma MissingMeaning(db: Db, agg: Aggregate, api: Api, now: int)
    ensures var f, r := FetchOf(db, agg, api, now), Missing(db, agg, api, now);
            && r.through == f.after && r.failure == FailureOf(agg, api, f.fetch) && r.db.inbox == f.db.inbox
            && r.db.adoptions == f.db.adoptions + (if Jumps(f.db, agg, api, f.fetch) then [api.snapshot.value] else [])
            && StreamOf(r.db, agg) == if Jumps(f.db, agg, api, f.fetch) then AtSnapshotOf(api.snapshot.value) else StreamOf(f.db, agg)
  {
    var f := FetchOf(db, agg, api, now);
    assert f.db.adoptions + [] == f.db.adoptions;
  }

  lemma {:induction false} StoringAdoptsNothing(db: Db, agg: Aggregate, api: Api, events: seq<Event>, after: nat, now: int)
    ensures StoreFrom(db, agg, api, events, after, now).db.adoptions == db.adoptions
    decreases |events|
  {
    if Taken(db, agg, api, events, after, now) {
      StoringAdoptsNothing(Store(db, events[0], None, now).0, agg, api, events[1..], after + 1, now);
    }
  }

  lemma TurnAdoptsNothing(db: Db, agg: Aggregate, api: Api, page: nat, after: nat, now: int)
    ensures var turn := AskPage(db, agg, api, page, after, now);
            (if turn.Onwards? then turn.db else turn.result.db).adoptions == db.adoptions
  {
    if api.replay(page, after).Replayed? {
      StoringAdoptsNothing(db, agg, api, api.replay(page, after).events, after, now);
    }
  }

  lemma {:induction false} RequestsAdoptNothing(states: seq<(Db, nat)>, agg: Aggregate, api: Api, now: int, f: Fetched, k: nat)
    requires Requests(states, 0, Asker(agg, api, now), f) && k < |states|
    ensures states[k].0.adoptions == states[0].0.adoptions
  {
    if k > 0 {
      var i: nat := k - 1;
      RequestsAdoptNothing(states, agg, api, now, f, i);
      assert Asker(agg, api, now)(states[i].0, 0 + i, states[i].1) == Onwards(states[i + 1].0, states[i + 1].1);
      TurnAdoptsNothing(states[i].0, agg, api, i, states[i].1, now);
    }
  }

  lemma FetchingAdoptsNothing(db: Db, agg: Aggregate, api: Api, after: nat, now: int)
    ensures FetchFrom(db, agg, api, after, now).db.adoptions == db.adoptions
  {
    var f := FetchFrom(db, agg, api, after, now);
    var states := PagesMeaning(db, 0, after, Asker(agg, api, now));
    var k: nat := |states| - 1;
    RequestsAdoptNothing(states, agg, api, now, f, k);
    TurnAdoptsNothing(states[k].0, agg, api, k, states[k].1, now);
  }

  lemma {:induction false} RowsAdoptNothing(db: Db, ids: seq<Id>, rejects: set<Id>, now: int)
    requires forall id | id in ids :: id in db.inbox && db.inbox[id].envelope.aggregate in db.streams
    ensures ApplyRows(db, ids, rejects, now).0.adoptions == db.adoptions
    decreases |ids|
  {
    if ids != [] && ApplyRow(db, ids[0], ids[0] in rejects, now).1.Skipped? {
      RowsAdoptNothing(ApplyRow(db, ids[0], ids[0] in rejects, now).0, ids[1..], rejects, now);
    }
  }

  lemma CallAdoptsNothing(db: Db, rejects: set<Id>, now: int, after: Db)
    requires after == ApplyInbox(db, rejects, now).0
    ensures after.adoptions == db.adoptions
  {
    RowsAdoptNothing(db, Page(db), rejects, now);
  }

  lemma {:induction false} AdoptionsAlong(states: seq<Db>, n: nat, bound: nat, rejects: nat -> set<Id>, now: int, k: nat)
    requires Steps(states, n, bound, Worker(rejects, now)) && k < |states|
    ensures states[0].adoptions == states[k].adoptions
  {
    if k > 0 {
      var i: nat := k - 1;
      AdoptionsAlong(states, n, bound, rejects, now, i);
      assert states[i + 1] == Worker(rejects, now)(states[i], n + i).0;
      CallAdoptsNothing(states[i], rejects(n + i), now, states[k]);
    }
  }

  lemma ApplyingAdoptsNothing(db: Db, rejects: nat -> set<Id>, now: int)
    ensures WorkedThrough(db, rejects, now).adoptions == db.adoptions
  {
    var states := UntilMeaning(db, 0, APPLICATIONS, Worker(rejects, now));
    AdoptionsAlong(states, 0, APPLICATIONS, rejects, now, |states| - 1);
  }

  /** A call asks behind the unbroken part of the stream, stores whole answers and a part of the one
      that ends the fetch, and is refused for exactly one reason; everything through `through` is then
      received without a hole. The snapshot is adopted only when the history is gone. */
  lemma ReconcileMeaning(db: Db, agg: Aggregate, api: Api, rejects: nat -> set<Id>, now: int)
    returns (n: nat, tail: seq<Event>)
    ensures var f, r, start := FetchOf(db, agg, api, now), Reconciled(db, agg, api, rejects, now), ReceivedThrough(db, agg);
            && Means(db, agg, api, start, f, n, tail)
            && r.failure == FailureOf(agg, api, f.fetch)
            && r.through == start + |Whole(api, start, n)| + |tail| && ReceivedUpTo(r.db, agg, r.through)
            && r.db.adoptions == db.adoptions + (if Jumps(db, agg, api, f.fetch) then [api.snapshot.value] else [])
  {
    var f, r := FetchOf(db, agg, api, now), Missing(db, agg, api, now);
    var start := ReceivedThrough(db, agg);
    n, tail := FetchOfMeaning(db, agg, api, now);
    MissingMeaning(db, agg, api, now);
    FetchingAdoptsNothing(EnsureStream(db, agg), agg, api, ReceivedThrough(EnsureStream(db, agg), agg), now);
    ArrivedExtends(db, f.db, agg, api, start, Whole(api, start, n) + tail);
    SameRowsStillReceived(f.db, r.db, agg, r.through);
    if r.failure.None? {
      ApplyingKeepsKeys(r.db, rejects, now);
      ApplyingAdoptsNothing(r.db, rejects, now);
      SameRowsStillReceived(r.db, WorkedThrough(r.db, rejects, now), agg, r.through);
    }
  }

  // ----- Everything a call commits is a run -----

  /** What the producer's API is trusted for. */
  ghost predicate HonestApi(log: Log, agg: Aggregate, api: Api) {
    && (forall n, after :: var answer := api.replay(n, after);
          answer.Replayed? ==> forall e | e in answer.events :: Published(log, e))
    && (api.snapshot.Some? ==> Honest(log, AdoptStep(agg, api.snapshot.value)))
  }

  ghost predicate AllHonest(log: Log, steps: seq<Step>) {
    forall i | 0 <= i < |steps| :: Honest(log, steps[i])
  }

  /** `steps` lead from one state to the other and are honest when the API is. */
  ghost predicate Committed(before: Db, steps: seq<Step>, after: Db, agg: Aggregate, api: Api) {
    after == Run(before, steps) && forall log | HonestApi(log, agg, api) :: AllHonest(log, steps)
  }

  lemma {:induction false} RunConcat(db: Db, first: seq<Step>, second: seq<Step>)
    ensures Run(db, first + second) == Run(Run(db, first), second)
    decreases |second|
  {
    if second == [] {
      assert first + second == first;
    } else {
      RunConcat(db, first, second[..|second| - 1]);
      assert (first + second)[..|first + second| - 1] == first + second[..|second| - 1];
    }
  }

  lemma CommittedConcat(a: Db, first: seq<Step>, b: Db, second: seq<Step>, c: Db, agg: Aggregate, api: Api)
    requires Committed(a, first, b, agg, api) && Committed(b, second, c, agg, api)
    ensures Committed(a, first + second, c, agg, api)
  {
    RunConcat(a, first, second);
  }

  lemma CommittedOne(db: Db, step: Step, after: Db, agg: Aggregate, api: Api)
    requires after == Next(db, step) && forall log | HonestApi(log, agg, api) :: Honest(log, step)
    ensures Committed(db, [step], after, agg, api)
  {
    RunOneMore(db, [], step);
    assert [] + [step] == [step];
  }

  /** An honest API has published the event. */
  ghost predicate Vouched(agg: Aggregate, api: Api, e: Event) {
    forall log | HonestApi(log, agg, api) :: Published(log, e)
  }

  lemma AnswersAreVouched(agg: Aggregate, api: Api, page: nat, after: nat)
    requires api.replay(page, after).Replayed?
    ensures forall e | e in api.replay(page, after).events :: Vouched(agg, api, e)
  {
  }

  lemma {:induction false} PageIsRun(db: Db, agg: Aggregate, api: Api, events: seq<Event>, after: nat, now: int) returns (steps: seq<Step>)
    requires forall e | e in events :: Vouched(agg, api, e)
    ensures Committed(db, steps, StoreFrom(db, agg, api, events, after, now).db, agg, api)
    decreases |events|
  {
    if events == [] || events[0].aggregate != agg || events[0].sequence != after + 1 || !api.admits(events[0]) {
      steps := [];
    } else {
      var step := StoreStep(events[0], None, now);
      var (next, result) := Store(db, events[0], None, now);
      assert Vouched(agg, api, events[0]);
      CommittedOne(db, step, next, agg, api);
      steps := [step];
      if !result.Refused? {
        assert forall e | e in events[1..] :: e in events;
        var rest := PageIsRun(next, agg, api, events[1..], after + 1, now);
        CommittedConcat(db, [step], next, rest, StoreFrom(next, agg, api, events[1..], after + 1, now).db, agg, api);
        steps := [step] + rest;
      }
    }
  }

  lemma TurnIsRun(db: Db, agg: Aggregate, api: Api, page: nat, after: nat, now: int) returns (steps: seq<Step>)
    ensures var turn := AskPage(db, agg, api, page, after, now);
            Committed(db, steps, if turn.Onwards? then turn.db else turn.result.db, agg, api)
  {
    steps := [];
    if api.replay(page, after).Replayed? {
      AnswersAreVouched(agg, api, page, after);
      steps := PageIsRun(db, agg, api, api.replay(page, after).events, after, now);
    }
  }

  lemma {:induction false} RequestsAreRun(states: seq<(Db, nat)>, agg: Aggregate, api: Api, now: int, f: Fetched, k: nat)
    returns (steps: seq<Step>)
    requires Requests(states, 0, Asker(agg, api, now), f) && k < |states|
    ensures Committed(states[0].0, steps, states[k].0, agg, api)
  {
    steps := [];
    if k > 0 {
      var i: nat := k - 1;
      steps := RequestsAreRun(states, agg, api, now, f, i);
      assert Asker(agg, api, now)(states[i].0, 0 + i, states[i].1) == Onwards(states[i + 1].0, states[i + 1].1);
      var more := TurnIsRun(states[i].0, agg, api, i, states[i].1, now);
      CommittedConcat(states[0].0, steps, states[i].0, more, states[k].0, agg, api);
      steps := steps + more;
    }
  }

  lemma FetchIsRun(db: Db, agg: Aggregate, api: Api, after: nat, now: int) returns (steps: seq<Step>)
    ensures Committed(db, steps, FetchFrom(db, agg, api, after, now).db, agg, api)
  {
    var f := FetchFrom(db, agg, api, after, now);
    var states := PagesMeaning(db, 0, after, Asker(agg, api, now));
    var k: nat := |states| - 1;
    steps := RequestsAreRun(states, agg, api, now, f, k);
    if k < PAGES {
      var more := TurnIsRun(states[k].0, agg, api, k, states[k].1, now);
      CommittedConcat(db, steps, states[k].0, more, f.db, agg, api);
      steps := steps + more;
    }
  }

  lemma {:induction false} WorkIsRun(states: seq<Db>, rejects: nat -> set<Id>, now: int, k: nat, agg: Aggregate, api: Api)
    returns (steps: seq<Step>)
    requires Steps(states, 0, APPLICATIONS, Worker(rejects, now)) && k < |states|
    ensures Committed(states[0], steps, states[k], agg, api)
  {
    steps := [];
    if k > 0 {
      var i: nat := k - 1;
      steps := WorkIsRun(states, rejects, now, i, agg, api);
      assert states[i + 1] == Worker(rejects, now)(states[i], 0 + i).0;
      var step := ApplyStep(rejects(i), now);
      CommittedOne(states[i], step, states[k], agg, api);
      CommittedConcat(states[0], steps, states[i], [step], states[k], agg, api);
      steps := steps + [step];
    }
  }

  lemma MissingIsRun(db: Db, agg: Aggregate, api: Api, now: int) returns (steps: seq<Step>)
    ensures Committed(db, steps, Missing(db, agg, api, now).db, agg, api)
  {
    var open := EnsureStream(db, agg);
    CommittedOne(db, OpenStep(agg), open, agg, api);
    var fetching := FetchIsRun(open, agg, api, ReceivedThrough(open, agg), now);
    var f := FetchOf(db, agg, api, now);
    CommittedConcat(db, [OpenStep(agg)], open, fetching, f.db, agg, api);
    steps := [OpenStep(agg)] + fetching;
    if f.fetch.HistoryGone? && api.snapshot.Some? {
      var step := AdoptStep(agg, api.snapshot.value);
      CommittedOne(f.db, step, Next(f.db, step), agg, api);
      CommittedConcat(db, steps, f.db, [step], Next(f.db, step), agg, api);
      steps := steps + [step];
    }
  }

  lemma WorkingIsRun(db: Db, rejects: nat -> set<Id>, now: int, agg: Aggregate, api: Api) returns (steps: seq<Step>)
    ensures Committed(db, steps, WorkedThrough(db, rejects, now), agg, api)
  {
    var states := UntilMeaning(db, 0, APPLICATIONS, Worker(rejects, now));
    steps := WorkIsRun(states, rejects, now, |states| - 1, agg, api);
  }

  /** All that a call does, refused or not, is a run of transactions that are honest when the API is. */
  lemma ReconcileIsRun(db: Db, agg: Aggregate, api: Api, rejects: nat -> set<Id>, now: int) returns (steps: seq<Step>)
    ensures Committed(db, steps, Reconciled(db, agg, api, rejects, now).db, agg, api)
  {
    var r := Missing(db, agg, api, now);
    steps := MissingIsRun(db, agg, api, now);
    if r.failure.None? {
      var work := WorkingIsRun(r.db, rejects, now, agg, api);
      CommittedConcat(db, steps, r.db, work, WorkedThrough(r.db, rejects, now), agg, api);
      steps := steps + work;
    }
  }

  // ----- A truthful producer -----

  const LIMIT := 100

  /** What the producer answers about a stream: the next events, and a mark exactly when there are more. */
  function AnswerOf(events: seq<Event>, after: nat): ReplayAnswer {
    if after >= |events| then Replayed([], None)
    else if after + LIMIT < |events| then Replayed(events[after..after + LIMIT], Some(after + LIMIT))
    else Replayed(events[after..], None)
  }

  ghost predicate Truthful(log: Log, agg: Aggregate, api: Api) {
    && (forall page: nat, after: nat :: api.replay(page, after) == AnswerOf(EventsOf(log, agg), after))
    && (forall e | Published(log, e) :: api.admits(e))
    && (api.snapshot.Some? ==> Honest(log, AdoptStep(agg, api.snapshot.value)))
  }

  /** The API of a producer that has published `log`. */
  function ProducerApi(log: Log, agg: Aggregate): Api {
    Api((page: nat, after: nat) => AnswerOf(EventsOf(log, agg), after), None, (e: Event) => true)
  }

  lemma ProducerIsTruthful(log: Log, agg: Aggregate)
    ensures Truthful(log, agg, ProducerApi(log, agg))
  {
  }

  lemma TruthfulIsHonest(log: Log, agg: Aggregate, api: Api)
    requires InTheirPlaces(log) && Truthful(log, agg, api)
    ensures HonestApi(log, agg, api)
  {
    forall n, after | api.replay(n, after).Replayed? ensures forall e | e in api.replay(n, after).events :: Published(log, e) {
      assert api.replay(n, after) == AnswerOf(EventsOf(log, agg), after);
      forall e | e in api.replay(n, after).events ensures Published(log, e) {
        assert e in EventsOf(log, agg);
      }
    }
  }

  lemma TruthfulFirst(log: Log, db: Db, agg: Aggregate, api: Api, events: seq<Event>, after: nat, now: int) returns (next: Db)
    requires Inv(log, db) && UniqueIds(log) && Truthful(log, agg, api)
    requires events != [] && Published(log, events[0]) && events[0].aggregate == agg && events[0].sequence == after + 1
    ensures Inv(log, next)
    ensures StoreFrom(db, agg, api, events, after, now) == StoreFrom(next, agg, api, events[1..], after + 1, now)
  {
    PublishedIsTaken(log, db, events[0], now);
    StepKeepsInv(log, db, StoreStep(events[0], None, now));
    next := Store(db, events[0], None, now).0;
  }

  /** The events are the part of the stream right behind `after`. */
  ghost predicate Continue(log: Log, agg: Aggregate, events: seq<Event>, after: nat) {
    && after + |events| <= |EventsOf(log, agg)|
    && forall i | 0 <= i < |events| :: events[i] == EventsOf(log, agg)[after + i]
  }

  lemma ContinueRest(log: Log, agg: Aggregate, events: seq<Event>, after: nat)
    requires InTheirPlaces(log) && events != [] && Continue(log, agg, events, after)
    ensures Continue(log, agg, events[1..], after + 1)
    ensures Published(log, events[0]) && events[0].aggregate == agg && events[0].sequence == after + 1
  {
    assert events[0] == EventsOf(log, agg)[after + 0];
    forall i | 0 <= i < |events[1..]| ensures events[1..][i] == EventsOf(log, agg)[after + 1 + i] {
      assert events[i + 1] == EventsOf(log, agg)[after + (i + 1)];
    }
  }

  /** The page was stored whole. */
  ghost predicate StoredWhole(log: Log, events: seq<Event>, after: nat, p: StoredPage) {
    Inv(log, p.db) && p.after == after + |events| && p.failure.None?
  }

  lemma FirstStored(log: Log, events: seq<Event>, after: nat, p: StoredPage)
    requires events != [] && StoredWhole(log, events[1..], after + 1, p)
    ensures StoredWhole(log, events, after, p)
  {
  }

  /** A truthful page is stored whole. */
  lemma {:induction false} TruthfulPage(log: Log, db: Db, agg: Aggregate, api: Api, events: seq<Event>, after: nat, now: int)
    returns (p: StoredPage)
    requires Inv(log, db) && InTheirPlaces(log) && UniqueIds(log) && Truthful(log, agg, api) && Continue(log, agg, events, after)
    ensures p == StoreFrom(db, agg, api, events, after, now) && StoredWhole(log, events, after, p)
    decreases |events|
  {
    if events == [] {
      p := StoredPage(db, after, None);
    } else {
      ContinueRest(log, agg, events, after);
      var next := TruthfulFirst(log, db, agg, api, events, after, now);
      p := TruthfulPage(log, next, agg, api, events[1..], after + 1, now);
      FirstStored(log, events, after, p);
    }
  }

  /** What one request to a truthful producer leads to. */
  lemma TruthfulTurn(log: Log, db: Db, agg: Aggregate, api: Api, page: nat, after: nat, now: int)
    requires Inv(log, db) && InTheirPlaces(log) && UniqueIds(log) && Truthful(log, agg, api)
    requires after <= |EventsOf(log, agg)|
    ensures var turn, n := AskPage(db, agg, api, page, after, now), |EventsOf(log, agg)|;
            if after + LIMIT < n then turn.Onwards? && turn.after == after + LIMIT && Inv(log, turn.db)
            else turn.Ended? && turn.result.fetch == Complete && turn.result.after == n && Inv(log, turn.result.db)
  {
    assert api.replay(page, after) == AnswerOf(EventsOf(log, agg), after);
    var p := TruthfulPage(log, db, agg, api, api.replay(page, after).events, after, now);
  }

  lemma {:induction false} TruthfulRequests(log: Log, states: seq<(Db, nat)>, agg: Aggregate, api: Api, now: int, f: Fetched, k: nat)
    requires Requests(states, 0, Asker(agg, api, now), f) && k < |states|
    requires Inv(log, states[0].0) && InTheirPlaces(log) && UniqueIds(log) && Truthful(log, agg, api) && states[0].1 <= |EventsOf(log, agg)|
    ensures Inv(log, states[k].0) && states[k].1 == states[0].1 + LIMIT * k && (k > 0 ==> states[k].1 < |EventsOf(log, agg)|)
  {
    if k > 0 {
      var i: nat := k - 1;
      TruthfulRequests(log, states, agg, api, now, f, i);
      assert Asker(agg, api, now)(states[i].0, 0 + i, states[i].1) == Onwards(states[i + 1].0, states[i + 1].1);
      TruthfulTurn(log, states[i].0, agg, api, i, states[i].1, now);
    }
  }

  /** How far a call reaches: a thousand events, or the end. */
  function Reach(events: seq<Event>, after: nat): nat {
    if after + 1000 < |events| then after + 1000 else |events|
  }

  /** With a truthful producer nothing is refused, and a fetch is complete exactly when the pages suffice. */
  lemma TruthfulFetch(log: Log, db: Db, agg: Aggregate, api: Api, after: nat, now: int)
    requires Inv(log, db) && InTheirPlaces(log) && UniqueIds(log) && Truthful(log, agg, api) && after <= |EventsOf(log, agg)|
    ensures var f, events := FetchFrom(db, agg, api, after, now), EventsOf(log, agg);
            && Inv(log, f.db) && f.after == Reach(events, after)
            && f.fetch == if |events| - after <= 1000 then Complete else PagesUsedUp
  {
    var f := FetchFrom(db, agg, api, after, now);
    var states := PagesMeaning(db, 0, after, Asker(agg, api, now));
    var k: nat := |states| - 1;
    TruthfulRequests(log, states, agg, api, now, f, k);
    if k < PAGES {
      TruthfulTurn(log, states[k].0, agg, api, k, states[k].1, now);
    }
  }

  lemma ThroughIsPublished(log: Log, db: Db, agg: Aggregate)
    requires RowsFromLog(log, db)
    ensures ReceivedThrough(db, agg) <= |EventsOf(log, agg)|
  {
    if ReceivedThrough(db, agg) > 0 {
      assert Has(db, agg, ReceivedThrough(db, agg));
    }
  }

  /** With a truthful producer a call is not refused and receives the next thousand events. */
  lemma TruthfulReconcile(log: Log, db: Db, agg: Aggregate, api: Api, rejects: nat -> set<Id>, now: int)
    requires Inv(log, db) && InTheirPlaces(log) && UniqueIds(log) && Truthful(log, agg, api)
    ensures var r, start := Reconciled(db, agg, api, rejects, now), ReceivedThrough(db, agg);
            && Inv(log, r.db) && r.failure.None? && r.through == Reach(EventsOf(log, agg), start) && ReceivedUpTo(r.db, agg, r.through)
            && FetchOf(db, agg, api, now).fetch == if |EventsOf(log, agg)| - start <= 1000 then Complete else PagesUsedUp
  {
    OpeningKeepsThrough(db, agg);
    OpeningKeepsInv(log, db, agg);
    ThroughIsPublished(log, db, agg);
    TruthfulFetch(log, EnsureStream(db, agg), agg, api, ReceivedThrough(db, agg), now);
    var n, tail := ReconcileMeaning(db, agg, api, rejects, now);
    var steps := ReconcileIsRun(db, agg, api, rejects, now);
    TruthfulIsHonest(log, agg, api);
    RunKeepsInv(log, db, steps);
  }

  // ----- Recovering every stream -----

  lemma ThroughReaches(db: Db, agg: Aggregate, n: nat)
    requires ReceivedUpTo(db, agg, n)
    ensures n <= ReceivedThrough(db, agg)
  {
    assert !Has(db, agg, ReceivedThrough(db, agg) + 1);
  }

  lemma ReconcileKeepsReceived(db: Db, agg: Aggregate, api: Api, rejects: nat -> set<Id>, now: int, other: Aggregate, n: nat)
    requires ReceivedUpTo(db, other, n)
    ensures ReceivedUpTo(Reconciled(db, agg, api, rejects, now).db, other, n)
  {
    var f, r := FetchOf(db, agg, api, now), Missing(db, agg, api, now);
    var k, tail := FetchOfMeaning(db, agg, api, now);
    forall i | 1 <= i <= n ensures Has(f.db, other, i) {
      ArrivedHas(db, f.db, Whole(api, ReceivedThrough(db, agg), k) + tail, other, i);
    }
    MissingMeaning(db, agg, api, now);
    SameRowsStillReceived(f.db, r.db, other, n);
    if r.failure.None? {
      ApplyingKeepsKeys(r.db, rejects, now);
      SameRowsStillReceived(r.db, WorkedThrough(r.db, rejects, now), other, n);
    }
  }

  /** One call after the other, each for one stream. */
  ghost function ReconcileAll(db: Db, aggs: seq<Aggregate>, apis: Aggregate -> Api, rejects: nat -> set<Id>, now: int): Db
    decreases |aggs|
  {
    if aggs == [] then db else ReconcileAll(Reconciled(db, aggs[0], apis(aggs[0]), rejects, now).db, aggs[1..], apis, rejects, now)
  }

  function Times(aggs: seq<Aggregate>, agg: Aggregate): nat {
    if aggs == [] then 0 else (if aggs[0] == agg then 1 else 0) + Times(aggs[1..], agg)
  }

  /** The calls still to come suffice for what is missing of the stream. */
  ghost predicate Suffice(log: Log, db: Db, aggs: seq<Aggregate>, agg: Aggregate) {
    |EventsOf(log, agg)| <= ReceivedThrough(db, agg) + 1000 * Times(aggs, agg)
  }

  lemma SufficeOn(log: Log, db: Db, aggs: seq<Aggregate>, api: Api, rejects: nat -> set<Id>, now: int, agg: Aggregate)
    requires Inv(log, db) && InTheirPlaces(log) && UniqueIds(log) && aggs != [] && Truthful(log, aggs[0], api)
    requires Suffice(log, db, aggs, agg)
    ensures Suffice(log, Reconciled(db, aggs[0], api, rejects, now).db, aggs[1..], agg)
  {
    var after := Reconciled(db, aggs[0], api, rejects, now).db;
    if agg == aggs[0] {
      TruthfulReconcile(log, db, agg, api, rejects, now);
      ThroughReaches(after, agg, Reach(EventsOf(log, agg), ReceivedThrough(db, agg)));
    } else {
      ReconcileKeepsReceived(db, aggs[0], api, rejects, now, agg, ReceivedThrough(db, agg));
      ThroughReaches(after, agg, ReceivedThrough(db, agg));
    }
  }

  lemma {:induction false} AllReceived(log: Log, db: Db, aggs: seq<Aggregate>, apis: Aggregate -> Api, rejects: nat -> set<Id>, now: int)
    requires Inv(log, db) && InTheirPlaces(log) && UniqueIds(log)
    requires forall agg | agg in aggs :: Truthful(log, agg, apis(agg))
    requires forall agg | agg in log :: Suffice(log, db, aggs, agg)
    ensures var after := ReconcileAll(db, aggs, apis, rejects, now);
            Inv(log, after) && forall agg | agg in log :: |log[agg]| <= ReceivedThrough(after, agg)
    decreases |aggs|
  {
    if aggs != [] {
      var next := Reconciled(db, aggs[0], apis(aggs[0]), rejects, now).db;
      assert Truthful(log, aggs[0], apis(aggs[0]));
      TruthfulReconcile(log, db, aggs[0], apis(aggs[0]), rejects, now);
      forall agg | agg in log ensures Suffice(log, next, aggs[1..], agg) {
        SufficeOn(log, db, aggs, apis(aggs[0]), rejects, now, agg);
      }
      AllReceived(log, next, aggs[1..], apis, rejects, now);
    }
  }

  lemma HasIsDelivered(log: Log, db: Db, agg: Aggregate, i: nat)
    requires RowsFromLog(log, db) && agg in log && i < |log[agg]| && Has(db, agg, i + 1)
    ensures log[agg][i].eventId in db.inbox && db.inbox[log[agg][i].eventId].envelope == log[agg][i]
  {
    var id :| id in db.inbox && db.inbox[id].envelope.aggregate == agg && db.inbox[id].envelope.sequence == i + 1;
    assert Published(log, db.inbox[id].envelope);
  }

  lemma ReceivedIsDelivered(log: Log, db: Db)
    requires RowsFromLog(log, db) && forall agg | agg in log :: |log[agg]| <= ReceivedThrough(db, agg)
    ensures Delivered(log, db)
  {
    forall agg, i: int | agg in log && 0 <= i < |log[agg]|
      ensures log[agg][i].eventId in db.inbox && db.inbox[log[agg][i].eventId].envelope == log[agg][i]
    {
      assert Has(db, agg, i + 1);
      HasIsDelivered(log, db, agg, i);
    }
  }

  const SAMPLE_RANK: map<Id, nat> := map[101 := 0, 201 := 1, 102 := 2]

  lemma SampleIsCausal()
    ensures Causal(SAMPLE_LOG, SAMPLE_RANK)
  {
    var log, rank := SAMPLE_LOG, SAMPLE_RANK;
    assert log[TASK] == [RECORDED, CORRECTED] && log[RETURNS] == [REQUEST];
    assert EventOutcome(log[TASK][0]) == Some(FIRST);
    forall item | item in REQUEST.body.request.items ensures Precedes(log, rank, item, REQUEST) {
      assert Aggregate(Task, item.taskId) == TASK && FIRST.outcomeId == item.outcomeId;
    }
  }

  lemma SampleSuffices(agg: Aggregate)
    requires agg in SAMPLE_LOG
    ensures Suffice(SAMPLE_LOG, EmptyDb, [TASK, RETURNS], agg)
  {
    var both, one := [TASK, RETURNS], [RETURNS];
    assert both[1..] == one && one[1..] == [];
    assert Times([], agg) == 0;
    assert Times(one, agg) == if agg == RETURNS then 1 else 0;
    assert agg == TASK || agg == RETURNS;
    assert Times(both, agg) == 1;
  }

  /** A log in which a return request names an outcome that was corrected since: all that recovery asks of
      a log holds of it, and one call for each stream suffices from nothing. */
  lemma SampleIsRecoverable()
    ensures Inv(SAMPLE_LOG, EmptyDb) && InTheirPlaces(SAMPLE_LOG) && UniqueIds(SAMPLE_LOG) && Readable(SAMPLE_LOG)
    ensures Causal(SAMPLE_LOG, SAMPLE_RANK)
    ensures forall agg | agg in SAMPLE_LOG :: Suffice(SAMPLE_LOG, EmptyDb, [TASK, RETURNS], agg)
  {
    SampleIsReadable();
    SampleIsPublishedOnce();
    SampleIsCausal();
    forall agg | agg in SAMPLE_LOG ensures Suffice(SAMPLE_LOG, EmptyDb, [TASK, RETURNS], agg) {
      SampleSuffices(agg);
    }
  }

  /** Whatever a receiver missed: recovery calls against a truthful producer, enough of them for every
      stream, and then finitely many calls of the worker bring it exactly to where the trivial consumer
      of the log ends. */
  lemma RecoveryAgrees(log: Log, rank: map<Id, nat>, db: Db, aggs: seq<Aggregate>, apis: Aggregate -> Api,
      rejects: nat -> set<Id>, now: int)
    returns (n: nat)
    requires Inv(log, db) && Causal(log, rank) && Readable(log) && InTheirPlaces(log) && UniqueIds(log)
    requires forall agg | agg in aggs :: Truthful(log, agg, apis(agg))
    requires forall agg | agg in log :: Suffice(log, db, aggs, agg)
    ensures CaughtUp(log, ReceiverAgreement.Worked(ReconcileAll(db, aggs, apis, rejects, now), n, now))
  {
    AllReceived(log, db, aggs, apis, rejects, now);
    var after := ReconcileAll(db, aggs, apis, rejects, now);
    ReceivedIsDelivered(log, after);
    n := EventualAgreement(log, rank, after, now);
  }
}
