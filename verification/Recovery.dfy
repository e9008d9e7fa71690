/** Closing a gap from the producer's replay API, or jumping over it with a snapshot. */
module Recovery {
  import opened Wrappers
  import opened Projection
  import opened Receiver
  import opened ReceiverRefinement
  import opened StreamStatus
  import opened ReceiverStore

  const PAGES := 10
  const APPLICATIONS := 1000

  /** `Malformed` is an answer that the schema refuses. */
  datatype ReplayAnswer =
    | Replayed(events: seq<Event>, nextAfterSequence: Option<nat>)
    | Malformed
    | Expired
    | Unavailable

  /** What this call meets: the answer to its n-th replay request and to its one snapshot request, and
      the receiver's own check of each event's schema and identity. */
  datatype Api = Api(replay: (nat, nat) -> ReplayAnswer, snapshot: Option<Snapshot>, admits: Event -> bool)

  datatype Failure =
    | InvalidReplay
    | ReplayUnavailable
    | NotAdmitted
    | Conflict(reason: Refusal)
    | SnapshotUnavailable
    | InvalidSnapshotBody

  // ----- What the call does, as functions -----

  datatype StoredPage = StoredPage(db: Db, after: nat, failure: Option<Failure>)

  function StoreFrom(db: Db, agg: Aggregate, api: Api, events: seq<Event>, after: nat, now: int): StoredPage
    decreases |events|
  {
    if events == [] then StoredPage(db, after, None)
    else
      var e := events[0];
      if e.aggregate != agg || e.sequence != after + 1 then StoredPage(db, after, Some(InvalidReplay))
      else if !api.admits(e) then StoredPage(db, after, Some(NotAdmitted))
      else
        var (next, result) := Store(db, e, None, now);
        if result.Refused? then StoredPage(next, after, Some(Conflict(result.reason)))
        else StoreFrom(next, agg, api, events[1..], after + 1, now)
  }

  datatype Fetch = Complete | PagesUsedUp | HistoryGone | FetchFailed(failure: Failure)

  datatype Fetched = Fetched(db: Db, after: nat, fetch: Fetch)

  /** What one replay request leads to: the next one, or the end. */
  datatype Turn = Onwards(db: Db, after: nat) | Ended(result: Fetched)

  function AskPage(db: Db, agg: Aggregate, api: Api, page: nat, after: nat, now: int): Turn {
    match api.replay(page, after)
    case Expired => Ended(Fetched(db, after, HistoryGone))
    case Unavailable => Ended(Fetched(db, after, FetchFailed(ReplayUnavailable)))
    case Malformed => Ended(Fetched(db, after, FetchFailed(InvalidReplay)))
    case Replayed(events, next) =>
      var p := StoreFrom(db, agg, api, events, after, now);
      if p.failure.Some? then Ended(Fetched(p.db, p.after, FetchFailed(p.failure.value)))
      else if next.None? then Ended(Fetched(p.db, p.after, Complete))
      else if next.value != p.after || events == [] then Ended(Fetched(p.db, p.after, FetchFailed(InvalidReplay)))
      else Onwards(p.db, p.after)
  }

  function Asker(agg: Aggregate, api: Api, now: int): (Db, nat, nat) -> Turn {
    (db: Db, page: nat, after: nat) => AskPage(db, agg, api, page, after, now)
  }

  /** Request after request, as long as there is a next one and the bound allows it. */
  function Pages(db: Db, page: nat, after: nat, ask: (Db, nat, nat) -> Turn): Fetched
    decreases PAGES - page, db
  {
    if page >= PAGES then Fetched(db, after, PagesUsedUp)
    else
      match ask(db, page, after)
      case Onwards(next, reached) => Pages(next, page + 1, reached, ask)
      case Ended(result) => result
  }

  /** The tables before each request, and how far the stream was received then. */
  ghost predicate Requests(states: seq<(Db, nat)>, page: nat, ask: (Db, nat, nat) -> Turn, f: Fetched) {
    && 0 < |states| <= PAGES - page + 1
    && (forall i | 0 <= i < |states| - 1 ::
          ask(states[i].0, page + i, states[i].1) == Onwards(states[i + 1].0, states[i + 1].1))
    && var last := states[|states| - 1];
       if page + |states| - 1 == PAGES then f == Fetched(last.0, last.1, PagesUsedUp)
       else ask(last.0, page + |states| - 1, last.1) == Ended(f)
  }

  lemma RequestsJoin(db: Db, after: nat, rest: seq<(Db, nat)>, page: nat, ask: (Db, nat, nat) -> Turn, f: Fetched)
    requires page < PAGES && Requests(rest, page + 1, ask, f) && ask(db, page, after) == Onwards(rest[0].0, rest[0].1)
    ensures Requests([(db, after)] + rest, page, ask, f)
  {
    var states := [(db, after)] + rest;
    forall i | 0 <= i < |states| - 1
      ensures ask(states[i].0, page + i, states[i].1) == Onwards(states[i + 1].0, states[i + 1].1)
    {
      if i > 0 {
        assert ask(rest[i - 1].0, page + 1 + (i - 1), rest[i - 1].1) == Onwards(rest[i - 1 + 1].0, rest[i - 1 + 1].1);
      }
    }
  }

  lemma {:induction false} PagesMeaning(db: Db, page: nat, after: nat, ask: (Db, nat, nat) -> Turn) returns (states: seq<(Db, nat)>)
    requires page <= PAGES
    ensures Requests(states, page, ask, Pages(db, page, after, ask)) && states[0] == (db, after)
    decreases PAGES - page
  {
    states := [(db, after)];
    if page < PAGES && ask(db, page, after).Onwards? {
      var turn := ask(db, page, after);
      var rest := PagesMeaning(turn.db, page + 1, turn.after, ask);
      RequestsJoin(db, after, rest, page, ask, Pages(db, page, after, ask));
      states := states + rest;
    }
  }

  function FetchFrom(db: Db, agg: Aggregate, api: Api, after: nat, now: int): Fetched {
    Pages(db, 0, after, Asker(agg, api, now))
  }

  /** Steps from the n-th on, up to the first that moves nothing or to the bound. */
  function Until(db: Db, n: nat, bound: nat, step: (Db, nat) -> (Db, bool)): Db
    decreases bound - n, db
  {
    if n >= bound then db
    else
      var (after, moved) := step(db, n);
      if moved then Until(after, n + 1, bound, step) else after
  }

  /** The worker, called again and again. `rejects` names, call by call, the events whose writes fail for
      a reason outside the mapping. */
  function Worker(rejects: nat -> set<Id>, now: int): (Db, nat) -> (Db, bool) {
    (db: Db, n: nat) => ApplyInbox(db, rejects(n), now)
  }

  function WorkedThrough(db: Db, rejects: nat -> set<Id>, now: int): Db {
    Until(db, 0, APPLICATIONS, Worker(rejects, now))
  }

  /** From each state to the next the step leads, and all but the last of them move something. */
  ghost predicate Steps(states: seq<Db>, n: nat, bound: nat, step: (Db, nat) -> (Db, bool)) {
    && 0 < |states| <= bound - n + 1
    && (forall i | 0 <= i < |states| - 1 :: states[i + 1] == step(states[i], n + i).0)
    && (forall i | 0 <= i < |states| - 2 :: step(states[i], n + i).1)
    && (|states| == bound - n + 1 || (|states| > 1 && !step(states[|states| - 2], n + |states| - 2).1))
  }

  lemma StepsJoin(db: Db, rest: seq<Db>, n: nat, bound: nat, step: (Db, nat) -> (Db, bool))
    requires n < bound && |rest| > 0 && rest[0] == step(db, n).0
    requires if step(db, n).1 then Steps(rest, n + 1, bound, step) else |rest| == 1
    ensures Steps([db] + rest, n, bound, step)
  {
    var states := [db] + rest;
    forall i | 0 <= i < |states| - 1 ensures states[i + 1] == step(states[i], n + i).0 {
      if i > 0 {
        assert rest[i - 1 + 1] == step(rest[i - 1], n + 1 + (i - 1)).0;
      }
    }
    forall i | 0 <= i < |states| - 2 ensures step(states[i], n + i).1 {
      if i > 0 {
        assert step(rest[i - 1], n + 1 + (i - 1)).1;
      }
    }
  }

  /** The calls made: no more than the bound allows, and fewer only when the last moved nothing. */
  lemma {:induction false} UntilMeaning(db: Db, n: nat, bound: nat, step: (Db, nat) -> (Db, bool)) returns (states: seq<Db>)
    requires n <= bound
    ensures Steps(states, n, bound, step) && states[0] == db && states[|states| - 1] == Until(db, n, bound, step)
    decreases bound - n
  {
    if n == bound {
      states := [db];
    } else {
      var (after, moved) := step(db, n);
      var rest := [after];
      if moved {
        rest := UntilMeaning(after, n + 1, bound, step);
      }
      StepsJoin(db, rest, n, bound, step);
      states := [db] + rest;
    }
  }

  /** The worker is called a thousand times, or until a call takes nothing in. */
  lemma WorkMeaning(db: Db, rejects: nat -> set<Id>, now: int) returns (states: seq<Db>)
    ensures Steps(states, 0, 1000, Worker(rejects, now)) && states[0] == db && states[|states| - 1] == WorkedThrough(db, rejects, now)
  {
    states := UntilMeaning(db, 0, APPLICATIONS, Worker(rejects, now));
  }

  ghost predicate SameKeys(before: Db, after: Db) {
    SameRows(before.inbox, after.inbox) && before.streams.Keys == after.streams.Keys
  }

  lemma CallKeepsKeys(db: Db, rejects: set<Id>, now: int, after: Db)
    requires after == ApplyInbox(db, rejects, now).0
    ensures SameKeys(db, after)
  {
    ApplyShape(db, rejects, now);
  }

  lemma SameKeysOn(a: Db, b: Db, c: Db)
    requires SameKeys(a, b) && SameKeys(b, c)
    ensures SameKeys(a, c)
  {
  }

  lemma {:induction false} SameKeysAlong(states: seq<Db>, n: nat, bound: nat, rejects: nat -> set<Id>, now: int, k: nat)
    requires Steps(states, n, bound, Worker(rejects, now)) && k < |states|
    ensures SameKeys(states[0], states[k])
  {
    if k > 0 {
      var i: nat := k - 1;
      SameKeysAlong(states, n, bound, rejects, now, i);
      assert states[i + 1] == Worker(rejects, now)(states[i], n + i).0;
      CallKeepsKeys(states[i], rejects(n + i), now, states[k]);
      SameKeysOn(states[0], states[i], states[k]);
    }
  }

  lemma ApplyingKeepsKeys(db: Db, rejects: nat -> set<Id>, now: int)
    ensures SameKeys(db, WorkedThrough(db, rejects, now))
  {
    var states := UntilMeaning(db, 0, APPLICATIONS, Worker(rejects, now));
    SameKeysAlong(states, 0, APPLICATIONS, rejects, now, |states| - 1);
  }

  ghost predicate ReceivedUpTo(db: Db, agg: Aggregate, n: nat) {
    forall k | 1 <= k <= n :: Has(db, agg, k)
  }

  function RowsBehind(db: Db, agg: Aggregate, n: nat): set<Id> {
    set id | id in db.inbox && db.inbox[id].envelope.aggregate == agg && db.inbox[id].envelope.sequence > n
  }

  /** The end of the unbroken run of received sequences, searched upwards from `n`. */
  ghost function ThroughFrom(db: Db, agg: Aggregate, n: nat): (r: nat)
    requires ReceivedUpTo(db, agg, n)
    ensures n <= r && ReceivedTo(db, agg, r)
    decreases |RowsBehind(db, agg, n)|
  {
    if Has(db, agg, n + 1) then
      var id :| id in db.inbox && db.inbox[id].envelope.aggregate == agg && db.inbox[id].envelope.sequence == n + 1;
      assert RowsBehind(db, agg, n + 1) <= RowsBehind(db, agg, n) - {id} && id in RowsBehind(db, agg, n);
      FewerBehind(RowsBehind(db, agg, n + 1), RowsBehind(db, agg, n), id);
      ThroughFrom(db, agg, n + 1)
    else n
  }

  lemma {:induction false} FewerBehind(small: set<Id>, large: set<Id>, id: Id)
    requires id in large && small <= large - {id}
    ensures |small| < |large|
    decreases |small|
  {
    if small != {} {
      var x :| x in small;
      FewerBehind(small - {x}, large - {x}, id);
    }
  }

  ghost function ReceivedThrough(db: Db, agg: Aggregate): (r: nat)
    ensures ReceivedTo(db, agg, r)
  {
    ThroughFrom(db, agg, 0)
  }

  lemma ReceivedToIsUnique(db: Db, agg: Aggregate, m: nat, n: nat)
    requires ReceivedTo(db, agg, m) && ReceivedTo(db, agg, n)
    ensures m == n
  {
    assert !Has(db, agg, m + 1) && !Has(db, agg, n + 1);
  }

  datatype Recovered = Recovered(db: Db, failure: Option<Failure>, through: nat)

  ghost function Missing(db: Db, agg: Aggregate, api: Api, now: int): Recovered {
    var open := EnsureStream(db, agg);
    var f := FetchFrom(open, agg, api, ReceivedThrough(open, agg), now);
    if f.fetch.FetchFailed? then Recovered(f.db, Some(f.fetch.failure), f.after)
    else if !f.fetch.HistoryGone? then Recovered(f.db, None, f.after)
    else if api.snapshot.None? then Recovered(f.db, Some(SnapshotUnavailable), f.after)
    else
      var (after, result) := Adopt(f.db, agg, api.snapshot.value);
      Recovered(after, if result.InvalidSnapshot? then Some(InvalidSnapshotBody) else None, f.after)
  }

  /** Fetch, then apply; a refusal leaves what was stored before it. */
  ghost function Reconciled(db: Db, agg: Aggregate, api: Api, rejects: nat -> set<Id>, now: int): Recovered {
    var r := Missing(db, agg, api, now);
    if r.failure.Some? then r else r.(db := WorkedThrough(r.db, rejects, now))
  }

  // ----- No stream disappears -----

  lemma {:induction false} StoringKeepsStreams(db: Db, agg: Aggregate, api: Api, events: seq<Event>, after: nat, now: int)
    ensures db.streams.Keys <= StoreFrom(db, agg, api, events, after, now).db.streams.Keys
    decreases |events|
  {
    if events != [] && events[0].aggregate == agg && events[0].sequence == after + 1 && api.admits(events[0]) {
      StoringKeepsStreams(Store(db, events[0], None, now).0, agg, api, events[1..], after + 1, now);
    }
  }

  lemma TurnKeepsStreams(db: Db, agg: Aggregate, api: Api, page: nat, after: nat, now: int)
    ensures var turn := AskPage(db, agg, api, page, after, now);
            db.streams.Keys <= (if turn.Onwards? then turn.db else turn.result.db).streams.Keys
  {
    if api.replay(page, after).Replayed? {
      StoringKeepsStreams(db, agg, api, api.replay(page, after).events, after, now);
    }
  }

  lemma {:induction false} FetchingKeepsStreams(states: seq<(Db, nat)>, agg: Aggregate, api: Api, now: int, f: Fetched, k: nat)
    requires Requests(states, 0, Asker(agg, api, now), f) && k < |states|
    ensures states[0].0.streams.Keys <= states[k].0.streams.Keys
  {
    if k > 0 {
      var i: nat := k - 1;
      FetchingKeepsStreams(states, agg, api, now, f, i);
      assert Asker(agg, api, now)(states[i].0, 0 + i, states[i].1) == Onwards(states[i + 1].0, states[i + 1].1);
      TurnKeepsStreams(states[i].0, agg, api, i, states[i].1, now);
    }
  }

  lemma FetchKeepsStreams(db: Db, agg: Aggregate, api: Api, after: nat, now: int)
    ensures db.streams.Keys <= FetchFrom(db, agg, api, after, now).db.streams.Keys
  {
    var f := FetchFrom(db, agg, api, after, now);
    var states := PagesMeaning(db, 0, after, Asker(agg, api, now));
    var k: nat := |states| - 1;
    FetchingKeepsStreams(states, agg, api, now, f, k);
    if k < PAGES {
      TurnKeepsStreams(states[k].0, agg, api, k, states[k].1, now);
    }
  }

  lemma MissingOpensStream(db: Db, agg: Aggregate, api: Api, now: int)
    ensures agg in Missing(db, agg, api, now).db.streams
  {
    var open := EnsureStream(db, agg);
    FetchKeepsStreams(open, agg, api, ReceivedThrough(open, agg), now);
  }

  // ----- The call itself -----

  /** Stores one replay page, event by event. */
  method StorePage(store: ReceiverStore, agg: Aggregate, api: Api, events: seq<Event>, start: nat, now: int)
    returns (after: nat, failure: Option<Failure>)
    requires store.Valid()
    modifies store
    ensures store.Valid()
    ensures StoredPage(store.Data(), after, failure) == StoreFrom(old(store.Data()), agg, api, events, start, now)
  {
    after, failure := start, None;
    for i := 0 to |events|
      invariant store.Valid()
      invariant StoreFrom(old(store.Data()), agg, api, events, start, now) == StoreFrom(store.Data(), agg, api, events[i..], after, now)
    {
      var e := events[i];
      assert events[i..][0] == e && events[i..][1..] == events[i + 1..];
      if e.aggregate != agg || e.sequence != after + 1 {
        return after, Some(InvalidReplay);
      }
      if !api.admits(e) {
        return after, Some(NotAdmitted);
      }
      var result := store.StoreEvent(e, None, now);
      if result.Refused? {
        return after, Some(Conflict(result.reason));
      }
      after := after + 1;
    }
  }

  /** Asks for page after page behind `start`. */
  method FetchPages(store: ReceiverStore, agg: Aggregate, api: Api, start: nat, now: int) returns (after: nat, fetch: Fetch)
    requires store.Valid()
    modifies store
    ensures store.Valid()
    ensures Fetched(store.Data(), after, fetch) == FetchFrom(old(store.Data()), agg, api, start, now)
  {
    after, fetch := start, PagesUsedUp;
    for page := 0 to PAGES
      invariant store.Valid()
      invariant FetchFrom(old(store.Data()), agg, api, start, now) == Pages(store.Data(), page, after, Asker(agg, api, now))
    {
      var answer := api.replay(page, after);
      if answer.Expired? {
        return after, HistoryGone;
      }
      if answer.Unavailable? {
        return after, FetchFailed(ReplayUnavailable);
      }
      if answer.Malformed? {
        return after, FetchFailed(InvalidReplay);
      }
      var failure;
      after, failure := StorePage(store, agg, api, answer.events, after, now);
      if failure.Some? {
        return after, FetchFailed(failure.value);
      }
      if answer.nextAfterSequence.None? {
        return after, Complete;
      }
      if answer.nextAfterSequence.value != after || answer.events == [] {
        return after, FetchFailed(InvalidReplay);
      }
    }
  }

  /** Applies events until nothing moves, at most a fixed number of times. */
  method ApplyMany(store: ReceiverStore, rejects: nat -> set<Id>, now: int)
    requires store.Valid()
    modifies store
    ensures store.Valid()
    ensures store.Data() == WorkedThrough(old(store.Data()), rejects, now)
  {
    var n, moved := 0, true;
    while n < APPLICATIONS && moved
      invariant store.Valid() && n <= APPLICATIONS
      invariant WorkedThrough(old(store.Data()), rejects, now) ==
                if moved then Until(store.Data(), n, APPLICATIONS, Worker(rejects, now)) else store.Data()
      decreases APPLICATIONS - n
    {
      moved := store.ApplyInboxOnce(rejects(n), now);
      n := n + 1;
    }
  }

  /** Opens the stream, fetches what is missing behind its unbroken part, and adopts the snapshot when
      the history is gone. */
  method FetchMissing(store: ReceiverStore, agg: Aggregate, api: Api, now: int) returns (failure: Option<Failure>, through: nat)
    requires store.Valid()
    modifies store
    ensures store.Valid()
    ensures Recovered(store.Data(), failure, through) == Missing(old(store.Data()), agg, api, now)
  {
    store.OpenStream(agg);
    var status := ReadStatus(store.Data(), agg);
    ReceivedToIsUnique(store.Data(), agg, status.receivedThrough, ReceivedThrough(store.Data(), agg));
    var fetch;
    through, fetch := FetchPages(store, agg, api, status.receivedThrough, now);
    if fetch.FetchFailed? {
      return Some(fetch.failure), through;
    }
    if !fetch.HistoryGone? {
      return None, through;
    }
    if api.snapshot.None? {
      return Some(SnapshotUnavailable), through;
    }
    var adopted := store.AdoptSnapshot(agg, api.snapshot.value);
    failure := if adopted.InvalidSnapshot? then Some(InvalidSnapshotBody) else None;
  }

  /** Fetches, then applies, then reports the status. */
  method Reconcile(store: ReceiverStore, agg: Aggregate, api: Api, rejects: nat -> set<Id>, now: int)
    returns (result: Result<Checkpoint, Failure>)
    requires store.Valid()
    modifies store
    ensures store.Valid()
    ensures var r := Reconciled(old(store.Data()), agg, api, rejects, now);
            && store.Data() == r.db
            && (if r.failure.Some? then result == Err(r.failure.value)
                else result.Ok? && Describes(store.Data(), agg, result.value))
  {
    var failure, through := FetchMissing(store, agg, api, now);
    if failure.Some? {
      return Err(failure.value);
    }
    MissingOpensStream(old(store.Data()), agg, api, now);
    ApplyingKeepsKeys(store.Data(), rejects, now);
    ApplyMany(store, rejects, now);
    var last := ReadStatus(store.Data(), agg);
    return Ok(last);
  }
}
