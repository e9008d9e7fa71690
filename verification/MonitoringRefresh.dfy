/** The refresh controller of the monitoring view: one live request, late responses fenced by epochs. */
module MonitoringRefresh {
  import opened Wrappers

  type Id = nat

  const MAX_DELAY := 10000

  datatype Phase = Loading | Refreshing | Fresh | Stale | Failed

  datatype View = View(
    phase: Phase, data: Option<Id>, error: string, refreshedAt: Option<int>, revision: int, scopeKey: Option<string>,
    inFlight: bool)

  /** `data` is present in a full answer and absent in one that says nothing changed. */
  datatype Answer = Answer(data: Option<Id>, revision: int, scopeKey: string, refreshedAt: int, etag: Option<string>)

  datatype Outcome = Answered(answer: Answer) | Aborted | Broken(message: string)

  const MISMATCH := "not the confirmed version"

  /** `request` is the epoch of the current request, `timer` the delay of the next one. */
  datatype Control = Control(
    view: View, timer: Option<nat>, ageTimer: bool, request: Option<nat>, epoch: nat, failures: nat, stopped: bool,
    lastSuccess: int, etag: Option<string>)

  const InitialControl :=
    Control(View(Loading, None, "", None, 0, None, false), None, false, None, 0, 0, true, 0, None)

  datatype Settings = Settings(pollMs: nat, staleMs: int)

  // ----- Steps -----

  function Begin(c: Control, full: bool): Control {
    if c.stopped || (!full && c.request.Some?) then c
    else
      c.(timer := None, epoch := c.epoch + 1, request := Some(c.epoch + 1),
         view := c.view.(inFlight := true, phase := if c.view.data.Some? then Refreshing else Loading, error := ""))
  }

  function Start(c: Control): Control {
    if c.stopped then Begin(c.(stopped := false, ageTimer := true), true) else c
  }

  function Stop(c: Control): Control {
    c.(stopped := true, epoch := c.epoch + 1, request := None, timer := None, ageTimer := false)
  }

  function Power2(n: nat): (r: nat)
    ensures r >= 1
  {
    if n == 0 then 1 else 2 * Power2(n - 1)
  }

  function Delay(settings: Settings, failures: nat): nat {
    if failures == 0 then settings.pollMs
    else
      var backoff := settings.pollMs * Power2(failures);
      if backoff < MAX_DELAY then backoff else MAX_DELAY
  }

  predicate SameScope(v: View, answer: Answer) { v.scopeKey.None? || v.scopeKey == Some(answer.scopeKey) }

  /** An older revision of the same scope is passed over; "unchanged" without the confirmed data is an error. */
  function Accept(c: Control, answer: Answer, now: int): Result<Control, string> {
    if SameScope(c.view, answer) && answer.revision < c.view.revision then Ok(c)
    else if answer.data.None? && (c.view.data.None? || !SameScope(c.view, answer)) then Err(MISMATCH)
    else
      Ok(c.(lastSuccess := now, etag := answer.etag,
            view := c.view.(data := if answer.data.Some? then answer.data else c.view.data,
                            refreshedAt := Some(answer.refreshedAt), revision := answer.revision,
                            scopeKey := Some(answer.scopeKey), phase := Fresh, error := "")))
  }

  function Fail(c: Control, settings: Settings, message: string, now: int): Control {
    var phase := if c.view.data.Some? && now - c.lastSuccess >= settings.staleMs then Stale else Failed;
    c.(failures := c.failures + 1, view := c.view.(error := message, phase := phase))
  }

  function Finish(c: Control, settings: Settings): Control {
    c.(request := None, view := c.view.(inFlight := false), timer := Some(Delay(settings, c.failures)))
  }

  /** The request begun at `epoch` ends. */
  function Settle(c: Control, settings: Settings, epoch: nat, outcome: Outcome, now: int): Control {
    if c.stopped || epoch != c.epoch then c
    else
      match outcome
      case Answered(answer) =>
        (match Accept(c, answer, now)
         case Ok(after) => Finish(after.(failures := 0), settings)
         case Err(message) => Finish(Fail(c, settings, message, now), settings))
      case Aborted => Finish(c, settings)
      case Broken(message) => Finish(Fail(c, settings, message, now), settings)
  }

  function UpdateAge(c: Control, settings: Settings, now: int): Control {
    if c.view.data.None? || c.lastSuccess == 0 then c
    else c.(view := c.view.(phase := if now - c.lastSuccess >= settings.staleMs then Stale else Fresh))
  }

  class Controller {
    const settings: Settings
    var view: View
    var timer: Option<nat>
    var ageTimer: bool
    var request: Option<nat>
    var epoch: nat
    var failures: nat
    var stopped: bool
    var lastSuccess: int
    var etag: Option<string>

    function Now(): Control
      reads this
    {
      Control(view, timer, ageTimer, request, epoch, failures, stopped, lastSuccess, etag)
    }

    constructor (settings: Settings)
      ensures Now() == InitialControl && this.settings == settings
    {
      this.settings := settings;
      view := View(Loading, None, "", None, 0, None, false);
      timer, ageTimer, request, epoch := None, false, None, 0;
      failures, stopped, lastSuccess, etag := 0, true, 0, None;
    }

    method StartPolling()
      modifies this
      ensures Now() == Start(old(Now()))
    {
      if !stopped {
        return;
      }
      stopped := false;
      ageTimer := true;
      var begun := Refresh(true);
    }

    method StopPolling()
      modifies this
      ensures Now() == Stop(old(Now()))
    {
      stopped := true;
      epoch := epoch + 1;
      request, timer, ageTimer := None, None, false;
    }

    /** Begins a request unless one is under way; a full refresh replaces the one under way. */
    method Refresh(full: bool) returns (begun: Option<nat>)
      modifies this
      ensures Now() == Begin(old(Now()), full)
      ensures begun == if Now() == old(Now()) then None else request
    {
      if stopped {
        return None;
      }
      if !full && request.Some? {
        return None;
      }
      timer := None;
      epoch := epoch + 1;
      request := Some(epoch);
      view := view.(inFlight := true, phase := if view.data.Some? then Refreshing else Loading, error := "");
      begun := request;
    }

    /** What follows when the request begun at `begun` resolves or fails. */
    method Resume(begun: nat, outcome: Outcome, now: int)
      modifies this
      ensures Now() == Settle(old(Now()), settings, begun, outcome, now)
    {
      if stopped || begun != epoch {
        return;
      }
      match outcome {
        case Answered(answer) =>
          var problem := AcceptAnswer(answer, now);
          if problem.None? {
            failures := 0;
          } else {
            Note(problem.value, now);
          }
        case Aborted =>
        case Broken(message) => Note(message, now);
      }
      request := None;
      view := view.(inFlight := false);
      timer := Some(Delay(settings, failures));
    }

    method AcceptAnswer(answer: Answer, now: int) returns (problem: Option<string>)
      modifies this
      ensures match Accept(old(Now()), answer, now)
        case Ok(after) => problem.None? && Now() == after
        case Err(message) => problem == Some(message) && Now() == old(Now())
    {
      var sameScope := view.scopeKey.None? || view.scopeKey == Some(answer.scopeKey);
      if sameScope && answer.revision < view.revision {
        return None;
      }
      if answer.data.None? && (view.data.None? || !sameScope) {
        return Some(MISMATCH);
      }
      lastSuccess, etag := now, answer.etag;
      view := view.(data := if answer.data.Some? then answer.data else view.data,
                    refreshedAt := Some(answer.refreshedAt), revision := answer.revision,
                    scopeKey := Some(answer.scopeKey), phase := Fresh, error := "");
      problem := None;
    }

    method Note(message: string, now: int)
      modifies this
      ensures Now() == Fail(old(Now()), settings, message, now)
    {
      failures := failures + 1;
      view := view.(error := message, phase := if view.data.Some? && now - lastSuccess >= settings.staleMs then Stale else Failed);
    }

    method Age(now: int)
      modifies this
      ensures Now() == UpdateAge(old(Now()), settings, now)
    {
      if view.data.None? || lastSuccess == 0 {
        return;
      }
      var phase := if now - lastSuccess >= settings.staleMs then Stale else Fresh;
      if phase != view.phase {
        view := view.(phase := phase);
      }
    }
  }

  // ----- Runs -----

  /** The controller and the epochs of the requests that have not resolved. */
  datatype System = System(control: Control, open: set<nat>)

  /** `RefreshEvent(true)` is a visibility or connectivity event, `RefreshEvent(false)` the poll timer. */
  datatype Event =
    | StartEvent
    | StopEvent
    | RefreshEvent(full: bool)
    | ResolveEvent(begun: nat, outcome: Outcome, now: int)
    | AgeEvent(at: int)

  function Opened(before: Control, after: Control, open: set<nat>): set<nat> {
    if after.request.Some? && after.request != before.request then open + {after.request.value} else open
  }

  function Next(s: System, settings: Settings, e: Event): System {
    match e
    case StartEvent => System(Start(s.control), Opened(s.control, Start(s.control), s.open))
    case StopEvent => System(Stop(s.control), s.open)
    case RefreshEvent(full) => System(Begin(s.control, full), Opened(s.control, Begin(s.control, full), s.open))
    case ResolveEvent(begun, outcome, now) =>
      if begun in s.open then System(Settle(s.control, settings, begun, outcome, now), s.open - {begun}) else s
    case AgeEvent(at) => s.(control := UpdateAge(s.control, settings, at))
  }

  function Run(s: System, settings: Settings, events: seq<Event>): System
    decreases |events|
  {
    if events == [] then s
    else Next(Run(s, settings, events[..|events| - 1]), settings, events[|events| - 1])
  }

  const InitialSystem := System(InitialControl, {})

  /** Of the unresolved requests exactly the current one is live; while running there is either a
      request under way or a timer set for the next one, never both. */
  ghost predicate Inv(s: System) {
    var c := s.control;
    && (forall e | e in s.open :: e <= c.epoch)
    && (c.request.Some? <==> c.epoch in s.open)
    && (c.request.Some? ==> c.request == Some(c.epoch))
    && (c.stopped ==> c.request.None? && c.timer.None? && !c.ageTimer)
    && (!c.stopped ==> (c.request.Some? <==> c.timer.None?) && c.ageTimer && (c.view.inFlight <==> c.request.Some?))
    && (c.view.data.Some? <==> c.view.scopeKey.Some?) && (c.view.scopeKey.None? ==> c.view.revision == 0)
  }

  lemma StepKeepsInv(s: System, settings: Settings, e: Event)
    requires Inv(s)
    ensures Inv(Next(s, settings, e))
  {}

  lemma {:induction false} RunKeepsInv(s: System, settings: Settings, events: seq<Event>)
    requires Inv(s)
    ensures Inv(Run(s, settings, events))
    decreases |events|
  {
    if events != [] {
      RunKeepsInv(s, settings, events[..|events| - 1]);
      StepKeepsInv(Run(s, settings, events[..|events| - 1]), settings, events[|events| - 1]);
    }
  }

  lemma {:induction false} EpochsRise(s: System, settings: Settings, events: seq<Event>)
    ensures Run(s, settings, events).control.epoch >= s.control.epoch
    decreases |events|
  {
    if events != [] {
      EpochsRise(s, settings, events[..|events| - 1]);
    }
  }

  /** The request begun at `begun` was replaced or stopped. */
  predicate Superseded(c: Control, begun: nat) { c.epoch > begun }

  /** A full refresh and a stop supersede whatever request is under way, and what was superseded
      changes nothing whenever its response arrives. */
  lemma {:induction false} SupersededIsInert(before: seq<Event>, settings: Settings, after: seq<Event>, begun: nat, outcome: Outcome, now: int)
    requires Superseded(Run(InitialSystem, settings, before).control, begun)
    ensures var s := Run(Run(InitialSystem, settings, before), settings, after);
      Next(s, settings, ResolveEvent(begun, outcome, now)).control == s.control
  {
    EpochsRise(Run(InitialSystem, settings, before), settings, after);
  }

  lemma {:induction false} ReplacingSupersedes(events: seq<Event>, settings: Settings, e: Event, begun: nat)
    requires var s := Run(InitialSystem, settings, events);
      begun in s.open && (e == StopEvent || (e == RefreshEvent(true) && !s.control.stopped))
    ensures Superseded(Next(Run(InitialSystem, settings, events), settings, e).control, begun)
  {
    RunKeepsInv(InitialSystem, settings, events);
  }

  /** At every moment a response can change the view only if it belongs to the current request of a
      running controller. */
  lemma {:induction false} OnlyTheCurrentCounts(events: seq<Event>, settings: Settings, begun: nat, outcome: Outcome, now: int)
    ensures var s := Run(InitialSystem, settings, events);
      Next(s, settings, ResolveEvent(begun, outcome, now)).control != s.control ==>
        !s.control.stopped && s.control.request == Some(begun)
  {
    RunKeepsInv(InitialSystem, settings, events);
  }

  /** Polling never dies: a running controller waits for a response or for a timer, never for neither. */
  lemma {:induction false} PollingGoesOn(events: seq<Event>, settings: Settings)
    ensures var c := Run(InitialSystem, settings, events).control;
      !c.stopped ==> (c.request.Some? && c.timer.None?) || (c.request.None? && c.timer.Some?)
  {
    RunKeepsInv(InitialSystem, settings, events);
  }

  // ----- What each event does -----

  /** A request is begun unless the controller is stopped or, for the poll timer, one is under way. */
  lemma RefreshExactlyWhen(c: Control, full: bool)
    ensures var after := Begin(c, full);
      if c.stopped || (c.request.Some? && !full) then after == c
      else
        && after.request == Some(c.epoch + 1) && after.epoch == c.epoch + 1 && after.timer == None
        && after.view.inFlight && after.view.error == "" && after.view.phase == (if c.view.data.Some? then Refreshing else Loading)
        && SameContent(c.view, after.view) && after.view.refreshedAt == c.view.refreshedAt
        && (after.ageTimer, after.failures, after.stopped, after.lastSuccess, after.etag)
             == (c.ageTimer, c.failures, false, c.lastSuccess, c.etag)
  {}

  predicate SameContent(v: View, w: View) {
    (w.data, w.revision, w.scopeKey) == (v.data, v.revision, v.scopeKey)
  }

  /** Starting twice is starting once; a stop leaves nothing under way. */
  lemma StartAndStop(c: Control)
    ensures !c.stopped ==> Start(c) == c
    ensures c.stopped ==> !Start(c).stopped && Start(c).ageTimer && Start(c) == Begin(c.(stopped := false, ageTimer := true), true)
    ensures var after := Stop(c);
      && after.stopped && after.epoch == c.epoch + 1 && after.request == None && after.timer == None && !after.ageTimer
      && (after.view, after.failures, after.lastSuccess, after.etag) == (c.view, c.failures, c.lastSuccess, c.etag)
  {}

  /** An older revision of the scope that is shown. */
  predicate IsOlder(v: View, answer: Answer) {
    v.scopeKey in {None, Some(answer.scopeKey)} && answer.revision < v.revision
  }

  /** It says that nothing changed, but the version it is about is not the one that is shown. */
  predicate IsUnconfirmed(v: View, answer: Answer) {
    answer.data == None && (v.data == None || v.scopeKey !in {None, Some(answer.scopeKey)})
  }

  /** A failure keeps what is shown, and calls it stale or failed. */
  predicate NotesFailure(c: Control, after: Control, settings: Settings, message: string, now: int) {
    && after.failures == c.failures + 1 && (after.lastSuccess, after.etag) == (c.lastSuccess, c.etag)
    && SameContent(c.view, after.view) && after.view.refreshedAt == c.view.refreshedAt && after.view.error == message
    && after.view.phase == if c.view.data.Some? && c.lastSuccess + settings.staleMs <= now then Stale else Failed
  }

  predicate ShowsAnswer(c: Control, after: Control, answer: Answer, now: int) {
    && after.failures == 0 && after.lastSuccess == now && after.etag == answer.etag
    && after.view.data == (match answer.data case Some(d) => Some(d) case None => c.view.data)
    && (after.view.revision, after.view.scopeKey, after.view.refreshedAt) == (answer.revision, Some(answer.scopeKey), Some(answer.refreshedAt))
    && after.view.phase == Fresh && after.view.error == ""
  }

  /** How the current request ends, outcome by outcome; in every case the next poll is set. */
  lemma ResponseMeans(c: Control, settings: Settings, outcome: Outcome, now: int)
    requires !c.stopped
    ensures var after := Settle(c, settings, c.epoch, outcome, now);
      && after.request == None && !after.view.inFlight && after.timer == Some(Delay(settings, after.failures))
      && (after.epoch, after.stopped, after.ageTimer) == (c.epoch, false, c.ageTimer)
      && match outcome
         case Aborted => after.failures == c.failures && after.view == c.view.(inFlight := false)
           && (after.lastSuccess, after.etag) == (c.lastSuccess, c.etag)
         case Broken(message) => NotesFailure(c, after, settings, message, now)
         case Answered(answer) =>
           if IsOlder(c.view, answer) then
             after.failures == 0 && after.view == c.view.(inFlight := false) && (after.lastSuccess, after.etag) == (c.lastSuccess, c.etag)
           else if IsUnconfirmed(c.view, answer) then NotesFailure(c, after, settings, MISMATCH, now)
           else ShowsAnswer(c, after, answer, now)
  {}

  /** The wait doubles with each failure, up to ten seconds, and a success resets it. */
  lemma WaitDoubles(settings: Settings, failures: nat)
    ensures Delay(settings, 0) == settings.pollMs
    ensures Delay(settings, failures + 1) == (if 2 * Delay(settings, failures) < 10000 then 2 * Delay(settings, failures) else 10000)
  {
    assert settings.pollMs * (2 * Power2(failures)) == 2 * (settings.pollMs * Power2(failures));
  }

  // ----- What is shown -----

  predicate Shows(v: View, answer: Answer) {
    v.scopeKey == Some(answer.scopeKey) && v.revision == answer.revision && v.data == answer.data
  }

  /** In one step the shown revision falls only when an answer of another scope replaces the view. */
  lemma StepKeepsRevision(s: System, settings: Settings, e: Event)
    requires Inv(s)
    ensures var v, w := s.control.view, Next(s, settings, e).control.view;
      && (v.scopeKey.Some? ==> w.scopeKey.Some? && w.data.Some?)
      && (w.scopeKey == v.scopeKey || v.scopeKey.None? ==> w.revision >= v.revision)
      && (w.scopeKey == v.scopeKey || (e.ResolveEvent? && e.outcome.Answered? && Shows(w, e.outcome.answer)))
  {}

  /** No answer of another scope is accepted on the way. */
  predicate ScopeStays(s: System, settings: Settings, events: seq<Event>, scopeKey: Option<string>)
    decreases |events|
  {
    s.control.view.scopeKey == scopeKey && Run(s, settings, events).control.view.scopeKey == scopeKey
    && (events != [] ==> ScopeStays(s, settings, events[..|events| - 1], scopeKey))
  }

  lemma {:induction false} RevisionNeverFalls(s: System, settings: Settings, events: seq<Event>)
    requires Inv(s) && ScopeStays(s, settings, events, s.control.view.scopeKey)
    ensures Run(s, settings, events).control.view.revision >= s.control.view.revision
    decreases |events|
  {
    if events != [] {
      var rest := events[..|events| - 1];
      RevisionNeverFalls(s, settings, rest);
      RunKeepsInv(s, settings, rest);
      StepKeepsRevision(Run(s, settings, rest), settings, events[|events| - 1]);
    }
  }

  /** From the first moment on: while the scope key is unchanged the shown revision never decreases. */
  lemma {:induction false} RefreshIsMonotone(before: seq<Event>, settings: Settings, after: seq<Event>)
    requires var s := Run(InitialSystem, settings, before); ScopeStays(s, settings, after, s.control.view.scopeKey)
    ensures var s := Run(InitialSystem, settings, before);
      Run(s, settings, after).control.view.revision >= s.control.view.revision
  {
    RunKeepsInv(InitialSystem, settings, before);
    RevisionNeverFalls(Run(InitialSystem, settings, before), settings, after);
  }

  // ----- A view left in a request's phase -----

  /** The phase that beginning a request sets. */
  predicate Underway(v: View) { v.phase.Refreshing? || v.phase.Loading? }

  /** The response ends its request without saying anything about the view. */
  predicate SaysNothing(v: View, outcome: Outcome) {
    outcome.Aborted? || (outcome.Answered? && SameScope(v, outcome.answer) && outcome.answer.revision < v.revision)
  }

  /** The response of the current request leaves the view in a request's phase, with nothing under way
      any more, exactly when it was in one and the response is an abort or an older revision of the
      scope that is shown. */
  lemma ResponseLeavesPhase(events: seq<Event>, settings: Settings, begun: nat, outcome: Outcome, now: int)
    requires var c := Run(InitialSystem, settings, events).control; !c.stopped && c.request == Some(begun)
    ensures var s := Run(InitialSystem, settings, events);
      var after := Next(s, settings, ResolveEvent(begun, outcome, now)).control;
      && (Underway(after.view) <==> Underway(s.control.view) && SaysNothing(s.control.view, outcome))
      && after.request.None? && !after.view.inFlight && after.timer.Some?
  {
    RunKeepsInv(InitialSystem, settings, events);
  }

  /** The next age tick ends it exactly when something was ever shown, at a time other than zero;
      without that it lasts until the poll that the timer begins. */
  lemma AgeEndsPhase(c: Control, settings: Settings, now: int)
    ensures Underway(UpdateAge(c, settings, now).view) <==>
      Underway(c.view) && (c.view.data.None? || c.lastSuccess == 0)
    ensures c.view.data.Some? && c.lastSuccess != 0 ==>
      UpdateAge(c, settings, now).view.phase == if now - c.lastSuccess >= settings.staleMs then Stale else Fresh
  {}

  function StalledRun(): seq<Event> {
    [StartEvent, ResolveEvent(1, Answered(Answer(Some(7), 5, "k", 1, None)), 1),
     RefreshEvent(true), ResolveEvent(2, Answered(Answer(Some(8), 4, "k", 2, None)), 2)]
  }

  /** A run that ends refreshing with no request under way: the second answer is older than the first. */
  lemma RefreshingWithoutRequest(settings: Settings)
    ensures var c := Run(InitialSystem, settings, StalledRun()).control;
      !c.stopped && c.request.None? && !c.view.inFlight && c.view.phase.Refreshing? && c.view.data == Some(7)
  {
    var events := StalledRun();
    assert events[..3][..2] == events[..2] && events[..2][..1] == events[..1] && events[..1][..0] == [];
    var s1 := Next(InitialSystem, settings, StartEvent);
    assert s1 == Run(InitialSystem, settings, events[..1]);
    assert s1.open == {1};
    var s2 := Next(s1, settings, events[1]);
    assert s2 == Run(InitialSystem, settings, events[..2]);
    var s3 := Next(s2, settings, events[2]);
    assert s3 == Run(InitialSystem, settings, events[..3]);
    assert s3.open == {2};
  }
}
