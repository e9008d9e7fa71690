/** When a send of the source lane comes behind the send of a later command, and when it cannot. */
module SourceSends {
  import opened Wrappers
  import opened SourceLane
  import opened SourceOrder

  // ----- What else every run keeps -----

  /** Every attempt was handed out as a claim. */
  ghost predicate AttemptsHanded(s: System) {
    forall key | key in s.lane.attempts :: Claim(key.0, s.lane.attempts[key].lease, key.1) in s.claims
  }

  ghost predicate SettledClaimed(commands: seq<Row>) {
    forall i | 0 <= i < |commands| && commands[i].status.Settled? :: commands[i].attempts > 0
  }

  ghost predicate SendsClaimed(s: System) {
    forall p | 0 <= p < |s.trace| && s.trace[p].SendOf? :: ClaimedOnce(s.claims, s.trace[p].actionId)
  }

  /** Every attempt was handed out, every settled command was claimed, and so was whatever was sent. */
  ghost predicate Handed(s: System) {
    AttemptsHanded(s) && SettledClaimed(s.lane.commands) && SendsClaimed(s)
  }

  ghost predicate ClaimedOnce(claims: set<Claim>, id: Id) {
    exists c | c in claims :: c.actionId == id
  }

  lemma StepKeepsAttemptsHanded(s: System, step: Step)
    requires AttemptsHanded(s)
    ensures AttemptsHanded(Next(s, step))
  {
    if step.SaveStep? {
      SaveShape(s.lane, step.actor, step.input, step.conforms, step.inScope);
    }
  }

  lemma StepKeepsSettledClaimed(s: System, step: Step)
    requires Queue(s.lane) && SettledClaimed(s.lane.commands)
    ensures SettledClaimed(Next(s, step).lane.commands)
  {
    if step.SaveStep? {
      SaveShape(s.lane, step.actor, step.input, step.conforms, step.inScope);
    }
  }

  lemma StepKeepsSendsClaimed(s: System, step: Step)
    requires SendsClaimed(s) && Allowed(s, step)
    ensures SendsClaimed(Next(s, step))
  {
    var after := Next(s, step);
    forall p | 0 <= p < |after.trace| && after.trace[p].SendOf? ensures ClaimedOnce(after.claims, after.trace[p].actionId) {
      if p < |s.trace| {
        assert ClaimedOnce(s.claims, s.trace[p].actionId);
      }
    }
  }

  lemma StepKeepsHanded(s: System, step: Step)
    requires Inv(s) && Handed(s) && Allowed(s, step)
    ensures Handed(Next(s, step))
  {
    StepKeepsAttemptsHanded(s, step);
    StepKeepsSettledClaimed(s, step);
    StepKeepsSendsClaimed(s, step);
  }

  lemma {:induction false} RunKeepsHanded(s: System, steps: seq<Step>)
    requires Inv(s) && Handed(s) && AllAllowed(s, steps)
    ensures Inv(Run(s, steps)) && Handed(Run(s, steps))
    decreases |steps|
  {
    if steps != [] {
      StepKeepsInv(s, steps[0]);
      StepKeepsHanded(s, steps[0]);
      RunKeepsHanded(Next(s, steps[0]), steps[1..]);
    }
  }

  // ----- Overtaking -----

  /** A command behind row `i` was sent. */
  ghost predicate SentBehind(commands: seq<Row>, trace: seq<TraceEvent>, i: nat) {
    exists p | 0 <= p < |trace| :: trace[p].SendOf? && i < Find(commands, trace[p].actionId) < |commands|
  }

  /** A command behind row `i` was claimed at least once. */
  predicate ClaimedBehind(commands: seq<Row>, i: nat) {
    exists j | 0 <= j < |commands| :: i < j && commands[j].attempts > 0
  }

  lemma SentIsClaimed(s: System, p: nat)
    requires Inv(s) && Handed(s) && p < |s.trace| && s.trace[p].SendOf?
    ensures AttemptsOf(s.lane, s.trace[p].actionId) > 0
  {
    assert ClaimedOnce(s.claims, s.trace[p].actionId);
    var c :| c in s.claims && c.actionId == s.trace[p].actionId;
    assert (c.actionId, c.number) in s.lane.attempts;
  }

  lemma SentBehindIsClaimedBehind(s: System, i: nat)
    requires Inv(s) && Handed(s) && SentBehind(s.lane.commands, s.trace, i)
    ensures ClaimedBehind(s.lane.commands, i)
  {
    var p :| 0 <= p < |s.trace| && s.trace[p].SendOf? && i < Find(s.lane.commands, s.trace[p].actionId) < |s.lane.commands|;
    SentIsClaimed(s, p);
  }

  /** While its command is pending a worker's send cannot come behind the send of a later command. */
  lemma PendingIsNotOvertaken(steps: seq<Step>, i: nat)
    requires AllAllowed(Start, steps)
    requires i < |Run(Start, steps).lane.commands| && Run(Start, steps).lane.commands[i].status.Pending?
    ensures !ClaimedBehind(Run(Start, steps).lane.commands, i)
    ensures !SentBehind(Run(Start, steps).lane.commands, Run(Start, steps).trace, i)
  {
    RunKeepsHanded(Start, steps);
    var s := Run(Start, steps);
    if SentBehind(s.lane.commands, s.trace, i) {
      SentBehindIsClaimedBehind(s, i);
    }
  }

  ghost predicate OnlySends(steps: seq<Step>) {
    forall k | 0 <= k < |steps| :: steps[k].SendStep?
  }

  lemma {:induction false} SendsChangeTraceOnly(s: System, steps: seq<Step>)
    requires OnlySends(steps)
    ensures Run(s, steps).lane == s.lane && Run(s, steps).claims == s.claims
    decreases |steps|
  {
    if steps != [] {
      SendsChangeTraceOnly(Next(s, steps[0]), steps[1..]);
    }
  }

  /** After the sends `more` of claims already handed out, this claim's send comes behind a later command's. */
  ghost predicate ComesLate(s: System, more: seq<Step>, claim: Claim) {
    && OnlySends(more) && AllAllowed(s, more)
    && SentBehind(s.lane.commands, Run(s, more).trace, Find(s.lane.commands, claim.actionId))
  }

  lemma ClaimOf(s: System, j: nat) returns (claim: Claim)
    requires Inv(s) && Handed(s) && j < |s.lane.commands| && s.lane.commands[j].attempts > 0
    ensures claim in s.claims && claim.actionId == s.lane.commands[j].ActionId()
  {
    var id, n := s.lane.commands[j].ActionId(), s.lane.commands[j].attempts;
    FindOwn(s.lane.commands, j);
    assert (id, n) in s.lane.attempts;
    claim := Claim(id, s.lane.attempts[(id, n)].lease, n);
  }

  lemma LaterSendFits(s: System, claim: Claim, j: nat) returns (more: seq<Step>)
    requires Inv(s) && Handed(s) && j < |s.lane.commands| && s.lane.commands[j].attempts > 0
    requires Find(s.lane.commands, claim.actionId) < j
    ensures ComesLate(s, more, claim)
  {
    var later := ClaimOf(s, j);
    more := [SendStep(later)];
    var after := Next(s, more[0]);
    assert more[1..] == [] && Run(s, more) == after;
    FindOwn(s.lane.commands, j);
    assert after.trace[|s.trace|] == SendOf(later.actionId);
  }

  lemma LateNeedsClaim(s: System, more: seq<Step>, claim: Claim)
    requires Inv(s) && Handed(s) && ComesLate(s, more, claim)
    ensures ClaimedBehind(s.lane.commands, Find(s.lane.commands, claim.actionId))
  {
    RunKeepsHanded(s, more);
    SendsChangeTraceOnly(s, more);
    SentBehindIsClaimedBehind(Run(s, more), Find(s.lane.commands, claim.actionId));
  }

  /** Some interleaving of what other workers already hold makes this claim's send late exactly when a
      later command was ever claimed, which needs this command to be settled. */
  lemma LateExactlyWhen(steps: seq<Step>, claim: Claim)
    requires AllAllowed(Start, steps) && claim in Run(Start, steps).claims
    ensures var s := Run(Start, steps);
      var i := Find(s.lane.commands, claim.actionId);
      && ((exists more :: ComesLate(s, more, claim)) <==> ClaimedBehind(s.lane.commands, i))
      && (ClaimedBehind(s.lane.commands, i) ==> i < |s.lane.commands| && s.lane.commands[i].status.Settled?)
      && Allowed(s, SendStep(claim))
  {
    RunKeepsHanded(Start, steps);
    var s := Run(Start, steps);
    var i := Find(s.lane.commands, claim.actionId);
    if more :| ComesLate(s, more, claim) {
      LateNeedsClaim(s, more, claim);
    }
    if ClaimedBehind(s.lane.commands, i) {
      var j :| 0 <= j < |s.lane.commands| && i < j && s.lane.commands[j].attempts > 0;
      var more := LaterSendFits(s, claim, j);
    }
  }

  // ----- Runs whose workers look first -----

  /** Every send is made while its command is still pending. */
  predicate Guarded(s: System, steps: seq<Step>)
    decreases |steps|
  {
    steps == [] ||
    (&& (steps[0].SendStep? ==>
           var i := Find(s.lane.commands, steps[0].claim.actionId);
           i < |s.lane.commands| && s.lane.commands[i].status.Pending?)
     && Guarded(Next(s, steps[0]), steps[1..]))
  }

  /** Sends never go back to an earlier command. */
  ghost predicate SendsForward(commands: seq<Row>, trace: seq<TraceEvent>) {
    forall p, q | 0 <= p < q < |trace| && trace[p].SendOf? && trace[q].SendOf? ::
      NotBack(commands, trace[p].actionId, trace[q].actionId)
  }

  predicate NotBack(commands: seq<Row>, first: Id, second: Id) { Find(commands, first) <= Find(commands, second) }

  lemma SamePlacesNotBack(before: seq<Row>, after: seq<Row>, first: Id, second: Id)
    requires SamePlaces(before, after) && NotBack(before, first, second) && Find(before, second) < |before|
    ensures NotBack(after, first, second)
  {}

  /** Every place of a command in the queue is the same. */
  ghost predicate SamePlaces(before: seq<Row>, after: seq<Row>) {
    forall id | Find(before, id) < |before| :: Find(after, id) == Find(before, id)
  }

  lemma StepKeepsPlaces(s: System, step: Step)
    ensures SamePlaces(s.lane.commands, Next(s, step).lane.commands)
  {
    var after := Next(s, step).lane;
    if step.SaveStep? {
      SaveShape(s.lane, step.actor, step.input, step.conforms, step.inScope);
      forall id | Find(s.lane.commands, id) < |s.lane.commands| ensures Find(after.commands, id) == Find(s.lane.commands, id) {
        FindAppended(s.lane.commands, Row(step.input, step.actor, Pending, 0, None, None, None), id);
      }
    } else {
      forall id ensures Find(after.commands, id) == Find(s.lane.commands, id) {
        FindSameIds(s.lane.commands, after.commands, id);
      }
    }
  }

  lemma SamePlacesForward(before: seq<Row>, after: seq<Row>, trace: seq<TraceEvent>)
    requires SendsForward(before, trace) && SamePlaces(before, after)
    requires forall p | 0 <= p < |trace| && trace[p].SendOf? :: Find(before, trace[p].actionId) < |before|
    ensures SendsForward(after, trace)
  {
    forall p, q | 0 <= p < q < |trace| && trace[p].SendOf? && trace[q].SendOf?
      ensures NotBack(after, trace[p].actionId, trace[q].actionId)
    {
      SamePlacesNotBack(before, after, trace[p].actionId, trace[q].actionId);
    }
  }

  lemma VerdictStaysForward(commands: seq<Row>, trace: seq<TraceEvent>, e: TraceEvent)
    requires SendsForward(commands, trace) && e.VerdictOn?
    ensures SendsForward(commands, trace + [e])
  {}

  lemma SendStaysForward(s: System, claim: Claim)
    requires Inv(s) && Handed(s) && SendsForward(s.lane.commands, s.trace)
    requires var i := Find(s.lane.commands, claim.actionId); i < |s.lane.commands| && s.lane.commands[i].status.Pending?
    ensures SendsForward(s.lane.commands, s.trace + [SendOf(claim.actionId)])
  {
    var i := Find(s.lane.commands, claim.actionId);
    forall p | 0 <= p < |s.trace| && s.trace[p].SendOf? ensures NotBack(s.lane.commands, s.trace[p].actionId, claim.actionId) {
      SentIsClaimed(s, p);
    }
  }

  lemma SentIsSaved(s: System, p: nat)
    requires Inv(s) && p < |s.trace| && s.trace[p].SendOf?
    ensures Find(s.lane.commands, s.trace[p].actionId) < |s.lane.commands|
  {
    assert SendInOrder(s.lane.commands, s.trace, p, s.trace[p].actionId);
  }

  lemma StepStaysForward(s: System, step: Step)
    requires Inv(s) && Handed(s) && SendsForward(s.lane.commands, s.trace)
    requires step.SendStep? ==>
      var i := Find(s.lane.commands, step.claim.actionId); i < |s.lane.commands| && s.lane.commands[i].status.Pending?
    ensures SendsForward(Next(s, step).lane.commands, Next(s, step).trace)
  {
    if step.SendStep? {
      SendStaysForward(s, step.claim);
    } else {
      StepKeepsPlaces(s, step);
      forall p | 0 <= p < |s.trace| && s.trace[p].SendOf? ensures Find(s.lane.commands, s.trace[p].actionId) < |s.lane.commands| {
        SentIsSaved(s, p);
      }
      SamePlacesForward(s.lane.commands, Next(s, step).lane.commands, s.trace);
      if step.CompleteStep? && step.response.Decided? {
        VerdictStaysForward(Next(s, step).lane.commands, s.trace, VerdictOn(step.claim.actionId, step.response.decision));
      }
    }
  }

  lemma {:induction false} GuardedStaysForward(s: System, steps: seq<Step>)
    requires Inv(s) && Handed(s) && AllAllowed(s, steps) && Guarded(s, steps) && SendsForward(s.lane.commands, s.trace)
    ensures SendsForward(Run(s, steps).lane.commands, Run(s, steps).trace)
    decreases |steps|
  {
    if steps != [] {
      StepKeepsInv(s, steps[0]);
      StepKeepsHanded(s, steps[0]);
      StepStaysForward(s, steps[0]);
      GuardedStaysForward(Next(s, steps[0]), steps[1..]);
    }
  }

  /** If every worker sends only while its command is still pending, all sends, repeated ones too, go
      through the queue in order. */
  lemma GuardedRunsAreOrdered(steps: seq<Step>)
    requires AllAllowed(Start, steps) && Guarded(Start, steps)
    ensures SendsForward(Run(Start, steps).lane.commands, Run(Start, steps).trace)
  {
    GuardedStaysForward(Start, steps);
  }

  // ----- A late send -----

  const RECORD := RecordKey(Shipment, "r")

  function Saving(actionId: Id, expected: nat): Step {
    SaveStep("operator", Submission(Command(actionId, "intake.submitSnapshot", ""), [Edit(RECORD, expected, "")]), true, true)
  }

  const FIRST_CLAIM := Claim(1, 10, 1)
  const SECOND_CLAIM := Claim(1, 11, 2)
  const LATER_CLAIM := Claim(2, 12, 1)

  /** Two revisions of one record; the first worker's lease expires, a second worker settles the first
      command, the later one is sent, and then the first worker sends again. */
  function LateRun(): seq<Step> {
    [Saving(1, 0), Saving(2, 1), ClaimStep(true, false, 10), SendStep(FIRST_CLAIM), ClaimStep(true, false, 11), SendStep(SECOND_CLAIM),
     CompleteStep(SECOND_CLAIM, Decided(Accepted, None, "")), ClaimStep(true, false, 12), SendStep(LATER_CLAIM), SendStep(FIRST_CLAIM)]
  }

  function LateRow(actionId: Id, expected: nat, status: Status, attempts: nat, lease: Option<Id>, result: Option<string>): Row {
    Row(Saving(actionId, expected).input, "operator", status, attempts, lease, None, result)
  }

  const SAVED_RECORDS := map[RECORD := RecordRow(2, "", 2)]
  const SAVED_CHANGES := map[Version(RECORD, 1) := Change("", 1), Version(RECORD, 2) := Change("", 2)]

  function BothSaved(): System {
    System(Lane([LateRow(1, 0, Pending, 0, None, None), LateRow(2, 1, Pending, 0, None, None)], SAVED_RECORDS, SAVED_CHANGES, map[]),
           {}, {}, [])
  }

  lemma RunOn(s: System, step: Step, next: System, rest: seq<Step>)
    requires Allowed(s, step) && Next(s, step) == next
    ensures Run(s, [step] + rest) == Run(next, rest)
    ensures AllAllowed(next, rest) ==> AllAllowed(s, [step] + rest)
  {
    assert ([step] + rest)[1..] == rest;
  }

  lemma SavingBoth()
    ensures Next(Next(Start, Saving(1, 0)), Saving(2, 1)) == BothSaved()
  {
    var s1 := System(Lane([LateRow(1, 0, Pending, 0, None, None)], map[RECORD := RecordRow(1, "", 1)],
                          map[Version(RECORD, 1) := Change("", 1)], map[]), {}, {}, []);
    var edit := Edit(RECORD, 0, "");
    assert [edit][..0] == [] && RecordAll(EmptyLane, [], 1) == EmptyLane;
    assert Next(Start, Saving(1, 0)) == s1 by {
      assert [edit][|[edit]| - 1] == edit;
    }
    var second := Edit(RECORD, 1, "");
    assert [second][..0] == [];
    assert Find(s1.lane.commands, 2) == 1;
    assert Next(s1, Saving(2, 1)).lane.commands == BothSaved().lane.commands;
  }

  /** The lane after the two saves, with what the claims and completions change. */
  function Later(first: Row, second: Row, attempts: map<(Id, nat), Attempt>, claims: set<Claim>, leases: set<Id>, trace: seq<TraceEvent>): System {
    System(Lane([first, second], SAVED_RECORDS, SAVED_CHANGES, attempts), claims, leases, trace)
  }

  const FIRST_PENDING := LateRow(1, 0, Pending, 0, None, None)
  const SECOND_PENDING := LateRow(2, 1, Pending, 0, None, None)
  const EXPIRED := Attempt(10, Some(LeaseExpired))

  function ClaimedOnceState(trace: seq<TraceEvent>): System {
    Later(LateRow(1, 0, Pending, 1, Some(10), None), SECOND_PENDING, map[(1, 1) := Attempt(10, None)], {FIRST_CLAIM}, {10}, trace)
  }

  function ClaimedTwiceState(trace: seq<TraceEvent>): System {
    Later(LateRow(1, 0, Pending, 2, Some(11), None), SECOND_PENDING, map[(1, 1) := EXPIRED, (1, 2) := Attempt(11, None)],
          {FIRST_CLAIM, SECOND_CLAIM}, {10, 11}, trace)
  }

  function SettledState(): System {
    Later(LateRow(1, 0, Settled(Accepted), 2, None, Some("")), SECOND_PENDING,
          map[(1, 1) := EXPIRED, (1, 2) := Attempt(11, Some(Verdict(Accepted)))],
          {FIRST_CLAIM, SECOND_CLAIM}, {10, 11}, [SendOf(1), SendOf(1), VerdictOn(1, Accepted)])
  }

  function LaterClaimedState(trace: seq<TraceEvent>): System {
    var s := SettledState();
    Later(s.lane.commands[0], LateRow(2, 1, Pending, 1, Some(12), None), s.lane.attempts[(2, 1) := Attempt(12, None)],
          s.claims + {LATER_CLAIM}, {10, 11, 12}, trace)
  }

  lemma FirstClaim()
    ensures Next(BothSaved(), ClaimStep(true, false, 10)) == ClaimedOnceState([])
  {}

  lemma SecondClaim()
    ensures Next(ClaimedOnceState([SendOf(1)]), ClaimStep(true, false, 11)) == ClaimedTwiceState([SendOf(1)])
  {}

  lemma FirstVerdict()
    ensures Next(ClaimedTwiceState([SendOf(1), SendOf(1)]), CompleteStep(SECOND_CLAIM, Decided(Accepted, None, ""))) == SettledState()
  {}

  lemma LaterClaim()
    ensures Next(SettledState(), ClaimStep(true, false, 12)) == LaterClaimedState(SettledState().trace)
  {}

  /** From the later claim on: the later command is sent, and then the first one again. */
  lemma LateEnd()
    ensures var rest, end := [SendStep(LATER_CLAIM), SendStep(FIRST_CLAIM)], SettledState().trace + [SendOf(2), SendOf(1)];
      && AllAllowed(LaterClaimedState(SettledState().trace), rest)
      && Run(LaterClaimedState(SettledState().trace), rest) == LaterClaimedState(end)
  {
    var s := LaterClaimedState(SettledState().trace);
    var t := LaterClaimedState(SettledState().trace + [SendOf(2)]);
    var end := SettledState().trace + [SendOf(2), SendOf(1)];
    assert SettledState().trace + [SendOf(2)] + [SendOf(1)] == end;
    RunOn(t, SendStep(FIRST_CLAIM), LaterClaimedState(end), []);
    RunOn(s, SendStep(LATER_CLAIM), t, [SendStep(FIRST_CLAIM)]);
    assert [SendStep(FIRST_CLAIM)] + [] == [SendStep(FIRST_CLAIM)];
    assert [SendStep(LATER_CLAIM)] + [SendStep(FIRST_CLAIM)] == [SendStep(LATER_CLAIM), SendStep(FIRST_CLAIM)];
  }

  function UntilVerdict(rest: seq<Step>): seq<Step> {
    [SendStep(SECOND_CLAIM)] + ([CompleteStep(SECOND_CLAIM, Decided(Accepted, None, ""))] + ([ClaimStep(true, false, 12)] + rest))
  }

  /** From the second claim to the later one. */
  lemma LateVerdict(rest: seq<Step>)
    requires AllAllowed(LaterClaimedState(SettledState().trace), rest)
    ensures AllAllowed(ClaimedTwiceState([SendOf(1)]), UntilVerdict(rest))
    ensures Run(ClaimedTwiceState([SendOf(1)]), UntilVerdict(rest)) == Run(LaterClaimedState(SettledState().trace), rest)
  {
    FirstVerdict();
    LaterClaim();
    var r7 := [ClaimStep(true, false, 12)] + rest;
    var r6 := [CompleteStep(SECOND_CLAIM, Decided(Accepted, None, ""))] + r7;
    RunOn(SettledState(), ClaimStep(true, false, 12), LaterClaimedState(SettledState().trace), rest);
    RunOn(ClaimedTwiceState([SendOf(1), SendOf(1)]), CompleteStep(SECOND_CLAIM, Decided(Accepted, None, "")), SettledState(), r7);
    RunOn(ClaimedTwiceState([SendOf(1)]), SendStep(SECOND_CLAIM), ClaimedTwiceState([SendOf(1), SendOf(1)]), r6);
  }

  /** From the first claim to the later one. */
  lemma LateMiddle(rest: seq<Step>) returns (steps: seq<Step>)
    requires AllAllowed(LaterClaimedState(SettledState().trace), rest)
    ensures steps == [ClaimStep(true, false, 10)] + ([SendStep(FIRST_CLAIM)] + ([ClaimStep(true, false, 11)] + UntilVerdict(rest)))
    ensures AllAllowed(BothSaved(), steps) && Run(BothSaved(), steps) == Run(LaterClaimedState(SettledState().trace), rest)
  {
    FirstClaim();
    SecondClaim();
    LateVerdict(rest);
    var r5 := UntilVerdict(rest);
    var r4 := [ClaimStep(true, false, 11)] + r5;
    var r3 := [SendStep(FIRST_CLAIM)] + r4;
    RunOn(ClaimedOnceState([SendOf(1)]), ClaimStep(true, false, 11), ClaimedTwiceState([SendOf(1)]), r5);
    RunOn(ClaimedOnceState([]), SendStep(FIRST_CLAIM), ClaimedOnceState([SendOf(1)]), r4);
    RunOn(BothSaved(), ClaimStep(true, false, 10), ClaimedOnceState([]), r3);
    steps := [ClaimStep(true, false, 10)] + r3;
  }

  lemma GoingBack(commands: seq<Row>, trace: seq<TraceEvent>, p: nat, q: nat)
    requires p < q < |trace| && trace[p].SendOf? && trace[q].SendOf?
    requires Find(commands, trace[p].actionId) > Find(commands, trace[q].actionId)
    ensures !SendsForward(commands, trace)
  {
    assert !NotBack(commands, trace[p].actionId, trace[q].actionId);
  }

  lemma LateRunEnds() returns (steps: seq<Step>)
    ensures AllAllowed(Start, steps)
    ensures Run(Start, steps) == LaterClaimedState([SendOf(1), SendOf(1), VerdictOn(1, Accepted), SendOf(2), SendOf(1)])
    ensures steps == LateRun()
  {
    LateEnd();
    var r2 := LateMiddle([SendStep(LATER_CLAIM), SendStep(FIRST_CLAIM)]);
    SavingBoth();
    RunOn(Next(Start, Saving(1, 0)), Saving(2, 1), BothSaved(), r2);
    RunOn(Start, Saving(1, 0), Next(Start, Saving(1, 0)), [Saving(2, 1)] + r2);
    steps := [Saving(1, 0)] + ([Saving(2, 1)] + r2);
    LateRunInParts();
  }

  lemma LateRunInParts()
    ensures LateRun() == [Saving(1, 0)] + ([Saving(2, 1)] + ([ClaimStep(true, false, 10)] + ([SendStep(FIRST_CLAIM)]
      + ([ClaimStep(true, false, 11)] + UntilVerdict([SendStep(LATER_CLAIM), SendStep(FIRST_CLAIM)])))))
  {}

  /** The revisions of one record sent out of order: revision 1 once more after revision 2, so the
      sends of all workers do go back. */
  lemma LateSendHappens() returns (steps: seq<Step>)
    ensures steps == LateRun() && AllAllowed(Start, steps)
    ensures var s := Run(Start, steps);
      && s.trace == [SendOf(1), SendOf(1), VerdictOn(1, Accepted), SendOf(2), SendOf(1)]
      && s.lane.changes == SAVED_CHANGES && !SendsForward(s.lane.commands, s.trace)
  {
    steps := LateRunEnds();
    var trace := [SendOf(1), SendOf(1), VerdictOn(1, Accepted), SendOf(2), SendOf(1)];
    GoingBack(LaterClaimedState(trace).lane.commands, trace, 3, 4);
  }
}
