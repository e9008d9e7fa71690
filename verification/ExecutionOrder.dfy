/** What a successful projection says about the order in which the work was recorded. */
module ExecutionOrder {
  import opened Wrappers
  import opened LocalCommands

  function OfflineOnly(commands: seq<Envelope>): (r: seq<Envelope>)
    ensures forall c | c in r :: Offline(c.operation)
    ensures forall c | c in commands && Offline(c.operation) :: c in r
    decreases |commands|
  {
    if commands == [] then []
    else
      var n := |commands| - 1;
      OfflineOnly(commands[..n]) + if Offline(commands[n].operation) then [commands[n]] else []
  }

  lemma {:induction false} SkippingOnline(base: Current, commands: seq<Envelope>)
    requires Project(base, commands).Ok?
    ensures Project(base, OfflineOnly(commands)) == Project(base, commands)
    decreases |commands|
  {
    if commands != [] {
      var n := |commands| - 1;
      var kept := OfflineOnly(commands[..n]);
      SkippingOnline(base, commands[..n]);
      if Offline(commands[n].operation) {
        ProjectNext(base, kept, commands[n]);
      } else {
        assert OfflineOnly(commands) == kept;
      }
    }
  }

  /** The state before command `i`, which accepts it. */
  lemma {:induction false} Before(base: Current, commands: seq<Envelope>, i: nat) returns (s: Current)
    requires Project(base, commands).Ok? && i < |commands| && Offline(commands[i].operation)
    ensures Project(base, commands[..i]) == Ok(s) && Objection(s, commands[i]).None?
    ensures Project(base, commands[..i + 1]) == Ok(Perform(s, commands[i]))
  {
    ProjectPrefix(base, commands, i);
    ProjectPrefix(base, commands, i + 1);
    assert commands[..i + 1][..i] == commands[..i];
    s := Project(base, commands[..i]).value;
  }

  /** Command `i` is operation `op` on `attempt`. */
  predicate Records(commands: seq<Envelope>, i: int, op: Operation, attempt: Id) {
    0 <= i < |commands| && commands[i].operation == op && commands[i].payload.attemptId == Some(attempt)
  }

  predicate UnderWay(s: Current, attempt: Id, stage: Stage) {
    s.activity.Some? && s.activity.value.attemptId == attempt && s.activity.value.stage == stage
  }

  /** An attempt is under way because the last offline command says so, or because it already was. */
  lemma ActivityHasCause(base: Current, commands: seq<Envelope>, k: nat, s: Current, attempt: Id, stage: Stage)
    requires Project(base, commands).Ok? && k <= |commands| && Project(base, commands[..k]) == Ok(s)
    requires forall c | c in commands :: Offline(c.operation)
    requires UnderWay(s, attempt, stage)
    ensures k == 0 ==> UnderWay(base, attempt, stage)
    ensures k > 0 ==> Records(commands, k - 1, if stage == Heading then SelectHeading else RecordArrival, attempt)
    ensures k > 0 && stage == Arrived ==>
      Project(base, commands[..k - 1]).Ok? && UnderWay(Project(base, commands[..k - 1]).value, attempt, Heading)
  {
    if k > 0 {
      assert commands[k - 1] in commands;
      var before := Before(base, commands, k - 1);
    }
  }

  /** Heading, arrival and result of one attempt follow each other directly; the first of them may
      already stand in the confirmed state. */
  ghost predicate Delivered(base: Current, commands: seq<Envelope>, i: nat, attempt: Id) {
    if i == 0 then UnderWay(base, attempt, Arrived)
    else
      && Records(commands, i - 1, RecordArrival, attempt)
      && if i == 1 then UnderWay(base, attempt, Heading) else Records(commands, i - 2, SelectHeading, attempt)
  }

  lemma ArrivalHasCause(base: Current, commands: seq<Envelope>, k: nat, attempt: Id)
    requires Project(base, commands).Ok? && k <= |commands| && Project(base, commands[..k]).Ok?
    requires forall c | c in commands :: Offline(c.operation)
    requires UnderWay(Project(base, commands[..k]).value, attempt, Arrived)
    ensures Delivered(base, commands, k, attempt)
  {
    ActivityHasCause(base, commands, k, Project(base, commands[..k]).value, attempt, Arrived);
    if k > 0 {
      var before := Project(base, commands[..k - 1]).value;
      assert UnderWay(before, attempt, Heading);
      ActivityHasCause(base, commands, k - 1, before, attempt, Heading);
    }
  }

  lemma ResultNeedsArrival(s: Current, c: Envelope)
    requires Objection(s, c).None? && (c.operation.RecordFull? || c.operation.RecordPartial?)
    ensures c.payload.attemptId.Some? && UnderWay(s, c.payload.attemptId.value, Arrived)
  {}

  lemma ArrivedBefore(base: Current, commands: seq<Envelope>, i: nat)
    requires Project(base, commands).Ok? && i < |commands|
    requires commands[i].operation.RecordFull? || commands[i].operation.RecordPartial?
    ensures Project(base, commands[..i]).Ok? && commands[i].payload.attemptId.Some?
    ensures UnderWay(Project(base, commands[..i]).value, commands[i].payload.attemptId.value, Arrived)
  {
    var s := Before(base, commands, i);
    ResultNeedsArrival(s, commands[i]);
  }

  lemma ResultFollowsArrival(base: Current, commands: seq<Envelope>, i: nat)
    requires Project(base, commands).Ok? && forall c | c in commands :: Offline(c.operation)
    requires i < |commands| && (commands[i].operation.RecordFull? || commands[i].operation.RecordPartial?)
    ensures commands[i].payload.attemptId.Some? && Delivered(base, commands, i, commands[i].payload.attemptId.value)
  {
    ArrivedBefore(base, commands, i);
    ArrivalHasCause(base, commands, i, commands[i].payload.attemptId.value);
  }

  /** A full or partial result comes directly after arriving at the same attempt, and that after heading for it. */
  lemma ResultsFollowArrival(base: Current, all: seq<Envelope>, i: nat)
    requires Project(base, all).Ok?
    requires var commands := OfflineOnly(all);
      i < |commands| && (commands[i].operation.RecordFull? || commands[i].operation.RecordPartial?)
    ensures var commands := OfflineOnly(all);
      commands[i].payload.attemptId.Some? && Delivered(base, commands, i, commands[i].payload.attemptId.value)
  {
    SkippingOnline(base, all);
    ResultFollowsArrival(base, OfflineOnly(all), i);
  }

  ghost predicate Targeted(s: Current, attempt: Option<Id>) {
    exists t :: t in s.targets && Some(t.attemptId) == attempt
  }

  /** Attempts never become targets again. */
  lemma {:induction false} TargetsShrink(base: Current, commands: seq<Envelope>, i: nat, attempt: Option<Id>)
    requires Project(base, commands).Ok? && i <= |commands| && Project(base, commands[..i]).Ok?
    requires Targeted(Project(base, commands).value, attempt)
    ensures Targeted(Project(base, commands[..i]).value, attempt)
    decreases |commands|
  {
    if i == |commands| {
      assert commands[..i] == commands;
    } else {
      var n := |commands| - 1;
      assert commands[..n][..i] == commands[..i];
      var t :| t in Project(base, commands).value.targets && Some(t.attemptId) == attempt;
      assert t in Project(base, commands[..n]).value.targets;
      TargetsShrink(base, commands[..n], i, attempt);
    }
  }

  lemma AcceptedIsTargeted(s: Current, c: Envelope)
    requires Objection(s, c).None?
    ensures Targeted(s, c.payload.attemptId) && c.payload.attemptId.Some?
    ensures Outcome(c.operation).Some? ==> !Targeted(Perform(s, c), c.payload.attemptId)
  {
    assert FindTarget(s.targets, c.payload).value in s.targets;
  }

  lemma TargetedBefore(base: Current, commands: seq<Envelope>, i: nat)
    requires Project(base, commands).Ok? && i < |commands| && Offline(commands[i].operation)
    ensures Project(base, commands[..i]).Ok? && commands[i].payload.attemptId.Some?
    ensures Targeted(Project(base, commands[..i]).value, commands[i].payload.attemptId)
  {
    var s := Before(base, commands, i);
    AcceptedIsTargeted(s, commands[i]);
  }

  lemma UntargetedAfter(base: Current, commands: seq<Envelope>, i: nat)
    requires Project(base, commands).Ok? && i < |commands| && Outcome(commands[i].operation).Some?
    ensures Project(base, commands[..i + 1]).Ok?
    ensures !Targeted(Project(base, commands[..i + 1]).value, commands[i].payload.attemptId)
  {
    var s := Before(base, commands, i);
    AcceptedIsTargeted(s, commands[i]);
  }

  lemma ResultOnce(base: Current, commands: seq<Envelope>, i: nat, j: nat)
    requires Project(base, commands).Ok? && i < j < |commands|
    requires Outcome(commands[i].operation).Some? && Offline(commands[j].operation)
    ensures commands[i].payload.attemptId.Some? && commands[i].payload.attemptId != commands[j].payload.attemptId
  {
    TargetedBefore(base, commands, i);
    TargetedBefore(base, commands, j);
    UntargetedAfter(base, commands, i);
    if commands[i].payload.attemptId == commands[j].payload.attemptId {
      assert commands[..j][..i + 1] == commands[..i + 1];
      TargetsShrink(base, commands[..j], i + 1, commands[i].payload.attemptId);
    }
  }

  /** No attempt receives two results. */
  lemma OneResultEach(base: Current, all: seq<Envelope>, i: nat, j: nat)
    requires Project(base, all).Ok?
    requires var commands := OfflineOnly(all); i < j < |commands| && Outcome(commands[i].operation).Some?
    ensures var commands := OfflineOnly(all);
      commands[i].payload.attemptId.Some? && commands[i].payload.attemptId != commands[j].payload.attemptId
  {
    SkippingOnline(base, all);
    ResultOnce(base, OfflineOnly(all), i, j);
  }

  /** The revision counts the offline commands, and nothing else changes but work that is done. */
  lemma {:induction false} RevisionCounts(base: Current, commands: seq<Envelope>)
    requires Project(base, commands).Ok?
    ensures var s := Project(base, commands).value;
      && s.revision == base.revision + |OfflineOnly(commands)|
      && s.roundId == base.roundId && s.owner == base.owner && s.driverId == base.driverId && s.planId == base.planId
      && s.branchActivity == base.branchActivity
      && (OfflineOnly(commands) != [] ==> !base.branchActivity)
    decreases |commands|
  {
    if commands != [] {
      RevisionCounts(base, commands[..|commands| - 1]);
    }
  }

  /** The remaining targets are exactly the confirmed ones without a recorded result, in their order. */
  lemma {:induction false} TargetsLeft(base: Current, commands: seq<Envelope>, t: Target)
    requires Project(base, commands).Ok?
    ensures t in Project(base, commands).value.targets <==>
      t in base.targets && forall c | c in commands && Outcome(c.operation).Some? :: c.payload.attemptId != Some(t.attemptId)
    decreases |commands|
  {
    if commands != [] {
      var n := |commands| - 1;
      TargetsLeft(base, commands[..n], t);
      assert forall c :: c in commands <==> c in commands[..n] || c == commands[n];
    }
  }

  // ----- One stop at a time, with the authority the snapshot gave -----

  predicate Reports(c: Envelope, attempt: Id) {
    Outcome(c.operation).Some? && c.payload.attemptId == Some(attempt)
  }

  /** What is under way stays under way until its own result. */
  lemma StopStays(s: Current, c: Envelope, attempt: Id)
    requires Objection(s, c).None? && CurrentAttempt(s) == Some(attempt) && !Reports(c, attempt)
    ensures CurrentAttempt(Perform(s, c)) == Some(attempt)
  {}

  lemma {:induction false} StopLasts(base: Current, commands: seq<Envelope>, i: nat, j: nat, attempt: Id)
    requires Project(base, commands).Ok? && i <= j <= |commands| && forall c | c in commands :: Offline(c.operation)
    requires Project(base, commands[..i]).Ok? && CurrentAttempt(Project(base, commands[..i]).value) == Some(attempt)
    requires forall m | i <= m < j :: !Reports(commands[m], attempt)
    ensures Project(base, commands[..j]).Ok? && CurrentAttempt(Project(base, commands[..j]).value) == Some(attempt)
    decreases j
  {
    if i < j {
      StopLasts(base, commands, i, j - 1, attempt);
      var s := Before(base, commands, j - 1);
      StopStays(s, commands[j - 1], attempt);
    }
  }

  lemma HeadingStarts(base: Current, commands: seq<Envelope>, i: nat)
    requires Project(base, commands).Ok? && i < |commands| && commands[i].operation.SelectHeading?
    ensures Project(base, commands[..i]).Ok? && Project(base, commands[..i]).value.activity.None?
    ensures commands[i].payload.attemptId.Some? && Project(base, commands[..i + 1]).Ok?
    ensures CurrentAttempt(Project(base, commands[..i + 1]).value) == commands[i].payload.attemptId
  {
    var s := Before(base, commands, i);
  }

  lemma StopsFollowEachOther(base: Current, commands: seq<Envelope>, i: nat, j: nat)
    requires Project(base, commands).Ok? && i < j < |commands| && forall c | c in commands :: Offline(c.operation)
    requires commands[i].operation.SelectHeading? && commands[j].operation.SelectHeading?
    ensures commands[i].payload.attemptId.Some?
    ensures exists m :: i < m < j && Reports(commands[m], commands[i].payload.attemptId.value)
  {
    HeadingStarts(base, commands, i);
    HeadingStarts(base, commands, j);
    var attempt := commands[i].payload.attemptId.value;
    if forall m | i < m < j :: !Reports(commands[m], attempt) {
      StopLasts(base, commands, i + 1, j, attempt);
      assert false;
    }
  }

  /** Between two headings the first stop receives its result. */
  lemma OneStopAtATime(base: Current, all: seq<Envelope>, i: nat, j: nat)
    requires Project(base, all).Ok?
    requires var commands := OfflineOnly(all);
      i < j < |commands| && commands[i].operation.SelectHeading? && commands[j].operation.SelectHeading?
    ensures var commands := OfflineOnly(all);
      commands[i].payload.attemptId.Some? && exists m :: i < m < j && Reports(commands[m], commands[i].payload.attemptId.value)
  {
    SkippingOnline(base, all);
    StopsFollowEachOther(base, OfflineOnly(all), i, j);
  }

  /** The confirmed target that a command is about, in the version the command expects. */
  predicate AimedAt(t: Target, c: Envelope) {
    && Aims(t, c.payload) && c.payload.sourceRevision == Some(t.sourceRevision)
    && c.payload.assignmentRevision == Some(t.assignmentRevision) && c.payload.pinRevision == Some(t.pinRevision)
    && (Outcome(c.operation).Some? ==> Outcome(c.operation).value in t.allowed)
  }

  lemma AcceptedIsAimed(s: Current, c: Envelope)
    requires Objection(s, c).None?
    ensures exists t :: t in s.targets && AimedAt(t, c)
  {
    var t := FindTarget(s.targets, c.payload).value;
    assert t in s.targets && AimedAt(t, c);
  }

  /** Every command is about a target of the confirmed state in its confirmed version, and every result
      is one that the target allows. */
  lemma EverythingWasAllowed(base: Current, all: seq<Envelope>, i: nat)
    requires Project(base, all).Ok? && i < |OfflineOnly(all)|
    ensures exists t :: t in base.targets && AimedAt(t, OfflineOnly(all)[i])
  {
    var commands := OfflineOnly(all);
    SkippingOnline(base, all);
    assert commands[i] in commands;
    var s := Before(base, commands, i);
    AcceptedIsAimed(s, commands[i]);
    var t :| t in s.targets && AimedAt(t, commands[i]);
    TargetsLeft(base, commands[..i], t);
  }
}
