/**
  What each transaction on a plan does to every row, told in the statuses the rows hold. Nothing here goes through
  the predicates and functions by which the transactions are defined.
*/
module PlanOutcomes {
  import opened Results
  import opened ApprovalDesk
  import opened PlanModel
  import opened PlanSafety
  import opened PlanRuns
  import opened PlanTheorems

  // ----- the words used below -----

  ghost predicate Good(s: Status) {
    s == Done || s == PartlyDone
  }

  ghost predicate Bad(s: Status) {
    s == Failed || s == Blocked || s == Skipped || s == Cancelled
  }

  ghost predicate Ended(s: Status) {
    Good(s) || Bad(s)
  }

  ghost function GoodSteps(steps: seq<Step>): set<nat> {
    set i: nat | i < |steps| && Good(steps[i].status)
  }

  ghost function FailedSteps(steps: seq<Step>): set<nat> {
    set i: nat | i < |steps| && steps[i].status == Failed
  }

  ghost function SkippedSteps(steps: seq<Step>): set<nat> {
    set i: nat |
      i < |steps| && (steps[i].status == Blocked || steps[i].status == Skipped || steps[i].status == Cancelled)
  }

  ghost function WorkingSteps(steps: seq<Step>): set<nat> {
    set i: nat | i < |steps| && (steps[i].status == Queued || steps[i].status == Running)
  }

  ghost predicate SomeWaits(steps: seq<Step>) {
    exists i :: 0 <= i < |steps| && steps[i].status == Waiting
  }

  ghost predicate AllEnded(steps: seq<Step>) {
    forall i :: 0 <= i < |steps| ==> Ended(steps[i].status)
  }

  ghost predicate OpenPlan(p: PlanStatus) {
    p == PlanPending || p == PlanRunning || p == PlanWaitingUser || p == PlanStalled
  }

  /** The plan's task has a new status; no other row of the desk has changed. */
  ghost predicate OnlyTask(su: Setup, before: DeskState, after: DeskState, status: TaskStatus)
    requires su.task < |before.tasks|
  {
    after == before.(tasks := before.tasks[su.task := before.tasks[su.task].(status := status)])
  }

  /** The next version is published with the rows as they are now. */
  ghost predicate PublishesNext(s: State, t: State) {
    t.plan.version == s.plan.version + 1 && t.events == s.events + [Snapshot(t.plan, t.steps)]
  }

  lemma WordsAgree(s: Status)
    ensures Good(s) <==> Accepted(s)
    ensures Bad(s) <==> Unusable(s)
    ensures Ended(s) <==> Terminal(s)
  {
  }

  lemma SetsAgree(steps: seq<Step>)
    ensures Having(steps, Accepted) == GoodSteps(steps) && Having(steps, IsFailed) == FailedSteps(steps)
  {
  }

  lemma MoreSetsAgree(steps: seq<Step>)
    ensures Having(steps, IsSkipped) == SkippedSteps(steps) && Having(steps, Busy) == WorkingSteps(steps)
  {
  }

  lemma {:induction false} CountsAgree(steps: seq<Step>)
    ensures Count(steps, Accepted) == |GoodSteps(steps)|
    ensures Count(steps, IsFailed) == |FailedSteps(steps)|
    ensures Count(steps, IsSkipped) == |SkippedSteps(steps)|
    ensures Count(steps, Busy) == |WorkingSteps(steps)|
  {
    CountIsSize(steps, Accepted);
    CountIsSize(steps, IsFailed);
    CountIsSize(steps, IsSkipped);
    CountIsSize(steps, Busy);
    SetsAgree(steps);
    MoreSetsAgree(steps);
  }

  // ----- a pass: the rows -----

  /** A pending step all of whose parents are good. */
  ghost predicate Startable(su: Setup, steps: seq<Step>, i: nat) {
    && i < |steps| && i < |su.parents| && steps[i].status == Pending
    && forall p :: p in su.parents[i] ==> p < |steps| && Good(steps[p].status)
  }

  ghost function StartableBefore(su: Setup, steps: seq<Step>, i: nat): set<nat> {
    set k: nat | k < i && k < |steps| && Startable(su, steps, k)
  }

  ghost function ReadyBetween(su: Setup, steps: seq<Step>, i: nat, j: nat): set<nat> {
    set k: nat | i <= k < j && k < |steps| && Ready(su, steps, k)
  }

  lemma {:induction false} ReadyFromCounts(su: Setup, steps: seq<Step>, i: nat, room: nat, j: nat)
    requires i <= j
    ensures j in ReadyFrom(su, steps, i, room) <==>
              Ready(su, steps, j) && |ReadyBetween(su, steps, i, j)| < room
    decreases |steps| - i
  {
    if i < |steps| && room > 0 {
      if i < j {
        ReadyFromCounts(su, steps, i + 1, if Ready(su, steps, i) then room - 1 else room, j);
        OneLessBetween(su, steps, i, j);
      } else {
        assert ReadyBetween(su, steps, i, j) == {};
      }
    }
  }

  lemma OneLessBetween(su: Setup, steps: seq<Step>, i: nat, j: nat)
    requires i < j && i < |steps|
    ensures |ReadyBetween(su, steps, i, j)| ==
            |ReadyBetween(su, steps, i + 1, j)| + if Ready(su, steps, i) then 1 else 0
  {
    var rest := ReadyBetween(su, steps, i + 1, j);
    if Ready(su, steps, i) {
      assert ReadyBetween(su, steps, i, j) == rest + {i} && i !in rest;
    } else {
      assert ReadyBetween(su, steps, i, j) == rest;
    }
  }

  /** A pass blocks a pending step exactly when a parent is bad, be it through an earlier step of the same pass. */
  ghost predicate Blocks(su: Setup, before: seq<Step>, after: seq<Step>, i: nat)
    requires |before| == |after| == |su.parents| && i < |before|
  {
    && before[i].status == Pending
    && exists p :: p in su.parents[i] && p < |before|
                   && (Bad(before[p].status) || (p < i && after[p].status == Blocked))
  }

  lemma {:induction false} BlockingRows(su: Setup, steps: seq<Step>, i: nat)
    requires |steps| == |su.parents| && i < |steps|
    ensures var r := BlockPass(su, steps, 0);
            r[i] == if Blocks(su, steps, r, i) then steps[i].(status := Blocked) else steps[i]
  {
    BlockPassEffect(su, steps, 0);
  }

  lemma {:induction false} BlockingKeepsReady(su: Setup, steps: seq<Step>, i: nat)
    requires su.Valid() && |steps| == |su.parents| && i < |steps|
    ensures Ready(su, BlockPass(su, steps, 0), i) <==> Startable(su, steps, i)
  {
    var r := BlockPass(su, steps, 0);
    BlockPassEffect(su, steps, 0);
    forall p | p in su.parents[i] ensures Good(steps[p].status) <==> Accepted(r[p].status) {
      WordsAgree(steps[p].status);
    }
  }

  lemma {:induction false} BlockingKeepsBusy(su: Setup, steps: seq<Step>)
    ensures WorkingSteps(BlockPass(su, steps, 0)) == WorkingSteps(steps)
  {
    BlockPassEffect(su, steps, 0);
    forall i: nat | i < |steps|
      ensures i in WorkingSteps(BlockPass(su, steps, 0)) <==> i in WorkingSteps(steps)
    {
      assert BlockPass(su, steps, 0)[i] == steps[i] || steps[i].status == Pending;
    }
  }

  lemma {:induction false} BlockingKeepsWaiting(su: Setup, steps: seq<Step>)
    ensures AnyWaiting(BlockPass(su, steps, 0)) <==> SomeWaits(steps)
  {
    BlockPassEffect(su, steps, 0);
    if SomeWaits(steps) {
      var i :| 0 <= i < |steps| && steps[i].status == Waiting;
      assert BlockPass(su, steps, 0)[i].status.Waiting?;
    }
  }

  lemma {:induction false} BlockingKeepsOthers(su: Setup, steps: seq<Step>, cap: nat)
    ensures AnyWaiting(BlockPass(su, steps, 0)) <==> SomeWaits(steps)
    ensures Count(BlockPass(su, steps, 0), Busy) == |WorkingSteps(steps)|
  {
    BlockingKeepsWaiting(su, steps);
    BlockingKeepsBusy(su, steps);
    CountsAgree(BlockPass(su, steps, 0));
  }

  /** A step starts to be queued exactly when its parents are good, no confirmation is open, and the working steps and
      the startable ones before it leave room under the cap. */
  ghost predicate Queues(su: Setup, steps: seq<Step>, cap: nat, i: nat) {
    && Startable(su, steps, i) && !SomeWaits(steps)
    && |WorkingSteps(steps)| + |StartableBefore(su, steps, i)| < cap
  }

  lemma {:induction false} ClaimedAre(su: Setup, steps: seq<Step>, cap: nat, i: nat)
    requires su.Valid() && |steps| == |su.parents|
    ensures i in Claimable(su, BlockPass(su, steps, 0), cap) <==> Queues(su, steps, cap, i)
  {
    var blocked := BlockPass(su, steps, 0);
    BlockingKeepsOthers(su, steps, cap);
    if i < |steps| {
      BlockingKeepsReady(su, steps, i);
      ReadyFromCounts(su, blocked, 0, Room(cap, Count(blocked, Busy)), i);
      forall k: nat | k < i ensures Ready(su, blocked, k) <==> Startable(su, steps, k) {
        BlockingKeepsReady(su, steps, k);
      }
      assert ReadyBetween(su, blocked, 0, i) == StartableBefore(su, steps, i);
    }
  }

  /** Every row after a pass over an open plan: blocked, queued or as it was. */
  lemma {:induction false} PassRows(su: Setup, s: State, cap: nat, i: nat)
    requires Inv(su, s) && OpenPlan(s.plan.status) && i < |s.steps|
    ensures var t := Coordinate(su, s, cap).0;
            && |t.steps| == |s.steps| == |su.parents|
            && (Blocks(su, s.steps, t.steps, i) ==> t.steps[i] == s.steps[i].(status := Blocked))
            && (Queues(su, s.steps, cap, i) ==> t.steps[i] == s.steps[i].(status := Queued))
            && (!Blocks(su, s.steps, t.steps, i) && !Queues(su, s.steps, cap, i) ==> t.steps[i] == s.steps[i])
  {
    CoordinateSteps(su, s, cap);
    PassStepsAre(su, s.steps, cap, i);
    SameBlocked(su, s.steps, cap);
  }

  lemma {:induction false} SameBlocked(su: Setup, steps: seq<Step>, cap: nat)
    requires su.Valid() && |steps| == |su.parents|
    ensures forall p :: 0 <= p < |steps| ==>
              (PassSteps(su, steps, cap)[p].status == Blocked <==> BlockPass(su, steps, 0)[p].status == Blocked)
  {
    forall p | 0 <= p < |steps|
      ensures PassSteps(su, steps, cap)[p].status == Blocked <==> BlockPass(su, steps, 0)[p].status == Blocked
    {
      ClaimedAre(su, steps, cap, p);
      BlockingKeepsReady(su, steps, p);
    }
  }

  lemma {:induction false} PassStepsAre(su: Setup, steps: seq<Step>, cap: nat, i: nat)
    requires su.Valid() && |steps| == |su.parents| && i < |steps|
    ensures var r, after := BlockPass(su, steps, 0), PassSteps(su, steps, cap);
            && (Blocks(su, steps, r, i) ==> after[i] == steps[i].(status := Blocked))
            && (Queues(su, steps, cap, i) ==> after[i] == steps[i].(status := Queued))
            && (!Blocks(su, steps, r, i) && !Queues(su, steps, cap, i) ==> after[i] == steps[i])
  {
    BlockingRows(su, steps, i);
    ClaimedAre(su, steps, cap, i);
    BlockingKeepsReady(su, steps, i);
  }

  lemma {:induction false} QueuedIsOpen(su: Setup, s: State, cap: nat, i: nat)
    requires Inv(su, s) && OpenPlan(s.plan.status) && Queues(su, s.steps, cap, i)
    ensures !AllTerminal(PassSteps(su, s.steps, cap))
  {
    ClaimedAre(su, s.steps, cap, i);
    assert PassSteps(su, s.steps, cap)[i].status == Queued;
  }

  /** The steps a pass returns are those it queued, in position order; only an open plan is touched. */
  lemma {:induction false} PassReturns(su: Setup, s: State, cap: nat, i: nat)
    requires Inv(su, s)
    ensures OpenPlan(s.plan.status) ==> (i in Coordinate(su, s, cap).1 <==> Queues(su, s.steps, cap, i))
    ensures !OpenPlan(s.plan.status) ==> Coordinate(su, s, cap) == (s, [])
    ensures Increasing(Coordinate(su, s, cap).1)
  {
    if OpenPlan(s.plan.status) {
      var blocked := BlockPass(su, s.steps, 0);
      ClaimedAre(su, s.steps, cap, i);
      if Queues(su, s.steps, cap, i) {
        QueuedIsOpen(su, s, cap, i);
      }
      ReadyFromTakesFirst(su, blocked, 0, Room(cap, Count(blocked, Busy)));
    }
  }

  // ----- a pass: the plan and its task -----

  ghost predicate Concluded(su: Setup, s: State, t: State, status: PlanStatus, taskStatus: TaskStatus)
    requires su.task < |s.desk.tasks|
  {
    && t.plan == Plan(status, s.plan.version + 1, |GoodSteps(t.steps)|, |FailedSteps(t.steps)|, |SkippedSteps(t.steps)|)
    && OnlyTask(su, s.desk, t.desk, taskStatus) && PublishesNext(s, t)
  }

  lemma {:induction false} FinishStatusTells(steps: seq<Step>)
    requires AllTerminal(steps) && |steps| > 0
    ensures FinishStatus(steps) == if forall i :: 0 <= i < |steps| ==> Good(steps[i].status) then PlanSuccess
                                   else if forall i :: 0 <= i < |steps| ==> Bad(steps[i].status) then PlanFailed
                                   else PlanPartial
    ensures TaskOf(FinishStatus(steps)) == if forall i :: 0 <= i < |steps| ==> Good(steps[i].status) then TaskSuccess
                                           else if forall i :: 0 <= i < |steps| ==> Bad(steps[i].status) then TaskFailed
                                           else TaskPartial
  {
    forall i | 0 <= i < |steps|
      ensures Good(steps[i].status) <==> Accepted(steps[i].status)
      ensures Bad(steps[i].status) <==> !Accepted(steps[i].status)
    {
      WordsAgree(steps[i].status);
    }
    assert Good(steps[0].status) <==> !Bad(steps[0].status);
  }

  lemma {:induction false} FinishRows(su: Setup, s: State, steps: seq<Step>, anyReady: bool)
    requires su.task < |s.desk.tasks| && AllTerminal(steps)
    ensures var t := Conclude(su, s, steps, anyReady);
            && t.steps == steps && t.attempts == s.attempts
            && Concluded(su, s, t, FinishStatus(steps), TaskOf(FinishStatus(steps)))
  {
    CountsAgree(steps);
    AnnouncedDesk(su, s, steps, anyReady);
  }

  /** Success if all steps are good, failure if none is, partial success otherwise, for the plan and its task alike. */
  ghost predicate ConcludedByRows(su: Setup, s: State, t: State)
    requires su.task < |s.desk.tasks|
  {
    if forall i :: 0 <= i < |t.steps| ==> Good(t.steps[i].status) then Concluded(su, s, t, PlanSuccess, TaskSuccess)
    else if forall i :: 0 <= i < |t.steps| ==> Bad(t.steps[i].status) then Concluded(su, s, t, PlanFailed, TaskFailed)
    else Concluded(su, s, t, PlanPartial, TaskPartial)
  }

  lemma {:induction false} FinishTells(su: Setup, s: State, steps: seq<Step>, anyReady: bool)
    requires su.task < |s.desk.tasks| && AllTerminal(steps) && |steps| > 0
    ensures var t := Conclude(su, s, steps, anyReady); t.attempts == s.attempts && ConcludedByRows(su, s, t)
  {
    FinishStatusTells(steps);
    FinishRows(su, s, steps, anyReady);
  }

  lemma {:induction false} OpenPlanCoordinates(su: Setup, s: State, cap: nat)
    requires OpenPlan(s.plan.status)
    ensures Coordinate(su, s, cap).0 ==
            Conclude(su, s, PassSteps(su, s.steps, cap), Claimable(su, BlockPass(su, s.steps, 0), cap) != [])
    ensures Coordinate(su, s, cap).0.steps == PassSteps(su, s.steps, cap)
  {
    CoordinateSteps(su, s, cap);
  }

  /** A pass after which every step has ended concludes the plan and its task as the rows say, with their counts. */
  lemma {:induction false} PassConcludes(su: Setup, s: State, cap: nat)
    requires Inv(su, s) && OpenPlan(s.plan.status) && AllEnded(Coordinate(su, s, cap).0.steps)
    ensures var t := Coordinate(su, s, cap).0; t.attempts == s.attempts && ConcludedByRows(su, s, t)
  {
    OpenPlanCoordinates(su, s, cap);
    EndedAre(PassSteps(su, s.steps, cap));
    FinishTells(su, s, PassSteps(su, s.steps, cap), Claimable(su, BlockPass(su, s.steps, 0), cap) != []);
  }

  lemma AnnouncedDesk(su: Setup, s: State, steps: seq<Step>, anyReady: bool)
    requires su.task < |s.desk.tasks|
    ensures forall x :: WithTask(su, Announce(su, s.(steps := steps), anyReady).desk, x) == WithTask(su, s.desk, x)
  {
  }

  lemma EndedAre(steps: seq<Step>)
    ensures AllEnded(steps) <==> AllTerminal(steps)
    ensures AllEnded(steps) ==> forall i :: 0 <= i < |steps| ==> (Bad(steps[i].status) <==> !Good(steps[i].status))
  {
  }

  /** What a pass that leaves something open says of plan and task. */
  ghost predicate Says(su: Setup, s: State, t: State)
    requires su.task < |s.desk.tasks|
  {
    && (SomeWaits(t.steps) ==> t.plan.status == PlanWaitingUser && OnlyTask(su, s.desk, t.desk, TaskWaiting))
    && (!SomeWaits(t.steps) && WorkingSteps(t.steps) != {} ==>
          t.plan.status == PlanRunning && OnlyTask(su, s.desk, t.desk, TaskRunning))
    && (!SomeWaits(t.steps) && WorkingSteps(t.steps) == {} ==> t.plan.status == s.plan.status && t.desk == s.desk)
  }

  lemma {:induction false} OpenRows(su: Setup, s: State, steps: seq<Step>, anyReady: bool)
    requires su.task < |s.desk.tasks| && !AllTerminal(steps) && (anyReady ==> WorkingSteps(steps) != {})
    ensures var t := Conclude(su, s, steps, anyReady);
            && t.steps == steps && t.attempts == s.attempts
            && t.plan == s.plan.(status := t.plan.status, version := t.plan.version) && Says(su, s, t)
            && (if steps == s.steps then t.plan.version == s.plan.version && t.events == s.events
                else PublishesNext(s, t))
  {
    CountsAgree(steps);
    assert AnyWaiting(steps) <==> SomeWaits(steps);
  }

  /** Any other pass says whether the plan waits for the user or is at work, on the plan and its task, and publishes
      exactly when a row changed. */
  lemma {:induction false} PassAnnounces(su: Setup, s: State, cap: nat)
    requires Inv(su, s) && OpenPlan(s.plan.status) && !AllEnded(Coordinate(su, s, cap).0.steps)
    ensures var t := Coordinate(su, s, cap).0;
            && t.attempts == s.attempts
            && t.plan == s.plan.(status := t.plan.status, version := t.plan.version) && Says(su, s, t)
            && (if t.steps == s.steps then t.plan.version == s.plan.version && t.events == s.events
                else PublishesNext(s, t))
  {
    var steps := PassSteps(su, s.steps, cap);
    var ready := Claimable(su, BlockPass(su, s.steps, 0), cap);
    OpenPlanCoordinates(su, s, cap);
    EndedAre(steps);
    if ready != [] {
      assert ready[0] in ready;
      ClaimedAre(su, s.steps, cap, ready[0]);
      assert ready[0] in WorkingSteps(steps);
    }
    OpenRows(su, s, steps, ready != []);
  }

  // ----- start, execution and failure of a step -----

  /** Only a queued step starts. */
  lemma StartOutcome(s: State, i: nat)
    requires i < |s.steps|
    ensures var t := Start(s, i);
            if s.steps[i].status == Queued then
              && t.steps == s.steps[i := s.steps[i].(status := Running, attempts := s.steps[i].attempts + 1)]
              && t.plan == s.plan.(status := PlanRunning, version := s.plan.version + 1)
              && PublishesNext(s, t) && t.desk == s.desk && t.attempts == s.attempts
            else t == s
  {
  }

  /** A running step that finishes is good, on a closed run of its own. */
  lemma FinishOutcome(su: Setup, s: State, i: nat, partly: bool)
    requires i < |s.steps| && su.task < |s.desk.tasks|
    ensures var t := Execute(su, s, i, Finishes(partly));
            if s.steps[i].status == Running then
              && t.steps == s.steps[i := s.steps[i].(status := if partly then PartlyDone else Done,
                                                     run := Some(|s.desk.runs|))]
              && t.desk == s.desk.(runs := s.desk.runs + [Run(su.task, if partly then RunPartial else RunSuccess, false,
                                                              {su.ToolOf(i)})])
              && t.plan == s.plan.(version := s.plan.version + 1) && PublishesNext(s, t)
              && t.attempts == s.attempts + [(i, s.steps[i].attempts)]
            else t == s
  {
  }

  /** A running step that previews a write waits, as do its new run and its task, with one undecided write. */
  lemma PreviewOutcome(su: Setup, s: State, i: nat)
    requires i < |s.steps| && su.task < |s.desk.tasks|
    requires su.ToolOf(i) in su.box && su.box[su.ToolOf(i)].kind == WriteTool
    ensures var t, run, tool := Execute(su, s, i, Previews), |s.desk.runs|, su.ToolOf(i);
            if s.steps[i].status == Running then
              && t.steps == s.steps[i := s.steps[i].(status := Waiting, run := Some(run))]
              && t.plan == s.plan.(status := PlanWaitingUser, version := s.plan.version + 1) && PublishesNext(s, t)
              && t.desk.runs == s.desk.runs + [Run(su.task, RunWaiting, false, {tool})]
              && t.desk.pendings == s.desk.pendings + [PendingWrite(su.task, run, tool, Undecided)]
              && t.desk.tasks == s.desk.tasks[su.task := s.desk.tasks[su.task].(status := TaskWaiting)]
              && t.desk.performed == s.desk.performed && t.desk.contacted == s.desk.contacted
              && t.attempts == s.attempts + [(i, s.steps[i].attempts)]
            else t == s
  {
    if s.steps[i].status == Running {
      var longer := s.desk.runs + [Run(su.task, RunRunning, false, {su.ToolOf(i)})];
      assert longer[|s.desk.runs|].tools + {su.ToolOf(i)} == {su.ToolOf(i)};
    }
  }

  /** A failure is recorded unless the step is good or waits; a running run of the step is closed. */
  lemma FailOutcome(su: Setup, s: State, i: nat, retryable: bool)
    requires i < |s.steps|
    ensures var t, step := Fail(su, s, i, retryable), s.steps[i];
            if step.status == Done || step.status == PartlyDone || step.status == Waiting then t == s
            else
              && t.steps == s.steps[i := step.(status := Failed, retryable := retryable)]
              && t.plan == s.plan.(version := s.plan.version + 1) && PublishesNext(s, t) && t.attempts == s.attempts
              && (if step.run.Some? && step.run.value < |s.desk.runs|
                     && s.desk.runs[step.run.value].status == RunRunning
                  then t.desk == s.desk.(runs := s.desk.runs[step.run.value :=
                         s.desk.runs[step.run.value].(status := RunFailed)])
                  else t.desk == s.desk)
  {
  }

  // ----- decisions -----

  /** Nobody but the owner decides: the answer is that there is no such write, and nothing changes. */
  lemma StrangerDecidesNothing(su: Setup, s: State, user: nat, p: nat, choice: Choice, facts: CallFacts)
    requires Inv(su, s) && user != su.owner
    ensures Confirm(su, s, user, p, choice, facts) ==
            (s, Failure(if choice == UnknownChoice then Invalid else NotFound))
  {
  }

  /** In every reachable state the owner's decision goes through exactly when the task waits, the write is the plan's
      own and undecided, and, if it is approved, the tool answers. */
  lemma DecisionSucceedsIff(su: Setup, s: State, user: nat, p: nat, choice: Choice, facts: CallFacts)
    requires Inv(su, s)
    ensures Confirm(su, s, user, p, choice, facts).1.Success? <==>
              && user == su.owner && s.desk.tasks[su.task].status == TaskWaiting
              && p < |s.desk.pendings| && s.desk.pendings[p].task == su.task
              && s.desk.pendings[p].decision == Undecided
              && (choice == Reject
                  || (choice == Approve && facts.bound && facts.available && facts.argumentsOk && facts.handlerOk
                      && (su.box[s.desk.pendings[p].tool].external ==> facts.granted && facts.outputOk)))
  {
    if p < |s.desk.pendings| && s.desk.pendings[p].task == su.task {
      assert Own(su, s.desk, p) && Linked(su, s, p);
      if s.desk.pendings[p].decision == Undecided {
        assert Open(s.desk, p);
      }
      if choice == Approve {
        ApprovalSucceedsIff(s.desk, su.box, user, su.task, p, StepOfWrite(s, p).Some?, facts);
      } else {
        RejectionSucceedsIff(s.desk, su.box, user, su.task, p, StepOfWrite(s, p).Some?, facts);
      }
    } else {
      OnlyOwnWrites(s.desk, su.box, user, su.task, p, choice, StepOfWrite(s, p).Some?, facts);
    }
    UnknownChoiceFails(s.desk, su.box, user, su.task, p, StepOfWrite(s, p).Some?, facts);
  }

  /** A decision that goes through ends the one step behind the write if that still waits, and leaves it cancelled
      otherwise; the desk has the write decided, its run closed and its task at work. */
  lemma DecisionOutcome(su: Setup, s: State, user: nat, p: nat, choice: Choice, facts: CallFacts, i: nat)
    requires Inv(su, s) && Confirm(su, s, user, p, choice, facts).1.Success?
    requires i < |s.steps| && p < |s.desk.pendings| && s.steps[i].run == Some(s.desk.pendings[p].run)
    ensures var t, r := Confirm(su, s, user, p, choice, facts).0, s.desk.pendings[p].run;
            && r < |s.desk.runs|
            && t.attempts == s.attempts
            && (if s.steps[i].status == Waiting then
                  && t.steps == s.steps[i := s.steps[i].(status := if choice == Approve then Done else Skipped)]
                  && t.plan == s.plan.(status := PlanRunning, version := s.plan.version + 1) && PublishesNext(s, t)
                else s.steps[i].status == Cancelled && t.steps == s.steps && t.plan == s.plan && t.events == s.events)
            && t.desk.pendings ==
               s.desk.pendings[p := s.desk.pendings[p].(decision := if choice == Approve then Approved else Rejected)]
            && t.desk.runs == s.desk.runs[r := s.desk.runs[r].(allowWrite := false, status := RunSuccess)]
            && OnlyTask(su, s.desk.(pendings := t.desk.pendings, runs := t.desk.runs, performed := t.desk.performed,
                                    contacted := t.desk.contacted), t.desk, TaskRunning)
            && t.desk.performed == s.desk.performed + if choice == Approve then [p] else []
  {
    DecisionSucceedsIff(su, s, user, p, choice, facts);
    assert Own(su, s.desk, p) && Linked(su, s, p);
    var j :| 0 <= j < |s.steps| && s.steps[j].run == Some(s.desk.pendings[p].run) &&
             Agrees(s.steps[j].status, s.desk.pendings[p].decision);
    assert i == j;
    assert StepOfWrite(s, p) == Some(i);
    DecisionEffect(s.desk, su.box, user, su.task, p, choice, true, facts);
    CommittedBy(s.desk, su.box, user, su.task, p, choice, true, facts);
  }

  // ----- cancelling -----

  ghost predicate CancelledRow(before: Step, after: Step) {
    if before.status == Pending || before.status == Queued || before.status == Waiting
    then after == before.(status := Cancelled) else after == before
  }

  lemma CancelRows(su: Setup, s: State)
    requires su.task < |s.desk.tasks| && OpenPlan(s.plan.status)
    ensures var t := Cancel(su, s).0;
            && t.steps == CancelSteps(s.steps) && t.attempts == s.attempts
            && t.plan == s.plan.(status := PlanCancelled, version := s.plan.version + 1,
                                 skipped := Count(t.steps, IsSkipped))
            && OnlyTask(su, s.desk, t.desk, TaskCancelled) && PublishesNext(s, t)
  {
  }

  /** Cancelling an open plan cancels its pending, queued and waiting steps and no other, counts the skipped ones, and
      cancels plan and task. */
  lemma {:induction false} CancelOutcome(su: Setup, s: State)
    requires su.task < |s.desk.tasks| && OpenPlan(s.plan.status)
    ensures var (t, outcome) := Cancel(su, s);
            && outcome == Success(()) && |t.steps| == |s.steps| && t.attempts == s.attempts
            && (forall i :: 0 <= i < |s.steps| ==> CancelledRow(s.steps[i], t.steps[i]))
            && t.plan == s.plan.(status := PlanCancelled, version := s.plan.version + 1,
                                 skipped := |SkippedSteps(t.steps)|)
            && OnlyTask(su, s.desk, t.desk, TaskCancelled) && PublishesNext(s, t)
  {
    CancelRows(su, s);
    CountsAgree(CancelSteps(s.steps));
  }

  /** A cancelled plan stays as it is, and a finished one refuses to be cancelled. */
  lemma ClosedPlanIsNotCancelled(su: Setup, s: State)
    requires !OpenPlan(s.plan.status)
    ensures Cancel(su, s) == (s, if s.plan.status == PlanCancelled then Success(()) else Failure(Conflict))
  {
  }

  /** No reachable cancelled plan has a pending, queued or waiting step. */
  lemma CancelledPlanIsClosed(su: Setup, s: State, i: nat)
    requires Reachable(su, s) && s.plan.status == PlanCancelled && i < |s.steps|
    ensures s.steps[i].status != Pending && s.steps[i].status != Queued && s.steps[i].status != Waiting
  {
    ReachableInv(su, s);
    assert !Cancellable(s.steps[i].status);
  }

  // ----- the watchdog -----

  ghost predicate Stuck(steps: seq<Step>, stale: set<nat>, i: nat) {
    i < |steps| && i in stale && (steps[i].status == Queued || steps[i].status == Running)
  }

  /** The watchdog stalls exactly the queued and running steps it finds stale, and with them plan and task. */
  lemma WatchdogOutcome(su: Setup, s: State, stale: set<nat>)
    requires su.task < |s.desk.tasks|
    ensures var t := Repair(su, s, stale);
            && ((forall i: nat :: !Stuck(s.steps, stale, i)) ==> t == s)
            && ((exists i: nat :: Stuck(s.steps, stale, i)) ==>
                  && |t.steps| == |s.steps| && t.attempts == s.attempts
                  && (forall i :: 0 <= i < |s.steps| ==>
                        t.steps[i] == if Stuck(s.steps, stale, i) then s.steps[i].(status := Stalled, retryable := true)
                                      else s.steps[i])
                  && t.plan == s.plan.(status := PlanStalled, version := s.plan.version + 1)
                  && OnlyTask(su, s.desk, t.desk, TaskFailed) && PublishesNext(s, t))
  {
    if i: nat :| Stuck(s.steps, stale, i) {
      assert Busy(s.steps[i].status);
    } else {
      forall i | 0 <= i < |s.steps| && i in stale ensures !Busy(s.steps[i].status) {
        assert !Stuck(s.steps, stale, i);
      }
    }
  }

  // ----- retry -----

  /** A failed or stalled step that may be tried again. */
  ghost predicate Restartable(steps: seq<Step>, i: nat) {
    && i < |steps| && (steps[i].status == Failed || steps[i].status == Stalled)
    && steps[i].retryable && steps[i].attempts < 2
  }

  ghost predicate MayRetry(s: State) {
    && (s.plan.status == PlanFailed || s.plan.status == PlanPartial || s.plan.status == PlanStalled)
    && exists i: nat :: Restartable(s.steps, i)
  }

  /** A restartable step, or one that a path of dependencies leads to from such a step. */
  ghost predicate InChain(su: Setup, steps: seq<Step>, i: nat) {
    exists path :: Path(su, path) && Restartable(steps, path[0]) && path[|path| - 1] == i
  }

  lemma RootsAre(steps: seq<Step>, i: nat)
    ensures i in Roots(steps) <==> Restartable(steps, i)
  {
  }

  lemma ChainIsAffected(su: Setup, steps: seq<Step>, i: nat)
    requires |steps| == |su.parents|
    ensures i in Affected(su, Roots(steps)) <==> InChain(su, steps, i)
  {
    if i in Affected(su, Roots(steps)) {
      var path :| Path(su, path) && path[0] in Roots(steps) && path[|path| - 1] == i;
      RootsAre(steps, path[0]);
    }
    if InChain(su, steps, i) {
      var path :| Path(su, path) && Restartable(steps, path[0]) && path[|path| - 1] == i;
      RootsAre(steps, path[0]);
      assert path[|path| - 1] < |su.parents|;
      assert Descends(su, Roots(steps), i);
    }
  }

  /** Retry goes through exactly when the plan has failed, in part or in full, or is stalled, and some failed or stalled
      step may be tried again. */
  lemma RetrySucceedsIff(s: State)
    ensures Retryable(s) <==> MayRetry(s)
  {
    if Retryable(s) {
      var i :| i in Roots(s.steps);
      RootsAre(s.steps, i);
    }
    if MayRetry(s) {
      var i: nat :| Restartable(s.steps, i);
      RootsAre(s.steps, i);
    }
  }

  /** Then exactly the steps of the chain are pending again, not retryable and without a run; every other row stays.
      Plan and task are pending. Otherwise nothing changes. */
  lemma {:induction false} RetryOutcome(su: Setup, s: State)
    requires su.Valid() && |s.steps| == |su.parents| && su.task < |s.desk.tasks|
    ensures var t := Retry(su, s);
            && (!MayRetry(s) ==> t == s)
            && (MayRetry(s) ==>
                  && |t.steps| == |s.steps| && t.attempts == s.attempts
                  && (forall i: nat :: i < |s.steps| ==>
                        t.steps[i] == if InChain(su, s.steps, i)
                                      then s.steps[i].(status := Pending, retryable := false, run := None)
                                      else s.steps[i])
                  && t.plan == Plan(PlanPending, s.plan.version + 1, 0, 0, 0)
                  && OnlyTask(su, s.desk, t.desk, TaskPending) && PublishesNext(s, t))
  {
    RetrySucceedsIff(s);
    forall i: nat ensures i in Affected(su, Roots(s.steps)) <==> InChain(su, s.steps, i) {
      ChainIsAffected(su, s.steps, i);
    }
  }

  // ----- what a run may contain -----

  /** Whatever other tasks do on their own rows may happen at any time, and a turn that fails may fail the plan's
      task. */
  lemma OthersMayAct(su: Setup, s: State, task: nat, run: nat, act: DeskAction)
    requires su.task < |s.desk.tasks| && task != su.task && (run < |s.desk.runs| ==> s.desk.runs[run].task == task)
    requires || act.OpenTask? || act.Call? || (act.OpenRun? && act.task == task)
             || (act.SetTask? && act.task == task) || (act.SetRun? && act.run == run)
             || (act.Propose? && act.task == task && act.run == run) || (act.Decide? && act.task == task)
             || (act == SetTask(su.task, TaskFailed) && s.desk.tasks[su.task].status in {TaskPending, TaskRunning})
    ensures Enabled(su, s, Elsewhere(act))
  {
  }

  /** A pass, a decision, a cancellation, the watchdog, a retry and an announcement may happen at any time; a start of
      any step too, and a failure of any that is queued, running or stalled. */
  lemma PlanMayAct(su: Setup, s: State, a: Action)
    requires su.task < |s.desk.tasks|
    requires || a.CoordinatePlan? || a.DecideWrite? || a.CancelPlan? || a.RepairStalled? || a.RetryChain?
             || a.Republish? || (a.StartStep? && a.i < |s.steps|)
             || (a.ExecuteStep? && a.i < |s.steps| && a.outcome != Previews)
             || (a.FailStep? && a.i < |s.steps| && s.steps[a.i].status in {Queued, Running, Stalled})
    ensures Enabled(su, s, a)
  {
  }

  // ----- the end -----

  /** Plan and task are a success if all steps are good, a failure if none is, and a partial success otherwise. */
  ghost predicate StandsByRows(status: PlanStatus, task: TaskStatus, steps: seq<Step>) {
    if forall i :: 0 <= i < |steps| ==> Good(steps[i].status) then status == PlanSuccess && task == TaskSuccess
    else if forall i :: 0 <= i < |steps| ==> Bad(steps[i].status) then status == PlanFailed && task == TaskFailed
    else status == PlanPartial && task == TaskPartial
  }

  lemma {:induction false} FinishedRowsTell(su: Setup, s: State)
    requires su.Valid() && |s.steps| == |su.parents| && PlanOk(su, s)
    requires !OpenPlan(s.plan.status) && s.plan.status != PlanCancelled
    ensures AllEnded(s.steps) && StandsByRows(s.plan.status, s.desk.tasks[su.task].status, s.steps)
    ensures s.plan.completed == |GoodSteps(s.steps)| && s.plan.failed == |FailedSteps(s.steps)|
    ensures s.plan.skipped == |SkippedSteps(s.steps)|
  {
    assert s.plan == Tally(s.steps, s.plan.version);
    CountsAgree(s.steps);
    FinishStatusTells(s.steps);
    EndedAre(s.steps);
  }

  /** A reachable finished plan in the words of its rows: every step has ended, plan and task stand by the rows, and the
      counts are those of the rows. */
  lemma FinishedPlanTells(su: Setup, s: State)
    requires Reachable(su, s) && !OpenPlan(s.plan.status) && s.plan.status != PlanCancelled
    ensures AllEnded(s.steps) && su.task < |s.desk.tasks|
    ensures StandsByRows(s.plan.status, s.desk.tasks[su.task].status, s.steps)
    ensures s.plan.completed == |GoodSteps(s.steps)| && s.plan.failed == |FailedSteps(s.steps)|
    ensures s.plan.skipped == |SkippedSteps(s.steps)|
  {
    ReachableInv(su, s);
    FinishedRowsTell(su, s);
  }
}
