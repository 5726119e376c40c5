/** Short runs of a plan of two independent write steps in which the limits of the engine show. */
module PlanExamples {
  import opened Results
  import opened ApprovalDesk
  import opened PlanModel
  import opened PlanSafety
  import opened PlanRuns
  import opened PlanTheorems
  import opened PlanOutcomes
  import opened PlanProgress
  import opened PlanLimits

  const OWNER: nat := 7
  const TWO := Setup([{}, {}], ["write", "write"], 0, OWNER, map["write" := Tool(WriteTool, false)])
  const FRESH_DESK := DeskState([Task(OWNER, TaskPending)], [], [], [], [])
  const START := State([FRESH_STEP, FRESH_STEP], FRESH_PLAN, FRESH_DESK,
                       [Snapshot(FRESH_PLAN, [FRESH_STEP, FRESH_STEP])], [])

  lemma StartIsReachable()
    ensures Reachable(TWO, START) && TWO.Valid()
  {
    assert Initial(TWO, START);
    assert IsRun(TWO, [START], []);
    assert [START][0] == START;
  }

  lemma RunCut(su: Setup, states: seq<State>, acts: seq<Action>, k: nat)
    requires IsRun(su, states, acts) && k < |states|
    ensures IsRun(su, states[..k + 1], acts[..k])
  {
    forall n | 0 <= n < k
      ensures Enabled(su, states[..k + 1][n], acts[..k][n])
      ensures states[..k + 1][n + 1] == Perform(su, states[..k + 1][n], acts[..k][n])
    {
      assert states[..k + 1][n] == states[n] && states[..k + 1][n + 1] == states[n + 1] && acts[..k][n] == acts[n];
    }
  }

  lemma RunOn(su: Setup, states: seq<State>, acts: seq<Action>, a: Action)
    requires IsRun(su, states, acts) && Enabled(su, states[|acts|], a)
    ensures IsRun(su, states + [Perform(su, states[|acts|], a)], acts + [a])
  {
    var longer, moves := states + [Perform(su, states[|acts|], a)], acts + [a];
    forall n | 0 <= n < |moves|
      ensures Enabled(su, longer[n], moves[n]) && longer[n + 1] == Perform(su, longer[n], moves[n])
    {
      if n < |acts| {
        assert longer[n] == states[n] && longer[n + 1] == states[n + 1] && moves[n] == acts[n];
      }
    }
  }

  /** A reachable state stays reachable by one more transaction. */
  lemma ReachableOn(su: Setup, s: State, a: Action)
    requires Reachable(su, s) && Enabled(su, s, a)
    ensures Reachable(su, Perform(su, s, a))
  {
    var states, acts, k: nat :| IsRun(su, states, acts) && k < |states| && states[k] == s;
    RunCut(su, states, acts, k);
    RunOn(su, states[..k + 1], acts[..k], a);
    var longer := states[..k + 1] + [Perform(su, s, a)];
    assert longer[k + 1] == Perform(su, s, a);
  }

  /** Two pending steps without parents are both claimed by a pass with room for two. */
  lemma {:induction false} BothQueued(su: Setup, steps: seq<Step>)
    requires su.parents == [{}, {}] && |steps| == 2 && steps[0].status.Pending? && steps[1].status.Pending?
    ensures PassSteps(su, steps, 2) == [steps[0].(status := Queued), steps[1].(status := Queued)]
    ensures Claimable(su, BlockPass(su, steps, 0), 2) == [0, 1]
  {
    NothingBlocked(su, steps, 0);
    assert Count(steps, Busy) == 0 && !AnyWaiting(steps);
    assert Ready(su, steps, 0) && Ready(su, steps, 1);
    assert ReadyFrom(su, steps, 2, 0) == [];
    assert ReadyFrom(su, steps, 1, 1) == [1];
    assert ReadyFrom(su, steps, 0, 2) == [0] + [1];
  }

  const QUEUED_STEP := FRESH_STEP.(status := Queued)
  const RUNNING_STEP := FRESH_STEP.(status := Running, attempts := 1)
  const STALLED_STEP := FRESH_STEP.(status := Stalled, retryable := true)

  /** A reachable state of the plan with these two steps. */
  ghost predicate At(s: State, first: Step, second: Step) {
    Reachable(TWO, s) && s.steps == [first, second] && TWO.task < |s.desk.tasks|
  }

  lemma AtInv(s: State, first: Step, second: Step)
    requires At(s, first, second)
    ensures Inv(TWO, s)
  {
    ReachableInv(TWO, s);
  }

  /** One pass claims both steps. */
  lemma ClaimBoth() returns (s: State)
    ensures At(s, QUEUED_STEP, QUEUED_STEP) && s.plan.status.PlanRunning?
  {
    StartIsReachable();
    BothQueued(TWO, START.steps);
    ReachableOn(TWO, START, CoordinatePlan(2));
    s := Perform(TWO, START, CoordinatePlan(2));
    QueuedSteps();
  }

  lemma QueuedSteps()
    ensures var steps := [QUEUED_STEP, QUEUED_STEP];
            !AllTerminal(steps) && !AnyWaiting(steps) && steps != [FRESH_STEP, FRESH_STEP]
  {
    var steps := [QUEUED_STEP, QUEUED_STEP];
    assert !Terminal(steps[0].status) && steps[0] != [FRESH_STEP, FRESH_STEP][0];
  }

  lemma StartOne(s: State, i: nat, first: Step, second: Step) returns (t: State)
    requires At(s, first, second) && i < 2 && [first, second][i] == QUEUED_STEP
    ensures if i == 0 then At(t, RUNNING_STEP, second) else At(t, first, RUNNING_STEP)
    ensures t.plan.status.PlanRunning? && t.desk == s.desk
  {
    ReachableOn(TWO, s, StartStep(i));
    t := Perform(TWO, s, StartStep(i));
  }

  // ----- a pass that moves the status in silence and makes retry impossible -----

  /** The watchdog finds the first of the claimed steps stale. */
  lemma StallFirst(s: State) returns (t: State)
    requires At(s, QUEUED_STEP, QUEUED_STEP)
    ensures At(t, STALLED_STEP, QUEUED_STEP) && t.plan.status.PlanStalled?
  {
    ReachableOn(TWO, s, RepairStalled({0}));
    t := Perform(TWO, s, RepairStalled({0}));
    assert Busy(s.steps[0].status);
    assert StallSteps(s.steps, {0}) == [STALLED_STEP, QUEUED_STEP];
  }

  lemma {:induction false} NothingToClaim(steps: seq<Step>)
    requires steps == [STALLED_STEP, QUEUED_STEP]
    ensures forall i: nat :: !Blockable(TWO, steps, i) && !Ready(TWO, steps, i)
    ensures !AnyWaiting(steps) && AnyStalled(steps) && Count(steps, Busy) > 0 && 0 in Roots(steps)
    ensures PassSteps(TWO, steps, 2) == steps
  {
    assert steps[0].status.Stalled? && steps[1].status.Queued?;
    PassUnchangedIff(TWO, steps, 2);
  }

  /** The next pass finds the second step at work and moves the plan to running, at the same version. */
  lemma PassInSilence(s: State) returns (t: State)
    requires At(s, STALLED_STEP, QUEUED_STEP) && s.plan.status.PlanStalled?
    ensures At(t, STALLED_STEP, QUEUED_STEP) && t == Perform(TWO, s, CoordinatePlan(2))
    ensures t.plan == s.plan.(status := PlanRunning) && t.events == s.events
    ensures Retryable(s) && !Retryable(t)
  {
    ReachableOn(TWO, s, CoordinatePlan(2));
    SilentPass(s);
    t := Perform(TWO, s, CoordinatePlan(2));
    AtInv(t, STALLED_STEP, QUEUED_STEP);
    NothingToClaim(s.steps);
  }

  lemma SilentPass(s: State)
    requires s.steps == [STALLED_STEP, QUEUED_STEP] && s.plan.status.PlanStalled? && TWO.task < |s.desk.tasks|
    ensures var t := Coordinate(TWO, s, 2).0;
            t == s.(plan := s.plan.(status := PlanRunning), desk := WithTask(TWO, s.desk, TaskRunning))
  {
    NothingToClaim(s.steps);
    QueueingShows(TWO, s.steps, 2);
    assert !AllTerminal(s.steps) by { assert !Terminal(s.steps[0].status); }
  }

  /** A browser is not told: a reachable pass moves the plan from stalled to running at the same version, and
      a step that could be retried before cannot be retried any more. */
  lemma QuietStatusChangeHappens() returns (s: State, t: State)
    ensures At(s, STALLED_STEP, QUEUED_STEP) && At(t, STALLED_STEP, QUEUED_STEP)
    ensures t == Perform(TWO, s, CoordinatePlan(2))
    ensures s.plan.status.PlanStalled? && t.plan == s.plan.(status := PlanRunning) && t.events == s.events
    ensures Retryable(s) && !Retryable(t)
  {
    var claimed := ClaimBoth();
    s := StallFirst(claimed);
    t := PassInSilence(s);
  }

  lemma FinishSecond(s: State, first: Step) returns (t: State)
    requires At(s, first, RUNNING_STEP)
    ensures Reachable(TWO, t) && |t.steps| == 2 && t.steps[0] == first && t.steps[1].status.Done?
    ensures t.plan.status == s.plan.status
  {
    ReachableOn(TWO, s, ExecuteStep(1, Finishes(false)));
    t := Perform(TWO, s, ExecuteStep(1, Finishes(false)));
  }

  /** The other step succeeds, and the plan is stranded with a step that was never retried. */
  lemma StrandedPlanHappens() returns (s: State)
    ensures Reachable(TWO, s) && Stranded(TWO, s) && 0 in Roots(s.steps)
  {
    var _, quiet := QuietStatusChangeHappens();
    var started := StartOne(quiet, 1, STALLED_STEP, QUEUED_STEP);
    s := FinishSecond(started, STALLED_STEP);
    StalledAndDone(s);
  }

  lemma StalledAndDone(s: State)
    requires |s.steps| == 2 && s.steps[0] == STALLED_STEP && s.steps[1].status.Done? && s.plan.status.PlanRunning?
    ensures Stranded(TWO, s) && 0 in Roots(s.steps)
  {
    assert s.steps[0].status.Stalled?;
  }

  // ----- a failed step is tried again -----

  const FAILED_STEP := FRESH_STEP.(status := Failed, attempts := 1, retryable := true)
  const RETRIED_STEP := FRESH_STEP.(attempts := 1)

  /** A running step fails and may be tried again. */
  lemma FailFirst(s: State, second: Step) returns (t: State)
    requires At(s, RUNNING_STEP, second) && s.plan.status.PlanRunning?
    ensures At(t, FAILED_STEP, second) && t.plan.status.PlanRunning?
  {
    ReachableOn(TWO, s, Action.FailStep(0, true));
    t := Perform(TWO, s, Action.FailStep(0, true));
  }

  lemma FailSecond(s: State) returns (t: State)
    requires At(s, FAILED_STEP, RUNNING_STEP) && s.plan.status.PlanRunning?
    ensures At(t, FAILED_STEP, FAILED_STEP) && t.plan.status.PlanRunning?
  {
    ReachableOn(TWO, s, Action.FailStep(1, true));
    t := Perform(TWO, s, Action.FailStep(1, true));
  }

  lemma {:induction false} NothingToDo(steps: seq<Step>)
    requires steps == [FAILED_STEP, FAILED_STEP]
    ensures PassSteps(TWO, steps, 2) == steps && AllTerminal(steps)
  {
    assert steps[0].status.Failed? && steps[1].status.Failed?;
    NothingBlocked(TWO, steps, 0);
    forall i: nat ensures !Blockable(TWO, steps, i) && !Ready(TWO, steps, i) {
    }
    PassUnchangedIff(TWO, steps, 2);
  }

  /** A plan whose steps have all come to nothing fails. */
  lemma ConcludesFailed(su: Setup, s: State, cap: nat)
    requires Inv(su, s) && OpenPlan(s.plan.status) && |s.steps| > 0 && PassSteps(su, s.steps, cap) == s.steps
    requires forall i :: 0 <= i < |s.steps| ==> Bad(s.steps[i].status)
    ensures var t := Coordinate(su, s, cap).0;
            && t.steps == s.steps && t.plan.status == PlanFailed
            && OnlyTask(su, s.desk, t.desk, TaskFailed)
  {
    CoordinateSteps(su, s, cap);
    PassConcludes(su, s, cap);
    FailedByRows(su, s, Coordinate(su, s, cap).0);
  }

  lemma FailedByRows(su: Setup, s: State, t: State)
    requires su.task < |s.desk.tasks| && ConcludedByRows(su, s, t) && |t.steps| > 0
    requires forall i :: 0 <= i < |t.steps| ==> Bad(t.steps[i].status)
    ensures t.plan.status == PlanFailed && OnlyTask(su, s.desk, t.desk, TaskFailed)
  {
    assert Bad(t.steps[0].status) && !Good(t.steps[0].status);
  }

  lemma FinishFailed(s: State) returns (t: State)
    requires At(s, FAILED_STEP, FAILED_STEP) && s.plan.status.PlanRunning?
    ensures At(t, FAILED_STEP, FAILED_STEP) && t.plan.status == PlanFailed
    ensures t.desk.tasks[TWO.task].status == TaskFailed
  {
    NothingToDo(s.steps);
    AtInv(s, FAILED_STEP, FAILED_STEP);
    ConcludesFailed(TWO, s, 2);
    ReachableOn(TWO, s, CoordinatePlan(2));
    t := Coordinate(TWO, s, 2).0;
  }

  /** If every step has failed and may be tried again, a retry makes every step pending. */
  lemma RetryAll(su: Setup, s: State)
    requires su.Valid() && |s.steps| == |su.parents| > 0 && su.task < |s.desk.tasks|
    requires s.plan.status == PlanFailed && forall i: nat :: i < |s.steps| ==> s.steps[i] == FAILED_STEP
    ensures var t := Retry(su, s);
            && |t.steps| == |s.steps| && t.plan.status == PlanPending && OnlyTask(su, s.desk, t.desk, TaskPending)
            && forall i: nat :: i < |s.steps| ==> t.steps[i] == RETRIED_STEP
  {
    assert Restartable(s.steps, 0);
    RetryOutcome(su, s);
    forall i: nat | i < |s.steps| ensures InChain(su, s.steps, i) {
      var path := [i];
      assert Path(su, path) && path[0] == i && path[|path| - 1] == i && Restartable(s.steps, path[0]);
    }
  }

  lemma TwoIsValid(s: State, first: Step, second: Step)
    requires At(s, first, second)
    ensures TWO.Valid() && |TWO.parents| == 2
  {
    AtInv(s, first, second);
  }

  lemma RetryBothRows(s: State)
    requires At(s, FAILED_STEP, FAILED_STEP) && s.plan.status == PlanFailed
    ensures var t := Retry(TWO, s);
            t.steps == [RETRIED_STEP, RETRIED_STEP] && t.plan.status == PlanPending && TWO.task < |t.desk.tasks|
  {
    TwoIsValid(s, FAILED_STEP, FAILED_STEP);
    assert s.steps[0] == FAILED_STEP && s.steps[1] == FAILED_STEP;
    RetryAll(TWO, s);
  }

  lemma RetryBoth(s: State) returns (t: State)
    requires At(s, FAILED_STEP, FAILED_STEP) && s.plan.status == PlanFailed
    ensures t == Retry(TWO, s) && At(t, RETRIED_STEP, RETRIED_STEP) && t.plan.status == PlanPending
  {
    t := Perform(TWO, s, RetryChain);
    ReachableOn(TWO, s, RetryChain);
    RetryBothRows(s);
  }

  /** Both steps start and fail, the plan fails with its task, and the owner's retry makes them pending again. */
  lemma RetryHappens() returns (s: State, t: State)
    ensures At(s, FAILED_STEP, FAILED_STEP) && s.plan.status == PlanFailed && MayRetry(s)
    ensures t == Retry(TWO, s) && At(t, RETRIED_STEP, RETRIED_STEP) && t.plan.status == PlanPending
  {
    var claimed := ClaimBoth();
    var one := StartOne(claimed, 0, QUEUED_STEP, QUEUED_STEP);
    var half := FailFirst(one, QUEUED_STEP);
    var two := StartOne(half, 1, FAILED_STEP, QUEUED_STEP);
    var both := FailSecond(two);
    s := FinishFailed(both);
    assert Restartable(s.steps, 0);
    t := RetryBoth(s);
  }

  // ----- a cancelled plan that goes on -----

  /** Cancelling leaves running steps to run. */
  lemma CancelWhileRunning(s: State, first: Step, second: Step) returns (t: State)
    requires At(s, first, second) && !TerminalPlan(s.plan.status)
    ensures t == Perform(TWO, s, Action.CancelPlan) && Reachable(TWO, t) && TWO.task < |t.desk.tasks|
    ensures t.plan.status.PlanCancelled? && |t.steps| == 2
    ensures first.status.Running? ==> t.steps[0] == first
    ensures second.status.Running? ==> t.steps[1] == second
    ensures first.status.Waiting? ==> t.steps[0] == first.(status := Cancelled)
    ensures t.desk.performed == s.desk.performed
  {
    ReachableOn(TWO, s, Action.CancelPlan);
    t := Perform(TWO, s, Action.CancelPlan);
  }

  lemma PreviewOf(s: State, i: nat) returns (t: State)
    requires Reachable(TWO, s) && |s.steps| == 2 && TWO.task < |s.desk.tasks| && i < 2 && s.steps[i].status.Running?
    ensures t == Execute(TWO, s, i, Previews) && Reachable(TWO, t) && TWO.task < |t.desk.tasks|
    ensures t.plan.status.PlanWaitingUser?
    ensures t.steps == s.steps[i := t.steps[i]] && t.steps[i].status.Waiting?
  {
    ReachableOn(TWO, s, ExecuteStep(i, Previews));
    t := Perform(TWO, s, ExecuteStep(i, Previews));
  }

  /** A step that was running when its plan was cancelled previews a write: the plan waits for the user again. */
  lemma CancelledPlanReopens() returns (s: State, t: State)
    ensures Reachable(TWO, s) && s.plan.status.PlanCancelled?
    ensures |s.steps| == 2 && TWO.task < |s.desk.tasks| && t == Execute(TWO, s, 0, Previews)
    ensures Reachable(TWO, t) && t.plan.status.PlanWaitingUser?
  {
    var claimed := ClaimBoth();
    var started := StartOne(claimed, 0, QUEUED_STEP, QUEUED_STEP);
    s := CancelWhileRunning(started, RUNNING_STEP, QUEUED_STEP);
    t := PreviewOf(s, 0);
  }

  lemma WaitWhileRunning() returns (s: State, first: Step)
    ensures At(s, first, RUNNING_STEP) && first.status.Waiting? && !TerminalPlan(s.plan.status)
  {
    var claimed := ClaimBoth();
    var one := StartOne(claimed, 0, QUEUED_STEP, QUEUED_STEP);
    var both := StartOne(one, 1, RUNNING_STEP, QUEUED_STEP);
    s := PreviewOf(both, 0);
    first := s.steps[0];
    assert s.steps == [first, RUNNING_STEP];
  }

  /** Cancelled while its first step waits, the plan still commits that step's write after the preview of the
      second, if the tool answers. */
  lemma CancelledWriteCommits(facts: CallFacts) returns (s: State, p: nat)
    requires Answers(facts, TWO.box["write"])
    ensures Reachable(TWO, s) && |s.steps| == 2 && s.steps[0].status.Cancelled?
    ensures Own(TWO, s.desk, p) && s.steps[0].run == Some(s.desk.pendings[p].run) && p !in s.desk.performed
    ensures p in Confirm(TWO, s, OWNER, p, Approve, facts).0.desk.performed
  {
    var waiting, first := WaitWhileRunning();
    var cancelled := CancelWhileRunning(waiting, first, RUNNING_STEP);
    s := PreviewOf(cancelled, 1);
    p := CommitOf(waiting, first, s, facts);
    StillUndecided(s, p, facts);
  }

  lemma CommitOf(waiting: State, first: Step, s: State, facts: CallFacts) returns (p: nat)
    requires At(waiting, first, RUNNING_STEP) && first.status.Waiting? && Answers(facts, TWO.box["write"])
    requires var c := Cancel(TWO, waiting).0;
             1 < |c.steps| && TWO.task < |c.desk.tasks| && s == Execute(TWO, c, 1, Previews) && |s.steps| == 2
    ensures Own(TWO, s.desk, p) && s.steps[0].run == Some(s.desk.pendings[p].run)
    ensures p in Confirm(TWO, s, OWNER, p, Approve, facts).0.desk.performed
    ensures Confirm(TWO, s, OWNER, p, Approve, facts).1.Success?
  {
    AtInv(waiting, first, RUNNING_STEP);
    CancelledWriteCanStillCommit(TWO, waiting, 0, 1, facts);
    p :| Own(TWO, s.desk, p) && s.steps[0].run == Some(s.desk.pendings[p].run) &&
         s.desk.pendings[p].tool in TWO.box &&
         p in Confirm(TWO, s, OWNER, p, Approve, facts).0.desk.performed &&
         Confirm(TWO, s, OWNER, p, Approve, facts).1.Success?;
  }

  lemma StillUndecided(s: State, p: nat, facts: CallFacts)
    requires Reachable(TWO, s) && Confirm(TWO, s, OWNER, p, Approve, facts).1.Success?
    ensures p !in s.desk.performed
  {
    ReachableInv(TWO, s);
    DecisionMeetsStep(TWO, s, OWNER, p, Approve, facts);
  }
}
