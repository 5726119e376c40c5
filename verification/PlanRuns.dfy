/**
  Every transaction keeps the plan's invariant, hence so does every run; and what a reader may
  conclude about any reachable plan.
*/
module PlanRuns {
  import opened Results
  import opened ApprovalDesk
  import opened PlanModel
  import opened PlanSafety

  // ----- how transactions touch the log, the attempt rows and the desk -----

  /** A transaction publishes exactly once, with the next version and the state it leaves, or leaves version,
      log and steps alone, or repeats the plan as it stands. */
  ghost predicate Publishes(s: State, t: State) {
    || (t.plan.version == s.plan.version && t.events == s.events && t.steps == s.steps)
    || (t.plan.version == s.plan.version + 1 && t.events == s.events + [Snapshot(t.plan, t.steps)])
    || (t.plan == s.plan && t.steps == s.steps && t.events == s.events + [Snapshot(t.plan, t.steps)])
  }

  lemma PublishingKeepsLog(s: State, t: State)
    requires LogOk(s) && Publishes(s, t)
    ensures LogOk(t)
  {
  }

  /** Only `execute_step` adds attempt rows; a step that starts running takes a new attempt number. */
  ghost predicate AttemptsSteady(s: State, t: State) {
    && t.attempts == s.attempts && |t.steps| == |s.steps|
    && forall i :: 0 <= i < |s.steps| ==>
         && t.steps[i].attempts >= s.steps[i].attempts
         && (t.steps[i].status.Running? ==> s.steps[i].status.Running? || t.steps[i].attempts > s.steps[i].attempts)
  }

  lemma SteadyKeepsAttempts(s: State, t: State)
    requires AttemptsOk(s) && AttemptsSteady(s, t)
    ensures AttemptsOk(t)
  {
  }

  /** Writes stay on record, and a step that executed as a run keeps that run; only its waiting may
      turn into a cancellation. */
  ghost predicate LinksSteady(s: State, t: State) {
    && |t.steps| == |s.steps|
    && |s.desk.pendings| <= |t.desk.pendings|
    && (forall p :: 0 <= p < |s.desk.pendings| ==> t.desk.pendings[p] == s.desk.pendings[p])
    && forall i :: 0 <= i < |s.steps| && s.steps[i].run.Some? ==>
         && t.steps[i].run == s.steps[i].run
         && (t.steps[i].status == s.steps[i].status || (s.steps[i].status.Waiting? && t.steps[i].status.Cancelled?))
  }

  lemma SteadyLinks(su: Setup, s: State, t: State)
    requires LinksSteady(s, t)
    ensures forall p: nat :: Own(su, s.desk, p) && Linked(su, s, p) ==> Linked(su, t, p)
    ensures forall i :: 0 <= i < |s.steps| && s.steps[i].run.Some? && HasWrite(su, s, i) ==> HasWrite(su, t, i)
  {
    forall p: nat | Own(su, s.desk, p) && Linked(su, s, p) ensures Linked(su, t, p) {
      var i :| 0 <= i < |s.steps| && s.steps[i].run == Some(s.desk.pendings[p].run) &&
               Agrees(s.steps[i].status, s.desk.pendings[p].decision);
      assert t.steps[i].run == Some(t.desk.pendings[p].run) && Agrees(t.steps[i].status, t.desk.pendings[p].decision);
    }
    forall i | 0 <= i < |s.steps| && s.steps[i].run.Some? && HasWrite(su, s, i) ensures HasWrite(su, t, i) {
      var p: nat :| Own(su, s.desk, p) && s.steps[i].run == Some(s.desk.pendings[p].run);
      assert Own(su, t.desk, p);
    }
  }

  /** Steps keep their runs and nothing starts to wait: the desk changes at most by the task's status. */
  lemma TaskStatusKeepsDesk(su: Setup, s: State, t: State, status: TaskStatus)
    requires DeskOk(su, s) && su.task < |s.desk.tasks|
    requires t.desk == s.desk || t.desk == WithTask(su, s.desk, status)
    requires LinksSteady(s, t)
    requires forall i :: 0 <= i < |s.steps| ==>
               t.steps[i].run == s.steps[i].run &&
               (t.steps[i].status.Waiting? || t.steps[i].status.Skipped? ==> t.steps[i].status == s.steps[i].status)
    ensures DeskOk(su, t)
  {
    ActionKeepsDesk(s.desk, su.box, SetTask(su.task, status));
    SteadyLinks(su, s, t);
    assert t.desk.pendings == s.desk.pendings && t.desk.runs == s.desk.runs;
    forall p: nat | Own(su, t.desk, p) ensures Own(su, s.desk, p) && Linked(su, t, p) {
      assert Own(su, s.desk, p) && Linked(su, s, p);
    }
    forall i | 0 <= i < |t.steps| && (t.steps[i].status.Waiting? || t.steps[i].status.Skipped?)
      ensures HasWrite(su, t, i)
    {
      assert HasWrite(su, s, i);
      var p: nat :| Own(su, s.desk, p) && s.steps[i].run == Some(s.desk.pendings[p].run);
      assert Own(su, t.desk, p);
    }
  }

  // ----- coordinate_plan -----

  lemma PassKeepsSteps(su: Setup, steps: seq<Step>, cap: nat)
    requires StepsOk(su, steps)
    ensures var after := PassSteps(su, steps, cap);
            && StepsOk(su, after) && Settled(steps, after)
            && forall i :: 0 <= i < |steps| ==>
                 || after[i] == steps[i]
                 || (steps[i].status.Pending? && steps[i].run.None?
                     && (after[i] == steps[i].(status := Blocked) || after[i] == steps[i].(status := Queued)))
  {
    var blocked := BlockPass(su, steps, 0);
    BlockPassKeepsSteps(su, steps);
    EnqueueKeepsSteps(su, blocked, Claimable(su, blocked, cap));
    var after := PassSteps(su, steps, cap);
    forall i | 0 <= i < |steps| && after[i] != steps[i]
      ensures steps[i].status.Pending? && steps[i].run.None?
      ensures after[i] == steps[i].(status := Blocked) || after[i] == steps[i].(status := Queued)
    {
      assert StepOk(su, steps, i);
      BlockPassEffect(su, steps, 0);
    }
  }

  lemma PassKeepsWaiting(su: Setup, steps: seq<Step>, cap: nat)
    requires StepsOk(su, steps)
    ensures AnyWaiting(PassSteps(su, steps, cap)) <==> AnyWaiting(steps)
  {
    var after := PassSteps(su, steps, cap);
    PassKeepsSteps(su, steps, cap);
    if AnyWaiting(steps) {
      var i :| 0 <= i < |steps| && steps[i].status.Waiting?;
      assert after[i].status.Waiting?;
    }
  }

  lemma AnnounceEffect(su: Setup, s: State, anyReady: bool)
    requires su.task < |s.desk.tasks|
    ensures var t := Announce(su, s, anyReady);
            && t.steps == s.steps && t.attempts == s.attempts && t.events == s.events
            && t.plan.version == s.plan.version
            && (t.desk == s.desk || t.desk == WithTask(su, s.desk, t.desk.tasks[su.task].status))
  {
  }

  lemma ConcludeEffect(su: Setup, s: State, steps: seq<Step>, anyReady: bool)
    requires su.task < |s.desk.tasks|
    ensures var t := Conclude(su, s, steps, anyReady);
            && t.steps == steps && Publishes(s, t) && t.attempts == s.attempts
            && (t.desk == s.desk || t.desk == WithTask(su, s.desk, t.desk.tasks[su.task].status))
  {
    AnnounceEffect(su, s.(steps := steps), anyReady);
  }

  lemma FinishingKeepsPlan(su: Setup, s: State)
    requires su.task < |s.desk.tasks| && s.desk.tasks[su.task].owner == su.owner && AllTerminal(s.steps)
    ensures PlanOk(su, Finish(su, s))
  {
  }

  lemma ConcludeKeepsPlan(su: Setup, s: State, steps: seq<Step>, anyReady: bool)
    requires PlanOk(su, s) && !TerminalPlan(s.plan.status)
    requires AnyWaiting(s.steps) ==> AnyWaiting(steps)
    ensures PlanOk(su, Conclude(su, s, steps, anyReady))
  {
    if AllTerminal(steps) {
      FinishingKeepsPlan(su, Announce(su, s.(steps := steps), anyReady));
    }
  }

  /** A transaction that changes steps as a pass may, and the desk only by the task's status. */
  lemma PassKeepsInv(su: Setup, s: State, t: State)
    requires Inv(su, s) && StepsOk(su, t.steps) && PlanOk(su, t) && Publishes(s, t) && t.attempts == s.attempts
    requires t.desk == s.desk || t.desk == WithTask(su, s.desk, t.desk.tasks[su.task].status)
    requires forall i :: 0 <= i < |s.steps| ==>
               || t.steps[i] == s.steps[i]
               || (s.steps[i].status.Pending? && s.steps[i].run.None?
                   && (t.steps[i] == s.steps[i].(status := Blocked) || t.steps[i] == s.steps[i].(status := Queued)))
    ensures Inv(su, t)
  {
    PublishingKeepsLog(s, t);
    SteadyKeepsAttempts(s, t);
    TaskStatusKeepsDesk(su, s, t, t.desk.tasks[su.task].status);
  }

  lemma CoordinateKeeps(su: Setup, s: State, cap: nat)
    requires Inv(su, s)
    ensures Inv(su, Coordinate(su, s, cap).0)
  {
    if !TerminalPlan(s.plan.status) {
      var steps := PassSteps(su, s.steps, cap);
      var anyReady := Claimable(su, BlockPass(su, s.steps, 0), cap) != [];
      PassKeepsSteps(su, s.steps, cap);
      PassKeepsWaiting(su, s.steps, cap);
      ConcludeEffect(su, s, steps, anyReady);
      ConcludeKeepsPlan(su, s, steps, anyReady);
      PassKeepsInv(su, s, Conclude(su, s, steps, anyReady));
    }
  }

  // ----- start_step, fail_step -----

  lemma StartKeeps(su: Setup, s: State, i: nat)
    requires Inv(su, s) && i < |s.steps|
    ensures Inv(su, Start(s, i))
  {
    if s.steps[i].status.Queued? {
      var t := Start(s, i);
      var step := s.steps[i].(status := Running, attempts := s.steps[i].attempts + 1);
      assert StepOk(su, s.steps, i);
      OneStepKeepsSteps(su, s.steps, i, step);
      PublishingKeepsLog(s, t);
      SteadyKeepsAttempts(s, t);
      TaskStatusKeepsDesk(su, s, t, TaskPending);
      assert Cancellable(s.steps[i].status) && !Terminal(s.steps[i].status);
    }
  }

  lemma FailLeavesDesk(su: Setup, s: State, i: nat, retryable: bool)
    requires StepsOk(su, s.steps) && Enabled(su, s, FailStep(i, retryable))
    ensures var t := Fail(su, s, i, retryable);
            && t.desk == s.desk && t.steps == s.steps[i := s.steps[i].(status := Failed, retryable := retryable)]
            && t.plan == s.plan.(version := s.plan.version + 1) && Publishes(s, t) && t.attempts == s.attempts
            && s.steps[i].run.None?
  {
    assert StepOk(su, s.steps, i);
  }

  lemma FailKeeps(su: Setup, s: State, i: nat, retryable: bool)
    requires Inv(su, s) && Enabled(su, s, FailStep(i, retryable))
    ensures Inv(su, Fail(su, s, i, retryable))
    ensures Fail(su, s, i, retryable).desk == s.desk
  {
    var t := Fail(su, s, i, retryable);
    FailLeavesDesk(su, s, i, retryable);
    assert StepOk(su, s.steps, i);
    OneStepKeepsSteps(su, s.steps, i, t.steps[i]);
    PublishingKeepsLog(s, t);
    SteadyKeepsAttempts(s, t);
    TaskStatusKeepsDesk(su, s, t, TaskPending);
    FailKeepsPlan(su, s, t, i);
  }

  /** A step that can fail is not terminal, so its plan is not finished. */
  lemma FailKeepsPlan(su: Setup, s: State, t: State, i: nat)
    requires PlanOk(su, s) && i < |s.steps| && (Busy(s.steps[i].status) || s.steps[i].status.Stalled?)
    requires t.desk == s.desk && t.plan == s.plan.(version := s.plan.version + 1)
    requires |t.steps| == |s.steps| && t.steps == s.steps[i := t.steps[i]] && t.steps[i].status.Failed?
    ensures PlanOk(su, t)
  {
    assert !Terminal(s.steps[i].status);
    OthersStayWaiting(s.steps, i, t.steps[i]);
  }

  // ----- execute_step -----

  lemma ExecuteKeepsAttempts(su: Setup, s: State, i: nat, o: Outcome)
    requires AttemptsOk(s) && i < |s.steps| && su.task < |s.desk.tasks|
    ensures AttemptsOk(Execute(su, s, i, o))
  {
  }

  /** A finished execution adds one run, with the step's result, and no write. */
  ghost predicate Ran(su: Setup, s: State, t: State, i: nat)
    requires i < |s.steps|
  {
    && (exists status :: Accepted(status) &&
          t.steps == s.steps[i := s.steps[i].(status := status, run := Some(|s.desk.runs|))])
    && (exists run: Run :: run.task == su.task && t.desk == s.desk.(runs := s.desk.runs + [run]))
    && Balanced(t.desk) && ApprovalDesk.WellFormed(t.desk, su.box)
  }

  lemma FinishingEffect(su: Setup, s: State, i: nat, partly: bool)
    requires su.task < |s.desk.tasks| && i < |s.steps| && s.steps[i].status.Running?
    requires Balanced(s.desk) && ApprovalDesk.WellFormed(s.desk, su.box)
    ensures Ran(su, s, Execute(su, s, i, Finishes(partly)), i)
  {
    var t := Execute(su, s, i, Finishes(partly));
    var status := if partly then RunPartial else RunSuccess;
    ActionKeepsDesk(s.desk, su.box, OpenRun(su.task, status, {su.ToolOf(i)}));
    assert t.steps == s.steps[i := s.steps[i].(status := if partly then PartlyDone else Done,
                                               run := Some(|s.desk.runs|))];
    assert t.desk == s.desk.(runs := s.desk.runs + [t.desk.runs[|s.desk.runs|]]);
  }

  lemma RunKeepsWrites(su: Setup, s: State, t: State, i: nat)
    requires DeskOk(su, s) && i < |s.steps|
    requires s.steps[i].status.Running? && s.steps[i].run.None? && Ran(su, s, t, i)
    ensures forall p: nat :: Own(su, t.desk, p) ==> Own(su, s.desk, p) && Linked(su, t, p)
    ensures forall j :: 0 <= j < |t.steps| && (t.steps[j].status.Waiting? || t.steps[j].status.Skipped?) ==>
              HasWrite(su, t, j)
  {
    SteadyLinks(su, s, t);
    forall p: nat | Own(su, t.desk, p) ensures Own(su, s.desk, p) && Linked(su, t, p) {
      assert Own(su, s.desk, p) && Linked(su, s, p);
    }
    forall j | 0 <= j < |t.steps| && (t.steps[j].status.Waiting? || t.steps[j].status.Skipped?)
      ensures HasWrite(su, t, j)
    {
      assert j != i && HasWrite(su, s, j);
    }
  }

  lemma RunKeepsRuns(su: Setup, s: State, t: State, i: nat)
    requires DeskOk(su, s) && i < |s.steps| && s.steps[i].run.None? && Ran(su, s, t, i)
    ensures forall j :: 0 <= j < |t.steps| && t.steps[j].run.Some? ==>
              t.steps[j].run.value < |t.desk.runs| && t.desk.runs[t.steps[j].run.value].task == su.task
    ensures forall j, k :: 0 <= j < k < |t.steps| && t.steps[j].run.Some? ==> t.steps[j].run != t.steps[k].run
  {
    forall j | 0 <= j < |t.steps| && t.steps[j].run.Some?
      ensures t.steps[j].run.value < |t.desk.runs| && t.desk.runs[t.steps[j].run.value].task == su.task
    {
      assert j == i || t.steps[j] == s.steps[j];
    }
    forall j, k | 0 <= j < k < |t.steps| && t.steps[j].run.Some? ensures t.steps[j].run != t.steps[k].run {
      assert j == i || t.steps[j] == s.steps[j];
      assert k == i || t.steps[k] == s.steps[k];
    }
  }

  lemma RunKeepsDesk(su: Setup, s: State, t: State, i: nat)
    requires DeskOk(su, s) && i < |s.steps|
    requires s.steps[i].status.Running? && s.steps[i].run.None? && Ran(su, s, t, i)
    ensures DeskOk(su, t)
  {
    RunKeepsWrites(su, s, t, i);
    RunKeepsRuns(su, s, t, i);
    forall p: nat | Own(su, t.desk, p) && t.desk.pendings[p].decision.Undecided? ensures Open(t.desk, p) {
      assert Open(s.desk, p);
    }
  }

  lemma FinishingKeepsDesk(su: Setup, s: State, i: nat, partly: bool)
    requires DeskOk(su, s) && su.task < |s.desk.tasks| && i < |s.steps|
    requires s.steps[i].status.Running? && s.steps[i].run.None?
    ensures DeskOk(su, Execute(su, s, i, Finishes(partly)))
  {
    FinishingEffect(su, s, i, partly);
    RunKeepsDesk(su, s, Execute(su, s, i, Finishes(partly)), i);
  }

  /** A preview adds one run and one undecided write on it, both the plan's own. */
  ghost predicate Previewed(su: Setup, s: State, t: State, i: nat)
    requires su.task < |s.desk.tasks| && i < |s.steps|
  {
    && t.steps == s.steps[i := s.steps[i].(status := Waiting, run := Some(|s.desk.runs|))]
    && t.desk.runs == s.desk.runs + [Run(su.task, RunWaiting, false, {su.ToolOf(i)})]
    && t.desk.pendings == s.desk.pendings + [PendingWrite(su.task, |s.desk.runs|, su.ToolOf(i), Undecided)]
    && t.desk.tasks == s.desk.tasks[su.task := s.desk.tasks[su.task].(status := TaskWaiting)]
    && Balanced(t.desk) && ApprovalDesk.WellFormed(t.desk, su.box)
  }

  lemma PreviewEffect(su: Setup, s: State, i: nat)
    requires su.task < |s.desk.tasks| && i < |s.steps| && s.steps[i].status.Running?
    requires su.Writes(i)
    requires Balanced(s.desk) && ApprovalDesk.WellFormed(s.desk, su.box)
    ensures Previewed(su, s, Execute(su, s, i, Previews), i)
  {
    var tool := su.ToolOf(i);
    var d := Apply(s.desk, su.box, OpenRun(su.task, RunRunning, {tool}));
    ActionKeepsDesk(s.desk, su.box, OpenRun(su.task, RunRunning, {tool}));
    ActionKeepsDesk(d, su.box, Propose(su.task, |s.desk.runs|, Proposal(Update, tool, true), true));
    assert d.runs[|s.desk.runs|].tools + {tool} == {tool};
  }

  lemma PreviewLinks(su: Setup, s: State, t: State, i: nat)
    requires DeskOk(su, s) && su.task < |s.desk.tasks| && i < |s.steps|
    requires s.steps[i].status.Running? && s.steps[i].run.None?
    requires Previewed(su, s, t, i)
    ensures forall p: nat :: Own(su, t.desk, p) ==> Linked(su, t, p)
    ensures forall p: nat, q: nat :: Own(su, t.desk, p) && Own(su, t.desk, q) && p != q ==>
              t.desk.pendings[p].run != t.desk.pendings[q].run
    ensures forall j :: 0 <= j < |t.steps| && (t.steps[j].status.Waiting? || t.steps[j].status.Skipped?) ==>
              HasWrite(su, t, j)
  {
    SteadyLinks(su, s, t);
    var latest := |s.desk.pendings|;
    assert Own(su, t.desk, latest) && t.steps[i].run == Some(t.desk.pendings[latest].run);
    assert Linked(su, t, latest) && HasWrite(su, t, i);
    assert forall p: nat :: Own(su, t.desk, p) && p != latest ==>
        Own(su, s.desk, p) && Linked(su, s, p) && s.desk.pendings[p].run < |s.desk.runs|;
    forall j | 0 <= j < |t.steps| && j != i && (t.steps[j].status.Waiting? || t.steps[j].status.Skipped?)
      ensures HasWrite(su, t, j)
    {
      assert HasWrite(su, s, j);
    }
  }

  lemma PreviewingKeepsDesk(su: Setup, s: State, i: nat)
    requires DeskOk(su, s) && su.task < |s.desk.tasks| && i < |s.steps|
    requires s.steps[i].status.Running? && s.steps[i].run.None?
    requires su.Writes(i)
    ensures DeskOk(su, Execute(su, s, i, Previews))
  {
    var t := Execute(su, s, i, Previews);
    PreviewEffect(su, s, i);
    PreviewLinks(su, s, t, i);
  }

  lemma OthersStayWaiting(steps: seq<Step>, i: nat, step: Step)
    requires i < |steps| && !steps[i].status.Waiting?
    ensures AnyWaiting(steps) ==> AnyWaiting(steps[i := step])
  {
    if AnyWaiting(steps) {
      var j :| 0 <= j < |steps| && steps[j].status.Waiting?;
      assert steps[i := step][j].status.Waiting?;
    }
  }

  lemma ExecuteKeepsPlan(su: Setup, s: State, i: nat, o: Outcome)
    requires PlanOk(su, s) && i < |s.steps| && s.steps[i].status.Running?
    requires o.Previews? ==> su.Writes(i)
    ensures PlanOk(su, Execute(su, s, i, o))
  {
    var t := Execute(su, s, i, o);
    assert !Terminal(s.steps[i].status);
    OthersStayWaiting(s.steps, i, t.steps[i]);
    match o
    case Finishes(_) =>
    case Previews => assert t.steps[i].status.Waiting?;
  }

  lemma ExecuteKeeps(su: Setup, s: State, i: nat, o: Outcome)
    requires Inv(su, s) && Enabled(su, s, ExecuteStep(i, o))
    ensures Inv(su, Execute(su, s, i, o))
  {
    if s.steps[i].status.Running? {
      var t := Execute(su, s, i, o);
      assert StepOk(su, s.steps, i);
      OneStepKeepsSteps(su, s.steps, i, t.steps[i]);
      PublishingKeepsLog(s, t);
      ExecuteKeepsAttempts(su, s, i, o);
      ExecuteKeepsPlan(su, s, i, o);
      match o
      case Finishes(partly) => FinishingKeepsDesk(su, s, i, partly);
      case Previews => PreviewingKeepsDesk(su, s, i);
    }
  }

  // ----- decide_pending_write -----

  /** A decision on one of the plan's own writes: row `p` and its run close, the rest stays. */
  ghost predicate Closes(su: Setup, s: State, t: State, p: nat, decision: Decision)
    requires p < |s.desk.pendings| && su.task < |s.desk.tasks|
  {
    var r := s.desk.pendings[p].run;
    && r < |s.desk.runs|
    && t.desk.pendings == s.desk.pendings[p := s.desk.pendings[p].(decision := decision)]
    && t.desk.runs == s.desk.runs[r := s.desk.runs[r].(allowWrite := false, status := RunSuccess)]
    && t.desk.tasks == s.desk.tasks[su.task := s.desk.tasks[su.task].(status := TaskRunning)]
  }

  /** A successful decision concerns an undecided write of this plan while its task waits; the step
      behind it is the one step with that run, and it waits too unless it was cancelled. */
  lemma DecisionMeetsStep(su: Setup, s: State, user: nat, p: nat, choice: Choice, facts: CallFacts)
    requires DeskOk(su, s) && su.task < |s.desk.tasks|
    requires Confirm(su, s, user, p, choice, facts).1.Success?
    ensures Own(su, s.desk, p) && s.desk.pendings[p].decision.Undecided? && !choice.UnknownChoice?
    ensures s.desk.tasks[su.task].status.TaskWaiting?
    ensures var step := StepOfWrite(s, p); step.Some? && Agrees(s.steps[step.value].status, Undecided)
  {
    assert DecisionRefusal(s.desk, user, su.task, p, choice).None?;
    assert Own(su, s.desk, p) && Linked(su, s, p);
  }

  lemma DecideKeepsBalance(su: Setup, s: State, user: nat, p: nat, choice: Choice, facts: CallFacts)
    requires DeskOk(su, s) && Confirm(su, s, user, p, choice, facts).1.Success? && StepOfWrite(s, p).Some?
    ensures var t := Confirm(su, s, user, p, choice, facts).0;
            Balanced(t.desk) && ApprovalDesk.WellFormed(t.desk, su.box)
  {
    ConfirmActs(su, s, user, p, choice, facts);
    ActionKeepsDesk(s.desk, su.box, DeskAction.Decide(user, su.task, p, choice, true, facts));
  }

  /** A decision on a write of a step acts on the desk as a collaborative one. */
  lemma ConfirmActs(su: Setup, s: State, user: nat, p: nat, choice: Choice, facts: CallFacts)
    requires StepOfWrite(s, p).Some?
    ensures Confirm(su, s, user, p, choice, facts).0.desk ==
            Apply(s.desk, su.box, DeskAction.Decide(user, su.task, p, choice, true, facts))
  {
  }

  lemma DecideEffect(su: Setup, s: State, user: nat, p: nat, choice: Choice, facts: CallFacts)
    requires DeskOk(su, s) && su.task < |s.desk.tasks|
    requires Confirm(su, s, user, p, choice, facts).1.Success? && Own(su, s.desk, p)
    requires StepOfWrite(s, p).Some?
    ensures var t := Confirm(su, s, user, p, choice, facts).0;
            && Balanced(t.desk) && ApprovalDesk.WellFormed(t.desk, su.box)
            && Closes(su, s, t, p, if choice.Approve? then Approved else Rejected)
  {
    DecideKeepsBalance(su, s, user, p, choice, facts);
    DecisionEffect(s.desk, su.box, user, su.task, p, choice, true, facts);
  }

  lemma ClosingLinks(su: Setup, s: State, t: State, p: nat, choice: Choice, i: nat)
    requires DeskOk(su, s) && su.task < |s.desk.tasks|
    requires Own(su, s.desk, p) && s.desk.pendings[p].decision.Undecided?
    requires Closes(su, s, t, p, if choice.Approve? then Approved else Rejected)
    requires i < |s.steps| && s.steps[i].run == Some(s.desk.pendings[p].run) && Agrees(s.steps[i].status, Undecided)
    requires t.steps == if s.steps[i].status.Waiting?
                        then s.steps[i := s.steps[i].(status := if choice.Approve? then Done else Skipped)] else s.steps
    ensures forall q: nat :: Own(su, t.desk, q) ==> Linked(su, t, q)
  {
    forall q: nat | Own(su, t.desk, q) ensures Linked(su, t, q) {
      assert Own(su, s.desk, q) && Linked(su, s, q);
      var j :| 0 <= j < |s.steps| && s.steps[j].run == Some(s.desk.pendings[q].run) &&
               Agrees(s.steps[j].status, s.desk.pendings[q].decision);
      assert t.steps[j].run == Some(t.desk.pendings[q].run);
      assert q != p ==> j != i;
      assert q == p ==> j == i;
      assert Agrees(t.steps[j].status, t.desk.pendings[q].decision);
    }
  }

  lemma ClosingWrites(su: Setup, s: State, t: State, p: nat, choice: Choice, i: nat)
    requires DeskOk(su, s) && su.task < |s.desk.tasks|
    requires Own(su, s.desk, p)
    requires Closes(su, s, t, p, if choice.Approve? then Approved else Rejected)
    requires i < |s.steps| && s.steps[i].run == Some(s.desk.pendings[p].run)
    requires t.steps == if s.steps[i].status.Waiting?
                        then s.steps[i := s.steps[i].(status := if choice.Approve? then Done else Skipped)] else s.steps
    ensures forall j :: 0 <= j < |t.steps| && (t.steps[j].status.Waiting? || t.steps[j].status.Skipped?) ==>
              HasWrite(su, t, j)
  {
    forall j | 0 <= j < |t.steps| && (t.steps[j].status.Waiting? || t.steps[j].status.Skipped?)
      ensures HasWrite(su, t, j)
    {
      if j == i {
        assert Own(su, t.desk, p) && t.steps[j].run == Some(t.desk.pendings[p].run);
      } else {
        assert HasWrite(su, s, j);
        var q: nat :| Own(su, s.desk, q) && s.steps[j].run == Some(s.desk.pendings[q].run);
        assert Own(su, t.desk, q) && t.steps[j].run == Some(t.desk.pendings[q].run);
      }
    }
  }

  lemma ClosingRuns(su: Setup, s: State, t: State, p: nat, choice: Choice, i: nat)
    requires DeskOk(su, s) && su.task < |s.desk.tasks|
    requires Own(su, s.desk, p)
    requires Closes(su, s, t, p, if choice.Approve? then Approved else Rejected)
    requires i < |s.steps| && s.steps[i].run == Some(s.desk.pendings[p].run)
    requires t.steps == if s.steps[i].status.Waiting?
                        then s.steps[i := s.steps[i].(status := if choice.Approve? then Done else Skipped)] else s.steps
    ensures |t.desk.runs| == |s.desk.runs| && |t.steps| == |s.steps|
    ensures forall j :: 0 <= j < |t.steps| ==> t.steps[j].run == s.steps[j].run
    ensures forall r :: 0 <= r < |t.desk.runs| ==> t.desk.runs[r].task == s.desk.runs[r].task
    ensures forall q: nat :: Own(su, t.desk, q) && t.desk.pendings[q].decision.Undecided? ==> Open(t.desk, q)
  {
    forall q: nat | Own(su, t.desk, q) && t.desk.pendings[q].decision.Undecided? ensures Open(t.desk, q) {
      assert q != p && Own(su, s.desk, q);
      assert s.desk.pendings[q].run != s.desk.pendings[p].run;
    }
  }

  lemma ClosingKeepsDesk(su: Setup, s: State, t: State, p: nat, choice: Choice, i: nat)
    requires DeskOk(su, s) && su.task < |s.desk.tasks|
    requires Own(su, s.desk, p) && s.desk.pendings[p].decision.Undecided?
    requires Balanced(t.desk) && ApprovalDesk.WellFormed(t.desk, su.box)
    requires Closes(su, s, t, p, if choice.Approve? then Approved else Rejected)
    requires i < |s.steps| && s.steps[i].run == Some(s.desk.pendings[p].run) && Agrees(s.steps[i].status, Undecided)
    requires t.steps == if s.steps[i].status.Waiting?
                        then s.steps[i := s.steps[i].(status := if choice.Approve? then Done else Skipped)] else s.steps
    ensures DeskOk(su, t)
  {
    ClosingLinks(su, s, t, p, choice, i);
    ClosingWrites(su, s, t, p, choice, i);
    ClosingRuns(su, s, t, p, choice, i);
    assert forall q: nat :: Own(su, t.desk, q) ==>
        Own(su, s.desk, q) && t.desk.pendings[q].run == s.desk.pendings[q].run;
  }

  lemma ContactKeepsDesk(su: Setup, s: State, t: State)
    requires DeskOk(su, s) && t == s.(desk := s.desk.(contacted := t.desk.contacted))
    ensures DeskOk(su, t)
  {
    SteadyLinks(su, s, t);
    forall q: nat | Own(su, t.desk, q) ensures Own(su, s.desk, q) && Linked(su, t, q) {
      assert Own(su, s.desk, q) && Linked(su, s, q);
    }
    forall j | 0 <= j < |s.steps| && (s.steps[j].status.Waiting? || s.steps[j].status.Skipped?)
      ensures HasWrite(su, t, j)
    {
      assert HasWrite(su, s, j);
    }
  }

  /** A failed decision leaves everything but the list of contacted providers. */
  lemma RefusalKeeps(su: Setup, s: State, t: State)
    requires Inv(su, s)
    requires t == s.(desk := s.desk.(contacted := t.desk.contacted))
    ensures Inv(su, t)
  {
    ContactKeepsDesk(su, s, t);
  }

  lemma DecisionKeepsPlan(su: Setup, s: State, t: State, i: nat)
    requires PlanOk(su, s) && i < |s.steps| && s.desk.tasks[su.task].status.TaskWaiting?
    requires t.desk.tasks == s.desk.tasks[su.task := s.desk.tasks[su.task].(status := TaskRunning)]
    requires (t.steps == s.steps && t.plan == s.plan)
             || (s.steps[i].status.Waiting? && |t.steps| == |s.steps| && t.steps == s.steps[i := t.steps[i]]
                 && t.plan.status.PlanRunning?)
    ensures PlanOk(su, t)
  {
  }

  lemma DecisionKeepsSteps(su: Setup, s: State, user: nat, p: nat, choice: Choice, facts: CallFacts)
    requires Inv(su, s) && Confirm(su, s, user, p, choice, facts).1.Success? && StepOfWrite(s, p).Some?
    ensures StepsOk(su, Confirm(su, s, user, p, choice, facts).0.steps)
  {
    var i := StepOfWrite(s, p).value;
    assert StepOk(su, s.steps, i);
    OneStepKeepsSteps(su, s.steps, i, Confirm(su, s, user, p, choice, facts).0.steps[i]);
  }

  lemma DecisionKeepsRest(su: Setup, s: State, user: nat, p: nat, choice: Choice, facts: CallFacts)
    requires Inv(su, s) && Confirm(su, s, user, p, choice, facts).1.Success?
    requires Own(su, s.desk, p) && s.desk.tasks[su.task].status.TaskWaiting? && !choice.UnknownChoice?
    requires StepOfWrite(s, p).Some?
    requires Closes(su, s, Confirm(su, s, user, p, choice, facts).0, p, if choice.Approve? then Approved else Rejected)
    ensures var t := Confirm(su, s, user, p, choice, facts).0;
            StepsOk(su, t.steps) && PlanOk(su, t) && LogOk(t) && AttemptsOk(t)
  {
    var t := Confirm(su, s, user, p, choice, facts).0;
    PublishingKeepsLog(s, t);
    SteadyKeepsAttempts(s, t);
    DecisionKeepsPlan(su, s, t, StepOfWrite(s, p).value);
    DecisionKeepsSteps(su, s, user, p, choice, facts);
  }

  lemma DecideKeeps(su: Setup, s: State, user: nat, p: nat, choice: Choice, facts: CallFacts)
    requires Inv(su, s)
    ensures Inv(su, Confirm(su, s, user, p, choice, facts).0)
  {
    var (t, outcome) := Confirm(su, s, user, p, choice, facts);
    if outcome.Failure? {
      RefusalKeeps(su, s, t);
    } else {
      DecisionMeetsStep(su, s, user, p, choice, facts);
      DecideEffect(su, s, user, p, choice, facts);
      DecisionKeepsRest(su, s, user, p, choice, facts);
      ClosingKeepsDesk(su, s, t, p, choice, StepOfWrite(s, p).value);
    }
  }

  // ----- cancel_plan, repair_stalled_plans, retry_failed_chain -----

  lemma CancelLinks(su: Setup, s: State, t: State)
    requires StepsOk(su, s.steps) && t.steps == CancelSteps(s.steps) && t.desk.pendings == s.desk.pendings
    ensures LinksSteady(s, t)
  {
    forall i | 0 <= i < |s.steps| && s.steps[i].run.Some? && Cancellable(s.steps[i].status)
      ensures s.steps[i].status.Waiting?
    {
      assert StepOk(su, s.steps, i);
    }
  }

  lemma CancelKeepsPlan(su: Setup, s: State)
    requires PlanOk(su, s) && !TerminalPlan(s.plan.status)
    ensures PlanOk(su, Cancel(su, s).0)
  {
  }

  lemma CancelKeepsDesk(su: Setup, s: State)
    requires Inv(su, s) && !TerminalPlan(s.plan.status)
    ensures DeskOk(su, Cancel(su, s).0)
  {
    var t := Cancel(su, s).0;
    CancelLinks(su, s, t);
    TaskStatusKeepsDesk(su, s, t, TaskCancelled);
  }

  lemma CancelKeeps(su: Setup, s: State)
    requires Inv(su, s)
    ensures Inv(su, Cancel(su, s).0)
  {
    if !TerminalPlan(s.plan.status) {
      var t := Cancel(su, s).0;
      CancelKeepsSteps(su, s.steps);
      PublishingKeepsLog(s, t);
      SteadyKeepsAttempts(s, t);
      CancelKeepsPlan(su, s);
      CancelKeepsDesk(su, s);
    }
  }

  lemma RepairKeepsDesk(su: Setup, s: State, stale: set<nat>)
    requires Inv(su, s)
    requires exists i :: 0 <= i < |s.steps| && i in stale && Busy(s.steps[i].status)
    ensures DeskOk(su, Repair(su, s, stale))
  {
    var t := Repair(su, s, stale);
    forall i | 0 <= i < |s.steps| && t.steps[i] != s.steps[i] ensures s.steps[i].run.None? {
      assert StepOk(su, s.steps, i);
    }
    TaskStatusKeepsDesk(su, s, t, TaskFailed);
  }

  lemma RepairKeeps(su: Setup, s: State, stale: set<nat>)
    requires Inv(su, s)
    ensures Inv(su, Repair(su, s, stale))
  {
    if exists i :: 0 <= i < |s.steps| && i in stale && Busy(s.steps[i].status) {
      var t := Repair(su, s, stale);
      StallKeepsSteps(su, s.steps, stale);
      PublishingKeepsLog(s, t);
      SteadyKeepsAttempts(s, t);
      RepairKeepsDesk(su, s, stale);
    }
  }

  /** A step is as it was, or pending again without ever having had a run. */
  ghost predicate ResetOrSame(before: Step, after: Step) {
    || after == before
    || (before.run.None? && after.run.None? && after.status.Pending? && after.attempts == before.attempts)
  }

  /** Only the task's status and steps without a run change. */
  ghost predicate Resets(su: Setup, s: State, t: State) {
    && |t.steps| == |s.steps| && t.attempts == s.attempts
    && su.task < |s.desk.tasks| && t.desk == WithTask(su, s.desk, TaskPending)
    && forall i :: 0 <= i < |s.steps| ==> ResetOrSame(s.steps[i], t.steps[i])
  }

  lemma RetryTouches(su: Setup, s: State, i: nat)
    requires Inv(su, s) && Retryable(s) && i < |s.steps|
    ensures ResetOrSame(s.steps[i], Retry(su, s).steps[i])
  {
    if i in Affected(su, Roots(s.steps)) {
      RetrySparesFinishedWork(su, s.steps, i);
    }
  }

  lemma RetryResets(su: Setup, s: State)
    requires Inv(su, s) && Retryable(s)
    ensures Resets(su, s, Retry(su, s))
  {
    forall i | 0 <= i < |s.steps| ensures ResetOrSame(s.steps[i], Retry(su, s).steps[i]) {
      RetryTouches(su, s, i);
    }
  }

  lemma ResetKeepsDesk(su: Setup, s: State, t: State)
    requires DeskOk(su, s) && AttemptsOk(s) && Resets(su, s, t)
    ensures DeskOk(su, t) && AttemptsOk(t)
  {
    SteadyKeepsAttempts(s, t);
    TaskStatusKeepsDesk(su, s, t, TaskPending);
  }

  lemma RetryKeeps(su: Setup, s: State)
    requires Inv(su, s)
    ensures Inv(su, Retry(su, s))
  {
    if Retryable(s) {
      ResetKeepsSteps(su, s.steps);
      PublishingKeepsLog(s, Retry(su, s));
      RetryResets(su, s);
      ResetKeepsDesk(su, s, Retry(su, s));
    }
  }

  lemma RepublishKeeps(su: Setup, s: State)
    requires Inv(su, s)
    ensures Inv(su, Republished(s))
  {
    var t := Republished(s);
    PublishingKeepsLog(s, t);
    SteadyKeepsAttempts(s, t);
    TaskStatusKeepsDesk(su, s, t, TaskPending);
  }

  // ----- other tasks on the same desk -----

  lemma ForeignEffect(su: Setup, s: State, a: DeskAction)
    requires DeskOk(su, s) && su.task < |s.desk.tasks| && Foreign(su, s.desk, a)
    ensures var d := Apply(s.desk, su.box, a);
            && |s.desk.tasks| <= |d.tasks|
            && (d.tasks[su.task] == s.desk.tasks[su.task]
                || (d.tasks[su.task] == s.desk.tasks[su.task].(status := TaskFailed)
                    && (s.desk.tasks[su.task].status.TaskPending? || s.desk.tasks[su.task].status.TaskRunning?)))
            && |s.desk.runs| <= |d.runs|
            && (forall r :: 0 <= r < |s.desk.runs| && s.desk.runs[r].task == su.task ==> d.runs[r] == s.desk.runs[r])
            && |s.desk.pendings| <= |d.pendings|
            && (forall p: nat :: Own(su, s.desk, p) ==> d.pendings[p] == s.desk.pendings[p])
            && (forall p: nat :: Own(su, d, p) ==> Own(su, s.desk, p))
  {
    match a
    case Decide(user, task, p, choice, collaborative, facts) =>
      if DecisionRefusal(s.desk, user, task, p, choice).None? {
        UnlockedGateOpens(s.desk, su.box, p, facts);
      }
    case Call(name, task, caller, confirmation, facts) =>
      if name in su.box && su.box[name].kind.WriteTool? {
        WriteCallRefused(s.desk, su.box, name, task, caller, confirmation, facts);
      }
    case _ =>
  }

  lemma ForeignKeepsDesk(su: Setup, s: State, a: DeskAction)
    requires Inv(su, s) && Foreign(su, s.desk, a)
    ensures DeskOk(su, s.(desk := Apply(s.desk, su.box, a)))
  {
    var t := s.(desk := Apply(s.desk, su.box, a));
    ActionKeepsDesk(s.desk, su.box, a);
    ForeignEffect(su, s, a);
    forall p: nat | Own(su, t.desk, p) ensures Linked(su, t, p) {
      assert Linked(su, s, p);
    }
    forall i | 0 <= i < |s.steps| && (s.steps[i].status.Waiting? || s.steps[i].status.Skipped?)
      ensures HasWrite(su, t, i)
    {
      assert HasWrite(su, s, i);
      var p: nat :| Own(su, s.desk, p) && s.steps[i].run == Some(s.desk.pendings[p].run);
      assert Own(su, t.desk, p);
    }
  }

  lemma ForeignKeeps(su: Setup, s: State, a: DeskAction)
    requires Inv(su, s) && Foreign(su, s.desk, a)
    ensures Inv(su, s.(desk := Apply(s.desk, su.box, a)))
  {
    ForeignKeepsDesk(su, s, a);
    ForeignEffect(su, s, a);
  }

  // ----- every run -----

  lemma PerformKeeps(su: Setup, s: State, a: Action)
    requires Inv(su, s) && Enabled(su, s, a)
    ensures Inv(su, Perform(su, s, a))
  {
    match a
    case CoordinatePlan(cap) => CoordinateKeeps(su, s, cap);
    case StartStep(i) => StartKeeps(su, s, i);
    case ExecuteStep(i, o) => ExecuteKeeps(su, s, i, o);
    case FailStep(i, retryable) => FailKeeps(su, s, i, retryable);
    case DecideWrite(user, p, choice, facts) => DecideKeeps(su, s, user, p, choice, facts);
    case CancelPlan => CancelKeeps(su, s);
    case RepairStalled(stale) => RepairKeeps(su, s, stale);
    case RetryChain => RetryKeeps(su, s);
    case Republish => RepublishKeeps(su, s);
    case Elsewhere(act) => ForeignKeeps(su, s, act);
  }

  lemma {:induction false} RunInv(su: Setup, states: seq<State>, acts: seq<Action>, k: nat)
    requires IsRun(su, states, acts) && k < |states|
    ensures Inv(su, states[k])
  {
    if k == 0 {
    } else {
      RunInv(su, states, acts, k - 1);
      PerformKeeps(su, states[k - 1], acts[k - 1]);
    }
  }
}
