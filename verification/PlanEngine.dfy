/**
  The plan engine in place: the service functions as methods on one plan's rows, each proved equal to
  the transaction it implements, and the loop that drives a plan until it ends or waits for the user.
*/
module PlanEngine {
  import opened Results
  import opened ApprovalDesk
  import opened PlanModel
  import opened PlanSafety
  import opened PlanRuns
  import opened PlanTheorems
  import opened PlanOutcomes
  import opened PlanSchedule
  import opened PlanProgress

  /** The iteration guard of the driving loop. */
  const MAX_ITERATIONS := 32

  /** The schema's bound on the steps of a plan. */
  const MAX_STEPS := 12

  /** A status on which the driving loop stops. */
  predicate Stops(s: PlanStatus) {
    s.PlanWaitingUser? || TerminalPlan(s)
  }

  /** The loop goes on only while the plan is pending, running or stalled. */
  lemma StopsIff(s: PlanStatus)
    ensures Stops(s) <==> s != PlanPending && s != PlanRunning && s != PlanStalled
  {
    match s
    case PlanPending => case PlanRunning => case PlanWaitingUser => case PlanStalled => case PlanSuccess =>
    case PlanPartial => case PlanFailed => case PlanCancelled =>
  }

  class Engine {
    const su: Setup
    /** The dependency rows, as (child, parent), in whatever order the database returns them. */
    const rows: seq<Row>
    const desk: Desk
    var steps: seq<Step>
    var plan: Plan
    var events: seq<Snapshot>
    var attempts: seq<(nat, nat)>

    ghost predicate Valid()
      reads this, desk
    {
      && su.Valid()
      && su.box == desk.box
      && su.task < |desk.tasks|
      && |steps| == |su.parents|
      && Lists(rows, su)
    }

    function View(): State
      reads this, desk
    {
      State(steps, plan, desk.View(), events, attempts)
    }

    /** `persist_plan` and the announcement that follows it. */
    constructor (su: Setup, rows: seq<Row>, desk: Desk)
      requires su.Valid() && su.box == desk.box && su.task < |desk.tasks|
      requires Lists(rows, su)
      ensures Valid() && this.su == su && this.rows == rows && this.desk == desk
      ensures steps == seq(|su.parents|, _ => FRESH_STEP) && plan == FRESH_PLAN
      ensures events == [Snapshot(plan, steps)] && attempts == []
    {
      this.su, this.rows, this.desk := su, rows, desk;
      this.steps := seq(|su.parents|, _ => FRESH_STEP);
      this.plan := FRESH_PLAN;
      this.attempts := [];
      this.events := [Snapshot(FRESH_PLAN, seq(|su.parents|, _ => FRESH_STEP))];
    }

    method Publish()
      modifies this`plan, this`events
      ensures View() == Published(old(View()))
    {
      plan := plan.(version := plan.version + 1);
      events := events + [Snapshot(plan, steps)];
    }

    // ----- coordinate_plan -----

    /** The first loop of a pass: block what can no longer run. */
    method BlockDependents() returns (changed: bool)
      requires Valid()
      modifies this`steps
      ensures Valid() && steps == BlockPass(su, old(steps), 0)
      ensures changed <==> steps != old(steps)
    {
      changed := false;
      var i := 0;
      while i < |steps|
        invariant 0 <= i <= |steps| == |old(steps)|
        invariant BlockPass(su, steps, i) == BlockPass(su, old(steps), 0)
        invariant forall j :: 0 <= j < |steps| ==>
                    steps[j] == old(steps)[j] || (old(steps)[j].status.Pending? && steps[j].status.Blocked?)
        invariant changed <==> steps != old(steps)
      {
        if steps[i].status.Pending? && HasUnusableParent(su, steps, i) {
          assert old(steps)[i].status.Pending?;
          steps := steps[i := steps[i].(status := Blocked)];
          assert steps[i] != old(steps)[i];
          changed := true;
        }
        i := i + 1;
      }
    }

    /** The second loop: collect ready steps in position order until the room is used up. */
    method CollectReady(room: nat) returns (ready: seq<nat>)
      requires Valid()
      ensures ready == ReadyFrom(su, steps, 0, room)
    {
      ready := [];
      if room == 0 {
        return;
      }
      var i := 0;
      while i < |steps|
        invariant 0 <= i <= |steps| && |ready| < room
        invariant ready + ReadyFrom(su, steps, i, room - |ready|) == ReadyFrom(su, steps, 0, room)
      {
        if steps[i].status.Pending? && ParentsAccepted(su, steps, i) {
          ghost var rest := ReadyFrom(su, steps, i + 1, room - |ready| - 1);
          assert ready + ([i] + rest) == (ready + [i]) + rest;
          ready := ready + [i];
          if |ready| >= room {
            assert rest == [] && ready + rest == ready;
            return;
          }
        }
        i := i + 1;
      }
      assert ready + [] == ready;
    }

    /** The third loop: mark the claimed steps as queued. */
    method QueueSteps(ready: seq<nat>)
      requires Valid() && forall k :: 0 <= k < |ready| ==> ready[k] < |steps|
      modifies this`steps
      ensures Valid() && steps == Enqueue(old(steps), ready)
    {
      var k := 0;
      assert steps == Enqueue(steps, ready[..0]);
      while k < |ready|
        invariant 0 <= k <= |ready| && |steps| == |old(steps)|
        invariant steps == Enqueue(old(steps), ready[..k])
      {
        steps := steps[ready[k] := steps[ready[k]].(status := Queued)];
        assert ready[..k + 1] == ready[..k] + [ready[k]];
        k := k + 1;
      }
      assert ready[..k] == ready;
    }

    /** The final status and counts of the plan. */
    method TallySteps() returns (tally: Plan)
      ensures tally == Tally(steps, plan.version)
    {
      var completed := Count(steps, Accepted);
      var failed := Count(steps, IsFailed);
      var skipped := Count(steps, IsSkipped);
      var status: PlanStatus;
      if completed == |steps| {
        status := PlanSuccess;
      } else if completed > 0 {
        status := PlanPartial;
      } else {
        status := PlanFailed;
      }
      return Plan(status, plan.version, completed, failed, skipped);
    }

    method FinishPlan()
      requires Valid()
      modifies this`plan, this`events, desk
      ensures Valid() && View() == Finish(su, old(View()))
    {
      var tally := TallySteps();
      plan := tally;
      desk.SetTask(su.task, TaskOf(tally.status));
      Publish();
    }

    /** The loops of a pass: block, then claim what is ready, then queue it. */
    method RunPass(cap: nat) returns (ready: seq<nat>, waiting: bool, busy: nat, changed: bool)
      requires Valid()
      modifies this`steps
      ensures Valid() && steps == PassSteps(su, old(steps), cap)
      ensures ready == Claimable(su, BlockPass(su, old(steps), 0), cap)
      ensures waiting <==> AnyWaiting(steps)
      ensures Count(steps, Busy) > 0 <==> ready != [] || busy > 0
      ensures changed <==> steps != old(steps)
    {
      ghost var was := steps;
      changed := BlockDependents();
      ghost var blocked := steps;
      PassSummary(su, was, cap);
      waiting := AnyWaiting(steps);
      busy := Count(steps, Busy);
      ready := [];
      if !waiting {
        ready := CollectReady(Room(cap, busy));
      }
      assert ready == Claimable(su, blocked, cap);
      QueueSteps(ready);
      changed := changed || ready != [];
    }

    /** Plan and task say whether the plan waits for the user or is at work. */
    method AnnouncePass(waiting: bool, working: bool, ghost anyReady: bool)
      requires Valid() && (waiting <==> AnyWaiting(steps)) && (working <==> anyReady || Count(steps, Busy) > 0)
      modifies this`plan, desk
      ensures Valid() && View() == Announce(su, old(View()), anyReady)
    {
      if waiting {
        plan := plan.(status := PlanWaitingUser);
        desk.SetTask(su.task, TaskWaiting);
      } else if working {
        plan := plan.(status := PlanRunning);
        desk.SetTask(su.task, TaskRunning);
      }
    }

    /** What follows the loops: announce, and finish the plan or publish what changed. */
    method ConcludePass(ghost before: State, waiting: bool, working: bool, changed: bool, ghost anyReady: bool)
      returns (finished: bool)
      requires Valid() && View() == before.(steps := steps) && (changed <==> steps != before.steps)
      requires (waiting <==> AnyWaiting(steps)) && (working <==> anyReady || Count(steps, Busy) > 0)
      modifies this`plan, this`events, desk
      ensures Valid() && View() == Conclude(su, before, steps, anyReady) && (finished <==> AllTerminal(steps))
    {
      AnnouncePass(waiting, working, anyReady);
      finished := AllTerminal(steps);
      if finished {
        FinishPlan();
      } else if changed {
        Publish();
      }
    }

    method CoordinatePlan(cap: nat) returns (claimed: seq<nat>)
      requires Valid()
      modifies this`steps, this`plan, this`events, desk
      ensures Valid() && (View(), claimed) == Coordinate(su, old(View()), cap)
    {
      if TerminalPlan(plan.status) {
        return [];
      }
      ghost var before := View();
      var ready, waiting, busy, changed := RunPass(cap);
      var finished := ConcludePass(before, waiting, ready != [] || busy > 0, changed, ready != []);
      return if finished then [] else ready;
    }

    // ----- start_step, execute_step, fail_step -----

    method StartStep(i: nat) returns (started: bool)
      requires Valid() && i < |steps|
      modifies this`steps, this`plan, this`events
      ensures Valid() && View() == Start(old(View()), i)
      ensures started <==> old(steps)[i].status.Queued?
    {
      if steps[i].status != Queued {
        return false;
      }
      steps := steps[i := steps[i].(status := Running, attempts := steps[i].attempts + 1)];
      plan := plan.(status := PlanRunning);
      Publish();
      return true;
    }

    method ExecuteStep(i: nat, o: Outcome)
      requires Valid() && i < |steps|
      requires o.Previews? ==> su.Writes(i)
      modifies this`steps, this`plan, this`events, this`attempts, desk
      ensures Valid() && View() == Execute(su, old(View()), i, o)
    {
      if steps[i].status != Running {
        return;
      }
      attempts := attempts + [(i, steps[i].attempts)];
      match o
      case Finishes(partly) =>
        var run := desk.OpenRun(su.task, if partly then RunPartial else RunSuccess, {su.ToolOf(i)});
        steps := steps[i := steps[i].(run := Some(run), status := if partly then PartlyDone else Done)];
        Publish();
      case Previews =>
        var tool := su.ToolOf(i);
        var run := desk.OpenRun(su.task, RunRunning, {tool});
        var _ := desk.CreatePendingWrite(su.task, run, Proposal(Update, tool, true), true);
        steps := steps[i := steps[i].(status := Waiting, run := Some(run))];
        plan := plan.(status := PlanWaitingUser);
        Publish();
    }

    method FailStep(i: nat, retryable: bool)
      requires Valid() && i < |steps|
      modifies this`steps, this`plan, this`events, desk
      ensures Valid() && View() == Fail(su, old(View()), i, retryable)
    {
      if Accepted(steps[i].status) || steps[i].status == Waiting {
        return;
      }
      steps := steps[i := steps[i].(status := Failed, retryable := retryable)];
      if steps[i].run.Some? && steps[i].run.value < |desk.runs| && desk.runs[steps[i].run.value].status == RunRunning {
        desk.SetRun(steps[i].run.value, RunFailed);
      }
      Publish();
    }

    // ----- decide_pending_write -----

    method FindStep(run: nat) returns (r: Option<nat>)
      requires Valid()
      ensures r == StepOfRun(steps, run, 0)
    {
      var i := 0;
      while i < |steps|
        invariant 0 <= i <= |steps| && StepOfRun(steps, run, i) == StepOfRun(steps, run, 0)
      {
        if steps[i].run == Some(run) {
          return Some(i);
        }
        i := i + 1;
      }
      return None;
    }

    method DecidePendingWrite(user: nat, p: nat, choice: Choice, facts: CallFacts)
      returns (outcome: Result<(), DeskError>)
      requires Valid()
      modifies this`steps, this`plan, this`events, desk
      ensures Valid() && (View(), outcome) == Confirm(su, old(View()), user, p, choice, facts)
    {
      var step: Option<nat> := None;
      if p < |desk.pendings| {
        step := FindStep(desk.pendings[p].run);
      }
      outcome := desk.DecidePendingWrite(user, su.task, p, choice, step.Some?, facts);
      if outcome.Failure? || step.None? || steps[step.value].status != Waiting {
        return;
      }
      var i := step.value;
      steps := steps[i := steps[i].(status := if choice == Approve then Done else Skipped)];
      plan := plan.(status := PlanRunning);
      Publish();
    }

    // ----- cancel_plan, repair_stalled_plans -----

    method CancelPlan(caller: nat) returns (outcome: Result<(), DeskError>)
      requires Valid()
      modifies this`steps, this`plan, this`events, desk
      ensures Valid()
      ensures caller != su.owner ==> outcome == Failure(NotFound) && View() == old(View())
      ensures caller == su.owner ==> (View(), outcome) == Cancel(su, old(View()))
    {
      if caller != su.owner {
        return Failure(NotFound);
      }
      if TerminalPlan(plan.status) {
        if plan.status == PlanCancelled {
          return Success(());
        }
        return Failure(Conflict);
      }
      var skipped := CancelOpenSteps();
      plan := plan.(status := PlanCancelled, skipped := skipped);
      desk.SetTask(su.task, TaskCancelled);
      Publish();
      return Success(());
    }

    method CancelOpenSteps() returns (skipped: nat)
      requires Valid()
      modifies this`steps
      ensures Valid() && steps == CancelSteps(old(steps)) && skipped == Count(steps, IsSkipped)
    {
      ghost var was, goal := steps, CancelSteps(steps);
      var i := 0;
      while i < |steps|
        invariant 0 <= i <= |steps| == |was|
        invariant forall j :: 0 <= j < i ==> steps[j] == goal[j]
        invariant forall j :: i <= j < |steps| ==> steps[j] == was[j]
      {
        if Cancellable(steps[i].status) {
          steps := steps[i := steps[i].(status := Cancelled)];
        }
        i := i + 1;
      }
      assert steps == goal;
      skipped := Count(steps, IsSkipped);
    }

    /** Mark the busy steps among `stale`. */
    method MarkStale(stale: set<nat>) returns (touched: bool)
      requires Valid()
      modifies this`steps
      ensures Valid() && steps == StallSteps(old(steps), stale)
      ensures touched <==> exists i :: 0 <= i < |steps| && i in stale && Busy(old(steps)[i].status)
    {
      ghost var was, goal := steps, StallSteps(steps, stale);
      touched := false;
      var i := 0;
      while i < |steps|
        invariant 0 <= i <= |steps| == |was|
        invariant forall j :: 0 <= j < i ==> steps[j] == goal[j]
        invariant forall j :: i <= j < |steps| ==> steps[j] == was[j]
        invariant touched <==> exists j :: 0 <= j < i && j in stale && Busy(was[j].status)
      {
        if i in stale && Busy(steps[i].status) {
          steps := steps[i := steps[i].(status := Stalled, retryable := true)];
          touched := true;
        }
        i := i + 1;
      }
      assert steps == goal;
    }

    /** The watchdog's work on this plan; `stale` are the steps past the heartbeat timeout. */
    method RepairStalled(stale: set<nat>) returns (touched: bool)
      requires Valid()
      modifies this`steps, this`plan, this`events, desk
      ensures Valid() && View() == Repair(su, old(View()), stale)
    {
      touched := MarkStale(stale);
      if touched {
        plan := plan.(status := PlanStalled);
        desk.SetTask(su.task, TaskFailed);
        Publish();
      }
    }

    // ----- retry_failed_chain -----

    method CollectRoots() returns (roots: set<nat>)
      requires Valid()
      ensures roots == Roots(steps)
    {
      roots := {};
      var i := 0;
      while i < |steps|
        invariant 0 <= i <= |steps| && roots == set j | 0 <= j < i && RetryRoot(steps[j])
      {
        if RetryRoot(steps[i]) {
          roots := roots + {i};
        }
        i := i + 1;
      }
    }

    /** One sweep over the dependency rows: add every child of an affected parent. */
    method SweepRows(roots: set<nat>, before: set<nat>) returns (affected: set<nat>)
      requires Valid() && before <= Affected(su, roots)
      ensures before <= affected <= Affected(su, roots)
      ensures affected == before ==> ClosedUnder(rows, affected)
    {
      affected := before;
      var k := 0;
      while k < |rows|
        invariant 0 <= k <= |rows|
        invariant before <= affected <= Affected(su, roots)
        invariant affected == before ==> ClosedUnder(rows[..k], affected)
      {
        var (child, parent) := rows[k];
        if parent in affected && child !in affected {
          assert rows[k] in rows;
          AffectedIsClosure(su, roots, child);
          affected := affected + {child};
          assert child in affected && child !in before;
        }
        k := k + 1;
      }
      assert rows[..k] == rows;
    }

    /** Grow the set of affected steps along the dependency rows until nothing is added. */
    method GrowAffected(roots: set<nat>) returns (affected: set<nat>)
      requires Valid() && forall i :: i in roots ==> i < |su.parents|
      ensures affected == Affected(su, roots)
    {
      affected := roots;
      RootsAreAffected(su, roots);
      var changed := true;
      while changed
        invariant roots <= affected <= Affected(su, roots)
        invariant !changed ==> ClosedUnder(rows, affected)
        decreases Affected(su, roots) - affected, changed
      {
        var grown := SweepRows(roots, affected);
        changed := grown != affected;
        affected := grown;
      }
      ClosedCoversAffected(su, rows, roots, affected);
    }

    method ResetAffected(affected: set<nat>)
      requires Valid()
      modifies this`steps
      ensures Valid() && steps == ResetSteps(old(steps), affected)
    {
      ghost var was, goal := steps, ResetSteps(steps, affected);
      var i := 0;
      while i < |steps|
        invariant 0 <= i <= |steps| == |was|
        invariant forall j :: 0 <= j < i ==> steps[j] == goal[j]
        invariant forall j :: i <= j < |steps| ==> steps[j] == was[j]
      {
        if i in affected {
          steps := steps[i := steps[i].(status := Pending, retryable := false, run := None)];
        }
        i := i + 1;
      }
      assert steps == goal;
    }

    method RetryFailedChain(caller: nat) returns (outcome: Result<(), DeskError>)
      requires Valid()
      modifies this`steps, this`plan, this`events, desk
      ensures Valid()
      ensures caller != su.owner ==> outcome == Failure(NotFound) && View() == old(View())
      ensures caller == su.owner ==> View() == Retry(su, old(View()))
      ensures caller == su.owner ==> outcome == if MayRetry(old(View())) then Success(()) else Failure(Conflict)
    {
      if caller != su.owner {
        return Failure(NotFound);
      }
      RetrySucceedsIff(View());
      if !(plan.status == PlanFailed || plan.status == PlanPartial || plan.status == PlanStalled) {
        return Failure(Conflict);
      }
      var roots := CollectRoots();
      if roots == {} {
        return Failure(Conflict);
      }
      var affected := GrowAffected(roots);
      ResetAffected(affected);
      plan := Plan(PlanPending, plan.version, 0, 0, 0);
      desk.SetTask(su.task, TaskPending);
      Publish();
      return Success(());
    }

    // ----- the driving loop -----

    /** Run one claimed step to its verdict: execute it, or record that it raised. */
    method ExecuteClaimed(i: nat, ghost rank: seq<nat>, oracle: Oracle)
      requires Valid() && i < |steps| && su.Ranks(rank) && Sound(su, oracle)
      requires Inv(su, View())
      requires steps[i].status.Running?
      modifies this`steps, this`plan, this`events, this`attempts, desk
      ensures Valid() && Inv(su, View()) && KeepsAgreeing(su, rank, oracle, old(steps), steps)
      ensures steps == old(steps)[i := steps[i]] && Rests(steps[i].status)
      ensures steps[i].status.Waiting? ==> plan.status.PlanWaitingUser?
      ensures plan.status.PlanCancelled? ==> old(plan.status).PlanCancelled?
    {
      ghost var before := View();
      VerdictActs(su, rank, oracle, before, i);
      match oracle(i, ParentStatuses(su, steps, i))
      case Succeeds => ExecuteStep(i, Finishes(false));
      case PartlySucceeds => ExecuteStep(i, Finishes(true));
      case Raises(retryable) => FailStep(i, retryable);
      case NeedsApproval(_) => ExecuteStep(i, Previews);
    }

    method StartClaimed(i: nat, ghost rank: seq<nat>, oracle: Oracle)
      requires Valid() && i < |steps| && su.Ranks(rank)
      requires Inv(su, View())
      requires steps[i].status.Queued?
      modifies this`steps, this`plan, this`events
      ensures Valid() && Inv(su, View()) && KeepsAgreeing(su, rank, oracle, old(steps), steps)
      ensures steps == old(steps)[i := steps[i]] && steps[i].status.Running? && !plan.status.PlanCancelled?
    {
      StartAgrees(su, rank, oracle, View(), i);
      PerformKeeps(su, View(), Action.StartStep(i));
      var _ := StartStep(i);
    }

    /** The start itself raised, and the worker records the failure of its step. */
    method FailClaimed(i: nat, ghost rank: seq<nat>, oracle: Oracle)
      requires Valid() && i < |steps| && su.Ranks(rank)
      requires Inv(su, View())
      requires steps[i].status.Queued? && oracle(i, ParentStatuses(su, steps, i)).Raises?
      modifies this`steps, this`plan, this`events, desk
      ensures Valid() && Inv(su, View()) && KeepsAgreeing(su, rank, oracle, old(steps), steps)
      ensures steps == old(steps)[i := steps[i]] && steps[i].status.Failed?
      ensures plan.status == old(plan.status)
    {
      var retryable := oracle(i, ParentStatuses(su, steps, i)).retryable;
      FailingClaim(su, rank, oracle, View(), i, retryable);
      FailStep(i, retryable);
    }

    /** A worker starts its step, or the start raises and is recorded; `running` are the steps started then. */
    method StartOnce(ghost queued: seq<Step>, claimed: set<nat>, toStart: set<nat>, started: set<nat>, i: nat,
                     ghost rank: seq<nat>, oracle: Oracle)
      returns (running: set<nat>)
      requires Valid() && su.Ranks(rank)
      requires Inv(su, View())
      requires Working(queued, steps, claimed, toStart, started) && i in toStart
      modifies this`steps, this`plan, this`events, desk
      ensures Valid() && Inv(su, View()) && KeepsAgreeing(su, rank, oracle, old(steps), steps)
      ensures Working(queued, steps, claimed, toStart - {i}, running)
      ensures plan.status.PlanCancelled? ==> old(plan.status).PlanCancelled?
    {
      ghost var s := steps;
      var startRaises: bool := *;
      if startRaises && oracle(i, ParentStatuses(su, steps, i)).Raises? {
        FailClaimed(i, rank, oracle);
        FailingWorks(queued, s, claimed, toStart, started, i, steps[i]);
        running := started;
      } else {
        StartClaimed(i, rank, oracle);
        StartingWorks(queued, s, claimed, toStart, started, i, steps[i]);
        running := started + {i};
      }
    }

    /** One transaction of some worker: it starts its step, fails to, or takes a started one to its verdict. */
    method WorkOnce(ghost queued: seq<Step>, claimed: set<nat>, toStart: set<nat>, started: set<nat>,
                    ghost rank: seq<nat>, oracle: Oracle)
      returns (unstarted: set<nat>, running: set<nat>)
      requires Valid() && su.Ranks(rank) && Sound(su, oracle)
      requires Inv(su, View())
      requires Working(queued, steps, claimed, toStart, started) && (toStart != {} || started != {})
      modifies this`steps, this`plan, this`events, this`attempts, desk
      ensures Valid() && Inv(su, View()) && KeepsAgreeing(su, rank, oracle, old(steps), steps)
      ensures Working(queued, steps, claimed, unstarted, running)
      ensures |unstarted| < |toStart| || (unstarted == toStart && |running| < |started|)
      ensures plan.status.PlanCancelled? ==> old(plan.status).PlanCancelled?
    {
      var i: nat :| i in toStart || i in started;
      WorkerHas(queued, steps, claimed, toStart, started, i);
      if i in toStart {
        unstarted := toStart - {i};
        running := StartOnce(queued, claimed, toStart, started, i, rank, oracle);
      } else {
        ghost var s := steps;
        ExecuteClaimed(i, rank, oracle);
        RestingWorks(queued, s, claimed, toStart, started, i, steps[i]);
        unstarted, running := toStart, started - {i};
      }
    }

    /** Workers execute the claimed steps in any interleaving of their transactions. */
    method ExecuteReady(claimed: set<nat>, ghost rank: seq<nat>, oracle: Oracle)
      requires Valid() && su.Ranks(rank) && Sound(su, oracle)
      requires Inv(su, View())
      requires Working(steps, steps, claimed, claimed, {})
      modifies this`steps, this`plan, this`events, this`attempts, desk
      ensures Valid() && Inv(su, View()) && KeepsAgreeing(su, rank, oracle, old(steps), steps)
      ensures Working(old(steps), steps, claimed, {}, {})
      ensures plan.status.PlanCancelled? ==> old(plan.status).PlanCancelled?
    {
      var toStart := claimed;
      var started: set<nat> := {};
      while toStart != {} || started != {}
        invariant Valid() && Inv(su, View()) && KeepsAgreeing(su, rank, oracle, old(steps), steps)
        invariant Working(old(steps), steps, claimed, toStart, started)
        invariant plan.status.PlanCancelled? ==> old(plan.status).PlanCancelled?
        decreases |toStart|, |started|
      {
        toStart, started := WorkOnce(old(steps), claimed, toStart, started, rank, oracle);
      }
    }

    /** Drive the plan from a state without workers until it ends or waits for the user. Every round
        uses up a pending step, so `n` pending steps need at most `n + 1` dispatches; with the twelve steps
        a plan may have, the guard never stops the loop unless a step is stalled. */
    method RunAgentGraph(cap: nat, ghost rank: seq<nat>, oracle: Oracle) returns (status: PlanStatus, iterations: nat)
      requires Valid() && su.Ranks(rank) && Sound(su, oracle) && cap >= 1
      requires |su.parents| <= MAX_STEPS
      requires Inv(su, View())
      requires Idle(steps)
      modifies this`steps, this`plan, this`events, this`attempts, desk
      ensures Valid() && Inv(su, View()) && Idle(steps) && KeepsAgreeing(su, rank, oracle, old(steps), steps)
      ensures status == plan.status
      ensures AnyStalled(steps) <==> AnyStalled(old(steps))
      ensures !AnyStalled(steps) ==> Stops(status) && iterations <= Count(old(steps), IsPending) + 1 <= MAX_STEPS + 1
      ensures !Stops(status) ==> AnyStalled(steps) && iterations >= MAX_ITERATIONS
      ensures Agreeing(su, rank, oracle, old(steps)) ==> Settles(su, rank, oracle, View())
      ensures Advances(old(steps), steps)
      ensures plan.status.PlanCancelled? ==> old(plan.status).PlanCancelled?
      ensures plan.status.PlanWaitingUser? && !AnyStalled(steps) ==> desk.tasks[su.task].status.TaskWaiting?
    {
      iterations := 0;
      while true
        invariant Valid() && Inv(su, View()) && KeepsAgreeing(su, rank, oracle, old(steps), steps)
        invariant Idle(steps)
        invariant AnyStalled(steps) <==> AnyStalled(old(steps))
        invariant !AnyStalled(steps) ==> iterations + Count(steps, IsPending) <= Count(old(steps), IsPending)
        invariant Advances(old(steps), steps)
        invariant plan.status.PlanCancelled? ==> old(plan.status).PlanCancelled?
        decreases Count(steps, IsPending), if iterations < MAX_ITERATIONS then MAX_ITERATIONS - iterations else 0
      {
        ghost var before := steps;
        var executed := Round(cap, rank, oracle);
        iterations := iterations + 1;
        if !executed {
          status := plan.status;
          if Stops(status) || iterations >= MAX_ITERATIONS {
            if Agreeing(su, rank, oracle, steps) {
              StoppingSettles(su, rank, oracle, View());
            }
            return;
          }
        }
      }
    }

    /** The user answers one open confirmation as foretold, and the tool answers. */
    method AnswerOne(ghost rank: seq<nat>, oracle: Oracle)
      requires Valid() && su.Ranks(rank)
      requires Inv(su, View())
      requires AnyWaiting(steps) && desk.tasks[su.task].status.TaskWaiting?
      modifies this`steps, this`plan, this`events, desk
      ensures Valid() && Inv(su, View()) && KeepsAgreeing(su, rank, oracle, old(steps), steps)
      ensures plan.status.PlanRunning?
      ensures exists i :: 0 <= i < |steps| && old(steps)[i].status.Waiting? && Terminal(steps[i].status)
                          && steps == old(steps)[i := steps[i]]
    {
      ghost var before := View();
      var i :| 0 <= i < |steps| && steps[i].status.Waiting?;
      assert HasWrite(su, before, i);
      var p :| 0 <= p < |desk.pendings| && desk.pendings[p].task == su.task &&
               steps[i].run == Some(desk.pendings[p].run);
      var verdict := oracle(i, ParentStatuses(su, steps, i));
      var choice := if verdict.NeedsApproval? && verdict.approved then Approve else Reject;
      AnswerEffect(su, rank, oracle, before, i, p, choice);
      var _ := DecidePendingWrite(su.owner, p, choice, ANSWERING);
    }

    /** Nobody works on the plan, nothing is stalled, and the plan is not cancelled. */
    ghost predicate Steady()
      reads this, desk
    {
      Valid() && Inv(su, View()) && Idle(steps) && !AnyStalled(steps) && !plan.status.PlanCancelled?
    }

    /** One run of the driving loop on a steady plan. */
    method DriveOn(cap: nat, ghost rank: seq<nat>, oracle: Oracle) returns (waits: bool)
      requires su.Ranks(rank) && Sound(su, oracle) && cap >= 1 && |su.parents| <= MAX_STEPS
      requires Steady()
      modifies this`steps, this`plan, this`events, this`attempts, desk
      ensures Steady() && KeepsAgreeing(su, rank, oracle, old(steps), steps)
      ensures Count(steps, IsOpen) <= Count(old(steps), IsOpen)
      ensures waits ==> AnyWaiting(steps) && desk.tasks[su.task].status.TaskWaiting?
      ensures !waits ==> Finished(plan.status)
    {
      var status, _ := RunAgentGraph(cap, rank, oracle);
      CountShrinks(old(steps), steps, IsOpen);
      waits := status == PlanWaitingUser;
    }

    /** One answer, after which the plan is steady again and has one open step less. */
    method AnswerNext(ghost rank: seq<nat>, oracle: Oracle)
      requires su.Ranks(rank) && Steady()
      requires AnyWaiting(steps) && desk.tasks[su.task].status.TaskWaiting?
      modifies this`steps, this`plan, this`events, desk
      ensures Steady() && KeepsAgreeing(su, rank, oracle, old(steps), steps)
      ensures Count(steps, IsOpen) < Count(old(steps), IsOpen)
    {
      AnswerOne(rank, oracle);
      AnsweredEffect(old(steps), steps);
    }

    /** Drive the plan to its end, answering every confirmation as foretold. If nothing stalls and every tool
        answers, each plan ends, a reopened one too, after at most as many answers as it has open steps; and if what
        had ended before agreed with the evaluator, all of it does. */
    method DriveToEnd(cap: nat, ghost rank: seq<nat>, oracle: Oracle) returns (answers: nat)
      requires su.Ranks(rank) && Sound(su, oracle) && cap >= 1 && |su.parents| <= MAX_STEPS
      requires Steady()
      modifies this`steps, this`plan, this`events, this`attempts, desk
      ensures Steady() && KeepsAgreeing(su, rank, oracle, old(steps), steps)
      ensures Finished(plan.status) && AllTerminal(steps)
      ensures Agreeing(su, rank, oracle, old(steps)) ==> Settles(su, rank, oracle, View())
      ensures answers <= Count(old(steps), IsOpen) <= |su.parents|
    {
      answers := 0;
      var waits := DriveOn(cap, rank, oracle);
      while waits
        invariant Steady() && KeepsAgreeing(su, rank, oracle, old(steps), steps)
        invariant answers + Count(steps, IsOpen) <= Count(old(steps), IsOpen)
        invariant waits ==> AnyWaiting(steps) && desk.tasks[su.task].status.TaskWaiting?
        invariant !waits ==> Finished(plan.status)
        decreases Count(steps, IsOpen)
      {
        AnswerNext(rank, oracle);
        answers := answers + 1;
        waits := DriveOn(cap, rank, oracle);
      }
      if Agreeing(su, rank, oracle, steps) {
        StoppingSettles(su, rank, oracle, View());
      }
    }

    /** Dispatch once and execute what was claimed. */
    method Round(cap: nat, ghost rank: seq<nat>, oracle: Oracle) returns (executed: bool)
      requires Valid() && su.Ranks(rank) && Sound(su, oracle) && cap >= 1
      requires Inv(su, View()) && Idle(steps)
      modifies this`steps, this`plan, this`events, this`attempts, desk
      ensures Valid() && Inv(su, View()) && Idle(steps) && KeepsAgreeing(su, rank, oracle, old(steps), steps)
      ensures Progresses(old(steps), steps, plan.status, executed)
      ensures plan.status.PlanCancelled? ==> old(plan.status).PlanCancelled?
      ensures !executed && plan.status.PlanWaitingUser? ==> desk.tasks[su.task].status.TaskWaiting?
    {
      var claimed := Dispatch(cap, rank, oracle);
      executed := claimed != {};
      if executed {
        ghost var queued, dispatched := steps, plan.status;
        ExecuteReady(claimed, rank, oracle);
        RoundProgresses(old(steps), queued, steps, claimed, dispatched, plan.status);
      }
    }

    /** One coordinate pass of the driving loop, and the steps it claims. */
    method Dispatch(cap: nat, ghost rank: seq<nat>, oracle: Oracle) returns (claimed: set<nat>)
      requires Valid() && su.Ranks(rank) && cap >= 1
      requires Inv(su, View()) && Idle(steps)
      modifies this`steps, this`plan, this`events, desk
      ensures Valid() && Inv(su, View()) && KeepsAgreeing(su, rank, oracle, old(steps), steps)
      ensures Working(steps, steps, claimed, claimed, {})
      ensures Progresses(old(steps), steps, plan.status, claimed != {})
      ensures claimed == {} ==> Idle(steps)
      ensures plan.status.PlanCancelled? ==> old(plan.status).PlanCancelled?
      ensures plan.status.PlanWaitingUser? ==> desk.tasks[su.task].status.TaskWaiting?
    {
      DispatchLeaves(su, rank, oracle, View(), cap);
      var ready := CoordinatePlan(cap);
      claimed := set i | i in ready;
    }
  }

  /** Driving uses up a pending step whenever it worked, or neither stops nor meets a stalled step. */
  ghost predicate Progresses(before: seq<Step>, after: seq<Step>, status: PlanStatus, worked: bool) {
    && (AnyStalled(after) <==> AnyStalled(before))
    && Count(after, IsPending) <= Count(before, IsPending)
    && (worked || (!Stops(status) && !AnyStalled(after)) ==> Count(after, IsPending) < Count(before, IsPending))
    && Advances(before, after)
  }

  lemma RoundProgresses(before: seq<Step>, queued: seq<Step>, after: seq<Step>, claimed: set<nat>,
                        dispatched: PlanStatus, status: PlanStatus)
    requires Idle(before) && Progresses(before, queued, dispatched, true) && Working(queued, after, claimed, {}, {})
    ensures Progresses(before, after, status, true) && Idle(after)
  {
    RestedEffect(queued, after, claimed);
    forall i | 0 <= i < |before| && !before[i].status.Pending? ensures after[i] == before[i] {
      assert queued[i] == before[i] && i !in claimed;
    }
  }

  /** What one dispatch over an idle plan leaves. */
  lemma DispatchLeaves(su: Setup, rank: seq<nat>, oracle: Oracle, s: State, cap: nat)
    requires Inv(su, s) && su.Ranks(rank) && Idle(s.steps) && cap >= 1
    ensures var (t, ready) := Coordinate(su, s, cap);
            var claimed := set i | i in ready;
            && Inv(su, t) && KeepsAgreeing(su, rank, oracle, s.steps, t.steps)
            && Working(t.steps, t.steps, claimed, claimed, {})
            && Progresses(s.steps, t.steps, t.plan.status, claimed != {})
            && (claimed == {} ==> Idle(t.steps))
            && (t.plan.status.PlanCancelled? ==> s.plan.status.PlanCancelled?)
            && (t.plan.status.PlanWaitingUser? ==> t.desk.tasks[su.task].status.TaskWaiting?)
  {
    if Agreeing(su, rank, oracle, s.steps) {
      PassAgrees(su, rank, oracle, s, cap);
    }
    CoordinateKeeps(su, s, cap);
    DispatchEffect(su, rank, s, cap);
    DispatchStanding(su, s, cap);
    var (t, ready) := Coordinate(su, s, cap);
    ClaimsWork(t.steps, ready);
  }

  lemma {:induction false} ClaimsWork(steps: seq<Step>, ready: seq<nat>)
    requires forall k :: 0 <= k < |ready| ==> ready[k] < |steps| && steps[ready[k]].status.Queued?
    requires forall i :: 0 <= i < |steps| ==> (i in ready <==> Busy(steps[i].status))
    ensures var claimed := set i | i in ready;
            && Working(steps, steps, claimed, claimed, {})
            && (claimed == {} <==> ready == []) && (claimed == {} ==> Idle(steps))
  {
    var claimed := set i | i in ready;
    if ready != [] {
      assert ready[0] in claimed;
    }
    forall i | i in claimed ensures i < |steps| && steps[i].status.Queued? {
    }
  }

  /** The claimed steps are queued, running or at rest as `toStart` and `started` say; no other step is
      busy, and no other step has changed. */
  ghost predicate Working(before: seq<Step>, steps: seq<Step>, claimed: set<nat>, toStart: set<nat>,
                          started: set<nat>) {
    && |before| == |steps| && toStart !! started && toStart + started <= claimed
    && (forall i :: i in claimed ==> i < |steps|)
    && (forall i :: i in toStart ==> i < |steps| && steps[i].status.Queued?)
    && (forall i :: i in started ==> i < |steps| && steps[i].status.Running?)
    && (forall i :: 0 <= i < |steps| && i !in claimed ==> steps[i] == before[i] && !Busy(steps[i].status))
    && (forall i :: i in claimed && i !in toStart && i !in started ==> i < |steps| && Rests(steps[i].status))
    && (forall i :: i in claimed ==> i < |before| && before[i].status.Queued?)
  }

  lemma WorkerHas(before: seq<Step>, steps: seq<Step>, claimed: set<nat>, toStart: set<nat>, started: set<nat>, i: nat)
    requires Working(before, steps, claimed, toStart, started) && (i in toStart || i in started)
    ensures i < |steps|
    ensures i in toStart ==> steps[i].status.Queued?
    ensures i in started ==> steps[i].status.Running?
  {
  }

  lemma StartingWorks(before: seq<Step>, steps: seq<Step>, claimed: set<nat>, toStart: set<nat>, started: set<nat>,
                      i: nat, step: Step)
    requires Working(before, steps, claimed, toStart, started) && i in toStart && i < |steps| && step.status.Running?
    ensures Working(before, steps[i := step], claimed, toStart - {i}, started + {i})
  {
  }

  lemma RestingWorks(before: seq<Step>, steps: seq<Step>, claimed: set<nat>, toStart: set<nat>, started: set<nat>,
                     i: nat, step: Step)
    requires Working(before, steps, claimed, toStart, started) && i in started && i < |steps| && Rests(step.status)
    ensures Working(before, steps[i := step], claimed, toStart, started - {i})
  {
  }

  lemma FailingWorks(before: seq<Step>, steps: seq<Step>, claimed: set<nat>, toStart: set<nat>, started: set<nat>,
                     i: nat, step: Step)
    requires Working(before, steps, claimed, toStart, started) && i in toStart && i < |steps| && Rests(step.status)
    ensures Working(before, steps[i := step], claimed, toStart - {i}, started)
  {
  }

  /** When the workers are done nothing is busy, and pending and stalled steps are as they were. */
  lemma {:induction false} RestedEffect(before: seq<Step>, steps: seq<Step>, claimed: set<nat>)
    requires Working(before, steps, claimed, {}, {})
    ensures Idle(steps)
    ensures AnyStalled(steps) <==> AnyStalled(before)
    ensures Count(steps, IsPending) <= Count(before, IsPending)
  {
    CountShrinks(before, steps, IsPending);
    if AnyStalled(before) {
      var i :| 0 <= i < |before| && before[i].status.Stalled?;
      assert steps[i] == before[i];
    }
  }

  /** What has ended agrees with the evaluator afterwards if it did before. */
  ghost predicate KeepsAgreeing(su: Setup, rank: seq<nat>, oracle: Oracle, before: seq<Step>, after: seq<Step>)
    requires su.Ranks(rank)
  {
    Agreeing(su, rank, oracle, before) ==> Agreeing(su, rank, oracle, after)
  }

  lemma StartAgrees(su: Setup, rank: seq<nat>, oracle: Oracle, s: State, i: nat)
    requires su.Ranks(rank) && Inv(su, s) && i < |s.steps|
    ensures KeepsAgreeing(su, rank, oracle, s.steps, Start(s, i).steps)
  {
  }

  lemma FailAgrees(su: Setup, rank: seq<nat>, oracle: Oracle, s: State, i: nat, retryable: bool)
    requires su.Ranks(rank) && Inv(su, s) && i < |s.steps| && Busy(s.steps[i].status)
    requires oracle(i, ParentStatuses(su, s.steps, i)) == Raises(retryable)
    ensures KeepsAgreeing(su, rank, oracle, s.steps, Fail(su, s, i, retryable).steps)
  {
    if Agreeing(su, rank, oracle, s.steps) {
      ActionAgrees(su, rank, oracle, s, Action.FailStep(i, retryable));
    }
  }

  /** A claimed step whose start raised. */
  lemma FailingClaim(su: Setup, rank: seq<nat>, oracle: Oracle, s: State, i: nat, retryable: bool)
    requires su.Ranks(rank) && Inv(su, s) && i < |s.steps| && s.steps[i].status.Queued?
    requires oracle(i, ParentStatuses(su, s.steps, i)) == Raises(retryable)
    ensures var t := Fail(su, s, i, retryable);
            && Inv(su, t) && KeepsAgreeing(su, rank, oracle, s.steps, t.steps)
            && t.steps == s.steps[i := t.steps[i]] && t.steps[i].status.Failed? && t.plan.status == s.plan.status
  {
    FailAgrees(su, rank, oracle, s, i, retryable);
    FailKeeps(su, s, i, retryable);
  }

  /** Driving changes pending steps only: whatever else a step is, it stays. */
  ghost predicate Advances(before: seq<Step>, after: seq<Step>) {
    && |before| == |after|
    && forall i :: 0 <= i < |before| && !before[i].status.Pending? ==> after[i] == before[i]
  }

  predicate IsOpen(s: Status) { s.Pending? || s.Waiting? }

  /** How a driven plan stands when the loop stops. */
  ghost predicate Settles(su: Setup, rank: seq<nat>, oracle: Oracle, s: State)
    requires su.Ranks(rank)
  {
    && (Finished(s.plan.status) ==>
          && AllTerminal(s.steps) && |s.steps| == |su.parents|
          && forall i :: 0 <= i < |s.steps| ==> s.steps[i].status == Reference(su, rank, oracle, i))
    && (s.plan.status.PlanWaitingUser? ==> AnyWaiting(s.steps))
  }

  lemma StoppingSettles(su: Setup, rank: seq<nat>, oracle: Oracle, s: State)
    requires Inv(su, s) && su.Ranks(rank) && Agreeing(su, rank, oracle, s.steps)
    ensures Settles(su, rank, oracle, s)
  {
  }

  /** A preview is only ever made by a write tool. */
  ghost predicate Sound(su: Setup, oracle: Oracle) {
    forall i, inputs :: oracle(i, inputs).NeedsApproval? ==> su.Writes(i)
  }

  /** What a worker does when its step turns out as `v`. */
  function VerdictAction(i: nat, v: Verdict): Action {
    match v
    case Succeeds => Action.ExecuteStep(i, Finishes(false))
    case PartlySucceeds => Action.ExecuteStep(i, Finishes(true))
    case Raises(retryable) => Action.FailStep(i, retryable)
    case NeedsApproval(_) => Action.ExecuteStep(i, Previews)
  }

  lemma VerdictActs(su: Setup, rank: seq<nat>, oracle: Oracle, s: State, i: nat)
    requires Inv(su, s) && su.Ranks(rank) && Sound(su, oracle) && i < |s.steps| && s.steps[i].status.Running?
    ensures var a := VerdictAction(i, oracle(i, ParentStatuses(su, s.steps, i)));
            && Enabled(su, s, a)
            && var t := Perform(su, s, a);
               && Inv(su, t) && KeepsAgreeing(su, rank, oracle, s.steps, t.steps)
               && t.steps == s.steps[i := t.steps[i]] && Rests(t.steps[i].status)
               && (t.steps[i].status.Waiting? ==> t.plan.status.PlanWaitingUser?)
               && (t.plan.status.PlanCancelled? ==> s.plan.status.PlanCancelled?)
  {
    var a := VerdictAction(i, oracle(i, ParentStatuses(su, s.steps, i)));
    PerformKeeps(su, s, a);
    if Agreeing(su, rank, oracle, s.steps) {
      ActionAgrees(su, rank, oracle, s, a);
    }
    WorkerLeaves(su, s, a, i);
  }

  lemma WorkerLeaves(su: Setup, s: State, a: Action, i: nat)
    requires i < |s.steps| && s.steps[i].status.Running? && Enabled(su, s, a)
    requires (a.ExecuteStep? || a.FailStep?) && a.i == i
    ensures var t := Perform(su, s, a);
            && |t.steps| == |s.steps| && t.steps == s.steps[i := t.steps[i]] && Rests(t.steps[i].status)
            && (t.steps[i].status.Waiting? ==> t.plan.status.PlanWaitingUser?)
            && (t.plan.status.PlanCancelled? ==> s.plan.status.PlanCancelled?)
  {
  }

  /** What a worker leaves a step at. */
  predicate Rests(s: Status) { s.Done? || s.PartlyDone? || s.Failed? || s.Waiting? }

  const ANSWERING := CallFacts(true, true, true, true, true, true)

  /** Answering the open write of a waiting step as foretold ends that step as the evaluator says. */
  lemma AnswerEffect(su: Setup, rank: seq<nat>, oracle: Oracle, s: State, i: nat, p: nat, choice: Choice)
    requires su.Ranks(rank) && Inv(su, s)
    requires i < |s.steps| && s.steps[i].status.Waiting? && s.desk.tasks[su.task].status.TaskWaiting?
    requires Own(su, s.desk, p) && s.steps[i].run == Some(s.desk.pendings[p].run)
    requires var v := oracle(i, ParentStatuses(su, s.steps, i));
             choice == if v.NeedsApproval? && v.approved then Approve else Reject
    ensures var (t, outcome) := Confirm(su, s, su.owner, p, choice, ANSWERING);
            && outcome.Success? && Inv(su, t) && KeepsAgreeing(su, rank, oracle, s.steps, t.steps)
            && t.plan.status.PlanRunning?
            && t.steps == s.steps[i := s.steps[i].(status := if choice.Approve? then Done else Skipped)]
  {
    OwnWriteIsDecidable(su, s, i, p, ANSWERING);
    DecideKeeps(su, s, su.owner, p, choice, ANSWERING);
    if Agreeing(su, rank, oracle, s.steps) {
      assert StepOk(su, s.steps, i);
      AcceptedParentsDetermine(su, rank, oracle, s.steps, i);
      DecisionAgrees(su, rank, oracle, s, Action.DecideWrite(su.owner, p, choice, ANSWERING));
    }
  }

  lemma {:induction false} AnsweredEffect(before: seq<Step>, after: seq<Step>)
    requires Idle(before) && !AnyStalled(before)
    requires exists i :: 0 <= i < |after| <= |before| && before[i].status.Waiting? && Terminal(after[i].status)
                         && after == before[i := after[i]]
    ensures Idle(after) && !AnyStalled(after) && Count(after, IsOpen) < Count(before, IsOpen)
  {
    var i :| 0 <= i < |after| <= |before| && before[i].status.Waiting? && Terminal(after[i].status)
             && after == before[i := after[i]];
    CountShrinks(before, after, IsOpen);
  }

  /** The pass changed something iff it blocked or queued something. */
  lemma {:induction false} QueueingChanges(su: Setup, steps: seq<Step>, cap: nat)
    ensures var blocked := BlockPass(su, steps, 0);
            PassSteps(su, steps, cap) != steps <==> blocked != steps || Claimable(su, blocked, cap) != []
  {
    var blocked := BlockPass(su, steps, 0);
    QueueingShows(su, steps, cap);
    BlockPassEffect(su, steps, 0);
    if blocked != steps {
      var i :| 0 <= i < |steps| && blocked[i] != steps[i];
      assert blocked[i].status.Blocked?;
      assert PassSteps(su, steps, cap)[i] == blocked[i];
    } else if Claimable(su, blocked, cap) == [] {
      assert PassSteps(su, steps, cap) == steps;
    }
  }

  /** What a pass leaves, in terms of the steps after its first loop. */
  lemma {:induction false} PassSummary(su: Setup, steps: seq<Step>, cap: nat)
    ensures var blocked := BlockPass(su, steps, 0);
            var ready, after := Claimable(su, blocked, cap), PassSteps(su, steps, cap);
            && (forall k :: 0 <= k < |ready| ==> ready[k] < |blocked| && blocked[ready[k]].status.Pending?)
            && (AnyWaiting(after) <==> AnyWaiting(blocked))
            && (Count(after, Busy) > 0 <==> ready != [] || Count(blocked, Busy) > 0)
            && (after != steps <==> blocked != steps || ready != [])
  {
    var blocked := BlockPass(su, steps, 0);
    var ready := Claimable(su, blocked, cap);
    QueueingChanges(su, steps, cap);
    QueueingKeepsWaiting(blocked, ready);
    QueueingKeepsBusy(blocked, ready);
  }

  /** Queueing neither adds nor removes a waiting step. */
  lemma QueueingKeepsWaiting(steps: seq<Step>, ready: seq<nat>)
    requires forall k :: 0 <= k < |ready| ==> ready[k] < |steps| && steps[ready[k]].status.Pending?
    ensures AnyWaiting(Enqueue(steps, ready)) <==> AnyWaiting(steps)
  {
    var after := Enqueue(steps, ready);
    if AnyWaiting(steps) {
      var i :| 0 <= i < |steps| && steps[i].status.Waiting?;
      assert after[i].status.Waiting?;
    }
  }

  lemma {:induction false} CountPositive(steps: seq<Step>, f: Status -> bool, i: nat)
    requires i < |steps| && f(steps[i].status)
    ensures Count(steps, f) > 0
  {
  }

  /** Something is busy afterwards iff something was, or something was queued. */
  lemma {:induction false} QueueingKeepsBusy(steps: seq<Step>, ready: seq<nat>)
    requires forall k :: 0 <= k < |ready| ==> ready[k] < |steps|
    ensures Count(Enqueue(steps, ready), Busy) > 0 <==> ready != [] || Count(steps, Busy) > 0
  {
    var after := Enqueue(steps, ready);
    if ready != [] {
      CountPositive(after, Busy, ready[0]);
    } else {
      assert after == steps;
    }
  }

  // ----- the affected set -----

  ghost predicate ClosedUnder(rows: seq<Row>, affected: set<nat>) {
    forall k :: 0 <= k < |rows| && rows[k].1 in affected ==> rows[k].0 in affected
  }

  lemma RootsAreAffected(su: Setup, roots: set<nat>)
    requires su.Valid() && forall i :: i in roots ==> i < |su.parents|
    ensures roots <= Affected(su, roots)
  {
    forall i | i in roots ensures i in Affected(su, roots) {
      AffectedIsClosure(su, roots, i);
    }
  }

  lemma {:induction false} ClosedCoversPath(su: Setup, rows: seq<Row>, affected: set<nat>, path: seq<nat>)
    requires Path(su, path) && path[0] in affected && ClosedUnder(rows, affected)
    requires Lists(rows, su)
    ensures path[|path| - 1] in affected
    decreases |path|
  {
    if |path| > 1 {
      ClosedCoversPath(su, rows, affected, path[..|path| - 1]);
      var edge := (path[|path| - 1], path[|path| - 2]);
      assert edge in rows;
    }
  }

  lemma ClosedCoversAffected(su: Setup, rows: seq<Row>, roots: set<nat>, affected: set<nat>)
    requires roots <= affected <= Affected(su, roots) && ClosedUnder(rows, affected)
    requires Lists(rows, su)
    ensures affected == Affected(su, roots)
  {
    forall i | i in Affected(su, roots) ensures i in affected {
      var path :| Path(su, path) && path[0] in roots && path[|path| - 1] == i;
      ClosedCoversPath(su, rows, affected, path);
    }
  }

  // ----- one dispatch of the driving loop -----

  /** What one pass over an idle plan leads to: work is claimed, or the loop stops, or something was
      blocked, or something is stalled. */
  lemma DispatchEffect(su: Setup, rank: seq<nat>, s: State, cap: nat)
    requires Inv(su, s) && su.Ranks(rank) && Idle(s.steps) && cap >= 1
    ensures var (t, claimed) := Coordinate(su, s, cap);
            && |t.steps| == |s.steps|
            && (AnyStalled(t.steps) <==> AnyStalled(s.steps))
            && (forall k :: 0 <= k < |claimed| ==> claimed[k] < |t.steps| && t.steps[claimed[k]].status.Queued?)
            && (forall i :: 0 <= i < |t.steps| ==> (i in claimed <==> Busy(t.steps[i].status)))
            && Count(t.steps, IsPending) <= Count(s.steps, IsPending)
            && (claimed != [] || (!Stops(t.plan.status) && !AnyStalled(s.steps)) ==>
                  Count(t.steps, IsPending) < Count(s.steps, IsPending))
  {
    if !TerminalPlan(s.plan.status) {
      CoordinateClaims(su, s, cap);
      PassClassifies(su, s.steps, cap);
      PassUsesPending(su, s.steps, cap);
      QueueingShows(su, s.steps, cap);
      PassKeepsStalled(su, s.steps, cap);
      if !AnyStalled(s.steps) {
        OpenPlanProgresses(su, rank, s, cap);
      }
    }
  }

  lemma CoordinateAdvances(su: Setup, s: State, cap: nat)
    requires StepsOk(su, s.steps)
    ensures Advances(s.steps, Coordinate(su, s, cap).0.steps)
  {
    CoordinateSteps(su, s, cap);
    PassKeepsSteps(su, s.steps, cap);
  }

  lemma CoordinateNeverCancels(su: Setup, s: State, cap: nat)
    ensures Coordinate(su, s, cap).0.plan.status.PlanCancelled? ==> s.plan.status.PlanCancelled?
  {
  }

  lemma WaitingIsAnnounced(su: Setup, s: State, cap: nat)
    requires Inv(su, s) && AnyWaiting(s.steps)
    ensures var t := Coordinate(su, s, cap).0;
            su.task < |t.desk.tasks| && t.desk.tasks[su.task].status.TaskWaiting?
  {
    var i :| 0 <= i < |s.steps| && s.steps[i].status.Waiting?;
    PassAnnouncesWaiting(su, s, cap, i);
  }

  /** A pass advances the plan, never cancels it, and opens its task to decisions when it waits. */
  lemma DispatchStanding(su: Setup, s: State, cap: nat)
    requires Inv(su, s) && PlanOk(su, Coordinate(su, s, cap).0)
    ensures var t := Coordinate(su, s, cap).0;
            && Advances(s.steps, t.steps)
            && (t.plan.status.PlanCancelled? ==> s.plan.status.PlanCancelled?)
            && (t.plan.status.PlanWaitingUser? ==>
                su.task < |t.desk.tasks| && t.desk.tasks[su.task].status.TaskWaiting?)
  {
    CoordinateAdvances(su, s, cap);
    CoordinateNeverCancels(su, s, cap);
    if Coordinate(su, s, cap).0.plan.status.PlanWaitingUser? {
      CoordinateSteps(su, s, cap);
      PassKeepsWaiting(su, s.steps, cap);
      WaitingIsAnnounced(su, s, cap);
    }
  }

  lemma {:induction false} CoordinateClaims(su: Setup, s: State, cap: nat)
    requires StepsOk(su, s.steps) && Idle(s.steps) && !TerminalPlan(s.plan.status)
    ensures Coordinate(su, s, cap).0.steps == PassSteps(su, s.steps, cap)
    ensures Coordinate(su, s, cap).1 == Claimable(su, BlockPass(su, s.steps, 0), cap)
  {
    PassClassifies(su, s.steps, cap);
  }

  /** On an open idle plan with nothing stalled, a pass stops the loop or touches a step. */
  lemma OpenPlanProgresses(su: Setup, rank: seq<nat>, s: State, cap: nat)
    requires Inv(su, s) && su.Ranks(rank) && Idle(s.steps) && cap >= 1
    requires !TerminalPlan(s.plan.status) && !AnyStalled(s.steps)
    ensures Stops(Coordinate(su, s, cap).0.plan.status) || PassSteps(su, s.steps, cap) != s.steps
  {
    ConcludeStops(su, s, cap);
    PassKeepsWaiting(su, s.steps, cap);
    if !AnyWaiting(s.steps) {
      IdlePlanProgresses(su, rank, s.steps, cap);
    }
  }

  lemma PassKeepsStalled(su: Setup, steps: seq<Step>, cap: nat)
    requires StepsOk(su, steps)
    ensures AnyStalled(PassSteps(su, steps, cap)) <==> AnyStalled(steps)
  {
    var after := PassSteps(su, steps, cap);
    PassKeepsSteps(su, steps, cap);
    if AnyStalled(steps) {
      var i :| 0 <= i < |steps| && steps[i].status.Stalled?;
      assert after[i].status.Stalled?;
    }
  }

  /** On an idle plan the claimed steps are exactly the ones left busy. */
  lemma {:induction false} ClaimedAreBusy(su: Setup, steps: seq<Step>, cap: nat)
    requires StepsOk(su, steps) && Idle(steps)
    ensures var after, claimed := PassSteps(su, steps, cap), Claimable(su, BlockPass(su, steps, 0), cap);
            && (forall k :: 0 <= k < |claimed| ==> claimed[k] < |after| && after[claimed[k]].status.Queued?)
            && (forall i :: 0 <= i < |after| ==> (i in claimed <==> Busy(after[i].status)))
  {
    var blocked := BlockPass(su, steps, 0);
    BlockPassEffect(su, steps, 0);
    forall i | 0 <= i < |blocked| ensures !Busy(blocked[i].status) {
    }
  }

  lemma {:induction false} PassClassifies(su: Setup, steps: seq<Step>, cap: nat)
    requires StepsOk(su, steps) && Idle(steps)
    ensures var after, claimed := PassSteps(su, steps, cap), Claimable(su, BlockPass(su, steps, 0), cap);
            && (forall k :: 0 <= k < |claimed| ==> claimed[k] < |after| && after[claimed[k]].status.Queued?)
            && (forall i :: 0 <= i < |after| ==> (i in claimed <==> Busy(after[i].status)))
            && (claimed != [] ==> !AllTerminal(after))
            && (AllTerminal(after) ==> forall i :: 0 <= i < |after| ==> !Busy(after[i].status))
  {
    ClaimedAreBusy(su, steps, cap);
    var after, claimed := PassSteps(su, steps, cap), Claimable(su, BlockPass(su, steps, 0), cap);
    if claimed != [] {
      assert after[claimed[0]].status.Queued?;
    }
  }

  lemma ConcludeStops(su: Setup, s: State, cap: nat)
    requires !TerminalPlan(s.plan.status)
    ensures var t := Coordinate(su, s, cap).0;
            && t.steps == PassSteps(su, s.steps, cap)
            && (AllTerminal(t.steps) ==> Finished(t.plan.status))
            && (!AllTerminal(t.steps) && AnyWaiting(t.steps) ==> t.plan.status.PlanWaitingUser?)
  {
  }
}
