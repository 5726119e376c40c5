/**
  The collaborative plan: its steps, its dependency graph and the transactions that change it, as
  functions on the whole stored state. `PlanEngine` implements them in place.

  Steps are numbered by position, which is proposal order and need not be topological.
*/
module PlanModel {
  import opened Results
  import opened ApprovalDesk

  datatype Status =
    | Pending | Queued | Running | Waiting
    | Done | PartlyDone | Failed | Blocked | Skipped | Stalled | Cancelled

  predicate Accepted(s: Status) { s.Done? || s.PartlyDone? }

  predicate Unusable(s: Status) { s.Failed? || s.Blocked? || s.Skipped? || s.Cancelled? }

  predicate Terminal(s: Status) { Accepted(s) || Unusable(s) }

  predicate Busy(s: Status) { s.Queued? || s.Running? }

  datatype PlanStatus =
    | PlanPending | PlanRunning | PlanWaitingUser
    | PlanSuccess | PlanPartial | PlanFailed | PlanStalled | PlanCancelled

  predicate Finished(s: PlanStatus) { s.PlanSuccess? || s.PlanPartial? || s.PlanFailed? }

  predicate TerminalPlan(s: PlanStatus) { Finished(s) || s.PlanCancelled? }

  datatype Step = Step(status: Status, attempts: nat, retryable: bool, run: Option<nat>)

  datatype Plan = Plan(status: PlanStatus, version: nat, completed: nat, failed: nat, skipped: nat)

  /** A published plan event: the plan and its steps as serialized at that moment. */
  datatype Snapshot = Snapshot(plan: Plan, steps: seq<Step>)

  /** `attempts` holds the (step, attempt number) keys of the committed attempt rows. */
  datatype State = State(
    steps: seq<Step>,
    plan: Plan,
    desk: DeskState,
    events: seq<Snapshot>,
    attempts: seq<(nat, nat)>)

  /** What never changes: the parents and the tool of each step, the plan's task, its owner and the tools
      there are. */
  datatype Setup = Setup(parents: seq<set<nat>>, tools: seq<string>, task: nat, owner: nat, box: Toolbox)
  {
    ghost predicate Valid() {
      && |parents| >= 1 && |tools| == |parents|
      && forall i, p :: 0 <= i < |parents| && p in parents[i] ==> p < |parents|
    }

    function ToolOf(i: nat): string {
      if i < |tools| then tools[i] else ""
    }

    /** The step's tool is a write tool, so running it can only preview a write. */
    predicate Writes(i: nat) {
      ToolOf(i) in box && box[ToolOf(i)].kind.WriteTool?
    }

    /** `rank` orders the graph: every parent ranks below its child. */
    ghost predicate Ranks(rank: seq<nat>) {
      && |rank| == |parents|
      && forall i | 0 <= i < |parents| :: forall p | p in parents[i] :: p < |parents| && rank[p] < rank[i]
    }

    ghost predicate Acyclic() {
      exists rank :: Ranks(rank)
    }
  }

  predicate ParentsAccepted(su: Setup, steps: seq<Step>, i: nat) {
    i < |su.parents| && forall p :: p in su.parents[i] ==> p < |steps| && Accepted(steps[p].status)
  }

  predicate HasUnusableParent(su: Setup, steps: seq<Step>, i: nat) {
    i < |su.parents| && exists p :: p in su.parents[i] && p < |steps| && Unusable(steps[p].status)
  }

  function Count(steps: seq<Step>, f: Status -> bool): (n: nat)
    ensures n <= |steps|
    ensures n == |steps| <==> forall i :: 0 <= i < |steps| ==> f(steps[i].status)
    ensures n == 0 <==> forall i :: 0 <= i < |steps| ==> !f(steps[i].status)
  {
    if steps == [] then 0
    else
      var rest := Count(steps[..|steps| - 1], f);
      rest + if f(steps[|steps| - 1].status) then 1 else 0
  }

  predicate AnyWaiting(steps: seq<Step>) {
    exists i :: 0 <= i < |steps| && steps[i].status.Waiting?
  }

  predicate AllTerminal(steps: seq<Step>) {
    forall i :: 0 <= i < |steps| ==> Terminal(steps[i].status)
  }

  /** A dependency row: (child, parent). */
  type Row = (nat, nat)

  /** `rows` lists exactly the dependency edges. */
  ghost predicate Lists(rows: seq<Row>, su: Setup) {
    forall c: nat, p: nat :: (c, p) in rows <==> c < |su.parents| && p in su.parents[c]
  }

  // ----- publishing -----

  function Published(s: State): State {
    var plan := s.plan.(version := s.plan.version + 1);
    s.(plan := plan, events := s.events + [Snapshot(plan, s.steps)])
  }

  /** The plan as it stands, announced again. */
  function Republished(s: State): State {
    s.(events := s.events + [Snapshot(s.plan, s.steps)])
  }

  function WithTask(su: Setup, desk: DeskState, status: TaskStatus): DeskState {
    Apply(desk, su.box, SetTask(su.task, status))
  }

  // ----- coordinate_plan -----

  /** One pass in position order: a pending step with an unusable parent becomes blocked, and later
      steps of the same pass see it. */
  function BlockPass(su: Setup, steps: seq<Step>, i: nat): (r: seq<Step>)
    ensures |r| == |steps|
    decreases |steps| - i
  {
    if i >= |steps| then steps
    else if steps[i].status.Pending? && HasUnusableParent(su, steps, i) then
      BlockPass(su, steps[i := steps[i].(status := Blocked)], i + 1)
    else BlockPass(su, steps, i + 1)
  }

  predicate Ready(su: Setup, steps: seq<Step>, i: nat) {
    i < |steps| && steps[i].status.Pending? && ParentsAccepted(su, steps, i)
  }

  /** The first `room` ready steps at or after position `i`. */
  function ReadyFrom(su: Setup, steps: seq<Step>, i: nat, room: nat): (r: seq<nat>)
    ensures |r| <= room
    ensures forall k :: 0 <= k < |r| ==> i <= r[k] && Ready(su, steps, r[k])
    decreases |steps| - i
  {
    if i >= |steps| || room == 0 then []
    else if Ready(su, steps, i) then [i] + ReadyFrom(su, steps, i + 1, room - 1)
    else ReadyFrom(su, steps, i + 1, room)
  }

  ghost predicate Increasing(r: seq<nat>) {
    forall j, k :: 0 <= j < k < |r| ==> r[j] < r[k]
  }

  ghost predicate AllBelow(r: seq<nat>, bound: nat) {
    forall k :: 0 <= k < |r| ==> r[k] < bound
  }

  /** `r` is in position order, and a ready step from `i` on is left out only when all the room went to earlier ones. */
  ghost predicate TakesFirst(su: Setup, steps: seq<Step>, i: nat, room: nat, r: seq<nat>) {
    && Increasing(r)
    && forall j :: i <= j && Ready(su, steps, j) && j !in r ==> |r| == room && AllBelow(r, j)
  }

  lemma {:induction false} TakeReady(su: Setup, steps: seq<Step>, i: nat, room: nat, rest: seq<nat>)
    requires room > 0 && TakesFirst(su, steps, i + 1, room - 1, rest) && forall k :: 0 <= k < |rest| ==> i < rest[k]
    ensures TakesFirst(su, steps, i, room, [i] + rest)
  {
    var r := [i] + rest;
    forall j | i <= j && Ready(su, steps, j) && j !in r ensures |r| == room && AllBelow(r, j) {
      assert r[0] == i && j != i;
      forall k | 0 <= k < |rest| ensures r[k + 1] == rest[k] && rest[k] in r {
      }
      assert j !in rest;
    }
  }

  lemma {:induction false} SkipUnready(su: Setup, steps: seq<Step>, i: nat, room: nat, rest: seq<nat>)
    requires !Ready(su, steps, i) && TakesFirst(su, steps, i + 1, room, rest)
    ensures TakesFirst(su, steps, i, room, rest)
  {
  }

  lemma {:induction false} ReadyFromTakesFirst(su: Setup, steps: seq<Step>, i: nat, room: nat)
    ensures TakesFirst(su, steps, i, room, ReadyFrom(su, steps, i, room))
    decreases |steps| - i
  {
    if i < |steps| && room > 0 {
      if Ready(su, steps, i) {
        ReadyFromTakesFirst(su, steps, i + 1, room - 1);
        TakeReady(su, steps, i, room, ReadyFrom(su, steps, i + 1, room - 1));
      } else {
        ReadyFromTakesFirst(su, steps, i + 1, room);
        SkipUnready(su, steps, i, room, ReadyFrom(su, steps, i + 1, room));
      }
    }
  }

  function Enqueue(steps: seq<Step>, ready: seq<nat>): (r: seq<Step>)
    ensures |r| == |steps|
  {
    seq(|steps|, i requires 0 <= i < |steps| => if i in ready then steps[i].(status := Queued) else steps[i])
  }

  function Room(cap: nat, busy: nat): nat {
    if cap > busy then cap - busy else 0
  }

  function Claimable(su: Setup, blocked: seq<Step>, cap: nat): seq<nat> {
    if AnyWaiting(blocked) then [] else ReadyFrom(su, blocked, 0, Room(cap, Count(blocked, Busy)))
  }

  function FinishStatus(steps: seq<Step>): PlanStatus {
    var completed := Count(steps, Accepted);
    if completed == |steps| then PlanSuccess else if completed > 0 then PlanPartial else PlanFailed
  }

  function TaskOf(status: PlanStatus): TaskStatus {
    if status.PlanSuccess? then TaskSuccess else if status.PlanPartial? then TaskPartial else TaskFailed
  }

  function IsFailed(s: Status): bool { s.Failed? }

  function IsSkipped(s: Status): bool { s.Blocked? || s.Skipped? || s.Cancelled? }

  function Tally(steps: seq<Step>, version: nat): Plan {
    Plan(FinishStatus(steps), version, Count(steps, Accepted), Count(steps, IsFailed), Count(steps, IsSkipped))
  }

  function Finish(su: Setup, s: State): State {
    Published(s.(plan := Tally(s.steps, s.plan.version), desk := WithTask(su, s.desk, TaskOf(FinishStatus(s.steps)))))
  }

  /** Plan and task status after a pass, before finishing is considered. */
  function Announce(su: Setup, s: State, anyReady: bool): State {
    if AnyWaiting(s.steps) then
      s.(plan := s.plan.(status := PlanWaitingUser), desk := WithTask(su, s.desk, TaskWaiting))
    else if anyReady || Count(s.steps, Busy) > 0 then
      s.(plan := s.plan.(status := PlanRunning), desk := WithTask(su, s.desk, TaskRunning))
    else s
  }

  /** The steps after a pass. */
  function PassSteps(su: Setup, steps: seq<Step>, cap: nat): (r: seq<Step>)
    ensures |r| == |steps|
  {
    var blocked := BlockPass(su, steps, 0);
    Enqueue(blocked, Claimable(su, blocked, cap))
  }

  /** The rest of the transaction, once the pass has produced `steps`. */
  function Conclude(su: Setup, s: State, steps: seq<Step>, anyReady: bool): State {
    var announced := Announce(su, s.(steps := steps), anyReady);
    if AllTerminal(steps) then Finish(su, announced)
    else if steps != s.steps then Published(announced)
    else announced
  }

  function Coordinate(su: Setup, s: State, cap: nat): (State, seq<nat>) {
    if TerminalPlan(s.plan.status) then (s, [])
    else
      var steps := PassSteps(su, s.steps, cap);
      var ready := Claimable(su, BlockPass(su, s.steps, 0), cap);
      (Conclude(su, s, steps, ready != []), if AllTerminal(steps) then [] else ready)
  }

  // ----- start_step, execute_step, fail_step -----

  function Start(s: State, i: nat): State
    requires i < |s.steps|
  {
    if !s.steps[i].status.Queued? then s
    else
      Published(s.(steps := s.steps[i := s.steps[i].(status := Running, attempts := s.steps[i].attempts + 1)],
                   plan := s.plan.(status := PlanRunning)))
  }

  /** How a transaction of `execute_step` can commit: with a result, or with a write preview. */
  datatype Outcome = Finishes(partly: bool) | Previews

  function Execute(su: Setup, s: State, i: nat, o: Outcome): State
    requires i < |s.steps| && su.task < |s.desk.tasks|
  {
    if !s.steps[i].status.Running? then s
    else
      var run := |s.desk.runs|;
      var logged := s.(attempts := s.attempts + [(i, s.steps[i].attempts)]);
      match o
      case Finishes(partly) =>
        var desk := Apply(s.desk, su.box, OpenRun(su.task, if partly then RunPartial else RunSuccess, {su.ToolOf(i)}));
        var step := s.steps[i].(status := if partly then PartlyDone else Done, run := Some(run));
        Published(logged.(steps := s.steps[i := step], desk := desk))
      case Previews =>
        var tool := su.ToolOf(i);
        var desk := Apply(s.desk, su.box, OpenRun(su.task, RunRunning, {tool}));
        var proposed := Apply(desk, su.box, Propose(su.task, run, Proposal(Update, tool, true), true));
        var step := s.steps[i].(status := Waiting, run := Some(run));
        Published(logged.(steps := s.steps[i := step], desk := proposed, plan := s.plan.(status := PlanWaitingUser)))
  }

  function Fail(su: Setup, s: State, i: nat, retryable: bool): State
    requires i < |s.steps|
  {
    var step := s.steps[i];
    if Accepted(step.status) || step.status.Waiting? then s
    else
      var desk := if step.run.Some? && step.run.value < |s.desk.runs| && s.desk.runs[step.run.value].status.RunRunning?
                  then Apply(s.desk, su.box, SetRun(step.run.value, RunFailed)) else s.desk;
      Published(s.(steps := s.steps[i := step.(status := Failed, retryable := retryable)], desk := desk))
  }

  // ----- decide_pending_write -----

  /** The step that executed as `run`, if there is one. */
  function StepOfRun(steps: seq<Step>, run: nat, i: nat): (r: Option<nat>)
    ensures r.Some? ==> i <= r.value < |steps| && steps[r.value].run == Some(run)
    ensures r.None? ==> forall j :: i <= j < |steps| ==> steps[j].run != Some(run)
    decreases |steps| - i
  {
    if i >= |steps| then None
    else if steps[i].run == Some(run) then Some(i)
    else StepOfRun(steps, run, i + 1)
  }

  /** The plan after a successful decision on the write of `step`. */
  function Resume(s: State, step: Option<nat>, choice: Choice): State
    requires step.Some? ==> step.value < |s.steps|
  {
    if step.None? || !s.steps[step.value].status.Waiting? then s
    else
      var i := step.value;
      var status := if choice.Approve? then Done else Skipped;
      Published(s.(steps := s.steps[i := s.steps[i].(status := status)], plan := s.plan.(status := PlanRunning)))
  }

  function StepOfWrite(s: State, p: nat): (r: Option<nat>)
    ensures r.Some? ==>
              r.value < |s.steps| && p < |s.desk.pendings| && s.steps[r.value].run == Some(s.desk.pendings[p].run)
  {
    if p < |s.desk.pendings| then StepOfRun(s.steps, s.desk.pendings[p].run, 0) else None
  }

  function Confirm(su: Setup, s: State, user: nat, p: nat, choice: Choice, facts: CallFacts)
    : (State, Result<(), DeskError>)
  {
    var step := StepOfWrite(s, p);
    var (desk, outcome) := Decided(s.desk, su.box, user, su.task, p, choice, step.Some?, facts);
    if outcome.Failure? then (s.(desk := desk), outcome)
    else (Resume(s.(desk := desk), step, choice), outcome)
  }

  // ----- cancel_plan -----

  predicate Cancellable(s: Status) { s.Pending? || s.Queued? || s.Waiting? }

  function CancelSteps(steps: seq<Step>): (r: seq<Step>)
    ensures |r| == |steps|
  {
    seq(|steps|, i requires 0 <= i < |steps| =>
      if Cancellable(steps[i].status) then steps[i].(status := Cancelled) else steps[i])
  }

  function Cancel(su: Setup, s: State): (State, Result<(), DeskError>) {
    if s.plan.status.PlanCancelled? then (s, Success(()))
    else if Finished(s.plan.status) then (s, Failure(Conflict))
    else
      var steps := CancelSteps(s.steps);
      var plan := s.plan.(status := PlanCancelled, skipped := Count(steps, IsSkipped));
      (Published(s.(steps := steps, plan := plan, desk := WithTask(su, s.desk, TaskCancelled))), Success(()))
  }

  // ----- repair_stalled_plans -----

  function StallSteps(steps: seq<Step>, stale: set<nat>): (r: seq<Step>)
    ensures |r| == |steps|
  {
    seq(|steps|, i requires 0 <= i < |steps| =>
      if i in stale && Busy(steps[i].status) then steps[i].(status := Stalled, retryable := true) else steps[i])
  }

  /** `stale` holds the steps whose last update is older than the heartbeat timeout. */
  function Repair(su: Setup, s: State, stale: set<nat>): State {
    if forall i :: 0 <= i < |s.steps| && i in stale ==> !Busy(s.steps[i].status) then s
    else
      Published(s.(steps := StallSteps(s.steps, stale), plan := s.plan.(status := PlanStalled),
                   desk := WithTask(su, s.desk, TaskFailed)))
  }

  // ----- retry_failed_chain -----

  predicate RetryRoot(step: Step) {
    (step.status.Failed? || step.status.Stalled?) && step.retryable && step.attempts < 2
  }

  function Roots(steps: seq<Step>): set<nat> {
    set i | 0 <= i < |steps| && RetryRoot(steps[i])
  }

  /** `path` follows dependency edges from parent to child. */
  ghost predicate Path(su: Setup, path: seq<nat>) {
    && |path| >= 1
    && (forall k :: 0 <= k < |path| ==> path[k] < |su.parents|)
    && (forall k :: 0 < k < |path| ==> path[k - 1] in su.parents[path[k]])
  }

  ghost predicate Descends(su: Setup, roots: set<nat>, i: nat) {
    exists path :: Path(su, path) && path[0] in roots && path[|path| - 1] == i
  }

  /** The roots and everything downstream of them. */
  ghost function Affected(su: Setup, roots: set<nat>): set<nat> {
    set i: nat | i < |su.parents| && Descends(su, roots, i)
  }

  function ResetStep(step: Step): Step {
    step.(status := Pending, retryable := false, run := None)
  }

  function ResetSteps(steps: seq<Step>, affected: set<nat>): (r: seq<Step>)
    ensures |r| == |steps|
  {
    seq(|steps|, i requires 0 <= i < |steps| => if i in affected then ResetStep(steps[i]) else steps[i])
  }

  predicate Retryable(s: State) {
    (s.plan.status.PlanFailed? || s.plan.status.PlanPartial? || s.plan.status.PlanStalled?) && Roots(s.steps) != {}
  }

  ghost function Retry(su: Setup, s: State): State {
    if !Retryable(s) then s
    else
      Published(s.(steps := ResetSteps(s.steps, Affected(su, Roots(s.steps))),
                   plan := Plan(PlanPending, s.plan.version, 0, 0, 0),
                   desk := WithTask(su, s.desk, TaskPending)))
  }

  // ----- runs -----

  datatype Action =
    | CoordinatePlan(cap: nat)
    | StartStep(i: nat)
    | ExecuteStep(i: nat, outcome: Outcome)
    | FailStep(i: nat, retryable: bool)
    | DecideWrite(user: nat, pending: nat, choice: Choice, facts: CallFacts)
    | CancelPlan
    | RepairStalled(stale: set<nat>)
    | RetryChain
    | Republish
    | Elsewhere(act: DeskAction)

  /** Other tasks share the desk: they act on their own tasks, runs and writes only. A conversation turn
      that fails marks the plan's own task as failed while it is pending or running. */
  predicate Foreign(su: Setup, d: DeskState, a: DeskAction) {
    match a
    case OpenTask(_) => true
    case OpenRun(task, _, _) => task != su.task
    case SetTask(task, status) =>
      task == su.task && task < |d.tasks| ==>
        status.TaskFailed? && (d.tasks[task].status.TaskPending? || d.tasks[task].status.TaskRunning?)
    case SetRun(run, _) => run < |d.runs| ==> d.runs[run].task != su.task
    case Propose(task, run, _, _) => task != su.task && (run < |d.runs| ==> d.runs[run].task == task)
    case Decide(_, task, _, _, _, _) => task != su.task
    case Call(_, _, _, _, _) => true
  }

  /** A worker reports a failure only for the step it claimed. A preview is made by a write tool. */
  predicate Enabled(su: Setup, s: State, a: Action) {
    su.task < |s.desk.tasks| &&
    match a
    case StartStep(i) => i < |s.steps|
    case ExecuteStep(i, o) => i < |s.steps| && (o.Previews? ==> su.Writes(i))
    case FailStep(i, _) => i < |s.steps| && (Busy(s.steps[i].status) || s.steps[i].status.Stalled?)
    case Elsewhere(act) => Foreign(su, s.desk, act)
    case _ => true
  }

  ghost function Perform(su: Setup, s: State, a: Action): State
    requires Enabled(su, s, a)
  {
    match a
    case CoordinatePlan(cap) => Coordinate(su, s, cap).0
    case StartStep(i) => Start(s, i)
    case ExecuteStep(i, o) => Execute(su, s, i, o)
    case FailStep(i, retryable) => Fail(su, s, i, retryable)
    case DecideWrite(user, p, choice, facts) => Confirm(su, s, user, p, choice, facts).0
    case CancelPlan => Cancel(su, s).0
    case RepairStalled(stale) => Repair(su, s, stale)
    case RetryChain => Retry(su, s)
    case Republish => Republished(s)
    case Elsewhere(act) => s.(desk := Apply(s.desk, su.box, act))
  }

  const FRESH_STEP := Step(Pending, 0, false, None)
  const FRESH_PLAN := Plan(PlanPending, 1, 0, 0, 0)

  /** A plan just persisted and announced: every step pending, its task pending, nothing executed. */
  ghost predicate Initial(su: Setup, s: State) {
    && su.Valid()
    && s.steps == seq(|su.parents|, _ => FRESH_STEP)
    && s.plan == FRESH_PLAN
    && s.events == [Snapshot(FRESH_PLAN, s.steps)]
    && s.attempts == []
    && su.task < |s.desk.tasks| && s.desk.tasks[su.task] == Task(su.owner, TaskPending)
    && Balanced(s.desk) && ApprovalDesk.WellFormed(s.desk, su.box)
    && forall p :: 0 <= p < |s.desk.pendings| ==> s.desk.pendings[p].task != su.task
  }

  /** `states` is a run of the plan from creation, one transaction per step of the sequence. */
  ghost predicate IsRun(su: Setup, states: seq<State>, acts: seq<Action>) {
    && |states| == |acts| + 1
    && Initial(su, states[0])
    && forall k :: 0 <= k < |acts| ==>
         && Enabled(su, states[k], acts[k])
         && states[k + 1] == Perform(su, states[k], acts[k])
  }
}
