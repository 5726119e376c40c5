/**
  The approved-write gate: write proposals, the user's single decision on each of them, and the
  checks a tool call passes before its handler runs.

  One transaction is one step. A raised exception rolls the database back, so a failed step leaves
  the desk as it was, except for `contacted`: an external (MCP) handler that was entered has reached
  its provider, and no rollback takes that back.
*/
module ApprovalDesk {
  import opened Results

  datatype TaskStatus = TaskPending | TaskRunning | TaskWaiting | TaskSuccess | TaskPartial | TaskFailed | TaskCancelled

  datatype RunStatus = RunPending | RunRunning | RunWaiting | RunSuccess | RunPartial | RunFailed | RunSkipped

  datatype Decision = Undecided | Approved | Rejected

  datatype Task = Task(owner: nat, status: TaskStatus)

  datatype Run = Run(task: nat, status: RunStatus, allowWrite: bool, tools: set<string>)

  datatype PendingWrite = PendingWrite(task: nat, run: nat, tool: string, decision: Decision)

  datatype ToolKind = ReadTool | WriteTool

  datatype Tool = Tool(kind: ToolKind, external: bool)

  type Toolbox = map<string, Tool>

  /** Rows are never deleted, so an id is an index. `performed` lists, by confirmation id, the write
      handler calls whose transaction committed. */
  datatype DeskState = DeskState(
    tasks: seq<Task>,
    runs: seq<Run>,
    pendings: seq<PendingWrite>,
    performed: seq<nat>,
    contacted: seq<nat>)

  /** What one call finds outside this model: the binding of a write to its tool in the task's scope, which
      other services rewrite, availability, MCP grant, schema checks, and the handler's result. */
  datatype CallFacts = CallFacts(
    bound: bool, available: bool, granted: bool, argumentsOk: bool, handlerOk: bool, outputOk: bool)

  /** An approved write finds its tool, and the tool answers. */
  predicate Answers(facts: CallFacts, tool: Tool) {
    && facts.bound && facts.available && facts.argumentsOk && facts.handlerOk
    && (tool.external ==> facts.granted && facts.outputOk)
  }

  datatype DeskError = NotFound | Conflict | Invalid | Unavailable | HandlerFailed

  datatype Operation = Query | Analyze | Create | Update | Delete | Publish | Rollback | UnknownOperation

  datatype Proposal = Proposal(operation: Operation, tool: string, targetsOk: bool)

  datatype Choice = Approve | Reject | UnknownChoice

  /** The checks a call passes before its handler runs; `None` means the handler is entered. */
  function Gate(d: DeskState, box: Toolbox, name: string, task: nat, run: Option<nat>, confirmation: Option<nat>,
                facts: CallFacts): (refusal: Option<DeskError>)
    ensures refusal.None? ==> name in box
    ensures refusal.None? && box[name].kind.WriteTool? ==>
              && run.Some? && run.value < |d.runs| && d.runs[run.value].allowWrite
              && confirmation.Some? && confirmation.value < |d.pendings|
              && d.pendings[confirmation.value].decision.Approved?
  {
    if name !in box then Some(Invalid)
    else if !facts.available then Some(Unavailable)
    else if box[name].kind.ReadTool? && !facts.argumentsOk then Some(Invalid)
    else if box[name].external && !facts.granted then Some(Conflict)
    else if box[name].kind.ReadTool? then None
    else if run.None? then Some(Conflict)
    else if run.value >= |d.runs| || d.runs[run.value].task != task then Some(Conflict)
    else if !d.runs[run.value].allowWrite || name !in d.runs[run.value].tools then Some(Conflict)
    else if confirmation.None? || confirmation.value >= |d.pendings| then Some(Conflict)
    else
      var pending := d.pendings[confirmation.value];
      if pending.task != task || pending.run != run.value || !pending.decision.Approved? then Some(Conflict)
      else if !facts.argumentsOk then Some(Invalid)
      else None
  }

  /** One tool call: the desk after it, and whether it raised. */
  function Invoked(d: DeskState, box: Toolbox, name: string, task: nat, run: Option<nat>, confirmation: Option<nat>,
                   facts: CallFacts): (DeskState, Result<(), DeskError>)
  {
    var refusal := Gate(d, box, name, task, run, confirmation, facts);
    if refusal.Some? then (d, Failure(refusal.value))
    else if box[name].kind.ReadTool? then
      (d, if facts.handlerOk && (box[name].external ==> facts.outputOk) then Success(()) else Failure(HandlerFailed))
    else
      var entered := if box[name].external then d.(contacted := d.contacted + [confirmation.value]) else d;
      if facts.handlerOk && (box[name].external ==> facts.outputOk)
      then (entered.(performed := d.performed + [confirmation.value]), Success(()))
      else (entered, Failure(HandlerFailed))
  }

  /** Why a proposal cannot be recorded, if it cannot. */
  function ProposalRefusal(box: Toolbox, proposal: Proposal, available: bool): Option<DeskError> {
    if proposal.operation in {Query, Analyze, UnknownOperation} then Some(Invalid)
    else if proposal.tool !in box then Some(Invalid)
    else if box[proposal.tool].kind.ReadTool? || !available then Some(Invalid)
    else if !proposal.targetsOk then Some(Invalid)
    else None
  }

  /** Record a proposal and put its task and run on hold. */
  function Proposed(d: DeskState, task: nat, run: nat, tool: string): DeskState
    requires task < |d.tasks| && run < |d.runs|
  {
    d.(pendings := d.pendings + [PendingWrite(task, run, tool, Undecided)],
       tasks := d.tasks[task := d.tasks[task].(status := TaskWaiting)],
       runs := d.runs[run := d.runs[run].(status := RunWaiting, allowWrite := false,
                                                   tools := d.runs[run].tools + {tool})])
  }

  /** Why a decision cannot be taken, if it cannot. */
  function DecisionRefusal(d: DeskState, user: nat, task: nat, p: nat, choice: Choice): Option<DeskError> {
    if choice.UnknownChoice? then Some(Invalid)
    else if task >= |d.tasks| || d.tasks[task].owner != user then Some(NotFound)
    else if p >= |d.pendings| || d.pendings[p].task != task then Some(NotFound)
    else if !d.pendings[p].decision.Undecided? || !d.tasks[task].status.TaskWaiting? then Some(Conflict)
    else
      var r := d.pendings[p].run;
      if r >= |d.runs| || d.runs[r].task != task || !d.runs[r].status.RunWaiting? then Some(Conflict)
      else None
  }

  /** The desk while an approved write runs: the only moment a run may write. */
  function Unlocked(d: DeskState, p: nat): DeskState
    requires p < |d.pendings| && d.pendings[p].run < |d.runs|
  {
    var r := d.pendings[p].run;
    d.(pendings := d.pendings[p := d.pendings[p].(decision := Approved)],
       runs := d.runs[r := d.runs[r].(allowWrite := true, status := RunRunning)])
  }

  /** The desk once a decision is complete: the run is closed again and the task moves on. */
  function Closed(d: DeskState, task: nat, p: nat, decision: Decision, collaborative: bool): DeskState
    requires task < |d.tasks| && p < |d.pendings| && d.pendings[p].run < |d.runs|
  {
    var r := d.pendings[p].run;
    d.(pendings := d.pendings[p := d.pendings[p].(decision := decision)],
       runs := d.runs[r := d.runs[r].(allowWrite := false, status := RunSuccess)],
       tasks := d.tasks[task := d.tasks[task].(status := if collaborative then TaskRunning else TaskSuccess)])
  }

  /** Decide a pending write; an approval runs the write in the same transaction. */
  function Decided(d: DeskState, box: Toolbox, user: nat, task: nat, p: nat, choice: Choice, collaborative: bool,
                   facts: CallFacts): (DeskState, Result<(), DeskError>)
  {
    var refusal := DecisionRefusal(d, user, task, p, choice);
    if refusal.Some? then (d, Failure(refusal.value))
    else if choice.Reject? then (Closed(d, task, p, Rejected, collaborative), Success(()))
    else if !facts.bound then (d, Failure(Conflict))
    else
      var pending := d.pendings[p];
      var (after, outcome) := Invoked(Unlocked(d, p), box, pending.tool, task, Some(pending.run), Some(p), facts);
      if outcome.Failure? then (d.(contacted := after.contacted), outcome)
      else (Closed(after, task, p, Approved, collaborative), outcome)
  }

  /** Every transaction that can touch the desk. Other services may set task and run statuses freely. */
  datatype DeskAction =
    | OpenTask(owner: nat)
    | OpenRun(task: nat, status: RunStatus, tools: set<string>)
    | SetTask(task: nat, taskStatus: TaskStatus)
    | SetRun(run: nat, runStatus: RunStatus)
    | Propose(task: nat, run: nat, proposal: Proposal, available: bool)
    | Decide(user: nat, task: nat, pending: nat, choice: Choice, collaborative: bool, facts: CallFacts)
    | Call(name: string, task: nat, caller: Option<nat>, confirmation: Option<nat>, facts: CallFacts)

  function Apply(d: DeskState, box: Toolbox, a: DeskAction): DeskState {
    match a
    case OpenTask(owner) => d.(tasks := d.tasks + [Task(owner, TaskPending)])
    case OpenRun(task, status, tools) =>
      if task < |d.tasks| then d.(runs := d.runs + [Run(task, status, false, tools)]) else d
    case SetTask(task, status) =>
      if task < |d.tasks| then d.(tasks := d.tasks[task := d.tasks[task].(status := status)]) else d
    case SetRun(run, status) =>
      if run < |d.runs| then d.(runs := d.runs[run := d.runs[run].(status := status)]) else d
    case Propose(task, run, proposal, available) =>
      if task < |d.tasks| && run < |d.runs| && ProposalRefusal(box, proposal, available).None?
      then Proposed(d, task, run, proposal.tool)
      else d
    case Decide(user, task, p, choice, collaborative, facts) =>
      Decided(d, box, user, task, p, choice, collaborative, facts).0
    case Call(name, task, caller, confirmation, facts) =>
      Invoked(d, box, name, task, caller, confirmation, facts).0
  }

  const EMPTY_DESK := DeskState([], [], [], [], [])

  function Replay(d: DeskState, box: Toolbox, acts: seq<DeskAction>): DeskState
    decreases |acts|
  {
    if acts == [] then d else Replay(Apply(d, box, acts[0]), box, acts[1..])
  }

  ghost predicate Distinct(s: seq<nat>) {
    forall i, j :: 0 <= i < j < |s| ==> s[i] != s[j]
  }

  /** Committed write calls and approvals are in one-to-one correspondence, and nothing is unlocked. */
  ghost predicate Balanced(d: DeskState) {
    && (forall r :: 0 <= r < |d.runs| ==> !d.runs[r].allowWrite)
    && Distinct(d.performed)
    && (forall p: nat :: p in d.performed <==> p < |d.pendings| && d.pendings[p].decision.Approved?)
  }

  /** Rows refer to existing rows, and only write tools are ever proposed. */
  ghost predicate WellFormed(d: DeskState, box: Toolbox) {
    && (forall p :: 0 <= p < |d.pendings| ==>
          && d.pendings[p].run < |d.runs| && d.pendings[p].task < |d.tasks|
          && d.pendings[p].tool in box && box[d.pendings[p].tool].kind.WriteTool?
          && d.pendings[p].tool in d.runs[d.pendings[p].run].tools)
  }

  /** Between decisions the gate refuses every write call, whoever makes it. */
  lemma WriteCallRefused(d: DeskState, box: Toolbox, name: string, task: nat, run: Option<nat>,
                         confirmation: Option<nat>,
                         facts: CallFacts)
    requires Balanced(d) && name in box && box[name].kind.WriteTool?
    ensures Invoked(d, box, name, task, run, confirmation, facts).0 == d
    ensures Invoked(d, box, name, task, run, confirmation, facts).1.Failure?
  {
    var refusal := Gate(d, box, name, task, run, confirmation, facts);
    assert refusal.Some?;
  }

  /** The call's run is the task's, may write and lists the tool, and its confirmation is the approved one of that task
      and run. */
  ghost predicate Covered(d: DeskState, name: string, task: nat, run: Option<nat>, confirmation: Option<nat>) {
    && run.Some? && run.value < |d.runs| && d.runs[run.value].task == task
    && d.runs[run.value].allowWrite && name in d.runs[run.value].tools
    && confirmation.Some? && confirmation.value < |d.pendings|
    && d.pendings[confirmation.value].task == task && d.pendings[confirmation.value].run == run.value
    && d.pendings[confirmation.value].decision == Approved
  }

  /** On any desk, a write call commits exactly when it is covered by an approval, and the tool is available, granted
      and answers. */
  lemma WriteCallCommitsIff(d: DeskState, box: Toolbox, name: string, task: nat, run: Option<nat>,
                            confirmation: Option<nat>, facts: CallFacts)
    requires name in box && box[name].kind == WriteTool
    ensures var (after, outcome) := Invoked(d, box, name, task, run, confirmation, facts);
            var external := box[name].external;
            var entered := Covered(d, name, task, run, confirmation) && facts.available && facts.argumentsOk
                           && (external ==> facts.granted);
            && (outcome.Success? <==> entered && facts.handlerOk && (external ==> facts.outputOk))
            && after == d.(performed := after.performed, contacted := after.contacted)
            && (outcome.Success? ==> after.performed == d.performed + [confirmation.value])
            && (outcome.Failure? ==> after.performed == d.performed)
            && (entered && external ==> after.contacted == d.contacted + [confirmation.value])
            && (!(entered && external) ==> after.contacted == d.contacted)
  {
  }

  /** A read call never changes the desk, and succeeds exactly when the tool is available, granted and answers. */
  lemma ReadCallSucceedsIff(d: DeskState, box: Toolbox, name: string, task: nat, run: Option<nat>,
                            confirmation: Option<nat>, facts: CallFacts)
    requires name in box && box[name].kind == ReadTool
    ensures var (after, outcome) := Invoked(d, box, name, task, run, confirmation, facts);
            && after == d
            && (outcome.Success? <==>
                  && facts.available && facts.argumentsOk && facts.handlerOk
                  && (box[name].external ==> facts.granted && facts.outputOk))
  {
  }

  /** Why a call fails, in the order of the checks: a read's arguments are looked at before the grant, a write's after
      its approval. */
  lemma CallFailsFor(d: DeskState, box: Toolbox, name: string, task: nat, run: Option<nat>, confirmation: Option<nat>,
                     facts: CallFacts)
    ensures var outcome := Invoked(d, box, name, task, run, confirmation, facts).1;
            && (name !in box ==> outcome == Failure(Invalid))
            && (name in box && !facts.available ==> outcome == Failure(Unavailable))
            && (name in box && facts.available ==>
                  var external := box[name].external;
                  var granted := external ==> facts.granted;
                  var answered := facts.handlerOk && (external ==> facts.outputOk);
                  if box[name].kind == ReadTool then
                    && (!facts.argumentsOk ==> outcome == Failure(Invalid))
                    && (facts.argumentsOk && !granted ==> outcome == Failure(Conflict))
                    && (facts.argumentsOk && granted && !answered ==> outcome == Failure(HandlerFailed))
                  else
                    var covered := granted && Covered(d, name, task, run, confirmation);
                    && (!covered ==> outcome == Failure(Conflict))
                    && (covered && !facts.argumentsOk ==> outcome == Failure(Invalid))
                    && (covered && facts.argumentsOk && !answered ==> outcome == Failure(HandlerFailed)))
  {
  }

  /** A proposal is recorded exactly when its operation writes, its tool is a known, available write tool, and its
      targets are accepted. The new write is undecided, its task waits, and its run waits, is locked and lists the tool;
      nothing else changes. */
  lemma ProposingTells(d: DeskState, box: Toolbox, task: nat, run: nat, proposal: Proposal, available: bool)
    requires task < |d.tasks| && run < |d.runs|
    ensures var recorded := && proposal.operation in {Create, Update, Delete, Publish, Rollback}
                            && proposal.tool in box && box[proposal.tool].kind == WriteTool
                            && available && proposal.targetsOk;
            var after := Apply(d, box, Propose(task, run, proposal, available));
            && (recorded <==> ProposalRefusal(box, proposal, available).None?)
            && (!recorded ==> ProposalRefusal(box, proposal, available) == Some(Invalid) && after == d)
            && (recorded ==>
                  && after.pendings == d.pendings + [PendingWrite(task, run, proposal.tool, Undecided)]
                  && after.tasks == d.tasks[task := Task(d.tasks[task].owner, TaskWaiting)]
                  && after.runs ==
                     d.runs[run := Run(d.runs[run].task, RunWaiting, false, d.runs[run].tools + {proposal.tool})]
                  && after.performed == d.performed && after.contacted == d.contacted)
  {
    match proposal.operation
    case Query => case Analyze => case UnknownOperation =>
    case Create => case Update => case Delete => case Publish => case Rollback =>
  }

  /** Inside an approval the gate itself never stands in the way: only the outside facts can. */
  lemma UnlockedGateOpens(d: DeskState, box: Toolbox, p: nat, facts: CallFacts)
    requires WellFormed(d, box) && p < |d.pendings|
    requires d.runs[d.pendings[p].run].task == d.pendings[p].task
    ensures var pending := d.pendings[p];
            Gate(Unlocked(d, p), box, pending.tool, pending.task, Some(pending.run), Some(p), facts).None? <==>
            facts.available && facts.argumentsOk && (box[pending.tool].external ==> facts.granted)
  {
  }

  /** An approval goes through exactly when the write is undecided, its task and run are waiting, the
      caller owns the task, and the tool answers; otherwise nothing is committed. */
  lemma ApprovalSucceedsIff(d: DeskState, box: Toolbox, user: nat, task: nat, p: nat, collaborative: bool,
                            facts: CallFacts)
    requires WellFormed(d, box)
    ensures var (after, outcome) := Decided(d, box, user, task, p, Approve, collaborative, facts);
            && (outcome.Success? <==>
                  && task < |d.tasks| && d.tasks[task].owner == user && d.tasks[task].status.TaskWaiting?
                  && p < |d.pendings| && d.pendings[p].task == task && d.pendings[p].decision.Undecided?
                  && d.runs[d.pendings[p].run].task == task && d.runs[d.pendings[p].run].status.RunWaiting?
                  && Answers(facts, box[d.pendings[p].tool]))
            && (outcome.Failure? ==> after == d.(contacted := after.contacted))
            && (outcome.Success? ==> after.performed == d.performed + [p] && after.pendings[p].decision.Approved?)
  {
    if DecisionRefusal(d, user, task, p, Approve).None? {
      UnlockedGateOpens(d, box, p, facts);
    }
  }

  /** A rejection goes through exactly when the caller owns the task, the task and the write's run wait, and the write
      is undecided; otherwise nothing changes. */
  lemma RejectionSucceedsIff(d: DeskState, box: Toolbox, user: nat, task: nat, p: nat, collaborative: bool,
                             facts: CallFacts)
    ensures var (after, outcome) := Decided(d, box, user, task, p, Reject, collaborative, facts);
            && (outcome.Success? <==>
                  && task < |d.tasks| && d.tasks[task].owner == user && d.tasks[task].status == TaskWaiting
                  && p < |d.pendings| && d.pendings[p].task == task && d.pendings[p].decision == Undecided
                  && d.pendings[p].run < |d.runs| && d.runs[d.pendings[p].run].task == task
                  && d.runs[d.pendings[p].run].status == RunWaiting)
            && (outcome.Failure? ==> after == d)
            && (outcome.Success? ==>
                  after.performed == d.performed && after.contacted == d.contacted
                  && after.pendings[p].decision == Rejected)
  {
  }

  /** A choice that is neither is refused. */
  lemma UnknownChoiceFails(d: DeskState, box: Toolbox, user: nat, task: nat, p: nat, collaborative: bool,
                           facts: CallFacts)
    ensures Decided(d, box, user, task, p, UnknownChoice, collaborative, facts) == (d, Failure(Invalid))
  {
  }

  /** Whoever does not own the task is told that it does not exist, and changes nothing. */
  lemma StrangerIsRefused(d: DeskState, box: Toolbox, user: nat, task: nat, p: nat, choice: Choice,
                          collaborative: bool, facts: CallFacts)
    requires choice != UnknownChoice && (task >= |d.tasks| || d.tasks[task].owner != user)
    ensures Decided(d, box, user, task, p, choice, collaborative, facts) == (d, Failure(NotFound))
  {
  }

  /** So is the owner about a write of another task, or one that does not exist. */
  lemma OnlyOwnWrites(d: DeskState, box: Toolbox, user: nat, task: nat, p: nat, choice: Choice, collaborative: bool,
                      facts: CallFacts)
    requires p >= |d.pendings| || d.pendings[p].task != task
    ensures Decided(d, box, user, task, p, choice, collaborative, facts) ==
            (d, Failure(if choice == UnknownChoice then Invalid else NotFound))
  {
  }

  /** A known write of the caller's task that is decided already, or whose task or run does not wait, is a conflict. */
  lemma ClosedWriteConflicts(d: DeskState, box: Toolbox, user: nat, task: nat, p: nat, choice: Choice,
                             collaborative: bool, facts: CallFacts)
    requires choice != UnknownChoice && task < |d.tasks| && d.tasks[task].owner == user
    requires p < |d.pendings| && d.pendings[p].task == task && d.pendings[p].run < |d.runs|
    requires || d.pendings[p].decision != Undecided || d.tasks[task].status != TaskWaiting
             || d.runs[d.pendings[p].run].task != task || d.runs[d.pendings[p].run].status != RunWaiting
    ensures Decided(d, box, user, task, p, choice, collaborative, facts) == (d, Failure(Conflict))
  {
  }

  /** An approval that goes through commits its write once, and has contacted the provider if the tool is external; a
      rejection does neither. */
  lemma CommittedBy(d: DeskState, box: Toolbox, user: nat, task: nat, p: nat, choice: Choice, collaborative: bool,
                    facts: CallFacts)
    requires WellFormed(d, box) && Decided(d, box, user, task, p, choice, collaborative, facts).1.Success?
    ensures p < |d.pendings| && (choice == Approve ==> d.pendings[p].tool in box)
    ensures var after := Decided(d, box, user, task, p, choice, collaborative, facts).0;
            && task < |d.tasks| && d.tasks[task].owner == user
            && after.performed == d.performed + (if choice == Approve then [p] else [])
            && after.contacted ==
               d.contacted + (if choice == Approve && box[d.pendings[p].tool].external then [p] else [])
  {
  }

  /** What an approval that does not go through is told once the write is open: that its tool is no longer bound, that
      it is not available or not granted, that the arguments do not fit, or that the handler failed. */
  lemma ApprovalFailsFor(d: DeskState, box: Toolbox, user: nat, task: nat, p: nat, collaborative: bool,
                         facts: CallFacts)
    requires WellFormed(d, box) && task < |d.tasks| && d.tasks[task] == Task(user, TaskWaiting)
    requires p < |d.pendings| && d.pendings[p].task == task && d.pendings[p].decision == Undecided
    requires d.runs[d.pendings[p].run].task == task && d.runs[d.pendings[p].run].status == RunWaiting
    ensures var (after, outcome) := Decided(d, box, user, task, p, Approve, collaborative, facts);
            var external := box[d.pendings[p].tool].external;
            && (!facts.bound ==> outcome == Failure(Conflict))
            && (facts.bound && !facts.available ==> outcome == Failure(Unavailable))
            && (facts.bound && facts.available && external && !facts.granted ==> outcome == Failure(Conflict))
            && (facts.bound && facts.available && (external ==> facts.granted) ==>
                  && (!facts.argumentsOk ==> outcome == Failure(Invalid))
                  && (facts.argumentsOk && (!facts.handlerOk || (external && !facts.outputOk)) ==>
                        outcome == Failure(HandlerFailed)))
            && after.contacted ==
               d.contacted + (if external && facts.bound && facts.available && facts.granted && facts.argumentsOk
                              then [p] else [])
  {
    UnlockedGateOpens(d, box, p, facts);
  }

  /** What a successful decision leaves behind, row by row. */
  lemma DecisionEffect(d: DeskState, box: Toolbox, user: nat, task: nat, p: nat, choice: Choice, collaborative: bool,
                       facts: CallFacts)
    requires WellFormed(d, box)
    requires Decided(d, box, user, task, p, choice, collaborative, facts).1.Success?
    ensures DecisionRefusal(d, user, task, p, choice).None?
    ensures task < |d.tasks| && d.tasks[task] == Task(user, TaskWaiting) && p < |d.pendings|
    ensures d.pendings[p].task == task && d.pendings[p].decision == Undecided && choice != UnknownChoice
    ensures var after := Decided(d, box, user, task, p, choice, collaborative, facts).0;
            var r := d.pendings[p].run;
            && after.pendings ==
               d.pendings[p := d.pendings[p].(decision := if choice.Approve? then Approved else Rejected)]
            && after.runs == d.runs[r := d.runs[r].(allowWrite := false, status := RunSuccess)]
            && after.tasks ==
               d.tasks[task := d.tasks[task].(status := if collaborative then TaskRunning else TaskSuccess)]
  {
    if choice.Approve? {
      var r := d.pendings[p].run;
      var row := d.runs[r].(allowWrite := false, status := RunSuccess);
      assert Unlocked(d, p).runs[r := row] == d.runs[r := row];
      var closed := d.pendings[p].(decision := Approved);
      assert Unlocked(d, p).pendings[p := closed] == d.pendings[p := closed];
    }
  }

  /** What one transaction does to decisions and committed writes. */
  ghost predicate Lawful(before: DeskState, after: DeskState, a: DeskAction) {
    && |before.pendings| <= |after.pendings|
    && (forall p :: 0 <= p < |before.pendings| && !before.pendings[p].decision.Undecided? ==>
          after.pendings[p].decision == before.pendings[p].decision)
    && (forall p :: |before.pendings| <= p < |after.pendings| ==> after.pendings[p].decision.Undecided?)
    && (forall p :: 0 <= p < |before.pendings| && after.pendings[p].decision != before.pendings[p].decision ==>
          a.Decide? && a.pending == p &&
          after.pendings[p].decision == if a.choice.Approve? then Approved else Rejected)
    && (after.performed == before.performed
        || (a.Decide? && a.choice.Approve? && after.performed == before.performed + [a.pending]
            && a.pending < |before.pendings| && before.pendings[a.pending].decision.Undecided?
            && after.pendings[a.pending].decision.Approved?))
  }

  /** A decided write joins the committed ones exactly when it was approved. */
  lemma DecidedRowsBalance(d: DeskState, box: Toolbox, after: DeskState, p: nat, decision: Decision)
    requires Balanced(d) && WellFormed(d, box) && p < |d.pendings| && d.pendings[p].decision.Undecided?
    requires !decision.Undecided?
    requires after.pendings == d.pendings[p := d.pendings[p].(decision := decision)]
    requires var r := d.pendings[p].run;
             after.runs == d.runs[r := d.runs[r].(allowWrite := false, status := RunSuccess)]
    requires |after.tasks| == |d.tasks|
    requires after.performed == if decision.Approved? then d.performed + [p] else d.performed
    ensures Balanced(after) && WellFormed(after, box)
  {
    assert p !in d.performed;
    forall q: nat ensures q in after.performed <==> q < |after.pendings| && after.pendings[q].decision.Approved? {
      assert q in after.performed <==> q in d.performed || (decision.Approved? && q == p);
    }
  }

  lemma DecideKeepsDesk(d: DeskState, box: Toolbox, a: DeskAction)
    requires a.Decide? && Balanced(d) && WellFormed(d, box)
    ensures var after := Apply(d, box, a); Balanced(after) && WellFormed(after, box) && Lawful(d, after, a)
  {
    var (after, outcome) := Decided(d, box, a.user, a.task, a.pending, a.choice, a.collaborative, a.facts);
    if a.choice.Approve? {
      ApprovalSucceedsIff(d, box, a.user, a.task, a.pending, a.collaborative, a.facts);
    }
    if outcome.Success? {
      DecisionEffect(d, box, a.user, a.task, a.pending, a.choice, a.collaborative, a.facts);
      DecidedRowsBalance(d, box, after, a.pending, if a.choice.Approve? then Approved else Rejected);
    }
  }

  lemma ActionKeepsDesk(d: DeskState, box: Toolbox, a: DeskAction)
    requires Balanced(d) && WellFormed(d, box)
    ensures var after := Apply(d, box, a); Balanced(after) && WellFormed(after, box) && Lawful(d, after, a)
  {
    match a
    case Decide(_, _, _, _, _, _) => DecideKeepsDesk(d, box, a);
    case Call(name, task, caller, confirmation, facts) =>
      if name in box && box[name].kind.WriteTool? {
        WriteCallRefused(d, box, name, task, caller, confirmation, facts);
      }
    case _ =>
  }

  lemma {:induction false} ReplayKeepsDesk(d: DeskState, box: Toolbox, acts: seq<DeskAction>)
    requires Balanced(d) && WellFormed(d, box)
    ensures var after := Replay(d, box, acts); Balanced(after) && WellFormed(after, box)
    ensures |d.pendings| <= |Replay(d, box, acts).pendings|
    ensures forall p :: 0 <= p < |d.pendings| && !d.pendings[p].decision.Undecided? ==>
              Replay(d, box, acts).pendings[p].decision == d.pendings[p].decision
    decreases |acts|
  {
    if acts != [] {
      ActionKeepsDesk(d, box, acts[0]);
      ReplayKeepsDesk(Apply(d, box, acts[0]), box, acts[1..]);
    }
  }

  /** Over every run from an empty desk: committed write calls are exactly the approved writes, each
      once, and no run is left able to write. */
  lemma {:induction false} ApprovedWritesConserved(box: Toolbox, acts: seq<DeskAction>)
    ensures Balanced(Replay(EMPTY_DESK, box, acts))
  {
    ReplayKeepsDesk(EMPTY_DESK, box, acts);
  }

  lemma {:induction false} ReplaySplits(d: DeskState, box: Toolbox, first: seq<DeskAction>, second: seq<DeskAction>)
    ensures Replay(d, box, first + second) == Replay(Replay(d, box, first), box, second)
    decreases |first|
  {
    if first == [] {
      assert first + second == second;
    } else {
      assert (first + second)[0] == first[0] && (first + second)[1..] == first[1..] + second;
      ReplaySplits(Apply(d, box, first[0]), box, first[1..], second);
    }
  }

  /** No write is decided twice: whatever happens after a decision, it stands, and a rejected write
      never has a committed call. */
  lemma {:induction false} DecisionsAreFinal(box: Toolbox, first: seq<DeskAction>, second: seq<DeskAction>, p: nat)
    requires var mid := Replay(EMPTY_DESK, box, first);
             p < |mid.pendings| && !mid.pendings[p].decision.Undecided?
    ensures var mid, last := Replay(EMPTY_DESK, box, first), Replay(EMPTY_DESK, box, first + second);
            && p < |last.pendings| && last.pendings[p].decision == mid.pendings[p].decision
            && (last.pendings[p].decision.Rejected? ==> p !in last.performed)
  {
    ReplaySplits(EMPTY_DESK, box, first, second);
    ReplayKeepsDesk(EMPTY_DESK, box, first);
    ReplayKeepsDesk(Replay(EMPTY_DESK, box, first), box, second);
  }

  /** The write is an undecided one of the caller's task, and the task and the write's run wait. */
  ghost predicate Decidable(d: DeskState, user: nat, task: nat, p: nat) {
    && task < |d.tasks| && d.tasks[task] == Task(user, TaskWaiting)
    && p < |d.pendings| && d.pendings[p].task == task && d.pendings[p].decision == Undecided
    && d.pendings[p].run < |d.runs|
    && d.runs[d.pendings[p].run].task == task && d.runs[d.pendings[p].run].status == RunWaiting
  }

  /** A provider is reached without a committed write exactly when an approval gets past the gate to
      an external tool and the handler or its output check then fails. */
  lemma ContactWithoutCommitIff(d: DeskState, box: Toolbox, a: DeskAction)
    requires Balanced(d) && WellFormed(d, box)
    ensures var after := Apply(d, box, a);
            (|after.contacted| > |d.contacted| && after.performed == d.performed) <==>
            (&& a.Decide? && a.choice.Approve? && Decidable(d, a.user, a.task, a.pending)
             && box[d.pendings[a.pending].tool].external
             && a.facts.bound && a.facts.available && a.facts.granted && a.facts.argumentsOk
             && !(a.facts.handlerOk && a.facts.outputOk))
  {
    match a
    case Decide(user, task, p, choice, collaborative, facts) =>
      if choice.Approve? && DecisionRefusal(d, user, task, p, choice).None? {
        UnlockedGateOpens(d, box, p, facts);
      }
    case Call(name, task, caller, confirmation, facts) =>
      if name in box && box[name].kind.WriteTool? {
        WriteCallRefused(d, box, name, task, caller, confirmation, facts);
      }
    case _ =>
  }

  /** So a write the user finally rejects may still have reached its provider: the first approval
      fails its output check and rolls back, and the write is open to a rejection again. */
  lemma RejectedWriteMayHaveReachedProvider()
    ensures exists box: Toolbox, acts ::
              var d := Replay(EMPTY_DESK, box, acts);
              |d.pendings| == 1 && d.pendings[0].decision.Rejected? && d.contacted == [0] && d.performed == []
  {
    var box: Toolbox := map["mcp.send" := Tool(WriteTool, true)];
    var proposal := Proposal(Update, "mcp.send", true);
    var good := CallFacts(true, true, true, true, true, true);
    var held := Apply(Apply(EMPTY_DESK, box, OpenTask(7)), box, OpenRun(0, RunRunning, {}));
    var propose := Propose(0, 0, proposal, true);
    var fail := Decide(7, 0, 0, Approve, false, good.(outputOk := false));
    var reject := Decide(7, 0, 0, Reject, false, good);
    var proposed := Apply(held, box, propose);
    assert proposed.pendings == [PendingWrite(0, 0, "mcp.send", Undecided)];
    var failed := Apply(proposed, box, fail);
    assert failed == proposed.(contacted := [0]);
    var rejected := Apply(failed, box, reject);
    var acts := [OpenTask(7), OpenRun(0, RunRunning, {}), propose, fail, reject];
    assert acts[1..] == [OpenRun(0, RunRunning, {}), propose, fail, reject];
    assert acts[1..][1..] == [propose, fail, reject];
    assert acts[1..][1..][1..] == [fail, reject];
    assert acts[1..][1..][1..][1..] == [reject];
    assert acts[1..][1..][1..][1..][1..] == [];
    assert Replay(rejected, box, []) == rejected;
    assert Replay(failed, box, [reject]) == rejected;
    assert Replay(proposed, box, [fail, reject]) == rejected;
    assert Replay(held, box, [propose, fail, reject]) == rejected;
    assert Replay(EMPTY_DESK, box, acts) == rejected;
  }

  /** The rows of one database, updated in place by the service functions. */
  class Desk {
    const box: Toolbox
    var tasks: seq<Task>
    var runs: seq<Run>
    var pendings: seq<PendingWrite>
    var performed: seq<nat>
    var contacted: seq<nat>

    constructor (box: Toolbox)
      ensures this.box == box && View() == EMPTY_DESK
    {
      this.box := box;
      tasks, runs, pendings, performed, contacted := [], [], [], [], [];
    }

    function View(): DeskState
      reads this
    {
      DeskState(tasks, runs, pendings, performed, contacted)
    }

    /** Restore the rows to `saved`, as a rollback does; contacts with providers remain. */
    method Rollback(saved: DeskState)
      modifies this
      ensures View() == saved.(contacted := old(contacted))
    {
      tasks, runs, pendings, performed := saved.tasks, saved.runs, saved.pendings, saved.performed;
    }

    method OpenTask(owner: nat) returns (task: nat)
      modifies this
      ensures View() == Apply(old(View()), box, DeskAction.OpenTask(owner)) && task == old(|tasks|)
    {
      task := |tasks|;
      tasks := tasks + [Task(owner, TaskPending)];
    }

    method OpenRun(task: nat, status: RunStatus, tools: set<string>) returns (run: nat)
      requires task < |tasks|
      modifies this
      ensures View() == Apply(old(View()), box, DeskAction.OpenRun(task, status, tools)) && run == old(|runs|)
    {
      run := |runs|;
      runs := runs + [Run(task, status, false, tools)];
    }

    method SetTask(task: nat, status: TaskStatus)
      requires task < |tasks|
      modifies this
      ensures View() == Apply(old(View()), box, DeskAction.SetTask(task, status))
    {
      tasks := tasks[task := tasks[task].(status := status)];
    }

    method SetRun(run: nat, status: RunStatus)
      requires run < |runs|
      modifies this
      ensures View() == Apply(old(View()), box, DeskAction.SetRun(run, status))
    {
      runs := runs[run := runs[run].(status := status)];
    }

    method CreatePendingWrite(task: nat, run: nat, proposal: Proposal, available: bool)
      returns (result: Result<nat, DeskError>)
      requires task < |tasks| && run < |runs|
      modifies this
      ensures View() == Apply(old(View()), box, Propose(task, run, proposal, available))
      ensures result == match ProposalRefusal(box, proposal, available)
                        case Some(error) => Failure(error)
                        case None => Success(old(|pendings|))
    {
      if proposal.operation == UnknownOperation || proposal.operation in {Query, Analyze} {
        return Failure(Invalid);
      }
      if proposal.tool !in box {
        return Failure(Invalid);
      }
      if box[proposal.tool].kind != WriteTool || !available {
        return Failure(Invalid);
      }
      if !proposal.targetsOk {
        return Failure(Invalid);
      }
      result := Success(|pendings|);
      pendings := pendings + [PendingWrite(task, run, proposal.tool, Undecided)];
      tasks := tasks[task := tasks[task].(status := TaskWaiting)];
      runs := runs[run := runs[run].(tools := runs[run].tools + {proposal.tool})];
      runs := runs[run := runs[run].(allowWrite := false, status := RunWaiting)];
    }

    /** The registry's `invoke`. */
    method Invoke(name: string, task: nat, run: Option<nat>, confirmation: Option<nat>, facts: CallFacts)
      returns (outcome: Result<(), DeskError>)
      modifies this
      ensures (View(), outcome) == Invoked(old(View()), box, name, task, run, confirmation, facts)
    {
      if name !in box {
        return Failure(Invalid);
      }
      var tool := box[name];
      if !facts.available {
        return Failure(Unavailable);
      }
      if tool.kind != WriteTool && !facts.argumentsOk {
        return Failure(Invalid);
      }
      if tool.external && !facts.granted {
        return Failure(Conflict);
      }
      if tool.kind == WriteTool {
        if run == None {
          return Failure(Conflict);
        }
        var r := run.value;
        if r >= |runs| || runs[r].task != task || !runs[r].allowWrite || name !in runs[r].tools {
          return Failure(Conflict);
        }
        if confirmation == None {
          return Failure(Conflict);
        }
        var p := confirmation.value;
        if p >= |pendings| || pendings[p].task != task || pendings[p].run != r || pendings[p].decision != Approved {
          return Failure(Conflict);
        }
        if !facts.argumentsOk {
          return Failure(Invalid);
        }
        if tool.external {
          contacted := contacted + [p];
        }
        if !facts.handlerOk {
          return Failure(HandlerFailed);
        }
        if tool.external && !facts.outputOk {
          return Failure(HandlerFailed);
        }
        performed := performed + [p];
        return Success(());
      }
      if !facts.handlerOk || (tool.external && !facts.outputOk) {
        return Failure(HandlerFailed);
      }
      return Success(());
    }

    method DecidePendingWrite(user: nat, task: nat, p: nat, choice: Choice, collaborative: bool, facts: CallFacts)
      returns (outcome: Result<(), DeskError>)
      modifies this
      ensures (View(), outcome) == Decided(old(View()), box, user, task, p, choice, collaborative, facts)
    {
      if choice == UnknownChoice {
        return Failure(Invalid);
      }
      if task >= |tasks| || tasks[task].owner != user {
        return Failure(NotFound);
      }
      if p >= |pendings| || pendings[p].task != task {
        return Failure(NotFound);
      }
      if pendings[p].decision != Undecided || tasks[task].status != TaskWaiting {
        return Failure(Conflict);
      }
      var r := pendings[p].run;
      if r >= |runs| || runs[r].task != task || runs[r].status != RunWaiting {
        return Failure(Conflict);
      }
      if choice == Reject {
        pendings := pendings[p := pendings[p].(decision := Rejected)];
        runs := runs[r := runs[r].(allowWrite := false, status := RunSuccess)];
        tasks := tasks[task := tasks[task].(status := if collaborative then TaskRunning else TaskSuccess)];
        return Success(());
      }
      if !facts.bound {
        return Failure(Conflict);
      }
      var saved := View();
      pendings := pendings[p := pendings[p].(decision := Approved)];
      runs := runs[r := runs[r].(allowWrite := true, status := RunRunning)];
      outcome := Invoke(pendings[p].tool, task, Some(r), Some(p), facts);
      if outcome.Failure? {
        Rollback(saved);
        return;
      }
      runs := runs[r := runs[r].(allowWrite := false, status := RunSuccess)];
      tasks := tasks[task := tasks[task].(status := if collaborative then TaskRunning else TaskSuccess)];
      assert Closed(Unlocked(saved, p), task, p, Approved, collaborative).pendings == pendings;
    }
  }
}
