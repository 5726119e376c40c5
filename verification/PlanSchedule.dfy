/**
  Schedule independence: without cancellation, stalls and retries, every finished run of a plan ends
  with the step statuses of a recursive evaluator that knows nothing of passes, caps or positions.
*/
module PlanSchedule {
  import opened ApprovalDesk
  import opened PlanModel
  import opened PlanSafety
  import opened PlanRuns
  import opened PlanTheorems
  import opened PlanOutcomes

  /** What a step would do if it ran: the tool's result, or the user's answer to its preview. */
  datatype Verdict =
    | Succeeds
    | PartlySucceeds
    | Raises(retryable: bool)
    | NeedsApproval(approved: bool)

  /** A step's verdict may depend on the step and on how its parents ended. */
  type Oracle = (nat, map<nat, Status>) -> Verdict

  function Standing(v: Verdict): Status {
    match v
    case Succeeds => Done
    case PartlySucceeds => PartlyDone
    case Raises(_) => Failed
    case NeedsApproval(approved) => if approved then Done else Skipped
  }

  /** How a step ends once its parents have: blocked unless all are accepted, else as its verdict says. */
  ghost function EndFrom(oracle: Oracle, i: nat, inputs: map<nat, Status>): Status {
    if forall p :: p in inputs ==> Accepted(inputs[p]) then Standing(oracle(i, inputs)) else Blocked
  }

  /** The reference evaluator: it follows the graph and knows nothing of passes, caps or positions. */
  ghost function Reference(su: Setup, rank: seq<nat>, oracle: Oracle, i: nat): Status
    requires su.Ranks(rank) && i < |su.parents|
    decreases rank[i], 1
  {
    EndFrom(oracle, i, Inputs(su, rank, oracle, i))
  }

  ghost function Inputs(su: Setup, rank: seq<nat>, oracle: Oracle, i: nat): map<nat, Status>
    requires su.Ranks(rank) && i < |su.parents|
    decreases rank[i], 0
  {
    map p | p in su.parents[i] :: Reference(su, rank, oracle, p)
  }

  function ParentStatuses(su: Setup, steps: seq<Step>, i: nat): map<nat, Status>
    requires i < |su.parents|
  {
    map p | p in su.parents[i] && p < |steps| :: steps[p].status
  }

  /** `a` is the scheduler at work, or a step or a user acting as the oracle foretells. */
  ghost predicate Follows(su: Setup, oracle: Oracle, s: State, a: Action)
    requires Enabled(su, s, a) && |s.steps| == |su.parents|
  {
    match a
    case CoordinatePlan(_) => true
    case StartStep(_) => true
    case Republish => true
    case Elsewhere(_) => true
    case ExecuteStep(i, o) =>
      s.steps[i].status.Running? ==>
        (match oracle(i, ParentStatuses(su, s.steps, i))
         case Succeeds => o == Finishes(false)
         case PartlySucceeds => o == Finishes(true)
         case Raises(_) => false
         case NeedsApproval(_) => o == Previews)
    case FailStep(i, retryable) =>
      Busy(s.steps[i].status) && oracle(i, ParentStatuses(su, s.steps, i)) == Raises(retryable)
    case DecideWrite(user, p, choice, facts) =>
      Confirm(su, s, user, p, choice, facts).1.Success? && StepOfWrite(s, p).Some? ==>
        var v := oracle(StepOfWrite(s, p).value, ParentStatuses(su, s.steps, StepOfWrite(s, p).value));
        v.NeedsApproval? && v.approved == choice.Approve?
    case _ => false
  }

  /** What following the oracle excludes: cancelling, stalling and retrying, and a worker or an answer that does not do
      what the oracle foretells for the step and the way its parents ended. */
  lemma FollowsIff(su: Setup, oracle: Oracle, s: State, a: Action, i: nat)
    requires Enabled(su, s, a) && |s.steps| == |su.parents| && i < |s.steps|
    ensures var v := oracle(i, ParentStatuses(su, s.steps, i));
            && (a.CoordinatePlan? || a.StartStep? || a.Republish? || a.Elsewhere? ==> Follows(su, oracle, s, a))
            && (a.CancelPlan? || a.RepairStalled? || a.RetryChain? ==> !Follows(su, oracle, s, a))
            && (a.ExecuteStep? && a.i == i && s.steps[i].status != Running ==> Follows(su, oracle, s, a))
            && (a.ExecuteStep? && a.i == i && s.steps[i].status == Running ==>
                  (Follows(su, oracle, s, a) <==>
                     || (a.outcome == Finishes(false) && v == Succeeds)
                     || (a.outcome == Finishes(true) && v == PartlySucceeds)
                     || (a.outcome == Previews && v.NeedsApproval?)))
            && (a.FailStep? && a.i == i ==>
                  (Follows(su, oracle, s, a) <==>
                     s.steps[i].status in {Queued, Running} && v == Raises(a.retryable)))
            && (a.DecideWrite? && Confirm(su, s, a.user, a.pending, a.choice, a.facts).1.Failure? ==>
                  Follows(su, oracle, s, a))
            && (a.DecideWrite? && Confirm(su, s, a.user, a.pending, a.choice, a.facts).1.Success?
                && StepOfWrite(s, a.pending).Some? && StepOfWrite(s, a.pending).value == i ==>
                  (Follows(su, oracle, s, a) <==> v == NeedsApproval(a.choice == Approve)))
  {
  }

  ghost predicate FollowsThroughout(su: Setup, oracle: Oracle, states: seq<State>, acts: seq<Action>) {
    && IsRun(su, states, acts)
    && forall k :: 0 <= k < |acts| ==> |states[k].steps| == |su.parents| && Follows(su, oracle, states[k], acts[k])
  }

  /** Every step that has ended, ended as the evaluator says; and a step that waits, waits for an answer
      the oracle foretells. */
  ghost predicate Agreeing(su: Setup, rank: seq<nat>, oracle: Oracle, steps: seq<Step>)
    requires su.Ranks(rank)
  {
    && |steps| == |su.parents|
    && (forall i :: 0 <= i < |steps| && Terminal(steps[i].status) ==> steps[i].status == Reference(su, rank, oracle, i))
    && (forall i :: 0 <= i < |steps| && steps[i].status.Waiting? ==>
        oracle(i, Inputs(su, rank, oracle, i)).NeedsApproval?)
  }

  /** Accepted parents have ended, so their statuses are the evaluator's inputs. */
  lemma {:induction false} AcceptedParentsDetermine(su: Setup, rank: seq<nat>, oracle: Oracle, steps: seq<Step>, i: nat)
    requires su.Ranks(rank) && Agreeing(su, rank, oracle, steps) && i < |steps| && ParentsAccepted(su, steps, i)
    ensures Inputs(su, rank, oracle, i) == ParentStatuses(su, steps, i)
    ensures Reference(su, rank, oracle, i) == Standing(oracle(i, ParentStatuses(su, steps, i)))
  {
    assert Inputs(su, rank, oracle, i) == ParentStatuses(su, steps, i);
  }

  lemma {:induction false} UnusableParentBlocks(su: Setup, rank: seq<nat>, oracle: Oracle, steps: seq<Step>, i: nat)
    requires su.Ranks(rank) && Agreeing(su, rank, oracle, steps) && i < |steps| && HasUnusableParent(su, steps, i)
    ensures Reference(su, rank, oracle, i) == Blocked
  {
    var p :| p in su.parents[i] && p < |steps| && Unusable(steps[p].status);
    var inputs := Inputs(su, rank, oracle, i);
    assert p in inputs && !Accepted(inputs[p]);
  }

  lemma {:induction false} BlockPassAgrees(su: Setup, rank: seq<nat>, oracle: Oracle, steps: seq<Step>, i: nat)
    requires su.Ranks(rank) && Agreeing(su, rank, oracle, steps)
    ensures Agreeing(su, rank, oracle, BlockPass(su, steps, i))
    decreases |steps| - i
  {
    if i < |steps| {
      if steps[i].status.Pending? && HasUnusableParent(su, steps, i) {
        UnusableParentBlocks(su, rank, oracle, steps, i);
        BlockPassAgrees(su, rank, oracle, steps[i := steps[i].(status := Blocked)], i + 1);
      } else {
        BlockPassAgrees(su, rank, oracle, steps, i + 1);
      }
    }
  }

  lemma ExecutionAgrees(su: Setup, rank: seq<nat>, oracle: Oracle, s: State, a: Action)
    requires su.Ranks(rank) && Inv(su, s) && Agreeing(su, rank, oracle, s.steps)
    requires Enabled(su, s, a) && Follows(su, oracle, s, a) && (a.ExecuteStep? || a.FailStep?)
    ensures Agreeing(su, rank, oracle, Perform(su, s, a).steps)
  {
    var i := a.i;
    if Busy(s.steps[i].status) {
      assert StepOk(su, s.steps, i);
      AcceptedParentsDetermine(su, rank, oracle, s.steps, i);
    }
  }

  lemma DecisionAgrees(su: Setup, rank: seq<nat>, oracle: Oracle, s: State, a: Action)
    requires su.Ranks(rank) && Inv(su, s) && Agreeing(su, rank, oracle, s.steps)
    requires Enabled(su, s, a) && Follows(su, oracle, s, a) && a.DecideWrite?
    ensures Agreeing(su, rank, oracle, Perform(su, s, a).steps)
  {
    if Confirm(su, s, a.user, a.pending, a.choice, a.facts).1.Success? && StepOfWrite(s, a.pending).Some? {
      var i := StepOfWrite(s, a.pending).value;
      if s.steps[i].status.Waiting? {
        assert StepOk(su, s.steps, i);
        AcceptedParentsDetermine(su, rank, oracle, s.steps, i);
      }
    }
  }

  /** Queueing pending steps ends none. */
  lemma EnqueueAgrees(su: Setup, rank: seq<nat>, oracle: Oracle, steps: seq<Step>, ready: seq<nat>)
    requires su.Ranks(rank) && Agreeing(su, rank, oracle, steps)
    ensures Agreeing(su, rank, oracle, Enqueue(steps, ready))
  {
    var after := Enqueue(steps, ready);
    forall i | 0 <= i < |after| && (Terminal(after[i].status) || after[i].status.Waiting?)
      ensures after[i] == steps[i]
    {
    }
  }

  lemma PassAgrees(su: Setup, rank: seq<nat>, oracle: Oracle, s: State, cap: nat)
    requires su.Ranks(rank) && Agreeing(su, rank, oracle, s.steps)
    ensures Agreeing(su, rank, oracle, Coordinate(su, s, cap).0.steps)
  {
    var blocked := BlockPass(su, s.steps, 0);
    BlockPassAgrees(su, rank, oracle, s.steps, 0);
    EnqueueAgrees(su, rank, oracle, blocked, Claimable(su, blocked, cap));
    CoordinateSteps(su, s, cap);
  }

  lemma ActionAgrees(su: Setup, rank: seq<nat>, oracle: Oracle, s: State, a: Action)
    requires su.Ranks(rank) && Inv(su, s) && Agreeing(su, rank, oracle, s.steps)
    requires Enabled(su, s, a) && Follows(su, oracle, s, a)
    ensures Agreeing(su, rank, oracle, Perform(su, s, a).steps)
  {
    match a
    case CoordinatePlan(cap) => PassAgrees(su, rank, oracle, s, cap);
    case ExecuteStep(_, _) => ExecutionAgrees(su, rank, oracle, s, a);
    case FailStep(_, _) => ExecutionAgrees(su, rank, oracle, s, a);
    case DecideWrite(_, _, _, _) => DecisionAgrees(su, rank, oracle, s, a);
    case StartStep(_) =>
    case Republish =>
    case Elsewhere(_) =>
  }

  /** Every step of a history keeps ended steps at the evaluator's status. */
  ghost predicate StaysAgreeing(su: Setup, rank: seq<nat>, oracle: Oracle, states: seq<State>)
    requires su.Ranks(rank)
  {
    forall k :: 0 <= k < |states| - 1 && Agreeing(su, rank, oracle, states[k].steps) ==>
      Agreeing(su, rank, oracle, states[k + 1].steps)
  }

  lemma RunStaysAgreeing(su: Setup, rank: seq<nat>, oracle: Oracle, states: seq<State>, acts: seq<Action>)
    requires su.Ranks(rank) && FollowsThroughout(su, oracle, states, acts)
    ensures StaysAgreeing(su, rank, oracle, states) && Agreeing(su, rank, oracle, states[0].steps)
  {
    forall k | 0 <= k < |states| - 1 && Agreeing(su, rank, oracle, states[k].steps)
      ensures Agreeing(su, rank, oracle, states[k + 1].steps)
    {
      RunInv(su, states, acts, k);
      ActionAgrees(su, rank, oracle, states[k], acts[k]);
    }
  }

  lemma {:induction false} AgreesTo(su: Setup, rank: seq<nat>, oracle: Oracle, states: seq<State>, k: nat)
    requires su.Ranks(rank) && StaysAgreeing(su, rank, oracle, states) && k < |states|
    requires Agreeing(su, rank, oracle, states[0].steps)
    ensures Agreeing(su, rank, oracle, states[k].steps)
  {
    if k > 0 {
      AgreesTo(su, rank, oracle, states, k - 1);
      assert states[k] == states[k - 1 + 1];
    }
  }

  lemma RunAgrees(su: Setup, rank: seq<nat>, oracle: Oracle, states: seq<State>, acts: seq<Action>, k: nat)
    requires su.Ranks(rank) && FollowsThroughout(su, oracle, states, acts) && k < |states|
    ensures Agreeing(su, rank, oracle, states[k].steps)
  {
    RunStaysAgreeing(su, rank, oracle, states, acts);
    AgreesTo(su, rank, oracle, states, k);
  }

  /** In a finished plan every step has ended, so all of them agree. */
  lemma {:induction false} FinishedAgrees(su: Setup, rank: seq<nat>, oracle: Oracle, s: State)
    requires su.Ranks(rank) && Inv(su, s) && Agreeing(su, rank, oracle, s.steps) && Finished(s.plan.status)
    ensures Evaluated(su, rank, oracle, s.steps)
    ensures StandsByRows(s.plan.status, s.desk.tasks[su.task].status, s.steps)
  {
    FinishedRowsTell(su, s);
  }

  /** Every step has the evaluator's status. */
  ghost predicate Evaluated(su: Setup, rank: seq<nat>, oracle: Oracle, steps: seq<Step>)
    requires su.Ranks(rank)
  {
    && |steps| == |su.parents|
    && forall i :: 0 <= i < |steps| ==> steps[i].status == Reference(su, rank, oracle, i)
  }

  /** A finished run ends exactly as the evaluator says, whatever the caps and interleavings were; plan and task follow
      from the evaluator's statuses. */
  lemma {:induction false} ScheduleIndependence(su: Setup, rank: seq<nat>, oracle: Oracle, states: seq<State>,
                                                acts: seq<Action>)
    requires su.Ranks(rank) && FollowsThroughout(su, oracle, states, acts)
    requires Finished(states[|acts|].plan.status)
    ensures var last := states[|acts|];
            && |last.steps| == |su.parents| && su.task < |last.desk.tasks|
            && (forall i :: 0 <= i < |last.steps| ==> last.steps[i].status == Reference(su, rank, oracle, i))
            && var status, task := last.plan.status, last.desk.tasks[su.task].status;
               if forall i :: 0 <= i < |su.parents| ==> Good(Reference(su, rank, oracle, i))
               then status == PlanSuccess && task == TaskSuccess
               else if forall i :: 0 <= i < |su.parents| ==> Bad(Reference(su, rank, oracle, i))
               then status == PlanFailed && task == TaskFailed
               else status == PlanPartial && task == TaskPartial
  {
    var last := states[|acts|];
    RunAgrees(su, rank, oracle, states, acts, |acts|);
    RunInv(su, states, acts, |acts|);
    FinishedAgrees(su, rank, oracle, last);
    EvaluatedStands(su, rank, oracle, last.plan.status, last.desk.tasks[su.task].status, last.steps);
  }

  lemma {:induction false} EvaluatedStands(su: Setup, rank: seq<nat>, oracle: Oracle, status: PlanStatus,
                                           task: TaskStatus, steps: seq<Step>)
    requires su.Ranks(rank) && Evaluated(su, rank, oracle, steps) && StandsByRows(status, task, steps)
    ensures if forall i :: 0 <= i < |su.parents| ==> Good(Reference(su, rank, oracle, i))
            then status == PlanSuccess && task == TaskSuccess
            else if forall i :: 0 <= i < |su.parents| ==> Bad(Reference(su, rank, oracle, i))
            then status == PlanFailed && task == TaskFailed
            else status == PlanPartial && task == TaskPartial
  {
  }

  // ----- positions do not matter -----

  /** `to` is a permutation of its own indices. */
  ghost predicate Permutes(to: seq<nat>) {
    && (forall i :: 0 <= i < |to| ==> to[i] < |to|)
    && (forall i, j :: 0 <= i < |to| && 0 <= j < |to| && i != j ==> to[i] != to[j])
  }

  ghost function Image(to: seq<nat>, s: set<nat>): set<nat> {
    set i | i in s && i < |to| :: to[i]
  }

  /** `to` renumbers the steps of `su` into those of `tu`. */
  ghost predicate Renumbers(su: Setup, tu: Setup, to: seq<nat>) {
    && |to| == |su.parents| == |tu.parents| && Permutes(to)
    && forall i :: 0 <= i < |to| ==> tu.parents[to[i]] == Image(to, su.parents[i])
  }

  ghost function Renamed(to: seq<nat>, inputs: map<nat, Status>): map<nat, Status>
    requires Permutes(to)
  {
    map p | p in inputs && p < |to| :: to[p] := inputs[p]
  }

  /** The same work under new numbers. */
  ghost predicate SameOracle(to: seq<nat>, oracle: Oracle, renumbered: Oracle)
    requires Permutes(to)
  {
    forall i, inputs :: 0 <= i < |to| ==> renumbered(to[i], Renamed(to, inputs)) == oracle(i, inputs)
  }

  lemma {:induction false} PositionsDoNotMatter(su: Setup, tu: Setup, rank: seq<nat>, rankT: seq<nat>, to: seq<nat>,
                                               oracle: Oracle, renumbered: Oracle, i: nat)
    requires su.Ranks(rank) && tu.Ranks(rankT) && Renumbers(su, tu, to) && SameOracle(to, oracle, renumbered)
    requires i < |su.parents|
    ensures Reference(tu, rankT, renumbered, to[i]) == Reference(su, rank, oracle, i)
    decreases rank[i]
  {
    forall p | p in su.parents[i]
      ensures p < |to| && Reference(tu, rankT, renumbered, to[p]) == Reference(su, rank, oracle, p)
    {
      PositionsDoNotMatter(su, tu, rank, rankT, to, oracle, renumbered, p);
    }
    InputsAreRenamed(su, tu, rank, rankT, to, oracle, renumbered, i);
    EndsAlike(to, oracle, renumbered, i, Inputs(su, rank, oracle, i));
  }

  lemma {:induction false} InputsAreRenamed(su: Setup, tu: Setup, rank: seq<nat>, rankT: seq<nat>, to: seq<nat>,
                         oracle: Oracle, renumbered: Oracle, i: nat)
    requires su.Ranks(rank) && tu.Ranks(rankT) && Renumbers(su, tu, to) && i < |su.parents|
    requires forall p | p in su.parents[i] :: p < |to|
    requires forall p | p in su.parents[i] :: Reference(tu, rankT, renumbered, to[p]) == Reference(su, rank, oracle, p)
    ensures Inputs(tu, rankT, renumbered, to[i]) == Renamed(to, Inputs(su, rank, oracle, i))
  {
    var inputs := Inputs(su, rank, oracle, i);
    var outputs := Inputs(tu, rankT, renumbered, to[i]);
    forall p | p in inputs ensures p < |to| && to[p] in outputs && outputs[to[p]] == inputs[p] {
      assert to[p] in Image(to, su.parents[i]);
    }
    RenamedIs(to, inputs, outputs);
  }

  lemma RenamedKeys(to: seq<nat>, inputs: map<nat, Status>)
    requires Permutes(to) && forall p :: p in inputs ==> p < |to|
    ensures Renamed(to, inputs).Keys == Image(to, inputs.Keys)
  {
    forall q | q in Renamed(to, inputs) ensures q in Image(to, inputs.Keys) {
    }
    forall q | q in Image(to, inputs.Keys) ensures q in Renamed(to, inputs) {
    }
  }

  lemma RenamedIs(to: seq<nat>, inputs: map<nat, Status>, outputs: map<nat, Status>)
    requires Permutes(to) && outputs.Keys == Image(to, inputs.Keys)
    requires forall p :: p in inputs ==> p < |to| && to[p] in outputs && outputs[to[p]] == inputs[p]
    ensures outputs == Renamed(to, inputs)
  {
    RenamedKeys(to, inputs);
    forall q | q in outputs ensures q in Renamed(to, inputs) && Renamed(to, inputs)[q] == outputs[q] {
      var p :| p in inputs && p < |to| && to[p] == q;
      RenamedAt(to, inputs, p);
    }
    SameMap(outputs, Renamed(to, inputs));
  }

  lemma SameMap(a: map<nat, Status>, b: map<nat, Status>)
    requires a.Keys == b.Keys && forall q :: q in a ==> q in b && b[q] == a[q]
    ensures a == b
  {
  }

  lemma RenamedAt(to: seq<nat>, inputs: map<nat, Status>, p: nat)
    requires Permutes(to) && p in inputs && p < |to|
    ensures to[p] in Renamed(to, inputs) && Renamed(to, inputs)[to[p]] == inputs[p]
  {
  }

  lemma EndsAlike(to: seq<nat>, oracle: Oracle, renumbered: Oracle, i: nat, inputs: map<nat, Status>)
    requires Permutes(to) && SameOracle(to, oracle, renumbered) && i < |to|
    requires forall p :: p in inputs ==> p < |to|
    ensures EndFrom(renumbered, to[i], Renamed(to, inputs)) == EndFrom(oracle, i, inputs)
  {
    RenamedAcceptance(to, inputs);
  }

  lemma RenamedAcceptance(to: seq<nat>, inputs: map<nat, Status>)
    requires Permutes(to) && forall p :: p in inputs ==> p < |to|
    ensures (forall p :: p in inputs ==> Accepted(inputs[p])) <==>
            (forall q :: q in Renamed(to, inputs) ==> Accepted(Renamed(to, inputs)[q]))
  {
    var outputs := Renamed(to, inputs);
    forall p | p in inputs ensures to[p] in outputs && outputs[to[p]] == inputs[p] {
    }
  }

  /** Two finished runs of the same work, proposed in any two orders and scheduled in any two ways,
      give every step the same status and the plan the same status and counts. */
  lemma AnyTwoSchedulesAgree(su: Setup, tu: Setup, rank: seq<nat>, rankT: seq<nat>, to: seq<nat>,
                             oracle: Oracle, renumbered: Oracle,
                             states: seq<State>, acts: seq<Action>, statesT: seq<State>, actsT: seq<Action>)
    requires su.Ranks(rank) && tu.Ranks(rankT) && Renumbers(su, tu, to) && SameOracle(to, oracle, renumbered)
    requires FollowsThroughout(su, oracle, states, acts) && Finished(states[|acts|].plan.status)
    requires FollowsThroughout(tu, renumbered, statesT, actsT) && Finished(statesT[|actsT|].plan.status)
    ensures var last, lastT := states[|acts|], statesT[|actsT|];
            && |last.steps| == |lastT.steps| == |to|
            && (forall i :: 0 <= i < |to| ==> lastT.steps[to[i]].status == last.steps[i].status)
            && lastT.plan.status == last.plan.status
            && lastT.plan.completed == last.plan.completed
            && lastT.plan.failed == last.plan.failed
            && lastT.plan.skipped == last.plan.skipped
            && su.task < |last.desk.tasks| && tu.task < |lastT.desk.tasks|
            && lastT.desk.tasks[tu.task].status == last.desk.tasks[su.task].status
  {
    var last, lastT := states[|acts|], statesT[|actsT|];
    ScheduleIndependence(su, rank, oracle, states, acts);
    ScheduleIndependence(tu, rankT, renumbered, statesT, actsT);
    RunInv(su, states, acts, |acts|);
    RunInv(tu, statesT, actsT, |actsT|);
    forall i | 0 <= i < |to| ensures lastT.steps[to[i]].status == last.steps[i].status {
      PositionsDoNotMatter(su, tu, rank, rankT, to, oracle, renumbered, i);
    }
    RenumberedCount(last.steps, lastT.steps, to, Accepted);
    RenumberedCount(last.steps, lastT.steps, to, IsFailed);
    RenumberedCount(last.steps, lastT.steps, to, IsSkipped);
    FinishedTaskFollows(su, last);
    FinishedTaskFollows(tu, lastT);
  }

  lemma FinishedTaskFollows(su: Setup, s: State)
    requires Inv(su, s) && Finished(s.plan.status)
    ensures s.desk.tasks[su.task].status == if s.plan.status == PlanSuccess then TaskSuccess
                                            else if s.plan.status == PlanFailed then TaskFailed else TaskPartial
  {
    FinishedRowsTell(su, s);
  }

  lemma {:induction false} ImageSize(to: seq<nat>, s: set<nat>)
    requires Permutes(to) && forall i :: i in s ==> i < |to|
    ensures |Image(to, s)| == |s|
    decreases |s|
  {
    if s != {} {
      var x :| x in s;
      ImageSize(to, s - {x});
      assert Image(to, s) == Image(to, s - {x}) + {to[x]};
      assert to[x] !in Image(to, s - {x});
    } else {
      assert Image(to, s) == {};
    }
  }

  lemma {:induction false} Onto(to: seq<nat>, q: nat)
    requires Permutes(to)
    requires q < |to|
    ensures exists i :: 0 <= i < |to| && to[i] == q
  {
    var all := Below(|to|);
    ImageSize(to, all);
    if q !in Image(to, all) {
      SubsetSize(Image(to, all), all - {q});
    }
  }

  ghost function Below(n: nat): (r: set<nat>)
    ensures |r| == n
    ensures forall i: nat :: i in r <==> i < n
  {
    if n == 0 then {} else Below(n - 1) + {n - 1}
  }

  lemma RenumberedHaving(steps: seq<Step>, stepsT: seq<Step>, to: seq<nat>, f: Status -> bool)
    requires |steps| == |stepsT| == |to|
    requires Permutes(to)
    requires forall i :: 0 <= i < |to| ==> stepsT[to[i]].status == steps[i].status
    ensures Having(stepsT, f) == Image(to, Having(steps, f))
  {
    forall q | q in Having(stepsT, f) ensures q in Image(to, Having(steps, f)) {
      Onto(to, q);
      var i :| 0 <= i < |to| && to[i] == q;
      assert i in Having(steps, f);
    }
  }

  lemma {:induction false} RenumberedCount(steps: seq<Step>, stepsT: seq<Step>, to: seq<nat>, f: Status -> bool)
    requires |steps| == |stepsT| == |to|
    requires Permutes(to)
    requires forall i :: 0 <= i < |to| ==> stepsT[to[i]].status == steps[i].status
    ensures Count(stepsT, f) == Count(steps, f)
  {
    CountIsSize(steps, f);
    CountIsSize(stepsT, f);
    ImageSize(to, Having(steps, f));
    RenumberedHaving(steps, stepsT, to, f);
  }
}
