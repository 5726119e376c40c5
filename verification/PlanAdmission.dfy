/** From a proposal to a driven plan: what validation establishes is what the engine needs to progress. */
module PlanAdmission {
  import opened Results
  import opened ApprovalDesk
  import opened PlanModel
  import opened PlanSafety
  import opened PlanSchedule
  import opened PlanProgress
  import opened PlanGraph
  import opened PlanValidation
  import opened PlanFallback
  import opened PlanEngine

  lemma FreshPlanAgrees(su: Setup, rank: seq<nat>, oracle: Oracle, s: State)
    requires Initial(su, s) && su.Ranks(rank)
    ensures Inv(su, s) && Agreeing(su, rank, oracle, s.steps) && Idle(s.steps) && !AnyStalled(s.steps)
  {
  }

  /** What the engine finds when a plan is stored: a pending task of the owner without writes so far. */
  ghost predicate Fresh(desk: Desk, task: nat, owner: nat)
    reads desk
  {
    && task < |desk.tasks| && desk.tasks[task] == Task(owner, TaskPending)
    && Balanced(desk.View()) && ApprovalDesk.WellFormed(desk.View(), desk.box)
    && forall p :: 0 <= p < |desk.pendings| ==> desk.pendings[p].task != task
  }

  function SetupOf(plan: seq<StepProposal>, task: nat, owner: nat, box: Toolbox): Setup {
    Setup(ParentTable(plan), ToolTable(plan), task, owner, box)
  }

  /** Store a validated proposal. The depths the validator found rank the stored graph. */
  method Persist(plan: seq<StepProposal>, depths: map<string, nat>, owner: nat, task: nat, desk: Desk,
                 ghost oracle: Oracle)
    returns (engine: Engine, ghost rank: seq<nat>)
    requires Proper(plan) && PlanGraph.Closed(DependenciesOf(plan)) && DepthsOf(plan, depths)
    requires Fresh(desk, task, owner)
    ensures fresh(engine) && engine.desk == desk && engine.su == SetupOf(plan, task, owner, desk.box)
    ensures engine.su.Ranks(rank) && Initial(engine.su, engine.View())
    ensures engine.Steady() && Agreeing(engine.su, rank, oracle, engine.steps)
  {
    ClosedIff(plan);
    var rows := PersistRows(plan);
    var su := SetupOf(plan, task, owner, desk.box);
    AdmittedPlanIsRanked(plan, depths, su);
    rank := RankOf(plan, depths);
    engine := new Engine(su, rows, desk);
    FreshPlanAgrees(su, rank, oracle, engine.View());
  }

  /** What the engine may assume of the plan that is chosen. */
  ghost predicate SoundPlan(answer: Option<seq<StepProposal>>, seed: Seed, policy: Policy, task: nat, owner: nat,
                            box: Toolbox, oracle: Oracle)
  {
    seed.tool in policy.catalog ==> Sound(SetupOf(Chosen(answer, seed, policy), task, owner, box), oracle)
  }

  /** A plan is stored exactly when the request's tool is on offer and what the model proposed passes, or the
      fallback is of use. */
  ghost predicate Plans(answer: Option<seq<StepProposal>>, seed: Seed, policy: Policy) {
    seed.tool in policy.catalog && (Acceptable(Tried(answer, seed, policy), policy) || SeedFits(seed, policy))
  }

  /** Propose and store. A refusal changes nothing and says what the fallback lacks. */
  method ProposeAndStore(answer: Option<seq<StepProposal>>, seed: Seed, policy: Policy, owner: nat, task: nat,
                         desk: Desk, ghost oracle: Oracle)
    returns (r: Result<Engine, GraphError>, ghost rank: seq<nat>)
    requires answer.Some? ==> Proper(answer.value) && |answer.value| <= MAX_STEPS
    requires Fresh(desk, task, owner)
    ensures r.Success? <==> Plans(answer, seed, policy)
    ensures r.Success? ==>
              && fresh(r.value) && r.value.desk == desk && |r.value.su.parents| <= MAX_STEPS
              && r.value.su == SetupOf(Chosen(answer, seed, policy), task, owner, desk.box)
              && r.value.su.Ranks(rank) && r.value.Steady() && Agreeing(r.value.su, rank, oracle, r.value.steps)
    ensures r.Failure? ==> Refused(r.error, seed, policy)
  {
    rank := [];
    var verdict := ProposePlan(answer, seed, policy);
    if verdict.Failure? {
      return Failure(verdict.error), rank;
    }
    ChosenIsProper(answer, seed, policy);
    var engine;
    engine, rank := Persist(verdict.value.0, verdict.value.1, owner, task, desk, oracle);
    return Success(engine), rank;
  }

  ghost predicate Refused(error: GraphError, seed: Seed, policy: Policy) {
    if seed.tool in policy.catalog then Explains(error, SeedProposal(seed, policy), policy)
    else error == ToolUnavailable
  }

  /** Propose, store, and drive once. Whatever its order of proposal, the chosen plan gets to its end or to a
      confirmation; an ended plan has the statuses of the reference evaluator. */
  method ProposeAndRun(answer: Option<seq<StepProposal>>, seed: Seed, policy: Policy, owner: nat, task: nat, desk: Desk,
                       cap: nat, oracle: Oracle)
    returns (r: Result<Engine, GraphError>, ghost rank: seq<nat>)
    requires answer.Some? ==> Proper(answer.value) && |answer.value| <= MAX_STEPS
    requires cap >= 1 && Fresh(desk, task, owner) && SoundPlan(answer, seed, policy, task, owner, desk.box, oracle)
    modifies desk
    ensures r.Success? <==> Plans(answer, seed, policy)
    ensures r.Success? ==>
              && r.value.su == SetupOf(Chosen(answer, seed, policy), task, owner, desk.box)
              && r.value.su.Ranks(rank) && r.value.desk == desk && r.value.Valid()
              && Stops(r.value.plan.status) && Settles(r.value.su, rank, oracle, r.value.View())
    ensures r.Failure? ==> unchanged(desk) && Refused(r.error, seed, policy)
  {
    r, rank := ProposeAndStore(answer, seed, policy, owner, task, desk, oracle);
    if r.Success? {
      var _, _ := r.value.RunAgentGraph(cap, rank, oracle);
    }
  }

  /** The same with a user who answers every confirmation and tools that answer every approved write: each
      chosen plan ends, and ends as the evaluator says, in whatever order its steps were proposed. */
  method ProposeAndComplete(answer: Option<seq<StepProposal>>, seed: Seed, policy: Policy, owner: nat, task: nat,
                            desk: Desk, cap: nat, oracle: Oracle)
    returns (r: Result<Engine, GraphError>, ghost rank: seq<nat>)
    requires answer.Some? ==> Proper(answer.value) && |answer.value| <= MAX_STEPS
    requires cap >= 1 && Fresh(desk, task, owner) && SoundPlan(answer, seed, policy, task, owner, desk.box, oracle)
    modifies desk
    ensures r.Success? <==> Plans(answer, seed, policy)
    ensures r.Success? ==>
              && r.value.su == SetupOf(Chosen(answer, seed, policy), task, owner, desk.box)
              && r.value.su.Ranks(rank) && r.value.desk == desk && r.value.Valid() && Inv(r.value.su, r.value.View())
              && Finished(r.value.plan.status) && AllTerminal(r.value.steps)
              && |r.value.steps| == |r.value.su.parents|
              && forall i :: 0 <= i < |r.value.steps| ==>
                   r.value.steps[i].status == Reference(r.value.su, rank, oracle, i)
    ensures r.Failure? ==> unchanged(desk) && Refused(r.error, seed, policy)
  {
    r, rank := ProposeAndStore(answer, seed, policy, owner, task, desk, oracle);
    if r.Success? {
      var _ := r.value.DriveToEnd(cap, rank, oracle);
    }
  }
}
