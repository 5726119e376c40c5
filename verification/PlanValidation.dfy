/** What a proposed plan must pass before it is stored: scope flow, size, graph and tools, in this order. */
module PlanValidation {
  import opened Results
  import opened ApprovalDesk
  import opened PlanGraph

  /** A tool a user may plan with; `accepts` is its schema. */
  datatype Capability = Capability(kind: ToolKind, available: bool, accepts: Arguments -> bool)

  type Catalog = map<string, Capability>

  predicate ChangesData(operation: StepOperation) {
    !operation.ToQuery? && !operation.ToAnalyze?
  }

  /** What is wrong between a step and its tool; the first finding counts. */
  function ToolFault(catalog: Catalog, step: StepProposal): Option<GraphError> {
    if step.tool !in catalog || !catalog[step.tool].available then Some(ToolUnavailable)
    else if catalog[step.tool].kind.WriteTool? != ChangesData(step.operation) then Some(ToolMismatch)
    else if catalog[step.tool].kind.WriteTool? != step.confirms then Some(ConfirmationMismatch)
    else if !(step.tool == EXTRACT && step.fromDependency) && !catalog[step.tool].accepts(step.arguments)
    then Some(ArgumentsInvalid)
    else None
  }

  function FirstToolFault(catalog: Catalog, steps: seq<StepProposal>, i: nat): (fault: Option<GraphError>)
    ensures fault.None? <==> forall j :: i <= j < |steps| ==> ToolFault(catalog, steps[j]).None?
    decreases |steps| - i
  {
    if i >= |steps| then None
    else if ToolFault(catalog, steps[i]).Some? then ToolFault(catalog, steps[i])
    else FirstToolFault(catalog, steps, i + 1)
  }

  /** A step and its tool agree: the tool is on offer, writes exactly if the operation does, is confirmed exactly if it
      writes, and takes the arguments, unless an analysis takes its input from its parents. */
  ghost predicate Fits(catalog: Catalog, step: StepProposal) {
    && step.tool in catalog && catalog[step.tool].available
    && (catalog[step.tool].kind == WriteTool <==>
          step.operation in {ToCreate, ToUpdate, ToDelete, ToPublish, ToRollback, ToAffectOutside})
    && (catalog[step.tool].kind == WriteTool <==> step.confirms)
    && (catalog[step.tool].accepts(step.arguments) || (step.tool == EXTRACT && step.fromDependency))
  }

  /** The first of these that fails names the error. */
  lemma ToolFaultTells(catalog: Catalog, step: StepProposal)
    ensures ToolFault(catalog, step).None? <==> Fits(catalog, step)
    ensures step.tool !in catalog || !catalog[step.tool].available ==> ToolFault(catalog, step) == Some(ToolUnavailable)
    ensures step.tool in catalog && catalog[step.tool].available ==>
              && (ToolFault(catalog, step) == Some(ToolMismatch) <==>
                    (catalog[step.tool].kind == ReadTool <==> step.operation !in {ToQuery, ToAnalyze}))
              && (ToolFault(catalog, step) == Some(ConfirmationMismatch) <==>
                    && (catalog[step.tool].kind == ReadTool <==> step.operation in {ToQuery, ToAnalyze})
                    && (catalog[step.tool].kind == ReadTool <==> step.confirms))
              && (ToolFault(catalog, step) == Some(ArgumentsInvalid) <==>
                    && (catalog[step.tool].kind == ReadTool <==> step.operation in {ToQuery, ToAnalyze})
                    && (catalog[step.tool].kind == WriteTool <==> step.confirms)
                    && !catalog[step.tool].accepts(step.arguments) && !(step.tool == EXTRACT && step.fromDependency))
  {
    match step.operation
    case ToQuery => case ToAnalyze => case ToCreate => case ToUpdate => case ToDelete => case ToPublish =>
    case ToRollback => case ToAffectOutside =>
  }

  /** Read off the steps: the first one that does not fit its tool decides the error. */
  lemma {:induction false} FirstToolFaultIs(catalog: Catalog, steps: seq<StepProposal>, from: nat, i: nat)
    requires from <= i <= |steps| && forall j :: from <= j < i ==> Fits(catalog, steps[j])
    requires i < |steps| ==> !Fits(catalog, steps[i])
    ensures FirstToolFault(catalog, steps, from) == if i < |steps| then ToolFault(catalog, steps[i]) else None
    decreases i - from
  {
    if from < |steps| {
      ToolFaultTells(catalog, steps[from]);
      if from < i {
        FirstToolFaultIs(catalog, steps, from + 1, i);
      }
    }
  }

  /** The bounds and facts a proposal is checked against. */
  datatype Policy = Policy(hasContextScope: bool, catalog: Catalog, maxSteps: nat, maxDepth: nat)

  ghost predicate ScopesFlow(steps: seq<StepProposal>, hasContextScope: bool) {
    forall i :: 0 <= i < |steps| ==> ScopeFault(TableOf(steps), steps[i], hasContextScope).None?
  }

  /** A proposal that passes. */
  ghost predicate Acceptable(steps: seq<StepProposal>, policy: Policy) {
    && ScopesFlow(steps, policy.hasContextScope)
    && |steps| <= policy.maxSteps
    && Admissible(steps, policy.maxDepth)
    && forall i :: 0 <= i < |steps| ==> ToolFault(policy.catalog, steps[i]).None?
  }

  /** A proposal passes exactly when every step has what it needs upstream, the steps are not too many, all references
      exist, no step depends on itself through others, no chain is too long, and every step fits its tool. */
  lemma {:induction false} AcceptableIff(steps: seq<StepProposal>, policy: Policy)
    requires Proper(steps)
    ensures Acceptable(steps, policy) <==>
              && (forall i :: 0 <= i < |steps| ==> Supplied(TableOf(steps), steps[i], policy.hasContextScope))
              && |steps| <= policy.maxSteps
              && ReferencesExist(steps) && NoLoop(steps) && ChainsWithin(steps, policy.maxDepth)
              && (forall i :: 0 <= i < |steps| ==> Fits(policy.catalog, steps[i]))
  {
    AdmissibleIff(steps, policy.maxDepth);
    forall i | 0 <= i < |steps| ensures ToolFault(policy.catalog, steps[i]).None? <==> Fits(policy.catalog, steps[i]) {
      ToolFaultTells(policy.catalog, steps[i]);
    }
    forall i | 0 <= i < |steps|
      ensures ScopeFault(TableOf(steps), steps[i], policy.hasContextScope).None? <==>
                Supplied(TableOf(steps), steps[i], policy.hasContextScope)
    {
      SuppliedIff(TableOf(steps), steps[i], policy.hasContextScope);
    }
  }

  /** The error of a proposal that does not pass: a fault of scope is reported before one of size, that before one
      of the graph, and that before one of a tool; within scope, references and tools the first faulty step counts. */
  ghost predicate Explains(error: GraphError, steps: seq<StepProposal>, policy: Policy) {
    match FirstScopeFault(TableOf(steps), steps, policy.hasContextScope, 0)
    case Some(fault) => error == fault
    case None =>
      if |steps| > policy.maxSteps then error == TooLarge
      else if !Admissible(steps, policy.maxDepth) then GraphFault(steps, policy.maxDepth, error)
      else FirstToolFault(policy.catalog, steps, 0) == Some(error)
  }

  /** `_validate_step_tool`. */
  method ValidateStepTool(catalog: Catalog, step: StepProposal) returns (r: Result<(), GraphError>)
    ensures match ToolFault(catalog, step)
            case None => r == Success(())
            case Some(fault) => r == Failure(fault)
  {
    if step.tool !in catalog || !catalog[step.tool].available {
      return Failure(ToolUnavailable);
    }
    var kind := catalog[step.tool].kind;
    if (kind == WriteTool) != ChangesData(step.operation) {
      return Failure(ToolMismatch);
    }
    if kind == WriteTool && !step.confirms {
      return Failure(ConfirmationMismatch);
    }
    if kind == ReadTool && step.confirms {
      return Failure(ConfirmationMismatch);
    }
    if (step.tool != EXTRACT || !step.fromDependency) && !catalog[step.tool].accepts(step.arguments) {
      return Failure(ArgumentsInvalid);
    }
    return Success(());
  }

  /** `validate_plan_proposal`: size, graph, and the tool of every step. */
  method ValidatePlanProposal(steps: seq<StepProposal>, policy: Policy) returns (r: Result<map<string, nat>,
                              GraphError>)
    requires Proper(steps)
    ensures r.Success? <==>
              && |steps| <= policy.maxSteps && Admissible(steps, policy.maxDepth)
              && forall i :: 0 <= i < |steps| ==> ToolFault(policy.catalog, steps[i]).None?
    ensures r.Success? ==> DepthsOf(steps, r.value)
    ensures r.Failure? ==>
              if |steps| > policy.maxSteps then r.error == TooLarge
              else if !Admissible(steps, policy.maxDepth) then GraphFault(steps, policy.maxDepth, r.error)
              else FirstToolFault(policy.catalog, steps, 0) == Some(r.error)
  {
    if |steps| > policy.maxSteps {
      return Failure(TooLarge);
    }
    r := ValidatePlanGraph(steps, policy.maxDepth);
    if r.Failure? {
      return;
    }
    var i := 0;
    while i < |steps|
      invariant 0 <= i <= |steps|
      invariant FirstToolFault(policy.catalog, steps, i) == FirstToolFault(policy.catalog, steps, 0)
    {
      var tool := ValidateStepTool(policy.catalog, steps[i]);
      if tool.Failure? {
        return Failure(tool.error);
      }
      i := i + 1;
    }
  }

  /** The validator's memo: the longest chain from every step. */
  ghost predicate DepthsOf(steps: seq<StepProposal>, depths: map<string, nat>) {
    forall k :: k in DependenciesOf(steps) ==> k in depths && DepthIs(DependenciesOf(steps), k, depths[k])
  }

  /** Both validations, in the order in which they are called. */
  method CheckProposal(steps: seq<StepProposal>, policy: Policy) returns (r: Result<map<string, nat>, GraphError>)
    requires Proper(steps)
    ensures r.Success? <==> Acceptable(steps, policy)
    ensures r.Success? ==> DepthsOf(steps, r.value)
    ensures r.Failure? ==> Explains(r.error, steps, policy)
  {
    var scope := ValidateScopeFlow(steps, policy.hasContextScope);
    if scope.Failure? {
      return Failure(scope.error);
    }
    r := ValidatePlanProposal(steps, policy);
  }
}
