/**
  The end of planning: the model's proposal is completed with the tools' defaults, and one that does not pass gives
  way to a fallback built around the tool the user's request was routed to.
*/
module PlanFallback {
  import opened Results
  import opened ApprovalDesk
  import opened PlanGraph
  import opened PlanValidation

  // ----- the fallback -----

  /** The tool a request was routed to with the arguments found in it, and the skill's defaults per tool. */
  datatype Seed = Seed(tool: string, arguments: Arguments, defaults: map<string, Arguments>)

  function DefaultsOf(defaults: map<string, Arguments>, tool: string): Arguments {
    if tool in defaults then defaults[tool] else map[]
  }

  const TEN: Arguments := map["limit" := Whole(10)]

  /** A limit of the request counts between 1 and 100. */
  function Clamped(limit: int): int {
    if limit < 1 then 1 else if limit > 100 then 100 else limit
  }

  function QueryArguments(seed: Seed): Arguments {
    var base := if LIST_RECENT in seed.defaults then seed.defaults[LIST_RECENT] else TEN;
    var bounded := if "limit" in seed.arguments && seed.arguments["limit"].Whole?
                   then base["limit" := Whole(Clamped(seed.arguments["limit"].number))] else base;
    if bounded == map[] then TEN else bounded
  }

  function SeedArguments(seed: Seed): Arguments {
    DefaultsOf(seed.defaults, seed.tool) + seed.arguments
  }

  const QUERY_KEY := "step_query"
  const ANALYZE_KEY := "step_analyze"
  const APPLY_KEY := "step_apply"
  const EXECUTE_KEY := "step_execute"

  function QueryStep(seed: Seed): StepProposal {
    StepProposal(QUERY_KEY, LIST_RECENT, [], ToQuery, false, false, QueryArguments(seed))
  }

  function AnalyzeStep(hasContextScope: bool): StepProposal {
    StepProposal(ANALYZE_KEY, EXTRACT, if hasContextScope then [] else [QUERY_KEY], ToAnalyze, false, !hasContextScope,
                 map[])
  }

  function ApplyStep(seed: Seed): StepProposal {
    StepProposal(APPLY_KEY, seed.tool, [ANALYZE_KEY], ToUpdate, true, true, SeedArguments(seed))
  }

  function ExecuteStep(seed: Seed, kind: ToolKind): StepProposal {
    StepProposal(EXECUTE_KEY, seed.tool, [],
                 if kind.WriteTool? then ToUpdate else if seed.tool == EXTRACT then ToAnalyze else ToQuery,
                 kind.WriteTool?, false, SeedArguments(seed))
  }

  /** `_seed_proposal`: analysis is preceded by a query where no scope is given, a write of analysis results by the
      analysis; any other request is one step. */
  function SeedProposal(seed: Seed, policy: Policy): seq<StepProposal>
    requires seed.tool in policy.catalog
  {
    var canAnalyze, canQuery := EXTRACT in policy.catalog, LIST_RECENT in policy.catalog;
    if seed.tool == EXTRACT && !policy.hasContextScope && canQuery then [QueryStep(seed), AnalyzeStep(false)]
    else if seed.tool == APPLY && canAnalyze && policy.hasContextScope then [AnalyzeStep(true), ApplyStep(seed)]
    else if seed.tool == APPLY && canAnalyze && canQuery then [QueryStep(seed), AnalyzeStep(false), ApplyStep(seed)]
    else [ExecuteStep(seed, policy.catalog[seed.tool].kind)]
  }

  /** The request's own arguments win over the defaults of its tool. */
  lemma SeedArgumentsTell(seed: Seed, name: string)
    ensures var given, preset := seed.arguments, DefaultsOf(seed.defaults, seed.tool);
            && (name in SeedArguments(seed) <==> name in given || name in preset)
            && (name in given ==> SeedArguments(seed)[name] == given[name])
            && (name !in given && name in preset ==> SeedArguments(seed)[name] == preset[name])
            && (name in preset ==> seed.tool in seed.defaults && preset == seed.defaults[seed.tool])
            && (seed.tool in seed.defaults ==> preset == seed.defaults[seed.tool])
  {
  }

  /** The query before an analysis takes its tool's defaults, or a limit of ten if there are none; a whole-number limit
      of the request replaces theirs, brought between 1 and 100. */
  lemma QueryArgumentsTell(seed: Seed, name: string)
    ensures var r := QueryArguments(seed);
            var asked := "limit" in seed.arguments && seed.arguments["limit"].Whole?;
            var preset := LIST_RECENT in seed.defaults && seed.defaults[LIST_RECENT] != map[];
            && (asked ==> "limit" in r && r["limit"].Whole? && 1 <= r["limit"].number <= 100)
            && (asked && 1 <= seed.arguments["limit"].number <= 100 ==> r["limit"] == seed.arguments["limit"])
            && (asked && seed.arguments["limit"].number < 1 ==> r["limit"] == Whole(1))
            && (asked && seed.arguments["limit"].number > 100 ==> r["limit"] == Whole(100))
            && (preset && (name != "limit" || !asked) ==>
                  && (name in r <==> name in seed.defaults[LIST_RECENT])
                  && (name in r ==> r[name] == seed.defaults[LIST_RECENT][name]))
            && (!preset && !asked ==> r == map["limit" := Whole(10)])
            && (!preset && name != "limit" ==> name !in r)
  {
    var base := if LIST_RECENT in seed.defaults then seed.defaults[LIST_RECENT] else TEN;
    if "limit" in seed.arguments && seed.arguments["limit"].Whole? {
      var limit := Whole(Clamped(seed.arguments["limit"].number));
      assert "limit" in base["limit" := limit];
      assert QueryArguments(seed) == base["limit" := limit];
    } else {
      assert QueryArguments(seed) == if base == map[] then TEN else base;
    }
  }

  /** The fallback, spelled out: what its steps use, do and confirm, and where they take their input from. */
  lemma SeedProposalTells(seed: Seed, policy: Policy)
    requires seed.tool in policy.catalog
    ensures var steps, c, scoped := SeedProposal(seed, policy), policy.catalog, policy.hasContextScope;
            var two := seed.tool == EXTRACT && !scoped && LIST_RECENT in c;
            var write := seed.tool == APPLY && EXTRACT in c && (scoped || LIST_RECENT in c);
            && (two ==> Uses(steps, [LIST_RECENT, EXTRACT], [ToQuery, ToAnalyze], [false, true]))
            && (write && scoped ==> Uses(steps, [EXTRACT, APPLY], [ToAnalyze, ToUpdate], [false, true]))
            && (write && !scoped ==>
                  Uses(steps, [LIST_RECENT, EXTRACT, APPLY], [ToQuery, ToAnalyze, ToUpdate], [false, true, true]))
            && (!two && !write && c[seed.tool].kind == WriteTool ==> Uses(steps, [seed.tool], [ToUpdate], [false]))
            && (!two && !write && c[seed.tool].kind == ReadTool ==>
                  Uses(steps, [seed.tool], [if seed.tool == EXTRACT then ToAnalyze else ToQuery], [false]))
            && (forall i :: 0 <= i < |steps| ==> (steps[i].confirms <==> steps[i].operation == ToUpdate))
            && (forall i :: 0 <= i < |steps| && |steps| > 1 && steps[i].tool == EXTRACT ==> steps[i].arguments == map[])
  {
    assert EXTRACT != APPLY && LIST_RECENT != EXTRACT && LIST_RECENT != APPLY by {
      assert |EXTRACT| == 24 && |APPLY| == 20 && |LIST_RECENT| == 17;
    }
  }

  /** Step by step the tools, the operations, and which steps take their input from their parents. */
  ghost predicate Uses(steps: seq<StepProposal>, tools: seq<string>, operations: seq<StepOperation>,
                       fromDependency: seq<bool>)
    requires |tools| == |operations| == |fromDependency|
  {
    && |steps| == |tools|
    && forall i :: 0 <= i < |steps| ==>
         && steps[i].tool == tools[i] && steps[i].operation == operations[i]
         && steps[i].fromDependency == fromDependency[i]
  }

  // ----- when the fallback passes -----

  /** Every step depends on the one before it, and on no other. */
  ghost predicate Linear(steps: seq<StepProposal>) {
    && Proper(steps) && steps[0].dependsOn == []
    && forall i :: 0 < i < |steps| ==> steps[i].dependsOn == [steps[i - 1].key]
  }

  /** The keys of `path` are those of the positions from `i` down. */
  ghost predicate GoesDown(steps: seq<StepProposal>, path: seq<string>, i: nat) {
    |path| <= i + 1 <= |steps| && forall k :: 0 <= k < |path| ==> path[k] == steps[i - k].key
  }

  lemma {:induction false} LinearStep(steps: seq<StepProposal>, path: seq<string>, i: nat)
    requires Linear(steps) && i < |steps| && |path| > 1 && path[0] == steps[i].key
    requires path[0] in DependenciesOf(steps) && path[1] in DependenciesOf(steps)[path[0]]
    ensures i > 0 && path[1] == steps[i - 1].key
  {
    DependenciesAt(steps, i);
  }

  lemma GoesDownOn(steps: seq<StepProposal>, path: seq<string>, i: nat)
    requires 0 < i < |steps| && |path| > 1 && path[0] == steps[i].key && GoesDown(steps, path[1..], i - 1)
    ensures GoesDown(steps, path, i)
  {
    forall k | 0 < k < |path| ensures path[k] == steps[i - k].key {
      assert path[k] == path[1..][k - 1];
    }
  }

  /** In a linear proposal a chain goes down the positions one by one. */
  lemma {:induction false} LinearChain(steps: seq<StepProposal>, path: seq<string>, i: nat)
    requires Linear(steps) && i < |steps| && Chain(DependenciesOf(steps), path) && path[0] == steps[i].key
    ensures GoesDown(steps, path, i)
    decreases i
  {
    if |path| > 1 {
      var rest := path[1..];
      ChainTail(DependenciesOf(steps), path);
      LinearStep(steps, path, i);
      LinearChain(steps, rest, i - 1);
      GoesDownOn(steps, path, i);
    }
  }

  lemma ChainTail(m: Dependencies, path: seq<string>)
    requires Chain(m, path) && |path| > 1
    ensures Chain(m, path[1..]) && path[1..][0] == path[1] && path[1] in m[path[0]]
  {
    assert path[0 + 1] in m[path[0]];
  }

  /** The keys from position `i` down to `j`. */
  function Down(steps: seq<StepProposal>, i: nat, j: nat): seq<string>
    requires j <= i < |steps|
  {
    seq(i - j + 1, k requires 0 <= k <= i - j => steps[i - k].key)
  }

  lemma {:induction false} DownIsChain(steps: seq<StepProposal>, i: nat, j: nat)
    requires Linear(steps) && j <= i < |steps|
    ensures Chain(DependenciesOf(steps), Down(steps, i, j))
  {
    var path := Down(steps, i, j);
    forall k | 0 <= k < |path| ensures path[k] in DependenciesOf(steps) {
      DependenciesAt(steps, i - k);
    }
    forall k | 0 <= k < |path| - 1 ensures path[k + 1] in DependenciesOf(steps)[path[k]] {
      DependenciesAt(steps, i - k);
    }
  }

  /** A chain of a linear proposal leads from a position to an earlier one. */
  lemma ChainGoesDown(steps: seq<StepProposal>, path: seq<string>) returns (i: nat, j: nat)
    requires Linear(steps) && Chain(DependenciesOf(steps), path) && |path| >= 2
    ensures j < i < |steps| && path[0] == steps[i].key && path[|path| - 1] == steps[j].key
  {
    assert path[0] in DependenciesOf(steps);
    i :| 0 <= i < |steps| && steps[i].key == path[0];
    LinearChain(steps, path, i);
    j := i - (|path| - 1);
    assert path[|path| - 1] == steps[i - (|path| - 1)].key;
  }

  lemma {:induction false} LinearHasNoCycle(steps: seq<StepProposal>)
    requires Linear(steps)
    ensures !Cyclic(DependenciesOf(steps))
  {
    forall key | Reaches(DependenciesOf(steps), key, key) ensures false {
      var path :| Chain(DependenciesOf(steps), path) && |path| >= 2 && path[0] == key && path[|path| - 1] == key;
      var i, j := ChainGoesDown(steps, path);
    }
  }

  lemma {:induction false} LinearIsClosed(steps: seq<StepProposal>)
    requires Linear(steps)
    ensures PlanGraph.Closed(DependenciesOf(steps))
  {
    forall k, p | k in DependenciesOf(steps) && p in DependenciesOf(steps)[k] ensures p in DependenciesOf(steps) {
      var i :| 0 <= i < |steps| && steps[i].key == k;
      DependenciesAt(steps, i);
      if i > 0 {
        DependenciesAt(steps, i - 1);
      }
    }
  }

  /** A linear proposal is admissible exactly when it has no more steps than the depth allows. */
  lemma LinearAdmissible(steps: seq<StepProposal>, maxDepth: nat)
    requires Linear(steps)
    ensures Admissible(steps, maxDepth) <==> |steps| <= maxDepth
  {
    LinearIsClosed(steps);
    LinearHasNoCycle(steps);
    if |steps| > maxDepth {
      DownIsChain(steps, |steps| - 1, 0);
    } else if TooLong(DependenciesOf(steps), maxDepth) {
      var path :| Chain(DependenciesOf(steps), path) && |path| > maxDepth;
      assert path[0] in DependenciesOf(steps);
      var i :| 0 <= i < |steps| && steps[i].key == path[0];
      LinearChain(steps, path, i);
      assert false;
    }
  }

  /** Going up the table is going along the dependencies. */
  lemma {:induction false} UpwardIffChain(steps: seq<StepProposal>, path: seq<string>)
    requires |path| >= 2
    ensures Upward(TableOf(steps), path) <==> Chain(DependenciesOf(steps), path)
  {
  }

  lemma {:induction false} UpstreamIsEarlier(steps: seq<StepProposal>, i: nat, path: seq<string>, tool: string)
    requires Linear(steps) && i < |steps| && Leads(TableOf(steps), path, steps[i].key, {}, tool)
    ensures Earlier(steps, i, tool)
  {
    UpwardIffChain(steps, path);
    var k, j := ChainGoesDown(steps, path);
    TableAt(steps, j);
    assert k == i && steps[j].tool == tool;
  }

  lemma {:induction false} EarlierIsUpstream(steps: seq<StepProposal>, path: seq<string>, i: nat, j: nat, tool: string)
    requires Proper(steps) && j < i < |steps| && steps[j].tool == tool
    requires Chain(DependenciesOf(steps), path) && |path| >= 2
    requires path[0] == steps[i].key && path[|path| - 1] == steps[j].key
    ensures Upstream(TableOf(steps), steps[i].key, tool)
  {
    UpwardIffChain(steps, path);
    TableAt(steps, j);
    LeadsAlong(TableOf(steps), path, steps[i].key, tool);
  }

  lemma DownEnds(steps: seq<StepProposal>, i: nat, j: nat)
    requires j < i < |steps|
    ensures var path := Down(steps, i, j);
            |path| >= 2 && path[0] == steps[i].key && path[|path| - 1] == steps[j].key
  {
  }

  lemma {:induction false} LeadsAlong(m: StepTable, path: seq<string>, key: string, tool: string)
    requires Upward(m, path) && path[0] == key && m[path[|path| - 1]].tool == tool
    ensures Upstream(m, key, tool)
  {
    assert Leads(m, path, key, {}, tool);
  }

  lemma {:induction false} DownIsUpstream(steps: seq<StepProposal>, i: nat, j: nat, tool: string)
    requires Linear(steps) && j < i < |steps| && steps[j].tool == tool
    ensures Upstream(TableOf(steps), steps[i].key, tool)
  {
    DownIsChain(steps, i, j);
    DownEnds(steps, i, j);
    EarlierIsUpstream(steps, Down(steps, i, j), i, j, tool);
  }

  /** The tools upstream of a step of a linear proposal are those of the steps before it. */
  lemma {:induction false} LinearUpstream(steps: seq<StepProposal>, i: nat, tool: string)
    requires Linear(steps) && i < |steps|
    ensures Upstream(TableOf(steps), steps[i].key, tool) <==> Earlier(steps, i, tool)
  {
    if Upstream(TableOf(steps), steps[i].key, tool) {
      var path :| Leads(TableOf(steps), path, steps[i].key, {}, tool);
      UpstreamIsEarlier(steps, i, path, tool);
    }
    if Earlier(steps, i, tool) {
      var j :| 0 <= j < i && steps[j].tool == tool;
      DownIsUpstream(steps, i, j, tool);
    }
  }

  predicate Earlier(steps: seq<StepProposal>, i: nat, tool: string)
    requires i <= |steps|
  {
    exists j :: 0 <= j < i && steps[j].tool == tool
  }

  lemma KeysDiffer()
    ensures QUERY_KEY != ANALYZE_KEY && QUERY_KEY != APPLY_KEY && ANALYZE_KEY != APPLY_KEY
  {
    assert |QUERY_KEY| == 10 && |ANALYZE_KEY| == 12 && |APPLY_KEY| == 10;
    assert QUERY_KEY[5] == 'q' && APPLY_KEY[5] == 'a';
  }

  lemma ToolsDiffer()
    ensures EXTRACT != APPLY && EXTRACT != LIST_RECENT && APPLY != LIST_RECENT
    ensures FILTER_MISSING != EXTRACT && FILTER_MISSING != APPLY
  {
    assert |EXTRACT| == 24 && |APPLY| == 20 && |LIST_RECENT| == 17 && |FILTER_MISSING| == 25;
  }

  /** The tool is on offer with this kind. */
  predicate Offers(catalog: Catalog, tool: string, kind: ToolKind) {
    tool in catalog && catalog[tool].available && catalog[tool].kind == kind
  }

  predicate Accepts(catalog: Catalog, tool: string, arguments: Arguments)
    requires tool in catalog
  {
    catalog[tool].accepts(arguments)
  }

  predicate Allows(policy: Policy, steps: nat) {
    steps <= policy.maxSteps && steps <= policy.maxDepth
  }

  predicate QueryFits(seed: Seed, catalog: Catalog) {
    Offers(catalog, LIST_RECENT, ReadTool) && Accepts(catalog, LIST_RECENT, QueryArguments(seed))
  }

  predicate ApplyFits(seed: Seed, catalog: Catalog) {
    Offers(catalog, APPLY, WriteTool) && Accepts(catalog, APPLY, SeedArguments(seed))
  }

  /** What the fallback needs of the tools, the bounds and the scope. */
  predicate SeedFits(seed: Seed, policy: Policy)
    requires seed.tool in policy.catalog
  {
    var c, scoped := policy.catalog, policy.hasContextScope;
    if seed.tool == EXTRACT && !scoped then
      LIST_RECENT in c && Allows(policy, 2) && QueryFits(seed, c) && Offers(c, EXTRACT, ReadTool)
    else if seed.tool == APPLY && scoped then
      && EXTRACT in c && Allows(policy, 2) && Offers(c, EXTRACT, ReadTool) && Accepts(c, EXTRACT, map[])
      && ApplyFits(seed, c)
    else if seed.tool == APPLY then
      && EXTRACT in c && LIST_RECENT in c && Allows(policy, 3)
      && QueryFits(seed, c) && Offers(c, EXTRACT, ReadTool) && ApplyFits(seed, c)
    else
      Allows(policy, 1) && c[seed.tool].available && Accepts(c, seed.tool, SeedArguments(seed))
  }

  lemma SeedIsLinear(seed: Seed, policy: Policy)
    requires seed.tool in policy.catalog
    ensures Linear(SeedProposal(seed, policy)) && |SeedProposal(seed, policy)| <= 3
  {
    KeysDiffer();
    ToolsDiffer();
  }

  predicate Provided(steps: seq<StepProposal>, i: nat, hasContextScope: bool)
    requires i < |steps|
  {
    && (steps[i].tool == EXTRACT && !hasContextScope ==>
          Earlier(steps, i, LIST_RECENT) || Earlier(steps, i, FILTER_MISSING))
    && (steps[i].tool == APPLY ==> Earlier(steps, i, EXTRACT))
  }

  /** In a linear proposal a step has what it needs exactly when an earlier one provides it. */
  lemma {:induction false} LinearScope(steps: seq<StepProposal>, i: nat, hasContextScope: bool)
    requires Linear(steps) && i < |steps|
    ensures ScopeFault(TableOf(steps), steps[i], hasContextScope).None? <==> Provided(steps, i, hasContextScope)
  {
    ToolsDiffer();
    LinearUpstream(steps, i, LIST_RECENT);
    LinearUpstream(steps, i, FILTER_MISSING);
    LinearUpstream(steps, i, EXTRACT);
  }

  predicate StepFits(steps: seq<StepProposal>, i: nat, policy: Policy)
    requires i < |steps|
  {
    Provided(steps, i, policy.hasContextScope) && ToolFault(policy.catalog, steps[i]).None?
  }

  /** A linear proposal passes exactly when the bounds allow it and every step is provided for and fits its tool. */
  lemma LinearAcceptable(steps: seq<StepProposal>, policy: Policy)
    requires Linear(steps)
    ensures Acceptable(steps, policy) <==>
              Allows(policy, |steps|) && forall i :: 0 <= i < |steps| ==> StepFits(steps, i, policy)
  {
    LinearAdmissible(steps, policy.maxDepth);
    forall i | 0 <= i < |steps|
      ensures ScopeFault(TableOf(steps), steps[i], policy.hasContextScope).None? <==>
                Provided(steps, i, policy.hasContextScope)
    {
      LinearScope(steps, i, policy.hasContextScope);
    }
    if Acceptable(steps, policy) {
      forall i | 0 <= i < |steps| ensures StepFits(steps, i, policy) {
        assert ScopeFault(TableOf(steps), steps[i], policy.hasContextScope).None?;
      }
    } else if Allows(policy, |steps|) && forall i :: 0 <= i < |steps| ==> StepFits(steps, i, policy) {
      forall i | 0 <= i < |steps|
        ensures ScopeFault(TableOf(steps), steps[i], policy.hasContextScope).None?
        ensures ToolFault(policy.catalog, steps[i]).None?
      {
        assert StepFits(steps, i, policy);
      }
      assert false;
    }
  }

  lemma QueryStepFits(steps: seq<StepProposal>, seed: Seed, policy: Policy)
    requires |steps| >= 1 && steps[0] == QueryStep(seed)
    ensures StepFits(steps, 0, policy) <==> QueryFits(seed, policy.catalog)
  {
    ToolsDiffer();
  }

  lemma AnalyzeStepFits(steps: seq<StepProposal>, i: nat, policy: Policy)
    requires i < |steps| && steps[i] == AnalyzeStep(policy.hasContextScope)
    requires !policy.hasContextScope ==> i > 0 && steps[i - 1].tool == LIST_RECENT
    ensures StepFits(steps, i, policy) <==>
              && Offers(policy.catalog, EXTRACT, ReadTool)
              && (policy.hasContextScope ==> Accepts(policy.catalog, EXTRACT, map[]))
  {
    ToolsDiffer();
  }

  lemma ApplyStepFits(steps: seq<StepProposal>, i: nat, seed: Seed, policy: Policy)
    requires 0 < i < |steps| && steps[i] == ApplyStep(seed) && seed.tool == APPLY && steps[i - 1].tool == EXTRACT
    ensures StepFits(steps, i, policy) <==> ApplyFits(seed, policy.catalog)
  {
    ToolsDiffer();
  }

  lemma ExecuteStepFits(seed: Seed, policy: Policy)
    requires seed.tool in policy.catalog
    ensures var steps := [ExecuteStep(seed, policy.catalog[seed.tool].kind)];
            StepFits(steps, 0, policy) <==>
              && (seed.tool == EXTRACT ==> policy.hasContextScope) && seed.tool != APPLY
              && policy.catalog[seed.tool].available && Accepts(policy.catalog, seed.tool, SeedArguments(seed))
  {
    ToolsDiffer();
  }

  /** The fallback passes both validations exactly when the tools it needs are on offer with their kinds, their
      schemas accept its arguments, the bounds allow its one to three steps, and what an analysis or a write of
      analysis results needs before it can be had. */
  lemma SeedAcceptableIff(seed: Seed, policy: Policy)
    requires seed.tool in policy.catalog
    ensures Acceptable(SeedProposal(seed, policy), policy) <==> SeedFits(seed, policy)
  {
    var steps := SeedProposal(seed, policy);
    SeedIsLinear(seed, policy);
    ToolsDiffer();
    LinearAcceptable(steps, policy);
    if steps[0] == QueryStep(seed) && |steps| >= 2 {
      QueryStepFits(steps, seed, policy);
      AnalyzeStepFits(steps, 1, policy);
      if |steps| == 3 {
        ApplyStepFits(steps, 2, seed, policy);
      }
    } else if |steps| == 2 {
      AnalyzeStepFits(steps, 0, policy);
      ApplyStepFits(steps, 1, seed, policy);
    } else {
      ExecuteStepFits(seed, policy);
    }
  }

  // ----- what is stored -----

  function Completed(defaults: map<string, Arguments>, step: StepProposal): StepProposal {
    step.(arguments := DefaultsOf(defaults, step.tool) + step.arguments)
  }

  /** The steps with their tools' defaults where they name no argument. */
  function WithDefaults(defaults: map<string, Arguments>, steps: seq<StepProposal>): seq<StepProposal> {
    seq(|steps|, i requires 0 <= i < |steps| => Completed(defaults, steps[i]))
  }

  /** A step keeps everything but its arguments, and of these its own win over the defaults of its tool. */
  lemma CompletedTells(defaults: map<string, Arguments>, steps: seq<StepProposal>, i: nat, name: string)
    requires i < |steps|
    ensures |WithDefaults(defaults, steps)| == |steps|
    ensures var own, all := steps[i].arguments, WithDefaults(defaults, steps)[i].arguments;
            && WithDefaults(defaults, steps)[i] == steps[i].(arguments := all)
            && (name in own ==> name in all && all[name] == own[name])
            && (name !in own ==>
                  (name in all <==> steps[i].tool in defaults && name in defaults[steps[i].tool]))
            && (name !in own && name in all ==> all[name] == defaults[steps[i].tool][name])
  {
  }

  /** What is tried first: the model's answer, or the fallback if there is none, completed with the defaults. */
  function Tried(answer: Option<seq<StepProposal>>, seed: Seed, policy: Policy): seq<StepProposal>
    requires seed.tool in policy.catalog
  {
    WithDefaults(seed.defaults, if answer.Some? then answer.value else SeedProposal(seed, policy))
  }

  /** The plan that is stored: what was tried if it passes, else the fallback as it is. */
  ghost function Chosen(answer: Option<seq<StepProposal>>, seed: Seed, policy: Policy): seq<StepProposal>
    requires seed.tool in policy.catalog
  {
    if Acceptable(Tried(answer, seed, policy), policy) then Tried(answer, seed, policy) else SeedProposal(seed, policy)
  }

  /** What is stored is a proper and acyclic proposal. */
  lemma ChosenIsProper(answer: Option<seq<StepProposal>>, seed: Seed, policy: Policy)
    requires seed.tool in policy.catalog && (answer.Some? ==> Proper(answer.value))
    requires Acceptable(Tried(answer, seed, policy), policy) || SeedFits(seed, policy)
    ensures Proper(Chosen(answer, seed, policy)) && PlanGraph.Closed(DependenciesOf(Chosen(answer, seed, policy)))
    ensures |Chosen(answer, seed, policy)| <= if answer.Some? && |answer.value| > 3 then |answer.value| else 3
  {
    SeedIsLinear(seed, policy);
    SeedAcceptableIff(seed, policy);
  }

  /** `propose_plan` after the model has answered or failed to. */
  method ProposePlan(answer: Option<seq<StepProposal>>, seed: Seed, policy: Policy)
    returns (r: Result<(seq<StepProposal>, map<string, nat>), GraphError>)
    requires answer.Some? ==> Proper(answer.value)
    ensures seed.tool !in policy.catalog ==> r == Failure(ToolUnavailable)
    ensures seed.tool in policy.catalog ==>
              (r.Success? <==> Acceptable(Tried(answer, seed, policy), policy) || SeedFits(seed, policy))
    ensures r.Success? ==>
              seed.tool in policy.catalog && r.value.0 == Chosen(answer, seed, policy) && DepthsOf(r.value.0, r.value.1)
    ensures r.Failure? && seed.tool in policy.catalog ==> Explains(r.error, SeedProposal(seed, policy), policy)
  {
    if seed.tool !in policy.catalog {
      return Failure(ToolUnavailable);
    }
    var fallback := SeedProposal(seed, policy);
    SeedIsLinear(seed, policy);
    SeedAcceptableIff(seed, policy);
    var proposal := if answer.Some? then answer.value else fallback;
    var withDefaults := WithDefaults(seed.defaults, proposal);
    var first := CheckProposal(withDefaults, policy);
    if first.Success? {
      return Success((withDefaults, first.value));
    }
    var second := CheckProposal(fallback, policy);
    if second.Failure? {
      return Failure(second.error);
    }
    return Success((fallback, second.value));
  }
}
