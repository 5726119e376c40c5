/**
  Which proposed plans are admitted: the depth-first check of references, cycles and depth, the
  upstream tools behind each step, and the dependency rows an admitted plan is stored as.
*/
module PlanGraph {
  import opened Results
  import opened PlanModel

  datatype StepOperation =
    | ToQuery | ToAnalyze | ToCreate | ToUpdate | ToDelete | ToPublish | ToRollback | ToAffectOutside

  /** An argument of a tool: whole numbers count, any other value is a text. */
  datatype Argument = Whole(number: int) | Other(text: string)

  type Arguments = map<string, Argument>

  /** `fromDependency` says that the step takes its input from its parents. */
  datatype StepProposal = StepProposal(
    key: string, tool: string, dependsOn: seq<string>,
    operation: StepOperation, confirms: bool, fromDependency: bool, arguments: Arguments)

  datatype GraphError =
    | SelfCycle | DependencyMissing | Cycle | TooDeep
    | ScopeMissing | WriteInputMissing
    | TooLarge | ToolUnavailable | ToolMismatch | ConfirmationMismatch | ArgumentsInvalid

  /** The proposal schema: at least one step, unique keys. */
  ghost predicate Proper(steps: seq<StepProposal>) {
    && |steps| >= 1
    && forall i, j :: 0 <= i < j < |steps| ==> steps[i].key != steps[j].key
  }

  type Dependencies = map<string, seq<string>>

  predicate Proposed(steps: seq<StepProposal>, key: string) {
    exists i :: 0 <= i < |steps| && steps[i].key == key
  }

  /** The dependencies by key, later duplicates winning as in a dictionary. */
  function DependenciesOf(steps: seq<StepProposal>): (m: Dependencies)
    ensures forall k :: k in m <==> Proposed(steps, k)
  {
    if steps == [] then map[]
    else
      var last := steps[|steps| - 1];
      DependenciesOf(steps[..|steps| - 1])[last.key := last.dependsOn]
  }

  lemma {:induction false} DependenciesAt(steps: seq<StepProposal>, i: nat)
    requires i < |steps| && forall j, k :: 0 <= j < k < |steps| ==> steps[j].key != steps[k].key
    ensures steps[i].key in DependenciesOf(steps) && DependenciesOf(steps)[steps[i].key] == steps[i].dependsOn
    decreases |steps|
  {
    if i < |steps| - 1 {
      DependenciesAt(steps[..|steps| - 1], i);
    }
  }

  ghost predicate Closed(m: Dependencies) {
    forall k, p :: k in m && p in m[k] ==> p in m
  }

  /** A chain goes from a step up along its dependencies. */
  ghost predicate Chain(m: Dependencies, path: seq<string>) {
    && |path| >= 1
    && (forall i :: 0 <= i < |path| ==> path[i] in m)
    && (forall i :: 0 <= i < |path| - 1 ==> path[i + 1] in m[path[i]])
  }

  ghost predicate Reaches(m: Dependencies, from: string, to: string) {
    exists path :: Chain(m, path) && |path| >= 2 && path[0] == from && path[|path| - 1] == to
  }

  ghost predicate Cyclic(m: Dependencies) {
    exists k :: Reaches(m, k, k)
  }

  /** `d` is the length, in steps, of the longest chain from `k`. */
  ghost predicate DepthIs(m: Dependencies, k: string, d: nat) {
    && (exists path :: Chain(m, path) && path[0] == k && |path| == d)
    && (forall path :: Chain(m, path) && path[0] == k ==> |path| <= d)
  }

  ghost predicate TooLong(m: Dependencies, bound: nat) {
    exists path :: Chain(m, path) && |path| > bound
  }

  /** Some step has a longest chain, and it exceeds the bound. Steps above a cycle have none. */
  ghost predicate TooDeepStep(m: Dependencies, bound: nat) {
    exists k, d: nat :: DepthIs(m, k, d) && d > bound
  }

  lemma ReachesOn(m: Dependencies, from: string, mid: string, to: string)
    requires from == mid || Reaches(m, from, mid)
    requires mid in m && to in m && to in m[mid]
    ensures Reaches(m, from, to)
  {
    if from == mid {
      assert Chain(m, [mid, to]);
      assert [mid, to][0] == from && [mid, to][|[mid, to]| - 1] == to;
    } else {
      var path :| Chain(m, path) && |path| >= 2 && path[0] == from && path[|path| - 1] == mid;
      var longer := path + [to];
      assert Chain(m, longer) && longer[0] == from && longer[|longer| - 1] == to;
    }
  }

  /** One more than the deepest parent, or one without parents. */
  lemma DepthFromParents(m: Dependencies, k: string, depths: map<string, nat>, best: nat)
    requires k in m && Closed(m)
    requires forall p :: p in m[k] ==> p in depths && DepthIs(m, p, depths[p]) && depths[p] <= best
    requires best == 0 || exists p :: p in m[k] && depths[p] == best
    requires best == 0 ==> m[k] == []
    ensures DepthIs(m, k, best + 1)
  {
    if best == 0 {
      assert Chain(m, [k]) && [k][0] == k;
    } else {
      var p :| p in m[k] && depths[p] == best;
      var path :| Chain(m, path) && path[0] == p && |path| == best;
      var longer := [k] + path;
      assert Chain(m, longer) && longer[0] == k && |longer| == best + 1;
    }
    forall path | Chain(m, path) && path[0] == k ensures |path| <= best + 1 {
      if |path| > 1 {
        assert path[1] in m[path[0]];
        var rest := path[1..];
        assert Chain(m, rest) && rest[0] == path[1];
      }
    }
  }

  /** The memo tables of `validate_plan_graph` and its recursive `visit`. */
  class GraphValidator {
    const parents: Dependencies
    const maxDepth: nat
    var visiting: set<string>
    var visited: set<string>
    var depths: map<string, nat>

    constructor (parents: Dependencies, maxDepth: nat)
      ensures this.parents == parents && this.maxDepth == maxDepth
      ensures visiting == {} && visited == {} && depths == map[]
    {
      this.parents, this.maxDepth := parents, maxDepth;
      visiting, visited, depths := {}, {}, map[];
    }

    /** Every memoised depth is a longest-chain length within the bound. */
    ghost predicate Memo()
      reads this
    {
      && visited !! visiting && visiting <= parents.Keys
      && forall k :: k in visited ==> k in depths && DepthIs(parents, k, depths[k]) && depths[k] <= maxDepth
    }

    /** What a completed visit keeps: nothing is left open, and the memo only grows. */
    twostate predicate Grown()
      reads this
    {
      && Memo() && visiting == old(visiting) && old(visited) <= visited
      && forall k :: k in old(visited) && k in old(depths) ==> k in depths && depths[k] == old(depths[k])
    }

    /** A failed visit has found a cycle or a chain that is too long. */
    ghost predicate Justified(error: GraphError) {
      (error.Cycle? && Cyclic(parents)) || (error.TooDeep? && TooDeepStep(parents, maxDepth))
    }

    method Visit(key: string) returns (r: Result<nat, GraphError>)
      requires Closed(parents) && key in parents && Memo()
      requires forall v :: v in visiting ==> Reaches(parents, v, key)
      modifies this
      ensures r.Success? ==> Grown() && key in visited && depths[key] == r.value
      ensures r.Failure? ==> Justified(r.error)
      decreases parents.Keys - visiting, 0
    {
      if key in visiting {
        assert Reaches(parents, key, key);
        return Failure(Cycle);
      }
      if key in visited {
        return Success(depths[key]);
      }
      ghost var was := visiting;
      visiting := visiting + {key};
      var deepest := VisitParents(key);
      if deepest.Failure? {
        return deepest;
      }
      var depth := 1 + deepest.value;
      DepthFromParents(parents, key, depths, deepest.value);
      visiting := visiting - {key};
      assert visiting == was;
      visited := visited + {key};
      depths := depths[key := depth];
      if depth > maxDepth {
        assert DepthIs(parents, key, depth);
        return Failure(TooDeep);
      }
      return Success(depth);
    }

    /** The greatest depth among the parents of `key`, zero if it has none. */
    method VisitParents(key: string) returns (r: Result<nat, GraphError>)
      requires Closed(parents) && key in parents && Memo() && key in visiting
      requires forall v :: v in visiting ==> v == key || Reaches(parents, v, key)
      modifies this
      ensures r.Success? ==>
                && Grown()
                && (forall p :: p in parents[key] ==> p in visited && depths[p] <= r.value)
                && (if parents[key] == [] then r.value == 0 else exists p :: p in parents[key] && depths[p] == r.value)
      ensures r.Success? && r.value == 0 ==> parents[key] == []
      ensures r.Failure? ==> Justified(r.error)
      decreases parents.Keys - visiting, 1
    {
      var best := 0;
      var i := 0;
      while i < |parents[key]|
        invariant 0 <= i <= |parents[key]| && Grown()
        invariant forall j :: 0 <= j < i ==> parents[key][j] in visited && depths[parents[key][j]] <= best
        invariant i == 0 ==> best == 0
        invariant i > 0 ==> exists j :: 0 <= j < i && depths[parents[key][j]] == best
      {
        var parent := parents[key][i];
        forall v | v in visiting ensures Reaches(parents, v, parent) {
          ReachesOn(parents, v, key, parent);
        }
        var depth := Visit(parent);
        if depth.Failure? {
          return depth;
        }
        if i == 0 || depth.value > best {
          best := depth.value;
          assert depths[parents[key][i]] == best;
        }
        i := i + 1;
      }
      if |parents[key]| > 0 {
        ghost var j :| 0 <= j < |parents[key]| && depths[parents[key][j]] == best;
      }
      return Success(best);
    }
  }

  // ----- the verdict -----

  /** An admissible graph: every reference exists, there is no cycle, and no chain exceeds the bound. */
  ghost predicate Admissible(steps: seq<StepProposal>, maxDepth: nat) {
    var m := DependenciesOf(steps);
    Closed(m) && !Cyclic(m) && !TooLong(m, maxDepth)
  }

  /** A cycle can be walked round until any bound is exceeded. */
  lemma {:induction false} CyclesAreTooLong(m: Dependencies, k: string, n: nat)
    requires Reaches(m, k, k)
    ensures exists path :: Chain(m, path) && path[0] == k && path[|path| - 1] == k && |path| > n
  {
    var loop :| Chain(m, loop) && |loop| >= 2 && loop[0] == k && loop[|loop| - 1] == k;
    if n > 0 {
      CyclesAreTooLong(m, k, n - 1);
      var path :| Chain(m, path) && path[0] == k && path[|path| - 1] == k && |path| > n - 1;
      var longer := path + loop[1..];
      assert Chain(m, longer) && longer[0] == k && longer[|longer| - 1] == k;
    }
  }

  lemma BoundedDepthsAdmit(m: Dependencies, depths: map<string, nat>, maxDepth: nat)
    requires forall k :: k in m ==> k in depths && DepthIs(m, k, depths[k]) && depths[k] <= maxDepth
    ensures !TooLong(m, maxDepth) && !Cyclic(m)
  {
    forall path | Chain(m, path) ensures |path| <= maxDepth {
      assert path[0] in m;
    }
    if Cyclic(m) {
      var k :| Reaches(m, k, k);
      CyclesAreTooLong(m, k, maxDepth);
    }
  }

  ghost predicate MissingReference(steps: seq<StepProposal>) {
    exists i, k :: 0 <= i < |steps| && k in steps[i].dependsOn && !Proposed(steps, k)
  }

  ghost predicate ReferencesExist(steps: seq<StepProposal>) {
    forall i :: 0 <= i < |steps| ==> forall k :: k in steps[i].dependsOn ==> Proposed(steps, k)
  }

  /** No step depends on itself, directly or through others. */
  ghost predicate NoLoop(steps: seq<StepProposal>) {
    forall path :: Chain(DependenciesOf(steps), path) && |path| >= 2 ==> path[0] != path[|path| - 1]
  }

  ghost predicate ChainsWithin(steps: seq<StepProposal>, bound: nat) {
    forall path :: Chain(DependenciesOf(steps), path) ==> |path| <= bound
  }

  /** Admitted are the proposals whose references exist, that have no loop, and no chain longer than the bound. */
  lemma AdmissibleIff(steps: seq<StepProposal>, bound: nat)
    requires Proper(steps)
    ensures Admissible(steps, bound) <==> ReferencesExist(steps) && NoLoop(steps) && ChainsWithin(steps, bound)
  {
    ClosedIff(steps);
    assert ReferencesExist(steps) <==> !MissingReference(steps);
    var m := DependenciesOf(steps);
    if Cyclic(m) {
      var k :| Reaches(m, k, k);
      var path :| Chain(m, path) && |path| >= 2 && path[0] == k && path[|path| - 1] == k;
      assert !NoLoop(steps);
    }
    if !NoLoop(steps) {
      var path :| Chain(m, path) && |path| >= 2 && path[0] == path[|path| - 1];
      assert Reaches(m, path[0], path[0]);
    }
  }

  /** What is wrong with one step's own references; a dependency on itself is looked for first. */
  function ReferenceFault(keys: set<string>, step: StepProposal): Option<GraphError> {
    if step.key in step.dependsOn then Some(SelfCycle)
    else if exists k :: k in step.dependsOn && k !in keys then Some(DependencyMissing)
    else None
  }

  /** The fault of the first faulty step, in the order of proposal. */
  function FirstReferenceFault(steps: seq<StepProposal>, i: nat): (fault: Option<GraphError>)
    ensures fault.None? <==> forall j :: i <= j < |steps| ==> ReferenceFault(DependenciesOf(steps).Keys, steps[j]).None?
    decreases |steps| - i
  {
    if i >= |steps| then None
    else if ReferenceFault(DependenciesOf(steps).Keys, steps[i]).Some?
    then ReferenceFault(DependenciesOf(steps).Keys, steps[i])
    else FirstReferenceFault(steps, i + 1)
  }

  lemma {:induction false} SelfDependenceIsCyclic(steps: seq<StepProposal>, i: nat)
    requires Proper(steps) && i < |steps| && steps[i].key in steps[i].dependsOn
    ensures Cyclic(DependenciesOf(steps))
  {
    var m, k := DependenciesOf(steps), steps[i].key;
    DependenciesAt(steps, i);
    ReachesOn(m, k, k, k);
  }

  lemma {:induction false} ClosedIff(steps: seq<StepProposal>)
    requires Proper(steps)
    ensures Closed(DependenciesOf(steps)) <==> !MissingReference(steps)
  {
    var m := DependenciesOf(steps);
    forall i | 0 <= i < |steps| ensures steps[i].key in m && m[steps[i].key] == steps[i].dependsOn {
      DependenciesAt(steps, i);
    }
    if !Closed(m) {
      var k, p :| k in m && p in m[k] && p !in m;
      var i :| 0 <= i < |steps| && steps[i].key == k;
      assert p in steps[i].dependsOn;
    }
  }

  /** The error names the first faulty reference, or else a cycle or a step that is too deep. */
  ghost predicate GraphFault(steps: seq<StepProposal>, maxDepth: nat, error: GraphError) {
    match FirstReferenceFault(steps, 0)
    case Some(fault) => error == fault
    case None =>
      || (error.Cycle? && Cyclic(DependenciesOf(steps)))
      || (error.TooDeep? && TooDeepStep(DependenciesOf(steps), maxDepth))
  }

  /** A faulty step keeps the graph from being admitted; without one, every reference exists. */
  lemma {:induction false} FaultDecides(steps: seq<StepProposal>, i: nat)
    requires Proper(steps)
    ensures FirstReferenceFault(steps, i).Some? ==> Cyclic(DependenciesOf(steps)) || !Closed(DependenciesOf(steps))
    decreases |steps| - i
  {
    if i < |steps| {
      if steps[i].key in steps[i].dependsOn {
        SelfDependenceIsCyclic(steps, i);
      } else if exists k :: k in steps[i].dependsOn && k !in DependenciesOf(steps) {
        DependenciesAt(steps, i);
      } else {
        FaultDecides(steps, i + 1);
      }
    }
  }

  lemma {:induction false} FaultlessIsClosed(steps: seq<StepProposal>)
    requires Proper(steps) && FirstReferenceFault(steps, 0).None?
    ensures Closed(DependenciesOf(steps))
  {
    ClosedIff(steps);
    forall i, k | 0 <= i < |steps| && k in steps[i].dependsOn ensures Proposed(steps, k) {
      assert ReferenceFault(DependenciesOf(steps).Keys, steps[i]).None?;
      assert k in DependenciesOf(steps);
    }
  }

  /** A step that refers to proposed steps other than itself only. */
  ghost predicate RefersWell(steps: seq<StepProposal>, step: StepProposal) {
    step.key !in step.dependsOn && forall k :: k in step.dependsOn ==> Proposed(steps, k)
  }

  /** Read off the steps: the first one that refers to itself or to a missing step decides the error. */
  lemma {:induction false} FirstReferenceFaultIs(steps: seq<StepProposal>, from: nat, i: nat)
    requires from <= i <= |steps| && forall j :: from <= j < i ==> RefersWell(steps, steps[j])
    requires i < |steps| ==> !RefersWell(steps, steps[i])
    ensures i == |steps| ==> FirstReferenceFault(steps, from) == None
    ensures i < |steps| && steps[i].key in steps[i].dependsOn ==> FirstReferenceFault(steps, from) == Some(SelfCycle)
    ensures i < |steps| && steps[i].key !in steps[i].dependsOn ==>
              FirstReferenceFault(steps, from) == Some(DependencyMissing)
    decreases i - from
  {
    if from < i {
      assert RefersWell(steps, steps[from]);
      FirstReferenceFaultIs(steps, from + 1, i);
    } else if i < |steps| && steps[i].key !in steps[i].dependsOn {
      var k :| k in steps[i].dependsOn && !Proposed(steps, k);
      assert k !in DependenciesOf(steps).Keys;
    }
  }

  /** The first loop: look at every step's own references, in the order of proposal. */
  method CheckReferences(steps: seq<StepProposal>, keys: set<string>) returns (fault: Option<GraphError>)
    requires keys == DependenciesOf(steps).Keys
    ensures fault == FirstReferenceFault(steps, 0)
  {
    var i := 0;
    while i < |steps|
      invariant 0 <= i <= |steps| && FirstReferenceFault(steps, i) == FirstReferenceFault(steps, 0)
    {
      if steps[i].key in steps[i].dependsOn {
        return Some(SelfCycle);
      }
      if exists k :: k in steps[i].dependsOn && k !in keys {
        return Some(DependencyMissing);
      }
      i := i + 1;
    }
    return None;
  }

  /** `validate_plan_graph`. The keys are visited in an arbitrary order, as a set iterates; the verdict
      does not depend on it. On success the memo holds the longest chain from every step. */
  method ValidatePlanGraph(steps: seq<StepProposal>, maxDepth: nat)
    returns (r: Result<map<string, nat>, GraphError>)
    requires Proper(steps)
    ensures r.Success? <==> Admissible(steps, maxDepth)
    ensures r.Success? ==> forall k :: k in DependenciesOf(steps) ==>
              k in r.value && DepthIs(DependenciesOf(steps), k, r.value[k]) && r.value[k] <= maxDepth
    ensures r.Failure? ==> GraphFault(steps, maxDepth, r.error)
  {
    var parents := DependenciesOf(steps);
    var keys := parents.Keys;
    var fault := CheckReferences(steps, keys);
    FaultDecides(steps, 0);
    if fault.Some? {
      return Failure(fault.value);
    }
    FaultlessIsClosed(steps);
    var validator := new GraphValidator(parents, maxDepth);
    var todo := keys;
    while todo != {}
      invariant todo <= keys && validator.visiting == {} && validator.Memo()
      invariant keys - todo <= validator.visited
      decreases todo
    {
      var key :| key in todo;
      var depth := validator.Visit(key);
      if depth.Failure? {
        return Failure(depth.error);
      }
      todo := todo - {key};
    }
    BoundedDepthsAdmit(parents, validator.depths, maxDepth);
    return Success(validator.depths);
  }

  // ----- an admitted plan is stored as an acyclic dependency table -----

  function ParentSet(steps: seq<StepProposal>, i: nat): set<nat>
    requires i < |steps|
  {
    set j | 0 <= j < |steps| && steps[j].key in steps[i].dependsOn
  }

  function ParentTable(steps: seq<StepProposal>): seq<set<nat>> {
    seq(|steps|, i requires 0 <= i < |steps| => ParentSet(steps, i))
  }

  /** Every dependency of a step is stored as the position of its key, and nothing else is. */
  lemma StoredParentsTell(steps: seq<StepProposal>, i: nat, p: nat)
    requires Proper(steps) && i < |steps| && p < |steps|
    ensures |ParentTable(steps)| == |steps|
    ensures p in ParentTable(steps)[i] <==> steps[p].key in steps[i].dependsOn
    ensures forall q :: q in ParentTable(steps)[i] ==> 0 <= q < |steps|
    ensures !MissingReference(steps) ==>
              forall k :: k in steps[i].dependsOn ==>
                exists q: nat :: q < |steps| && steps[q].key == k && q in ParentTable(steps)[i]
  {
    if !MissingReference(steps) {
      forall k | k in steps[i].dependsOn
        ensures exists q: nat :: q < |steps| && steps[q].key == k && q in ParentTable(steps)[i]
      {
        assert Proposed(steps, k);
        var q: nat :| q < |steps| && steps[q].key == k;
        assert q in ParentTable(steps)[i];
      }
    }
  }

  function ToolTable(steps: seq<StepProposal>): seq<string> {
    seq(|steps|, i requires 0 <= i < |steps| => steps[i].tool)
  }

  function RankOf(steps: seq<StepProposal>, depths: map<string, nat>): seq<nat> {
    seq(|steps|, i requires 0 <= i < |steps| => if steps[i].key in depths then depths[steps[i].key] else 0)
  }

  /** The longest-chain lengths found by the validator rank the stored graph, so it is acyclic. */
  lemma {:induction false} AdmittedPlanIsRanked(steps: seq<StepProposal>, depths: map<string, nat>, su: Setup)
    requires Proper(steps) && su.parents == ParentTable(steps) && su.tools == ToolTable(steps)
    requires forall k :: k in DependenciesOf(steps) ==> k in depths && DepthIs(DependenciesOf(steps), k, depths[k])
    ensures su.Valid() && su.Acyclic()
    ensures su.Ranks(RankOf(steps, depths))
  {
    var m := DependenciesOf(steps);
    var rank := RankOf(steps, depths);
    forall i, j | 0 <= i < |steps| && j in su.parents[i] ensures j < |steps| && rank[j] < rank[i] {
      DependenciesAt(steps, i);
      DependenciesAt(steps, j);
      DepthGrows(m, steps[i].key, steps[j].key, depths[steps[i].key], depths[steps[j].key]);
    }
    assert su.Ranks(rank);
  }

  lemma DepthGrows(m: Dependencies, child: string, parent: string, d: nat, e: nat)
    requires child in m && parent in m && parent in m[child] && DepthIs(m, child, d) && DepthIs(m, parent, e)
    ensures e < d
  {
    var path :| Chain(m, path) && path[0] == parent && |path| == e;
    var longer := [child] + path;
    assert Chain(m, longer) && longer[0] == child;
  }

  /** The dependency rows of `persist_plan`: keys become positions through a dictionary of the rows
      created first. */
  method PersistRows(steps: seq<StepProposal>) returns (rows: seq<Row>)
    requires Proper(steps) && !MissingReference(steps)
    ensures forall k :: 0 <= k < |rows| ==> rows[k].0 < |steps| && rows[k].1 in ParentSet(steps, rows[k].0)
    ensures forall c, p :: 0 <= c < |steps| && p in ParentSet(steps, c) ==> (c, p) in rows
  {
    var position: map<string, nat> := map[];
    var i := 0;
    while i < |steps|
      invariant 0 <= i <= |steps|
      invariant forall k :: k in position <==> exists j :: 0 <= j < i && steps[j].key == k
      invariant forall j :: 0 <= j < i ==> steps[j].key in position && position[steps[j].key] == j
    {
      position := position[steps[i].key := i];
      i := i + 1;
    }
    rows := [];
    i := 0;
    while i < |steps|
      invariant 0 <= i <= |steps|
      invariant forall c: nat, p: nat :: (c, p) in rows <==> c < i && p in ParentSet(steps, c)
    {
      var before := rows;
      var k := 0;
      while k < |steps[i].dependsOn|
        invariant 0 <= k <= |steps[i].dependsOn|
        invariant forall c: nat, p: nat :: (c, p) in rows <==>
                    (c, p) in before || (c == i && p < |steps| && steps[p].key in steps[i].dependsOn[..k])
      {
        var key := steps[i].dependsOn[k];
        assert Proposed(steps, key);
        var found := position[key];
        assert found < |steps| && steps[found].key == key;
        assert steps[i].dependsOn[..k + 1] == steps[i].dependsOn[..k] + [key];
        ghost var was := rows;
        rows := rows + [(i, found)];
        assert forall c: nat, p: nat :: (c, p) in rows <==> (c, p) in was || (c == i && p == found);
        k := k + 1;
      }
      assert steps[i].dependsOn[..k] == steps[i].dependsOn;
      i := i + 1;
    }
    assert forall k :: 0 <= k < |rows| ==> (rows[k].0, rows[k].1) in rows;
  }

  // ----- upstream tools -----

  type StepTable = map<string, StepProposal>

  function TableOf(steps: seq<StepProposal>): (m: StepTable)
    ensures m.Keys == DependenciesOf(steps).Keys
    ensures forall k :: k in m ==> m[k].dependsOn == DependenciesOf(steps)[k]
  {
    if steps == [] then map[]
    else
      var last := steps[|steps| - 1];
      TableOf(steps[..|steps| - 1])[last.key := last]
  }

  lemma {:induction false} TableAt(steps: seq<StepProposal>, i: nat)
    requires i < |steps| && forall j, k :: 0 <= j < k < |steps| ==> steps[j].key != steps[k].key
    ensures steps[i].key in TableOf(steps) && TableOf(steps)[steps[i].key] == steps[i]
    decreases |steps|
  {
    if i < |steps| - 1 {
      TableAt(steps[..|steps| - 1], i);
    }
  }

  /** A chain through existing steps; references to missing steps lead nowhere. */
  ghost predicate Upward(m: StepTable, path: seq<string>) {
    && |path| >= 2
    && (forall i :: 0 <= i < |path| ==> path[i] in m)
    && (forall i :: 0 <= i < |path| - 1 ==> path[i + 1] in m[path[i]].dependsOn)
  }

  /** `tool` belongs to a step reached from `key` by one or more edges, leaving no step of `avoid`. */
  ghost predicate UpstreamAvoiding(m: StepTable, key: string, avoid: set<string>, tool: string) {
    exists path :: Leads(m, path, key, avoid, tool)
  }

  ghost predicate Leads(m: StepTable, path: seq<string>, key: string, avoid: set<string>, tool: string) {
    && Upward(m, path) && path[0] == key
    && (forall i :: 0 <= i < |path| - 1 ==> path[i] !in avoid)
    && m[path[|path| - 1]].tool == tool
  }

  ghost predicate Upstream(m: StepTable, key: string, tool: string) {
    UpstreamAvoiding(m, key, {}, tool)
  }

  /** What the parent `p` contributes to the tools upstream of a step whose path so far is `seen`. */
  ghost predicate Contributes(m: StepTable, p: string, seen: set<string>, tool: string) {
    p in m && (m[p].tool == tool || UpstreamAvoiding(m, p, seen, tool))
  }

  /** A walk that comes back to `key` can be cut there: some parent already contributes. */
  lemma {:induction false} CutWalk(m: StepTable, path: seq<string>, key: string, avoid: set<string>, tool: string)
    requires Leads(m, path, key, avoid, tool)
    ensures exists p :: p in m[key].dependsOn && Contributes(m, p, avoid + {key}, tool)
    decreases |path|
  {
    assert path[1] in m[path[0]].dependsOn;
    if |path| == 2 {
      assert Contributes(m, path[1], avoid + {key}, tool);
    } else if exists i :: 1 <= i < |path| - 1 && path[i] == key {
      var i :| 1 <= i < |path| - 1 && path[i] == key;
      CutWalk(m, path[i..], key, avoid, tool);
    } else {
      var rest := path[1..];
      assert Leads(m, rest, path[1], avoid + {key}, tool);
      assert Contributes(m, path[1], avoid + {key}, tool);
    }
  }

  /** Copying `seen` per path loses nothing: the parents' contributions are all the upstream tools. */
  lemma UpstreamFromParents(m: StepTable, key: string, avoid: set<string>, tool: string)
    requires key in m
    ensures UpstreamAvoiding(m, key, avoid, tool) <==>
              key !in avoid && exists p :: p in m[key].dependsOn && Contributes(m, p, avoid + {key}, tool)
  {
    if UpstreamAvoiding(m, key, avoid, tool) {
      var path :| Leads(m, path, key, avoid, tool);
      assert path[0] !in avoid;
      CutWalk(m, path, key, avoid, tool);
    }
    if key !in avoid && exists p :: p in m[key].dependsOn && Contributes(m, p, avoid + {key}, tool) {
      var p :| p in m[key].dependsOn && Contributes(m, p, avoid + {key}, tool);
      if m[p].tool == tool {
        assert Leads(m, [key, p], key, avoid, tool);
      } else {
        var path :| Leads(m, path, p, avoid + {key}, tool);
        assert Leads(m, [key] + path, key, avoid, tool);
      }
    }
  }

  /** `upstream_tools`: it runs before the cycle check and ends on cyclic graphs too. */
  method UpstreamTools(m: StepTable, key: string, visited: set<string>) returns (tools: set<string>)
    requires key in m
    ensures forall t :: t in tools <==> UpstreamAvoiding(m, key, visited, t)
    decreases m.Keys - visited
  {
    var seen := visited;
    if key in seen {
      forall t ensures !UpstreamAvoiding(m, key, visited, t) {
        UpstreamFromParents(m, key, visited, t);
      }
      return {};
    }
    seen := seen + {key};
    tools := {};
    var deps := m[key].dependsOn;
    var i := 0;
    while i < |deps|
      invariant 0 <= i <= |deps|
      invariant forall t :: t in tools <==> exists j :: 0 <= j < i && Contributes(m, deps[j], seen, t)
    {
      if deps[i] in m {
        var further := UpstreamTools(m, deps[i], seen);
        tools := tools + {m[deps[i]].tool} + further;
      }
      i := i + 1;
    }
    forall t ensures t in tools <==> UpstreamAvoiding(m, key, visited, t) {
      UpstreamFromParents(m, key, visited, t);
    }
  }

  const EXTRACT := "content.extract_metadata"
  const APPLY := "posts.apply_analysis"
  const LIST_RECENT := "posts.list_recent"
  const FILTER_MISSING := "posts.filter_missing_tags"

  /** What a step lacks: analysis needs an object scope from the context or from upstream, a write needs
      an analysis upstream. */
  ghost function ScopeFault(m: StepTable, step: StepProposal, hasContextScope: bool): Option<GraphError> {
    if step.tool == EXTRACT && !hasContextScope
       && !Upstream(m, step.key, LIST_RECENT) && !Upstream(m, step.key, FILTER_MISSING)
    then Some(ScopeMissing)
    else if step.tool == APPLY && !Upstream(m, step.key, EXTRACT) then Some(WriteInputMissing)
    else None
  }

  method ValidateStepScope(m: StepTable, step: StepProposal, hasContextScope: bool) returns (r: Result<(), GraphError>)
    requires step.key in m
    ensures match ScopeFault(m, step, hasContextScope)
            case None => r == Success(())
            case Some(fault) => r == Failure(fault)
  {
    var upstream := UpstreamTools(m, step.key, {});
    if step.tool == EXTRACT && !hasContextScope && LIST_RECENT !in upstream && FILTER_MISSING !in upstream {
      return Failure(ScopeMissing);
    }
    if step.tool == APPLY && EXTRACT !in upstream {
      return Failure(WriteInputMissing);
    }
    return Success(());
  }

  /** What the first step that lacks something lacks. */
  ghost function FirstScopeFault(m: StepTable, steps: seq<StepProposal>, hasContextScope: bool,
                                 i: nat): (fault: Option<GraphError>)
    ensures fault.None? <==> forall j :: i <= j < |steps| ==> ScopeFault(m, steps[j], hasContextScope).None?
    decreases |steps| - i
  {
    if i >= |steps| then None
    else if ScopeFault(m, steps[i], hasContextScope).Some? then ScopeFault(m, steps[i], hasContextScope)
    else FirstScopeFault(m, steps, hasContextScope, i + 1)
  }

  /** A step that has what it needs: an object scope for an analysis, from the context or upstream, and an analysis
      upstream for a write of its results. */
  ghost predicate Supplied(m: StepTable, step: StepProposal, hasContextScope: bool) {
    && (step.tool == EXTRACT ==>
          hasContextScope || Upstream(m, step.key, LIST_RECENT) || Upstream(m, step.key, FILTER_MISSING))
    && (step.tool == APPLY ==> Upstream(m, step.key, EXTRACT))
  }

  lemma SuppliedIff(m: StepTable, step: StepProposal, hasContextScope: bool)
    ensures ScopeFault(m, step, hasContextScope).None? <==> Supplied(m, step, hasContextScope)
  {
    assert EXTRACT != APPLY by { assert |EXTRACT| == 24 && |APPLY| == 20; }
  }

  /** Read off the steps: the first one without what it needs decides the error. */
  lemma {:induction false} FirstScopeFaultIs(m: StepTable, steps: seq<StepProposal>, hasContextScope: bool, from: nat,
                                             i: nat)
    requires from <= i <= |steps| && forall j :: from <= j < i ==> Supplied(m, steps[j], hasContextScope)
    requires i < |steps| ==> !Supplied(m, steps[i], hasContextScope)
    ensures i == |steps| ==> FirstScopeFault(m, steps, hasContextScope, from) == None
    ensures i < |steps| ==>
              FirstScopeFault(m, steps, hasContextScope, from) ==
              Some(if steps[i].tool == EXTRACT then ScopeMissing else WriteInputMissing)
    decreases i - from
  {
    assert EXTRACT != APPLY by { assert |EXTRACT| == 24 && |APPLY| == 20; }
    if from < i {
      assert Supplied(m, steps[from], hasContextScope);
      FirstScopeFaultIs(m, steps, hasContextScope, from + 1, i);
    }
  }

  /** `_validate_scope_flow` accepts exactly the proposals whose every step has what it needs upstream, and
      else names what the first faulty step lacks. */
  method ValidateScopeFlow(steps: seq<StepProposal>, hasContextScope: bool) returns (r: Result<(), GraphError>)
    requires Proper(steps)
    ensures r.Success? <==> forall i :: 0 <= i < |steps| ==> ScopeFault(TableOf(steps), steps[i], hasContextScope).None?
    ensures r.Success? <==> forall i :: 0 <= i < |steps| ==> Supplied(TableOf(steps), steps[i], hasContextScope)
    ensures r.Failure? ==> FirstScopeFault(TableOf(steps), steps, hasContextScope, 0) == Some(r.error)
  {
    var table := TableOf(steps);
    ghost var first := FirstScopeFault(table, steps, hasContextScope, 0);
    var i := 0;
    while i < |steps|
      invariant 0 <= i <= |steps| && FirstScopeFault(table, steps, hasContextScope, i) == first
    {
      TableAt(steps, i);
      ghost var fault := ScopeFault(table, steps[i], hasContextScope);
      var checked := ValidateStepScope(table, steps[i], hasContextScope);
      assert checked.Failure? <==> fault.Some?;
      if checked.Failure? {
        assert fault == Some(checked.error);
        return checked;
      }
      i := i + 1;
    }
    assert first.None?;
    return Success(());
  }
}
