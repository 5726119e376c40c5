/**
  What every transaction on a plan keeps, and so what holds in every state of every run: dependency
  order, attempt bounds, conservation at the end, and the published log.
*/
module PlanSafety {
  import opened Results
  import opened ApprovalDesk
  import opened PlanModel

  // ----- steps -----

  /** The statuses a step reaches only through the queue. */
  predicate Claimed(s: Status) {
    s.Queued? || s.Running? || s.Waiting? || s.Done? || s.PartlyDone? || s.Failed? || s.Skipped? || s.Stalled?
  }

  ghost predicate StepOk(su: Setup, steps: seq<Step>, i: nat)
    requires i < |steps|
  {
    var step := steps[i];
    && (Claimed(step.status) || step.attempts >= 1 ==> ParentsAccepted(su, steps, i))
    && (step.status.Blocked? ==> HasUnusableParent(su, steps, i))
    && (Accepted(step.status) || step.status.Running? || step.status.Waiting? || step.status.Skipped? ==>
          step.attempts >= 1)
    && step.attempts <= 2
    && (step.status.Pending? || step.status.Queued? ==> step.attempts <= 1)
    && (step.status.Stalled? ==> step.retryable)
    && (step.run.Some? ==>
          && step.attempts >= 1
          && (Accepted(step.status) || step.status.Waiting? || step.status.Skipped? || step.status.Cancelled?))
  }

  ghost predicate StepsOk(su: Setup, steps: seq<Step>) {
    && |steps| == |su.parents|
    && forall i :: 0 <= i < |steps| ==> StepOk(su, steps, i)
  }

  /** Accepted and unusable steps keep that standing from `before` to `after`. */
  ghost predicate Settled(before: seq<Step>, after: seq<Step>) {
    && |before| == |after|
    && forall i :: 0 <= i < |before| ==>
         (Accepted(before[i].status) ==> Accepted(after[i].status))
         && (Unusable(before[i].status) ==> Unusable(after[i].status))
  }

  lemma SettledKeepsParents(su: Setup, before: seq<Step>, after: seq<Step>, i: nat)
    requires Settled(before, after)
    ensures ParentsAccepted(su, before, i) ==> ParentsAccepted(su, after, i)
    ensures HasUnusableParent(su, before, i) ==> HasUnusableParent(su, after, i)
  {
  }

  /** A transaction that settles standing and treats each changed step well keeps all steps well. */
  lemma SettledKeepsSteps(su: Setup, before: seq<Step>, after: seq<Step>)
    requires StepsOk(su, before) && Settled(before, after)
    requires forall i :: 0 <= i < |after| && after[i] != before[i] ==>
               (ParentsAccepted(su, before, i) ==> ParentsAccepted(su, after, i)) ==> StepOk(su, after, i)
    ensures StepsOk(su, after)
  {
    forall i | 0 <= i < |after| ensures StepOk(su, after, i) {
      SettledKeepsParents(su, before, after, i);
      assert StepOk(su, before, i);
    }
  }

  /** What one blocking pass does, without its recursion. */
  lemma {:induction false} BlockPassEffect(su: Setup, steps: seq<Step>, i: nat)
    ensures var r := BlockPass(su, steps, i);
            forall j :: 0 <= j < |steps| ==>
              if j >= i && steps[j].status.Pending? &&
                 (HasUnusableParent(su, steps, j)
                  || (j < |su.parents| && exists p :: p in su.parents[j] && i <= p < j && Unusable(r[p].status)))
              then r[j] == steps[j].(status := Blocked)
              else r[j] == steps[j]
    decreases |steps| - i
  {
    if i < |steps| {
      var next := if steps[i].status.Pending? && HasUnusableParent(su, steps, i)
                  then steps[i := steps[i].(status := Blocked)] else steps;
      var r := BlockPass(su, steps, i);
      assert r == BlockPass(su, next, i + 1);
      BlockPassEffect(su, next, i + 1);
      assert r[i] == next[i];
      forall j | i < j < |steps| && steps[j].status.Pending? && j < |su.parents|
        ensures (HasUnusableParent(su, next, j)
                 || exists p :: p in su.parents[j] && i + 1 <= p < j && Unusable(r[p].status))
           <==>
               (HasUnusableParent(su, steps, j)
                || exists p :: p in su.parents[j] && i <= p < j && Unusable(r[p].status))
      {
        if HasUnusableParent(su, next, j) && !HasUnusableParent(su, steps, j) {
          var p :| p in su.parents[j] && p < |next| && Unusable(next[p].status);
          assert p == i;
        }
        if exists p :: p in su.parents[j] && i <= p < j && Unusable(r[p].status) {
          var p :| p in su.parents[j] && i <= p < j && Unusable(r[p].status);
          assert p == i ==> HasUnusableParent(su, next, j);
        }
        if HasUnusableParent(su, steps, j) {
          var p :| p in su.parents[j] && p < |steps| && Unusable(steps[p].status);
          assert Unusable(next[p].status);
        }
      }
    }
  }

  lemma {:induction false} BlockPassKeepsSteps(su: Setup, steps: seq<Step>)
    requires StepsOk(su, steps)
    ensures StepsOk(su, BlockPass(su, steps, 0)) && Settled(steps, BlockPass(su, steps, 0))
  {
    var r := BlockPass(su, steps, 0);
    BlockPassEffect(su, steps, 0);
    forall i | 0 <= i < |r| && r[i] != steps[i] ensures StepOk(su, r, i) {
      assert StepOk(su, steps, i);
      if HasUnusableParent(su, steps, i) {
        SettledKeepsParents(su, steps, r, i);
        var p :| p in su.parents[i] && p < |steps| && Unusable(steps[p].status);
        assert !Accepted(steps[p].status);
      } else {
        var p :| p in su.parents[i] && 0 <= p < i && Unusable(r[p].status);
        assert HasUnusableParent(su, r, i);
        assert !Accepted(steps[p].status);
      }
    }
    SettledKeepsSteps(su, steps, r);
  }

  lemma EnqueueKeepsSteps(su: Setup, steps: seq<Step>, ready: seq<nat>)
    requires StepsOk(su, steps) && forall k :: 0 <= k < |ready| ==> Ready(su, steps, ready[k])
    ensures StepsOk(su, Enqueue(steps, ready)) && Settled(steps, Enqueue(steps, ready))
  {
    var after := Enqueue(steps, ready);
    forall i | 0 <= i < |after| && after[i] != steps[i] ensures StepOk(su, after, i) {
      assert StepOk(su, steps, i) && Ready(su, steps, i);
      SettledKeepsParents(su, steps, after, i);
    }
    SettledKeepsSteps(su, steps, after);
  }

  /** One step changes status, and its new status suits it. */
  lemma OneStepKeepsSteps(su: Setup, steps: seq<Step>, i: nat, step: Step)
    requires StepsOk(su, steps) && i < |steps|
    requires Accepted(steps[i].status) ==> Accepted(step.status)
    requires Unusable(steps[i].status) ==> Unusable(step.status)
    requires StepOk(su, steps[i := step], i)
    ensures StepsOk(su, steps[i := step]) && Settled(steps, steps[i := step])
  {
    SettledKeepsSteps(su, steps, steps[i := step]);
  }

  lemma CancelKeepsSteps(su: Setup, steps: seq<Step>)
    requires StepsOk(su, steps)
    ensures StepsOk(su, CancelSteps(steps)) && Settled(steps, CancelSteps(steps))
  {
    var after := CancelSteps(steps);
    forall i | 0 <= i < |after| && after[i] != steps[i] ensures StepOk(su, after, i) {
      assert StepOk(su, steps, i);
      SettledKeepsParents(su, steps, after, i);
    }
    SettledKeepsSteps(su, steps, after);
  }

  lemma StallKeepsSteps(su: Setup, steps: seq<Step>, stale: set<nat>)
    requires StepsOk(su, steps)
    ensures StepsOk(su, StallSteps(steps, stale)) && Settled(steps, StallSteps(steps, stale))
  {
    var after := StallSteps(steps, stale);
    forall i | 0 <= i < |after| && after[i] != steps[i] ensures StepOk(su, after, i) {
      assert StepOk(su, steps, i);
      SettledKeepsParents(su, steps, after, i);
    }
    SettledKeepsSteps(su, steps, after);
  }

  // ----- retry -----

  /** The affected set holds the roots and is closed under children, and nothing else is in it. */
  lemma AffectedIsClosure(su: Setup, roots: set<nat>, i: nat)
    requires su.Valid() && i < |su.parents|
    ensures i in Affected(su, roots) <==> i in roots || exists p :: p in su.parents[i] && p in Affected(su, roots)
  {
    if i in roots {
      assert Path(su, [i]) && [i][0] in roots && [i][|[i]| - 1] == i;
    }
    if exists p :: p in su.parents[i] && p in Affected(su, roots) {
      var p :| p in su.parents[i] && p in Affected(su, roots);
      var path :| Path(su, path) && path[0] in roots && path[|path| - 1] == p;
      var longer := path + [i];
      assert Path(su, longer) && longer[0] in roots && longer[|longer| - 1] == i;
    }
    if i in Affected(su, roots) && i !in roots {
      var path :| Path(su, path) && path[0] in roots && path[|path| - 1] == i;
      assert |path| >= 2;
      var shorter := path[..|path| - 1];
      assert Path(su, shorter) && shorter[0] in roots && shorter[|shorter| - 1] == path[|path| - 2];
      assert path[|path| - 2] in Affected(su, roots);
    }
  }

  lemma {:induction false} PathStaysInside(su: Setup, s: set<nat>, path: seq<nat>)
    requires Path(su, path) && path[0] in s
    requires forall i, p :: 0 <= i < |su.parents| && p in su.parents[i] && p in s ==> i in s
    ensures path[|path| - 1] in s
    decreases |path|
  {
    if |path| > 1 {
      PathStaysInside(su, s, path[..|path| - 1]);
    }
  }

  /** It is the least such set: any other one contains it. */
  lemma AffectedIsLeast(su: Setup, roots: set<nat>, s: set<nat>)
    requires su.Valid() && roots <= s
    requires forall i, p :: 0 <= i < |su.parents| && p in su.parents[i] && p in s ==> i in s
    ensures Affected(su, roots) <= s
  {
    forall i | i in Affected(su, roots) ensures i in s {
      var path :| Path(su, path) && path[0] in roots && path[|path| - 1] == i;
      PathStaysInside(su, s, path);
    }
  }

  /** Along a path from a root, everything past the root was never claimed. */
  lemma {:induction false} DownstreamUnclaimed(su: Setup, steps: seq<Step>, path: seq<nat>)
    requires su.Valid() && StepsOk(su, steps) && Path(su, path) && path[0] in Roots(steps)
    ensures var last := path[|path| - 1];
            && last < |steps|
            && !Accepted(steps[last].status)
            && (|path| > 1 ==> steps[last].attempts == 0 && !Claimed(steps[last].status))
    decreases |path|
  {
    var last := path[|path| - 1];
    if |path| > 1 {
      var shorter := path[..|path| - 1];
      DownstreamUnclaimed(su, steps, shorter);
      assert shorter[|shorter| - 1] in su.parents[last];
      assert StepOk(su, steps, last);
    }
  }

  /** Retry resets its roots and, besides them, only steps that never started: no success, no partial
      success, no rejected write, nothing busy and nothing waiting is ever reset. */
  lemma RetrySparesFinishedWork(su: Setup, steps: seq<Step>, i: nat)
    requires su.Valid() && StepsOk(su, steps) && i in Affected(su, Roots(steps))
    ensures i < |steps|
    ensures RetryRoot(steps[i]) || (steps[i].attempts == 0 && !Claimed(steps[i].status))
    ensures !Accepted(steps[i].status) && !steps[i].status.Skipped?
    ensures !steps[i].status.Waiting? && !Busy(steps[i].status)
    ensures steps[i].run.None?
  {
    var path :| Path(su, path) && path[0] in Roots(steps) && path[|path| - 1] == i;
    DownstreamUnclaimed(su, steps, path);
    assert StepOk(su, steps, i);
  }

  lemma ResetKeepsSteps(su: Setup, steps: seq<Step>)
    requires su.Valid() && StepsOk(su, steps)
    ensures StepsOk(su, ResetSteps(steps, Affected(su, Roots(steps))))
  {
    var affected := Affected(su, Roots(steps));
    var after := ResetSteps(steps, affected);
    forall i | 0 <= i < |after| ensures StepOk(su, after, i) {
      assert StepOk(su, steps, i);
      AffectedIsClosure(su, Roots(steps), i);
      if i in affected {
        RetrySparesFinishedWork(su, steps, i);
      }
      if ParentsAccepted(su, steps, i) {
        forall p | p in su.parents[i] ensures Accepted(after[p].status) {
          if p in affected { RetrySparesFinishedWork(su, steps, p); }
        }
      }
      if i !in affected && steps[i].status.Blocked? {
        var p :| p in su.parents[i] && p < |steps| && Unusable(steps[p].status);
        assert p !in affected && after[p] == steps[p];
      }
    }
  }

  // ----- the plan row, its task, and the end of a plan -----

  /** Finishing conserves: every step is terminal and the counts are those of the step table. A
      cancelled plan has nothing left that could be claimed or decided. A plan that waits for the user
      has a step that does. */
  ghost predicate PlanOk(su: Setup, s: State) {
    && su.task < |s.desk.tasks| && s.desk.tasks[su.task].owner == su.owner
    && (Finished(s.plan.status) ==>
          && AllTerminal(s.steps)
          && s.plan == Tally(s.steps, s.plan.version)
          && s.desk.tasks[su.task].status == TaskOf(s.plan.status))
    && (s.plan.status.PlanCancelled? ==>
          && (forall i :: 0 <= i < |s.steps| ==> !Cancellable(s.steps[i].status))
          && !s.desk.tasks[su.task].status.TaskWaiting?)
    && (s.plan.status.PlanWaitingUser? ==> AnyWaiting(s.steps))
  }

  // ----- the link between steps and pending writes -----

  /** The plan's own pending writes. */
  ghost predicate Own(su: Setup, d: DeskState, p: nat) {
    p < |d.pendings| && d.pendings[p].task == su.task
  }

  /** A pending write of the plan belongs to the one step that executed as its run, and the decision
      on it agrees with that step. */
  ghost predicate Linked(su: Setup, s: State, p: nat)
    requires p < |s.desk.pendings|
  {
    exists i :: 0 <= i < |s.steps| && s.steps[i].run == Some(s.desk.pendings[p].run) &&
                Agrees(s.steps[i].status, s.desk.pendings[p].decision)
  }

  predicate Agrees(status: Status, decision: Decision) {
    match decision
    case Undecided => status.Waiting? || status.Cancelled?
    case Approved => status.Done? || status.Cancelled?
    case Rejected => status.Skipped? || status.Cancelled?
  }

  ghost predicate DeskOk(su: Setup, s: State) {
    && Balanced(s.desk) && ApprovalDesk.WellFormed(s.desk, su.box)
    && (forall i :: 0 <= i < |s.steps| && s.steps[i].run.Some? ==>
          s.steps[i].run.value < |s.desk.runs| && s.desk.runs[s.steps[i].run.value].task == su.task)
    && (forall i, j :: 0 <= i < j < |s.steps| && s.steps[i].run.Some? ==> s.steps[i].run != s.steps[j].run)
    && (forall p: nat :: Own(su, s.desk, p) ==> Linked(su, s, p))
    && (forall p: nat, q: nat :: Own(su, s.desk, p) && Own(su, s.desk, q) && p != q ==>
          s.desk.pendings[p].run != s.desk.pendings[q].run)
    && (forall i :: 0 <= i < |s.steps| && (s.steps[i].status.Waiting? || s.steps[i].status.Skipped?) ==>
          HasWrite(su, s, i))
    && (forall p: nat :: Own(su, s.desk, p) && s.desk.pendings[p].decision.Undecided? ==> Open(s.desk, p))
  }

  /** The run behind a write waits for the decision on it. */
  ghost predicate Open(d: DeskState, p: nat)
    requires p < |d.pendings|
  {
    d.pendings[p].run < |d.runs| && d.runs[d.pendings[p].run].status.RunWaiting?
  }

  ghost predicate HasWrite(su: Setup, s: State, i: nat)
    requires i < |s.steps|
  {
    exists p: nat :: Own(su, s.desk, p) && s.steps[i].run == Some(s.desk.pendings[p].run)
  }

  // ----- the event log and the attempt rows -----

  /** `f` repeats `e`, with the same version and steps, or carries the next version. */
  ghost predicate Continues(e: Snapshot, f: Snapshot) {
    || (f.plan.version == e.plan.version && f.steps == e.steps)
    || f.plan.version == e.plan.version + 1
  }

  /** Published versions start at one and grow one at a time, and the last snapshot shows the steps and the version
      as they are now. */
  ghost predicate LogOk(s: State) {
    && |s.events| >= 1 && s.events[0].plan.version == 1
    && (forall k :: 0 < k < |s.events| ==> Continues(s.events[k - 1], s.events[k]))
    && s.events[|s.events| - 1].steps == s.steps
    && s.events[|s.events| - 1].plan.version == s.plan.version
  }

  /** Attempt keys never repeat: a running step has not yet committed its current attempt. */
  ghost predicate AttemptsOk(s: State) {
    && (forall k :: 0 <= k < |s.attempts| ==>
          s.attempts[k].0 < |s.steps| && s.attempts[k].1 <= s.steps[s.attempts[k].0].attempts)
    && (forall k :: 0 <= k < |s.attempts| && s.steps[s.attempts[k].0].status.Running? ==>
          s.attempts[k].1 < s.steps[s.attempts[k].0].attempts)
    && (forall j, k :: 0 <= j < k < |s.attempts| ==> s.attempts[j] != s.attempts[k])
  }

  ghost predicate Inv(su: Setup, s: State) {
    && su.Valid()
    && StepsOk(su, s.steps)
    && PlanOk(su, s)
    && DeskOk(su, s)
    && LogOk(s)
    && AttemptsOk(s)
  }
}
