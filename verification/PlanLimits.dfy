/** Where the plan engine promises less than one might expect, and exactly when. */
module PlanLimits {
  import opened Results
  import opened ApprovalDesk
  import opened PlanModel
  import opened PlanSafety
  import opened PlanRuns
  import opened PlanTheorems
  import opened PlanProgress

  // ----- a stalled step can become impossible to retry -----

  /** A stalled plan can be retried. A pass that sees a stalled step leaves the plan in that status exactly
      when no confirmation is open, nothing is busy, and the cap is zero or no pending step is ready;
      otherwise retry is refused. */
  lemma PassForgetsStallIff(su: Setup, s: State, cap: nat)
    requires Inv(su, s) && s.plan.status.PlanStalled? && AnyStalled(s.steps)
    ensures var t := Coordinate(su, s, cap).0;
            && (t.plan.status.PlanStalled? <==>
                  && !AnyWaiting(s.steps) && Count(s.steps, Busy) == 0
                  && (cap == 0 || forall i: nat :: !Ready(su, s.steps, i)))
            && (!t.plan.status.PlanStalled? ==> !Retryable(t))
  {
    StalledPassStatus(su, s, cap);
    if !AnyWaiting(s.steps) && Count(s.steps, Busy) == 0 {
      IdleClaimsNothingIff(su, s.steps, cap);
    }
  }

  lemma {:induction false} StalledPassStatus(su: Setup, s: State, cap: nat)
    requires StepsOk(su, s.steps) && s.plan.status.PlanStalled? && AnyStalled(s.steps)
    ensures Coordinate(su, s, cap).0.plan.status ==
            if AnyWaiting(s.steps) then PlanWaitingUser
            else if Claimable(su, BlockPass(su, s.steps, 0), cap) != [] || Count(s.steps, Busy) > 0 then PlanRunning
            else PlanStalled
  {
    PassKeepsWaiting(su, s.steps, cap);
    QueueingKeepsBusyCount(su, s.steps, cap);
    StalledStaysOpen(su, s.steps, cap);
  }

  /** Blocking neither makes a step ready nor takes readiness away. */
  lemma {:induction false} BlockingKeepsReady(su: Setup, steps: seq<Step>, i: nat)
    ensures Ready(su, BlockPass(su, steps, 0), i) <==> Ready(su, steps, i)
  {
    var blocked := BlockPass(su, steps, 0);
    BlockPassEffect(su, steps, 0);
    if Ready(su, steps, i) {
      assert forall p :: p in su.parents[i] ==> blocked[p] == steps[p];
      assert blocked[i] == steps[i];
    }
    if Ready(su, blocked, i) {
      assert forall p :: p in su.parents[i] ==> blocked[p] == steps[p];
    }
  }

  lemma {:induction false} IdleClaimsNothingIff(su: Setup, steps: seq<Step>, cap: nat)
    requires !AnyWaiting(steps) && Count(steps, Busy) == 0
    ensures Claimable(su, BlockPass(su, steps, 0), cap) == [] <==> cap == 0 || forall i: nat :: !Ready(su, steps, i)
  {
    var blocked := BlockPass(su, steps, 0);
    BlockPassEffect(su, steps, 0);
    assert !AnyWaiting(blocked);
    CountShrinks(steps, blocked, Busy);
    ClaimsNothingIff(su, blocked, cap);
    forall i: nat ensures Ready(su, blocked, i) <==> Ready(su, steps, i) {
      BlockingKeepsReady(su, steps, i);
    }
  }

  lemma StalledStaysOpen(su: Setup, steps: seq<Step>, cap: nat)
    requires StepsOk(su, steps) && AnyStalled(steps)
    ensures !AllTerminal(PassSteps(su, steps, cap))
  {
    var i :| 0 <= i < |steps| && steps[i].status.Stalled?;
    PassKeepsSteps(su, steps, cap);
    assert PassSteps(su, steps, cap)[i].status.Stalled?;
  }

  lemma {:induction false} QueueingKeepsBusyCount(su: Setup, steps: seq<Step>, cap: nat)
    ensures var ready := Claimable(su, BlockPass(su, steps, 0), cap);
            Count(PassSteps(su, steps, cap), Busy) > 0 <==> ready != [] || Count(steps, Busy) > 0
  {
    var blocked := BlockPass(su, steps, 0);
    var ready := Claimable(su, blocked, cap);
    var after := PassSteps(su, steps, cap);
    BlockPassEffect(su, steps, 0);
    if ready != [] {
      assert Busy(after[ready[0]].status);
    } else {
      assert after == blocked;
      CountShrinks(steps, blocked, Busy);
      CountShrinks(blocked, steps, Busy);
    }
  }

  /** Nothing works on the plan and nothing waits for the user; every pending step is held, a step is
      stalled, and the plan's status says neither that it is stalled nor that it has ended. */
  ghost predicate Stranded(su: Setup, s: State) {
    && Idle(s.steps) && !AnyWaiting(s.steps) && AnyStalled(s.steps)
    && !TerminalPlan(s.plan.status) && !s.plan.status.PlanStalled?
    && forall i :: 0 <= i < |s.steps| && s.steps[i].status.Pending? ==> Held(su, s.steps, i)
  }

  /** The rows of the plan are the same, and its log at most repeats them; the desk may change. */
  ghost predicate SamePlan(s: State, t: State) {
    && t.steps == s.steps && t.plan == s.plan && t.attempts == s.attempts
    && s.events <= t.events
    && forall k :: |s.events| <= k < |t.events| ==> t.events[k] == Snapshot(s.plan, s.steps)
  }

  /** A stranded plan is changed only by a worker that reports the failure of its stalled step after all, and
      by cancelling it. No pass, start, execution, decision, watchdog, retry or other task changes it. */
  lemma StrandedChangesIff(su: Setup, s: State, a: Action)
    requires Inv(su, s) && Enabled(su, s, a) && Stranded(su, s)
    ensures SamePlan(s, Perform(su, s, a)) <==> !a.FailStep? && !a.CancelPlan?
  {
    assert !AllTerminal(s.steps);
    match a
    case CoordinatePlan(cap) => HeldPassIsQuiet(su, s, cap);
    case DecideWrite(user, p, choice, facts) => ConfirmSteps(su, s, user, p, choice, facts);
    case _ =>
  }

  lemma StrandedStays(su: Setup, s: State, a: Action)
    requires Inv(su, s) && Enabled(su, s, a) && Stranded(su, s) && !a.FailStep? && !a.CancelPlan?
    ensures SamePlan(s, Perform(su, s, a)) && Stranded(su, Perform(su, s, a))
  {
    StrandedChangesIff(su, s, a);
  }

  /** The steps of a history from `j` to `k` leave a stranded plan as it is. */
  ghost predicate LeaveStranded(su: Setup, states: seq<State>, j: nat, k: nat)
    requires k < |states|
  {
    forall n: nat :: j <= n < k && Stranded(su, states[n]) ==>
      SamePlan(states[n], states[n + 1]) && Stranded(su, states[n + 1])
  }

  lemma RunLeavesStranded(su: Setup, states: seq<State>, acts: seq<Action>, j: nat, k: nat)
    requires IsRun(su, states, acts) && j <= k < |states|
    requires forall n :: j <= n < k ==> !acts[n].FailStep? && !acts[n].CancelPlan?
    ensures LeaveStranded(su, states, j, k)
  {
    forall n: nat | j <= n < k && Stranded(su, states[n])
      ensures SamePlan(states[n], states[n + 1]) && Stranded(su, states[n + 1])
    {
      RunInv(su, states, acts, n);
      StrandedStays(su, states[n], acts[n]);
    }
  }

  lemma {:induction false} StrandedTo(su: Setup, states: seq<State>, j: nat, k: nat)
    requires j <= k < |states| && LeaveStranded(su, states, j, k) && Stranded(su, states[j])
    ensures SamePlan(states[j], states[k]) && Stranded(su, states[k])
    decreases k
  {
    if j < k {
      StrandedTo(su, states, j, k - 1);
    }
  }

  /** Hence it stays as it is over every run without those two, whatever else happens and in whatever order:
      its retryable step stays stalled and the plan open, and retry is refused. */
  lemma StrandedPlan(su: Setup, states: seq<State>, acts: seq<Action>, j: nat, k: nat)
    requires IsRun(su, states, acts) && j <= k < |states| && Stranded(su, states[j])
    requires forall n :: j <= n < k ==> !acts[n].FailStep? && !acts[n].CancelPlan?
    ensures SamePlan(states[j], states[k]) && Stranded(su, states[k])
    ensures Retry(su, states[k]) == states[k]
  {
    RunLeavesStranded(su, states, acts, j, k);
    StrandedTo(su, states, j, k);
  }

  lemma HeldPassIsQuiet(su: Setup, s: State, cap: nat)
    requires Inv(su, s) && Idle(s.steps) && !AnyWaiting(s.steps) && !AllTerminal(s.steps)
    requires !TerminalPlan(s.plan.status)
    requires forall i :: 0 <= i < |s.steps| && s.steps[i].status.Pending? ==> Held(su, s.steps, i)
    ensures Coordinate(su, s, cap).0 == s
  {
    HeldIsUntouched(su, s.steps, cap);
    QueueingShows(su, s.steps, cap);
    assert Count(s.steps, Busy) == 0;
    assert s.(steps := s.steps) == s;
  }

  // ----- the write of a cancelled step -----

  /** A decision on the write of a cancelled step goes through exactly as for a waiting one, if the
      plan's task waits; the step stays cancelled. */
  lemma CancelledWriteDecidableIff(su: Setup, s: State, i: nat, p: nat, facts: CallFacts)
    requires Inv(su, s) && i < |s.steps| && s.steps[i].status.Cancelled?
    requires Own(su, s.desk, p) && s.desk.pendings[p].decision.Undecided?
    requires s.steps[i].run == Some(s.desk.pendings[p].run)
    ensures var (t, outcome) := Confirm(su, s, su.owner, p, Approve, facts);
            && (outcome.Success? <==>
                  && s.desk.tasks[su.task].status.TaskWaiting?
                  && Answers(facts, su.box[s.desk.pendings[p].tool]))
            && (outcome.Success? ==> p in t.desk.performed && t.steps == s.steps)
  {
    assert StepOfWrite(s, p) == Some(i) && Open(s.desk, p);
    ApprovalSucceedsIff(s.desk, su.box, su.owner, su.task, p, true, facts);
  }

  /** So cancelling does not withdraw an open preview for good: if another step was running, its own
      preview reopens the task, and the cancelled step's write can be approved and committed. */
  lemma CancelledWriteCanStillCommit(su: Setup, s: State, i: nat, j: nat, facts: CallFacts)
    requires Inv(su, s) && i < |s.steps| && j < |s.steps|
    requires s.steps[i].status.Waiting? && s.steps[j].status.Running?
    requires su.Writes(j)
    ensures var t := Execute(su, Cancel(su, s).0, j, Previews);
            exists p: nat :: Own(su, t.desk, p) && t.steps[i].run == Some(t.desk.pendings[p].run) &&
              var (u, outcome) := Confirm(su, t, su.owner, p, Approve, facts);
              && t.desk.pendings[p].tool in su.box
              && (Answers(facts, su.box[t.desk.pendings[p].tool]) ==>
                    outcome.Success? && p in u.desk.performed && u.steps[i].status.Cancelled?)
  {
    assert HasWrite(su, s, i);
    var p: nat :| Own(su, s.desk, p) && s.steps[i].run == Some(s.desk.pendings[p].run);
    assert Linked(su, s, p);
    assert s.desk.pendings[p].decision.Undecided?;
    var c := Cancel(su, s).0;
    CancelEffect(su, s, i, j, p);
    ReopenEffect(su, c, i, j, p);
    CancelledWriteDecidableIff(su, Execute(su, c, j, Previews), i, p, facts);
  }

  lemma CancelEffect(su: Setup, s: State, i: nat, j: nat, p: nat)
    requires Inv(su, s) && i < |s.steps| && j < |s.steps| && s.steps[i].status.Waiting? && s.steps[j].status.Running?
    requires Own(su, s.desk, p) && s.desk.pendings[p].decision.Undecided?
    requires s.steps[i].run == Some(s.desk.pendings[p].run)
    ensures var c := Cancel(su, s).0;
            && Inv(su, c) && |c.steps| == |s.steps|
            && c.steps[i] == s.steps[i].(status := Cancelled) && c.steps[j] == s.steps[j]
            && c.desk.pendings == s.desk.pendings && c.desk.runs == s.desk.runs
  {
    OpenWhileWaiting(su, s, i);
    CancelKeeps(su, s);
  }

  lemma ReopenEffect(su: Setup, c: State, i: nat, j: nat, p: nat)
    requires Inv(su, c) && i < |c.steps| && j < |c.steps| && c.steps[i].status.Cancelled? && c.steps[j].status.Running?
    requires Own(su, c.desk, p) && c.desk.pendings[p].decision.Undecided?
    requires c.steps[i].run == Some(c.desk.pendings[p].run)
    requires su.Writes(j)
    ensures var t := Execute(su, c, j, Previews);
            && Inv(su, t) && |t.steps| == |c.steps| && t.steps[i] == c.steps[i]
            && Own(su, t.desk, p) && t.desk.pendings[p] == c.desk.pendings[p]
            && t.desk.tasks[su.task].status.TaskWaiting?
  {
    ExecuteKeeps(su, c, j, Previews);
    PreviewEffect(su, c, j);
  }

  lemma OpenWhileWaiting(su: Setup, s: State, i: nat)
    requires Inv(su, s) && i < |s.steps| && s.steps[i].status.Waiting?
    ensures !TerminalPlan(s.plan.status)
  {
    assert Cancellable(s.steps[i].status) && !Terminal(s.steps[i].status);
  }
}
