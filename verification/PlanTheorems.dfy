/**
  What holds in every reachable state of a plan, stated for a reader of the plan rather than for the
  proofs that establish it.
*/
module PlanTheorems {
  import opened Results
  import opened ApprovalDesk
  import opened PlanModel
  import opened PlanSafety
  import opened PlanRuns

  ghost predicate Reachable(su: Setup, s: State) {
    exists states, acts, k: nat :: IsRun(su, states, acts) && k < |states| && states[k] == s
  }

  lemma ReachableInv(su: Setup, s: State)
    requires Reachable(su, s)
    ensures Inv(su, s)
  {
    var states, acts, k: nat :| IsRun(su, states, acts) && k < |states| && states[k] == s;
    RunInv(su, states, acts, k);
  }

  // ----- dependency order and blocking -----

  /** No step leaves the pending, blocked and cancelled ones, or starts, unless all its parents have succeeded, at
      least in part; a step is blocked only while one of its parents has failed or was blocked, skipped or cancelled;
      and a step starts at most twice. */
  lemma DependencyOrder(su: Setup, s: State, i: nat)
    requires Reachable(su, s) && i < |s.steps|
    ensures |s.steps| == |su.parents|
    ensures s.steps[i].status !in {Pending, Blocked, Cancelled} || s.steps[i].attempts >= 1 ==>
              forall p :: p in su.parents[i] ==> p < |s.steps| && s.steps[p].status in {Done, PartlyDone}
    ensures s.steps[i].status == Blocked ==>
              exists p :: p in su.parents[i] && p < |s.steps|
                          && s.steps[p].status in {Failed, Blocked, Skipped, Cancelled}
    ensures s.steps[i].attempts <= 2
    ensures s.steps[i].status.Running? ==> s.steps[i].attempts >= 1
  {
    ReachableInv(su, s);
    assert StepOk(su, s.steps, i);
  }

  /** The idempotency keys of committed attempts never repeat. */
  lemma AttemptKeysUnique(su: Setup, s: State)
    requires Reachable(su, s)
    ensures forall j, k :: 0 <= j < k < |s.attempts| ==> s.attempts[j] != s.attempts[k]
    ensures forall k :: 0 <= k < |s.attempts| ==> s.attempts[k].0 < |s.steps| && s.attempts[k].1 <= 2
  {
    ReachableInv(su, s);
    forall k | 0 <= k < |s.attempts| ensures s.attempts[k].0 < |s.steps| && s.attempts[k].1 <= 2 {
      assert StepOk(su, s.steps, s.attempts[k].0);
    }
  }

  lemma {:induction false} PassWhileWaiting(su: Setup, steps: seq<Step>, cap: nat)
    requires AnyWaiting(steps)
    ensures Claimable(su, BlockPass(su, steps, 0), cap) == [] && AnyWaiting(BlockPass(su, steps, 0))
    ensures forall i :: 0 <= i < |steps| && PassSteps(su, steps, cap)[i].status.Queued? ==> steps[i].status.Queued?
  {
    BlockPassEffect(su, steps, 0);
    var i :| 0 <= i < |steps| && steps[i].status.Waiting?;
    assert BlockPass(su, steps, 0)[i].status.Waiting?;
  }

  /** A coordinate pass that sees a waiting confirmation queues nothing. */
  lemma NothingQueuedWhileWaiting(su: Setup, s: State, cap: nat)
    requires AnyWaiting(s.steps)
    ensures Coordinate(su, s, cap).1 == []
    ensures |Coordinate(su, s, cap).0.steps| == |s.steps|
    ensures forall i :: 0 <= i < |s.steps| && Coordinate(su, s, cap).0.steps[i].status.Queued? ==>
              s.steps[i].status.Queued?
  {
    PassWhileWaiting(su, s.steps, cap);
  }

  // ----- the concurrency cap -----

  ghost function Having(steps: seq<Step>, f: Status -> bool): set<nat> {
    set i: nat | i < |steps| && f(steps[i].status)
  }

  lemma {:induction false} CountIsSize(steps: seq<Step>, f: Status -> bool)
    ensures Count(steps, f) == |Having(steps, f)|
    decreases |steps|
  {
    if steps == [] {
      assert Having(steps, f) == {};
    } else {
      var n := |steps| - 1;
      CountIsSize(steps[..n], f);
      assert Having(steps, f) == Having(steps[..n], f) + if f(steps[n].status) then {n} else {};
    }
  }

  lemma SubsetSize(a: set<nat>, b: set<nat>)
    requires a <= b
    ensures |a| <= |b|
    decreases b
  {
    if a != {} {
      var x :| x in a;
      SubsetSize(a - {x}, b - {x});
    }
  }

  ghost function Elements(s: seq<nat>): set<nat> {
    set x | x in s
  }

  lemma {:induction false} ElementsSize(s: seq<nat>)
    ensures |Elements(s)| <= |s|
    decreases |s|
  {
    if s != [] {
      ElementsSize(s[1..]);
      assert Elements(s) == {s[0]} + Elements(s[1..]);
    }
  }

  /** Fewer steps satisfy `f` if none begins to, and strictly fewer if one ceases to. */
  lemma {:induction false} CountShrinks(before: seq<Step>, after: seq<Step>, f: Status -> bool)
    requires |before| == |after|
    requires forall i :: 0 <= i < |after| && f(after[i].status) ==> f(before[i].status)
    ensures Count(after, f) <= Count(before, f)
    ensures (exists i :: 0 <= i < |after| && f(before[i].status) && !f(after[i].status)) ==>
              Count(after, f) < Count(before, f)
  {
    CountIsSize(before, f);
    CountIsSize(after, f);
    SubsetSize(Having(after, f), Having(before, f));
    if exists i :: 0 <= i < |after| && f(before[i].status) && !f(after[i].status) {
      var i :| 0 <= i < |after| && f(before[i].status) && !f(after[i].status);
      SubsetSize(Having(after, f), Having(before, f) - {i});
    }
  }

  lemma {:induction false} QueueRespectsCap(steps: seq<Step>, ready: seq<nat>)
    ensures Count(Enqueue(steps, ready), Busy) <= Count(steps, Busy) + |ready|
  {
    var after := Enqueue(steps, ready);
    CountIsSize(steps, Busy);
    CountIsSize(after, Busy);
    ElementsSize(ready);
    SubsetSize(Having(after, Busy), Having(steps, Busy) + Elements(ready));
  }

  lemma {:induction false} PassRespectsCap(su: Setup, steps: seq<Step>, cap: nat)
    ensures || Count(PassSteps(su, steps, cap), Busy) <= cap
            || Count(PassSteps(su, steps, cap), Busy) <= Count(steps, Busy)
  {
    BlockPassEffect(su, steps, 0);
    CountShrinks(steps, BlockPass(su, steps, 0), Busy);
    QueueRespectsCap(BlockPass(su, steps, 0), Claimable(su, BlockPass(su, steps, 0), cap));
  }

  lemma ConfirmSteps(su: Setup, s: State, user: nat, p: nat, choice: Choice, facts: CallFacts)
    ensures var t := Confirm(su, s, user, p, choice, facts).0;
            && |t.steps| == |s.steps|
            && forall i :: 0 <= i < |s.steps| ==>
                 || t.steps[i] == s.steps[i]
                 || (s.steps[i].status.Waiting?
                     && (t.steps[i] == s.steps[i].(status := Done) || t.steps[i] == s.steps[i].(status := Skipped)))
  {
  }

  lemma BusyNarrows(su: Setup, s: State, a: Action)
    requires Enabled(su, s, a) && !a.CoordinatePlan?
    ensures var t := Perform(su, s, a);
            |t.steps| == |s.steps| && forall i :: 0 <= i < |t.steps| && Busy(t.steps[i].status) ==>
                Busy(s.steps[i].status)
  {
    match a
    case DecideWrite(user, p, choice, facts) => ConfirmSteps(su, s, user, p, choice, facts);
    case _ =>
  }

  lemma CoordinateSteps(su: Setup, s: State, cap: nat)
    ensures Coordinate(su, s, cap).0.steps ==
            if TerminalPlan(s.plan.status) then s.steps else PassSteps(su, s.steps, cap)
  {
  }

  lemma CoordinateRespectsCap(su: Setup, s: State, cap: nat, limit: nat)
    requires cap <= limit && Count(s.steps, Busy) <= limit
    ensures Count(Coordinate(su, s, cap).0.steps, Busy) <= limit
  {
    CoordinateSteps(su, s, cap);
    PassRespectsCap(su, s.steps, cap);
  }

  lemma ActionRespectsCap(su: Setup, s: State, a: Action, limit: nat)
    requires Enabled(su, s, a)
    requires a.CoordinatePlan? ==> a.cap <= limit
    requires Count(s.steps, Busy) <= limit
    ensures Count(Perform(su, s, a).steps, Busy) <= limit
  {
    if a.CoordinatePlan? {
      CoordinateRespectsCap(su, s, a.cap, limit);
    } else {
      BusyNarrows(su, s, a);
      CountShrinks(s.steps, Perform(su, s, a).steps, Busy);
    }
  }

  /** However passes, workers, retries and repairs interleave, the queued and running steps never
      outnumber the largest cap a pass was given. */
  lemma {:induction false} CapRespected(su: Setup, states: seq<State>, acts: seq<Action>, k: nat, limit: nat)
    requires IsRun(su, states, acts) && k < |states|
    requires forall j :: 0 <= j < |acts| && acts[j].CoordinatePlan? ==> acts[j].cap <= limit
    ensures Count(states[k].steps, Busy) <= limit
  {
    if k > 0 {
      CapRespected(su, states, acts, k - 1, limit);
      ActionRespectsCap(su, states[k - 1], acts[k - 1], limit);
    }
  }

  lemma {:induction false} IncreasingElements(s: seq<nat>)
    requires forall j, k :: 0 <= j < k < |s| ==> s[j] < s[k]
    ensures |Elements(s)| == |s|
    decreases |s|
  {
    if s != [] {
      IncreasingElements(s[1..]);
      assert Elements(s) == {s[0]} + Elements(s[1..]);
    }
  }

  /** A pass is work-conserving: with no open confirmation, a step that could run is left pending only
      when the cap is used up. */
  lemma PassFillsRoom(su: Setup, steps: seq<Step>, cap: nat, i: nat)
    requires !AnyWaiting(steps) && i < |steps|
    requires Ready(su, PassSteps(su, steps, cap), i)
    ensures Count(PassSteps(su, steps, cap), Busy) >= cap
  {
    var blocked := BlockPass(su, steps, 0);
    BlockPassEffect(su, steps, 0);
    var room := Room(cap, Count(blocked, Busy));
    var ready := Claimable(su, blocked, cap);
    var after := PassSteps(su, steps, cap);
    ReadyFromTakesFirst(su, blocked, 0, room);
    assert i !in ready;
    assert after[i] == blocked[i];
    forall p | p in su.parents[i] ensures p < |blocked| && Accepted(blocked[p].status) {
      assert after[p] == blocked[p];
    }
    assert Ready(su, blocked, i);
    assert |ready| == room;
    QueueAddsBusy(blocked, ready);
  }

  lemma {:induction false} QueueAddsBusy(steps: seq<Step>, ready: seq<nat>)
    requires forall j, k :: 0 <= j < k < |ready| ==> ready[j] < ready[k]
    requires forall k :: 0 <= k < |ready| ==> ready[k] < |steps| && steps[ready[k]].status.Pending?
    ensures Count(Enqueue(steps, ready), Busy) >= Count(steps, Busy) + |ready|
  {
    var after := Enqueue(steps, ready);
    CountIsSize(steps, Busy);
    CountIsSize(after, Busy);
    IncreasingElements(ready);
    assert Having(steps, Busy) !! Elements(ready);
    SubsetSize(Having(steps, Busy) + Elements(ready), Having(after, Busy));
  }

  // ----- retry -----

  /** Every stalled step is one that a retry may restart, unless it has used both attempts. */
  lemma StalledIsRetryRoot(su: Setup, s: State, i: nat)
    requires Reachable(su, s) && i < |s.steps| && s.steps[i].status.Stalled?
    ensures RetryRoot(s.steps[i]) <==> s.steps[i].attempts != 2
    ensures ParentsAccepted(su, s.steps, i)
  {
    ReachableInv(su, s);
    assert StepOk(su, s.steps, i);
  }

  /** Retry acts exactly on the retryable roots and their descendants; the rest keeps its row. A reset
      step that is no root had never started. */
  lemma RetryExact(su: Setup, s: State, i: nat)
    requires Reachable(su, s) && Retryable(s) && i < |s.steps|
    ensures var t := Retry(su, s);
            if i in Affected(su, Roots(s.steps)) then
              && t.steps[i].status.Pending? && t.steps[i].attempts == s.steps[i].attempts
              && (RetryRoot(s.steps[i]) || (s.steps[i].attempts == 0 && !Claimed(s.steps[i].status)))
            else t.steps[i] == s.steps[i]
    ensures i in Affected(su, Roots(s.steps)) <==>
              || RetryRoot(s.steps[i])
              || exists p :: i < |su.parents| && p in su.parents[i] && p in Affected(su, Roots(s.steps))
  {
    ReachableInv(su, s);
    AffectedIsClosure(su, Roots(s.steps), i);
    if i in Affected(su, Roots(s.steps)) {
      RetrySparesFinishedWork(su, s.steps, i);
    }
  }

  /** A step whose work is over: it was accepted, or its write was rejected. */
  predicate WorkOver(s: Status) { Accepted(s) || s.Skipped? }

  lemma RetrySpares(su: Setup, s: State, i: nat)
    requires Inv(su, s) && i < |s.steps| && WorkOver(s.steps[i].status)
    ensures i < |Retry(su, s).steps| && Retry(su, s).steps[i] == s.steps[i]
  {
    if i in Affected(su, Roots(s.steps)) {
      RetrySparesFinishedWork(su, s.steps, i);
    }
  }

  lemma PassSpares(su: Setup, s: State, cap: nat, i: nat)
    requires StepsOk(su, s.steps) && i < |s.steps| && WorkOver(s.steps[i].status)
    ensures var t := Coordinate(su, s, cap).0; i < |t.steps| && t.steps[i] == s.steps[i]
  {
    PassKeepsSteps(su, s.steps, cap);
  }

  /** Success is for ever, and so is a rejection: no transaction, retry included, changes such a step. */
  lemma FinishedStepStays(su: Setup, s: State, a: Action, i: nat)
    requires Inv(su, s) && Enabled(su, s, a) && i < |s.steps| && WorkOver(s.steps[i].status)
    ensures i < |Perform(su, s, a).steps| && Perform(su, s, a).steps[i] == s.steps[i]
  {
    match a
    case CoordinatePlan(cap) => PassSpares(su, s, cap, i);
    case RetryChain => RetrySpares(su, s, i);
    case DecideWrite(user, p, choice, facts) => ConfirmSteps(su, s, user, p, choice, facts);
    case _ =>
  }

  /** `t` has every finished step of `s` as it was. */
  ghost predicate Spares(s: State, t: State) {
    forall i :: 0 <= i < |s.steps| && WorkOver(s.steps[i].status) ==> i < |t.steps| && t.steps[i] == s.steps[i]
  }

  ghost predicate SparesThroughout(states: seq<State>) {
    forall k :: 0 <= k < |states| - 1 ==> Spares(states[k], states[k + 1])
  }

  lemma RunSpares(su: Setup, states: seq<State>, acts: seq<Action>)
    requires IsRun(su, states, acts)
    ensures SparesThroughout(states)
  {
    forall k | 0 <= k < |states| - 1 ensures Spares(states[k], states[k + 1]) {
      RunInv(su, states, acts, k);
      forall i | 0 <= i < |states[k].steps| && WorkOver(states[k].steps[i].status)
        ensures i < |states[k + 1].steps| && states[k + 1].steps[i] == states[k].steps[i]
      {
        FinishedStepStays(su, states[k], acts[k], i);
      }
    }
  }

  lemma {:induction false} SparedFrom(states: seq<State>, j: nat, k: nat)
    requires SparesThroughout(states) && j <= k < |states|
    ensures Spares(states[j], states[k])
    decreases k
  {
    if j < k {
      SparedFrom(states, j, k - 1);
      assert Spares(states[k - 1], states[k - 1 + 1]);
    }
  }

  /** Hence over every run such a step is never reset, restarted or redecided. */
  lemma FinishedWorkIsNeverRedone(su: Setup, states: seq<State>, acts: seq<Action>, j: nat, k: nat, i: nat)
    requires IsRun(su, states, acts) && j <= k < |states| && i < |states[j].steps|
    requires WorkOver(states[j].steps[i].status)
    ensures i < |states[k].steps| && states[k].steps[i] == states[j].steps[i]
  {
    RunSpares(su, states, acts);
    SparedFrom(states, j, k);
  }

  // ----- the end of a plan -----

  lemma {:induction false} TerminalSplits(steps: seq<Step>)
    requires AllTerminal(steps)
    ensures Count(steps, Accepted) + Count(steps, IsFailed) + Count(steps, IsSkipped) == |steps|
    decreases |steps|
  {
    if steps != [] {
      TerminalSplits(steps[..|steps| - 1]);
      assert Terminal(steps[|steps| - 1].status);
    }
  }

  /** A finished plan has only terminal steps and accounts for each of them once; it is a success iff
      all were accepted and a failure iff none was. */
  lemma FinishedPlanConserved(su: Setup, s: State)
    requires Reachable(su, s) && Finished(s.plan.status)
    ensures AllTerminal(s.steps)
    ensures s.plan.completed + s.plan.failed + s.plan.skipped == |su.parents|
    ensures s.plan.completed == Count(s.steps, Accepted) && s.plan.failed == Count(s.steps, IsFailed)
    ensures s.plan.status.PlanSuccess? <==> forall i :: 0 <= i < |s.steps| ==> Accepted(s.steps[i].status)
    ensures s.plan.status.PlanFailed? <==> forall i :: 0 <= i < |s.steps| ==> !Accepted(s.steps[i].status)
  {
    ReachableInv(su, s);
    TerminalSplits(s.steps);
  }

  /** A decision on a finished plan is refused: its task no longer waits. */
  lemma FinishedPlanRefusesDecisions(su: Setup, s: State, user: nat, p: nat, choice: Choice, facts: CallFacts)
    requires Inv(su, s) && Finished(s.plan.status)
    ensures Confirm(su, s, user, p, choice, facts).0 == s
  {
    assert !s.desk.tasks[su.task].status.TaskWaiting?;
    assert DecisionRefusal(s.desk, user, su.task, p, choice).Some?;
  }

  /** Until it is retried, nothing changes a finished plan; it can be announced again as it stands, and other tasks
      change only their own rows. */
  lemma FinishedPlanStable(su: Setup, s: State, a: Action)
    requires Reachable(su, s) && Finished(s.plan.status) && Enabled(su, s, a) && !a.RetryChain?
    ensures !a.Elsewhere? && !a.Republish? ==> Perform(su, s, a) == s
    ensures a.Republish? ==> Perform(su, s, a) == s.(events := s.events + [Snapshot(s.plan, s.steps)])
    ensures a.Elsewhere? ==> Perform(su, s, a).desk.tasks[su.task] == s.desk.tasks[su.task]
    ensures a.Elsewhere? ==> Perform(su, s, a) == s.(desk := Perform(su, s, a).desk)
  {
    ReachableInv(su, s);
    if a.DecideWrite? {
      FinishedPlanRefusesDecisions(su, s, a.user, a.pending, a.choice, a.facts);
    } else if a.Elsewhere? {
      ForeignEffect(su, s, a.act);
    } else if !a.Republish? {
      FinishedPlanIgnoresWorkers(su, s, a);
    }
  }

  lemma FinishedPlanIgnoresWorkers(su: Setup, s: State, a: Action)
    requires Finished(s.plan.status) && AllTerminal(s.steps) && Enabled(su, s, a)
    requires !a.RetryChain? && !a.DecideWrite? && !a.Elsewhere? && !a.Republish?
    ensures Perform(su, s, a) == s
  {
    assert forall i :: 0 <= i < |s.steps| ==> Terminal(s.steps[i].status) && !Busy(s.steps[i].status);
  }

  /** Cancelling is not final. A cancelled plan leaves that status exactly when a step that was already
      running previews a write, or when the watchdog finds one stale. */
  lemma CancelledPlanReopensIff(su: Setup, s: State, a: Action)
    requires Reachable(su, s) && s.plan.status.PlanCancelled? && Enabled(su, s, a)
    ensures !Perform(su, s, a).plan.status.PlanCancelled? <==>
              || (a.ExecuteStep? && a.outcome.Previews? && s.steps[a.i].status.Running?)
              || (a.RepairStalled? && exists i :: 0 <= i < |s.steps| && i in a.stale && s.steps[i].status.Running?)
  {
    ReachableInv(su, s);
    assert forall i :: 0 <= i < |s.steps| ==> !Cancellable(s.steps[i].status);
    match a
    case DecideWrite(user, p, choice, facts) =>
      if Confirm(su, s, user, p, choice, facts).1.Success? {
        DecisionMeetsStep(su, s, user, p, choice, facts);
      }
    case _ =>
  }

  // ----- when a pass changes nothing -----

  /** A pending step that a pass would block at once. */
  ghost predicate Blockable(su: Setup, steps: seq<Step>, i: nat) {
    i < |steps| && steps[i].status.Pending? && HasUnusableParent(su, steps, i)
  }

  lemma {:induction false} NothingBlocked(su: Setup, steps: seq<Step>, i: nat)
    requires forall j: nat :: !Blockable(su, steps, j)
    ensures BlockPass(su, steps, i) == steps
    decreases |steps| - i
  {
    if i < |steps| {
      assert !Blockable(su, steps, i);
      NothingBlocked(su, steps, i + 1);
    }
  }

  lemma BlockableIsBlocked(su: Setup, steps: seq<Step>, cap: nat, i: nat)
    requires Blockable(su, steps, i)
    ensures PassSteps(su, steps, cap) != steps
  {
    BlockPassEffect(su, steps, 0);
    assert BlockPass(su, steps, 0)[i].status.Blocked?;
    assert PassSteps(su, steps, cap)[i].status.Blocked?;
  }

  /** Steps are claimed exactly when no confirmation is open, the cap leaves room and some step is ready. */
  lemma {:induction false} ClaimsNothingIff(su: Setup, steps: seq<Step>, cap: nat)
    ensures Claimable(su, steps, cap) == [] <==>
              AnyWaiting(steps) || Count(steps, Busy) >= cap || forall i: nat :: !Ready(su, steps, i)
  {
    var room := Room(cap, Count(steps, Busy));
    var r := ReadyFrom(su, steps, 0, room);
    ReadyFromTakesFirst(su, steps, 0, room);
    if r != [] {
      assert Ready(su, steps, r[0]) && room > 0;
    } else if room > 0 {
      forall i: nat ensures !Ready(su, steps, i) {
        assert i !in r;
      }
    }
  }

  /** A pass changes nothing exactly when it finds nothing to block, and a confirmation is open, the cap is used
      up, or no pending step has only accepted parents. */
  lemma {:induction false} PassUnchangedIff(su: Setup, steps: seq<Step>, cap: nat)
    ensures PassSteps(su, steps, cap) == steps <==>
              && (forall i: nat :: !Blockable(su, steps, i))
              && (AnyWaiting(steps) || Count(steps, Busy) >= cap || forall i: nat :: !Ready(su, steps, i))
  {
    if i: nat :| Blockable(su, steps, i) {
      BlockableIsBlocked(su, steps, cap, i);
    } else {
      NothingBlocked(su, steps, 0);
      ClaimsNothingIff(su, steps, cap);
      QueueingShows(su, steps, cap);
      assert Enqueue(steps, []) == steps;
    }
  }

  // ----- the published log -----

  /** Snapshots each of which continues the one before it. */
  ghost predicate Chained(events: seq<Snapshot>) {
    forall k :: 0 < k < |events| ==> Continues(events[k - 1], events[k])
  }

  lemma {:induction false} ChainGrows(events: seq<Snapshot>, j: nat, k: nat)
    requires Chained(events) && j <= k < |events|
    ensures events[j].plan.version <= events[k].plan.version
    ensures events[j].plan.version == events[k].plan.version ==> events[j].steps == events[k].steps
    decreases k
  {
    if j < k {
      ChainGrows(events, j, k - 1);
    }
  }

  ghost predicate HasVersion(events: seq<Snapshot>, version: nat) {
    exists k :: 0 <= k < |events| && events[k].plan.version == version
  }

  /** A version up to that of the last snapshot is found in the log. */
  lemma {:induction false} ChainHasVersion(events: seq<Snapshot>, k: nat, version: nat) returns (j: nat)
    requires Chained(events) && k < |events| && events[0].plan.version <= version <= events[k].plan.version
    ensures j <= k && events[j].plan.version == version
  {
    if events[k].plan.version == version {
      j := k;
    } else {
      j := ChainHasVersion(events, k - 1, version);
    }
  }

  /** Published versions never fall, snapshots of one version show the same steps, every version from one to the
      current one is published, and the last snapshot shows the current steps. */
  lemma LogFollowsPlan(su: Setup, s: State)
    requires Reachable(su, s)
    ensures s.events != [] && s.events[0].plan.version == 1
    ensures forall j, k :: 0 <= j <= k < |s.events| ==> s.events[j].plan.version <= s.events[k].plan.version
    ensures forall j, k :: 0 <= j <= k < |s.events| && s.events[j].plan.version == s.events[k].plan.version ==>
              s.events[j].steps == s.events[k].steps
    ensures forall v :: 1 <= v <= s.plan.version ==> HasVersion(s.events, v)
    ensures s.events[|s.events| - 1].steps == s.steps && s.events[|s.events| - 1].plan.version == s.plan.version
  {
    ReachableInv(su, s);
    forall j, k | 0 <= j <= k < |s.events|
      ensures s.events[j].plan.version <= s.events[k].plan.version
      ensures s.events[j].plan.version == s.events[k].plan.version ==> s.events[j].steps == s.events[k].steps
    {
      ChainGrows(s.events, j, k);
    }
    forall v | 1 <= v <= s.plan.version ensures HasVersion(s.events, v) {
      var _ := ChainHasVersion(s.events, |s.events| - 1, v);
    }
  }

  lemma PerformPublishes(su: Setup, s: State, a: Action)
    requires Inv(su, s) && Enabled(su, s, a)
    ensures Publishes(s, Perform(su, s, a))
  {
    match a
    case CoordinatePlan(cap) => CoordinatePublishes(su, s, cap);
    case DecideWrite(_, _, _, _) =>
    case _ =>
  }

  lemma CoordinatePublishes(su: Setup, s: State, cap: nat)
    requires su.task < |s.desk.tasks|
    ensures Publishes(s, Coordinate(su, s, cap).0)
  {
    if !TerminalPlan(s.plan.status) {
      ConcludeEffect(su, s, PassSteps(su, s.steps, cap), Claimable(su, BlockPass(su, s.steps, 0), cap) != []);
    }
  }

  lemma RunPublishes(su: Setup, states: seq<State>, acts: seq<Action>, k: nat)
    requires IsRun(su, states, acts) && k < |acts|
    ensures Publishes(states[k], states[k + 1])
  {
    RunInv(su, states, acts, k);
    PerformPublishes(su, states[k], acts[k]);
  }

  /** `t` has a higher version than `s`, or the same version and the same steps. */
  ghost predicate NotOlder(s: State, t: State) {
    s.plan.version <= t.plan.version && (s.plan.version == t.plan.version ==> s.steps == t.steps)
  }

  /** Every step of a history publishes what it changes. */
  ghost predicate Announces(states: seq<State>) {
    forall k :: 0 <= k < |states| - 1 ==> Publishes(states[k], states[k + 1])
  }

  lemma RunAnnounces(su: Setup, states: seq<State>, acts: seq<Action>)
    requires IsRun(su, states, acts)
    ensures Announces(states)
  {
    forall k | 0 <= k < |states| - 1 ensures Publishes(states[k], states[k + 1]) {
      RunPublishes(su, states, acts, k);
    }
  }

  lemma {:induction false} VersionsGrow(states: seq<State>, j: nat, k: nat)
    requires Announces(states) && j <= k < |states|
    ensures NotOlder(states[j], states[k])
    decreases k
  {
    if j < k {
      VersionsGrow(states, j, k - 1);
    }
  }

  /** Over a run the version never falls, and two stored states of the same version have the same steps. */
  lemma SameVersionSameSteps(su: Setup, states: seq<State>, acts: seq<Action>, j: nat, k: nat)
    requires IsRun(su, states, acts) && j < |states| && k < |states|
    requires states[j].plan.version == states[k].plan.version
    ensures states[j].steps == states[k].steps
  {
    RunAnnounces(su, states, acts);
    if j <= k {
      VersionsGrow(states, j, k);
    } else {
      VersionsGrow(states, k, j);
    }
  }

  lemma {:induction false} AnnouncedWasStored(states: seq<State>, k: nat, n: nat) returns (j: nat)
    requires Announces(states) && k < |states| && n < |states[k].events|
    requires states[0].events == [Snapshot(states[0].plan, states[0].steps)]
    ensures j <= k && states[k].events[n] == Snapshot(states[j].plan, states[j].steps)
    decreases k
  {
    if k == 0 {
      j := 0;
    } else {
      assert Publishes(states[k - 1], states[k - 1 + 1]);
      if n < |states[k - 1].events| {
        j := AnnouncedWasStored(states, k - 1, n);
      } else {
        j := k;
      }
    }
  }

  /** Every published snapshot shows the rows as some earlier state of the run stored them. */
  lemma PublishedWasStored(su: Setup, states: seq<State>, acts: seq<Action>, k: nat, n: nat) returns (j: nat)
    requires IsRun(su, states, acts) && k < |states| && n < |states[k].events|
    ensures j <= k && states[k].events[n] == Snapshot(states[j].plan, states[j].steps)
  {
    RunAnnounces(su, states, acts);
    j := AnnouncedWasStored(states, k, n);
  }

  /** A transaction publishes exactly when it changes a step or the version; a quiet one can still move
      the plan's status. That happens exactly when a pass on an open plan has nothing to block and finds a
      waiting step, or else a busy one with nothing to claim, while the stored status says otherwise. */
  lemma QuietStatusChangeIff(su: Setup, s: State, a: Action)
    requires Reachable(su, s) && Enabled(su, s, a)
    ensures var t := Perform(su, s, a);
            (t.plan != s.plan && t.events == s.events) <==>
            && a.CoordinatePlan? && !TerminalPlan(s.plan.status)
            && (forall i: nat :: !Blockable(su, s.steps, i))
            && (if AnyWaiting(s.steps) then !s.plan.status.PlanWaitingUser?
                else && Count(s.steps, Busy) > 0 && !s.plan.status.PlanRunning?
                     && (Count(s.steps, Busy) >= a.cap || forall i: nat :: !Ready(su, s.steps, i)))
  {
    ReachableInv(su, s);
    if a.CoordinatePlan? {
      PassUnchangedIff(su, s.steps, a.cap);
      if AnyWaiting(s.steps) || Count(s.steps, Busy) > 0 {
        OpenWhileActive(s.steps);
      }
      QuietPassIff(su, s, a.cap);
    } else {
      OthersPublish(su, s, a);
    }
  }

  lemma {:induction false} OpenWhileActive(steps: seq<Step>)
    requires AnyWaiting(steps) || Count(steps, Busy) > 0
    ensures !AllTerminal(steps)
  {
  }

  lemma OthersPublish(su: Setup, s: State, a: Action)
    requires Inv(su, s) && Enabled(su, s, a) && !a.CoordinatePlan?
    ensures var t := Perform(su, s, a); t.plan != s.plan ==> t.events != s.events
  {
    match a
    case DecideWrite(_, _, _, _) =>
    case _ =>
  }

  lemma QuietPassIff(su: Setup, s: State, cap: nat)
    requires PlanOk(su, s)
    ensures var t := Coordinate(su, s, cap).0;
            (t.plan != s.plan && t.events == s.events) <==>
            && !TerminalPlan(s.plan.status)
            && PassSteps(su, s.steps, cap) == s.steps && !AllTerminal(s.steps)
            && (if AnyWaiting(s.steps) then !s.plan.status.PlanWaitingUser?
                else Count(s.steps, Busy) > 0 && !s.plan.status.PlanRunning?)
  {
    QueueingShows(su, s.steps, cap);
  }

  lemma {:induction false} QueueingShows(su: Setup, steps: seq<Step>, cap: nat)
    ensures Claimable(su, BlockPass(su, steps, 0), cap) != [] ==> PassSteps(su, steps, cap) != steps
  {
    var ready := Claimable(su, BlockPass(su, steps, 0), cap);
    BlockPassEffect(su, steps, 0);
    if ready != [] {
      var i := ready[0];
      assert Ready(su, BlockPass(su, steps, 0), i);
      assert PassSteps(su, steps, cap)[i].status.Queued? && steps[i].status.Pending?;
    }
  }

  // ----- writes of a plan -----

  /** A pending write of the plan and its step tell the same story: committed iff approved, never
      committed when the step was skipped, and never decided while the step still waits. */
  lemma StepsAgreeWithWrites(su: Setup, s: State, i: nat, p: nat)
    requires Reachable(su, s) && i < |s.steps| && Own(su, s.desk, p) && s.steps[i].run == Some(s.desk.pendings[p].run)
    ensures p in s.desk.performed <==> s.desk.pendings[p].decision.Approved?
    ensures s.steps[i].status.Skipped? ==> s.desk.pendings[p].decision.Rejected? && p !in s.desk.performed
    ensures s.steps[i].status.Waiting? ==> s.desk.pendings[p].decision.Undecided?
    ensures p in s.desk.performed ==> s.steps[i].status.Done? || s.steps[i].status.Cancelled?
    ensures forall r :: 0 <= r < |s.desk.runs| ==> !s.desk.runs[r].allowWrite
  {
    ReachableInv(su, s);
    assert Linked(su, s, p);
    var j :| 0 <= j < |s.steps| && s.steps[j].run == Some(s.desk.pendings[p].run) &&
             Agrees(s.steps[j].status, s.desk.pendings[p].decision);
    assert i == j;
  }

  /** A pass over a plan with a waiting step leaves the step waiting and its task open to decisions. */
  lemma PassAnnouncesWaiting(su: Setup, s: State, cap: nat, i: nat)
    requires Inv(su, s) && i < |s.steps| && s.steps[i].status.Waiting?
    ensures var t := Coordinate(su, s, cap).0;
            && i < |t.steps| && t.steps[i] == s.steps[i]
            && su.task < |t.desk.tasks| && t.desk.tasks[su.task] == Task(su.owner, TaskWaiting)
            && t.plan.status.PlanWaitingUser?
  {
    assert Cancellable(s.steps[i].status) && !Terminal(s.steps[i].status);
    assert !TerminalPlan(s.plan.status);
    PassKeepsSteps(su, s.steps, cap);
    var steps := PassSteps(su, s.steps, cap);
    assert steps[i] == s.steps[i];
    assert AnyWaiting(steps) && !AllTerminal(steps);
  }

  /** A waiting step is never lost: after one more pass the owner can decide its write, whatever the
      task's status was before. */
  lemma WaitingStepIsDecidable(su: Setup, s: State, cap: nat, i: nat, facts: CallFacts)
    requires Reachable(su, s) && i < |s.steps| && s.steps[i].status.Waiting?
    ensures var t := Coordinate(su, s, cap).0;
            exists p: nat ::
              && Own(su, t.desk, p) && t.desk.pendings[p].tool in su.box && StepOfWrite(t, p) == Some(i)
              && Confirm(su, t, su.owner, p, Reject, facts).1.Success?
              && (Confirm(su, t, su.owner, p, Approve, facts).1.Success? <==>
                    Answers(facts, su.box[t.desk.pendings[p].tool]))
  {
    ReachableInv(su, s);
    CoordinateKeeps(su, s, cap);
    PassAnnouncesWaiting(su, s, cap, i);
    var t := Coordinate(su, s, cap).0;
    WaitingWriteIsDecidable(su, t, i, facts);
  }

  lemma OwnWriteIsDecidable(su: Setup, t: State, i: nat, p: nat, facts: CallFacts)
    requires Inv(su, t) && i < |t.steps| && t.steps[i].status.Waiting?
    requires t.desk.tasks[su.task].status.TaskWaiting?
    requires Own(su, t.desk, p) && t.steps[i].run == Some(t.desk.pendings[p].run)
    ensures t.desk.pendings[p].tool in su.box && StepOfWrite(t, p) == Some(i)
    ensures Confirm(su, t, su.owner, p, Reject, facts).1.Success?
    ensures Confirm(su, t, su.owner, p, Approve, facts).1.Success? <==>
              Answers(facts, su.box[t.desk.pendings[p].tool])
  {
    assert Linked(su, t, p);
    assert t.desk.pendings[p].decision.Undecided?;
    assert StepOfWrite(t, p) == Some(i);
    ApprovalSucceedsIff(t.desk, su.box, su.owner, su.task, p, true, facts);
  }

  lemma WaitingWriteIsDecidable(su: Setup, t: State, i: nat, facts: CallFacts)
    requires Inv(su, t) && i < |t.steps| && t.steps[i].status.Waiting?
    requires t.desk.tasks[su.task].status.TaskWaiting?
    ensures exists p: nat ::
              && Own(su, t.desk, p) && t.desk.pendings[p].tool in su.box && StepOfWrite(t, p) == Some(i)
              && Confirm(su, t, su.owner, p, Reject, facts).1.Success?
              && (Confirm(su, t, su.owner, p, Approve, facts).1.Success? <==>
                    Answers(facts, su.box[t.desk.pendings[p].tool]))
  {
    assert HasWrite(su, t, i);
    var p: nat :| Own(su, t.desk, p) && t.steps[i].run == Some(t.desk.pendings[p].run);
    OwnWriteIsDecidable(su, t, i, p, facts);
  }
}
