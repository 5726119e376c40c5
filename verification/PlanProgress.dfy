/** Why a pass over an idle plan makes progress, and exactly when it does not. */
module PlanProgress {
  import opened PlanModel
  import opened PlanSafety
  import opened PlanRuns
  import opened PlanTheorems

  predicate IsPending(s: Status) { s.Pending? }

  ghost predicate Idle(steps: seq<Step>) {
    forall i :: 0 <= i < |steps| ==> !Busy(steps[i].status)
  }

  ghost predicate AnyStalled(steps: seq<Step>) {
    exists i :: 0 <= i < |steps| && steps[i].status.Stalled?
  }

  /** Step `i` waits on a parent that is itself undecided, and on nothing unusable. */
  ghost predicate Held(su: Setup, steps: seq<Step>, i: nat) {
    && i < |su.parents|
    && !HasUnusableParent(su, steps, i)
    && exists p :: p in su.parents[i] && p < |steps| && (steps[p].status.Pending? || steps[p].status.Stalled?)
  }

  /** An idle plan with no open confirmation is left untouched by a pass exactly when every pending
      step is held. */
  lemma PassIsIdleIff(su: Setup, steps: seq<Step>, cap: nat)
    requires su.Valid() && StepsOk(su, steps) && Idle(steps) && !AnyWaiting(steps) && cap >= 1
    ensures PassSteps(su, steps, cap) == steps <==>
              forall i :: 0 <= i < |steps| && steps[i].status.Pending? ==> Held(su, steps, i)
  {
    if PassSteps(su, steps, cap) == steps {
      forall i | 0 <= i < |steps| && steps[i].status.Pending? ensures Held(su, steps, i) {
        UntouchedIsHeld(su, steps, cap, i);
      }
    }
    if forall i :: 0 <= i < |steps| && steps[i].status.Pending? ==> Held(su, steps, i) {
      HeldIsUntouched(su, steps, cap);
    }
  }

  lemma UntouchedIsHeld(su: Setup, steps: seq<Step>, cap: nat, i: nat)
    requires su.Valid() && StepsOk(su, steps) && Idle(steps) && !AnyWaiting(steps) && cap >= 1
    requires PassSteps(su, steps, cap) == steps && i < |steps| && steps[i].status.Pending?
    ensures Held(su, steps, i)
  {
    var blocked := BlockPass(su, steps, 0);
    BlockPassEffect(su, steps, 0);
    assert blocked[i] == steps[i] && !HasUnusableParent(su, steps, i) by {
      assert PassSteps(su, steps, cap)[i].status == Pending;
    }
    assert blocked == steps by {
      forall j | 0 <= j < |steps| ensures blocked[j] == steps[j] {
        assert PassSteps(su, steps, cap)[j] == steps[j];
      }
    }
    assert Count(steps, Busy) == 0;
    assert Claimable(su, blocked, cap) == [] by { QueueingShows(su, steps, cap); }
    ReadyFromTakesFirst(su, steps, 0, Room(cap, 0));
    assert !Ready(su, steps, i);
    var p :| p in su.parents[i] && !Accepted(steps[p].status);
    assert !Unusable(steps[p].status);
  }

  lemma HeldIsUntouched(su: Setup, steps: seq<Step>, cap: nat)
    requires su.Valid() && StepsOk(su, steps)
    requires forall i :: 0 <= i < |steps| && steps[i].status.Pending? ==> Held(su, steps, i)
    ensures PassSteps(su, steps, cap) == steps
  {
    NothingBlocked(su, steps, 0);
    forall i: nat ensures !Ready(su, steps, i) {
      if i < |steps| && steps[i].status.Pending? {
        assert Held(su, steps, i);
      }
    }
    var ready := Claimable(su, steps, cap);
  }

  /** Acyclicity gives progress: among held pending steps one of least rank waits on a stalled step. */
  lemma {:induction false} HeldLeadsToStalled(su: Setup, rank: seq<nat>, steps: seq<Step>, i: nat)
    requires su.Ranks(rank) && |steps| == |su.parents| && i < |steps| && steps[i].status.Pending?
    requires forall j :: 0 <= j < |steps| && steps[j].status.Pending? ==> Held(su, steps, j)
    ensures AnyStalled(steps)
    decreases rank[i]
  {
    assert Held(su, steps, i);
    var p :| p in su.parents[i] && p < |steps| && (steps[p].status.Pending? || steps[p].status.Stalled?);
    if steps[p].status.Pending? {
      HeldLeadsToStalled(su, rank, steps, p);
    }
  }

  /** On an acyclic plan that is idle, has no open confirmation and nothing stalled, a pass blocks or
      queues some step, or every step has ended already. */
  lemma IdlePlanProgresses(su: Setup, rank: seq<nat>, steps: seq<Step>, cap: nat)
    requires su.Valid() && su.Ranks(rank) && StepsOk(su, steps) && cap >= 1
    requires Idle(steps) && !AnyWaiting(steps) && !AnyStalled(steps)
    ensures PassSteps(su, steps, cap) != steps || AllTerminal(steps)
  {
    PassIsIdleIff(su, steps, cap);
    if PassSteps(su, steps, cap) == steps && !AllTerminal(steps) {
      var i :| 0 <= i < |steps| && !Terminal(steps[i].status);
      assert steps[i].status.Pending?;
      HeldLeadsToStalled(su, rank, steps, i);
    }
  }

  /** A pass that touches a step takes it out of the pending ones. */
  lemma {:induction false} PassUsesPending(su: Setup, steps: seq<Step>, cap: nat)
    requires StepsOk(su, steps)
    ensures Count(PassSteps(su, steps, cap), IsPending) <= Count(steps, IsPending)
    ensures PassSteps(su, steps, cap) != steps ==> Count(PassSteps(su, steps, cap), IsPending) < Count(steps, IsPending)
  {
    var after := PassSteps(su, steps, cap);
    PassKeepsSteps(su, steps, cap);
    CountShrinks(steps, after, IsPending);
    if after != steps {
      var i :| 0 <= i < |steps| && after[i] != steps[i];
      assert steps[i].status.Pending? && !after[i].status.Pending?;
    }
  }
}
