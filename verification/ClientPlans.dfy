/**
  The browser's plan list: snapshots arrive in any order and repeatedly, and a version filter makes the
  list converge to the newest snapshot of every plan.
*/
module ClientPlans {
  import opened Results
  import PlanModel
  import PlanTheorems
  import PlanExamples

  /** A delivered plan. `created` stands for its creation time, `shown` for the rest of the snapshot. */
  datatype ClientPlan = ClientPlan(
    planId: nat, turn: Option<nat>, userMessage: nat, version: nat, created: int, shown: PlanModel.Snapshot)

  datatype Turn = Turn(id: nat, conversation: nat)

  function FindTurn(turns: seq<Turn>, id: nat): Option<Turn> {
    if turns == [] then None
    else if turns[0].id == id then Some(turns[0])
    else FindTurn(turns[1..], id)
  }

  function FindPlan(plans: seq<ClientPlan>, id: nat): Option<ClientPlan> {
    if plans == [] then None
    else if plans[0].planId == id then Some(plans[0])
    else FindPlan(plans[1..], id)
  }

  function Others(plans: seq<ClientPlan>, id: nat): seq<ClientPlan> {
    if plans == [] then []
    else if plans[0].planId != id then [plans[0]] + Others(plans[1..], id)
    else Others(plans[1..], id)
  }

  /** Insert after every entry that is not younger. */
  function Insert(plans: seq<ClientPlan>, plan: ClientPlan): seq<ClientPlan> {
    if plans == [] then [plan]
    else if plans[|plans| - 1].created <= plan.created then plans + [plan]
    else Insert(plans[..|plans| - 1], plan) + [plans[|plans| - 1]]
  }

  /** A stable sort by creation time. */
  function Sort(plans: seq<ClientPlan>): seq<ClientPlan> {
    if plans == [] then [] else Insert(Sort(plans[..|plans| - 1]), plans[|plans| - 1])
  }

  /** The version-filtered reducer, for a plan of the conversation. */
  function Applied(plans: seq<ClientPlan>, plan: ClientPlan): seq<ClientPlan> {
    var existing := FindPlan(plans, plan.planId);
    if existing.Some? && existing.value.version >= plan.version then plans
    else Sort(Others(plans, plan.planId) + [plan])
  }

  function Delivered(plans: seq<ClientPlan>, events: seq<ClientPlan>): seq<ClientPlan>
    decreases |events|
  {
    if events == [] then plans else Applied(Delivered(plans, events[..|events| - 1]), events[|events| - 1])
  }

  lemma {:induction false} DeliveredOn(plans: seq<ClientPlan>, events: seq<ClientPlan>, plan: ClientPlan)
    ensures Delivered(plans, events + [plan]) == Applied(Delivered(plans, events), plan)
  {
    assert (events + [plan])[..|events|] == events;
  }

  ghost predicate Sorted(plans: seq<ClientPlan>) {
    forall i, j :: 0 <= i < j < |plans| ==> plans[i].created <= plans[j].created
  }

  ghost predicate OnePerPlan(plans: seq<ClientPlan>) {
    forall i, j :: 0 <= i < j < |plans| ==> plans[i].planId != plans[j].planId
  }

  ghost function Elements(events: seq<ClientPlan>): set<ClientPlan> {
    set e | e in events
  }

  /** No snapshot of the plan among `events` is newer than `plan`. */
  ghost predicate Newest(events: set<ClientPlan>, plan: ClientPlan) {
    plan in events && forall q :: q in events && q.planId == plan.planId ==> q.version <= plan.version
  }

  // ----- what the list functions do -----

  lemma {:induction false} FindPlanFinds(plans: seq<ClientPlan>, id: nat)
    ensures FindPlan(plans, id).Some? ==> FindPlan(plans, id).value in plans && FindPlan(plans, id).value.planId == id
    ensures FindPlan(plans, id).None? ==> forall q :: q in plans ==> q.planId != id
    decreases |plans|
  {
    if plans != [] {
      FindPlanFinds(plans[1..], id);
    }
  }

  lemma ElementsJoin(a: seq<ClientPlan>, b: seq<ClientPlan>)
    ensures Elements(a + b) == Elements(a) + Elements(b)
  {
  }

  lemma ElementsOne(plan: ClientPlan)
    ensures Elements([plan]) == {plan}
  {
    assert plan in [plan];
  }

  ghost function Except(plans: set<ClientPlan>, id: nat): set<ClientPlan> {
    set q | q in plans && q.planId != id
  }

  lemma {:induction false} OthersElements(plans: seq<ClientPlan>, id: nat)
    ensures Elements(Others(plans, id)) == Except(Elements(plans), id)
    decreases |plans|
  {
    if plans != [] {
      var head, tail := plans[0], plans[1..];
      OthersElements(tail, id);
      assert plans == [head] + tail;
      ElementsJoin([head], tail);
      ElementsJoin([head], Others(tail, id));
      ElementsOne(head);
    }
  }

  lemma {:induction false} OthersOnePerPlan(plans: seq<ClientPlan>, id: nat)
    requires OnePerPlan(plans)
    ensures OnePerPlan(Others(plans, id))
    decreases |plans|
  {
    if plans != [] {
      OthersOnePerPlan(plans[1..], id);
      OthersElements(plans[1..], id);
      PrependOnePerPlan(plans, Others(plans[1..], id));
    }
  }

  lemma PrependOnePerPlan(plans: seq<ClientPlan>, others: seq<ClientPlan>)
    requires plans != [] && OnePerPlan(plans) && OnePerPlan(others) && Elements(others) <= Elements(plans[1..])
    ensures OnePerPlan([plans[0]] + others)
  {
    forall j | 0 <= j < |others| ensures others[j].planId != plans[0].planId {
      assert others[j] in Elements(others);
      var k :| 0 <= k < |plans[1..]| && plans[1..][k] == others[j];
      assert plans[k + 1] == others[j];
    }
  }

  lemma {:induction false} InsertElements(plans: seq<ClientPlan>, plan: ClientPlan)
    ensures Elements(Insert(plans, plan)) == Elements(plans) + {plan}
    decreases |plans|
  {
    ElementsOne(plan);
    if plans == [] {
      assert Elements(plans) == {};
    } else if plans[|plans| - 1].created <= plan.created {
      ElementsJoin(plans, [plan]);
    } else {
      var front, last := plans[..|plans| - 1], plans[|plans| - 1];
      InsertElements(front, plan);
      assert plans == front + [last];
      ElementsJoin(front, [last]);
      ElementsJoin(Insert(front, plan), [last]);
    }
  }

  lemma {:induction false} InsertSorts(plans: seq<ClientPlan>, plan: ClientPlan)
    requires Sorted(plans)
    ensures Sorted(Insert(plans, plan))
    decreases |plans|
  {
    if plans != [] && plans[|plans| - 1].created > plan.created {
      var front, last := plans[..|plans| - 1], plans[|plans| - 1];
      InsertSorts(front, plan);
      InsertElements(front, plan);
      var inserted := Insert(front, plan);
      forall i | 0 <= i < |inserted| ensures inserted[i].created <= last.created {
        assert inserted[i] in Elements(front) + {plan};
      }
    }
  }

  lemma {:induction false} InsertOnePerPlan(plans: seq<ClientPlan>, plan: ClientPlan)
    requires OnePerPlan(plans + [plan])
    ensures OnePerPlan(Insert(plans, plan))
    decreases |plans|
  {
    if plans != [] && plans[|plans| - 1].created > plan.created {
      var front, last := plans[..|plans| - 1], plans[|plans| - 1];
      var all := plans + [plan];
      assert forall i :: 0 <= i < |front| ==> all[i] == front[i];
      assert all[|front|] == last && all[|front| + 1] == plan;
      InsertOnePerPlan(front, plan);
      InsertElements(front, plan);
      var inserted := Insert(front, plan);
      forall i | 0 <= i < |inserted| ensures inserted[i].planId != last.planId {
        assert inserted[i] in Elements(front) + {plan};
      }
    }
  }

  lemma {:induction false} SortSorts(plans: seq<ClientPlan>)
    ensures Sorted(Sort(plans)) && Elements(Sort(plans)) == Elements(plans)
    decreases |plans|
  {
    if plans != [] {
      var front, last := plans[..|plans| - 1], plans[|plans| - 1];
      SortSorts(front);
      InsertSorts(Sort(front), last);
      InsertElements(Sort(front), last);
      assert plans == front + [last];
      ElementsJoin(front, [last]);
      ElementsOne(last);
    }
  }

  lemma {:induction false} SortOnePerPlan(plans: seq<ClientPlan>)
    requires OnePerPlan(plans)
    ensures OnePerPlan(Sort(plans))
    decreases |plans|
  {
    if plans != [] {
      var front, last := plans[..|plans| - 1], plans[|plans| - 1];
      SortOnePerPlan(front);
      SortSorts(front);
      AppendOnePerPlan(front, Sort(front), last);
      InsertOnePerPlan(Sort(front), last);
    }
  }

  lemma AppendOnePerPlan(front: seq<ClientPlan>, same: seq<ClientPlan>, last: ClientPlan)
    requires OnePerPlan(same) && Elements(same) == Elements(front)
    requires forall i :: 0 <= i < |front| ==> front[i].planId != last.planId
    ensures OnePerPlan(same + [last])
  {
    forall i | 0 <= i < |same| ensures same[i].planId != last.planId {
      assert same[i] in Elements(front);
    }
  }

  // ----- one delivery -----

  /** An entry of the plan. */
  ghost predicate Has(plans: set<ClientPlan>, id: nat) {
    exists q :: q in plans && q.planId == id
  }

  /** What a browser shows after receiving `events`: a sorted list with one entry per plan; every entry was
      delivered and nothing newer of its plan was, and no delivered plan is missing. */
  ghost predicate Shows(plans: seq<ClientPlan>, events: set<ClientPlan>) {
    Sorted(plans) && OnePerPlan(plans) && ShowsNewest(Elements(plans), events)
  }

  ghost predicate ShowsNewest(plans: set<ClientPlan>, events: set<ClientPlan>) {
    && (forall q :: q in plans ==> Newest(events, q))
    && (forall e :: e in events ==> Has(plans, e.planId))
  }

  /** A snapshot newer than all seen of its plan takes the place of its entry. */
  lemma ReplacingShows(plans: set<ClientPlan>, events: set<ClientPlan>, plan: ClientPlan)
    requires ShowsNewest(plans, events)
    requires forall e :: e in events && e.planId == plan.planId ==> e.version < plan.version
    ensures ShowsNewest(Except(plans, plan.planId) + {plan}, events + {plan})
  {
    var after := Except(plans, plan.planId) + {plan};
    forall q | q in after ensures Newest(events + {plan}, q) {
      if q in plans && q.planId != plan.planId {
      } else {
        assert q == plan;
      }
    }
    forall e | e in events + {plan} ensures Has(after, e.planId) {
      if e.planId == plan.planId {
        assert plan in after;
      } else {
        var q :| q in plans && q.planId == e.planId;
        assert q in after;
      }
    }
  }

  lemma StaleShows(plans: set<ClientPlan>, events: set<ClientPlan>, plan: ClientPlan, known: ClientPlan)
    requires ShowsNewest(plans, events) && known in plans && known.planId == plan.planId
    requires known.version >= plan.version
    ensures ShowsNewest(plans, events + {plan})
  {
    forall q | q in plans ensures Newest(events + {plan}, q) {
      if q.planId == plan.planId {
        assert Newest(events, known) && Newest(events, q);
      }
    }
    forall e | e in events + {plan} ensures Has(plans, e.planId) {
      assert e == plan ==> known.planId == e.planId;
    }
  }

  lemma ApplyingShows(plans: seq<ClientPlan>, events: set<ClientPlan>, plan: ClientPlan)
    requires Shows(plans, events)
    ensures Shows(Applied(plans, plan), events + {plan})
  {
    var existing := FindPlan(plans, plan.planId);
    FindPlanFinds(plans, plan.planId);
    if existing.Some? && existing.value.version >= plan.version {
      assert existing.value in Elements(plans);
      StaleShows(Elements(plans), events, plan, existing.value);
    } else {
      forall e | e in events && e.planId == plan.planId ensures e.version < plan.version {
        NothingNewer(plans, events, existing, e);
      }
      ReplacingShows(Elements(plans), events, plan);
      ReplacedList(plans, plan);
    }
  }

  lemma {:induction false} NothingNewer(plans: seq<ClientPlan>, events: set<ClientPlan>, existing: Option<ClientPlan>,
                                        e: ClientPlan)
    requires Shows(plans, events) && e in events && existing == FindPlan(plans, e.planId)
    ensures existing.Some? && e.version <= existing.value.version
  {
    assert Has(Elements(plans), e.planId);
    var q :| q in Elements(plans) && q.planId == e.planId;
    OneEntry(plans, q, existing);
    assert Newest(events, q);
  }

  lemma {:induction false} ReplacedList(plans: seq<ClientPlan>, plan: ClientPlan)
    requires OnePerPlan(plans)
    ensures var after := Sort(Others(plans, plan.planId) + [plan]);
            Sorted(after) && OnePerPlan(after) && Elements(after) == Except(Elements(plans), plan.planId) + {plan}
  {
    var others := Others(plans, plan.planId);
    OthersElements(plans, plan.planId);
    OthersOnePerPlan(plans, plan.planId);
    forall i | 0 <= i < |others| ensures others[i].planId != plan.planId {
      assert others[i] in Elements(others);
    }
    AppendOnePerPlan(others, others, plan);
    ElementsJoin(others, [plan]);
    ElementsOne(plan);
    SortSorts(others + [plan]);
    SortOnePerPlan(others + [plan]);
  }

  lemma {:induction false} OneEntry(plans: seq<ClientPlan>, q: ClientPlan, existing: Option<ClientPlan>)
    requires OnePerPlan(plans) && q in plans && existing == FindPlan(plans, q.planId)
    ensures existing == Some(q)
  {
    FindPlanFinds(plans, q.planId);
    var i :| 0 <= i < |plans| && plans[i] == q;
    var j :| 0 <= j < |plans| && plans[j] == existing.value;
    assert i == j;
  }

  /** After any delivery whatever, in any order and with any repetition, the list is sorted, has one entry per plan,
      each a delivered snapshot of the plan's highest version, and misses no plan. */
  lemma {:induction false} DeliveryShowsNewest(events: seq<ClientPlan>)
    ensures Shows(Delivered([], events), Elements(events))
    decreases |events|
  {
    if events != [] {
      var front, plan := events[..|events| - 1], events[|events| - 1];
      assert events == front + [plan];
      ElementsJoin(front, [plan]);
      ElementsOne(plan);
      DeliveryShowsNewest(front);
      ApplyingShows(Delivered([], front), Elements(front), plan);
    }
  }

  /** Two browsers that received the same snapshots hold the same version of every plan. */
  lemma {:induction false} VersionsConverge(first: seq<ClientPlan>, second: seq<ClientPlan>, p: ClientPlan,
                                            q: ClientPlan)
    requires Elements(first) == Elements(second)
    requires p in Delivered([], first) && q in Delivered([], second) && p.planId == q.planId
    ensures p.version == q.version
  {
    DeliveryShowsNewest(first);
    DeliveryShowsNewest(second);
    assert p in Elements(Delivered([], first)) && q in Elements(Delivered([], second));
    assert Newest(Elements(first), p) && Newest(Elements(second), q);
  }

  // ----- when the list itself does not depend on the order -----

  /** Whatever the order and repetition, the same snapshots leave the same list. */
  ghost predicate DeliveriesAgree(events: set<ClientPlan>) {
    forall first, second :: Elements(first) == events && Elements(second) == events ==>
      Delivered([], first) == Delivered([], second)
  }

  /** A plan's highest version was delivered with one content only, and the newest snapshots of different plans
      have different creation times. */
  ghost predicate Unambiguous(events: set<ClientPlan>) {
    forall p, q :: Newest(events, p) && Newest(events, q) && (p.planId == q.planId || p.created == q.created) ==> p == q
  }

  lemma SomeElement(plans: seq<ClientPlan>) returns (q: ClientPlan)
    requires plans != []
    ensures q in plans
  {
    q := plans[0];
  }

  lemma {:induction false} StrictlySortedIsUnique(a: seq<ClientPlan>, b: seq<ClientPlan>)
    requires forall i, j :: 0 <= i < j < |a| ==> a[i].created < a[j].created
    requires forall i, j :: 0 <= i < j < |b| ==> b[i].created < b[j].created
    requires forall q :: q in a <==> q in b
    ensures a == b
    decreases |a|
  {
    if a == [] {
      if b != [] {
        var _ := SomeElement(b);
        assert false;
      }
    } else {
      assert a[0] in a && a[0] in b;
      assert b[0] in b && b[0] in a;
      assert a[0] == b[0];
      forall q ensures q in a[1..] <==> q in b[1..] {
        assert q in a <==> q == a[0] || q in a[1..];
        assert q in b <==> q == b[0] || q in b[1..];
      }
      StrictlySortedIsUnique(a[1..], b[1..]);
    }
  }

  lemma StrictlySorted(plans: seq<ClientPlan>, events: set<ClientPlan>)
    requires Shows(plans, events) && Unambiguous(events)
    ensures forall i, j :: 0 <= i < j < |plans| ==> plans[i].created < plans[j].created
  {
    forall i, j | 0 <= i < j < |plans| ensures plans[i].created < plans[j].created {
      assert plans[i] in Elements(plans) && plans[j] in Elements(plans);
      assert Newest(events, plans[i]) && Newest(events, plans[j]);
    }
  }

  /** Then the list holds exactly the newest snapshots. */
  lemma ShowsExactly(plans: seq<ClientPlan>, events: set<ClientPlan>, q: ClientPlan)
    requires Shows(plans, events) && Unambiguous(events)
    ensures q in plans <==> Newest(events, q)
  {
    assert q in plans <==> q in Elements(plans);
    if Newest(events, q) {
      assert Has(Elements(plans), q.planId);
      var p :| p in Elements(plans) && p.planId == q.planId;
      assert Newest(events, p);
    }
  }

  lemma {:induction false} UnambiguousAgrees(events: set<ClientPlan>, first: seq<ClientPlan>, second: seq<ClientPlan>)
    requires Unambiguous(events) && Elements(first) == events && Elements(second) == events
    ensures Delivered([], first) == Delivered([], second)
  {
    var a, b := Delivered([], first), Delivered([], second);
    DeliveryShowsNewest(first);
    DeliveryShowsNewest(second);
    StrictlySorted(a, events);
    StrictlySorted(b, events);
    forall q ensures q in a <==> q in b {
      ShowsExactly(a, events, q);
      ShowsExactly(b, events, q);
    }
    StrictlySortedIsUnique(a, b);
  }

  /** `p` stands before `q`. */
  ghost predicate Precedes(plans: seq<ClientPlan>, p: ClientPlan, q: ClientPlan) {
    exists i, j :: 0 <= i < j < |plans| && plans[i] == p && plans[j] == q
  }

  lemma PrecedesInFront(front: seq<ClientPlan>, back: seq<ClientPlan>, p: ClientPlan, q: ClientPlan)
    requires Precedes(front, p, q) || (p in front && q in back)
    ensures Precedes(front + back, p, q)
  {
    var all := front + back;
    if i, j :| 0 <= i < j < |front| && front[i] == p && front[j] == q {
      assert all[i] == p && all[j] == q;
    } else {
      var i :| 0 <= i < |front| && front[i] == p;
      var j :| 0 <= j < |back| && back[j] == q;
      assert all[i] == p && all[|front| + j] == q;
    }
  }

  lemma PrecedesSplits(front: seq<ClientPlan>, last: ClientPlan, p: ClientPlan, q: ClientPlan)
    requires Precedes(front + [last], p, q)
    ensures Precedes(front, p, q) || (p in front && q == last)
  {
    var all := front + [last];
    var i, j :| 0 <= i < j < |all| && all[i] == p && all[j] == q;
    assert front[i] == p;
    if j < |front| {
      assert front[j] == q;
    }
  }

  /** Inserting a third entry leaves two in their order. */
  lemma {:induction false} InsertKeepsOrder(plans: seq<ClientPlan>, plan: ClientPlan, p: ClientPlan, q: ClientPlan)
    requires Precedes(plans, p, q)
    ensures Precedes(Insert(plans, plan), p, q)
    decreases |plans|
  {
    if plans[|plans| - 1].created <= plan.created {
      PrecedesInFront(plans, [plan], p, q);
    } else {
      var front, last := plans[..|plans| - 1], plans[|plans| - 1];
      assert plans == front + [last];
      PrecedesSplits(front, last, p, q);
      if Precedes(front, p, q) {
        InsertKeepsOrder(front, plan, p, q);
      } else {
        InsertElements(front, plan);
        assert p in Elements(front) + {plan};
      }
      PrecedesInFront(Insert(front, plan), [last], p, q);
    }
  }

  /** An entry is inserted behind those that are not younger. */
  lemma {:induction false} InsertsBehind(plans: seq<ClientPlan>, p: ClientPlan, q: ClientPlan)
    requires p in plans && p.created <= q.created
    ensures Precedes(Insert(plans, q), p, q)
    decreases |plans|
  {
    if plans[|plans| - 1].created <= q.created {
      PrecedesInFront(plans, [q], p, q);
    } else {
      var front, last := plans[..|plans| - 1], plans[|plans| - 1];
      assert plans == front + [last] && p in front;
      InsertsBehind(front, p, q);
      PrecedesInFront(Insert(front, q), [last], p, q);
    }
  }

  /** The sort is stable. */
  lemma {:induction false} SortKeepsOrder(plans: seq<ClientPlan>, p: ClientPlan, q: ClientPlan)
    requires Precedes(plans, p, q) && p.created <= q.created
    ensures Precedes(Sort(plans), p, q)
    decreases |plans|
  {
    var front, last := plans[..|plans| - 1], plans[|plans| - 1];
    assert plans == front + [last];
    PrecedesSplits(front, last, p, q);
    if Precedes(front, p, q) {
      SortKeepsOrder(front, p, q);
      InsertKeepsOrder(Sort(front), last, p, q);
    } else {
      SortSorts(front);
      assert p in Elements(front);
      InsertsBehind(Sort(front), p, q);
    }
  }

  lemma {:induction false} OthersKeepOrder(plans: seq<ClientPlan>, id: nat, p: ClientPlan, q: ClientPlan)
    requires Precedes(plans, p, q) && p.planId != id && q.planId != id
    ensures Precedes(Others(plans, id), p, q)
    decreases |plans|
  {
    var head, tail := plans[0], plans[1..];
    var i, j :| 0 <= i < j < |plans| && plans[i] == p && plans[j] == q;
    assert tail[j - 1] == q;
    if i > 0 {
      assert tail[i - 1] == p;
      OthersKeepOrder(tail, id, p, q);
      var others := Others(tail, id);
      var m, n :| 0 <= m < n < |others| && others[m] == p && others[n] == q;
      assert ([head] + others)[m + 1] == p && ([head] + others)[n + 1] == q;
    } else {
      OthersElements(tail, id);
      assert q in Elements(Others(tail, id));
      PrecedesInFront([head], Others(tail, id), p, q);
    }
  }

  /** Nothing delivered later displaces or overtakes the newest snapshots of two plans. */
  lemma ApplyingKeepsOrder(plans: seq<ClientPlan>, plan: ClientPlan, p: ClientPlan, q: ClientPlan)
    requires OnePerPlan(plans) && Precedes(plans, p, q) && p.created <= q.created
    requires plan.planId == p.planId ==> plan.version <= p.version
    requires plan.planId == q.planId ==> plan.version <= q.version
    ensures Precedes(Applied(plans, plan), p, q)
  {
    if plan.planId == p.planId {
      OneEntry(plans, p, FindPlan(plans, p.planId));
    } else if plan.planId == q.planId {
      OneEntry(plans, q, FindPlan(plans, q.planId));
    } else {
      OthersKeepOrder(plans, plan.planId, p, q);
      PrecedesInFront(Others(plans, plan.planId), [plan], p, q);
      SortKeepsOrder(Others(plans, plan.planId) + [plan], p, q);
    }
  }

  lemma {:induction false} SortPair(p: ClientPlan, q: ClientPlan)
    requires p.created == q.created
    ensures Sort([p] + [q]) == [p] + [q]
  {
    SortOne(p);
    assert ([p] + [q])[..1] == [p];
  }

  lemma {:induction false} SortOne(p: ClientPlan)
    ensures Sort([p]) == [p]
  {
    assert [p][..0] == [];
    assert Sort([]) == [];
  }

  lemma {:induction false} DeliveredFirst(p: ClientPlan)
    ensures Delivered([], [p]) == [p]
  {
    DeliveredOn([], [], p);
    SortOne(p);
    assert [] + [p] == [p];
  }

  lemma {:induction false} DeliveredPair(p: ClientPlan, q: ClientPlan)
    requires p.planId != q.planId && p.created == q.created
    ensures Delivered([], [p, q]) == [p, q]
  {
    DeliveredFirst(p);
    DeliveredOn([], [p], q);
    assert [p] + [q] == [p, q];
    assert [p][1..] == [];
    assert FindPlan([p], q.planId) == FindPlan([], q.planId) == None;
    assert Others([p], q.planId) == [p] + Others([], q.planId) == [p];
    SortPair(p, q);
  }

  lemma PairInOrder(p: ClientPlan, q: ClientPlan)
    requires p.planId != q.planId && p.created == q.created
    ensures Precedes(Delivered([], [p, q]), p, q)
  {
    DeliveredPair(p, q);
    assert [p, q][0] == p && [p, q][1] == q;
  }

  lemma {:induction false} OneMoreKeepsOrder(start: seq<ClientPlan>, front: seq<ClientPlan>, last: ClientPlan,
                                             p: ClientPlan, q: ClientPlan)
    requires p.planId != q.planId && p.created == q.created && Precedes(Delivered([], start + front), p, q)
    requires last.planId == p.planId ==> last.version <= p.version
    requires last.planId == q.planId ==> last.version <= q.version
    ensures Precedes(Delivered([], start + (front + [last])), p, q)
  {
    OneMore(start, front, last);
    ApplyingKeepsOrder(Delivered([], start + front), last, p, q);
  }

  lemma {:induction false} OrderStays(start: seq<ClientPlan>, p: ClientPlan, q: ClientPlan, events: set<ClientPlan>,
                                      tail: seq<ClientPlan>)
    requires p.planId != q.planId && p.created == q.created && Newest(events, p) && Newest(events, q)
    requires Elements(tail) <= events && Precedes(Delivered([], start), p, q)
    ensures Precedes(Delivered([], start + tail), p, q)
    decreases |tail|
  {
    if tail == [] {
      assert start + tail == start;
    } else {
      var front, last := tail[..|tail| - 1], tail[|tail| - 1];
      LastIsNotNewer(events, p, tail);
      LastIsNotNewer(events, q, tail);
      OrderStays(start, p, q, events, front);
      OneMoreKeepsOrder(start, front, last, p, q);
      assert front + [last] == tail;
    }
  }

  lemma LastIsNotNewer(events: set<ClientPlan>, p: ClientPlan, tail: seq<ClientPlan>)
    requires Newest(events, p) && tail != [] && Elements(tail) <= events
    ensures Elements(tail[..|tail| - 1]) <= events
    ensures var last := tail[|tail| - 1]; last.planId == p.planId ==> last.version <= p.version
  {
    assert tail[|tail| - 1] in Elements(tail);
    assert Elements(tail[..|tail| - 1]) <= Elements(tail);
  }

  lemma {:induction false} OneMore(start: seq<ClientPlan>, front: seq<ClientPlan>, last: ClientPlan)
    ensures Delivered([], start + (front + [last])) == Applied(Delivered([], start + front), last)
    ensures OnePerPlan(Delivered([], start + front))
  {
    DeliveryShowsNewest(start + front);
    assert start + (front + [last]) == (start + front) + [last];
    DeliveredOn([], start + front, last);
  }

  lemma {:induction false} NewestStays(p: ClientPlan, events: set<ClientPlan>, tail: seq<ClientPlan>)
    requires Newest(events, p) && Elements(tail) <= events
    ensures p in Delivered([], [p] + tail)
    decreases |tail|
  {
    if tail == [] {
      DeliveredFirst(p);
      assert [p] + tail == [p];
    } else {
      var front, last := tail[..|tail| - 1], tail[|tail| - 1];
      LastIsNotNewer(events, p, tail);
      NewestStays(p, events, front);
      OneMore([p], front, last);
      ApplyingKeepsNewest(Delivered([], [p] + front), last, p);
      assert front + [last] == tail;
    }
  }

  lemma ApplyingKeepsNewest(plans: seq<ClientPlan>, plan: ClientPlan, p: ClientPlan)
    requires OnePerPlan(plans) && p in plans && (plan.planId == p.planId ==> plan.version <= p.version)
    ensures p in Applied(plans, plan)
  {
    if plan.planId == p.planId {
      OneEntry(plans, p, FindPlan(plans, p.planId));
    } else {
      ReplacedList(plans, plan);
      assert p in Except(Elements(plans), plan.planId) + {plan};
    }
  }

  lemma OneOrderOnly(plans: seq<ClientPlan>, p: ClientPlan, q: ClientPlan)
    requires OnePerPlan(plans) && Precedes(plans, p, q)
    ensures !Precedes(plans, q, p)
  {
    var i, j :| 0 <= i < j < |plans| && plans[i] == p && plans[j] == q;
    forall m, n | 0 <= m < n < |plans| && plans[m] == q ensures plans[n] != p {
      assert m == j;
    }
  }

  /** Two different newest snapshots of one plan: the one that comes first stays. */
  lemma {:induction false} TwoContentsDisagree(events: seq<ClientPlan>, p: ClientPlan, q: ClientPlan)
    requires Newest(Elements(events), p) && Newest(Elements(events), q) && p != q && p.planId == q.planId
    ensures Delivered([], [p] + events) != Delivered([], [q] + events)
  {
    NewestStays(p, Elements(events), events);
    NewestStays(q, Elements(events), events);
    DeliveryShowsNewest([p] + events);
    if Delivered([], [p] + events) == Delivered([], [q] + events) {
      var plans := Delivered([], [p] + events);
      OneEntry(plans, p, FindPlan(plans, p.planId));
      OneEntry(plans, q, FindPlan(plans, q.planId));
    }
  }

  /** Newest snapshots of two plans of one creation time: they stay in the order of their arrival. */
  lemma {:induction false} TwoPlansDisagree(events: seq<ClientPlan>, p: ClientPlan, q: ClientPlan)
    requires Newest(Elements(events), p) && Newest(Elements(events), q) && p.planId != q.planId
    requires p.created == q.created
    ensures Delivered([], [p, q] + events) != Delivered([], [q, p] + events)
  {
    PairInOrder(p, q);
    PairInOrder(q, p);
    OrderStays([p, q], p, q, Elements(events), events);
    OrderStays([q, p], q, p, Elements(events), events);
    DeliveryShowsNewest([p, q] + events);
    OneOrderOnly(Delivered([], [p, q] + events), p, q);
  }

  lemma {:induction false} Disagree(events: set<ClientPlan>, first: seq<ClientPlan>, second: seq<ClientPlan>)
    requires Elements(first) == events && Elements(second) == events
    requires Delivered([], first) != Delivered([], second)
    ensures !DeliveriesAgree(events)
  {
  }

  lemma Repeated(repeats: seq<ClientPlan>, events: seq<ClientPlan>)
    requires forall e :: e in repeats ==> e in events
    ensures Elements(repeats + events) == Elements(events)
  {
    ElementsJoin(repeats, events);
  }

  lemma AmbiguousDisagrees(events: seq<ClientPlan>, p: ClientPlan, q: ClientPlan)
    requires Newest(Elements(events), p) && Newest(Elements(events), q) && p != q
    requires p.planId == q.planId || p.created == q.created
    ensures !DeliveriesAgree(Elements(events))
  {
    if p.planId == q.planId {
      TwoContentsDisagree(events, p, q);
      Repeated([p], events);
      Repeated([q], events);
      Disagree(Elements(events), [p] + events, [q] + events);
    } else {
      TwoPlansDisagree(events, p, q);
      Repeated([p, q], events);
      Repeated([q, p], events);
      Disagree(Elements(events), [p, q] + events, [q, p] + events);
    }
  }

  /** Any two deliveries of the same snapshots leave the same list exactly when the newest snapshots are
      unambiguous. */
  lemma DeliveriesAgreeIff(events: seq<ClientPlan>)
    ensures DeliveriesAgree(Elements(events)) <==> Unambiguous(Elements(events))
  {
    var all := Elements(events);
    if Unambiguous(all) {
      forall first, second | Elements(first) == all && Elements(second) == all
        ensures Delivered([], first) == Delivered([], second)
      {
        UnambiguousAgrees(all, first, second);
      }
    } else {
      var p, q :| Newest(all, p) && Newest(all, q) && (p.planId == q.planId || p.created == q.created) && p != q;
      AmbiguousDisagrees(events, p, q);
    }
  }

  // ----- what a plan's own snapshots lead to -----

  /** The event shows the plan's rows as some state of the run stores them: what a poll, a snapshot or a
      published event delivers. */
  ghost predicate StoredAt(event: ClientPlan, s: PlanModel.State) {
    event.version == s.plan.version && event.shown == PlanModel.Snapshot(s.plan, s.steps)
  }

  ghost predicate FromRun(states: seq<PlanModel.State>, planId: nat, event: ClientPlan) {
    event.planId == planId && exists k :: 0 <= k < |states| && StoredAt(event, states[k])
  }

  lemma OnlyPlanShown(plans: seq<ClientPlan>, plan: ClientPlan)
    requires OnePerPlan(plans) && plan in plans && forall q :: q in plans ==> q.planId == plan.planId
    ensures plans == [plan]
  {
    if |plans| > 1 {
      var _, _ := TwoPlans(plans);
      assert false;
    }
  }

  lemma TwoPlans(plans: seq<ClientPlan>) returns (p: ClientPlan, q: ClientPlan)
    requires OnePerPlan(plans) && |plans| > 1
    ensures p in plans && q in plans && p.planId != q.planId
  {
    p, q := plans[0], plans[1];
  }

  /** Snapshots of one plan leave one entry, of the highest version delivered. */
  lemma OnePlanShown(events: seq<ClientPlan>, planId: nat) returns (shown: ClientPlan)
    requires events != [] && forall e :: e in events ==> e.planId == planId
    ensures Delivered([], events) == [shown] && Newest(Elements(events), shown)
  {
    DeliveryShowsNewest(events);
    var plans := Delivered([], events);
    assert events[0] in Elements(events);
    assert Has(Elements(plans), events[0].planId);
    shown :| shown in Elements(plans) && shown.planId == events[0].planId;
    forall q | q in plans ensures q.planId == shown.planId {
      assert q in Elements(plans);
      assert Newest(Elements(events), q);
      assert q in events;
    }
    OnlyPlanShown(plans, shown);
  }

  /** Polled, published and repeated snapshots of a plan may arrive mixed and in any order: the browser shows
      the highest version it received, with the steps the database stored under that version. */
  lemma MixedDeliveriesConverge(su: PlanModel.Setup, states: seq<PlanModel.State>, acts: seq<PlanModel.Action>,
                                planId: nat, events: seq<ClientPlan>, k: nat)
    returns (shown: ClientPlan)
    requires PlanModel.IsRun(su, states, acts) && k < |states|
    requires events != [] && forall e :: e in events ==> FromRun(states, planId, e)
    requires exists e :: e in events && e.version == states[k].plan.version
    requires forall e :: e in events ==> e.version <= states[k].plan.version
    ensures Delivered([], events) == [shown]
    ensures shown.version == states[k].plan.version && shown.shown.steps == states[k].steps
  {
    shown := OnePlanShown(events, planId);
    var e :| e in events && e.version == states[k].plan.version;
    assert e in Elements(events) && shown in events;
    var j :| 0 <= j < |states| && StoredAt(shown, states[j]);
    PlanTheorems.SameVersionSameSteps(su, states, acts, j, k);
  }

  /** A published event is such a snapshot too. */
  lemma PublishedIsFromRun(su: PlanModel.Setup, states: seq<PlanModel.State>, acts: seq<PlanModel.Action>, planId: nat,
                           event: ClientPlan, k: nat, n: nat)
    requires PlanModel.IsRun(su, states, acts) && k < |states| && n < |states[k].events|
    requires event.planId == planId && event.shown == states[k].events[n]
    requires event.version == states[k].events[n].plan.version
    ensures FromRun(states, planId, event)
  {
    var j := PlanTheorems.PublishedWasStored(su, states, acts, k, n);
    assert StoredAt(event, states[j]);
  }

  /** The status is not determined: two stored snapshots of one version can differ in it, and the one that arrives
      first is shown. */
  lemma StatusDependsOnOrder() returns (stalled: ClientPlan, running: ClientPlan)
    ensures stalled.version == running.version && stalled.planId == running.planId
    ensures stalled.shown.steps == running.shown.steps
    ensures stalled.shown.plan.status.PlanStalled? && running.shown.plan.status.PlanRunning?
    ensures exists s :: PlanTheorems.Reachable(PlanExamples.TWO, s) && StoredAt(stalled, s)
    ensures exists s :: PlanTheorems.Reachable(PlanExamples.TWO, s) && StoredAt(running, s)
    ensures Delivered([], [stalled, running]) == [stalled] && Delivered([], [running, stalled]) == [running]
  {
    var s, t := PlanExamples.QuietStatusChangeHappens();
    stalled := ClientPlan(1, Some(1), 1, s.plan.version, 0, PlanModel.Snapshot(s.plan, s.steps));
    running := ClientPlan(1, Some(1), 1, t.plan.version, 0, PlanModel.Snapshot(t.plan, t.steps));
    assert StoredAt(stalled, s) && StoredAt(running, t);
    FirstOfTwoShown(stalled, running);
    FirstOfTwoShown(running, stalled);
  }

  lemma FirstOfTwoShown(p: ClientPlan, q: ClientPlan)
    requires p.planId == q.planId && p.version == q.version
    ensures Delivered([], [p, q]) == [p]
  {
    DeliveredFirst(p);
    OneMore([p], [], q);
    assert [p] + ([] + [q]) == [p, q] && [p] + [] == [p];
    SecondIsStale(p, q);
  }

  lemma {:induction false} SecondIsStale(p: ClientPlan, q: ClientPlan)
    requires p.planId == q.planId && p.version == q.version
    ensures Applied([p], q) == [p]
  {
    assert FindPlan([p], q.planId) == Some(p);
  }

  // ----- the store of the conversation view -----

  /** Whether the plan belongs to the open conversation, through its turn or its message. */
  predicate Belongs(conversation: Option<nat>, turns: seq<Turn>, messages: seq<nat>, plan: ClientPlan) {
    && plan.turn.Some?
    && var turn := FindTurn(turns, plan.turn.value);
       (turn.Some? && conversation == Some(turn.value.conversation)) || plan.userMessage in messages
  }

  /** The plans of a batch that belong to the conversation, in their order. */
  function Belonging(conversation: Option<nat>, turns: seq<Turn>, messages: seq<nat>,
                     items: seq<ClientPlan>): seq<ClientPlan> {
    if items == [] then []
    else
      var front := Belonging(conversation, turns, messages, items[..|items| - 1]);
      if Belongs(conversation, turns, messages, items[|items| - 1]) then front + [items[|items| - 1]] else front
  }

  /** The first turn with the id, if there is one. */
  lemma {:induction false} FoundTurn(turns: seq<Turn>, id: nat, k: nat)
    requires k <= |turns| && (k < |turns| ==> turns[k].id == id) && forall i :: 0 <= i < k ==> turns[i].id != id
    ensures FindTurn(turns, id) == if k < |turns| then Some(turns[k]) else None
    decreases k
  {
    if 0 < k {
      assert turns[0].id != id;
      FoundTurn(turns[1..], id, k - 1);
    }
  }

  /** A plan belongs here exactly when it names a turn, and its message is on display or the first active turn of that
      id is one of the open conversation. */
  lemma BelongsIff(conversation: Option<nat>, turns: seq<Turn>, messages: seq<nat>, plan: ClientPlan, k: nat)
    requires plan.turn.Some? && k <= |turns|
    requires k < |turns| ==> turns[k].id == plan.turn.value
    requires forall i :: 0 <= i < k ==> turns[i].id != plan.turn.value
    ensures Belongs(conversation, turns, messages, plan) <==>
              plan.userMessage in messages || (k < |turns| && conversation == Some(turns[k].conversation))
  {
    FoundTurn(turns, plan.turn.value, k);
  }

  lemma NoTurnNoPlace(conversation: Option<nat>, turns: seq<Turn>, messages: seq<nat>, plan: ClientPlan)
    requires plan.turn == None
    ensures !Belongs(conversation, turns, messages, plan)
  {
  }

  /** Of a batch, what belongs here is applied one after another, in its order, and nothing else. */
  lemma {:induction false} BatchTells(conversation: Option<nat>, turns: seq<Turn>, messages: seq<nat>,
                                      items: seq<ClientPlan>, plan: ClientPlan, plans: seq<ClientPlan>)
    ensures Delivered(plans, Belonging(conversation, turns, messages, [])) == plans
    ensures Delivered(plans, Belonging(conversation, turns, messages, items + [plan])) ==
            var before := Delivered(plans, Belonging(conversation, turns, messages, items));
            if Belongs(conversation, turns, messages, plan) then Applied(before, plan) else before
  {
    assert (items + [plan])[..|items|] == items;
    if Belongs(conversation, turns, messages, plan) {
      DeliveredOn(plans, Belonging(conversation, turns, messages, items), plan);
    }
  }

  class PlanStore {
    var conversationId: Option<nat>
    var activeTurns: seq<Turn>
    var messages: seq<nat>
    var plans: seq<ClientPlan>

    constructor ()
      ensures conversationId == None && activeTurns == [] && messages == [] && plans == []
    {
      conversationId, activeTurns, messages, plans := None, [], [], [];
    }

    method ApplyPlan(plan: ClientPlan)
      modifies this`plans
      ensures plans == if Belongs(conversationId, activeTurns, messages, plan)
                       then Applied(old(plans), plan) else old(plans)
    {
      if plan.turn.None? {
        return;
      }
      var turn := FindTurn(activeTurns, plan.turn.value);
      var belongsToConversation :=
        (turn.Some? && conversationId == Some(turn.value.conversation)) || plan.userMessage in messages;
      if !belongsToConversation {
        return;
      }
      var existing := FindPlan(plans, plan.planId);
      if existing.Some? && existing.value.version >= plan.version {
        return;
      }
      plans := Sort(Others(plans, plan.planId) + [plan]);
    }

    /** Apply a batch, as a snapshot or a poll does; without an open conversation nothing is applied. */
    method ApplyPlans(items: seq<ClientPlan>)
      modifies this`plans
      ensures plans == if conversationId.None? then old(plans)
                       else Delivered(old(plans), Belonging(conversationId, activeTurns, messages, items))
    {
      if conversationId.None? {
        return;
      }
      ghost var was := plans;
      var i := 0;
      while i < |items|
        invariant 0 <= i <= |items|
        invariant plans == Delivered(was, Belonging(conversationId, activeTurns, messages, items[..i]))
      {
        DeliveredOn(was, Belonging(conversationId, activeTurns, messages, items[..i]), items[i]);
        assert items[..i + 1] == items[..i] + [items[i]];
        ApplyPlan(items[i]);
        i := i + 1;
      }
      assert items[..i] == items;
    }
  }
}
