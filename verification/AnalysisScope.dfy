/** Follow-up bookkeeping of an analysis task: which objects are done, failed, or still to do. */
module AnalysisScope {
  import opened Results
  import opened Texts
  import WorkRunner

  /** The lists kept in a task's scope; a list may hold repetitions when it arrives. */
  datatype Scope = Scope(objects: seq<string>, completed: seq<string>, failed: seq<string>, unprocessed: seq<string>)

  /** Keep the first occurrence of every element. */
  function Dedupe(s: seq<string>): (r: seq<string>)
    ensures forall x :: x in r <==> x in s
    ensures forall i, j :: 0 <= i < j < |r| ==> r[i] != r[j]
  {
    if s == [] then []
    else
      var rest := Dedupe(s[..|s| - 1]);
      if s[|s| - 1] in rest then rest else rest + [s[|s| - 1]]
  }

  function Without(s: seq<string>, drop: seq<string>): (r: seq<string>)
    ensures forall x :: x in r <==> x in s && x !in drop
    ensures (forall i, j :: 0 <= i < j < |s| ==> s[i] != s[j]) ==> forall i, j :: 0 <= i < j < |r| ==> r[i] != r[j]
  {
    if s == [] then []
    else
      var rest := Without(s[..|s| - 1], drop);
      if s[|s| - 1] in drop then rest else rest + [s[|s| - 1]]
  }

  function Only(s: seq<string>, keep: set<string>): (r: seq<string>)
    ensures forall x :: x in r <==> x in s && x in keep
    ensures (forall i, j :: 0 <= i < j < |s| ==> s[i] != s[j]) ==> forall i, j :: 0 <= i < j < |r| ==> r[i] != r[j]
  {
    if s == [] then []
    else
      var rest := Only(s[..|s| - 1], keep);
      if s[|s| - 1] in keep then rest + [s[|s| - 1]] else rest
  }

  /** `remaining_scope_object_ids`. */
  function Remaining(scope: Scope): seq<string> {
    Without(Dedupe(scope.objects), scope.completed)
  }

  datatype ScopeError = BatchTooLarge | ScopeRequired | InvalidId

  datatype AnalysisStatus = AllSucceeded | SomeSucceeded | NoneSucceeded

  /** How many ids one read of post bodies takes. */
  const READ_LIMIT := 500

  /** The canonical spelling of an id, if it is one. */
  type Spelling = string -> Option<string>

  /** The surroundings of one analysis: how ids are spelled, the ids of the user's posts in table order, what the
      analyzer does with an object at each attempt, and the deployment's limits. */
  datatype Work = Work(
    canon: Spelling, rows: seq<string>, handler: WorkRunner.Handler, agents: int, maxConcurrency: int, limit: nat)

  /** The remaining texts are all ids. */
  predicate AllIds(scope: Scope, canon: Spelling) {
    forall x :: x in Remaining(scope) ==> canon(x).Some?
  }

  /** The canonical spellings of the texts that are ids. */
  function Canonical(texts: seq<string>, canon: Spelling): seq<string> {
    if texts == [] then []
    else
      var front, last := Canonical(texts[..|texts| - 1], canon), canon(texts[|texts| - 1]);
      if last.Some? then front + [last.value] else front
  }

  /** The objects of one analysis, each once. */
  function Todo(scope: Scope, canon: Spelling): seq<string> {
    Dedupe(Canonical(Remaining(scope), canon))
  }

  function First(ids: seq<string>): seq<string> {
    if |ids| > READ_LIMIT then ids[..READ_LIMIT] else ids
  }

  /** The objects whose bodies are read: the table's rows among those asked for, by id. */
  function Bodies(todo: seq<string>, rows: seq<string>): (r: seq<string>)
    ensures forall x :: x in r ==> x in todo
    ensures forall i, j :: 0 <= i < j < |r| ==> r[i] != r[j]
  {
    Only(Dedupe(rows), set x | x in First(todo))
  }

  /** The keys of the results that succeeded, or of those that did not, in the order of the results. */
  function Keys(results: seq<WorkRunner.WorkResult>, succeeded: bool): seq<string> {
    if results == [] then []
    else
      var front := Keys(results[..|results| - 1], succeeded);
      var last := results[|results| - 1];
      if last.Succeeded? == succeeded then front + [last.key] else front
  }

  /** The runner's results for the remaining objects whose bodies were read, one per object. */
  function Outcomes(scope: Scope, work: Work): seq<WorkRunner.WorkResult> {
    WorkRunner.Mapped(Bodies(Todo(scope, work.canon), work.rows), work.handler, true)
  }

  function Succeeded(scope: Scope, work: Work): seq<string> {
    Keys(Outcomes(scope, work), true)
  }

  function FailedNow(scope: Scope, work: Work): seq<string> {
    Keys(Outcomes(scope, work), false)
  }

  function Unprocessed(scope: Scope, work: Work): seq<string> {
    Without(Todo(scope, work.canon), Bodies(Todo(scope, work.canon), work.rows))
  }

  /** One analysis. A scope with nothing left, too much, or a text that is no id is not analysed. */
  function Analysed(scope: Scope, work: Work): Result<Scope, ScopeError> {
    if Dedupe(scope.objects) == [] then Failure(ScopeRequired)
    else if Remaining(scope) == [] then Success(scope)
    else if !AllIds(scope, work.canon) then Failure(InvalidId)
    else if |Todo(scope, work.canon)| > work.limit then Failure(BatchTooLarge)
    else
      Success(scope.(
        completed := Dedupe(Dedupe(scope.completed) + Succeeded(scope, work)),
        failed := Without(Dedupe(Dedupe(scope.failed) + FailedNow(scope, work)), Succeeded(scope, work)),
        unprocessed := Unprocessed(scope, work)))
  }

  /** The status the task ends with. */
  function StatusOf(scope: Scope, work: Work): AnalysisStatus {
    if Remaining(scope) == [] then AllSucceeded
    else if Succeeded(scope, work) == [] then NoneSucceeded
    else if FailedNow(scope, work) != [] || Unprocessed(scope, work) != [] then SomeSucceeded
    else AllSucceeded
  }

  /** A follow-up task inherits the scope; the objects may have been refreshed, the bookkeeping is kept. */
  function Inherited(scope: Scope, refreshed: Option<seq<string>>): Scope {
    scope.(
      objects := Dedupe(if refreshed.Some? then refreshed.value else scope.objects),
      completed := Dedupe(scope.completed),
      failed := Dedupe(scope.failed))
  }

  datatype Action = Analyse(work: Work) | Inherit(refreshed: Option<seq<string>>)

  function Perform(scope: Scope, a: Action): Scope {
    match a
    case Analyse(work) =>
      (match Analysed(scope, work) case Success(after) => after case Failure(_) => scope)
    case Inherit(refreshed) => Inherited(scope, refreshed)
  }

  ghost function Replay(scope: Scope, acts: seq<Action>): Scope
    decreases |acts|
  {
    if acts == [] then scope else Replay(Perform(scope, acts[0]), acts[1..])
  }

  ghost predicate Disjoint(scope: Scope) {
    forall x :: x in scope.completed ==> x !in scope.failed
  }

  lemma {:induction false} CanonicalAre(texts: seq<string>, canon: Spelling, x: string)
    ensures x in Canonical(texts, canon) <==> exists y :: y in texts && canon(y) == Some(x)
    decreases |texts|
  {
    if texts != [] {
      var front, last := texts[..|texts| - 1], texts[|texts| - 1];
      assert texts == front + [last];
      CanonicalAre(front, canon, x);
    }
  }

  /** An object is to be analysed exactly when a remaining text spells it. */
  lemma TodoAre(scope: Scope, canon: Spelling, x: string)
    ensures x in Todo(scope, canon) <==> exists y :: y in Remaining(scope) && canon(y) == Some(x)
  {
    CanonicalAre(Remaining(scope), canon, x);
  }

  /** No remaining text is another spelling of a completed object. */
  ghost predicate Unspelled(scope: Scope, canon: Spelling) {
    forall y :: y in Remaining(scope) && canon(y).Some? ==> canon(y).value !in scope.completed
  }

  /** An object that failed just now was not completed before. */
  lemma FailuresRemained(scope: Scope, work: Work, x: string)
    requires x in FailedNow(scope, work) && Unspelled(scope, work.canon)
    ensures x !in scope.completed
  {
    KeysAre(Bodies(Todo(scope, work.canon), work.rows), work.handler, false, x);
    TodoAre(scope, work.canon, x);
  }

  lemma CompletedGrows(scope: Scope, a: Action)
    ensures forall x :: x in scope.completed ==> x in Perform(scope, a).completed
  {
  }

  lemma UnspelledKeepsDisjoint(scope: Scope, work: Work)
    requires Disjoint(scope) && Unspelled(scope, work.canon)
    ensures Disjoint(Perform(scope, Analyse(work)))
  {
    forall x | x in scope.completed ensures x !in FailedNow(scope, work) {
      if x in FailedNow(scope, work) { FailuresRemained(scope, work, x); }
    }
  }

  /** An analyzer that fails on every object. */
  function Failing(canon: Spelling, x: string, limit: nat): Work {
    Work(canon, [x], (_, _) => WorkRunner.Raises(false), 1, 1, limit)
  }

  lemma ReadableIsRead(todo: seq<string>, rows: seq<string>, x: string)
    requires x in todo && x in rows && |todo| <= READ_LIMIT
    ensures x in Bodies(todo, rows)
  {
    assert x in Dedupe(rows) && x in First(todo);
  }

  lemma FailingFails(scope: Scope, canon: Spelling, x: string)
    requires x in Todo(scope, canon) && |Todo(scope, canon)| <= READ_LIMIT
    ensures var work := Failing(canon, x, READ_LIMIT); x in FailedNow(scope, work) && x !in Succeeded(scope, work)
  {
    var work := Failing(canon, x, READ_LIMIT);
    var bodies := Bodies(Todo(scope, canon), work.rows);
    ReadableIsRead(Todo(scope, canon), work.rows, x);
    KeysAre(bodies, work.handler, false, x);
    KeysAre(bodies, work.handler, true, x);
  }

  /** A remaining text that spells a completed object can turn it into a failed one as well. */
  lemma RespelledMayFail(scope: Scope, canon: Spelling, y: string)
    requires AllIds(scope, canon) && y in Remaining(scope) && canon(y).value in scope.completed
    requires |Todo(scope, canon)| <= READ_LIMIT
    ensures !Disjoint(Perform(scope, Analyse(Failing(canon, canon(y).value, READ_LIMIT))))
  {
    var x := canon(y).value;
    TodoAre(scope, canon, x);
    FailingFails(scope, canon, x);
    AnalysisRecords(scope, Failing(canon, x, READ_LIMIT), x);
  }

  /** Whatever the analyzer does, the completed and the failed objects stay apart, exactly when no remaining text is
      another spelling of a completed object. */
  lemma StaysApartIff(scope: Scope, canon: Spelling)
    requires Disjoint(scope) && AllIds(scope, canon) && |Todo(scope, canon)| <= READ_LIMIT
    ensures (forall work: Work :: work.canon == canon ==> Disjoint(Perform(scope, Analyse(work)))) <==>
              Unspelled(scope, canon)
  {
    if Unspelled(scope, canon) {
      forall work: Work | work.canon == canon ensures Disjoint(Perform(scope, Analyse(work))) {
        UnspelledKeepsDisjoint(scope, work);
      }
    } else {
      var y :| y in Remaining(scope) && canon(y).Some? && canon(y).value in scope.completed;
      RespelledMayFail(scope, canon, y);
      assert Failing(canon, canon(y).value, READ_LIMIT).canon == canon;
    }
  }

  /** The listed texts are canonical spellings. */
  ghost predicate Spelled(texts: seq<string>, canon: Spelling) {
    forall x :: x in texts ==> canon(x) == Some(x)
  }

  /** An action among canonical spellings. */
  ghost predicate SpelledAction(a: Action, canon: Spelling) {
    match a
    case Analyse(work) => work.canon == canon
    case Inherit(refreshed) => refreshed.Some? ==> Spelled(refreshed.value, canon)
  }

  lemma PerformKeeps(scope: Scope, a: Action, canon: Spelling)
    requires Disjoint(scope) && Spelled(scope.objects, canon) && SpelledAction(a, canon)
    ensures Disjoint(Perform(scope, a)) && Spelled(Perform(scope, a).objects, canon)
    ensures forall x :: x in scope.completed ==> x in Perform(scope, a).completed
  {
    CompletedGrows(scope, a);
    match a
    case Analyse(work) => UnspelledKeepsDisjoint(scope, work);
    case Inherit(_) =>
  }

  /** Over any chain of analyses and follow-ups the completed set only grows; among canonical spellings it stays apart
      from the failed one, even when the object list is refreshed. */
  lemma {:induction false} CompletedOnlyGrows(scope: Scope, acts: seq<Action>, canon: Spelling)
    ensures forall x :: x in scope.completed ==> x in Replay(scope, acts).completed
    ensures Disjoint(scope) && Spelled(scope.objects, canon) && (forall a :: a in acts ==> SpelledAction(a, canon)) ==>
              Disjoint(Replay(scope, acts)) && Spelled(Replay(scope, acts).objects, canon)
    decreases |acts|
  {
    if acts != [] {
      CompletedGrows(scope, acts[0]);
      if Disjoint(scope) && Spelled(scope.objects, canon) && SpelledAction(acts[0], canon) {
        PerformKeeps(scope, acts[0], canon);
      }
      CompletedOnlyGrows(Perform(scope, acts[0]), acts[1..], canon);
    }
  }

  /** A completed text never remains again, however long the chain; and among canonical spellings its object is never
      analysed again. */
  lemma {:induction false} CompletedIsNeverAnalysedAgain(scope: Scope, acts: seq<Action>, canon: Spelling, x: string)
    requires x in scope.completed
    ensures x !in Remaining(Replay(scope, acts))
    ensures Disjoint(scope) && Spelled(scope.objects, canon) && (forall a :: a in acts ==> SpelledAction(a, canon)) ==>
              x !in Todo(Replay(scope, acts), canon)
  {
    CompletedOnlyGrows(scope, acts, canon);
    TodoAre(Replay(scope, acts), canon, x);
  }

  // ----- what the runner's results say about the objects -----

  /** An object's key is among the successes, or among the failures, exactly when it was an item and its own result
      says so: every item has one result, under its own key. */
  lemma {:induction false} KeysAre(keys: seq<string>, handler: WorkRunner.Handler, succeeded: bool, x: string)
    ensures x in Keys(WorkRunner.Mapped(keys, handler, true), succeeded) <==>
              x in keys && WorkRunner.OneResult(x, handler, true).Succeeded? == succeeded
    decreases |keys|
  {
    if keys != [] {
      var front, last := keys[..|keys| - 1], keys[|keys| - 1];
      MappedOn(keys, handler);
      KeysAre(front, handler, succeeded, x);
      assert keys == front + [last];
    }
  }

  lemma {:induction false} MappedOn(keys: seq<string>, handler: WorkRunner.Handler)
    requires keys != []
    ensures var results := WorkRunner.Mapped(keys, handler, true);
            && results[..|results| - 1] == WorkRunner.Mapped(keys[..|keys| - 1], handler, true)
            && results[|results| - 1] == WorkRunner.OneResult(keys[|keys| - 1], handler, true)
            && results[|results| - 1].key == keys[|keys| - 1]
  {
  }

  /** One result per item: successes and failures together are as many as the items. */
  lemma {:induction false} KeysCount(results: seq<WorkRunner.WorkResult>)
    ensures |Keys(results, true)| + |Keys(results, false)| == |results|
    decreases |results|
  {
    if results != [] {
      KeysCount(results[..|results| - 1]);
    }
  }

  lemma {:induction false} KeysDistinct(keys: seq<string>, handler: WorkRunner.Handler, succeeded: bool)
    requires forall i, j :: 0 <= i < j < |keys| ==> keys[i] != keys[j]
    ensures var r := Keys(WorkRunner.Mapped(keys, handler, true), succeeded);
            forall i, j :: 0 <= i < j < |r| ==> r[i] != r[j]
    decreases |keys|
  {
    if keys != [] {
      var front, last := keys[..|keys| - 1], keys[|keys| - 1];
      MappedOn(keys, handler);
      KeysDistinct(front, handler, succeeded);
      KeysAre(front, handler, succeeded, last);
      assert last !in front;
    }
  }

  /** Dropping a part of a list without repetitions leaves the rest. */
  lemma {:induction false} WithoutCount(s: seq<string>, part: seq<string>)
    requires forall i, j :: 0 <= i < j < |s| ==> s[i] != s[j]
    requires forall i, j :: 0 <= i < j < |part| ==> part[i] != part[j]
    requires forall x :: x in part ==> x in s
    ensures |Without(s, part)| + |part| == |s|
  {
    var rest := Without(s, part);
    DistinctSize(s);
    DistinctSize(part);
    DistinctSize(rest);
    assert Members(s) == Members(rest) + Members(part);
  }

  ghost function Members(s: seq<string>): set<string> {
    set x | x in s
  }

  lemma {:induction false} DistinctSize(s: seq<string>)
    requires forall i, j :: 0 <= i < j < |s| ==> s[i] != s[j]
    ensures |Members(s)| == |s|
    decreases |s|
  {
    if s != [] {
      DistinctSize(s[..|s| - 1]);
      assert Members(s) == Members(s[..|s| - 1]) + {s[|s| - 1]};
    }
  }

  /** One analysis splits its objects exactly into succeeded, failed and unprocessed, read off the runner's results:
      every object to be analysed is in exactly one of the three, and they hold nothing else, each once. */
  lemma AnalysisSplits(scope: Scope, work: Work, x: string)
    ensures x in Todo(scope, work.canon) <==>
              x in Succeeded(scope, work) || x in FailedNow(scope, work) || x in Unprocessed(scope, work)
    ensures !(x in Succeeded(scope, work) && x in FailedNow(scope, work))
    ensures !(x in Succeeded(scope, work) && x in Unprocessed(scope, work))
    ensures !(x in FailedNow(scope, work) && x in Unprocessed(scope, work))
    ensures |Succeeded(scope, work)| + |FailedNow(scope, work)| + |Unprocessed(scope, work)| ==
            |Todo(scope, work.canon)|
  {
    var todo := Todo(scope, work.canon);
    var bodies := Bodies(todo, work.rows);
    KeysAre(bodies, work.handler, true, x);
    KeysAre(bodies, work.handler, false, x);
    KeysCount(Outcomes(scope, work));
    WithoutCount(todo, bodies);
  }

  lemma RemainingGivesTodo(scope: Scope, canon: Spelling)
    requires AllIds(scope, canon)
    ensures Remaining(scope) == [] <==> Todo(scope, canon) == []
  {
    if Remaining(scope) != [] {
      var y := SomeElement(Remaining(scope));
      TodoAre(scope, canon, canon(y).value);
    }
  }

  /** The task ends as a success exactly when every object succeeded, and as a failure exactly when something remained
      and no object succeeded. */
  lemma StatusTells(scope: Scope, work: Work)
    requires AllIds(scope, work.canon)
    ensures StatusOf(scope, work).AllSucceeded? <==> |Succeeded(scope, work)| == |Todo(scope, work.canon)|
    ensures StatusOf(scope, work).NoneSucceeded? <==> Remaining(scope) != [] && Succeeded(scope, work) == []
  {
    AnalysisSplits(scope, work, "");
    RemainingGivesTodo(scope, work.canon);
  }

  /** An analysis goes ahead. */
  predicate GoesAhead(scope: Scope, work: Work) {
    Remaining(scope) != [] && AllIds(scope, work.canon) && |Todo(scope, work.canon)| <= work.limit
  }

  /** After an analysis an object is completed iff it was or just succeeded, and failed iff it was or just
      failed and did not just succeed. */
  lemma AnalysisRecords(scope: Scope, work: Work, x: string)
    requires GoesAhead(scope, work)
    ensures Analysed(scope, work).Success?
    ensures var after := Analysed(scope, work).value;
            && (x in after.completed <==> x in scope.completed || x in Succeeded(scope, work))
            && (x in after.failed <==>
                  (x in scope.failed || x in FailedNow(scope, work)) && x !in Succeeded(scope, work))
            && after.objects == scope.objects
  {
    var y := SomeElement(Remaining(scope));
    assert y in Dedupe(scope.objects);
  }

  /** A canonical spelling spells itself. */
  ghost predicate Settled(canon: Spelling) {
    forall x :: canon(x).Some? ==> canon(canon(x).value) == canon(x)
  }

  /** An object that was just completed remains to be done, and will be analysed once more, exactly when the scope does
      not list it in its canonical spelling. */
  lemma RespelledRemainsIff(scope: Scope, work: Work, y: string)
    requires GoesAhead(scope, work) && Settled(work.canon)
    requires y in Remaining(scope) && work.canon(y).value in Succeeded(scope, work)
    ensures y in Remaining(Analysed(scope, work).value) <==> work.canon(y) != Some(y)
  {
    AnalysisRecords(scope, work, y);
    AnalysisSplits(scope, work, y);
    TodoAre(scope, work.canon, y);
  }

  lemma OneRemains(scope: Scope, canon: Spelling, y: string, x: string)
    requires scope.objects == [y] && y !in scope.completed && canon(y) == Some(x)
    ensures Remaining(scope) == [y] && Todo(scope, canon) == [x]
  {
    OneOfAll(y);
    OneOfAll(x);
    assert [y][..0] == [] && Without([y], scope.completed) == [y];
    assert Canonical([y], canon) == [x];
  }

  lemma OneOfAll(x: string)
    ensures Dedupe([x]) == [x]
  {
    assert [x][..0] == [];
  }

  lemma OneSucceeds(scope: Scope, work: Work, x: string)
    requires Todo(scope, work.canon) == [x] && x in work.rows && WorkRunner.OneResult(x, work.handler, true).Succeeded?
    ensures x in Succeeded(scope, work) && |Succeeded(scope, work)| == 1
  {
    ReadableIsRead([x], work.rows, x);
    KeysAre(Bodies([x], work.rows), work.handler, true, x);
    AnalysisSplits(scope, work, x);
  }

  lemma NotTodoNotSucceeded(scope: Scope, work: Work, y: string)
    requires y !in Todo(scope, work.canon)
    ensures y !in Succeeded(scope, work)
  {
    AnalysisSplits(scope, work, y);
  }

  lemma OneGoesAhead(scope: Scope, work: Work, y: string, x: string)
    requires scope.objects == [y] && y !in scope.completed && work.canon(y) == Some(x) && work.limit >= 1
    ensures GoesAhead(scope, work)
  {
    OneRemains(scope, work.canon, y, x);
    assert |Todo(scope, work.canon)| == 1;
  }

  lemma OneEndsWell(scope: Scope, work: Work, x: string)
    requires GoesAhead(scope, work) && Todo(scope, work.canon) == [x]
    requires x in work.rows && WorkRunner.OneResult(x, work.handler, true).Succeeded?
    ensures StatusOf(scope, work).AllSucceeded?
  {
    OneSucceeds(scope, work, x);
    StatusTells(scope, work);
  }

  lemma OneIsAnalysed(scope: Scope, work: Work, y: string, x: string)
    requires scope.objects == [y] && y !in scope.completed && work.canon(y) == Some(x) && x != y && work.limit >= 1
    ensures Analysed(scope, work).Success?
    ensures var after := Analysed(scope, work).value; after.objects == [y] && y !in after.completed
  {
    OneRemains(scope, work.canon, y, x);
    OneGoesAhead(scope, work, y, x);
    NotTodoNotSucceeded(scope, work, y);
    AnalysisRecords(scope, work, y);
  }

  /** Such a scope: it lists an id in another spelling, its analysis succeeds, and nothing changes for the next. */
  lemma RespelledIsAnalysedAgain(canon: Spelling, handler: WorkRunner.Handler, y: string, x: string)
    requires canon(y) == Some(x) && canon(x) == Some(x) && x != y
    requires WorkRunner.OneResult(x, handler, true).Succeeded?
    ensures var scope, work := Scope([y], [], [], []), Work(canon, [x], handler, 1, 1, READ_LIMIT);
            && Analysed(scope, work).Success? && StatusOf(scope, work).AllSucceeded?
            && Todo(Analysed(scope, work).value, canon) == Todo(scope, canon) == [x]
  {
    var scope, work := Scope([y], [], [], []), Work(canon, [x], handler, 1, 1, READ_LIMIT);
    OneRemains(scope, canon, y, x);
    OneGoesAhead(scope, work, y, x);
    OneEndsWell(scope, work, x);
    OneIsAnalysed(scope, work, y, x);
    OneRemains(Analysed(scope, work).value, canon, y, x);
  }

  /** An analysis of canonical ids in which every remaining object can be read and its second attempt at the latest
      succeeds leaves nothing to do. */
  lemma AnalysisCompletes(scope: Scope, work: Work)
    requires |Todo(scope, work.canon)| <= work.limit <= READ_LIMIT && scope.objects != []
    requires Spelled(Remaining(scope), work.canon)
    requires forall x :: x in Remaining(scope) ==>
               x in work.rows && WorkRunner.OneResult(x, work.handler, true).Succeeded?
    ensures Analysed(scope, work).Success?
    ensures Remaining(Analysed(scope, work).value) == []
  {
    if Remaining(scope) != [] {
      var after := Analysed(scope, work).value;
      forall x | x in Remaining(scope) ensures x in after.completed {
        TodoAre(scope, work.canon, x);
        ReadableIsRead(Todo(scope, work.canon), work.rows, x);
        KeysAre(Bodies(Todo(scope, work.canon), work.rows), work.handler, true, x);
        AnalysisRecords(scope, work, x);
      }
      NothingLeft(scope, after);
    } else {
      assert scope.objects[0] in Dedupe(scope.objects);
    }
  }

  lemma NothingLeft(scope: Scope, after: Scope)
    requires after.objects == scope.objects && forall x :: x in scope.completed ==> x in after.completed
    requires forall x :: x in Remaining(scope) ==> x in after.completed
    ensures Remaining(after) == []
  {
    forall x ensures x !in Remaining(after) {
    }
    NoMembers(Remaining(after));
  }

  lemma NoMembers(s: seq<string>)
    requires forall x :: x !in s
    ensures s == []
  {
    if s != [] {
      var _ := SomeElement(s);
      assert false;
    }
  }

  lemma SomeElement(s: seq<string>) returns (x: string)
    requires s != []
    ensures x in s
  {
    x := s[0];
  }

  // ----- the shards and their runs -----

  /** A shard has `n` places exactly if place `n` lies past the list and place `n - 1` does not. */
  lemma {:induction false} ShardLength(ids: seq<string>, s: nat, count: nat, n: nat)
    requires s < count && s + n * count >= |ids| && (n > 0 ==> s + (n - 1) * count < |ids|)
    ensures |WorkRunner.Strided(ids, s, count)| == n
  {
    WorkRunner.StridedAt(ids, s, count, n);
    if n > 0 {
      WorkRunner.StridedAt(ids, s, count, n - 1);
    }
  }

  /** One more id goes to one shard. */
  lemma {:induction false} StridedOn(ids: seq<string>, i: nat, s: nat, count: nat)
    requires s < count && i < |ids|
    ensures WorkRunner.Strided(ids[..i + 1], s, count) ==
            WorkRunner.Strided(ids[..i], s, count) + if i % count == s then [ids[i]] else []
  {
    var n := |WorkRunner.Strided(ids[..i], s, count)|;
    WorkRunner.ShardSize(ids[..i], count, s);
    PlaceIs(i, s, n, count);
    LengthOn(ids, i, s, count, n);
    StridedGrows(ids, i, s, count, n);
  }

  lemma {:induction false} LengthOn(ids: seq<string>, i: nat, s: nat, count: nat, n: nat)
    requires s < count && i < |ids| && s + n * count >= i && (n > 0 ==> s + (n - 1) * count < i)
    requires s + n * count == i <==> i % count == s
    ensures |WorkRunner.Strided(ids[..i + 1], s, count)| == n + if i % count == s then 1 else 0
  {
    if i % count == s {
      assert (n + 1) * count == n * count + count;
      ShardLength(ids[..i + 1], s, count, n + 1);
    } else {
      ShardLength(ids[..i + 1], s, count, n);
    }
  }

  lemma {:induction false} StridedGrows(ids: seq<string>, i: nat, s: nat, count: nat, n: nat)
    requires s < count && i < |ids| && n == |WorkRunner.Strided(ids[..i], s, count)|
    requires s + n * count == i <==> i % count == s
    requires |WorkRunner.Strided(ids[..i + 1], s, count)| == n + if i % count == s then 1 else 0
    ensures WorkRunner.Strided(ids[..i + 1], s, count) ==
            WorkRunner.Strided(ids[..i], s, count) + if i % count == s then [ids[i]] else []
  {
    var shorter, longer := WorkRunner.Strided(ids[..i], s, count), WorkRunner.Strided(ids[..i + 1], s, count);
    forall k | 0 <= k < n ensures longer[k] == shorter[k] {
      WorkRunner.StridedAt(ids[..i], s, count, k);
      WorkRunner.StridedAt(ids[..i + 1], s, count, k);
    }
    if i % count == s {
      WorkRunner.StridedAt(ids[..i + 1], s, count, n);
    }
  }

  /** Place `n` of shard `s` is the next index exactly when the shard is the index's own. */
  lemma PlaceIs(i: nat, s: nat, n: nat, count: nat)
    requires s < count && s + n * count >= i && (n > 0 ==> s + (n - 1) * count < i)
    ensures s + n * count == i <==> i % count == s
  {
    var q := i / count;
    assert i == q * count + i % count;
    assert (n + 1) * count == n * count + count;
    if i % count == s {
      if n < q {
        WorkRunner.TimesMonotone(n + 1, q, count);
      }
      if n > q {
        WorkRunner.TimesMonotone(q, n - 1, count);
      }
      assert n == q;
    } else if s + n * count == i {
      WorkRunner.SamePlace(s, n, i % count, q, count);
    }
  }

  /** The results of a batch by the run of their objects: run `s` gets exactly the results of its shard, in order.
      Looking up an object's run never fails, since the shards cover the objects. */
  method GroupByRun(bodies: seq<string>, results: seq<WorkRunner.WorkResult>, count: nat, handler: WorkRunner.Handler)
    returns (groups: seq<seq<WorkRunner.WorkResult>>)
    requires forall i, j :: 0 <= i < j < |bodies| ==> bodies[i] != bodies[j]
    requires results == WorkRunner.Mapped(bodies, handler, true) && (bodies != [] ==> count > 0)
    ensures |groups| == count
    ensures forall s :: 0 <= s < count ==>
              groups[s] == WorkRunner.Mapped(WorkRunner.Partition(bodies, count)[s], handler, true)
  {
    var runOf := AssignRuns(bodies, count);
    groups := seq(count, _ => []);
    var i := 0;
    while i < |results|
      invariant 0 <= i <= |results| && |groups| == count
      invariant forall s :: 0 <= s < count ==> groups[s] == ShardResults(bodies[..i], s, count, handler)
    {
      var run := runOf[results[i].key];
      forall s | 0 <= s < count
        ensures ShardResults(bodies[..i + 1], s, count, handler) ==
                if s == run then groups[s] + [results[i]] else groups[s]
      {
        ShardResultsOn(bodies, i, s, count, handler);
      }
      groups := groups[run := groups[run] + [results[i]]];
      i := i + 1;
    }
    assert bodies[..i] == bodies;
  }

  function ShardResults(bodies: seq<string>, s: nat, count: nat,
                        handler: WorkRunner.Handler): seq<WorkRunner.WorkResult>
    requires s < count
  {
    WorkRunner.Mapped(WorkRunner.Strided(bodies, s, count), handler, true)
  }

  lemma ShardResultsOn(bodies: seq<string>, i: nat, s: nat, count: nat, handler: WorkRunner.Handler)
    requires i < |bodies| && s < count
    ensures ShardResults(bodies[..i + 1], s, count, handler) ==
            ShardResults(bodies[..i], s, count, handler) +
            if i % count == s then WorkRunner.Mapped([bodies[i]], handler, true) else []
  {
    StridedOn(bodies, i, s, count);
  }

  /** The run of every object, from the shards. */
  method AssignRuns(bodies: seq<string>, count: nat) returns (runOf: map<string, nat>)
    requires forall i, j :: 0 <= i < j < |bodies| ==> bodies[i] != bodies[j]
    requires bodies != [] ==> count > 0
    ensures forall i :: 0 <= i < |bodies| ==> bodies[i] in runOf && runOf[bodies[i]] == i % count
  {
    var shards := WorkRunner.Partition(bodies, count);
    runOf := map[];
    var s := 0;
    while s < |shards|
      invariant 0 <= s <= |shards| == count
      invariant forall i :: 0 <= i < |bodies| && i % count < s ==> bodies[i] in runOf && runOf[bodies[i]] == i % count
    {
      ghost var before := runOf;
      runOf := AssignShard(shards[s], s, runOf);
      forall i | 0 <= i < |bodies| && i % count < s + 1
        ensures bodies[i] in runOf && runOf[bodies[i]] == i % count
      {
        OwnShardOnly(bodies, count, s, i);
      }
      s := s + 1;
    }
  }

  method AssignShard(shard: seq<string>, run: nat, runOf: map<string, nat>) returns (after: map<string, nat>)
    ensures forall x :: x in shard ==> x in after && after[x] == run
    ensures forall x :: x !in shard ==> (x in after <==> x in runOf) && (x in runOf ==> after[x] == runOf[x])
  {
    after := runOf;
    var k := 0;
    while k < |shard|
      invariant 0 <= k <= |shard|
      invariant forall x :: x in shard[..k] ==> x in after && after[x] == run
      invariant forall x :: x !in shard[..k] ==> (x in after <==> x in runOf) && (x in runOf ==> after[x] == runOf[x])
    {
      after := after[shard[k] := run];
      assert shard[..k + 1] == shard[..k] + [shard[k]];
      k := k + 1;
    }
    assert shard[..k] == shard;
  }

  /** An object is in the shard of its index and in no other. */
  lemma OwnShardOnly(bodies: seq<string>, count: nat, s: nat, i: nat)
    requires forall i, j :: 0 <= i < j < |bodies| ==> bodies[i] != bodies[j]
    requires s < count && i < |bodies|
    ensures bodies[i] in WorkRunner.Partition(bodies, count)[s] <==> i % count == s
  {
    var shard := WorkRunner.Partition(bodies, count)[s];
    if i % count == s {
      WorkRunner.ShardOf(bodies, count, i);
    }
    if bodies[i] in shard {
      var k: nat :| k < |shard| && shard[k] == bodies[i];
      PlaceOf(bodies, count, s, k);
    }
  }

  lemma ResidueOf(s: nat, k: nat, count: nat)
    requires s < count
    ensures (s + k * count) % count == s
  {
    var i := s + k * count;
    assert i == i % count + i / count * count;
    WorkRunner.SamePlace(s, k, i % count, i / count, count);
  }

  lemma PlaceOf(bodies: seq<string>, count: nat, s: nat, k: nat)
    requires forall i, j :: 0 <= i < j < |bodies| ==> bodies[i] != bodies[j]
    requires s < count && k < |WorkRunner.Partition(bodies, count)[s]|
    ensures forall i :: 0 <= i < |bodies| && bodies[i] == WorkRunner.Partition(bodies, count)[s][k] ==> i % count == s
  {
    WorkRunner.ShardItem(bodies, count, s, k);
    ResidueOf(s, k, count);
  }

  // ----- the lists of a scope -----

  /** An entry of a stored list: a text, or something else that is skipped. */
  datatype Entry = Text(text: string) | OtherEntry

  /** The texts of the entries without white space around them; empty ones drop out. */
  function Cleaned(entries: seq<Entry>): seq<string> {
    if entries == [] then []
    else
      var front, last := Cleaned(entries[..|entries| - 1]), entries[|entries| - 1];
      if last.Text? && Strip(last.text) != "" then front + [Strip(last.text)] else front
  }

  /** `_scope_ids`: what is no list counts as the empty one. */
  method ScopeIds(value: Option<seq<Entry>>) returns (normalized: seq<string>)
    ensures normalized == if value.Some? then Dedupe(Cleaned(value.value)) else []
  {
    normalized := [];
    if value.None? {
      return;
    }
    var entries := value.value;
    var i := 0;
    while i < |entries|
      invariant 0 <= i <= |entries| && normalized == Dedupe(Cleaned(entries[..i]))
    {
      CleanedOn(entries, i);
      if entries[i].Text? {
        var id := Strip(entries[i].text);
        if id != "" && id !in normalized {
          normalized := normalized + [id];
        }
      }
      i := i + 1;
    }
    assert entries[..i] == entries;
  }

  lemma {:induction false} CleanedOn(entries: seq<Entry>, i: nat)
    requires i < |entries|
    ensures Cleaned(entries[..i + 1]) ==
            if entries[i].Text? && Strip(entries[i].text) != "" then Cleaned(entries[..i]) + [Strip(entries[i].text)]
            else Cleaned(entries[..i])
  {
    assert entries[..i + 1][..i] == entries[..i];
  }

  /** The first occurrences of a list of canonical ids, as a dictionary keeps them. */
  method Unique(ids: seq<string>) returns (unique: seq<string>)
    ensures unique == Dedupe(ids)
  {
    unique := [];
    var i := 0;
    while i < |ids|
      invariant 0 <= i <= |ids| && unique == Dedupe(ids[..i])
    {
      assert ids[..i + 1][..i] == ids[..i];
      if ids[i] !in unique {
        unique := unique + [ids[i]];
      }
      i := i + 1;
    }
    assert ids[..i] == ids;
  }

  /** The keys of the successes, or of the failures, of a batch. */
  method CollectKeys(results: seq<WorkRunner.WorkResult>, succeeded: bool) returns (keys: seq<string>)
    ensures keys == Keys(results, succeeded)
  {
    keys := [];
    var i := 0;
    while i < |results|
      invariant 0 <= i <= |results| && keys == Keys(results[..i], succeeded)
    {
      assert results[..i + 1][..i] == results[..i];
      if results[i].Succeeded? == succeeded {
        keys := keys + [results[i].key];
      }
      i := i + 1;
    }
    assert results[..i] == results;
  }

  /** The canonical spellings, unless some text is no id. */
  method CanonicalIds(texts: seq<string>, canon: Spelling) returns (ids: Option<seq<string>>)
    ensures ids == if forall x :: x in texts ==> canon(x).Some? then Some(Canonical(texts, canon)) else None
  {
    var found: seq<string> := [];
    var i := 0;
    while i < |texts|
      invariant 0 <= i <= |texts| && found == Canonical(texts[..i], canon)
      invariant forall j :: 0 <= j < i ==> canon(texts[j]).Some?
    {
      assert texts[..i + 1][..i] == texts[..i];
      var id := canon(texts[i]);
      if id.None? {
        return None;
      }
      found := found + [id.value];
      i := i + 1;
    }
    assert texts[..i] == texts;
    return Some(found);
  }

  /** The scope of a task, rewritten by each analysis. */
  class AnalysisTask {
    var scope: Scope

    constructor (scope: Scope)
      ensures this.scope == scope
    {
      this.scope := scope;
    }

    /** `execute_analysis_task`, as far as the scope goes, for any order in which the analyses complete. The results of
        every run are those of its shard. A refused analysis changes nothing. */
    method Execute(work: Work, completion: seq<nat>)
      returns (r: Result<AnalysisStatus, ScopeError>, groups: seq<seq<WorkRunner.WorkResult>>)
      requires 1 <= work.maxConcurrency <= 8
      requires WorkRunner.Permutation(completion, |Bodies(Todo(scope, work.canon), work.rows)|)
      modifies this
      ensures scope == Perform(old(scope), Analyse(work))
      ensures r.Success? <==> Analysed(old(scope), work).Success?
      ensures r.Success? ==> r.value == StatusOf(old(scope), work)
      ensures r.Success? && Remaining(old(scope)) != [] ==>
                var bodies := Bodies(Todo(old(scope), work.canon), work.rows);
                && |groups| == WorkRunner.RunCount(|bodies|, work.agents, work.maxConcurrency)
                && forall s :: 0 <= s < |groups| ==>
                     groups[s] == WorkRunner.Mapped(WorkRunner.Partition(bodies, |groups|)[s], work.handler, true)
    {
      groups := [];
      var all := Unique(scope.objects);
      if all == [] {
        return Failure(ScopeRequired), [];
      }
      var completed := Unique(scope.completed);
      var remaining := Without(all, scope.completed);
      if remaining == [] {
        return Success(AllSucceeded), [];
      }
      var ids := CanonicalIds(remaining, work.canon);
      if ids.None? {
        return Failure(InvalidId), [];
      }
      var todo := Unique(ids.value);
      if |todo| > work.limit {
        return Failure(BatchTooLarge), [];
      }
      var bodies := Bodies(todo, work.rows);
      var unprocessed := Without(todo, bodies);
      var count := WorkRunner.RunCount(|bodies|, work.agents, work.maxConcurrency);
      WorkRunner.RunCountFitsShards(bodies, work.agents, work.maxConcurrency);
      var outcome := WorkRunner.RunBounded(bodies, work.handler, work.maxConcurrency, true, completion);
      var results := outcome.value.results;
      groups := GroupByRun(bodies, results, count, work.handler);
      var succeeded := CollectKeys(results, true);
      var failedNow := CollectKeys(results, false);
      var priorFailed := Unique(scope.failed);
      var nowCompleted := Unique(completed + succeeded);
      var nowFailed := Unique(priorFailed + failedNow);
      scope := scope.(completed := nowCompleted, failed := Without(nowFailed, succeeded), unprocessed := unprocessed);
      var status := if succeeded == [] then NoneSucceeded
                    else if failedNow != [] || unprocessed != [] then SomeSucceeded else AllSucceeded;
      return Success(status), groups;
    }
  }
}
