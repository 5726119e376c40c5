/** The bounded parallel runner and the round-robin shards of an analysis. */
module WorkRunner {
  import opened Results

  /** What a handler does when called: return a value, or raise. */
  datatype Attempt = Returns(value: int) | Raises(retryable: bool)

  datatype WorkResult = Succeeded(key: string, value: int, attempts: nat) | GaveUp(key: string, attempts: nat,
                                  retryable: bool)

  datatype BatchStatus = BatchSuccess | BatchPartial | BatchFailed

  datatype Outcome = Outcome(status: BatchStatus, results: seq<WorkResult>)

  datatype RunnerError = BadConcurrency

  /** How the handler behaves on an item, by attempt number from one. */
  type Handler = (string, nat) -> Attempt

  /** `_run_one`: a second attempt exactly when the first failure was retryable and retrying is on. */
  method RunOne(key: string, handler: Handler, retryOnce: bool) returns (r: WorkResult)
    ensures r == OneResult(key, handler, retryOnce)
  {
    var attempts := 0;
    while true
      invariant attempts == 0 || (attempts == 1 && retryOnce && handler(key, 1) == Raises(true))
      decreases 2 - attempts
    {
      attempts := attempts + 1;
      match handler(key, attempts)
      case Returns(value) => return Succeeded(key, value, attempts);
      case Raises(retryable) =>
        if !(retryOnce && attempts == 1 && retryable) {
          return GaveUp(key, attempts, retryable);
        }
    }
  }

  /** The result without the loop. */
  function OneResult(key: string, handler: Handler, retryOnce: bool): WorkResult {
    var final := if retryOnce && handler(key, 1) == Raises(true) then 2 else 1;
    match handler(key, final)
    case Returns(value) => Succeeded(key, value, final)
    case Raises(retryable) => GaveUp(key, final, retryable)
  }

  /** The result is the item's own: its last attempt's value, or that attempt's failure. */
  lemma ResultTells(key: string, handler: Handler, retryOnce: bool)
    ensures var r := OneResult(key, handler, retryOnce);
            && r.key == key
            && (r.Succeeded? ==> handler(key, r.attempts) == Returns(r.value))
            && (r.GaveUp? ==> handler(key, r.attempts) == Raises(r.retryable))
            && (r.attempts == 1 || r.attempts == 2)
            && (r.attempts == 2 <==> retryOnce && handler(key, 1) == Raises(true))
  {
  }

  function Mapped(keys: seq<string>, handler: Handler, retryOnce: bool): seq<WorkResult> {
    seq(|keys|, i requires 0 <= i < |keys| => OneResult(keys[i], handler, retryOnce))
  }

  function Successes(results: seq<WorkResult>): (n: nat)
    ensures n <= |results|
  {
    if results == [] then 0
    else Successes(results[..|results| - 1]) + if results[|results| - 1].Succeeded? then 1 else 0
  }

  lemma {:induction false} SuccessesAre(results: seq<WorkResult>)
    ensures Successes(results) == |results| <==> forall i :: 0 <= i < |results| ==> results[i].Succeeded?
    ensures Successes(results) == 0 <==> forall i :: 0 <= i < |results| ==> results[i].GaveUp?
    decreases |results|
  {
    if results != [] {
      var front, last := results[..|results| - 1], results[|results| - 1];
      SuccessesAre(front);
      assert forall i :: 0 <= i < |front| ==> front[i] == results[i];
      if Successes(results) == |results| {
        assert Successes(front) == |front|;
      }
      if Successes(results) == 0 {
        assert Successes(front) == 0;
      }
    }
  }

  function StatusOf(results: seq<WorkResult>): BatchStatus {
    var n := Successes(results);
    if n == |results| then BatchSuccess else if n > 0 then BatchPartial else BatchFailed
  }

  ghost predicate Permutation(order: seq<nat>, n: nat) {
    && |order| == n
    && (forall i :: 0 <= i < n ==> order[i] < n)
    && (forall i, j :: 0 <= i < j < n ==> order[i] != order[j])
    && (forall k: nat :: k < n ==> k in order)
  }

  /** Fill the slots as the futures complete. */
  method FillSlots(ordered: array<Option<WorkResult>>, keys: seq<string>, handler: Handler, retryOnce: bool,
                   completion: seq<nat>)
    requires ordered.Length == |keys| && Permutation(completion, |keys|)
    modifies ordered
    ensures forall i :: 0 <= i < |keys| ==> ordered[i] == Some(OneResult(keys[i], handler, retryOnce))
  {
    var k := 0;
    while k < |completion|
      invariant 0 <= k <= |completion|
      invariant forall j :: 0 <= j < k ==>
          ordered[completion[j]] == Some(OneResult(keys[completion[j]], handler, retryOnce))
    {
      var index := completion[k];
      var result := RunOne(keys[index], handler, retryOnce);
      ordered[index] := Some(result);
      k := k + 1;
    }
    forall i | 0 <= i < |keys| ensures ordered[i] == Some(OneResult(keys[i], handler, retryOnce)) {
      assert i in completion;
    }
  }

  /** The filled slots in input order. */
  method CollectSlots(ordered: array<Option<WorkResult>>) returns (results: seq<WorkResult>)
    requires forall i :: 0 <= i < ordered.Length ==> ordered[i].Some?
    ensures |results| == ordered.Length && forall i :: 0 <= i < |results| ==> ordered[i] == Some(results[i])
  {
    results := [];
    var i := 0;
    while i < ordered.Length
      invariant 0 <= i <= ordered.Length && |results| == i
      invariant forall j :: 0 <= j < i ==> ordered[j] == Some(results[j])
    {
      if ordered[i].Some? {
        results := results + [ordered[i].value];
      }
      i := i + 1;
    }
  }

  /** `run_bounded`: whatever the order in which the futures complete, the results are those of running
      the items one after another, in input order. */
  method RunBounded(keys: seq<string>, handler: Handler, maxConcurrency: int, retryOnce: bool, completion: seq<nat>)
    returns (r: Result<Outcome, RunnerError>)
    requires Permutation(completion, |keys|)
    ensures r.Failure? <==> !(1 <= maxConcurrency <= 8)
    ensures r.Success? ==>
              && r.value.results == Mapped(keys, handler, retryOnce)
              && (r.value.status.BatchSuccess? <==> forall i :: 0 <= i < |keys| ==> r.value.results[i].Succeeded?)
              && (r.value.status.BatchFailed? <==>
                  keys != [] && forall i :: 0 <= i < |keys| ==> r.value.results[i].GaveUp?)
  {
    if !(1 <= maxConcurrency <= 8) {
      return Failure(BadConcurrency);
    }
    if keys == [] {
      return Success(Outcome(BatchSuccess, []));
    }
    var ordered := new Option<WorkResult>[|keys|](_ => None);
    FillSlots(ordered, keys, handler, retryOnce, completion);
    var results := CollectSlots(ordered);
    assert results == Mapped(keys, handler, retryOnce);
    SuccessesAre(results);
    r := Success(Outcome(StatusOf(results), results));
  }

  /** Attempts are two exactly when the first failure was retryable and retrying is on; a retried item
      succeeds iff its second attempt does. */
  lemma AttemptsExact(key: string, handler: Handler, retryOnce: bool)
    ensures var r := OneResult(key, handler, retryOnce);
            && (r.attempts == 2 <==> retryOnce && handler(key, 1) == Raises(true))
            && (r.attempts == 1 || r.attempts == 2)
            && (r.Succeeded? <==> handler(key, r.attempts).Returns?)
  {
  }

  // ----- shards -----

  function Min(a: int, b: int): int { if a < b then a else b }

  /** `analysis_run_count`. */
  function RunCount(objects: int, agents: int, maxConcurrency: int): int {
    if objects <= 0 then 0
    else if objects >= 8 then Min(objects, maxConcurrency)
    else if agents > 1 then Min(Min(objects, agents), maxConcurrency)
    else 1
  }

  /** No run without objects; from eight objects on as many runs as objects, below eight one run per agent if several
      are asked for, and never more than the bound; otherwise a single run. */
  lemma RunCountTells(objects: int, agents: int, maxConcurrency: int)
    ensures var runs := RunCount(objects, agents, maxConcurrency);
            && (objects <= 0 ==> runs == 0)
            && (objects >= 8 ==> runs <= objects && runs <= maxConcurrency && runs in {objects, maxConcurrency})
            && (1 <= objects <= 7 && agents >= 2 ==>
                  && runs <= objects && runs <= agents && runs <= maxConcurrency
                  && runs in {objects, agents, maxConcurrency})
            && (1 <= objects <= 7 && agents <= 1 ==> runs == 1)
  {
  }

  /** `ids[index::count]`. */
  function Strided(ids: seq<string>, start: nat, count: nat): (r: seq<string>)
    requires count > 0
    decreases if start < |ids| then |ids| - start else 0
  {
    if start >= |ids| then [] else [ids[start]] + Strided(ids, start + count, count)
  }

  /** `_partition_ids`. */
  function Partition(ids: seq<string>, count: nat): (shards: seq<seq<string>>)
    ensures |shards| == count
  {
    if count == 0 then [] else seq(count, index requires 0 <= index < count => Strided(ids, index, count))
  }

  lemma {:induction false} StridedAt(ids: seq<string>, start: nat, count: nat, k: nat)
    requires count > 0
    ensures k < |Strided(ids, start, count)| <==> start + k * count < |ids|
    ensures k < |Strided(ids, start, count)| ==> Strided(ids, start, count)[k] == ids[start + k * count]
    decreases k
  {
    if start < |ids| {
      if k > 0 {
        StridedAt(ids, start + count, count, k - 1);
        assert start + count + (k - 1) * count == start + k * count;
      }
    } else {
      assert k * count >= 0;
    }
  }

  /** Item `i` of the list is item `i / count` of shard `i % count`, and of no other place. */
  lemma ShardOf(ids: seq<string>, count: nat, i: nat)
    requires count > 0 && i < |ids|
    ensures var shards := Partition(ids, count);
            i / count < |shards[i % count]| && shards[i % count][i / count] == ids[i]
  {
    assert i == i % count + (i / count) * count;
    StridedAt(ids, i % count, count, i / count);
  }

  lemma ShardItem(ids: seq<string>, count: nat, s: nat, k: nat)
    requires s < count && k < |Partition(ids, count)[s]|
    ensures 0 <= s + k * count < |ids| && Partition(ids, count)[s][k] == ids[s + k * count]
  {
    TimesMonotone(0, k, count);
    StridedAt(ids, s, count, k);
  }

  lemma TimesMonotone(a: int, b: int, c: nat)
    requires a <= b
    ensures a * c <= b * c
  {
  }

  lemma SamePlace(s: nat, k: int, s': nat, k': int, count: nat)
    requires s < count && s' < count && s + k * count == s' + k' * count
    ensures s == s' && k == k'
  {
    if k < k' {
      assert (k + 1) * count == k * count + count;
      TimesMonotone(k + 1, k', count);
    }
    if k' < k {
      assert (k' + 1) * count == k' * count + count;
      TimesMonotone(k' + 1, k, count);
    }
  }

  /** The shards split the ids: each id lies in exactly one place of one shard. */
  lemma ShardsSplit(ids: seq<string>, count: nat, s: nat, k: nat, s': nat, k': nat)
    requires count > 0 && forall i, j :: 0 <= i < j < |ids| ==> ids[i] != ids[j]
    requires s < count && k < |Partition(ids, count)[s]| && s' < count && k' < |Partition(ids, count)[s']|
    requires Partition(ids, count)[s][k] == Partition(ids, count)[s'][k']
    ensures s == s' && k == k'
  {
    ShardItem(ids, count, s, k);
    ShardItem(ids, count, s', k');
    SamePlace(s, k, s', k', count);
  }

  lemma ShardSize(ids: seq<string>, count: nat, s: nat)
    requires s < count
    ensures var n := |Partition(ids, count)[s]|;
            s + n * count >= |ids| && (n > 0 ==> s + (n - 1) * count < |ids|)
  {
    var n := |Strided(ids, s, count)|;
    StridedAt(ids, s, count, n);
    if n > 0 { StridedAt(ids, s, count, n - 1); }
  }

  /** Shard sizes differ by at most one, the earlier shards being the larger ones. */
  lemma ShardsBalanced(ids: seq<string>, count: nat, s: nat, s': nat)
    requires s <= s' < count
    ensures |Partition(ids, count)[s']| <= |Partition(ids, count)[s]| <= |Partition(ids, count)[s']| + 1
  {
    ShardSize(ids, count, s);
    ShardSize(ids, count, s');
    var n, n' := |Partition(ids, count)[s]|, |Partition(ids, count)[s']|;
    SizesOrdered(n, n', s, s', count, |ids|);
  }

  lemma SizesOrdered(n: int, n': int, s: nat, s': nat, count: nat, size: nat)
    requires s <= s' < count && n >= 0 && n' >= 0
    requires s + n * count >= size && (n > 0 ==> s + (n - 1) * count < size)
    requires s' + n' * count >= size && (n' > 0 ==> s' + (n' - 1) * count < size)
    ensures n' <= n <= n' + 1
  {
    if n' > n {
      TimesMonotone(n, n' - 1, count);
    }
    if n > n' + 1 {
      assert (n' + 1) * count == n' * count + count;
      TimesMonotone(n' + 1, n - 1, count);
    }
  }

  /** For the run count of an analysis no shard is empty, and no id is left over. */
  lemma RunCountFitsShards(ids: seq<string>, agents: int, maxConcurrency: int)
    requires 1 <= maxConcurrency <= 8
    ensures var count := RunCount(|ids|, agents, maxConcurrency);
            && 0 <= count <= maxConcurrency
            && (count == 0 <==> ids == [])
            && forall s :: 0 <= s < count ==> Partition(ids, count)[s] != []
  {
    var count := RunCount(|ids|, agents, maxConcurrency);
    forall s | 0 <= s < count ensures Partition(ids, count)[s] != [] {
      StridedAt(ids, s, count, 0);
    }
  }
}
