/** The sliding-window login limiter: what it stores, and the bound it enforces. */
module LoginLimiter {
  import opened Texts

  datatype Limits = Limits(maxAttempts: nat, window: int)

  /** The attempts of one (email, ip) key that are younger than the window. */
  function Recent(attempts: seq<int>, now: int, window: int): seq<int> {
    if attempts == [] then []
    else
      var rest := Recent(attempts[..|attempts| - 1], now, window);
      if now - attempts[|attempts| - 1] < window then rest + [attempts[|attempts| - 1]] else rest
  }

  /** `_check_login_rate` on one key: the stored list afterwards, and whether the attempt passes. A
      refused attempt is not stored, and neither is the pruning. */
  function Checked(stored: seq<int>, now: int, limits: Limits): (seq<int>, bool) {
    var recent := Recent(stored, now, limits.window);
    if |recent| >= limits.maxAttempts then (stored, false) else (recent + [now], true)
  }

  /** Successive attempts at the given times, without a success in between: the stored list and the
      times that passed. */
  function Attempted(limits: Limits, times: seq<int>): (seq<int>, seq<int>)
    decreases |times|
  {
    if times == [] then ([], [])
    else
      var (stored, passed) := Attempted(limits, times[..|times| - 1]);
      var now := times[|times| - 1];
      var (after, ok) := Checked(stored, now, limits);
      (after, if ok then passed + [now] else passed)
  }

  ghost predicate NonDecreasing(times: seq<int>) {
    forall i, j :: 0 <= i < j < |times| ==> times[i] <= times[j]
  }

  /** On a non-decreasing list, the recent entries are a suffix. */
  lemma {:induction false} RecentIsSuffix(times: seq<int>, now: int, window: int) returns (k: nat)
    requires NonDecreasing(times)
    ensures k <= |times| && Recent(times, now, window) == times[k..]
    ensures forall i :: 0 <= i < |times| ==> (i >= k <==> now - times[i] < window)
    decreases |times|
  {
    if times == [] {
      k := 0;
    } else {
      var n := |times| - 1;
      k := RecentIsSuffix(times[..n], now, window);
      if now - times[n] < window {
        assert times[k..] == times[..n][k..] + [times[n]];
      } else {
        RecentEmpty(times, now, window);
        k := |times|;
      }
    }
  }

  lemma {:induction false} RecentEmpty(times: seq<int>, now: int, window: int)
    requires forall i :: 0 <= i < |times| ==> now - times[i] >= window
    ensures Recent(times, now, window) == []
    decreases |times|
  {
    if times != [] {
      RecentEmpty(times[..|times| - 1], now, window);
    }
  }

  /** The stored list is what passed, less entries that were out of the window at the last pass. */
  ghost predicate Prunes(limits: Limits, stored: seq<int>, passed: seq<int>, k: nat) {
    && NonDecreasing(passed)
    && k <= |passed| && stored == passed[k..]
    && forall i :: 0 <= i < k ==> passed[|passed| - 1] - passed[i] >= limits.window
  }

  /** A pass counts every earlier pass inside the window ending now: pruning loses nothing that matters. */
  lemma PassCounts(limits: Limits, stored: seq<int>, passed: seq<int>, k: nat, now: int) returns (k': nat)
    requires Prunes(limits, stored, passed, k) && forall i :: 0 <= i < |passed| ==> passed[i] <= now
    ensures k' <= |passed| && Recent(stored, now, limits.window) == passed[k'..]
    ensures forall i :: 0 <= i < k' ==> now - passed[i] >= limits.window
    ensures forall i :: k' <= i < |passed| ==> now - passed[i] < limits.window
    ensures Prunes(limits, Recent(stored, now, limits.window) + [now], passed + [now], k')
  {
    assert NonDecreasing(stored);
    var r := RecentIsSuffix(stored, now, limits.window);
    k' := k + r;
    WindowSplits(limits, stored, passed, k, now, r);
    PassPrunes(limits, passed, k', now);
    assert stored[r..] == passed[k'..];
  }

  /** What the stored list keeps is what passed inside the window. */
  lemma WindowSplits(limits: Limits, stored: seq<int>, passed: seq<int>, k: nat, now: int, r: nat)
    requires Prunes(limits, stored, passed, k) && r <= |stored|
    requires forall i :: 0 <= i < |passed| ==> passed[i] <= now
    requires forall i :: 0 <= i < |stored| ==> (i >= r <==> now - stored[i] < limits.window)
    ensures forall i :: 0 <= i < k + r ==> now - passed[i] >= limits.window
    ensures forall i :: k + r <= i < |passed| ==> now - passed[i] < limits.window
  {
    forall i | 0 <= i < k + r ensures now - passed[i] >= limits.window {
      if i >= k { assert stored[i - k] == passed[i]; }
    }
    forall i | k + r <= i < |passed| ensures now - passed[i] < limits.window {
      assert stored[i - k] == passed[i];
    }
  }

  lemma PassPrunes(limits: Limits, passed: seq<int>, k: nat, now: int)
    requires NonDecreasing(passed) && k <= |passed| && forall i :: 0 <= i < |passed| ==> passed[i] <= now
    requires forall i :: 0 <= i < k ==> now - passed[i] >= limits.window
    ensures Prunes(limits, passed[k..] + [now], passed + [now], k)
  {
    assert (passed + [now])[k..] == passed[k..] + [now];
  }

  lemma {:induction false} StoredIsRecentlyPassed(limits: Limits, times: seq<int>) returns (k: nat)
    requires NonDecreasing(times)
    ensures Prunes(limits, Attempted(limits, times).0, Attempted(limits, times).1, k)
    ensures forall i :: 0 <= i < |Attempted(limits, times).1| ==> Attempted(limits, times).1[i] in times
    decreases |times|
  {
    if times == [] {
      k := 0;
    } else {
      var front, now := times[..|times| - 1], times[|times| - 1];
      k := StoredIsRecentlyPassed(limits, front);
      var (stored, passed) := Attempted(limits, front);
      forall i | 0 <= i < |passed| ensures passed[i] in times && passed[i] <= now {
        var j :| 0 <= j < |front| && front[j] == passed[i];
        assert times[j] == passed[i];
      }
      if Checked(stored, now, limits).1 {
        k := PassCounts(limits, stored, passed, k, now);
      }
    }
  }

  /** With a non-decreasing clock, between two successes at most `maxAttempts` attempts pass within any
      span shorter than the window. */
  lemma {:induction false} BoundedPasses(limits: Limits, times: seq<int>, i: nat)
    requires NonDecreasing(times)
    requires i + limits.maxAttempts < |Attempted(limits, times).1|
    ensures var passed := Attempted(limits, times).1;
            passed[i + limits.maxAttempts] - passed[i] >= limits.window
    decreases |times|
  {
    var front, now := times[..|times| - 1], times[|times| - 1];
    var (stored, before) := Attempted(limits, front);
    if i + limits.maxAttempts < |before| {
      BoundedPasses(limits, front, i);
    } else {
      var k := StoredIsRecentlyPassed(limits, front);
      AllPassedEarlier(limits, times);
      var k' := PassCounts(limits, stored, before, k, now);
      assert |before| - k' < limits.maxAttempts;
    }
  }

  lemma AllPassedEarlier(limits: Limits, times: seq<int>)
    requires NonDecreasing(times) && times != []
    ensures var before := Attempted(limits, times[..|times| - 1]).1;
            forall i :: 0 <= i < |before| ==> before[i] <= times[|times| - 1]
  {
    var front := times[..|times| - 1];
    var _ := StoredIsRecentlyPassed(limits, front);
    var before := Attempted(limits, front).1;
    forall i | 0 <= i < |before| ensures before[i] <= times[|times| - 1] {
      var j :| 0 <= j < |front| && front[j] == before[i];
      assert times[j] == before[i];
    }
  }

  /** A refused attempt was refused for cause: the window really holds `maxAttempts` passes. */
  lemma {:induction false} RefusedForCause(limits: Limits, times: seq<int>, now: int)
    requires NonDecreasing(times + [now])
    requires !Checked(Attempted(limits, times).0, now, limits).1
    ensures var passed := Attempted(limits, times).1;
            && |passed| >= limits.maxAttempts
            && forall i :: |passed| - limits.maxAttempts <= i < |passed| ==> now - passed[i] < limits.window
  {
    assert (times + [now])[..|times|] == times;
    assert forall i, j :: 0 <= i < j < |times| ==> (times + [now])[i] == times[i] && (times + [now])[j] == times[j];
    var k := StoredIsRecentlyPassed(limits, times);
    AllPassedEarlier(limits, times + [now]);
    var (stored, passed) := Attempted(limits, times);
    var _ := PassCounts(limits, stored, passed, k, now);
  }

  /** Attempts are kept by address, in lower case, and IP. */
  function KeyOf(email: string, ip: string): string {
    Lower(email) + "|" + ip
  }

  /** `b` goes on after `a` and a bar with `t`, and `p` is `t`, a bar and `q`. */
  ghost predicate Straddles(a: string, p: string, b: string, q: string) {
    exists t: string :: b == a + "|" + t && p == t + "|" + q
  }

  lemma BarSplits(a: string, p: string, b: string, q: string)
    requires a + "|" + p == b + "|" + q && |a| <= |b|
    ensures (a == b && p == q) || Straddles(a, p, b, q)
  {
    var x := a + "|" + p;
    assert |x| == |a| + 1 + |p| == |b| + 1 + |q|;
    assert x[..|a|] == a && x[|a|] == '|' && x[|a| + 1..] == p;
    assert x[..|b|] == b && x[|b|] == '|' && x[|b| + 1..] == q;
    if |a| < |b| {
      var t := b[|a| + 1..];
      assert b[..|a|] == a && b[|a|] == '|';
      assert b == a + "|" + t;
      assert p == x[|a| + 1..|b|] + "|" + q;
      assert t == x[|a| + 1..|b|];
    }
  }

  lemma StraddlingJoins(a: string, p: string, b: string, q: string)
    requires Straddles(a, p, b, q)
    ensures a + "|" + p == b + "|" + q
  {
    var t: string :| b == a + "|" + t && p == t + "|" + q;
    assert a + "|" + (t + "|" + q) == (a + "|" + t) + "|" + q;
  }

  /** Two pairs of address and IP share their attempts exactly when the addresses differ in case only and the IPs are
      the same, or a bar inside an address and one inside an IP make the joined texts the same. */
  lemma SharedKeyIff(email: string, ip: string, other: string, otherIp: string)
    ensures KeyOf(email, ip) == KeyOf(other, otherIp) <==>
              || (Lower(email) == Lower(other) && ip == otherIp)
              || Straddles(Lower(email), ip, Lower(other), otherIp)
              || Straddles(Lower(other), otherIp, Lower(email), ip)
  {
    var a, b := Lower(email), Lower(other);
    assert KeyOf(email, ip) == a + "|" + ip && KeyOf(other, otherIp) == b + "|" + otherIp;
    if a + "|" + ip == b + "|" + otherIp {
      if |a| <= |b| { BarSplits(a, ip, b, otherIp); } else { BarSplits(b, otherIp, a, ip); }
    }
    if Straddles(a, ip, b, otherIp) { StraddlingJoins(a, ip, b, otherIp); }
    if Straddles(b, otherIp, a, ip) { StraddlingJoins(b, otherIp, a, ip); }
  }

  /** An IP has no bar, so two pairs share their attempts exactly when the addresses differ in case only and the IPs are
      the same. */
  lemma SameKeyIff(email: string, ip: string, other: string, otherIp: string)
    requires '|' !in ip && '|' !in otherIp
    ensures KeyOf(email, ip) == KeyOf(other, otherIp) <==> Lower(email) == Lower(other) && ip == otherIp
  {
    SharedKeyIff(email, ip, other, otherIp);
    NoBarNoStraddle(Lower(email), ip, Lower(other), otherIp);
    NoBarNoStraddle(Lower(other), otherIp, Lower(email), ip);
  }

  lemma NoBarNoStraddle(a: string, p: string, b: string, q: string)
    requires '|' !in p
    ensures !Straddles(a, p, b, q)
  {
    forall t: string ensures p != t + "|" + q {
      assert (t + "|" + q)[|t|] == '|';
    }
  }

  /** The process-wide table of attempts. */
  class Limiter {
    const limits: Limits
    var attempts: map<string, seq<int>>

    constructor (limits: Limits)
      ensures this.limits == limits && attempts == map[]
    {
      this.limits := limits;
      attempts := map[];
    }

    function Stored(key: string): seq<int>
      reads this
    {
      if key in attempts then attempts[key] else []
    }

    method CheckLoginRate(email: string, ip: string, now: int) returns (ok: bool)
      modifies this
      ensures (Stored(KeyOf(email, ip)), ok) == Checked(old(Stored(KeyOf(email, ip))), now, limits)
      ensures forall other :: other != KeyOf(email, ip) ==> Stored(other) == old(Stored(other))
      ensures !ok ==> attempts == old(attempts)
    {
      var key := KeyOf(email, ip);
      var known := if key in attempts then attempts[key] else [];
      var recent: seq<int> := [];
      var i := 0;
      while i < |known|
        invariant 0 <= i <= |known| && recent == Recent(known[..i], now, limits.window)
      {
        assert known[..i + 1][..i] == known[..i];
        if now - known[i] < limits.window {
          recent := recent + [known[i]];
        }
        i := i + 1;
      }
      assert known[..i] == known;
      if |recent| >= limits.maxAttempts {
        return false;
      }
      attempts := attempts[key := recent + [now]];
      return true;
    }

    method ClearLoginRate(email: string, ip: string)
      modifies this
      ensures Stored(KeyOf(email, ip)) == []
      ensures forall other :: other != KeyOf(email, ip) ==> Stored(other) == old(Stored(other))
    {
      attempts := attempts - {KeyOf(email, ip)};
    }
  }
}
