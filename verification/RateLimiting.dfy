/** The sliding-window rate limiter of one client on one path: a sorted set of call times that is
    pruned, extended and counted on each call, and expires when it has been idle for a window. */
module RateLimiting {
  import opened Leases

  /** The stored set and when the store will drop it. */
  datatype Zset = Zset(members: set<Time>, deadline: Option<Time>)

  const EMPTY := Zset({}, None)

  function Stored(z: Zset, now: Time): set<Time> {
    if z.deadline.Some? && z.deadline.value <= now then {} else z.members
  }

  /** Prune, add, count and extend the deadline, in one transaction. Pruning starts at score 0. */
  function Call(z: Zset, now: Time, window: nat): Zset {
    Zset((set t | t in Stored(z, now) && !(0 <= t <= now - window)) + {now}, Some(now + window))
  }

  function Run(calls: seq<Time>, window: nat): Zset {
    if calls == [] then EMPTY else Call(Run(calls[..|calls| - 1], window), calls[|calls| - 1], window)
  }

  /** Call i is let through. */
  predicate Admitted(calls: seq<Time>, i: nat, requests: nat, window: nat)
    requires i < |calls|
  {
    |Run(calls[..i + 1], window).members| <= requests
  }

  /** A clock that starts at the epoch or later and never goes back. */
  predicate Ticking(calls: seq<Time>) {
    && (forall i :: 0 <= i < |calls| ==> 0 <= calls[i])
    && (forall i, j :: 0 <= i < j < |calls| ==> calls[i] <= calls[j])
  }

  /** The distinct times of all calls ever made that lie within a window up to now. */
  function Recent(calls: seq<Time>, now: Time, window: nat): set<Time> {
    set i | 0 <= i < |calls| && now - window < calls[i] <= now :: calls[i]
  }

  /** The pruned and expiring set is the full history seen through the window: nothing that counts was
      ever dropped and nothing old is left. */
  lemma {:induction false} StoredSetIsTheRecentHistory(calls: seq<Time>, window: nat)
    requires Ticking(calls) && calls != [] && window > 0
    ensures Run(calls, window).members == Recent(calls, calls[|calls| - 1], window)
  {
    var n := |calls| - 1;
    var front, now := calls[..n], calls[n];
    if n > 0 {
      StoredSetIsTheRecentHistory(front, window);
      var z := Run(front, window);
      assert z.deadline == Some(calls[n - 1] + window);
      forall t ensures t in Run(calls, window).members <==> t in Recent(calls, now, window) {
        if t in Recent(front, calls[n - 1], window) && now - window < t {
          var i :| 0 <= i < n && front[i] == t;
          assert calls[i] == t;
        }
        if t in Recent(calls, now, window) {
          var i :| 0 <= i <= n && calls[i] == t;
          if i < n {
            assert front[i] == t && t in Recent(front, calls[n - 1], window);
          }
        }
        assert calls[n] == now && now in Recent(calls, now, window);
      }
    } else {
      assert calls[0] in Recent(calls, now, window);
    }
  }

  ghost function AdmittedIn(calls: seq<Time>, from: Time, requests: nat, window: nat): set<nat> {
    set i: nat | i < |calls| && Admitted(calls, i, requests, window) && from < calls[i] <= from + window
  }

  lemma {:induction false} DistinctTimesCountTheCalls(calls: seq<Time>, s: set<nat>, times: set<Time>)
    requires forall i :: i in s ==> i < |calls| && calls[i] in times
    requires DistinctTimes(calls)
    ensures |s| <= |times|
    decreases |s|
  {
    if i :| i in s {
      DistinctTimesCountTheCalls(calls, s - {i}, times - {calls[i]});
    }
  }

  lemma {:induction false} LastOf(s: set<nat>) returns (last: nat)
    requires s != {}
    ensures last in s && forall i :: i in s ==> i <= last
  {
    last :| last in s;
    if another :| another in s && another != last {
      assert another in s - {last};
      var other := LastOf(s - {last});
      assert s == (s - {last}) + {last};
      last := if other > last then other else last;
    }
  }

  lemma EarlierInTheWindowIsRecent(calls: seq<Time>, i: nat, last: nat, from: Time, window: nat)
    requires Ticking(calls) && i <= last < |calls| && from < calls[i] && calls[last] <= from + window
    ensures calls[i] in Recent(calls[..last + 1], calls[last], window)
  {
    assert calls[..last + 1][i] == calls[i];
  }

  lemma PrefixTicks(calls: seq<Time>, n: nat)
    requires Ticking(calls) && n <= |calls|
    ensures Ticking(calls[..n])
  {
  }

  predicate DistinctTimes(calls: seq<Time>) {
    forall i, j :: 0 <= i < j < |calls| ==> calls[i] != calls[j]
  }

  /** If no two calls share a timestamp, no window of the configured length, wherever it starts, admits
      more than the configured number of requests. */
  lemma NoWindowAdmitsMore(calls: seq<Time>, from: Time, requests: nat, window: nat)
    requires Ticking(calls) && window > 0
    requires DistinctTimes(calls)
    ensures |AdmittedIn(calls, from, requests, window)| <= requests
  {
    hide AdmittedIn, Run, Recent, Ticking, DistinctTimes;
    var s := AdmittedIn(calls, from, requests, window);
    if s != {} {
      var last := LastOf(s);
      InTheWindow(calls, from, requests, window, last);
      var recent := Recent(calls[..last + 1], calls[last], window);
      forall i | i in s ensures i < |calls| && calls[i] in recent {
        InTheWindow(calls, from, requests, window, i);
        EarlierInTheWindowIsRecent(calls, i, last, from, window);
      }
      DistinctTimesCountTheCalls(calls, s, recent);
      PrefixTicks(calls, last + 1);
      StoredSetIsTheRecentHistory(calls[..last + 1], window);
    }
  }

  lemma InTheWindow(calls: seq<Time>, from: Time, requests: nat, window: nat, i: nat)
    requires i in AdmittedIn(calls, from, requests, window)
    ensures i < |calls| && |Run(calls[..i + 1], window).members| <= requests
    ensures from < calls[i] <= from + window
  {
  }

  /** Calls that do share a timestamp count once: any number of them is admitted, so the limit needs
      that assumption. */
  lemma {:induction false} SimultaneousCallsCountOnce(now: Time, n: nat, requests: nat, window: nat)
    requires now >= 0 && requests >= 1 && window > 0
    ensures var calls := seq(n, i => now);
            && Ticking(calls)
            && (forall i :: 0 <= i < n ==> Admitted(calls, i, requests, window))
            && |AdmittedIn(calls, now - 1, requests, window)| == n
  {
    var calls := seq(n, i => now);
    forall i | 0 <= i < n ensures Admitted(calls, i, requests, window) {
      StoredSetIsTheRecentHistory(calls[..i + 1], window);
      assert calls[..i + 1][0] == now;
      assert Recent(calls[..i + 1], now, window) == {now};
    }
    assert AdmittedIn(calls, now - 1, requests, window) == Below(n);
  }

  /** No window admits more calls than the limit, wherever it starts and however the limiter is set. */
  ghost predicate Limits(calls: seq<Time>) {
    forall from, requests, window :: requests >= 1 && window > 0 ==>
      |AdmittedIn(calls, from, requests, window)| <= requests
  }

  lemma CallsAtOneInstantAreAdmitted(calls: seq<Time>, k: nat)
    requires Ticking(calls) && k < |calls|
    ensures k in AdmittedIn(calls, calls[k] - 1, 1, 1)
  {
    var upTo := calls[..k + 1];
    StoredSetIsTheRecentHistory(upTo, 1);
    assert upTo[k] == calls[k];
    assert Recent(upTo, calls[k], 1) == {calls[k]};
  }

  /** What the limiter limits: over a clock that never goes back, the limit holds for every window and
      every setting if and only if no two calls share a timestamp. */
  lemma LimitHoldsIffTimesAreDistinct(calls: seq<Time>)
    requires Ticking(calls)
    ensures Limits(calls) <==> DistinctTimes(calls)
  {
    if DistinctTimes(calls) {
      forall from, requests: nat, window: nat | requests >= 1 && window > 0
        ensures |AdmittedIn(calls, from, requests, window)| <= requests
      {
        NoWindowAdmitsMore(calls, from, requests, window);
      }
    } else {
      var i, j :| 0 <= i < j < |calls| && calls[i] == calls[j];
      CallsAtOneInstantAreAdmitted(calls, i);
      CallsAtOneInstantAreAdmitted(calls, j);
      var admitted := AdmittedIn(calls, calls[j] - 1, 1, 1);
      assert |{i, j}| == 2 && admitted == {i, j} + (admitted - {i, j});
      assert |admitted| > 1;
    }
  }

  function Below(n: nat): (s: set<nat>)
    ensures |s| == n && forall i: nat :: i in s <==> i < n
  {
    if n == 0 then {} else Below(n - 1) + {n - 1}
  }

  /** Rejected calls are recorded too: a client that keeps calling within the window stays out. */
  class RateLimiter {
    const requests: nat
    const window: nat
    var key: Zset
    ghost var calls: seq<Time>

    constructor (requests: nat, window: nat)
      ensures this.requests == requests && this.window == window && AsCalled() && calls == []
    {
      this.requests, this.window, key, calls := requests, window, EMPTY, [];
    }

    ghost predicate AsCalled()
      reads this
    {
      key == Run(calls, window)
    }

    method Check(now: Time) returns (admitted: bool)
      requires AsCalled() && window > 0 && Ticking(calls + [now])
      modifies this
      ensures AsCalled() && calls == old(calls) + [now]
      ensures admitted <==> |Recent(calls, now, window)| <= requests
      ensures admitted <==> Admitted(calls, |old(calls)|, requests, window)
    {
      hide Call, Run, Recent;
      var count := Record(now);
      CallExtends(calls, now, window);
      calls := calls + [now];
      StoredSetIsTheRecentHistory(calls, window);
      admitted := count <= requests;
    }

    /** The pipelined transaction; the reply that matters is the count. */
    method Record(now: Time) returns (count: nat)
      modifies this`key
      ensures key == Call(old(key), now, window) && count == |key.members|
    {
      var members := if key.deadline.Some? && key.deadline.value <= now then {} else key.members;
      members := set t | t in members && !(0 <= t <= now - window);
      members := members + {now};
      count := |members|;
      key := Zset(members, Some(now + window));
    }
  }

  lemma CallExtends(calls: seq<Time>, now: Time, window: nat)
    ensures Run(calls + [now], window) == Call(Run(calls, window), now, window)
    ensures (calls + [now])[..|calls| + 1] == calls + [now]
  {
    assert (calls + [now])[..|calls|] == calls;
  }
}
