/** The sliding-window rate limiter: per user, the times of the requests
    admitted within the last `windowSeconds`, at most `maxRequests` of them.
    Times are whole seconds passed in by the caller. */
module RateLimiting {

  /** The timestamps still inside the window at `now` (`now - t < window`),
      in their original order. */
  function InWindow(ts: seq<int>, now: int, window: int): (r: seq<int>)
    ensures |r| <= |ts|
    ensures forall t :: t in r <==> t in ts && now - t < window
    ensures forall t :: multiset(r)[t] == if now - t < window then multiset(ts)[t] else 0
  {
    if ts == [] then []
    else
      var init := ts[..|ts| - 1];
      var last := ts[|ts| - 1];
      assert ts == init + [last];
      InWindow(init, now, window) + (if now - last < window then [last] else [])
  }

  lemma InWindowSnoc(ts: seq<int>, t: int, now: int, window: int)
    ensures InWindow(ts + [t], now, window)
            == InWindow(ts, now, window) + (if now - t < window then [t] else [])
  {
    assert (ts + [t])[..|ts|] == ts;
  }

  /** Pruning twice at the same instant prunes nothing more. */
  lemma {:induction false} InWindowIdempotent(ts: seq<int>, now: int, window: int)
    ensures InWindow(InWindow(ts, now, window), now, window) == InWindow(ts, now, window)
  {
    if ts != [] {
      var init := ts[..|ts| - 1];
      var last := ts[|ts| - 1];
      assert ts == init + [last];
      InWindowIdempotent(init, now, window);
      if now - last < window {
        assert InWindow(ts, now, window) == InWindow(init, now, window) + [last];
        InWindowSnoc(InWindow(init, now, window), last, now, window);
      } else {
        assert InWindow(ts, now, window) == InWindow(init, now, window);
      }
    }
  }

  /** Nothing survives a prune when every request is at least a window old. */
  lemma {:induction false} InWindowEmpty(ts: seq<int>, now: int, window: int)
    requires forall t :: t in ts ==> now - t >= window
    ensures InWindow(ts, now, window) == []
  {
    if ts != [] {
      var init := ts[..|ts| - 1];
      assert ts == init + [ts[|ts| - 1]];
      assert ts[|ts| - 1] in ts;
      forall t | t in init ensures now - t >= window {
        assert t in ts;
      }
      InWindowEmpty(init, now, window);
    }
  }

  /** `self.requests[user_id]` of a `defaultdict(list)`. */
  function Lookup(requests: map<int, seq<int>>, userId: int): seq<int> {
    if userId in requests then requests[userId] else []
  }

  /** Most lists can hold: a non-positive limit admits nothing. */
  function Cap(maxRequests: int): nat {
    if maxRequests < 0 then 0 else maxRequests
  }

  predicate Bounded(requests: map<int, seq<int>>, maxRequests: int) {
    forall u :: u in requests ==> |requests[u]| <= Cap(maxRequests)
  }

  /** One `is_allowed` call: whether it admits, and the new map. The user's
      list is pruned to the window, then `now` is appended on admission. */
  function Step(requests: map<int, seq<int>>, maxRequests: int, window: int, userId: int, now: int)
    : (r: (bool, map<int, seq<int>>))
    ensures var pruned := InWindow(Lookup(requests, userId), now, window);
      && (r.0 <==> |pruned| < maxRequests)
      && userId in r.1
      && r.1[userId] == (if r.0 then pruned + [now] else pruned)
      && forall u :: u != userId ==> Lookup(r.1, u) == Lookup(requests, u)
  {
    var pruned := InWindow(Lookup(requests, userId), now, window);
    if |pruned| >= maxRequests then (false, requests[userId := pruned])
    else (true, requests[userId := pruned + [now]])
  }

  /** No call lets a user's list grow past the limit. */
  lemma StepKeepsBound(requests: map<int, seq<int>>, maxRequests: int, window: int, userId: int, now: int)
    requires Bounded(requests, maxRequests)
    ensures Bounded(Step(requests, maxRequests, window, userId, now).1, maxRequests)
  {
    var next := Step(requests, maxRequests, window, userId, now).1;
    forall u | u in next ensures |next[u]| <= Cap(maxRequests) {
      if u != userId {
        assert next[u] == Lookup(requests, u);
      }
    }
  }

  /** The answers to a series of calls by one user at the given times. */
  function Run(requests: map<int, seq<int>>, maxRequests: int, window: int, userId: int, nows: seq<int>)
    : (answers: seq<bool>)
    ensures |answers| == |nows|
    decreases |nows|
  {
    if nows == [] then []
    else
      var step := Step(requests, maxRequests, window, userId, nows[0]);
      [step.0] + Run(step.1, maxRequests, window, userId, nows[1..])
  }

  function Repeat(now: int, n: nat): (r: seq<int>)
    ensures |r| == n && forall k :: 0 <= k < n ==> r[k] == now
  {
    if n == 0 then [] else [now] + Repeat(now, n - 1)
  }

  /** A burst of `n` calls in the same second: the `i`-th is admitted exactly
      while the requests already in the window plus `i` stay under the limit. */
  lemma {:induction false} SameInstantBurst(
    requests: map<int, seq<int>>, maxRequests: int, window: int, userId: int, now: int, n: nat)
    requires window > 0
    ensures var inWindow := |InWindow(Lookup(requests, userId), now, window)|;
      forall i :: 0 <= i < n ==>
        (Run(requests, maxRequests, window, userId, Repeat(now, n))[i] <==> inWindow + i < maxRequests)
    decreases n
  {
    if n > 0 {
      var inWindow := |InWindow(Lookup(requests, userId), now, window)|;
      var step := Step(requests, maxRequests, window, userId, now);
      var answers := Run(requests, maxRequests, window, userId, Repeat(now, n));
      var rest := Run(step.1, maxRequests, window, userId, Repeat(now, n - 1));
      RunOfRepeat(requests, maxRequests, window, userId, now, n);
      SameInstantBurst(step.1, maxRequests, window, userId, now, n - 1);
      BurstStep(requests, maxRequests, window, userId, now);
      assert answers[0] == step.0;
      forall i | 1 <= i < n
        ensures answers[i] <==> inWindow + i < maxRequests
      {
        assert answers[i] == rest[i - 1];
      }
    }
  }

  /** The first of `n` calls at `now`, then the remaining `n - 1`. */
  lemma RunOfRepeat(requests: map<int, seq<int>>, maxRequests: int, window: int, userId: int, now: int, n: nat)
    requires n > 0
    ensures var step := Step(requests, maxRequests, window, userId, now);
      Run(requests, maxRequests, window, userId, Repeat(now, n))
        == [step.0] + Run(step.1, maxRequests, window, userId, Repeat(now, n - 1))
  {
    assert Repeat(now, n)[0] == now;
    assert Repeat(now, n)[1..] == Repeat(now, n - 1);
  }

  /** After one call at `now`, the window at `now` holds one more request if
      the call was admitted and the same number otherwise. */
  lemma BurstStep(requests: map<int, seq<int>>, maxRequests: int, window: int, userId: int, now: int)
    requires window > 0
    ensures var step := Step(requests, maxRequests, window, userId, now);
      |InWindow(Lookup(step.1, userId), now, window)|
        == |InWindow(Lookup(requests, userId), now, window)| + (if step.0 then 1 else 0)
  {
    var pruned := InWindow(Lookup(requests, userId), now, window);
    InWindowIdempotent(Lookup(requests, userId), now, window);
    InWindowSnoc(pruned, now, now, window);
  }

  /** With the defaults (5 requests per 60 seconds) and nothing recent, five
      calls in the same second are admitted and the sixth is denied. */
  lemma FiveThenDenied(requests: map<int, seq<int>>, userId: int, now: int)
    requires forall t :: t in Lookup(requests, userId) ==> now - t >= 60
    ensures Run(requests, 5, 60, userId, Repeat(now, 6)) == [true, true, true, true, true, false]
  {
    SameInstantBurst(requests, 5, 60, userId, now, 6);
    InWindowEmpty(Lookup(requests, userId), now, 60);
  }

  /** Once every stored request is at least a window old, a call is admitted
      again (for any positive limit). */
  lemma ResumesAfterWindow(requests: map<int, seq<int>>, maxRequests: int, window: int, userId: int, now: int)
    requires maxRequests >= 1
    requires forall t :: t in Lookup(requests, userId) ==> now - t >= window
    ensures Step(requests, maxRequests, window, userId, now).0
  {
    InWindowEmpty(Lookup(requests, userId), now, window);
  }

  /** `RateLimiter`. */
  class RateLimiter {
    const maxRequests: int
    const windowSeconds: int
    /** `defaultdict(list)`: a user without an entry has the empty list. */
    var requests: map<int, seq<int>>

    ghost predicate Valid()
      reads this
    {
      Bounded(requests, maxRequests)
    }

    constructor (maxRequests: int := 5, windowSeconds: int := 60)
      ensures this.maxRequests == maxRequests && this.windowSeconds == windowSeconds
      ensures requests == map[]
      ensures Valid()
    {
      this.maxRequests := maxRequests;
      this.windowSeconds := windowSeconds;
      requests := map[];
    }

    /** `is_allowed`: prune the user's list to the window, then admit and
        record `now` if fewer than `maxRequests` remain. */
    method IsAllowed(userId: int, now: int) returns (allowed: bool)
      requires Valid()
      modifies this
      ensures Valid()
      ensures (allowed, requests) == Step(old(requests), maxRequests, windowSeconds, userId, now)
    {
      StepKeepsBound(requests, maxRequests, windowSeconds, userId, now);
      ghost var step := Step(requests, maxRequests, windowSeconds, userId, now);
      var userRequests := Lookup(requests, userId);
      userRequests := InWindow(userRequests, now, windowSeconds);
      requests := requests[userId := userRequests];
      if |userRequests| >= maxRequests {
        assert step == (false, requests);
        return false;
      }
      requests := requests[userId := userRequests + [now]];
      assert requests == old(requests)[userId := userRequests + [now]];
      allowed := true;
    }
  }
}
