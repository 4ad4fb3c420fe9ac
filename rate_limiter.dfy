/** The sliding-window rate limiter of src/core/rate_limiter.rs. Instants
    are natural numbers of milliseconds on a monotonic clock; the current
    instant is passed in as `now`. The mutex around the map is sequential
    state here. */
module RateLimiting {
  /** The poll interval of `wait`, in milliseconds. */
  const POLL_INTERVAL: nat := 100

  /** `now.duration_since(time)`, which saturates at zero. */
  function Age(time: nat, now: nat): nat {
    if now >= time then now - time else 0
  }

  /** The request times of `key`, or none when the key has no entry. */
  function Requests(limits: map<string, seq<nat>>, key: string): seq<nat> {
    if key in limits then limits[key] else []
  }

  /** `retain(|&time| now.duration_since(time) < window)`: the times still
      inside the window, in their order. */
  function Recent(times: seq<nat>, now: nat, window: nat): (r: seq<nat>)
    ensures |r| <= |times|
  {
    if times == [] then []
    else
      var last := times[|times| - 1];
      Recent(times[..|times| - 1], now, window) + (if Age(last, now) < window then [last] else [])
  }

  /** Whether `check` at `now` admits a request, given the key's times. */
  predicate Admits(times: seq<nat>, now: nat, window: nat, maxRequests: nat) {
    |Recent(times, now, window)| < maxRequests
  }

  /** The key's list after `check` at `now`. */
  function AfterCheck(times: seq<nat>, now: nat, window: nat, maxRequests: nat): seq<nat> {
    var kept := Recent(times, now, window);
    if |kept| < maxRequests then kept + [now] else kept
  }

  class RateLimiter {
    var limits: map<string, seq<nat>>
    const maxRequests: nat
    const window: nat

    /** No key holds more than `maxRequests` times. */
    ghost predicate Valid()
      reads this
    {
      forall key :: key in limits ==> |limits[key]| <= maxRequests
    }

    /** `RateLimiter::new`. */
    constructor (maxRequests: nat, window: nat)
      requires maxRequests < 0x1_0000_0000
      ensures this.maxRequests == maxRequests && this.window == window
      ensures limits == map[] && Valid()
    {
      this.maxRequests := maxRequests;
      this.window := window;
      limits := map[];
    }

    /** `check`: drop the key's times outside the window, then admit and
        record `now` iff fewer than `maxRequests` remain. The key gets an
        entry either way; the other keys are untouched. */
    method Check(key: string, now: nat) returns (allowed: bool)
      requires Valid()
      modifies this
      ensures Valid()
      ensures allowed <==> Admits(old(Requests(limits, key)), now, window, maxRequests)
      ensures limits == old(limits)[key := AfterCheck(old(Requests(limits, key)), now, window, maxRequests)]
    {
      var times := Requests(limits, key);
      var kept: seq<nat> := [];
      for i := 0 to |times|
        invariant kept == Recent(times[..i], now, window)
      {
        assert times[..i + 1][..i] == times[..i];
        if Age(times[i], now) < window {
          kept := kept + [times[i]];
        }
      }
      assert times[..|times|] == times;
      if |kept| < maxRequests {
        limits := limits[key := kept + [now]];
        allowed := true;
      } else {
        limits := limits[key := kept];
        allowed := false;
      }
    }

    /** `wait`: poll `check` every `POLL_INTERVAL` until it admits, and
        say when and after how many sleeps. Each
        failed poll still drops expired times. The loop ends because every
        time on record is at most `now`, so after the window has passed no
        time is left inside it. */
    method Wait(key: string, now: nat) returns (admittedAt: nat, polls: nat)
      requires Valid() && maxRequests > 0
      requires forall t :: t in Requests(limits, key) ==> t <= now
      modifies this
      ensures Valid()
      ensures admittedAt == now + polls * POLL_INTERVAL
      ensures Admits(old(Requests(limits, key)), admittedAt, window, maxRequests)
      ensures limits == old(limits)[key := Recent(old(Requests(limits, key)), admittedAt, window) + [admittedAt]]
    {
      var times := Requests(limits, key);
      ghost var start := limits;
      admittedAt, polls := now, 0;
      var allowed := Check(key, admittedAt);
      while !allowed
        invariant Valid() && times == Requests(start, key)
        invariant admittedAt == now + polls * POLL_INTERVAL
        invariant allowed <==> Admits(times, admittedAt, window, maxRequests)
        invariant allowed ==> limits == start[key := Recent(times, admittedAt, window) + [admittedAt]]
        invariant !allowed ==> limits == start[key := Recent(times, admittedAt, window)]
        invariant !allowed ==> admittedAt < now + window
        decreases now + window - admittedAt
      {
        var previous := admittedAt;
        admittedAt, polls := admittedAt + POLL_INTERVAL, polls + 1;
        PollStep(times, now, previous, admittedAt, window, maxRequests);
        assert Requests(limits, key) == Recent(times, previous, window);
        allowed := Check(key, admittedAt);
      }
    }

    /** `reset`: forget one key. */
    method Reset(key: string)
      requires Valid()
      modifies this
      ensures Valid()
      ensures limits == old(limits) - {key}
    {
      limits := limits - {key};
    }

    /** `reset_all`: forget every key. */
    method ResetAll()
      modifies this
      ensures Valid()
      ensures limits == map[]
    {
      limits := map[];
    }
  }

  // ---------------------------------------------------------------- lemmas

  /** `Recent` keeps exactly the times inside the window. */
  lemma {:induction false} RecentMembers(times: seq<nat>, now: nat, window: nat)
    ensures forall t :: t in Recent(times, now, window) <==> t in times && Age(t, now) < window
  {
    if times != [] {
      var init := times[..|times| - 1];
      RecentMembers(init, now, window);
      assert times == init + [times[|times| - 1]];
    }
  }

  /** `Recent` drops nothing that is young and keeps the order: it is the
      identity on a list whose times are all inside the window. */
  lemma {:induction false} RecentAllYoung(times: seq<nat>, now: nat, window: nat)
    requires forall i :: 0 <= i < |times| ==> Age(times[i], now) < window
    ensures Recent(times, now, window) == times
  {
    if times != [] {
      var init := times[..|times| - 1];
      RecentAllYoung(init, now, window);
      assert times == init + [times[|times| - 1]];
    }
  }

  /** Filtering twice, the second time no earlier, is filtering once at the
      later instant: a time that left the window does not come back. */
  lemma {:induction false} RecentTwice(times: seq<nat>, t1: nat, t2: nat, window: nat)
    requires t1 <= t2
    ensures Recent(Recent(times, t1, window), t2, window) == Recent(times, t2, window)
  {
    if times != [] {
      var init := times[..|times| - 1];
      var last := times[|times| - 1];
      RecentTwice(init, t1, t2, window);
      var r1 := Recent(init, t1, window);
      if Age(last, t1) < window {
        var tail := r1 + [last];
        assert Recent(times, t1, window) == tail;
        assert tail[..|tail| - 1] == r1 && tail[|tail| - 1] == last;
        assert Recent(tail, t2, window) == Recent(r1, t2, window) + (if Age(last, t2) < window then [last] else []);
      } else {
        assert Recent(times, t1, window) == r1;
        assert Age(last, t2) >= window;
        assert Recent(times, t2, window) == Recent(init, t2, window);
      }
    }
  }

  /** Once the window has passed since the newest time, nothing is left. */
  lemma {:induction false} StaleWindowEmpty(times: seq<nat>, newest: nat, now: nat, window: nat)
    requires forall t :: t in times ==> t <= newest
    requires now >= newest + window
    ensures Recent(times, now, window) == []
  {
    if times != [] {
      var init := times[..|times| - 1];
      assert forall t :: t in init ==> t in times;
      StaleWindowEmpty(init, newest, now, window);
      assert times[|times| - 1] in times;
    }
  }

  /** One poll of `wait`: the earlier poll's filtering changes nothing the
      next one sees, and once the window has passed the next poll admits. */
  lemma PollStep(times: seq<nat>, newest: nat, previous: nat, next: nat, window: nat, maxRequests: nat)
    requires previous <= next && maxRequests > 0
    requires forall t :: t in times ==> t <= newest
    ensures Recent(Recent(times, previous, window), next, window) == Recent(times, next, window)
    ensures next >= newest + window ==> Admits(times, next, window, maxRequests)
  {
    RecentTwice(times, previous, next, window);
    if next >= newest + window {
      StaleWindowEmpty(times, newest, next, window);
    }
  }

  /** With `max_requests` zero nothing is ever admitted. */
  lemma ZeroNeverAdmits(times: seq<nat>, now: nat, window: nat)
    ensures !Admits(times, now, window, 0)
    ensures AfterCheck(times, now, window, 0) == Recent(times, now, window)
  {
  }

  /** After `check`, the key never holds more than `max_requests` times and
      contains `now` exactly when the request was admitted. */
  lemma {:induction false} AfterCheckBounded(times: seq<nat>, now: nat, window: nat, maxRequests: nat)
    requires |times| <= maxRequests
    ensures |AfterCheck(times, now, window, maxRequests)| <= maxRequests
    ensures Admits(times, now, window, maxRequests) <==>
      AfterCheck(times, now, window, maxRequests) == Recent(times, now, window) + [now]
  {
    var kept := Recent(times, now, window);
    if |kept| >= maxRequests {
      assert |kept + [now]| != |kept|;
    }
  }

  /** After `reset` or `reset_all`, the next `check` on the key admits iff
      `max_requests` is positive, and records exactly `now`. */
  lemma FreshKeyAdmits(now: nat, window: nat, maxRequests: nat)
    ensures Admits(Requests(map[], ""), now, window, maxRequests) <==> maxRequests > 0
    ensures maxRequests > 0 ==> AfterCheck([], now, window, maxRequests) == [now]
  {
  }

  /** A burst: `max_requests` admitted requests at one instant fill the key,
      and the next request inside the window is refused. */
  lemma {:induction false} BurstThenRefuse(times: seq<nat>, now: nat, window: nat, maxRequests: nat)
    requires window > 0 && |times| == maxRequests
    requires forall i :: 0 <= i < |times| ==> times[i] == now
    ensures !Admits(times, now, window, maxRequests)
  {
    RecentAllYoung(times, now, window);
  }
}
