/**
 * The in-memory fixed-window rate limiter (lib/rate-limit.ts).
 *
 * A process-wide dictionary maps each identifier to a window object
 * `{count, resetTime}`. A check reads the window (or makes a fresh one),
 * rolls it over when the current time is strictly past its reset time,
 * increments the counter unconditionally, writes the window back and
 * reports `{success, limit, remaining, reset}`. A periodic sweep deletes
 * windows whose reset time has passed.
 *
 * Time is a parameter: `now` stands for `Date.now()`, and `Cleanup(now)` for
 * one run of the `setInterval` callback.
 */
module RateLimit {

  /** A limit rule: window length in milliseconds and requests allowed per window. */
  datatype RateLimitConfig = RateLimitConfig(interval: int, uniqueTokenPerInterval: int)

  /** The rule used when the caller gives none: 10 requests per minute. */
  const DefaultConfig := RateLimitConfig(60 * 1000, 10)

  /** What one check reports. */
  datatype RateLimitResult = RateLimitResult(success: bool, limit: int, remaining: int, reset: int)

  /** The value held by one window object. */
  datatype WindowState = WindowState(count: int, resetTime: int)

  /** The abstract store: identifier to window value. */
  type Store = map<string, WindowState>

  function Max(a: int, b: int): int {
    if a >= b then a else b
  }

  // ---------------------------------------------------------------------------
  // Specification of one check and of one sweep, on values
  // ---------------------------------------------------------------------------

  /** One window's step at `now`: start over at `{0, now + interval}` when `now` is
      strictly past the window's end, then count the request. */
  function Advanced(w: WindowState, now: int, config: RateLimitConfig): (r: WindowState)
    ensures now <= w.resetTime ==> r == WindowState(w.count + 1, w.resetTime)
    ensures now > w.resetTime ==> r == WindowState(1, now + config.interval)
  {
    var current := if now > w.resetTime then WindowState(0, now + config.interval) else w;
    WindowState(current.count + 1, current.resetTime)
  }

  /** The window a check at `now` leaves in the store: the stored window, or a fresh
      `{0, now + interval}`, advanced. */
  function Consumed(store: Store, identifier: string, now: int, config: RateLimitConfig): (r: WindowState)
  {
    Advanced(if identifier in store then store[identifier] else WindowState(0, now + config.interval),
             now, config)
  }

  /** The report for a window after its increment. */
  function Verdict(w: WindowState, config: RateLimitConfig): (r: RateLimitResult)
    ensures r.success <==> w.count <= config.uniqueTokenPerInterval
    ensures r.remaining >= 0 && (r.remaining > 0 ==> r.success)
  {
    RateLimitResult(
      w.count <= config.uniqueTokenPerInterval,
      config.uniqueTokenPerInterval,
      Max(0, config.uniqueTokenPerInterval - w.count),
      w.resetTime)
  }

  /** The store after a check. */
  function AfterCheck(store: Store, identifier: string, now: int, config: RateLimitConfig): Store {
    store[identifier := Consumed(store, identifier, now, config)]
  }

  /** The store after a sweep at `now`: windows ending strictly before `now` are gone. */
  function Expire(store: Store, now: int): (r: Store)
    ensures r.Keys <= store.Keys
    ensures forall k :: k in r ==> r[k] == store[k] && r[k].resetTime >= now
  {
    map k | k in store && !(store[k].resetTime < now) :: store[k]
  }

  // ---------------------------------------------------------------------------
  // The store, updated in place
  // ---------------------------------------------------------------------------

  /** One window object; checks mutate it through the store's reference. */
  class Window {
    var count: int
    var resetTime: int

    constructor (count: int, resetTime: int)
      ensures this.count == count && this.resetTime == resetTime
    {
      this.count := count;
      this.resetTime := resetTime;
    }

    function State(): WindowState
      reads this
    {
      WindowState(count, resetTime)
    }

    /** The rollover and the increment, in place. */
    method Tick(now: int, config: RateLimitConfig)
      modifies this
      ensures State() == Advanced(old(State()), now, config)
    {
      if now > resetTime {
        count := 0;
        resetTime := now + config.interval;
      }
      count := count + 1;
    }
  }

  class RateLimiter {
    var store: map<string, Window>

    /** No two identifiers share a window object, so updating one leaves the others alone. */
    ghost predicate Valid()
      reads this
    {
      forall a, b :: a in store && b in store && a != b ==> store[a] != store[b]
    }

    /** The value of the store. */
    ghost function Windows(): Store
      reads this, store.Values
    {
      map k | k in store :: WindowState(store[k].count, store[k].resetTime)
    }

    constructor ()
      ensures Valid() && Windows() == map[]
    {
      store := map[];
    }

    /** `store[identifier] || { count: 0, resetTime: fallbackReset }`: the stored window
        object itself (an alias), or a new one that is not yet stored. */
    method Lookup(identifier: string, fallbackReset: int) returns (w: Window)
      ensures identifier in store ==> w == store[identifier]
      ensures identifier !in store ==> fresh(w) && w.count == 0 && w.resetTime == fallbackReset
    {
      if identifier in store {
        w := store[identifier];
      } else {
        w := new Window(0, fallbackReset);
      }
    }

    /** `rateLimit(identifier, config)` at time `now`. */
    method RateLimit(identifier: string, now: int, config: RateLimitConfig := DefaultConfig)
      returns (result: RateLimitResult)
      requires Valid()
      modifies this, store.Values
      ensures Valid()
      ensures Windows() == AfterCheck(old(Windows()), identifier, now, config)
      ensures result == Verdict(Consumed(old(Windows()), identifier, now, config), config)
    {
      ghost var before := Windows();
      ghost var after := Consumed(before, identifier, now, config);
      var tokenCount := Lookup(identifier, now + config.interval);
      tokenCount.Tick(now, config);
      store := store[identifier := tokenCount];
      assert Windows() == before[identifier := after] by {
        ghost var ws := Windows();
        forall k | k in ws
          ensures ws[k] == before[identifier := after][k]
        {
          if k != identifier {
            var o := store[k];
            assert o == old(store)[k] && o != tokenCount;
            assert before[k] == old(o.State()) == o.State();
          }
        }
      }

      var success := tokenCount.count <= config.uniqueTokenPerInterval;
      var remaining := Max(0, config.uniqueTokenPerInterval - tokenCount.count);
      result := RateLimitResult(success, config.uniqueTokenPerInterval, remaining, tokenCount.resetTime);
    }

    /** One run of the periodic sweep at time `now`. */
    method Cleanup(now: int)
      requires Valid()
      modifies this
      ensures Valid()
      ensures Windows() == Expire(old(Windows()), now)
    {
      var keys := store.Keys;
      while keys != {}
        invariant keys <= store.Keys <= old(store).Keys
        invariant forall k :: k in store ==> store[k] == old(store)[k]
        invariant forall k :: k in old(store) && k !in keys ==>
                    (k in store <==> !(old(store)[k].resetTime < now))
        decreases keys
      {
        var key :| key in keys;
        if store[key].resetTime < now {
          store := store - {key};
        }
        keys := keys - {key};
      }
    }
  }

  // ---------------------------------------------------------------------------
  // Properties of a single check
  // ---------------------------------------------------------------------------

  /** The window a check leaves: a first call opens `{1, now + interval}`; a call strictly
      past the reset time starts the same way; any other call adds exactly 1 to the count
      and keeps the reset time, admitted or not. */
  lemma CheckUpdatesWindow(store: Store, identifier: string, now: int, config: RateLimitConfig)
    ensures identifier !in store ==>
      Consumed(store, identifier, now, config) == WindowState(1, now + config.interval)
    ensures identifier in store && now > store[identifier].resetTime ==>
      Consumed(store, identifier, now, config) == WindowState(1, now + config.interval)
    ensures identifier in store && now <= store[identifier].resetTime ==>
      Consumed(store, identifier, now, config)
        == WindowState(store[identifier].count + 1, store[identifier].resetTime)
  {
  }

  /** The report: admitted iff the new count is within the limit; the limit and the
      window's reset time are echoed; `remaining` never goes below 0 nor above the limit. */
  lemma VerdictMeaning(w: WindowState, config: RateLimitConfig)
    ensures Verdict(w, config).success <==> w.count <= config.uniqueTokenPerInterval
    ensures Verdict(w, config).limit == config.uniqueTokenPerInterval
    ensures Verdict(w, config).reset == w.resetTime
    ensures Verdict(w, config).remaining == Max(0, config.uniqueTokenPerInterval - w.count)
    ensures config.uniqueTokenPerInterval >= 0 && w.count >= 1 ==>
      0 <= Verdict(w, config).remaining < config.uniqueTokenPerInterval ||
      (config.uniqueTokenPerInterval == 0 && Verdict(w, config).remaining == 0)
    ensures Verdict(w, config).remaining > 0 ==> Verdict(w, config).success
  {
  }

  /** When no stored window ends later than one interval from now, the window a check leaves
      ends no earlier than `now` and no later than `now + interval`. */
  lemma ResetWithinOneInterval(store: Store, identifier: string, now: int, config: RateLimitConfig)
    requires config.interval >= 0
    requires forall k :: k in store ==> store[k].resetTime <= now + config.interval
    ensures now <= Consumed(store, identifier, now, config).resetTime <= now + config.interval
  {
  }

  /** No stored window ends later than `bound`. */
  predicate ResetsBy(store: Store, bound: int) {
    forall k :: k in store ==> store[k].resetTime <= bound
  }

  /** The premise of ResetWithinOneInterval survives the clock: once every window ends by
      `now + interval`, it still holds after a check or a sweep at any `later >= now`. */
  lemma ResetBoundPreserved(store: Store, identifier: string, now: int, later: int, config: RateLimitConfig)
    requires ResetsBy(store, now + config.interval)
    requires now <= later
    ensures ResetsBy(store, later + config.interval)
    ensures ResetsBy(AfterCheck(store, identifier, later, config), later + config.interval)
    ensures ResetsBy(Expire(store, later), later + config.interval)
  {
  }

  /** Starting from a store whose windows end within one interval of `start` (the empty store
      among them), checks at non-decreasing times from `start` on each report a reset time
      between the check's own time and one interval after it. */
  lemma {:induction false} ReplayResetsWithinOneInterval(store: Store, identifier: string, start: int,
                                                         times: seq<int>, config: RateLimitConfig)
    requires config.interval >= 0
    requires ResetsBy(store, start + config.interval)
    requires forall j :: 0 <= j < |times| ==> start <= times[j]
    requires forall i, j :: 0 <= i < j < |times| ==> times[i] <= times[j]
    ensures forall j :: 0 <= j < |times| ==>
      times[j] <= Replay(store, identifier, times, config)[j].reset <= times[j] + config.interval
    decreases |times|
  {
    if times != [] {
      var next := AfterCheck(store, identifier, times[0], config);
      ResetBoundPreserved(store, identifier, start, times[0], config);
      ResetWithinOneInterval(store, identifier, times[0], config);
      ReplayResetsWithinOneInterval(next, identifier, times[0], times[1..], config);
      var rs := Replay(store, identifier, times, config);
      forall j | 0 <= j < |times|
        ensures times[j] <= rs[j].reset <= times[j] + config.interval
      {
        if j > 0 {
          assert rs[j] == Replay(next, identifier, times[1..], config)[j - 1];
        }
      }
    }
  }

  /** A check touches only its own identifier's entry. */
  lemma OthersUnaffected(store: Store, identifier: string, other: string, now: int, config: RateLimitConfig)
    requires other != identifier
    ensures other in AfterCheck(store, identifier, now, config) <==> other in store
    ensures other in store ==> AfterCheck(store, identifier, now, config)[other] == store[other]
  {
  }

  // ---------------------------------------------------------------------------
  // Sequences of checks
  // ---------------------------------------------------------------------------

  /** The store after checking `identifier` at each of `times`, in order. */
  function ReplayStore(store: Store, identifier: string, times: seq<int>, config: RateLimitConfig): Store
    decreases |times|
  {
    if times == [] then store
    else ReplayStore(AfterCheck(store, identifier, times[0], config), identifier, times[1..], config)
  }

  /** The reports of checking `identifier` at each of `times`, in order. */
  function Replay(store: Store, identifier: string, times: seq<int>, config: RateLimitConfig): (r: seq<RateLimitResult>)
    ensures |r| == |times|
    decreases |times|
  {
    if times == [] then []
    else
      [Verdict(Consumed(store, identifier, times[0], config), config)]
        + Replay(AfterCheck(store, identifier, times[0], config), identifier, times[1..], config)
  }

  /** Inside an open window `{c, R}`, the j-th further check (from 0) sees count `c + j + 1`. */
  lemma {:induction false} ChecksWithinWindow(store: Store, identifier: string, times: seq<int>,
                                              config: RateLimitConfig, c: int, r: int)
    requires identifier in store && store[identifier] == WindowState(c, r)
    requires forall j :: 0 <= j < |times| ==> times[j] <= r
    ensures forall j :: 0 <= j < |times| ==>
      Replay(store, identifier, times, config)[j] == Verdict(WindowState(c + j + 1, r), config)
    decreases |times|
  {
    if times != [] {
      var next := AfterCheck(store, identifier, times[0], config);
      assert next[identifier] == WindowState(c + 1, r);
      ChecksWithinWindow(next, identifier, times[1..], config, c + 1, r);
      var rs := Replay(store, identifier, times, config);
      forall j | 0 <= j < |times|
        ensures rs[j] == Verdict(WindowState(c + j + 1, r), config)
      {
        if j > 0 {
          assert rs[j] == Replay(next, identifier, times[1..], config)[j - 1];
        }
      }
    }
  }

  /**
   * For an identifier with no live window, of the checks made no later than the end of
   * the window the first one opens, exactly the first `uniqueTokenPerInterval` are admitted;
   * `remaining` counts down by one per check to 0 and every report carries the same reset time.
   */
  lemma {:induction false} AdmitsExactlyLimitPerWindow(store: Store, identifier: string, times: seq<int>,
                                                       config: RateLimitConfig)
    requires |times| > 0
    requires identifier !in store || store[identifier].resetTime < times[0]
    requires forall j :: 0 <= j < |times| ==> times[j] <= times[0] + config.interval
    ensures forall j :: 0 <= j < |times| ==>
      var v := Replay(store, identifier, times, config)[j];
      && (v.success <==> j < config.uniqueTokenPerInterval)
      && v.remaining == Max(0, config.uniqueTokenPerInterval - (j + 1))
      && v.reset == times[0] + config.interval
  {
    var r := times[0] + config.interval;
    var next := AfterCheck(store, identifier, times[0], config);
    assert next[identifier] == WindowState(1, r);
    ChecksWithinWindow(next, identifier, times[1..], config, 1, r);
    var rs := Replay(store, identifier, times, config);
    forall j | 0 <= j < |times|
      ensures rs[j] == Verdict(WindowState(j + 1, r), config)
    {
      if j > 0 {
        assert rs[j] == Replay(next, identifier, times[1..], config)[j - 1];
      }
    }
  }

  /** Checking one identifier any number of times leaves every other identifier's entry as it was. */
  lemma {:induction false} ReplayLeavesOthers(store: Store, identifier: string, times: seq<int>,
                                              config: RateLimitConfig, other: string)
    requires other != identifier
    ensures other in ReplayStore(store, identifier, times, config) <==> other in store
    ensures other in store ==> ReplayStore(store, identifier, times, config)[other] == store[other]
    decreases |times|
  {
    if times != [] {
      ReplayLeavesOthers(AfterCheck(store, identifier, times[0], config), identifier, times[1..], config, other);
    }
  }

  /** The reports for an identifier depend only on its own entry. */
  lemma {:induction false} ReplayDependsOnOwnEntry(s1: Store, s2: Store, identifier: string, times: seq<int>,
                                                   config: RateLimitConfig)
    requires identifier in s1 <==> identifier in s2
    requires identifier in s1 ==> s1[identifier] == s2[identifier]
    ensures Replay(s1, identifier, times, config) == Replay(s2, identifier, times, config)
    decreases |times|
  {
    if times != [] {
      ReplayDependsOnOwnEntry(AfterCheck(s1, identifier, times[0], config),
                              AfterCheck(s2, identifier, times[0], config), identifier, times[1..], config);
    }
  }

  /** Exhausting one identifier does not change what another identifier is told next. */
  lemma IdentifiersIndependent(store: Store, a: string, b: string, timesA: seq<int>, timesB: seq<int>,
                               config: RateLimitConfig)
    requires a != b
    ensures Replay(ReplayStore(store, a, timesA, config), b, timesB, config) == Replay(store, b, timesB, config)
  {
    ReplayLeavesOthers(store, a, timesA, config, b);
    ReplayDependsOnOwnEntry(ReplayStore(store, a, timesA, config), store, b, timesB, config);
  }

  /** The worked example: rule {1000 ms, 2}; "x" at 0, 100, 200 gets (admitted, 1), (admitted, 0),
      (rejected, 0) with reset 1000; at 1000 (not strictly past) still rejected; at 1001 a new window
      gives (admitted, 1) with reset 2001. */
  lemma Scenario()
    ensures var config := RateLimitConfig(1000, 2);
      var rs := Replay(map[], "x", [0, 100, 200, 1000, 1001], config);
      && rs[0] == RateLimitResult(true, 2, 1, 1000)
      && rs[1] == RateLimitResult(true, 2, 0, 1000)
      && rs[2] == RateLimitResult(false, 2, 0, 1000)
      && rs[3] == RateLimitResult(false, 2, 0, 1000)
      && rs[4] == RateLimitResult(true, 2, 1, 2001)
  {
    var config := RateLimitConfig(1000, 2);
    var s1 := AfterCheck(map[], "x", 0, config);
    var s2 := AfterCheck(s1, "x", 100, config);
    var s3 := AfterCheck(s2, "x", 200, config);
    var s4 := AfterCheck(s3, "x", 1000, config);
    assert s4["x"] == WindowState(4, 1000);
    assert Replay(s4, "x", [1001], config) == [RateLimitResult(true, 2, 1, 2001)];
  }

  // ---------------------------------------------------------------------------
  // The sweep
  // ---------------------------------------------------------------------------

  /** The sweep removes exactly the windows that ended strictly before `now` and keeps the rest as they were. */
  lemma ExpireRemovesExactlyExpired(store: Store, now: int, k: string)
    ensures k in Expire(store, now) <==> k in store && store[k].resetTime >= now
    ensures k in Expire(store, now) ==> Expire(store, now)[k] == store[k]
  {
  }

  /** A sweep is invisible to later checks: after sweeping at `sweepTime`, a check at any
      `now >= sweepTime` leaves the same window and reports the same verdict as without the sweep
      (a removed window would have been rolled over anyway). */
  lemma SweepInvisibleToChecks(store: Store, sweepTime: int, identifier: string, now: int, config: RateLimitConfig)
    requires sweepTime <= now
    ensures Consumed(Expire(store, sweepTime), identifier, now, config) == Consumed(store, identifier, now, config)
    ensures AfterCheck(Expire(store, sweepTime), identifier, now, config)
      == Expire(store, sweepTime)[identifier := Consumed(store, identifier, now, config)]
  {
  }

  /** After a sweep past a window's end, the next check behaves as that identifier's first ever. */
  lemma SweptIdentifierStartsAfresh(store: Store, sweepTime: int, identifier: string, now: int, config: RateLimitConfig)
    requires identifier in store && store[identifier].resetTime < sweepTime
    ensures identifier !in Expire(store, sweepTime)
    ensures Consumed(Expire(store, sweepTime), identifier, now, config) == WindowState(1, now + config.interval)
  {
  }
}
