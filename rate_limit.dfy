/** The in-process fixed-window rate limiter (lib/rate-limit.ts): a table
    from caller-chosen keys to a request count and the end of the current
    window. The clock is a parameter: `now` is the millisecond time of the
    call. Despite the source's header comment, the window is fixed, not
    sliding. */
module RateLimit {

  datatype Entry = Entry(count: int, resetAt: int)
  datatype Config = Config(maxRequests: int, windowMs: int)
  /** What `rateLimit` returns to its caller. */
  datatype Outcome = Outcome(success: bool, remaining: int, resetAt: int)

  /** The presets: the default, and those the routes use. */
  const DefaultConfig: Config := Config(10, 60_000)
  const AuthRateLimit: Config := Config(5, 60_000)
  const ApiRateLimit: Config := Config(60, 60_000)
  const AiRateLimit: Config := Config(10, 60_000)

  /** The table after one `rateLimit(key, cfg)` call at time `now`, and the
      call's result: a new window for an unknown or expired key, a refusal
      that changes nothing when the count has reached the maximum, and
      otherwise one more request counted in the current window. */
  function Step(entries: map<string, Entry>, key: string, cfg: Config, now: int): (r: (map<string, Entry>, Outcome))
    ensures key in r.0 && r.0[key].resetAt == r.1.resetAt
    ensures !r.1.success ==> r.0 == entries && r.1.remaining == 0
    ensures r.1.success ==> r.1.remaining == cfg.maxRequests - r.0[key].count
  {
    if key !in entries || now > entries[key].resetAt then
      var resetAt := now + cfg.windowMs;
      (entries[key := Entry(1, resetAt)], Outcome(true, cfg.maxRequests - 1, resetAt))
    else if entries[key].count >= cfg.maxRequests then
      (entries, Outcome(false, 0, entries[key].resetAt))
    else
      var e := entries[key];
      (entries[key := Entry(e.count + 1, e.resetAt)], Outcome(true, cfg.maxRequests - (e.count + 1), e.resetAt))
  }

  /** The table the periodic sweep leaves: exactly the entries whose window
      has not ended (`now > resetAt` deletes). */
  function Unexpired(entries: map<string, Entry>, now: int): (r: map<string, Entry>)
    ensures forall key :: key in r <==> key in entries && now <= entries[key].resetAt
    ensures forall key :: key in r ==> r[key] == entries[key]
  {
    map key | key in entries && now <= entries[key].resetAt :: entries[key]
  }

  class RateLimiter {
    /** The module-level `Map` of the source, owned by one limiter object. */
    var entries: map<string, Entry>

    constructor ()
      ensures entries == map[]
    {
      entries := map[];
    }

    /** `rateLimit(identifier, config)` at time `now`. */
    method Check(key: string, cfg: Config, now: int) returns (r: Outcome)
      modifies this
      ensures (entries, r) == Step(old(entries), key, cfg, now)
    {
      if key !in entries || now > entries[key].resetAt {
        var resetAt := now + cfg.windowMs;
        entries := entries[key := Entry(1, resetAt)];
        return Outcome(true, cfg.maxRequests - 1, resetAt);
      }
      var entry := entries[key];
      if entry.count >= cfg.maxRequests {
        return Outcome(false, 0, entry.resetAt);
      }
      entry := entry.(count := entry.count + 1);
      entries := entries[key := entry];
      r := Outcome(true, cfg.maxRequests - entry.count, entry.resetAt);
    }

    /** The body of the `setInterval` callback: visit every entry and delete
        those whose window ended before `now`. */
    method Sweep(now: int)
      modifies this
      ensures entries == Unexpired(old(entries), now)
    {
      var toVisit := entries.Keys;
      while toVisit != {}
        invariant toVisit <= old(entries).Keys
        invariant forall key :: key in entries <==>
          key in old(entries) && (key in toVisit || now <= old(entries)[key].resetAt)
        invariant forall key :: key in entries ==> entries[key] == old(entries)[key]
        decreases toVisit
      {
        var key :| key in toVisit;
        if now > entries[key].resetAt {
          entries := entries - {key};
        }
        toVisit := toVisit - {key};
      }
    }
  }

  /** A key other than the one called is never touched. */
  lemma StepIsolation(entries: map<string, Entry>, key: string, cfg: Config, now: int, other: string)
    requires other != key
    ensures var after := Step(entries, key, cfg, now).0;
      (other in after <==> other in entries) && (other in entries ==> after[other] == entries[other])
  {
  }

  /** The window boundary is strict: at `now == resetAt` the old window
      still applies (the call is counted or refused there), and only a later
      call opens a new one. */
  lemma StepBoundary(entries: map<string, Entry>, key: string, cfg: Config)
    requires key in entries
    ensures var e := entries[key];
      var (after, r) := Step(entries, key, cfg, e.resetAt);
      r.resetAt == e.resetAt && key in after && after[key].resetAt == e.resetAt &&
      (r.success <==> e.count < cfg.maxRequests)
    ensures var e := entries[key];
      var (after, r) := Step(entries, key, cfg, e.resetAt + 1);
      r.success && r.remaining == cfg.maxRequests - 1 && after[key] == Entry(1, e.resetAt + 1 + cfg.windowMs)
  {
  }

  /** Every count is within the maximum. */
  ghost predicate Bounded(entries: map<string, Entry>, cfg: Config)
  {
    forall key :: key in entries ==> 1 <= entries[key].count <= cfg.maxRequests
  }

  /** With a maximum of at least one, a call keeps every count within the
      maximum; a call that succeeds leaves `remaining` between 0 and max-1
      and a refused call leaves the table as it was. */
  lemma StepKeepsBound(entries: map<string, Entry>, key: string, cfg: Config, now: int)
    requires cfg.maxRequests >= 1 && Bounded(entries, cfg)
    ensures var (after, r) := Step(entries, key, cfg, now);
      Bounded(after, cfg) &&
      (r.success ==> 0 <= r.remaining < cfg.maxRequests && after[key].count == cfg.maxRequests - r.remaining) &&
      (!r.success ==> after == entries && r.remaining == 0)
  {
  }

  /** Successive calls on one key, at the given times. */
  function Run(entries: map<string, Entry>, key: string, cfg: Config, times: seq<int>): (rs: seq<Outcome>)
    ensures |rs| == |times|
    decreases |times|
  {
    if times == [] then []
    else
      var (after, r) := Step(entries, key, cfg, times[0]);
      [r] + Run(after, key, cfg, times[1..])
  }

  /** Inside one window whose count is `entry.count`, the i-th further call
      succeeds while the count is below the maximum, with the remaining
      budget going down by one each time, and is refused with 0 after. */
  lemma {:induction false} RunWithinWindow(entries: map<string, Entry>, key: string, cfg: Config, times: seq<int>)
    requires key in entries && entries[key].count >= 1
    requires forall i :: 0 <= i < |times| ==> times[i] <= entries[key].resetAt
    ensures var c := entries[key].count;
      forall i :: 0 <= i < |times| ==>
        Run(entries, key, cfg, times)[i] ==
          if c + i < cfg.maxRequests then Outcome(true, cfg.maxRequests - (c + i + 1), entries[key].resetAt)
          else Outcome(false, 0, entries[key].resetAt)
    decreases |times|
  {
    if times != [] {
      var (after, r) := Step(entries, key, cfg, times[0]);
      var c := entries[key].count;
      var rest := Run(after, key, cfg, times[1..]);
      assert Run(entries, key, cfg, times) == [r] + rest;
      if c < cfg.maxRequests {
        assert after[key] == Entry(c + 1, entries[key].resetAt);
        RunWithinWindow(after, key, cfg, times[1..]);
        forall i | 1 <= i < |times|
          ensures Run(entries, key, cfg, times)[i] ==
            if c + i < cfg.maxRequests then Outcome(true, cfg.maxRequests - (c + i + 1), entries[key].resetAt)
            else Outcome(false, 0, entries[key].resetAt)
        {
          assert Run(entries, key, cfg, times)[i] == rest[i - 1];
          assert times[1..][i - 1] == times[i];
        }
      } else {
        assert after == entries;
        RunWithinWindow(after, key, cfg, times[1..]);
        forall i | 1 <= i < |times|
          ensures Run(entries, key, cfg, times)[i] == Outcome(false, 0, entries[key].resetAt)
        {
          assert Run(entries, key, cfg, times)[i] == rest[i - 1];
          assert times[1..][i - 1] == times[i];
        }
      }
    }
  }

  /** The countdown the tests pin down: starting a window at `times[0]` on an
      unknown or expired key, the calls inside that window get `remaining`
      max-1, max-2, ..., 0 and every further call is refused with 0. */
  lemma Countdown(entries: map<string, Entry>, key: string, cfg: Config, times: seq<int>)
    requires cfg.maxRequests >= 1 && times != []
    requires key !in entries || times[0] > entries[key].resetAt
    requires forall i :: 0 <= i < |times| ==> times[i] <= times[0] + cfg.windowMs
    ensures forall i :: 0 <= i < |times| ==>
      Run(entries, key, cfg, times)[i].success == (i < cfg.maxRequests) &&
      Run(entries, key, cfg, times)[i].remaining == (if i < cfg.maxRequests then cfg.maxRequests - 1 - i else 0)
  {
    var (after, r) := Step(entries, key, cfg, times[0]);
    var rest := Run(after, key, cfg, times[1..]);
    assert Run(entries, key, cfg, times) == [r] + rest;
    RunWithinWindow(after, key, cfg, times[1..]);
    forall i | 1 <= i < |times|
      ensures Run(entries, key, cfg, times)[i] == rest[i - 1]
    {
    }
  }

  /** The sweep is invisible to callers: sweeping at `sweptAt` and then
      calling at any later time gives the same result, and the same entry
      for that key, as calling without the sweep. */
  lemma SweepUnobservable(entries: map<string, Entry>, sweptAt: int, key: string, cfg: Config, now: int)
    requires sweptAt <= now
    ensures var (a1, r1) := Step(Unexpired(entries, sweptAt), key, cfg, now);
      var (a2, r2) := Step(entries, key, cfg, now);
      r1 == r2 && key in a1 && key in a2 && a1[key] == a2[key]
  {
  }

  /** The table after successive calls on one key. */
  function RunState(entries: map<string, Entry>, key: string, cfg: Config, times: seq<int>): map<string, Entry>
    decreases |times|
  {
    if times == [] then entries
    else RunState(Step(entries, key, cfg, times[0]).0, key, cfg, times[1..])
  }

  /** Running two batches of calls one after the other is running them as
      one batch. */
  lemma {:induction false} RunAppend(entries: map<string, Entry>, key: string, cfg: Config, a: seq<int>, b: seq<int>)
    ensures Run(entries, key, cfg, a + b) == Run(entries, key, cfg, a) + Run(RunState(entries, key, cfg, a), key, cfg, b)
    decreases |a|
  {
    if a == [] {
      assert a + b == b;
    } else {
      assert (a + b)[0] == a[0];
      assert (a + b)[1..] == a[1..] + b;
      RunAppend(Step(entries, key, cfg, a[0]).0, key, cfg, a[1..], b);
    }
  }

  /** Inside one window that is not yet over its budget, each call adds
      one to the count until the maximum is reached. */
  lemma {:induction false} RunStateWithinWindow(entries: map<string, Entry>, key: string, cfg: Config, times: seq<int>)
    requires key in entries && 1 <= entries[key].count <= cfg.maxRequests
    requires forall i :: 0 <= i < |times| ==> times[i] <= entries[key].resetAt
    ensures var c := entries[key].count;
      key in RunState(entries, key, cfg, times) &&
      RunState(entries, key, cfg, times)[key] ==
        Entry(if c + |times| <= cfg.maxRequests then c + |times| else cfg.maxRequests, entries[key].resetAt)
    decreases |times|
  {
    if times != [] {
      var after := Step(entries, key, cfg, times[0]).0;
      assert forall i :: 0 <= i < |times[1..]| ==> times[1..][i] == times[i + 1];
      RunStateWithinWindow(after, key, cfg, times[1..]);
    }
  }

  /** The window is fixed, not sliding. A key first used at `t` takes
      `max - 1` more calls at the last millisecond of its window, then
      `max` calls one millisecond later, after the window ended. All
      `2 * max` calls succeed within `windowMs + 1` milliseconds, and
      `2 * max - 1` of them within one millisecond. */
  lemma FixedWindowBurst(key: string, cfg: Config, t: int)
    requires cfg.maxRequests >= 1 && cfg.windowMs >= 0
    ensures var end := t + cfg.windowMs;
      var burst := [t] + seq(cfg.maxRequests - 1, _ => end) + seq(cfg.maxRequests, _ => end + 1);
      |burst| == 2 * cfg.maxRequests &&
      forall i :: 0 <= i < |burst| ==> Run(map[], key, cfg, burst)[i].success
  {
    var end := t + cfg.windowMs;
    var first := [t] + seq(cfg.maxRequests - 1, _ => end);
    var second := seq(cfg.maxRequests, _ => end + 1);
    RunAppend(map[], key, cfg, first, second);
    Countdown(map[], key, cfg, first);
    var started := Step(map[], key, cfg, t).0;
    assert started[key] == Entry(1, end);
    assert first[1..] == seq(cfg.maxRequests - 1, _ => end);
    RunStateWithinWindow(started, key, cfg, first[1..]);
    var full := RunState(map[], key, cfg, first);
    assert full == RunState(started, key, cfg, first[1..]);
    assert full[key] == Entry(cfg.maxRequests, end);
    Countdown(full, key, cfg, second);
  }
}
