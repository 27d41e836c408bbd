/** The service wrapper's restart limiter: a start is allowed only while
    fewer than ten starts happened in the last hour. Times are seconds. */
module RestartLimiter {
  const MaxRestarts: nat := 10
  const Window: real := 3600.0

  /** The entries of `times` less than an hour before `now`, in order. */
  function Recent(times: seq<real>, now: real): (r: seq<real>)
    ensures |r| <= |times|
    ensures forall t :: t in r <==> t in times && now - t < Window
  {
    if times == [] then []
    else if now - times[0] < Window then [times[0]] + Recent(times[1..], now)
    else Recent(times[1..], now)
  }

  /** `should_restart`: drops the old entries, then allows a start unless
      ten or more remain. */
  function ShouldRestart(times: seq<real>, now: real): (r: (seq<real>, bool))
    ensures forall t :: t in r.0 <==> t in times && now - t < Window
    ensures |r.0| <= |times|
    ensures r.1 <==> |r.0| < MaxRestarts
  {
    var kept := Recent(times, now);
    (kept, |kept| < MaxRestarts)
  }

  /** Pruning twice at the same time prunes nothing more. */
  lemma {:induction false} RecentIdempotent(times: seq<real>, now: real)
    ensures Recent(Recent(times, now), now) == Recent(times, now)
  {
    if times != [] {
      RecentIdempotent(times[1..], now);
    }
  }

  lemma ShouldRestartIdempotent(times: seq<real>, now: real)
    ensures ShouldRestart(ShouldRestart(times, now).0, now) == ShouldRestart(times, now)
  {
    RecentIdempotent(times, now);
  }

  lemma {:induction false} RecentAppend(times: seq<real>, t: real, now: real)
    ensures Recent(times + [t], now) == Recent(times, now) + (if now - t < Window then [t] else [])
  {
    if times != [] {
      assert (times + [t])[1..] == times[1..] + [t];
      RecentAppend(times[1..], t, now);
    } else {
      assert [t][1..] == [];
    }
  }

  /** What the service loop does after one pass. */
  datatype Action = WaitHour | Stopped | RestartAfter30 | RetryAfter60

  /** One pass of `run_service`: check the limit, try to start, and on a
      successful start record its time `startedAt`, read from the clock
      again, and watch the bot until it exits. */
  function RunStep(times: seq<real>, now: real, startedAt: real, started: bool, cleanExit: bool)
    : (r: (seq<real>, Action))
    ensures !ShouldRestart(times, now).1 ==> r == (ShouldRestart(times, now).0, WaitHour)
    ensures ShouldRestart(times, now).1 && !started ==> r == (ShouldRestart(times, now).0, RetryAfter60)
    ensures ShouldRestart(times, now).1 && started ==>
      && r.0 == ShouldRestart(times, now).0 + [startedAt]
      && r.1 == (if cleanExit then Stopped else RestartAfter30)
  {
    var check := ShouldRestart(times, now);
    if !check.1 then (check.0, WaitHour)
    else if !started then (check.0, RetryAfter60)
    else (check.0 + [startedAt], if cleanExit then Stopped else RestartAfter30)
  }

  /** The limit holds: right after any start, at most ten starts lie in the
      hour before it. */
  lemma StartsPerHourBounded(times: seq<real>, now: real, startedAt: real, cleanExit: bool)
    requires ShouldRestart(times, now).1
    ensures |Recent(RunStep(times, now, startedAt, true, cleanExit).0, startedAt)| <= MaxRestarts
  {
    var kept := Recent(times, now);
    RecentAppend(kept, startedAt, startedAt);
    assert |Recent(kept, startedAt)| <= |kept|;
  }
}
