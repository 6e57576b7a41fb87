/** The Python token bucket: one lock, real-valued tokens, one sleep per call. */
module TokenBucket {
  import opened LinearAlgebra
  import opened Reals

  /** rate is both the capacity and the tokens added per second. */
  datatype State = State(rate: real, tokens: real, last: real)

  /** The clock readings of one acquire; second is read after the sleep, if there is one. */
  datatype Call = Call(first: real, second: real)

  function Initial(rate: real, now: real): State {
    State(rate, rate, now)
  }

  function Refilled(s: State, now: real): State {
    s.(tokens := Min(s.rate, s.tokens + Times(now - s.last, s.rate)), last := now)
  }

  predicate MustWait(s: State, c: Call) {
    Refilled(s, c.first).tokens < 1.0
  }

  function WaitTime(s: State, c: Call): real
    requires s.rate > 0.0
  {
    Over(1.0 - Refilled(s, c.first).tokens, s.rate)
  }

  /** A clock that never goes back and sleeps at least as long as asked. */
  predicate ClockOk(s: State, c: Call)
    requires s.rate > 0.0
  {
    s.last <= c.first && (MustWait(s, c) ==> c.first + WaitTime(s, c) <= c.second)
  }

  function GrantTime(s: State, c: Call): real {
    if MustWait(s, c) then c.second else c.first
  }

  function Acquired(s: State, c: Call): State {
    var r := Refilled(s, c.first);
    var r' := if r.tokens < 1.0 then Refilled(r, c.second) else r;
    r'.(tokens := r'.tokens - 1.0)
  }

  predicate Valid(s: State) {
    s.rate >= 1.0 && 0.0 <= s.tokens <= s.rate
  }

  /** Every reading of a run of calls is as the clock promises. */
  predicate RunOk(s: State, calls: seq<Call>)
    requires s.rate > 0.0
    decreases |calls|
  {
    calls == [] || (ClockOk(s, calls[0]) && RunOk(Acquired(s, calls[0]), calls[1..]))
  }

  function Run(s: State, calls: seq<Call>): (r: State)
    ensures r.rate == s.rate
    decreases |calls|
  {
    if calls == [] then s else Run(Acquired(s, calls[0]), calls[1..])
  }

  /** One call: the bucket stays between empty and full, and pays one token for the time that passed. */
  lemma AcquireKeepsValid(s: State, c: Call)
    requires Valid(s) && ClockOk(s, c)
    ensures Valid(Acquired(s, c))
    ensures Acquired(s, c).last == GrantTime(s, c) >= s.last
    ensures Acquired(s, c).tokens <= s.rate - 1.0
    ensures Acquired(s, c).tokens + 1.0 <= s.tokens + Times(GrantTime(s, c) - s.last, s.rate)
  {
    hide Times, Over;
    var r := Refilled(s, c.first);
    TimesSign(c.first - s.last, s.rate);
    if r.tokens < 1.0 {
      var wait := WaitTime(s, c);
      OverTimes(1.0 - r.tokens, s.rate);
      TimesComm(wait, s.rate);
      TimesDist(s.rate, wait, c.second - c.first - wait);
      TimesSign(c.second - c.first - wait, s.rate);
      TimesDist(s.rate, c.first - s.last, c.second - c.first);
    }
  }

  /** The wait is exactly as long as it takes: any shorter sleep would find less than one token. */
  lemma WaitIsExact(s: State, c: Call)
    requires Valid(s) && s.last <= c.first <= c.second && MustWait(s, c)
    ensures Refilled(Refilled(s, c.first), c.second).tokens >= 1.0 <==> c.second - c.first >= WaitTime(s, c)
  {
    hide Times, Over;
    var missing := 1.0 - Refilled(s, c.first).tokens;
    var wait := WaitTime(s, c);
    OverTimes(missing, s.rate);
    TimesComm(wait, s.rate);
    TimesDist(s.rate, wait, c.second - c.first - wait);
    TimesSign(c.second - c.first - wait, s.rate);
    TimesSign(wait - (c.second - c.first), s.rate);
    TimesDist(s.rate, c.second - c.first, wait - (c.second - c.first));
  }

  /** Tokens are in [0, max] after every acquire of every run. */
  lemma {:induction false} RunKeepsValid(s: State, calls: seq<Call>)
    requires Valid(s) && RunOk(s, calls)
    ensures Valid(Run(s, calls))
    decreases |calls|
  {
    hide Acquired, ClockOk;
    if calls != [] {
      AcquireKeepsValid(s, calls[0]);
      RunKeepsValid(Acquired(s, calls[0]), calls[1..]);
    }
  }

  /** Every token a run grants was there at its start or was added since. */
  lemma {:induction false} GrantsArePaid(s: State, calls: seq<Call>)
    requires Valid(s) && RunOk(s, calls)
    ensures Run(s, calls).last >= s.last
    ensures Run(s, calls).tokens + |calls| as real <= s.tokens + Times(Run(s, calls).last - s.last, s.rate)
    decreases |calls|
  {
    hide Times, Acquired, ClockOk;
    if calls == [] {
      TimesUnits(s.rate);
    } else {
      var s' := Acquired(s, calls[0]);
      AcquireKeepsValid(s, calls[0]);
      GrantsArePaid(s', calls[1..]);
      TimesDist(s.rate, s'.last - s.last, Run(s', calls[1..]).last - s'.last);
    }
  }

  /** The grants of a window that starts in any state of the bucket. */
  lemma StretchBound(state: State, window: seq<Call>, s: real, t: real)
    requires Valid(state) && RunOk(state, window) && s <= t
    requires window != [] ==> s <= GrantTime(state, window[0]) && Run(state, window).last <= t
    ensures |window| as real <= state.rate + Times(t - s, state.rate)
  {
    hide Times, Acquired, ClockOk;
    TimesSign(t - s, state.rate);
    if window != [] {
      var first := Acquired(state, window[0]);
      AcquireKeepsValid(state, window[0]);
      GrantsArePaid(first, window[1..]);
      RunKeepsValid(first, window[1..]);
      var spent := Run(first, window[1..]).last - first.last;
      TimesDist(state.rate, spent, t - s - spent);
      TimesSign(t - s - spent, state.rate);
      assert |window| as real == 1.0 + |window[1..]| as real;
    }
  }

  /**
   * Over every run, the calls granted in a window of length d that starts at s number at
   * most max + max * d: the first is granted at s or later, the last by s + d.
   */
  lemma WindowBound(rate: real, start: real, before: seq<Call>, window: seq<Call>, s: real, d: real)
    requires rate >= 1.0 && d >= 0.0
    requires RunOk(Initial(rate, start), before) && RunOk(Run(Initial(rate, start), before), window)
    requires var state := Run(Initial(rate, start), before);
             window != [] ==> s <= GrantTime(state, window[0]) && Run(state, window).last <= s + d
    ensures |window| as real <= rate + rate * d
  {
    hide Acquired, ClockOk, Run, RunOk, Times;
    RunKeepsValid(Initial(rate, start), before);
    StretchBound(Run(Initial(rate, start), before), window, s, s + d);
    SpelledOut(rate, d);
  }

  lemma SpelledOut(rate: real, d: real)
    ensures Times(d, rate) == rate * d
  {
  }

  /** The time of the last grant of a run is the last reading it used. */
  lemma {:induction false} LastGrantIsLatest(s: State, calls: seq<Call>, c: Call)
    requires Valid(s) && RunOk(s, calls + [c])
    ensures RunOk(s, calls) && ClockOk(Run(s, calls), c)
    ensures Run(s, calls + [c]).last == GrantTime(Run(s, calls), c) >= Run(s, calls).last
    decreases |calls|
  {
    hide ClockOk;
    if calls == [] {
      assert [c][1..] == [] && [] + [c] == [c];
      AcquireKeepsValid(s, c);
    } else {
      assert (calls + [c])[1..] == calls[1..] + [c];
      AcquireKeepsValid(s, calls[0]);
      LastGrantIsLatest(Acquired(s, calls[0]), calls[1..], c);
    }
  }

  /** The grant times of a run, oldest first. */
  function GrantTimes(s: State, calls: seq<Call>): (r: seq<real>)
    ensures |r| == |calls|
    decreases |calls|
  {
    if calls == [] then [] else [GrantTime(s, calls[0])] + GrantTimes(Acquired(s, calls[0]), calls[1..])
  }

  lemma {:induction false} RunSnoc(s: State, calls: seq<Call>, c: Call)
    ensures Run(s, calls + [c]) == Acquired(Run(s, calls), c)
    ensures GrantTimes(s, calls + [c]) == GrantTimes(s, calls) + [GrantTime(Run(s, calls), c)]
    decreases |calls|
  {
    hide Acquired, GrantTime;
    if calls == [] {
      assert [c][1..] == [] && [] + [c] == [c];
    } else {
      assert (calls + [c])[1..] == calls[1..] + [c];
      RunSnoc(Acquired(s, calls[0]), calls[1..], c);
    }
  }

  /** What a window from grant j to now still allows, when all later grants fall into it. */
  function Allowed(rate: real, times: seq<real>, now: real, j: nat): real
    requires j < |times|
  {
    rate + Times(now - times[j], rate) - (|times| - j) as real
  }

  /** x is the rate or the least allowance, whichever is less. */
  ghost predicate IsLeastAllowed(x: real, rate: real, times: seq<real>, now: real) {
    && x <= rate
    && (forall j :: 0 <= j < |times| ==> x <= Allowed(rate, times, now, j))
    && (x == rate || exists j :: 0 <= j < |times| && x == Allowed(rate, times, now, j))
  }

  /** One more grant takes one off every allowance, and the time that passes adds to all of them. */
  lemma AllowedLater(rate: real, times: seq<real>, g: real, now: real, j: nat)
    requires j < |times|
    ensures Allowed(rate, times + [g], now, j) == Allowed(rate, times, g, j) - 1.0 + Times(now - g, rate)
  {
    hide Times;
    TimesDist(rate, g - times[j], now - g);
    assert (times + [g])[j] == times[j];
  }

  lemma LeastAllowedLater(x: real, rate: real, times: seq<real>, g: real, now: real)
    requires IsLeastAllowed(x, rate, times, g) && g <= now && rate > 0.0
    ensures IsLeastAllowed(Min(rate, x - 1.0 + Times(now - g, rate)), rate, times + [g], now)
  {
    hide Times, Allowed;
    var y := Min(rate, x - 1.0 + Times(now - g, rate));
    var times' := times + [g];
    TimesSign(now - g, rate);
    LastAllowed(rate, times, g, now);
    forall j | 0 <= j < |times'| ensures y <= Allowed(rate, times', now, j) {
      if j < |times| {
        AllowedLater(rate, times, g, now, j);
      }
    }
    if y != rate {
      if x == rate {
        assert y == Allowed(rate, times', now, |times|);
      } else {
        var j :| 0 <= j < |times| && x == Allowed(rate, times, g, j);
        AllowedLater(rate, times, g, now, j);
        assert y == Allowed(rate, times', now, j);
      }
    }
  }

  lemma LastAllowed(rate: real, times: seq<real>, g: real, now: real)
    ensures Allowed(rate, times + [g], now, |times|) == rate - 1.0 + Times(now - g, rate)
  {
  }

  /** Two refills in a row are one, unless the first reaches the capacity. */
  lemma RefillTwice(s: State, u: real, v: real)
    requires s.last <= u <= v && s.rate > 0.0
    ensures Refilled(Refilled(s, u), v) == Refilled(s, v)
  {
    hide Times;
    TimesDist(s.rate, u - s.last, v - u);
    TimesSign(v - u, s.rate);
  }

  lemma AcquiredIsOneRefill(s: State, c: Call)
    requires Valid(s) && ClockOk(s, c)
    ensures s.last <= GrantTime(s, c)
    ensures Acquired(s, c) == s.(tokens := Refilled(s, GrantTime(s, c)).tokens - 1.0, last := GrantTime(s, c))
  {
    hide Times, Over;
    AcquireKeepsValid(s, c);
    if MustWait(s, c) {
      OverTimes(1.0 - Refilled(s, c.first).tokens, s.rate);
      RefillTwice(s, c.first, c.second);
    }
  }

  /** The tokens found at any later time: the capacity, or the least that any window ending then allows. */
  lemma {:induction false} TokensAreLeastAllowed(rate: real, start: real, calls: seq<Call>, now: real)
    requires rate >= 1.0 && RunOk(Initial(rate, start), calls) && Run(Initial(rate, start), calls).last <= now
    ensures var s := Initial(rate, start);
            IsLeastAllowed(Refilled(Run(s, calls), now).tokens, rate, GrantTimes(s, calls), now)
    decreases |calls|
  {
    hide Times, Acquired, ClockOk, IsLeastAllowed, GrantTime, Refilled;
    var s := Initial(rate, start);
    if calls == [] {
      FullBucket(rate, start, now);
    } else {
      var before, c := Init(calls), Last(calls);
      assert calls == before + [c];
      LastGrantIsLatest(s, before, c);
      RunSnoc(s, before, c);
      RunKeepsValid(s, before);
      var r := Run(s, before);
      var g := GrantTime(r, c);
      AcquiredIsOneRefill(r, c);
      TokensAreLeastAllowed(rate, start, before, g);
      var x := Refilled(r, g).tokens;
      LeastAllowedLater(x, rate, GrantTimes(s, before), g, now);
      RefillOf(Run(s, calls), now);
    }
  }

  lemma RefillOf(s: State, now: real)
    ensures Refilled(s, now).tokens == Min(s.rate, s.tokens + Times(now - s.last, s.rate))
  {
  }

  lemma FullBucket(rate: real, start: real, now: real)
    requires rate >= 1.0 && start <= now
    ensures IsLeastAllowed(Refilled(Initial(rate, start), now).tokens, rate, [], now)
  {
    hide Times;
    TimesSign(now - start, rate);
  }

  /**
   * Nobody waits without need: over every run a call has to wait if and only if granting it
   * at once would put more than max + max * d grants into some window of length d that
   * begins at an earlier grant.
   */
  lemma WaitsExactlyWhen(rate: real, start: real, calls: seq<Call>, c: Call)
    requires rate >= 1.0 && RunOk(Initial(rate, start), calls)
    requires Run(Initial(rate, start), calls).last <= c.first
    ensures var s := Initial(rate, start);
            var times := GrantTimes(s, calls);
            MustWait(Run(s, calls), c) <==>
              exists j :: 0 <= j < |times| && (|times| - j + 1) as real > rate + Times(c.first - times[j], rate)
  {
    hide Times, Run, RunOk, Refilled, GrantTimes;
    TokensAreLeastAllowed(rate, start, calls, c.first);
    var times := GrantTimes(Initial(rate, start), calls);
    var x := Refilled(Run(Initial(rate, start), calls), c.first).tokens;
    forall j | 0 <= j < |times|
      ensures (|times| - j + 1) as real > rate + Times(c.first - times[j], rate) <==> Allowed(rate, times, c.first, j) < 1.0
    {
    }
    if x < 1.0 {
      var j :| 0 <= j < |times| && x == Allowed(rate, times, c.first, j);
    }
  }

  class RateLimiter {
    const rate: real
    var tokens: real
    var lastRefill: real

    ghost function View(): State
      reads this
    {
      State(rate, tokens, lastRefill)
    }

    constructor (maxPerSecond: int, now: real)
      requires maxPerSecond >= 1
      ensures View() == Initial(maxPerSecond as real, now) && Valid(View())
    {
      rate, tokens, lastRefill := maxPerSecond as real, maxPerSecond as real, now;
    }

    method Refill(now: real)
      modifies `tokens, `lastRefill
      ensures View() == Refilled(old(View()), now)
    {
      var elapsed := now - lastRefill;
      tokens := Min(rate, tokens + Times(elapsed, rate));
      lastRefill := now;
    }

    /** The lock serialises calls; second is the reading after the sleep, if one is needed. */
    method Acquire(first: real, second: real) returns (waited: bool)
      requires Valid(View()) && ClockOk(View(), Call(first, second))
      modifies `tokens, `lastRefill
      ensures View() == Acquired(old(View()), Call(first, second)) && Valid(View())
      ensures waited == MustWait(old(View()), Call(first, second))
    {
      hide Times;
      AcquireKeepsValid(View(), Call(first, second));
      Refill(first);
      waited := tokens < 1.0;
      if waited {
        Refill(second);
      }
      tokens := tokens - 1.0;
    }
  }
}
