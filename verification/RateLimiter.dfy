/** The C++ token bucket: integer nanoseconds, a truncating refill, 32-bit counts and an exponential backoff. */
module RateLimiter {
  import opened Masks

  const INIT_BACKOFF_MS: int := 1000
  const MAX_BACKOFF_MS: int := 32000
  const NS_PER_MS: int := 1_000_000
  const NS_PER_SECOND: int := 1_000_000_000
  /** time_point::min() */
  const NEVER: int := -0x8000_0000_0000_0000

  datatype State = State(max: int, tokens: int, last: int, backoffUntil: int, backoffMs: int)

  /** More than 10^9 tokens a second would make the refill interval zero. */
  predicate ValidMax(max: int) {
    1 <= max <= NS_PER_SECOND
  }

  function RefillNs(max: int): (r: int)
    requires ValidMax(max)
    ensures r > 0
  {
    NS_PER_SECOND / max
  }

  function Initial(max: int, now: int): State {
    State(max, max, now, NEVER, INIT_BACKOFF_MS)
  }

  /** What happens under the mutex: one turn of the loop in acquire, a rate-limit error, a success. */
  datatype Event = Try(now: int) | Hit(now: int) | Success

  function Refill(s: State, now: int): State
    requires ValidMax(s.max) && s.last <= now
  {
    if now < s.backoffUntil then s.(tokens := 0)
    else
      var newToks := ToInt32((now - s.last) / RefillNs(s.max));
      if newToks > 0 then s.(tokens := Smaller(ToInt32(s.tokens + newToks), s.max), last := now) else s
  }

  /** The turn that finds a token takes it and returns. */
  predicate Granted(s: State, e: Event)
    requires ValidMax(s.max) && (e.Try? ==> s.last <= e.now)
  {
    e.Try? && Refill(s, e.now).tokens >= 1
  }

  function Step(s: State, e: Event): (r: State)
    requires ValidMax(s.max) && (e.Try? ==> s.last <= e.now)
    ensures r.max == s.max
    ensures -0x8000_0000 <= s.tokens <= s.max ==> -0x8000_0000 <= r.tokens <= r.max
    ensures r.last == s.last || (e.Try? && r.last == e.now)
  {
    match e
    case Try(now) =>
      var r := Refill(s, now);
      if r.tokens >= 1 then r.(tokens := r.tokens - 1) else r
    case Hit(now) =>
      var ms := Smaller(s.backoffMs * 2, MAX_BACKOFF_MS);
      s.(tokens := 0, backoffMs := ms, backoffUntil := now + ms * NS_PER_MS)
    case Success => s.(backoffMs := INIT_BACKOFF_MS)
  }

  /** A steady clock: readings from u to t that never go back. */
  predicate InWindow(events: seq<Event>, u: int, t: int) {
    if events == [] then u <= t
    else if events[0].Success? then InWindow(events[1..], u, t)
    else u <= events[0].now && InWindow(events[1..], events[0].now, t)
  }

  /** The time of an event on a clock that last read u. */
  function TimeOf(e: Event, u: int): int {
    if e.Success? then u else e.now
  }

  predicate Sane(s: State, u: int) {
    ValidMax(s.max) && -0x8000_0000 <= s.tokens <= s.max && s.last <= u
  }

  function After(s: State, events: seq<Event>, u: int, t: int): (r: State)
    requires Sane(s, u) && InWindow(events, u, t)
    ensures Sane(r, t) && r.max == s.max
    decreases |events|
  {
    if events == [] then s
    else After(Step(s, events[0]), events[1..], TimeOf(events[0], u), t)
  }

  /** The tokens granted along the events. */
  function Grants(s: State, events: seq<Event>, u: int, t: int): nat
    requires Sane(s, u) && InWindow(events, u, t)
    decreases |events|
  {
    if events == [] then 0
    else (if Granted(s, events[0]) then 1 else 0)
         + Grants(Step(s, events[0]), events[1..], TimeOf(events[0], u), t)
  }

  // ----- the bound on grants -------------------------------------------------------

  function Positive(x: int): nat {
    if x > 0 then x else 0
  }

  /** The time since the last refill that a refill now would turn into tokens, with what truncation leaves. */
  function Pending(s: State, now: int): (p: int)
    requires ValidMax(s.max) && s.last <= now
    ensures p >= 0
  {
    var r := RefillNs(s.max);
    Product(Positive(ToInt32((now - s.last) / r)), r) + (now - s.last) % r
  }

  function Product(x: nat, y: nat): nat {
    x * y
  }

  lemma ProductLaws(x: nat, y: nat, z: nat)
    ensures Product(x + y, z) == Product(x, z) + Product(y, z)
    ensures x <= y ==> Product(x, z) <= Product(y, z)
    ensures Product(1, z) == z && Product(0, z) == 0
  {
    if x <= y {
      assert (y - x) * z >= 0;
    }
  }

  /** Tokens held and time not yet turned into tokens, in nanoseconds. */
  function Potential(s: State, now: int): int
    requires ValidMax(s.max) && s.last <= now
  {
    Product(Positive(s.tokens), RefillNs(s.max)) + Pending(s, now)
  }

  /** The wrapped count never grows faster than the true one. */
  lemma WrappedGrowth(q: nat, d: nat)
    ensures Positive(ToInt32(q + d)) <= Positive(ToInt32(q)) + d
  {
    var k := (q + 0x8000_0000) / 0x1_0000_0000;
    var k' := (q + d + 0x8000_0000) / 0x1_0000_0000;
    assert ToInt32(q) == q - k * 0x1_0000_0000;
    assert ToInt32(q + d) == q + d - k' * 0x1_0000_0000;
    assert k <= k';
  }

  /** Waiting adds at most the time waited. */
  lemma PotentialGrowth(s: State, u: int, v: int)
    requires ValidMax(s.max) && s.last <= u <= v
    ensures Potential(s, v) <= Potential(s, u) + (v - u)
  {
    hide ToInt32;
    var r := RefillNs(s.max);
    var q, q' := (u - s.last) / r, (v - s.last) / r;
    QuotientOrder(u - s.last, v - s.last, r);
    WrappedGrowth(q, q' - q);
    var p, p' := Positive(ToInt32(q)), Positive(ToInt32(q'));
    assert u - s.last == Product(q, r) + (u - s.last) % r;
    assert v - s.last == Product(q', r) + (v - s.last) % r;
    ProductLaws(q, q' - q, r);
    ProductLaws(p, q' - q, r);
    ProductLaws(p', p + (q' - q), r);
  }

  lemma QuotientOrder(x: nat, y: nat, r: nat)
    requires x <= y && r > 0
    ensures 0 <= x / r <= y / r
  {
    var k := x / r - y / r;
    assert k * r == x - y - x % r + y % r;
    AtLeast(k, r);
  }

  /** A turn of the loop outside the backoff: what it takes and keeps was there before. */
  lemma TryPotential(s: State, now: int)
    requires Sane(s, now)
    ensures var g := if Granted(s, Try(now)) then RefillNs(s.max) else 0;
            && Potential(Step(s, Try(now)), now) + g <= Potential(s, now)
            && (now >= s.backoffUntil ==>
                  Potential(Step(s, Try(now)), now) + g < Product(s.max + 1, RefillNs(s.max)))
  {
    hide ToInt32;
    var r := RefillNs(s.max);
    var after := Refill(s, now);
    RefillPotential(s, now);
    var taken := if after.tokens >= 1 then 1 else 0;
    ProductLaws(Positive(after.tokens - taken), taken, r);
  }

  lemma RefillPotential(s: State, now: int)
    requires Sane(s, now)
    ensures Potential(Refill(s, now), now) <= Potential(s, now)
    ensures now >= s.backoffUntil ==> Potential(Refill(s, now), now) < Product(s.max + 1, RefillNs(s.max))
  {
    hide ToInt32;
    var r := RefillNs(s.max);
    var newToks := ToInt32((now - s.last) / r);
    ProductLaws(0, Positive(s.tokens), r);
    ProductLaws(s.max, 1, r);
    if now >= s.backoffUntil {
      if newToks > 0 {
        var after := Refill(s, now);
        SumWraps(s.tokens, newToks);
        assert Positive(after.tokens) <= Positive(s.tokens) + newToks;
        ProductLaws(Positive(after.tokens), Positive(s.tokens) + newToks, r);
        ProductLaws(Positive(s.tokens), newToks, r);
        ProductLaws(Positive(after.tokens), s.max, r);
        NothingPending(after, now);
      } else {
        ProductLaws(Positive(s.tokens), s.max, r);
      }
    }
  }

  lemma NothingPending(s: State, now: int)
    requires ValidMax(s.max) && s.last == now
    ensures Pending(s, now) == 0
  {
    hide RefillNs, ToInt32;
    ZeroDivided(RefillNs(s.max));
    ZeroWraps();
    ProductLaws(0, 0, RefillNs(s.max));
  }

  lemma ZeroDivided(r: nat)
    requires r > 0
    ensures 0 / r == 0 && 0 % r == 0
  {
  }

  lemma ZeroWraps()
    ensures ToInt32(0) == 0
  {
  }

  /** A sum of counts that leaves the int range wraps downwards. */
  lemma SumWraps(x: int, y: int)
    requires -0x8000_0000 <= x < 0x8000_0000 && 0 < y < 0x8000_0000
    ensures Positive(ToInt32(x + y)) <= Positive(x) + y
  {
    var k := (x + y + 0x8000_0000) / 0x1_0000_0000;
    assert ToInt32(x + y) == x + y - k * 0x1_0000_0000;
  }

  lemma StepPotential(s: State, e: Event, u: int)
    requires Sane(s, u) && TimeOf(e, u) >= u
    ensures var v := TimeOf(e, u);
            Potential(Step(s, e), v) + (if Granted(s, e) then RefillNs(s.max) else 0) <= Potential(s, u) + (v - u)
  {
    PotentialGrowth(s, u, TimeOf(e, u));
    match e
    case Try(now) => TryPotential(s, now);
    case Hit(now) => ProductLaws(0, Positive(s.tokens), RefillNs(s.max));
    case Success =>
  }

  /** The grants of a stretch are paid for by the potential at its start and the time that passes. */
  lemma {:induction false} GrantsArePaid(s: State, events: seq<Event>, u: int, t: int)
    requires Sane(s, u) && InWindow(events, u, t)
    ensures Product(Grants(s, events, u, t), RefillNs(s.max)) <= Potential(s, u) + (t - u)
    decreases |events|
  {
    hide Potential, RefillNs, Product, Granted;
    if events == [] {
      ProductLaws(0, 0, RefillNs(s.max));
      PotentialNonNegative(s, u);
    } else {
      var v := TimeOf(events[0], u);
      var g := if Granted(s, events[0]) then 1 else 0;
      StepPotential(s, events[0], u);
      GrantsArePaid(Step(s, events[0]), events[1..], v, t);
      var later := Grants(Step(s, events[0]), events[1..], v, t);
      ProductLaws(g, later, RefillNs(s.max));
    }
  }

  lemma PotentialNonNegative(s: State, u: int)
    requires Sane(s, u)
    ensures Potential(s, u) >= 0
  {
  }

  /** From any state, the grants of a stretch from u to t cost less than max + 1 tokens and the time that passes. */
  lemma {:induction false} StretchBound(s: State, events: seq<Event>, u: int, t: int)
    requires Sane(s, u) && InWindow(events, u, t)
    ensures Product(Grants(s, events, u, t), RefillNs(s.max)) < Product(s.max + 1, RefillNs(s.max)) + (t - u)
    decreases |events|
  {
    hide Potential, RefillNs, Product;
    var r := RefillNs(s.max);
    ProductLaws(0, s.max + 1, r);
    ProductLaws(1, s.max, r);
    if events != [] {
      var v := TimeOf(events[0], u);
      var s' := Step(s, events[0]);
      var later := Grants(s', events[1..], v, t);
      if events[0].Try? && v >= s.backoffUntil {
        TryPotential(s, v);
        GrantsArePaid(s', events[1..], v, t);
        ProductLaws(if Granted(s, events[0]) then 1 else 0, later, r);
      } else {
        StretchBound(s', events[1..], v, t);
      }
    }
  }

  /**
   * In every run of shared callers on a steady clock, the G tokens granted in any window
   * from s to t satisfy G * refill < (max + 1) * refill + (t - s).
   */
  lemma WindowBound(max: int, start: int, before: seq<Event>, window: seq<Event>, s: int, t: int)
    requires ValidMax(max) && InWindow(before, start, s) && InWindow(window, s, t)
    ensures Sane(Initial(max, start), start)
    ensures var state := After(Initial(max, start), before, start, s);
            var granted := Grants(state, window, s, t);
            granted * RefillNs(max) < (max + 1) * RefillNs(max) + (t - s)
  {
    var state := After(Initial(max, start), before, start, s);
    StretchBound(state, window, s, t);
  }

  /**
   * Outside the backoff a turn is granted exactly when a token is held or one refill
   * interval has passed, as long as the accrued count fits an int.
   */
  lemma GrantedExactlyWhen(s: State, now: int)
    requires Sane(s, now) && s.tokens >= 0 && now >= s.backoffUntil
    requires CountFits(s, now)
    ensures Granted(s, Try(now)) <==> s.tokens >= 1 || now - s.last >= RefillNs(s.max)
  {
    hide RefillNs, ToInt32, CountFits, Refill;
    RefillIsExact(s, now);
    WholeIntervals(now - s.last, RefillNs(s.max));
  }

  lemma WholeIntervals(x: nat, r: nat)
    requires r > 0
    ensures 0 <= x / r && (x / r >= 1 <==> x >= r)
  {
    QuotientOrder(0, x, r);
    if x >= r {
      QuotientOrder(r, x, r);
    }
  }

  /** Outside the backoff, every accrued count met along the events fits an int. */
  predicate CountsFit(s: State, events: seq<Event>, u: int, t: int)
    requires Sane(s, u) && InWindow(events, u, t)
    decreases |events|
  {
    events == [] ||
    (&& (events[0].Try? && events[0].now >= s.backoffUntil ==> CountFits(s, events[0].now))
     && CountsFit(Step(s, events[0]), events[1..], TimeOf(events[0], u), t))
  }

  predicate CountFits(s: State, now: int)
    requires ValidMax(s.max) && s.last <= now
  {
    (now - s.last) / RefillNs(s.max) + s.max < 0x8000_0000
  }

  /** A refill whose count fits adds the true number of intervals, up to the capacity. */
  lemma RefillIsExact(s: State, now: int)
    requires Sane(s, now) && s.tokens >= 0 && now >= s.backoffUntil && CountFits(s, now)
    ensures Refill(s, now).tokens == Smaller(s.tokens + (now - s.last) / RefillNs(s.max), s.max)
  {
    hide RefillNs;
  }

  lemma {:induction false} TokensStayInRange(s: State, events: seq<Event>, u: int, t: int)
    requires Sane(s, u) && s.tokens >= 0 && InWindow(events, u, t) && CountsFit(s, events, u, t)
    ensures 0 <= After(s, events, u, t).tokens <= s.max
    decreases |events|
  {
    if events != [] {
      hide RefillNs, ToInt32;
      if events[0].Try? && events[0].now >= s.backoffUntil {
        QuotientOrder(0, events[0].now - s.last, RefillNs(s.max));
        RefillIsExact(s, events[0].now);
      }
      TokensStayInRange(Step(s, events[0]), events[1..], TimeOf(events[0], u), t);
    }
  }

  /**
   * Over every run whose accrued counts fit an int, the tokens stay in [0, max], and a turn
   * outside the backoff is granted exactly when a token is held or an interval has passed.
   */
  lemma RunGrantsWhenDue(max: int, start: int, before: seq<Event>, u: int, now: int)
    requires ValidMax(max) && InWindow(before, start, u) && u <= now
    requires Sane(Initial(max, start), start) && CountsFit(Initial(max, start), before, start, u)
    ensures var s := After(Initial(max, start), before, start, u);
            && 0 <= s.tokens <= max
            && (now >= s.backoffUntil && CountFits(s, now) ==>
                  (Granted(s, Try(now)) <==> s.tokens >= 1 || now - s.last >= RefillNs(max)))
  {
    hide CountsFit, Granted, RefillNs;
    var s := After(Initial(max, start), before, start, u);
    TokensStayInRange(Initial(max, start), before, start, u);
    if now >= s.backoffUntil && CountFits(s, now) {
      GrantedExactlyWhen(s, now);
    }
  }

  // ----- the backoff ------------------------------------------------------------------

  /** Rate-limit errors since the last success. */
  function HitsSinceSuccess(events: seq<Event>): nat {
    if events == [] then 0
    else
      var last := events[|events| - 1];
      var before := HitsSinceSuccess(events[..|events| - 1]);
      match last
      case Try(_) => before
      case Hit(_) => before + 1
      case Success => 0
  }

  function BackoffAfter(hits: nat): int {
    Smaller(INIT_BACKOFF_MS * Pow2(hits), MAX_BACKOFF_MS)
  }

  lemma {:induction false} AfterSnoc(s: State, events: seq<Event>, e: Event, u: int, t: int)
    requires Sane(s, u) && InWindow(events + [e], u, t)
    ensures var v := if e.Success? then t else e.now;
            && u <= v <= t && InWindow(events, u, v)
            && (e.Try? ==> After(s, events, u, v).last <= e.now)
            && After(s, events + [e], u, t) == Step(After(s, events, u, v), e)
    decreases |events|
  {
    if events == [] {
      assert [e][1..] == [] && [] + [e] == [e];
      WindowOrder([e][1..], TimeOf(e, u), t);
    } else {
      assert (events + [e])[1..] == events[1..] + [e];
      AfterSnoc(Step(s, events[0]), events[1..], e, TimeOf(events[0], u), t);
    }
  }

  lemma {:induction false} WindowOrder(events: seq<Event>, u: int, t: int)
    requires InWindow(events, u, t)
    ensures u <= t
  {
    if events != [] {
      WindowOrder(events[1..], TimeOf(events[0], u), t);
    }
  }

  /** After k errors since the last success, or since construction, the backoff is min(1000 * 2^k, 32000) ms. */
  lemma {:induction false} BackoffDoubles(max: int, start: int, events: seq<Event>, t: int)
    requires ValidMax(max) && InWindow(events, start, t)
    ensures Sane(Initial(max, start), start)
    ensures After(Initial(max, start), events, start, t).backoffMs == BackoffAfter(HitsSinceSuccess(events))
    decreases |events|
  {
    if events != [] {
      var before, e := events[..|events| - 1], events[|events| - 1];
      assert events == before + [e];
      AfterSnoc(Initial(max, start), before, e, start, t);
      BackoffDoubles(max, start, before, if e.Success? then t else e.now);
    }
  }

  predicate NoSuccess(events: seq<Event>) {
    forall i :: 0 <= i < |events| ==> !events[i].Success?
  }

  predicate AllBefore(events: seq<Event>, deadline: int) {
    forall i :: 0 <= i < |events| && events[i].Try? ==> events[i].now < deadline
  }

  /** Until a success is reported, later errors never bring the end of the backoff forward. */
  lemma {:induction false} NothingGrantedUntil(s: State, events: seq<Event>, u: int, t: int, deadline: int)
    requires Sane(s, u) && InWindow(events, u, t) && NoSuccess(events) && AllBefore(events, deadline)
    requires deadline <= s.backoffUntil && 0 <= s.backoffMs <= MAX_BACKOFF_MS
    requires deadline <= u + s.backoffMs * NS_PER_MS
    ensures Grants(s, events, u, t) == 0
    decreases |events|
  {
    if events != [] {
      assert !events[0].Success?;
      NothingGrantedUntil(Step(s, events[0]), events[1..], TimeOf(events[0], u), t, deadline);
    }
  }

  /**
   * After an error at time h that brings the errors since the last success to k, no token
   * is granted before h + min(1000 * 2^k, 32000) ms, whoever calls and whatever further
   * errors arrive, until a success is reported.
   */
  lemma NoGrantDuringBackoff(max: int, start: int, before: seq<Event>, h: int, later: seq<Event>, t: int)
    requires ValidMax(max) && InWindow(before + [Hit(h)], start, h) && InWindow(later, h, t)
    requires NoSuccess(later)
    requires AllBefore(later, h + BackoffAfter(HitsSinceSuccess(before + [Hit(h)])) * NS_PER_MS)
    ensures Sane(Initial(max, start), start)
    ensures Grants(After(Initial(max, start), before + [Hit(h)], start, h), later, h, t) == 0
  {
    var s := After(Initial(max, start), before + [Hit(h)], start, h);
    AfterSnoc(Initial(max, start), before, Hit(h), start, h);
    BackoffDoubles(max, start, before + [Hit(h)], h);
    NothingGrantedUntil(s, later, h, t, h + s.backoffMs * NS_PER_MS);
  }

  /** Whatever happened before, a turn before the current backoff_until_ grants nothing. */
  lemma NoGrantBeforeBackoffUntil(s: State, now: int)
    requires Sane(s, now) && now < s.backoffUntil
    ensures !Granted(s, Try(now)) && Step(s, Try(now)) == s.(tokens := 0)
  {
  }

  // ----- the object ---------------------------------------------------------------------

  class RateLimiter {
    const maxTokens: int
    const refillNs: int
    var tokens: int
    var lastRefill: int
    var backoffUntil: int
    var backoffMs: int

    ghost predicate Valid(now: int)
      reads this
    {
      ValidMax(maxTokens) && refillNs == RefillNs(maxTokens) && Sane(View(), now)
    }

    ghost function View(): State
      reads this
    {
      State(maxTokens, tokens, lastRefill, backoffUntil, backoffMs)
    }

    constructor (maxPerSecond: int, now: int)
      requires ValidMax(maxPerSecond)
      ensures Valid(now) && View() == Initial(maxPerSecond, now)
    {
      maxTokens, refillNs := maxPerSecond, NS_PER_SECOND / maxPerSecond;
      tokens, lastRefill := maxPerSecond, now;
      backoffUntil, backoffMs := NEVER, INIT_BACKOFF_MS;
    }

    method RefillLocked(now: int)
      requires Valid(now)
      modifies `tokens, `lastRefill
      ensures View() == Refill(old(View()), now)
    {
      hide ToInt32;
      if now < backoffUntil {
        tokens := 0;
        return;
      }
      var elapsed := now - lastRefill;
      var newToks := ToInt32(elapsed / refillNs);
      if newToks > 0 {
        tokens := Smaller(ToInt32(tokens + newToks), maxTokens);
        lastRefill := now;
      }
    }

    /** The loop of acquire, over the clock readings it gets; it returns at the first turn that finds a token. */
    method Acquire(readings: seq<int>, ghost start: int) returns (granted: bool, turns: nat)
      requires Valid(start) && Ticking(readings, start)
      modifies `tokens, `lastRefill
      ensures Acquiring(old(View()), readings, start) == Acquired(View(), turns, granted)
    {
      turns := 0;
      ghost var u := start;
      while turns < |readings|
        invariant turns <= |readings| && Valid(u) && Ticking(readings[turns..], u)
        invariant Acquiring(old(View()), readings, start) == Later(turns, Acquiring(View(), readings[turns..], u))
      {
        var now := readings[turns];
        ghost var s := View();
        assert readings[turns..][0] == now && readings[turns..][1..] == readings[turns + 1..];
        RefillLocked(now);
        turns := turns + 1;
        u := now;
        if tokens >= 1 {
          tokens := tokens - 1;
          return true, turns;
        }
      }
      return false, turns;
    }

    method OnRateLimitHit(now: int)
      requires Valid(now)
      modifies `tokens, `backoffUntil, `backoffMs
      ensures Valid(now) && View() == Step(old(View()), Hit(now))
    {
      backoffMs := Smaller(backoffMs * 2, MAX_BACKOFF_MS);
      backoffUntil := now + backoffMs * NS_PER_MS;
      tokens := 0;
    }

    method OnSuccess()
      requires ValidMax(maxTokens)
      modifies `backoffMs
      ensures View() == Step(old(View()), Success)
      ensures forall t :: old(Valid(t)) ==> Valid(t)
    {
      backoffMs := INIT_BACKOFF_MS;
    }
  }

  /** One call of acquire. */
  datatype Acquired = Acquired(state: State, turns: nat, granted: bool)

  predicate Ticking(readings: seq<int>, u: int) {
    readings == [] || (u <= readings[0] && Ticking(readings[1..], readings[0]))
  }

  function Later(turns: nat, a: Acquired): Acquired {
    a.(turns := turns + a.turns)
  }

  function Acquiring(s: State, readings: seq<int>, u: int): (r: Acquired)
    requires Sane(s, u) && Ticking(readings, u)
    ensures r.turns <= |readings|
    decreases |readings|
  {
    if readings == [] then Acquired(s, 0, false)
    else
      var e := Try(readings[0]);
      if Granted(s, e) then Acquired(Step(s, e), 1, true)
      else Later(1, Acquiring(Step(s, e), readings[1..], readings[0]))
  }

  function Turns(readings: seq<int>): (r: seq<Event>)
    ensures |r| == |readings| && forall i :: 0 <= i < |r| ==> r[i] == Try(readings[i])
  {
    seq(|readings|, i requires 0 <= i < |readings| => Try(readings[i]))
  }

  /** One call is a run of turns that grants one token, at its last turn, or none yet. */
  lemma {:induction false} AcquireGrantsOne(s: State, readings: seq<int>, u: int) returns (t: int)
    requires Sane(s, u) && Ticking(readings, u)
    ensures var a := Acquiring(s, readings, u);
            var events := Turns(readings[..a.turns]);
            && InWindow(events, u, t)
            && a.state == After(s, events, u, t)
            && Grants(s, events, u, t) == (if a.granted then 1 else 0)
            && (!a.granted ==> a.turns == |readings|)
    decreases |readings|
  {
    hide Granted, Refill;
    t := u;
    if readings != [] {
      var e := Try(readings[0]);
      var a := Acquiring(s, readings, u);
      assert Turns(readings[..a.turns])[1..] == Turns(readings[1..][..a.turns - 1]);
      if Granted(s, e) {
        t := readings[0];
      } else {
        t := AcquireGrantsOne(Step(s, e), readings[1..], readings[0]);
      }
    }
  }

  // ----- progress ---------------------------------------------------------------------

  /** An interval has passed since the last refill, and the backoff is over. */
  predicate Due(s: State, now: int)
    requires ValidMax(s.max)
  {
    now >= s.backoffUntil && now >= s.last + RefillNs(s.max)
  }

  /** A turn on an empty bucket: due, it finds a token; before that, it leaves everything as it was. */
  lemma EmptyTurn(s: State, now: int)
    requires Sane(s, now) && s.tokens == 0 && (now >= s.backoffUntil ==> CountFits(s, now))
    ensures Granted(s, Try(now)) <==> Due(s, now)
    ensures !Due(s, now) ==> Step(s, Try(now)) == s
  {
    hide RefillNs, CountFits;
    if now >= s.backoffUntil {
      GrantedExactlyWhen(s, now);
      WholeIntervals(now - s.last, RefillNs(s.max));
      if !Due(s, now) {
        QuotientOrder(0, now - s.last, RefillNs(s.max));
        ZeroWraps();
      }
    }
  }

  /**
   * A call that starts on an empty bucket returns at the first reading at which the backoff
   * is over and one interval has passed since the last refill, and not before: polling does
   * not put the refill off.
   */
  lemma {:induction false} EmptyBucketGrantsWhenDue(s: State, readings: seq<int>, u: int)
    requires Sane(s, u) && Ticking(readings, u) && s.tokens == 0
    requires forall i :: 0 <= i < |readings| && readings[i] >= s.backoffUntil ==>
               s.last <= readings[i] && CountFits(s, readings[i])
    ensures var a := Acquiring(s, readings, u);
            && (a.granted <==> exists i :: 0 <= i < |readings| && Due(s, readings[i]))
            && (forall i :: 0 <= i < a.turns - 1 ==> !Due(s, readings[i]))
            && (a.granted ==> a.turns > 0 && Due(s, readings[a.turns - 1]) && a.state.last == readings[a.turns - 1])
            && (!a.granted ==> a.state == s)
    decreases |readings|
  {
    hide CountFits, Due, Granted, Step, RefillNs;
    if readings != [] {
      EmptyTurn(s, readings[0]);
      if Due(s, readings[0]) {
        GrantRefills(s, readings[0]);
      } else {
        EmptyBucketGrantsWhenDue(s, readings[1..], readings[0]);
        assert forall i :: 0 < i < |readings| ==> readings[i] == readings[1..][i - 1];
      }
    }
  }

  lemma GrantRefills(s: State, now: int)
    requires Sane(s, now) && s.tokens == 0 && Granted(s, Try(now))
    ensures Step(s, Try(now)).last == now
  {
  }

  /** The max intervals of one second fit into it, with less than one nanosecond each to spare. */
  lemma IntervalsFillASecond(max: int)
    requires ValidMax(max)
    ensures max * RefillNs(max) <= NS_PER_SECOND < max * (RefillNs(max) + 1)
  {
    assert NS_PER_SECOND == max * RefillNs(max) + NS_PER_SECOND % max;
  }

  /**
   * The first call after an error that brings the errors since the last success to k, with
   * no further errors meanwhile, returns at its first reading from h + min(1000 * 2^k, 32000) ms on.
   */
  lemma GrantedWhenBackoffEnds(max: int, start: int, before: seq<Event>, h: int, readings: seq<int>)
    requires ValidMax(max) && InWindow(before + [Hit(h)], start, h) && Ticking(readings, h)
    requires Sane(Initial(max, start), start)
    requires var s := After(Initial(max, start), before + [Hit(h)], start, h);
             forall i :: 0 <= i < |readings| && readings[i] >= s.backoffUntil ==>
               s.last <= readings[i] && CountFits(s, readings[i])
    ensures var s := After(Initial(max, start), before + [Hit(h)], start, h);
            var a := Acquiring(s, readings, h);
            var end := h + BackoffAfter(HitsSinceSuccess(before + [Hit(h)])) * NS_PER_MS;
            && (a.granted <==> exists i :: 0 <= i < |readings| && readings[i] >= end)
            && (forall i :: 0 <= i < a.turns - 1 ==> readings[i] < end)
            && (a.granted ==> a.turns > 0 && readings[a.turns - 1] >= end)
  {
    hide RefillNs, CountFits, Acquiring, BackoffAfter, HitsSinceSuccess, After;
    AfterSnoc(Initial(max, start), before, Hit(h), start, h);
    BackoffDoubles(max, start, before + [Hit(h)], h);
    var s := After(Initial(max, start), before + [Hit(h)], start, h);
    BackoffIsLonger(max, HitsSinceSuccess(before + [Hit(h)]));
    LastHit(before, h);
    EmptyBucketGrantsWhenDue(s, readings, h);
    assert forall i :: 0 <= i < |readings| ==> (Due(s, readings[i]) <==> readings[i] >= s.backoffUntil);
  }

  /** The error just seen counts. */
  lemma LastHit(before: seq<Event>, h: int)
    ensures HitsSinceSuccess(before + [Hit(h)]) > 0
  {
    assert (before + [Hit(h)])[..|before|] == before;
  }

  /** A backoff is longer than a refill interval. */
  lemma BackoffIsLonger(max: int, hits: nat)
    requires ValidMax(max)
    ensures hits > 0 ==> RefillNs(max) <= BackoffAfter(hits) * NS_PER_MS
  {
    hide Pow2;
    IntervalsFillASecond(max);
    if hits > 0 {
      PowStep(hits);
    }
    assert RefillNs(max) <= NS_PER_SECOND by {
      ScaleUp(max, RefillNs(max));
    }
  }

  lemma PowStep(hits: nat)
    requires hits > 0
    ensures Pow2(hits) >= 2
  {
  }

  lemma ScaleUp(max: int, x: int)
    requires max >= 1 && x >= 0
    ensures x <= max * x
  {
  }

  /** Turns no more than gap apart, from u to t, and nothing but successes besides. */
  predicate Polled(events: seq<Event>, u: int, t: int, gap: int) {
    if events == [] then t <= u + gap
    else
      && !events[0].Hit? && TimeOf(events[0], u) <= u + gap
      && Polled(events[1..], TimeOf(events[0], u), t, gap)
  }

  /** How long somebody has been waiting for the next token, up to one interval. */
  function Waited(s: State, now: int): (w: int)
    requires ValidMax(s.max) && s.last <= now
    ensures 0 <= w <= RefillNs(s.max)
  {
    if s.tokens >= 1 then 0 else Smaller(now - s.last, RefillNs(s.max))
  }

  lemma TurnPays(s: State, e: Event, u: int, gap: int)
    requires Sane(s, u) && 0 <= s.tokens && s.backoffUntil <= u <= TimeOf(e, u) <= u + gap && !e.Hit?
    requires e.Try? ==> CountFits(s, e.now)
    ensures var v := TimeOf(e, u);
            && 0 <= Step(s, e).tokens && Step(s, e).backoffUntil == s.backoffUntil
            && Waited(s, u) + (v - u)
               <= Waited(Step(s, e), v) + (if Granted(s, e) then RefillNs(s.max) + gap else 0)
  {
    hide RefillNs, CountFits;
    if e.Try? {
      GrantedExactlyWhen(s, e.now);
      RefillIsExact(s, e.now);
      QuotientOrder(0, e.now - s.last, RefillNs(s.max));
      WholeIntervals(e.now - s.last, RefillNs(s.max));
      if e.now - s.last < RefillNs(s.max) {
        RefillLast(s, e.now);
      }
    }
  }

  lemma RefillLast(s: State, now: int)
    requires Sane(s, now) && now - s.last < RefillNs(s.max)
    ensures Refill(s, now).last == s.last
  {
    WholeIntervals(now - s.last, RefillNs(s.max));
    ZeroWraps();
  }

  lemma {:induction false} PolledStretch(s: State, events: seq<Event>, u: int, t: int, gap: int)
    requires Sane(s, u) && 0 <= s.tokens && s.backoffUntil <= u
    requires InWindow(events, u, t) && Polled(events, u, t, gap) && CountsFit(s, events, u, t) && gap >= 0
    ensures Waited(s, u) + (t - u) <= Product(Grants(s, events, u, t) + 1, RefillNs(s.max) + gap)
    decreases |events|
  {
    hide RefillNs, Product, Granted, CountFits, Waited, Step;
    var c := RefillNs(s.max) + gap;
    if events == [] {
      ProductLaws(1, 0, c);
    } else {
      var v := TimeOf(events[0], u);
      TurnPays(s, events[0], u, gap);
      PolledStretch(Step(s, events[0]), events[1..], v, t, gap);
      var later := Grants(Step(s, events[0]), events[1..], v, t);
      ProductLaws(if Granted(s, events[0]) then 1 else 0, later + 1, c);
    }
  }

  lemma {:induction false} HeldTokensAreGranted(s: State, readings: seq<int>, u: int, t: int)
    requires Sane(s, u) && s.backoffUntil <= u && |readings| <= s.tokens
    requires InWindow(Turns(readings), u, t) && CountsFit(s, Turns(readings), u, t)
    ensures Grants(s, Turns(readings), u, t) == |readings|
    decreases |readings|
  {
    hide RefillNs, CountFits;
    if readings != [] {
      var e := Try(readings[0]);
      assert Turns(readings)[0] == e && Turns(readings)[1..] == Turns(readings[1..]);
      RefillIsExact(s, readings[0]);
      QuotientOrder(0, readings[0] - s.last, RefillNs(s.max));
      HeldTokensAreGranted(Step(s, e), readings[1..], readings[0], t);
    }
  }

  /** A new limiter grants its first max turns without any wait. */
  lemma BurstIsGranted(max: int, start: int, readings: seq<int>, t: int)
    requires ValidMax(max) && NEVER <= start && |readings| <= max
    requires Sane(Initial(max, start), start) && InWindow(Turns(readings), start, t)
    requires CountsFit(Initial(max, start), Turns(readings), start, t)
    ensures Grants(Initial(max, start), Turns(readings), start, t) == |readings|
  {
    HeldTokensAreGranted(Initial(max, start), readings, start, t);
  }

  /**
   * The other bound: in every run, a window from s to t that starts outside the backoff, sees
   * no error, and in which callers keep asking at least every gap, grants at least
   * (t - s) / (refill + gap) - 1 tokens, while the accrued counts fit an int.
   */
  lemma PolledWindowBound(max: int, start: int, before: seq<Event>, window: seq<Event>, s: int, t: int, gap: int)
    requires ValidMax(max) && InWindow(before, start, s) && InWindow(window, s, t)
    requires Sane(Initial(max, start), start) && CountsFit(Initial(max, start), before, start, s)
    requires Polled(window, s, t, gap) && gap >= 0
    requires var state := After(Initial(max, start), before, start, s);
             state.backoffUntil <= s && CountsFit(state, window, s, t)
    ensures var state := After(Initial(max, start), before, start, s);
            t - s <= (Grants(state, window, s, t) + 1) * (RefillNs(max) + gap)
  {
    hide RefillNs, CountsFit, Polled, Grants;
    TokensStayInRange(Initial(max, start), before, start, s);
    var state := After(Initial(max, start), before, start, s);
    PolledStretch(state, window, s, t, gap);
  }
}
