/** How many tokens one caller can be granted over a span of time while its
    effective limit stays constant, however often the limiter is polled: what
    the algorithms allow, told as events on the caller's binding. RateRuns
    projects the runs of the limiter onto such events. */
module RateBounds {
  import opened Basics
  import opened RateState
  import opened RateInvariant

  /** What the limiter does to one caller. Ask is a request (direct or from the
      wait queue), Back returns tokens, Poll only ticks; all three tick the
      algorithm first. Cut lowers the used tokens without a tick, as the clamp
      does when a reservation ends. */
  datatype Action = Poll | Ask(tokens: nat) | Back(tokens: nat) | Cut(tokens: nat)

  datatype Event = Event(now: int, action: Action)

  function Apply(b: Binding, p: Policy, limit: int, e: Event, decay: Decay): Binding
    requires p.algorithm.FixedWindow? ==> p.windowSec > 0
  {
    match e.action
    case Poll => Tick(b, p, limit, e.now, decay)
    case Ask(n) =>
      var t := Tick(b, p, limit, e.now, decay);
      if limit - t.used >= n then t.(used := t.used + n) else t
    case Back(n) => Lower(Tick(b, p, limit, e.now, decay), n)
    case Cut(n) => Lower(b, n)
  }

  function GrantOf(b: Binding, p: Policy, limit: int, e: Event, decay: Decay): nat
    requires p.algorithm.FixedWindow? ==> p.windowSec > 0
  {
    if e.action.Ask? && limit - Tick(b, p, limit, e.now, decay).used >= e.action.tokens then e.action.tokens else 0
  }

  /** Tokens that come back with an event. */
  function ReturnOf(e: Event): nat
  {
    if e.action.Back? || e.action.Cut? then e.action.tokens else 0
  }

  function GrantedOver(b: Binding, p: Policy, limit: int, events: seq<Event>, decay: Decay): nat
    requires p.algorithm.FixedWindow? ==> p.windowSec > 0
    decreases |events|
  {
    if events == [] then 0
    else GrantOf(b, p, limit, events[0], decay) +
         GrantedOver(Apply(b, p, limit, events[0], decay), p, limit, events[1..], decay)
  }

  function ReturnedOver(events: seq<Event>): nat
  {
    if events == [] then 0
    else ReturnOf(events[0]) + ReturnedOver(events[1..])
  }

  /** The clock does not go back, from `from` on. */
  predicate Monotone(from: int, events: seq<Event>)
    decreases |events|
  {
    events == [] || (from <= events[0].now && Monotone(events[0].now, events[1..]))
  }

  function LastTime(from: int, events: seq<Event>): int
    decreases |events|
  {
    if events == [] then from else LastTime(events[0].now, events[1..])
  }

  lemma {:induction false} LastTimeIsLater(from: int, events: seq<Event>)
    requires Monotone(from, events)
    ensures from <= LastTime(from, events)
    decreases |events|
  {
    if events != [] {
      LastTimeIsLater(events[0].now, events[1..]);
    }
  }

  // ------------------------------------------------- the limiter's own steps

  /** RequestTokens acts on its caller as an Ask. */
  lemma RequestIsAsk(s: State, c: string, tokens: nat, waitable: bool, waitSec: int, now: int, decay: Decay, clock: int)
    requires Ok(s, clock) && Known(s, c)
    ensures var b := s.bindings[c]; var p := s.policies[b.policy]; var limit := EffectiveLimit(s, b);
      var (t, outcome) := Request(s, c, tokens, waitable, waitSec, now, decay);
      && t.bindings[c] == Apply(b, p, limit, Event(now, Ask(tokens)), decay)
      && (outcome.Granted? ==> GrantOf(b, p, limit, Event(now, Ask(tokens)), decay) == tokens)
      && (!outcome.Granted? ==> GrantOf(b, p, limit, Event(now, Ask(tokens)), decay) == 0)
  {
    var b := s.bindings[c];
    TickLowers(b, s.policies[b.policy], EffectiveLimit(s, b), now, decay);
  }

  lemma ReturnIsBack(s: State, c: string, tokens: nat, now: int, decay: Decay, clock: int)
    requires Ok(s, clock) && Known(s, c)
    ensures var b := s.bindings[c];
      Return(s, c, tokens, now, decay).bindings[c] ==
      Apply(b, s.policies[b.policy], EffectiveLimit(s, b), Event(now, Back(tokens)), decay)
  {
  }

  // ------------------------------------------------------------ token bucket

  /** Ten times the inflow of a span of time. */
  function Allowance(p: Policy, from: int, to: int): real
  {
    10.0 * Inflow(p, to - from)
  }

  /** A millisecond before t. */
  function Early(t: int): int
  {
    t - MILLISECOND
  }

  /** One tick frees at most ten times the refill of the time it accounts for. */
  lemma BucketDrop(b: Binding, p: Policy, limit: int, now: int, decay: Decay)
    requires p.algorithm.TokenBucket? && p.refillRate >= 0.0
    requires 0 <= b.used <= limit && b.lastRefill <= now
    ensures var t := Tick(b, p, limit, now, decay);
      && 0 <= t.used <= b.used && b.lastRefill <= t.lastRefill <= now
      && now - t.lastRefill < MILLISECOND
      && (b.used - t.used) as real <= Allowance(p, b.lastRefill, t.lastRefill)
  {
  }

  lemma AllowanceAdds(p: Policy, a: int, b: int, c: int)
    ensures Allowance(p, a, b) + Allowance(p, b, c) == Allowance(p, a, c)
  {
  }

  lemma AllowanceGrows(p: Policy, a: int, b: int, c: int)
    requires p.refillRate >= 0.0 && a <= b <= c
    ensures 0.0 <= Allowance(p, b, c) <= Allowance(p, a, c)
  {
  }

  /** From the binding's refill stamp on: free tokens now, plus ten times the
      refill, plus what is returned. */
  lemma {:induction false} BucketBoundSinceRefill(b: Binding, p: Policy, limit: int, events: seq<Event>, decay: Decay)
    requires p.algorithm.TokenBucket? && p.refillRate >= 0.0
    requires 0 <= b.used <= limit && Monotone(b.lastRefill, events)
    ensures GrantedOver(b, p, limit, events, decay) as real <=
      (limit - b.used) as real + ReturnedOver(events) as real + Allowance(p, b.lastRefill,
          LastTime(b.lastRefill, events))
    decreases |events|
  {
    if events == [] {
      AllowanceGrows(p, b.lastRefill, b.lastRefill, b.lastRefill);
    } else {
      var e, rest := events[0], events[1..];
      var b' := Apply(b, p, limit, e, decay);
      BucketStep(b, p, limit, e, decay);
      MonotoneEarlier(b'.lastRefill, e.now, rest);
      BucketBoundSinceRefill(b', p, limit, rest, decay);
      LastTimeIsLater(e.now, rest);
      BucketSpan(p, b.lastRefill, b'.lastRefill, e.now, rest);
    }
  }

  /** One event: what it grants beyond what it uses up is returned or refilled. */
  lemma BucketStep(b: Binding, p: Policy, limit: int, e: Event, decay: Decay)
    requires p.algorithm.TokenBucket? && p.refillRate >= 0.0
    requires 0 <= b.used <= limit && b.lastRefill <= e.now
    ensures var b' := Apply(b, p, limit, e, decay);
      && 0 <= b'.used <= limit && b.lastRefill <= b'.lastRefill <= e.now
      && (GrantOf(b, p, limit, e, decay) + b.used) as real <=
         b'.used as real + ReturnOf(e) as real + Allowance(p, b.lastRefill, b'.lastRefill)
      && (!e.action.Cut? ==> e.now - b'.lastRefill < MILLISECOND && b'.used >= GrantOf(b, p, limit, e, decay))
  {
    hide Tick;
    hide Allowance;
    if e.action.Cut? {
      AllowanceGrows(p, b.lastRefill, b.lastRefill, b.lastRefill);
    } else {
      BucketDrop(b, p, limit, e.now, decay);
    }
  }

  /** The refills of a span and of the rest of the run add up. */
  lemma BucketSpan(p: Policy, from: int, stamp: int, now: int, rest: seq<Event>)
    requires p.refillRate >= 0.0 && from <= stamp <= now && now <= LastTime(now, rest)
    ensures Allowance(p, from, stamp) + Allowance(p, stamp, LastTime(stamp, rest)) <= Allowance(p, from,
        LastTime(now, rest))
  {
    var last := LastTime(now, rest);
    if rest == [] {
      AllowanceAdds(p, from, stamp, stamp);
      AllowanceAdds(p, from, stamp, now);
      AllowanceGrows(p, stamp, stamp, now);
    } else {
      LastTimeSame(stamp, now, rest);
      AllowanceAdds(p, from, stamp, last);
    }
  }

  lemma MonotoneEarlier(a: int, b: int, events: seq<Event>)
    requires a <= b && Monotone(b, events)
    ensures Monotone(a, events)
  {
  }

  lemma LastTimeSame(a: int, b: int, events: seq<Event>)
    requires events != []
    ensures LastTime(a, events) == LastTime(b, events)
  {
  }

  function Last(events: seq<Event>): int
    requires events != []
  {
    LastTime(events[0].now, events[1..])
  }

  lemma LastOfRest(events: seq<Event>)
    requires |events| > 1 && Monotone(events[0].now, events)
    ensures Last(events[1..]) == Last(events) && events[0].now <= events[1].now <= Last(events)
  {
    LastTimeIsLater(events[1].now, events[1..][1..]);
  }

  /** Over any span of time T, whatever happened before it and however often
      the limiter is polled, a caller is granted at most
      L + 10 * RefillRate * (T + 1 ms) tokens plus what comes back. */
  lemma {:induction false} BucketRunBound(b: Binding, p: Policy, limit: int, events: seq<Event>, decay: Decay)
    requires p.algorithm.TokenBucket? && p.refillRate >= 0.0
    requires 0 <= b.used <= limit && events != [] && Monotone(b.lastRefill, events)
    ensures GrantedOver(b, p, limit, events, decay) as real <=
      limit as real + ReturnedOver(events) as real + Allowance(p, Early(events[0].now), Last(events))
    decreases |events|
  {
    var e, rest := events[0], events[1..];
    var b' := Apply(b, p, limit, e, decay);
    BucketStep(b, p, limit, e, decay);
    LastTimeIsLater(e.now, rest);
    MonotoneEarlier(b'.lastRefill, e.now, rest);
    if e.action.Cut? && rest != [] {
      BucketRunBound(b', p, limit, rest, decay);
      LastOfRest(events);
      AllowanceGrows(p, Early(e.now), Early(rest[0].now), Last(events));
    } else if e.action.Cut? {
      AllowanceGrows(p, Early(e.now), e.now, e.now);
      AllowanceGrows(p, Early(e.now), Early(e.now), e.now);
    } else {
      BucketBoundSinceRefill(b', p, limit, rest, decay);
      AllowanceGrows(p, Early(e.now), Early(e.now), b'.lastRefill);
      BucketSpan(p, Early(e.now), b'.lastRefill, e.now, rest);
    }
  }

  /** A poll that finds exactly a tenth of a token frees a whole one. */
  lemma TenthFreesToken(b: Binding, p: Policy, limit: int, k: int, decay: Decay)
    requires p.algorithm.TokenBucket? && k >= MILLISECOND && Inflow(p, k) == 0.1
    requires 1 <= b.used <= limit
    ensures Tick(b, p, limit, b.lastRefill + k, decay).used == b.used - 1
  {
    assert limit as real - ((limit - b.used) as real + 0.1) == b.used as real - 0.1;
    assert (b.used as real - 0.1).Floor == b.used - 1;
  }

  /** The factor ten is attained: at one token per second, a poll every tenth
      of a second frees a whole token each time. */
  lemma TenthSecondPollFreesToken(b: Binding, p: Policy, limit: int, decay: Decay)
    requires p.algorithm.TokenBucket? && p.refillRate == 1.0
    requires 1 <= b.used <= limit
    ensures Tick(b, p, limit, b.lastRefill + 100 * MILLISECOND, decay).used == b.used - 1
  {
    assert Seconds(100 * MILLISECOND) == 0.1;
    TenthFreesToken(b, p, limit, 100 * MILLISECOND, decay);
  }

  // ------------------------------------------------------------ fixed window

  function Width(p: Policy): int
  {
    p.windowSec * SECOND
  }

  /** A tick moves the window by whole widths and leaves it covering now. */
  lemma WindowTick(b: Binding, p: Policy, limit: int, now: int, decay: Decay) returns (k: nat)
    requires p.algorithm.FixedWindow? && p.windowSec > 0 && b.windowStart <= now
    ensures var t := Tick(b, p, limit, now, decay);
      && t.windowStart == b.windowStart + k * Width(p)
      && t.windowStart <= now < t.windowStart + Width(p)
      && t.used == (if k == 0 then b.used else 0)
  {
    var elapsed := now - b.windowStart;
    if elapsed >= Width(p) {
      var sec := elapsed / SECOND;
      k := sec / p.windowSec;
      WholeWindows(sec, p.windowSec);
      assert k * p.windowSec * SECOND == k * Width(p) by {
        Regroup(k, p.windowSec, SECOND);
      }
      ScaleInt(k * p.windowSec, sec, SECOND);
      ScaleInt(sec + 1, k * p.windowSec + p.windowSec, SECOND);
      DistributeInt(k * p.windowSec, p.windowSec, SECOND);
    } else {
      k := 0;
    }
  }

  lemma WholeWindows(sec: int, w: int)
    requires w > 0 && sec >= w
    ensures var k := sec / w; k >= 1 && k * w <= sec < k * w + w
  {
  }

  lemma ScaleInt(a: int, b: int, c: int)
    requires a <= b && c >= 0
    ensures a * c <= b * c
  {
  }

  lemma DistributeInt(a: int, b: int, c: int)
    ensures (a + b) * c == a * c + b * c
  {
  }

  /** One event: the window moves by whole widths, or not at all on a cut; what
      is granted in the new window is used up or comes back. */
  lemma WindowStep(b: Binding, p: Policy, limit: int, e: Event, decay: Decay) returns (k: nat)
    requires p.algorithm.FixedWindow? && p.windowSec > 0
    requires 0 <= b.used <= limit && b.windowStart <= e.now
    ensures var b' := Apply(b, p, limit, e, decay);
      && b'.windowStart == b.windowStart + k * Width(p) && b'.windowStart <= e.now
      && (e.action.Cut? ==> k == 0) && (!e.action.Cut? ==> e.now < b'.windowStart + Width(p))
      && 0 <= b'.used <= limit
      && GrantOf(b, p, limit, e, decay) + (if k == 0 then b.used else 0) <= b'.used + ReturnOf(e)
  {
    if e.action.Cut? {
      k := 0;
    } else {
      k := WindowTick(b, p, limit, e.now, decay);
      hide Tick;
    }
  }

  /** All events before the deadline d. */
  predicate Before(events: seq<Event>, d: int)
  {
    forall e :: e in events ==> e.now < d
  }

  /** Until a deadline at most two widths after the window's start: what is
      left of this window, one more window if it starts in time, and returns. */
  lemma {:induction false} WindowBoundUntil(b: Binding, p: Policy, limit: int, events: seq<Event>, d: int, from: int,
                                            decay: Decay)
    requires p.algorithm.FixedWindow? && p.windowSec > 0
    requires 0 <= b.used <= limit && b.windowStart <= from && Monotone(from, events) && Before(events, d)
    requires d <= b.windowStart + 2 * Width(p)
    ensures GrantedOver(b, p, limit, events, decay) <=
      limit - b.used + (if d > b.windowStart + Width(p) then limit else 0) + ReturnedOver(events)
    decreases |events|
  {
    if events != [] {
      var e, rest := events[0], events[1..];
      assert e in events && forall x :: x in rest ==> x in events;
      var k := WindowStep(b, p, limit, e, decay);
      if k >= 2 {
        ScaleInt(2, k, Width(p));
      }
      assert k <= 1;
      WindowBoundUntil(Apply(b, p, limit, e, decay), p, limit, rest, d, e.now, decay);
    }
  }

  /** Any half-open interval as long as the window sees at most twice the limit
      granted, plus what comes back in it. */
  lemma {:induction false} WindowRunBound(b: Binding, p: Policy, limit: int, events: seq<Event>, start: int,
                                          decay: Decay)
    requires p.algorithm.FixedWindow? && p.windowSec > 0
    requires 0 <= b.used <= limit && Monotone(b.windowStart, events)
    requires forall e :: e in events ==> start <= e.now < start + Width(p)
    ensures GrantedOver(b, p, limit, events, decay) <= 2 * limit + ReturnedOver(events)
    decreases |events|
  {
    if events != [] {
      var e, rest := events[0], events[1..];
      assert e in events && forall x :: x in rest ==> x in events;
      var k := WindowStep(b, p, limit, e, decay);
      var b' := Apply(b, p, limit, e, decay);
      MonotoneEarlier(b'.windowStart, e.now, rest);
      if e.action.Cut? {
        WindowRunBound(b', p, limit, rest, start, decay);
      } else {
        WindowBoundUntil(b', p, limit, rest, start + Width(p), e.now, decay);
      }
    }
  }

  /** The binding after a list of events. */
  function After(b: Binding, p: Policy, limit: int, events: seq<Event>, decay: Decay): Binding
    requires p.algorithm.FixedWindow? ==> p.windowSec > 0
    decreases |events|
  {
    if events == [] then b else After(Apply(b, p, limit, events[0], decay), p, limit, events[1..], decay)
  }
}
