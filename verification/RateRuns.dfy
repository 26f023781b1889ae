/** The grant bounds over the runs of the limiter. */
module RateRuns {
  import opened RateState
  import opened RateInvariant
  import opened RateReservations
  import opened RateBounds
  import opened RateSharp
  import opened RateStamps
  import opened RateEvents

  // --------------------------------------------------- what a run does to a caller

  ghost function RunGranted(s: State, clock: int, ops: seq<(Op, int)>, decay: Decay, c: string): int
    requires LegalRun(s, clock, ops, decay)
    decreases |ops|
  {
    if ops == [] then 0
    else GrantedBy(s, ops[0].0, ops[0].1, decay, c) +
         RunGranted(Step(s, ops[0].0, ops[0].1, decay), ops[0].1, ops[1..], decay, c)
  }

  ghost function RunReturned(ops: seq<(Op, int)>, c: string): int
  {
    if ops == [] then 0 else ReturnedBy(ops[0].0, c) + RunReturned(ops[1..], c)
  }

  ghost function RunCut(s: State, clock: int, ops: seq<(Op, int)>, decay: Decay, c: string): int
    requires LegalRun(s, clock, ops, decay)
    decreases |ops|
  {
    if ops == [] then 0
    else CutBy(s, ops[0].0, ops[0].1, c) +
         RunCut(Step(s, ops[0].0, ops[0].1, decay), ops[0].1, ops[1..], decay, c)
  }

  /** The effective limit of c is the same before and after every operation. */
  ghost predicate LimitStays(s: State, clock: int, ops: seq<(Op, int)>, decay: Decay, c: string, limit: int)
    requires LegalRun(s, clock, ops, decay)
    decreases |ops|
  {
    LimitIs(s, c, limit) &&
    (ops == [] || LimitStays(Step(s, ops[0].0, ops[0].1, decay), ops[0].1, ops[1..], decay, c, limit))
  }

  // -------------------------------------------------------------- projection

  /** A run seen from caller c. */
  ghost function RunEvents(s: State, clock: int, ops: seq<(Op, int)>, decay: Decay, c: string): seq<Event>
    requires LegalRun(s, clock, ops, decay)
    decreases |ops|
  {
    if ops == [] then []
    else EventsOf(s, ops[0].0, ops[0].1, decay, c) +
         RunEvents(Step(s, ops[0].0, ops[0].1, decay), ops[0].1, ops[1..], decay, c)
  }

  /** What one operation adds to the sums and the events of a run. */
  lemma RunAdds(s: State, clock: int, ops: seq<(Op, int)>, decay: Decay, t: State, c: string, granted: int, cut: int)
    requires ops != [] && LegalRun(s, clock, ops, decay) && LegalRun(t, ops[0].1, ops[1..], decay)
    requires t == Step(s, ops[0].0, ops[0].1, decay)
    requires granted == GrantedBy(s, ops[0].0, ops[0].1, decay, c) && cut == CutBy(s, ops[0].0, ops[0].1, c)
    ensures RunGranted(s, clock, ops, decay, c) == granted + RunGranted(t, ops[0].1, ops[1..], decay, c)
    ensures RunCut(s, clock, ops, decay, c) == cut + RunCut(t, ops[0].1, ops[1..], decay, c)
    ensures RunEvents(s, clock, ops, decay, c) ==
            EventsOf(s, ops[0].0, ops[0].1, decay, c) + RunEvents(t, ops[0].1, ops[1..], decay, c)
    ensures forall limit :: LimitIs(s, c, limit) && LimitStays(t, ops[0].1, ops[1..], decay, c, limit) ==>
      LimitStays(s, clock, ops, decay, c, limit)
  {
    hide Step;
    hide GrantedBy;
    hide CutBy;
    hide EventsOf;
    hide LimitIs;
  }

  /** The run is told by its events: binding, grants, and what comes back. */
  ghost predicate RunTold(s: State, clock: int, ops: seq<(Op, int)>, decay: Decay, c: string)
    requires LegalRun(s, clock, ops, decay)
  {
    && WellFormed(s) && Known(s, c)
    && var t := Run(s, clock, ops, decay).0;
       var p, limit, events := PolicyOf(s, c), EffectiveLimit(s, s.bindings[c]), RunEvents(s, clock, ops, decay, c);
    && SamePolicy(s, t, c) && SameMeter(t.bindings[c], After(s.bindings[c], p, limit, events, decay))
    && RunGranted(s, clock, ops, decay, c) == GrantedOver(s.bindings[c], p, limit, events, decay)
    && RunReturned(ops, c) + RunCut(s, clock, ops, decay, c) == ReturnedOver(events)
    && Monotone(clock, events) && (forall e :: e in events ==> e.now <= Run(s, clock, ops, decay).1)
    && (ops != [] ==> forall e :: e in events ==> ops[0].1 <= e.now)
  }

  /** A step's events followed by those of the rest of the run. */
  lemma RunTurn(s: State, clock: int, ops: seq<(Op, int)>, decay: Decay, c: string)
    requires ops != [] && LegalRun(s, clock, ops, decay) && Known(s, c)
    requires var (op, now) := ops[0];
      var t := Step(s, op, now, decay);
      Explained(s, t, op, now, decay, c) && RunTold(t, now, ops[1..], decay, c)
    ensures RunTold(s, clock, ops, decay, c)
  {
    var (op, now) := ops[0];
    var t := Step(s, op, now, decay);
    var p, limit := PolicyOf(s, c), EffectiveLimit(s, s.bindings[c]);
    var e, f := EventsOf(s, op, now, decay, c), RunEvents(t, now, ops[1..], decay, c);
    var u, end := Run(t, now, ops[1..], decay).0, Run(t, now, ops[1..], decay).1;
    RunLater(t, now, ops[1..], decay);
    hide EventsOf;
    hide GrantedBy;
    hide CutBy;
    hide EffectiveLimit;
    hide Step;
    hide Tick;
    AfterConcat(s.bindings[c], p, limit, e, f, decay);
    AfterMeter(t.bindings[c], After(s.bindings[c], p, limit, e, decay), p, limit, f, decay);
    AllAt(e, f, now, clock);
    TermsTrans(s, t, u, c);
  }

  lemma {:induction false} RunLater(s: State, clock: int, ops: seq<(Op, int)>, decay: Decay)
    requires LegalRun(s, clock, ops, decay)
    ensures clock <= Run(s, clock, ops, decay).1
    decreases |ops|
  {
    if ops != [] {
      RunLater(Step(s, ops[0].0, ops[0].1, decay), ops[0].1, ops[1..], decay);
    }
  }

  /** Events at one instant in front of later ones. */
  lemma {:induction false} AllAt(e: seq<Event>, f: seq<Event>, now: int, clock: int)
    requires clock <= now && (forall x :: x in e ==> x.now == now) && Monotone(now, f)
    ensures Monotone(clock, e + f)
    decreases |e|
  {
    if e == [] {
      assert e + f == f;
      MonotoneEarlier(clock, now, f);
    } else {
      assert e[0] in e && (e + f)[1..] == e[1..] + f && forall x :: x in e[1..] ==> x in e;
      AllAt(e[1..], f, now, now);
    }
  }

  lemma {:induction false} RunIsTold(s: State, clock: int, ops: seq<(Op, int)>, decay: Decay, c: string, limit: int)
    requires Ok(s, clock) && LegalRun(s, clock, ops, decay) && LimitStays(s, clock, ops, decay, c, limit)
    ensures RunTold(s, clock, ops, decay, c)
    decreases |ops|
  {
    KnownByOk(s, c, clock);
    if ops != [] {
      var (op, now) := ops[0];
      var t := Step(s, op, now, decay);
      StepOk(s, op, now, decay, clock);
      hide Ok;
      hide Legal;
      hide EffectiveLimit;
      StepExplained(s, op, now, decay, c, clock);
      hide Explained;
      hide RunTold;
      RunIsTold(t, now, ops[1..], decay, c, limit);
      RunTurn(s, clock, ops, decay, c);
    }
  }

  // ---------------------------------------------------------------- theorems

  /** All events between two instants. */
  predicate Within(events: seq<Event>, start: int, end: int)
  {
    forall e :: e in events ==> start <= e.now <= end
  }

  /** A run in terms of its events. */
  lemma RunOutline(s: State, clock: int, ops: seq<(Op, int)>, decay: Decay, c: string, limit: int)
    requires Ok(s, clock) && Stamped(s, clock) && LegalRun(s, clock, ops, decay)
    requires LimitStays(s, clock, ops, decay, c, limit) && Known(s, c)
    ensures var b, p, events := s.bindings[c], PolicyOf(s, c), RunEvents(s, clock, ops, decay, c);
      && (p.algorithm.FixedWindow? ==> p.windowSec > 0 && b.windowStart <= clock)
      && (p.algorithm.TokenBucket? ==> b.lastRefill <= clock) && 0 <= b.used <= limit
      && RunGranted(s, clock, ops, decay, c) == GrantedOver(b, p, limit, events, decay)
      && RunReturned(ops, c) + RunCut(s, clock, ops, decay, c) == ReturnedOver(events)
      && Monotone(clock, events)
      && (ops == [] ==> events == [])
      && (ops != [] ==> clock <= ops[0].1 <= Run(s, clock, ops, decay).1 &&
                        Within(events, ops[0].1, Run(s, clock, ops, decay).1))
  {
    RunIsTold(s, clock, ops, decay, c, limit);
    KnownByOk(s, c, clock);
    assert StampOk(s, s.bindings[c], clock);
    if ops != [] {
      RunLater(Step(s, ops[0].0, ops[0].1, decay), ops[0].1, ops[1..], decay);
    }
    hide Ok;
    hide Tick;
    hide Step;
    hide EffectiveLimit;
    hide RunGranted;
    hide RunCut;
  }

  lemma {:induction false} LastIn(events: seq<Event>)
    requires events != []
    ensures exists e :: e in events && e.now == Last(events)
    decreases |events|
  {
    if |events| == 1 {
      assert events[0] in events && events[1..] == [];
    } else {
      LastIn(events[1..]);
      var e :| e in events[1..] && e.now == Last(events[1..]);
      assert e in events;
    }
  }

  /** The first and the last event of a span. */
  lemma SpanEnds(events: seq<Event>, clock: int, start: int, end: int)
    requires events != [] && Monotone(clock, events) && Within(events, start, end)
    ensures start <= events[0].now <= Last(events) <= end
  {
    LastIn(events);
    assert events[0] in events;
    LastTimeIsLater(events[0].now, events[1..]);
  }

  /** The bucket's bound over events within a span of time. */
  lemma BucketWithin(b: Binding, p: Policy, limit: int, events: seq<Event>, clock: int, start: int, end: int,
                     decay: Decay)
    requires p.algorithm.TokenBucket? && p.refillRate >= 0.0
    requires 0 <= b.used <= limit && b.lastRefill <= clock && start <= end
    requires Monotone(clock, events) && Within(events, start, end)
    ensures GrantedOver(b, p, limit, events, decay) as real <=
      (limit + ReturnedOver(events)) as real + Allowance(p, Early(start), end)
  {
    if events == [] {
      AllowanceGrows(p, Early(start), Early(start), end);
    } else {
      MonotoneEarlier(b.lastRefill, clock, events);
      BucketRunBound(b, p, limit, events, decay);
      SpanEnds(events, clock, start, end);
      AllowanceInside(p, Early(start), Early(events[0].now), Last(events), end);
    }
  }

  /** The allowance of a span covers that of a span inside it. */
  lemma AllowanceInside(p: Policy, start: int, a: int, b: int, end: int)
    requires p.refillRate >= 0.0 && start <= a <= b <= end
    ensures Allowance(p, a, b) <= Allowance(p, start, end)
  {
    AllowanceGrows(p, start, a, b);
    AllowanceAdds(p, start, b, end);
    AllowanceGrows(p, b, b, end);
  }

  lemma SharpWithin(b: Binding, p: Policy, limit: int, events: seq<Event>, clock: int, from: int, start: int, end: int,
                    decay: Decay)
    requires p.algorithm.TokenBucket? && p.refillRate >= 0.0
    requires 0 <= b.used <= limit && b.lastRefill <= clock <= from <= start <= end && SharpFrom(b, p, limit, from)
    requires Monotone(clock, events) && Within(events, start, end)
    ensures GrantedOver(b, p, limit, events, decay) as real <=
      (limit + ReturnedOver(events)) as real + Allowance(p, from, end)
  {
    if events == [] {
      AllowanceGrows(p, from, from, end);
    } else {
      SpanEnds(events, clock, start, end);
      hide SharpFrom;
      SharpBoundHolds(b, p, limit, events, from, decay);
      AllowanceInside(p, from, from, Last(events), end);
    }
  }

  /** Over any run in which a caller's effective limit L is the same before and
      after every operation, the tokens a bucket grants it (to requests and from
      the queue) are at most L + 10 * RefillRate * (T + 1 ms) plus what it returns
      plus what reservation ticks cut off its used tokens, T being the time from
      the first operation to the last. */
  lemma BucketRuns(s: State, clock: int, ops: seq<(Op, int)>, decay: Decay, c: string, limit: int)
    requires Ok(s, clock) && Stamped(s, clock) && LegalRun(s, clock, ops, decay) && ops != []
    requires LimitStays(s, clock, ops, decay, c, limit) && Known(s, c)
    requires PolicyOf(s, c).algorithm.TokenBucket? && PolicyOf(s, c).refillRate >= 0.0
    ensures RunGranted(s, clock, ops, decay, c) as real <=
      (limit + RunReturned(ops, c) + RunCut(s, clock, ops, decay, c)) as real
      + Allowance(PolicyOf(s, c), Early(ops[0].1), Run(s, clock, ops, decay).1)
  {
    var b, p, events := s.bindings[c], PolicyOf(s, c), RunEvents(s, clock, ops, decay, c);
    var start, end := ops[0].1, Run(s, clock, ops, decay).1;
    hide *;
    RunOutline(s, clock, ops, decay, c, limit);
    BucketWithin(b, p, limit, events, clock, start, end, decay);
  }

  /** The same counted from an instant `from` on, without the millisecond. */
  ghost predicate SharpRun(s: State, clock: int, ops: seq<(Op, int)>, decay: Decay, c: string, limit: int, from: int)
    requires LegalRun(s, clock, ops, decay) && Known(s, c)
  {
    RunGranted(s, clock, ops, decay, c) as real <=
    (limit + RunReturned(ops, c) + RunCut(s, clock, ops, decay, c)) as real
    + Allowance(PolicyOf(s, c), from, Run(s, clock, ops, decay).1)
  }

  lemma BucketRunsSharp(s: State, clock: int, ops: seq<(Op, int)>, decay: Decay, c: string, limit: int, from: int)
    requires Ok(s, clock) && Stamped(s, clock) && LegalRun(s, clock, ops, decay) && ops != []
    requires LimitStays(s, clock, ops, decay, c, limit) && Known(s, c)
    requires PolicyOf(s, c).algorithm.TokenBucket? && PolicyOf(s, c).refillRate >= 0.0
    requires clock <= from <= ops[0].1 && SharpFrom(s.bindings[c], PolicyOf(s, c), limit, from)
    ensures SharpRun(s, clock, ops, decay, c, limit, from)
  {
    assert c in s.bindings;
    hide *;
    RunOutline(s, clock, ops, decay, c, limit);
    SharpWithin(s.bindings[c], PolicyOf(s, c), limit, RunEvents(s, clock, ops, decay, c), clock, from, ops[0].1,
                Run(s, clock, ops, decay).1, decay);
  }

  /** A request of c that is refused or granted at once. */
  function Claim(c: string, tokens: int, now: int): (Op, int)
  {
    (DoRequest(c, tokens, false, 0), now)
  }

  lemma ClaimStep(s: State, clock: int, c: string, limit: int, tokens: nat, now: int, decay: Decay)
    requires Ok(s, clock) && Known(s, c) && LimitIs(s, c, limit) && clock <= now
    ensures var op := Claim(c, tokens, now).0; var t := Step(s, op, now, decay);
      && WellFormed(s) && Legal(s, op) && Ok(t, now) && Known(t, c) && LimitIs(t, c, limit)
      && EventsOf(s, op, now, decay, c) == [Event(now, Ask(tokens))] && CutBy(s, op, now, c) == 0
  {
    StepOk(s, Claim(c, tokens, now).0, now, decay, clock);
    RequestTerms(s, c, tokens, false, 0, now, decay, c);
    hide Request;
    hide EffectiveLimit;
  }

  /** A run that keeps c's limit, in which nothing comes back, with these events. */
  ghost predicate ClaimRun(s: State, clock: int, ops: seq<(Op, int)>, decay: Decay, c: string, limit: int,
                           events: seq<Event>, end: int)
  {
    && LegalRun(s, clock, ops, decay) && LimitStays(s, clock, ops, decay, c, limit)
    && RunEvents(s, clock, ops, decay, c) == events && Run(s, clock, ops, decay).1 == end
    && RunReturned(ops, c) == 0 && RunCut(s, clock, ops, decay, c) == 0
  }

  lemma ClaimFirst(s: State, clock: int, ops: seq<(Op, int)>, decay: Decay, c: string, limit: int, tokens: nat,
                   events: seq<Event>, end: int)
    requires Ok(s, clock) && Known(s, c) && LimitIs(s, c, limit)
    requires ops != [] && clock <= ops[0].1 && ops[0] == Claim(c, tokens, ops[0].1)
    requires ClaimRun(Step(s, ops[0].0, ops[0].1, decay), ops[0].1, ops[1..], decay, c, limit, events, end)
    ensures ClaimRun(s, clock, ops, decay, c, limit, [Event(ops[0].1, Ask(tokens))] + events, end)
  {
    var (op, now) := ops[0];
    var t := Step(s, op, now, decay);
    ClaimStep(s, clock, c, limit, tokens, now, decay);
    assert ReturnedBy(op, c) == 0;
    hide Ok;
    hide Step;
    hide Legal;
    hide EventsOf;
    hide GrantedBy;
    hide CutBy;
    hide LimitIs;
    RunOn(s, clock, ops, decay, t);
    RunAdds(s, clock, ops, decay, t, c, GrantedBy(s, op, now, decay, c), 0);
  }

  lemma ClaimNone(s: State, clock: int, c: string, limit: int, decay: Decay)
    requires LimitIs(s, c, limit)
    ensures ClaimRun(s, clock, [], decay, c, limit, [], clock)
  {
  }

  lemma OneClaim(s: State, clock: int, c: string, limit: int, tokens: nat, now: int, decay: Decay)
    requires Ok(s, clock) && Known(s, c) && LimitIs(s, c, limit) && clock <= now
    ensures ClaimRun(s, clock, [Claim(c, tokens, now)], decay, c, limit, [Event(now, Ask(tokens))], now)
  {
    var ops := [Claim(c, tokens, now)];
    assert ops[1..] == [] && [Event(now, Ask(tokens))] + [] == [Event(now, Ask(tokens))];
    ClaimStep(s, clock, c, limit, tokens, now, decay);
    hide *;
    ClaimNone(Step(s, ops[0].0, now, decay), now, c, limit, decay);
    ClaimFirst(s, clock, ops, decay, c, limit, tokens, [], now);
  }

  lemma TwoClaims(s: State, clock: int, c: string, limit: int, m: nat, from: int, n: nat, at: int, decay: Decay)
    requires Ok(s, clock) && Known(s, c) && LimitIs(s, c, limit) && clock <= from <= at
    ensures ClaimRun(s, clock, [Claim(c, m, from), Claim(c, n, at)], decay, c, limit,
                     [Event(from, Ask(m)), Event(at, Ask(n))], at)
  {
    var ops := [Claim(c, m, from), Claim(c, n, at)];
    assert ops[1..] == [Claim(c, n, at)];
    assert [Event(from, Ask(m))] + [Event(at, Ask(n))] == [Event(from, Ask(m)), Event(at, Ask(n))];
    ClaimStep(s, clock, c, limit, m, from, decay);
    hide *;
    OneClaim(Step(s, ops[0].0, from, decay), from, c, limit, n, at, decay);
    ClaimFirst(s, clock, ops, decay, c, limit, m, [Event(at, Ask(n))], at);
  }

  /** A run from `from` on that keeps c's limit. */
  ghost predicate SteadyRun(s: State, clock: int, ops: seq<(Op, int)>, decay: Decay, c: string, limit: int, from: int)
  {
    LegalRun(s, clock, ops, decay) && ops != [] && from <= ops[0].1 && LimitStays(s, clock, ops, decay, c, limit)
  }

  /** Exactly when the bound without the millisecond holds over every run that
      keeps c's limit and starts at `from` or later; where it fails, two requests
      break it. */
  lemma SharpRunsIff(s: State, clock: int, decay: Decay, c: string, limit: int, from: int)
    requires Ok(s, clock) && Stamped(s, clock) && Known(s, c) && LimitIs(s, c, limit) && clock <= from
    requires PolicyOf(s, c).algorithm.TokenBucket? && PolicyOf(s, c).refillRate >= 0.0
    ensures SharpFrom(s.bindings[c], PolicyOf(s, c), limit, from) <==>
      forall ops :: SteadyRun(s, clock, ops, decay, c, limit, from) ==> SharpRun(s, clock, ops, decay, c, limit, from)
  {
    if SharpFrom(s.bindings[c], PolicyOf(s, c), limit, from) {
      forall ops | SteadyRun(s, clock, ops, decay, c, limit, from)
        ensures SharpRun(s, clock, ops, decay, c, limit, from)
      {
        BucketRunsSharp(s, clock, ops, decay, c, limit, from);
      }
    } else {
      var ops := SharpRunFails(s, clock, decay, c, limit, from);
    }
  }

  lemma SharpRunFails(s: State, clock: int, decay: Decay, c: string, limit: int, from: int)
    returns (ops: seq<(Op, int)>)
    requires Ok(s, clock) && Stamped(s, clock) && Known(s, c) && LimitIs(s, c, limit) && clock <= from
    requires PolicyOf(s, c).algorithm.TokenBucket? && PolicyOf(s, c).refillRate >= 0.0
    requires !SharpFrom(s.bindings[c], PolicyOf(s, c), limit, from)
    ensures |ops| == 2 && ops[0].0.DoRequest? && ops[1].0.DoRequest?
    ensures SteadyRun(s, clock, ops, decay, c, limit, from) && !SharpRun(s, clock, ops, decay, c, limit, from)
  {
    var b, p := s.bindings[c], PolicyOf(s, c);
    KnownByOk(s, c, clock);
    assert StampOk(s, b, clock);
    var k := Uncovered(b, p, limit, from);
    var freed, at := FreedAt(p, limit, k), b.lastRefill + k;
    GreedyGrants(b, p, limit, from, k, decay);
    assert Greedy(b, p, limit, from, k) == [Event(from, Ask(limit - b.used)), Event(at, Ask(freed))];
    ops := [Claim(c, limit - b.used, from), Claim(c, freed, at)];
    hide *;
    TwoClaims(s, clock, c, limit, limit - b.used, from, freed, at, decay);
    ClaimsBreak(s, clock, ops, decay, c, limit, from, Greedy(b, p, limit, from, k), at, freed);
  }

  lemma ClaimsBreak(s: State, clock: int, ops: seq<(Op, int)>, decay: Decay, c: string, limit: int, from: int,
                    events: seq<Event>, at: int, freed: int)
    requires Ok(s, clock) && Stamped(s, clock) && Known(s, c)
    requires ops != [] && ops[0].1 == from && ClaimRun(s, clock, ops, decay, c, limit, events, at)
    requires GrantedOver(s.bindings[c], PolicyOf(s, c), limit, events, decay) == limit - s.bindings[c].used + freed
    requires freed as real > s.bindings[c].used as real + Allowance(PolicyOf(s, c), from, at)
    ensures SteadyRun(s, clock, ops, decay, c, limit, from) && !SharpRun(s, clock, ops, decay, c, limit, from)
  {
    RunOutline(s, clock, ops, decay, c, limit);
    hide Ok;
    hide LegalRun;
    hide LimitStays;
    hide GrantedOver;
    hide Allowance;
    hide EffectiveLimit;
    hide Run;
    hide RunGranted;
    hide RunCut;
    hide RunEvents;
  }

  lemma InsideWindow(events: seq<Event>, first: int, last: int, start: int, width: int)
    requires Within(events, first, last) && start <= first && last < start + width
    ensures forall e :: e in events ==> start <= e.now < start + width
  {
  }

  /** Over any run inside a half-open interval as long as its window, a caller
      with a constant effective limit L is granted at most 2L plus what it
      returns plus what reservation ticks cut off. */
  lemma WindowRuns(s: State, clock: int, ops: seq<(Op, int)>, decay: Decay, c: string, limit: int, start: int)
    requires Ok(s, clock) && Stamped(s, clock) && LegalRun(s, clock, ops, decay)
    requires LimitStays(s, clock, ops, decay, c, limit) && Known(s, c)
    requires PolicyOf(s, c).algorithm.FixedWindow?
    requires ops != [] ==> start <= ops[0].1 && Run(s, clock, ops, decay).1 < start + Width(PolicyOf(s, c))
    ensures RunGranted(s, clock, ops, decay, c) <=
      2 * limit + RunReturned(ops, c) + RunCut(s, clock, ops, decay, c)
  {
    var b, p, events := s.bindings[c], PolicyOf(s, c), RunEvents(s, clock, ops, decay, c);
    hide *;
    RunOutline(s, clock, ops, decay, c, limit);
    if ops != [] {
      InsideWindow(events, ops[0].1, Run(s, clock, ops, decay).1, start, Width(p));
    }
    MonotoneEarlier(b.windowStart, clock, events);
    WindowRunBound(b, p, limit, events, start, decay);
  }
}
