/** When a token bucket keeps its bound without the extra millisecond: a tick
    sooner than that after the last refill leaves the old refill stamp, so what
    flowed in before the span is freed inside it. */
module RateSharp {
  import opened Basics
  import opened RateState
  import opened RateBounds

  /** The bound without the millisecond. */
  ghost predicate SharpBound(b: Binding, p: Policy, limit: int, events: seq<Event>, from: int, decay: Decay)
    requires events != [] && p.algorithm.TokenBucket?
  {
    GrantedOver(b, p, limit, events, decay) as real <=
      limit as real + ReturnedOver(events) as real + Allowance(p, from, Last(events))
  }

  function Ceiling(x: real): int
  {
    -((-x).Floor)
  }

  /** What a tick k after the last refill frees when all of the limit is used. */
  function FreedAt(p: Policy, limit: int, k: int): int
  {
    if Inflow(p, k) < 0.1 then 0 else Min(limit, Ceiling(Inflow(p, k)))
  }

  /** No tick that stamps the refill time, k after the last refill, frees more
      than the credit and the allowance since `from`. */
  ghost predicate Covered(p: Policy, limit: int, lastRefill: int, from: int, credit: int)
  {
    forall k :: k >= MILLISECOND ==>
      FreedAt(p, limit, k) as real <= credit as real + Allowance(p, from, lastRefill + k)
  }

  /** The next tick stamps the refill time, or the used tokens cover what the
      first one that does can free. */
  ghost predicate SharpFrom(b: Binding, p: Policy, limit: int, from: int)
  {
    from - b.lastRefill >= MILLISECOND || Covered(p, limit, b.lastRefill, from, b.used)
  }

  lemma FloorShift(n: int, x: real)
    ensures (n as real - x).Floor == n - Ceiling(x)
  {
  }

  /** A tick that stamps the refill time frees at most FreedAt, and exactly that
      when all of the limit is used. */
  lemma TickFrees(b: Binding, p: Policy, limit: int, now: int, decay: Decay)
    requires p.algorithm.TokenBucket? && p.refillRate >= 0.0
    requires 0 <= b.used <= limit && now - b.lastRefill >= MILLISECOND
    ensures var t := Tick(b, p, limit, now, decay); var freed := FreedAt(p, limit, now - b.lastRefill);
      && t.lastRefill == now && 0 <= t.used <= b.used <= t.used + freed
      && (b.used == limit ==> t.used + freed == b.used)
  {
    var x := Inflow(p, now - b.lastRefill);
    FloorShift(b.used, x);
    assert limit as real - ((limit - b.used) as real + x) == b.used as real - x;
    hide Inflow;
  }

  /** From a stamp that may lie before the span: a credit that covers every
      possible first tick pays for what that tick frees. */
  lemma {:induction false} CreditBound(b: Binding, p: Policy, limit: int, events: seq<Event>, from: int, credit: nat,
                                       now: int, decay: Decay)
    requires p.algorithm.TokenBucket? && p.refillRate >= 0.0
    requires 0 <= b.used <= limit && b.lastRefill <= from <= now && Monotone(now, events)
    requires Covered(p, limit, b.lastRefill, from, credit)
    ensures GrantedOver(b, p, limit, events, decay) as real <=
      (limit - b.used + credit) as real + ReturnedOver(events) as real + Allowance(p, from, LastTime(now, events))
    decreases |events|
  {
    LastTimeIsLater(now, events);
    AllowanceGrows(p, from, from, LastTime(now, events));
    if events != [] {
      var e, rest := events[0], events[1..];
      var b' := Apply(b, p, limit, e, decay);
      MonotoneEarlier(b.lastRefill, now, events);
      BucketStep(b, p, limit, e, decay);
      if e.action.Cut? || e.now - b.lastRefill < MILLISECOND {
        QuietEvent(b, p, limit, e, decay);
        CreditBound(b', p, limit, rest, from, credit, e.now, decay);
      } else {
        StampingEvent(b, p, limit, e, decay);
        BucketBoundSinceRefill(b', p, limit, rest, decay);
        AllowanceAdds(p, from, e.now, LastTime(e.now, rest));
      }
    }
  }

  /** An event that leaves the refill stamp alone uses up what it grants. */
  lemma QuietEvent(b: Binding, p: Policy, limit: int, e: Event, decay: Decay)
    requires p.algorithm.TokenBucket? && 0 <= b.used <= limit && b.lastRefill <= e.now
    requires e.action.Cut? || e.now - b.lastRefill < MILLISECOND
    ensures var b' := Apply(b, p, limit, e, decay);
      && b'.lastRefill == b.lastRefill && 0 <= b'.used <= limit
      && GrantOf(b, p, limit, e, decay) + b.used <= b'.used + ReturnOf(e)
  {
  }

  lemma StampingEvent(b: Binding, p: Policy, limit: int, e: Event, decay: Decay)
    requires p.algorithm.TokenBucket? && p.refillRate >= 0.0
    requires 0 <= b.used <= limit && !e.action.Cut? && e.now - b.lastRefill >= MILLISECOND
    ensures var b' := Apply(b, p, limit, e, decay);
      && b'.lastRefill == e.now && 0 <= b'.used <= limit
      && GrantOf(b, p, limit, e, decay) + b.used <= b'.used + ReturnOf(e) + FreedAt(p, limit, e.now - b.lastRefill)
  {
    TickFrees(b, p, limit, e.now, decay);
    hide Tick;
    hide FreedAt;
  }

  lemma SharpBoundHolds(b: Binding, p: Policy, limit: int, events: seq<Event>, from: int, decay: Decay)
    requires p.algorithm.TokenBucket? && p.refillRate >= 0.0
    requires 0 <= b.used <= limit && events != [] && b.lastRefill <= from && Monotone(from, events)
    requires SharpFrom(b, p, limit, from)
    ensures SharpBound(b, p, limit, events, from, decay)
  {
    if Covered(p, limit, b.lastRefill, from, b.used) {
      CreditBound(b, p, limit, events, from, b.used, from, decay);
    } else {
      LateStart(b, p, limit, events, from, decay);
    }
  }

  /** From a millisecond after the last refill on, the first tick stamps the time. */
  lemma {:induction false} LateStart(b: Binding, p: Policy, limit: int, events: seq<Event>, from: int, decay: Decay)
    requires p.algorithm.TokenBucket? && p.refillRate >= 0.0
    requires 0 <= b.used <= limit && events != [] && Monotone(from, events)
    requires from - b.lastRefill >= MILLISECOND
    ensures SharpBound(b, p, limit, events, from, decay)
    decreases |events|
  {
    var e, rest := events[0], events[1..];
    LastTimeIsLater(e.now, rest);
    var b' := Apply(b, p, limit, e, decay);
    BucketStep(b, p, limit, e, decay);
    MonotoneEarlier(from, e.now, rest);
    AllowanceGrows(p, from, from, e.now);
    if e.action.Cut? && rest != [] {
      LateStart(b', p, limit, rest, from, decay);
      LastOfRest(events);
    } else if !e.action.Cut? {
      TickStamps(b, p, limit, e, decay);
      BucketBoundSinceRefill(b', p, limit, rest, decay);
      AllowanceAdds(p, from, e.now, Last(events));
    }
  }

  /** A tick at least a millisecond after the last refill stamps the time. */
  lemma TickStamps(b: Binding, p: Policy, limit: int, e: Event, decay: Decay)
    requires p.algorithm.TokenBucket? && e.now - b.lastRefill >= MILLISECOND && !e.action.Cut?
    ensures Apply(b, p, limit, e, decay).lastRefill == e.now
  {
  }

  /** Takes all that is left, and all that is freed k after the last refill. */
  function Greedy(b: Binding, p: Policy, limit: int, from: int, k: int): seq<Event>
    requires 0 <= b.used <= limit
  {
    var freed := FreedAt(p, limit, k);
    [Event(from, Ask(limit - b.used)), Event(b.lastRefill + k, Ask(if freed < 0 then 0 else freed))]
  }

  lemma TwoEvents(x: Event, y: Event)
    ensures Last([x, y]) == y.now && ReturnedOver([x, y]) == ReturnOf(x) + ReturnOf(y)
    ensures forall from :: Monotone(from, [x, y]) <==> from <= x.now <= y.now
  {
    assert [x, y][1..] == [y] && [y][1..] == [];
    assert ReturnedOver([y]) == ReturnOf(y);
    assert LastTime(x.now, [y]) == LastTime(y.now, []);
    assert Monotone(y.now, []) && (Monotone(x.now, [y]) <==> x.now <= y.now);
  }

  lemma GreedyGrants(b: Binding, p: Policy, limit: int, from: int, k: int, decay: Decay)
    requires p.algorithm.TokenBucket? && p.refillRate >= 0.0 && 0 <= b.used <= limit
    requires b.lastRefill <= from < b.lastRefill + MILLISECOND && k >= MILLISECOND
    ensures FreedAt(p, limit, k) >= 0
    ensures GrantedOver(b, p, limit, Greedy(b, p, limit, from, k), decay) == limit - b.used + FreedAt(p, limit, k)
  {
    var events := Greedy(b, p, limit, from, k);
    var full := b.(used := limit);
    assert events[1..] == [events[1]] && events[1..][1..] == [];
    assert Apply(b, p, limit, events[0], decay) == full;
    TickFrees(full, p, limit, b.lastRefill + k, decay);
    hide Tick;
    hide FreedAt;
    var after := Apply(full, p, limit, events[1], decay);
    assert GrantedOver(after, p, limit, [], decay) == 0;
    assert GrantedOver(full, p, limit, [events[1]], decay) == FreedAt(p, limit, k);
  }

  /** A tick that no credit pays for. */
  lemma Uncovered(b: Binding, p: Policy, limit: int, from: int) returns (k: int)
    requires !SharpFrom(b, p, limit, from)
    ensures k >= MILLISECOND && from < b.lastRefill + MILLISECOND
    ensures FreedAt(p, limit, k) as real > b.used as real + Allowance(p, from, b.lastRefill + k)
  {
    k :| k >= MILLISECOND && FreedAt(p, limit, k) as real > b.used as real + Allowance(p, from, b.lastRefill + k);
  }

  lemma GreedyExceeds(b: Binding, p: Policy, limit: int, from: int, k: int, decay: Decay)
    requires p.algorithm.TokenBucket? && p.refillRate >= 0.0 && 0 <= b.used <= limit
    requires b.lastRefill <= from < b.lastRefill + MILLISECOND && k >= MILLISECOND
    requires FreedAt(p, limit, k) as real > b.used as real + Allowance(p, from, b.lastRefill + k)
    ensures var events := Greedy(b, p, limit, from, k);
      Monotone(from, events) && !SharpBound(b, p, limit, events, from, decay)
  {
    GreedyGrants(b, p, limit, from, k, decay);
    TwoEvents(Event(from, Ask(limit - b.used)), Event(b.lastRefill + k, Ask(FreedAt(p, limit, k))));
    hide *;
  }

  /** Exactly when the bound without the millisecond holds for everything that
      can follow from `from` on, for every rate and every limit. */
  lemma SharpBoundIff(b: Binding, p: Policy, limit: int, from: int, decay: Decay)
    requires p.algorithm.TokenBucket? && p.refillRate >= 0.0
    requires 0 <= b.used <= limit && b.lastRefill <= from
    ensures SharpFrom(b, p, limit, from) <==>
      forall events :: events != [] && Monotone(from, events) ==> SharpBound(b, p, limit, events, from, decay)
  {
    if SharpFrom(b, p, limit, from) {
      forall events | events != [] && Monotone(from, events)
        ensures SharpBound(b, p, limit, events, from, decay)
      {
        SharpBoundHolds(b, p, limit, events, from, decay);
      }
    } else {
      var k := Uncovered(b, p, limit, from);
      GreedyExceeds(b, p, limit, from, k, decay);
      assert Greedy(b, p, limit, from, k) != [];
    }
  }

  /** Used tokens that cover ten times the refill due are enough. */
  lemma DueIsCovered(b: Binding, p: Policy, limit: int, from: int)
    requires p.refillRate >= 0.0 && 0 <= b.used && b.lastRefill <= from
    requires Allowance(p, b.lastRefill, from) <= b.used as real
    ensures Covered(p, limit, b.lastRefill, from, b.used)
  {
    forall k | k >= MILLISECOND
      ensures FreedAt(p, limit, k) as real <= b.used as real + Allowance(p, from, b.lastRefill + k)
    {
      AllowanceAdds(p, b.lastRefill, from, b.lastRefill + k);
      assert Allowance(p, b.lastRefill, b.lastRefill + k) == 10.0 * Inflow(p, k);
      FreedBelow(p, limit, k);
    }
  }

  /** A tick frees at most ten times what flowed in. */
  lemma FreedBelow(p: Policy, limit: int, k: int)
    requires p.refillRate >= 0.0 && k >= 0
    ensures FreedAt(p, limit, k) as real <= 10.0 * Inflow(p, k)
  {
    assert Inflow(p, k) >= 0.0;
  }
}
