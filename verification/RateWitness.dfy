/** Runs from the empty limiter that show where its bounds end: reservations that
    overlap between ticks, and a cut that lets a bucket grant more than its limit. */
module RateWitness {
  import opened Basics
  import opened Totals
  import opened Sweep
  import opened RateState
  import opened RateInvariant
  import opened RateReservations
  import opened RateBounds
  import opened RateEvents
  import opened RateRuns
  import opened RateSharp
  import opened RateStamps

  // ----------------------------------------------------------- one booked shift

  function Shift(from: int): Booking
  {
    Booking("p", "c", 5, from * SECOND, (from + 10) * SECOND)
  }

  /** A policy with room for a shift. */
  predicate Roomy(p: Policy)
  {
    p.maxTokens >= 5 && (p.algorithm.FixedWindow? ==> p.windowSec > 0)
  }

  /** A caller with a quota of five. */
  function FreshCaller(p: Policy): State
  {
    State(map["p" := p], map["c" := Binding("p", 5, 0, 0, 0, 0, 0, 0)], map[], 1, [])
  }

  /** It has booked the first ten seconds. */
  function FirstShift(p: Policy): State
  {
    State(map["p" := p], map["c" := Binding("p", 5, 0, 0, 0, 5, 0, 0)],
          map[1 := Reservation("p", "c", 5, 0, 10 * SECOND, Active)], 2, [])
  }

  /** From nothing to the first shift, and a second booking at `at`. */
  function Opening(p: Policy, k: Booking, at: int): seq<(Op, int)>
  {
    [(DoPolicy("p", p), 0), (DoBind("c", "p", 5), 0), (DoReserve(Shift(0), []), 0), (DoReserve(k, [1]), at)]
  }

  lemma FreshCallerOk(p: Policy)
    requires Roomy(p)
    ensures Bind(NewPolicy(EMPTY, "p", p), "c", "p", 5, 0) == FreshCaller(p) && Ok(FreshCaller(p), 0)
  {
    EmptyOk(0);
    NewPolicyOk(EMPTY, "p", p, 0);
    var s := NewPolicy(EMPTY, "p", p);
    BindNewOk(s, "c", "p", 5, 0, 0);
    hide Ok;
    assert Bind(s, "c", "p", 5, 0) == FreshCaller(p);
  }

  lemma OneLoad(i: Interval, t: int)
    requires i.tokens >= 0
    ensures ClosedLoad([i], t) == if i.startAt <= t <= i.endAt then i.tokens else 0
  {
    assert [i][1..] == [];
  }

  lemma FirstFits(p: Policy)
    requires Roomy(p)
    ensures !Conflicts(FreshCaller(p), "p", 0, 10 * SECOND, 5, [])
  {
    if Conflicts(FreshCaller(p), "p", 0, 10 * SECOND, 5, []) {
      FreshCallerOk(p);
      var t := RefusalWitness(FreshCaller(p), Shift(0), [], 0);
      OneLoad(Interval(0, 10 * SECOND, 5), t);
    }
  }

  lemma FirstShiftFits(p: Policy)
    requires Roomy(p)
    ensures Reserve(FreshCaller(p), Shift(0), 0, []) == FirstShift(p) && Ok(FirstShift(p), 0)
  {
    FirstFits(p);
    FreshCallerOk(p);
    hide Ok;
    hide Conflicts;
    ReserveOk(FreshCaller(p), Shift(0), 0, [], 0);
  }

  /** The load a second booking meets. */
  lemma SecondLoad(p: Policy, k: Booking, t: int)
    requires k.tokens >= 0
    ensures ClosedLoad([Interval(k.startAt, k.endAt, k.tokens)] + Contenders(FirstShift(p), "p", [1]), t) ==
            (if k.startAt <= t <= k.endAt then k.tokens else 0) + if 0 <= t <= 10 * SECOND then 5 else 0
  {
    assert [1][1..] == [];
    var first, second := Interval(0, 10 * SECOND, 5), Interval(k.startAt, k.endAt, k.tokens);
    assert Contenders(FirstShift(p), "p", [1]) == [first];
    OneLoad(first, t);
    assert ([second] + [first])[1..] == [first];
  }

  /** It fits a policy that has room for both or a moment when the first is over. */
  lemma SecondFits(p: Policy, k: Booking)
    requires Roomy(p) && k.policy == "p" && 0 < k.tokens <= 5 && k.startAt < k.endAt
    requires p.maxTokens >= 10 || k.startAt > 10 * SECOND
    ensures !Conflicts(FirstShift(p), "p", k.startAt, k.endAt, k.tokens, [1])
  {
    if Conflicts(FirstShift(p), "p", k.startAt, k.endAt, k.tokens, [1]) {
      FirstShiftFits(p);
      var t := RefusalWitness(FirstShift(p), k, [1], 0);
      SecondLoad(p, k, t);
    }
  }

  lemma CallerSteps(p: Policy, decay: Decay)
    requires Roomy(p)
    ensures var s := NewPolicy(EMPTY, "p", p); var op, next := DoPolicy("p", p), DoBind("c", "p", 5);
      && WellFormed(s) && WellFormed(FreshCaller(p)) && Legal(EMPTY, op) && Legal(s, next)
      && Step(EMPTY, op, 0, decay) == s && Step(s, next, 0, decay) == FreshCaller(p)
  {
    FreshCallerOk(p);
  }

  lemma BookingSteps(p: Policy, k: Booking, at: nat, decay: Decay)
    requires Roomy(p)
    ensures var s, op, next := FreshCaller(p), DoReserve(Shift(0), []), DoReserve(k, [1]);
      && WellFormed(s) && WellFormed(FirstShift(p)) && Legal(s, op) && Legal(FirstShift(p), next)
      && Step(s, op, 0, decay) == FirstShift(p)
      && Step(FirstShift(p), next, at, decay) == Reserve(FirstShift(p), k, at, [1])
  {
    FirstShiftFits(p);
    hide Reserve;
    assert (set i | i in [1]) == FirstShift(p).reservations.Keys;
  }

  lemma OpeningRun(p: Policy, k: Booking, at: nat, t: State, decay: Decay)
    requires Roomy(p) && t == Reserve(FirstShift(p), k, at, [1])
    ensures LegalRun(EMPTY, 0, Opening(p, k, at), decay) && Run(EMPTY, 0, Opening(p, k, at), decay) == (t, at)
  {
    var ops := Opening(p, k, at);
    CallerSteps(p, decay);
    BookingSteps(p, k, at, decay);
    hide Reserve;
    hide Legal;
    hide Step;
    RunOn(FirstShift(p), 0, ops[3..], decay, t);
    RunOn(FreshCaller(p), 0, ops[2..], decay, FirstShift(p));
    RunOn(NewPolicy(EMPTY, "p", p), 0, ops[1..], decay, FreshCaller(p));
    RunOn(EMPTY, 0, ops, decay, NewPolicy(EMPTY, "p", p));
  }

  /** From nothing to a caller with a quota of five. */
  function Arrival(p: Policy): seq<(Op, int)>
  {
    [(DoPolicy("p", p), 0), (DoBind("c", "p", 5), 0)]
  }

  lemma ArrivalRun(p: Policy, decay: Decay)
    requires Roomy(p)
    ensures LegalRun(EMPTY, 0, Arrival(p), decay) && Run(EMPTY, 0, Arrival(p), decay) == (FreshCaller(p), 0)
  {
    var ops := Arrival(p);
    CallerSteps(p, decay);
    hide Legal;
    hide Step;
    RunOn(NewPolicy(EMPTY, "p", p), 0, ops[1..], decay, FreshCaller(p));
    RunOn(EMPTY, 0, ops, decay, NewPolicy(EMPTY, "p", p));
  }

  // ------------------------------------------------------- a stale refill stamp

  /** A bucket of five that refills one token per second. */
  function Drip(): Policy
  {
    Policy(TokenBucket, 0, 5, 1.0)
  }

  /** Everything half a millisecond after the bind, one more at a tenth of a second. */
  function Sips(): seq<(Op, int)>
  {
    [Claim("c", 5, MILLISECOND / 2), Claim("c", 1, 100 * MILLISECOND)]
  }

  lemma FreshDrip()
    ensures var s := FreshCaller(Drip());
      Ok(s, 0) && Stamped(s, 0) && Known(s, "c") && LimitIs(s, "c", 5) && PolicyOf(s, "c") == Drip()
  {
    FreshCallerOk(Drip());
    hide Ok;
  }

  lemma DripRefill()
    ensures FreedAt(Drip(), 5, 100 * MILLISECOND) == 1
    ensures Allowance(Drip(), MILLISECOND / 2, 100 * MILLISECOND) == 0.995
  {
    assert Seconds(100 * MILLISECOND) == 0.1;
  }

  /** Six tokens within 99.5 milliseconds, from a bucket whose limit is five and
      whose allowance for that span is less than one. */
  lemma SharpRunBroken(decay: Decay)
    ensures var ops := Arrival(Drip());
      LegalRun(EMPTY, 0, ops, decay) && Run(EMPTY, 0, ops, decay) == (FreshCaller(Drip()), 0)
    ensures var s, ops := FreshCaller(Drip()), Sips();
      && SteadyRun(s, 0, ops, decay, "c", 5, MILLISECOND / 2)
      && RunGranted(s, 0, ops, decay, "c") == 6 && RunReturned(ops, "c") == 0 && RunCut(s, 0, ops, decay, "c") == 0
      && Allowance(Drip(), ops[0].1, Run(s, 0, ops, decay).1) == 0.995
  {
    ArrivalRun(Drip(), decay);
    FreshDrip();
    DripRefill();
    SipsGrant(decay);
  }

  lemma SipsGrant(decay: Decay)
    ensures var s, ops := FreshCaller(Drip()), Sips();
      && SteadyRun(s, 0, ops, decay, "c", 5, MILLISECOND / 2) && RunGranted(s, 0, ops, decay, "c") == 6
      && RunReturned(ops, "c") == 0 && RunCut(s, 0, ops, decay, "c") == 0
      && Run(s, 0, ops, decay).1 == 100 * MILLISECOND
  {
    var s := FreshCaller(Drip());
    var b := s.bindings["c"];
    FreshDrip();
    DripRefill();
    GreedyGrants(b, Drip(), 5, MILLISECOND / 2, 100 * MILLISECOND, decay);
    var events := Greedy(b, Drip(), 5, MILLISECOND / 2, 100 * MILLISECOND);
    assert events == [RateBounds.Event(MILLISECOND / 2, Ask(5)), RateBounds.Event(100 * MILLISECOND, Ask(1))];
    TwoClaims(s, 0, "c", 5, 5, MILLISECOND / 2, 1, 100 * MILLISECOND, decay);
    hide GrantedOver;
    hide Greedy;
    hide Ok;
    hide Step;
    RunOutline(s, 0, Sips(), decay, "c", 5);
  }

  // -------------------------------------------------------------- a second bind

  lemma RebindDrops(p: Policy)
    requires Roomy(p)
    ensures LedgersOk(FirstShift(p)) && !LedgersOk(Bind(FirstShift(p), "c", "p", 5, 0))
  {
    FirstShiftFits(p);
    hide EffectiveLimit;
    RebindLedgers(FirstShift(p), "c", "p", 5, 0);
    hide LedgersOk;
  }

  lemma FirstShiftRun(p: Policy, decay: Decay)
    requires Roomy(p)
    ensures var ops := Arrival(p) + [(DoReserve(Shift(0), []), 0)];
      LegalRun(EMPTY, 0, ops, decay) && Run(EMPTY, 0, ops, decay) == (FirstShift(p), 0)
  {
    var ops := Arrival(p) + [(DoReserve(Shift(0), []), 0)];
    CallerSteps(p, decay);
    BookingSteps(p, Shift(0), 0, decay);
    hide Legal;
    hide Step;
    RunOn(FreshCaller(p), 0, ops[2..], decay, FirstShift(p));
    RunOn(NewPolicy(EMPTY, "p", p), 0, ops[1..], decay, FreshCaller(p));
    RunOn(EMPTY, 0, ops, decay, NewPolicy(EMPTY, "p", p));
  }

  /** Binding a caller again while its reservation is on loses its reserved tokens. */
  lemma RebindLosesReserved(decay: Decay)
    ensures var ops := Arrival(Tight()) + [(DoReserve(Shift(0), []), 0)];
      && LegalRun(EMPTY, 0, ops, decay)
      && var s := Run(EMPTY, 0, ops, decay).0;
         LedgersOk(s) && !LedgersOk(Bind(s, "c", "p", 5, 0))
  {
    FirstShiftRun(Tight(), decay);
    RebindDrops(Tight());
    hide *;
  }

  // ---------------------------------------------------- overlap between two ticks

  /** No tokens but the reserved ones, five in all. */
  function Tight(): Policy
  {
    Policy(OtherAlgorithm, 0, 5, 0.0)
  }

  /** Between ticks the active reservations alone may exceed the limit: one that
      has run out is still marked active when the next one starts. */
  lemma ActiveOverlapsBetweenTicks(decay: Decay)
    ensures var ops := Opening(Tight(), Shift(11), 11 * SECOND);
      LegalRun(EMPTY, 0, ops, decay) &&
      var t := Run(EMPTY, 0, ops, decay).0;
      "p" in t.policies && Total(ActiveOfPolicy(t, "p")) == 10 > t.policies["p"].maxTokens
  {
    var s, k := FirstShift(Tight()), Shift(11);
    SecondFits(Tight(), k);
    hide Conflicts;
    var t := Reserve(s, k, 11 * SECOND, [1]);
    OpeningRun(Tight(), k, 11 * SECOND, t, decay);
    hide LegalRun;
    hide Run;
    assert t.reservations == s.reservations[2 := Reservation("p", "c", 5, 11 * SECOND, 21 * SECOND, Active)];
    assert ActiveOfPolicy(t, "p") == map[1 := 5][2 := 5];
    OneEntry(map[1 := 5], 1, 5);
    TotalUpdate(map[1 := 5], 2, 5);
  }

  lemma OneEntry(m: map<int, int>, id: int, v: int)
    requires m == map[id := v]
    ensures Total(m) == v
  {
    var none: map<int, int> := map[];
    assert m == none[id := v];
    TotalUpdate(none, id, v);
  }

  // ---------------------------------------------------------- a cut at a change

  /** A bucket that never refills. */
  function Pool(): Policy
  {
    Policy(TokenBucket, 0, 10, 0.0)
  }

  /** The first shift is on and the next is booked; c has used so much of its
      limit of ten. */
  function OnShift(used: int, at: int): State
  {
    State(map["p" := Pool()], map["c" := Binding("p", 5, used, 0, 0, 5, 0, at * SECOND)],
          map[1 := Reservation("p", "c", 5, 0, 10 * SECOND, Active),
              2 := Reservation("p", "c", 5, 10 * SECOND, 20 * SECOND, Pending)], 3, [])
  }

  /** The second shift is on. */
  function NextShift(used: int, at: int): State
  {
    State(map["p" := Pool()], map["c" := Binding("p", 5, used, 0, 0, 5, 0, at * SECOND)],
          map[1 := Reservation("p", "c", 5, 0, 10 * SECOND, Completed),
              2 := Reservation("p", "c", 5, 10 * SECOND, 20 * SECOND, Active)], 3, [])
  }

  function Walk(finishFirst: bool): seq<int>
  {
    if finishFirst then [1, 2] else [2, 1]
  }

  /** A request for everything, a status query as the shifts change, one more request. */
  function Spend(walk: seq<int>): seq<(Op, int)>
  {
    [(DoRequest("c", 10, false, 0), 5 * SECOND), (DoStatus("c", walk), 10 * SECOND),
     (DoRequest("c", 5, false, 0), 10 * SECOND)]
  }

  lemma SecondShiftFits()
    ensures Reserve(FirstShift(Pool()), Shift(10), 0, [1]) == OnShift(0, 0)
  {
    SecondFits(Pool(), Shift(10));
    hide Conflicts;
  }

  /** A bucket without refill only moves its stamp. */
  lemma PoolTick(b: Binding, limit: int, now: int, decay: Decay)
    requires b.lastRefill + MILLISECOND <= now
    ensures Tick(b, Pool(), limit, now, decay) == b.(lastRefill := now)
  {
    assert Inflow(Pool(), now - b.lastRefill) == 0.0;
  }

  lemma FirstRequest(decay: Decay)
    ensures Request(OnShift(0, 0), "c", 10, false, 0, 5 * SECOND, decay) == (OnShift(10, 5), Granted)
  {
    var s := OnShift(0, 0);
    PoolTick(s.bindings["c"], 10, 5 * SECOND, decay);
    hide Tick;
    assert Ticked(s, "c", 5 * SECOND, decay) == OnShift(0, 5);
    assert Charge(OnShift(0, 5), "c", 10) == OnShift(10, 5);
    assert Remaining(OnShift(0, 5), OnShift(0, 5).bindings["c"]) == 10;
  }

  /** Finishing the first shift before starting the second cuts off what is used
      above the quota; the other way round nothing is cut off. */
  lemma ChangeOfShifts(finishFirst: bool)
    ensures AdvanceAll(OnShift(10, 5), Walk(finishFirst), 10 * SECOND) ==
            NextShift(if finishFirst then 5 else 10, 5)
  {
    var s := OnShift(10, 5);
    var order := Walk(finishFirst);
    assert order[..1] == [order[0]] && order[..1][..0] == [];
    assert AdvanceAll(s, order[..1][..0], 10 * SECOND) == s;
    assert AdvanceAll(s, order[..1], 10 * SECOND) == Advance(s, order[0], 10 * SECOND);
  }

  lemma WalkLegal(finishFirst: bool)
    ensures Legal(OnShift(10, 5), DoStatus("c", Walk(finishFirst)))
  {
    assert (set k | k in Walk(finishFirst)) == OnShift(10, 5).reservations.Keys;
  }

  lemma CutAtChange(finishFirst: bool)
    ensures CutBy(OnShift(10, 5), DoStatus("c", Walk(finishFirst)), 10 * SECOND, "c") == if finishFirst then 5 else 0
  {
    ChangeOfShifts(finishFirst);
    hide AdvanceAll;
  }

  lemma NextShiftTick(used: int, decay: Decay)
    ensures Ticked(NextShift(used, 5), "c", 10 * SECOND, decay) == NextShift(used, 10)
  {
    var s := NextShift(used, 5);
    PoolTick(s.bindings["c"], EffectiveLimit(s, s.bindings["c"]), 10 * SECOND, decay);
    hide Tick;
  }

  lemma StatusAtChange(finishFirst: bool, decay: Decay)
    ensures Step(OnShift(10, 5), DoStatus("c", Walk(finishFirst)), 10 * SECOND, decay) ==
            NextShift(if finishFirst then 5 else 10, 10)
  {
    ChangeOfShifts(finishFirst);
    NextShiftTick(if finishFirst then 5 else 10, decay);
    hide Ticked;
    hide AdvanceAll;
  }

  lemma LastRequest(finishFirst: bool, decay: Decay)
    ensures Request(NextShift(if finishFirst then 5 else 10, 10), "c", 5, false, 0, 10 * SECOND, decay) ==
            (NextShift(10, 10), if finishFirst then Granted else Refused)
  {
    var s := NextShift(if finishFirst then 5 else 10, 10);
    assert Tick(s.bindings["c"], Pool(), 10, 10 * SECOND, decay) == s.bindings["c"];
    hide Tick;
    assert Ticked(s, "c", 10 * SECOND, decay) == s;
    assert finishFirst ==> Charge(s, "c", 5) == NextShift(10, 10) && Remaining(s, s.bindings["c"]) == 5;
    assert !finishFirst ==> Remaining(s, s.bindings["c"]) == 0;
  }

  /** The three operations, one by one. */
  lemma SpendSteps(finishFirst: bool, decay: Decay)
    ensures var s0, s1, s2, s3 := OnShift(0, 0), OnShift(10, 5), NextShift(if finishFirst then 5 else 10, 10),
        NextShift(10, 10);
      var ops := Spend(Walk(finishFirst));
      && LegalRun(s3, 10 * SECOND, ops[3..], decay) && LegalRun(s2, 10 * SECOND, ops[2..], decay)
      && LegalRun(s1, 5 * SECOND, ops[1..], decay) && LegalRun(s0, 0, ops, decay)
      && Step(s0, ops[0].0, ops[0].1, decay) == s1 && Step(s1, ops[1].0, ops[1].1, decay) == s2
      && Step(s2, ops[2].0, ops[2].1, decay) == s3 && Run(s0, 0, ops, decay) == (s3, 10 * SECOND)
      && GrantedBy(s0, ops[0].0, ops[0].1, decay, "c") == 10 && CutBy(s0, ops[0].0, ops[0].1, "c") == 0
      && GrantedBy(s1, ops[1].0, ops[1].1, decay, "c") == 0
      && CutBy(s1, ops[1].0, ops[1].1, "c") == (if finishFirst then 5 else 0)
      && GrantedBy(s2, ops[2].0, ops[2].1, decay, "c") == (if finishFirst then 5 else 0)
      && CutBy(s2, ops[2].0, ops[2].1, "c") == 0
  {
    FirstRequest(decay);
    WalkLegal(finishFirst);
    CutAtChange(finishFirst);
    StatusAtChange(finishFirst, decay);
    LastRequest(finishFirst, decay);
    var ops := Spend(Walk(finishFirst));
    var s1, s2 := OnShift(10, 5), NextShift(if finishFirst then 5 else 10, 10);
    hide Request;
    hide AdvanceAll;
    hide Ticked;
    RunOn(s2, 10 * SECOND, ops[2..], decay, NextShift(10, 10));
    RunOn(s1, 5 * SECOND, ops[1..], decay, s2);
    RunOn(OnShift(0, 0), 0, ops, decay, s1);
  }

  lemma LimitOfTen(used: int, at: int)
    ensures LimitIs(OnShift(used, at), "c", 10) && LimitIs(NextShift(used, at), "c", 10)
  {
  }

  lemma SpendReturns(walk: seq<int>, c: string)
    ensures RunReturned(Spend(walk), c) == 0
    ensures Allowance(Pool(), Early(Spend(walk)[0].1), 10 * SECOND) == 0.0
  {
    var ops := Spend(walk);
    assert ops[1..][1..] == ops[2..] && ops[2..][1..] == [];
    assert RunReturned(ops[2..], c) == 0 && RunReturned(ops[1..], c) == 0;
  }

  lemma OnShiftReached(decay: Decay)
    ensures var ops := Opening(Pool(), Shift(10), 0);
      LegalRun(EMPTY, 0, ops, decay) && Run(EMPTY, 0, ops, decay) == (OnShift(0, 0), 0)
  {
    SecondShiftFits();
    OpeningRun(Pool(), Shift(10), 0, OnShift(0, 0), decay);
  }

  /** From there on the limit of ten holds before and after every operation and nothing is
      returned, yet fifteen tokens are granted by a bucket that never refills, when
      the status query happens to finish the first shift before it starts the
      second; in the other order ten are granted. */
  lemma CutGrantsAgain(finishFirst: bool, decay: Decay)
    ensures var s, ops := OnShift(0, 0), Spend(Walk(finishFirst));
      && LegalRun(s, 0, ops, decay) && LimitStays(s, 0, ops, decay, "c", 10)
      && RunReturned(ops, "c") == 0 && Allowance(Pool(), Early(ops[0].1), Run(s, 0, ops, decay).1) == 0.0
      && RunGranted(s, 0, ops, decay, "c") == (if finishFirst then 15 else 10)
      && RunCut(s, 0, ops, decay, "c") == (if finishFirst then 5 else 0)
  {
    SpendSteps(finishFirst, decay);
    var ops, late := Spend(Walk(finishFirst)), if finishFirst then 5 else 10;
    assert ops[2..][1..] == ops[3..] == [] && ops[1..][1..] == ops[2..];
    LimitOfTen(0, 0);
    LimitOfTen(10, 5);
    LimitOfTen(10, 10);
    LimitOfTen(late, 10);
    SpendReturns(Walk(finishFirst), "c");
    hide Step;
    hide GrantedBy;
    hide CutBy;
    hide LimitIs;
    hide Allowance;
    RunAdds(NextShift(late, 10), 10 * SECOND, ops[2..], decay, NextShift(10, 10), "c", if finishFirst then 5 else 0, 0);
    RunAdds(OnShift(10, 5), 5 * SECOND, ops[1..], decay, NextShift(late, 10), "c", 0, if finishFirst then 5 else 0);
    RunAdds(OnShift(0, 0), 0, ops, decay, OnShift(10, 5), "c", 10, 0);
  }
}
