/** Over runs: time held is consumed, and what one period carries into the next. */
module BudgetRuns {
  import opened Basics
  import opened Totals
  import opened MapWalks
  import opened BudgetState
  import opened BudgetMetering
  import opened BudgetPenalty
  import opened BudgetEffects

  // ------------------------------------------------------ charges and holdings

  ghost function CleanRaw(s: State): map<string, int>
  {
    map l | l in s.books.clean :: RawOf(s, l)
  }

  /** The charges of this period include those of every holding that was metered
      in it without interruption. */
  ghost predicate Covered(s: State)
  {
    && (forall l :: l in s.books.clean ==> RawOf(s, l) >= 0)
    && Total(CleanRaw(s)) <= s.books.charged
  }

  lemma ChargeCovered(s: State, l: string, units: nat, last: int)
    requires Covered(s) && l in s.holdings
    ensures Covered(Charge(s, l, units, last))
  {
    var t := Charge(s, l, units, last);
    assert RawOf(t, l) == RawOf(s, l) + units;
    assert forall k :: k in s.books.clean && k != l ==> RawOf(t, k) == RawOf(s, k);
    if l in s.books.clean {
      assert CleanRaw(t) == CleanRaw(s)[l := RawOf(t, l)];
      TotalUpdate(CleanRaw(s), l, RawOf(t, l));
    } else {
      assert CleanRaw(t) == CleanRaw(s);
    }
  }

  /** Fewer holdings, or holdings with less charged, stay covered. */
  lemma FewerCovered(s: State, t: State)
    requires Covered(s) && t.books.charged == s.books.charged
    requires forall l :: l in t.books.clean ==> RawOf(t, l) == 0 || (l in s.books.clean && RawOf(t, l) == RawOf(s, l))
    ensures Covered(t)
  {
    var shared := map l | l in t.books.clean && l in s.books.clean && RawOf(t, l) == RawOf(s, l) :: RawOf(t, l);
    var extra := CleanRaw(t) - shared.Keys;
    TotalMonotone(shared, CleanRaw(s));
    ZeroesAdd(shared, CleanRaw(t));
  }

  lemma {:induction false} ZeroesAdd(m: map<string, int>, n: map<string, int>)
    requires forall k :: k in m ==> k in n && m[k] == n[k]
    requires forall k :: k in n && k !in m ==> n[k] == 0
    ensures Total(n) == Total(m)
    decreases |n|
  {
    if k :| k in n && k !in m {
      TotalRemove(n, k);
      ZeroesAdd(m, n - {k});
    } else {
      assert n == m;
    }
  }

  lemma MeterOneCovered(s: State, l: string, now: int, inArrears: bool)
    requires Covered(s)
    ensures Covered(MeterOne(s, l, now, inArrears))
  {
    hide Covered;
    if l in s.holdings && now < s.holdings[l].expiresAt {
      var h := s.holdings[l];
      var units := Floor(now - h.last);
      if inArrears {
        FewerCovered(s, Skip(s, l, now));
      } else if h.last < now && units > 0 {
        ChargeCovered(s, l, units, h.last + units * SECOND);
        hide Charge;
        var t := Charge(s, l, units, h.last + units * SECOND);
        FewerCovered(t, NoteOverdraft(t));
      }
    }
  }

  lemma {:induction false} MeterWalkCovered(s: State, order: seq<string>, now: int, inArrears: bool)
    requires Covered(s)
    ensures Covered(MeterWalk(s, order, now, inArrears))
    decreases |order|
  {
    hide Covered;
    if order != [] {
      MeterWalkCovered(s, order[..|order| - 1], now, inArrears);
      MeterOneCovered(MeterWalk(s, order[..|order| - 1], now, inArrears), order[|order| - 1], now, inArrears);
    }
  }

  lemma RestartCovered(s: State, now: int)
    ensures Covered(Restart(s, now))
  {
    assert CleanRaw(Restart(s, now)) == map[];
  }

  lemma RefreshCovered(s: State, closing: seq<string>, order: seq<string>, now: int, inArrears: bool)
    requires Covered(s) && s.config.periodSec > 0
    ensures Covered(Refresh(s, closing, order, now, inArrears))
  {
    hide Covered;
    hide Restart;
    hide Finalize;
    hide MeterWalk;
    var r := CheckReset(s, closing, now, inArrears);
    if s.periodEnd <= now {
      var k := PeriodsToAdvance(s.config.periodSec, now - s.periodEnd);
      var start := s.periodEnd + (k - 1) * (s.config.periodSec * SECOND);
      var t := Finalize(s, closing, s.periodEnd, inArrears);
      var carry := if inArrears then 0 else t.overdraft + t.penalty;
      RestartCovered(t.(periodStart := start, periodEnd := start + t.config.periodSec * SECOND,
                        carry := carry, consumed := carry, overdraft := 0, penalty := 0), now);
    }
    MeterWalkCovered(r, order, now, inArrears);
    var w := MeterWalk(r, order, now, inArrears);
    FewerCovered(w, Forget(w, ExpiredAt(r, now)));
  }

  lemma StopCovered(s: State, l: string, now: int)
    requires Covered(s)
    ensures Covered(StopHolding(s, l, now).0)
  {
    hide Covered;
    if l in s.holdings {
      var units := Ceil(now - s.holdings[l].last);
      if s.holdings[l].last < now {
        ChargeCovered(s, l, units, now);
        hide Charge;
        var t := Charge(s, l, units, now);
        FewerCovered(t, NoteOverdraft(t));
      }
      hide Charge;
      FewerCovered(Settle(s, l, now), StopHolding(s, l, now).0);
    }
  }

  lemma StepCovered(s: State, op: Op)
    requires Covered(s) && s.config.periodSec > 0
    ensures Covered(Step(s, op))
  {
    hide Covered;
    hide MeterWalk;
    hide Finalize;
    match op
    case DoRefresh(closing, order, now, inArrears) => RefreshCovered(s, closing, order, now, inArrears);
    case DoSetBudget(c, order, now, inArrears) => SetBudgetCovered(s, c, order, now, inArrears);
    case DoStop(l, now) => StopCovered(s, l, now);
    case _ => FewerCovered(s, Step(s, op));
  }

  lemma SetBudgetCovered(s: State, c: Config, order: seq<string>, now: int, inArrears: bool)
    requires Covered(s)
    ensures Covered(SetBudget(s, c, order, now, inArrears))
  {
    hide Covered;
    hide Restart;
    hide Finalize;
    if c.limit > 0 && c.periodSec > 0 {
      var cfg := if c.overdraftLimit < 0 then c.(overdraftLimit := 0) else c;
      var t := Finalize(s, order, now, inArrears);
      RestartCovered(t.(config := cfg, periodStart := now, periodEnd := now + cfg.periodSec * SECOND,
                        carry := 0, consumed := 0, overdraft := 0, penalty := 0), now);
    }
  }

  // ---------------------------------------------------------- overdraft noted

  function Excess(s: State): int
  {
    if s.consumed > s.config.limit then s.consumed - s.config.limit else 0
  }

  /** In a period whose limit and balance nobody moved the overdraft noted is what
      the balance is over the limit by, once anything was charged. */
  ghost predicate UpToDate(s: State)
  {
    && s.books.charged >= 0
    && (s.books.steady ==> s.overdraft == if s.books.charged > 0 then Excess(s) else 0)
  }

  lemma NotedCharge(s: State, l: string, units: int, last: int)
    requires UpToDate(s) && l in s.holdings && units > 0
    ensures UpToDate(NoteOverdraft(Charge(s, l, units, last)))
  {
    PenaltyAtMost(s.config, s.consumed, units);
    hide WithPenalty;
  }

  lemma MeterOneUpToDate(s: State, l: string, now: int, inArrears: bool)
    requires UpToDate(s)
    ensures UpToDate(MeterOne(s, l, now, inArrears))
  {
    hide Charge;
    if l in s.holdings && now < s.holdings[l].expiresAt && !inArrears {
      var h := s.holdings[l];
      var units := Floor(now - h.last);
      if h.last < now && units > 0 {
        NotedCharge(s, l, units, h.last + units * SECOND);
      }
    }
  }

  lemma {:induction false} MeterWalkUpToDate(s: State, order: seq<string>, now: int, inArrears: bool)
    requires UpToDate(s)
    ensures UpToDate(MeterWalk(s, order, now, inArrears))
    decreases |order|
  {
    hide UpToDate;
    if order != [] {
      MeterWalkUpToDate(s, order[..|order| - 1], now, inArrears);
      MeterOneUpToDate(MeterWalk(s, order[..|order| - 1], now, inArrears), order[|order| - 1], now, inArrears);
    }
  }

  lemma StepUpToDate(s: State, op: Op)
    requires UpToDate(s) && s.config.periodSec > 0
    ensures UpToDate(Step(s, op))
  {
    hide MeterWalk;
    hide Finalize;
    hide Charge;
    match op
    case DoRefresh(closing, order, now, inArrears) =>
      var r := CheckReset(s, closing, now, inArrears);
      assert UpToDate(r);
      hide CheckReset;
      MeterWalkUpToDate(r, order, now, inArrears);
    case DoStop(l, now) =>
      if l in s.holdings && s.holdings[l].last < now {
        NotedCharge(s, l, Ceil(now - s.holdings[l].last), now);
      }
    case _ =>
  }

  // -------------------------------------------------------------------- runs

  ghost predicate InOrder(s: State)
  {
    Ledger(s) && Covered(s) && UpToDate(s)
  }

  lemma {:induction false} RunInOrder(s: State, ops: seq<Op>, clock: int)
    requires Metered(s, clock) && LegalRun(ops, clock) && InOrder(s)
    ensures InOrder(Run(s, ops, clock))
    decreases |ops|
  {
    hide Metered;
    if ops != [] {
      StepMetered(s, ops[0], clock);
      PeriodSecPositive(s, clock);
      StepLedger(s, ops[0]);
      StepCovered(s, ops[0]);
      StepUpToDate(s, ops[0]);
      hide Ledger;
      hide Covered;
      hide UpToDate;
      RunInOrder(Step(s, ops[0]), ops[1..], ops[0].now);
    }
  }

  /** The books of a new caller are in order after every run. */
  lemma NewCallerInOrder(c: Config, now: int, ops: seq<Op>)
    requires c.periodSec > 0 && LegalRun(ops, now)
    ensures Metered(NewCaller(c, now), now)
    ensures InOrder(Run(NewCaller(c, now), ops, now))
  {
    var s := NewCaller(c, now);
    assert CleanRaw(s) == map[];
    assert Metered(s, now) && InOrder(s);
    hide *;
    RunInOrder(s, ops, now);
  }

  // ------------------------------------------------------- time held is consumed

  /** After a tick an uninterrupted holding has been charged its whole seconds. */
  lemma ChargedSoFar(t: State, u: State, l: string, acquiredAt: int, now: int)
    requires Metered(t, now) && Ticked(t, u, now, false) && Metered(u, now) && Steady(u, l, acquiredAt)
    ensures RawOf(u, l) == Floor(now - acquiredAt)
  {
    TickedUpToDate(t, u, now, false);
    assert HoldingOk(u, l, now);
  }

  lemma ConsumedAtLeast(u: State, l: string)
    requires InOrder(u) && l in u.books.clean && u.books.steady
    ensures u.consumed >= u.carry + RawOf(u, l)
  {
    var one := map[l := RawOf(u, l)];
    TotalMonotone(one, CleanRaw(u));
    TotalRemove(one, l);
    assert one - {l} == map[];
    assert u.penalty >= 0;
  }

  /** Polled or not, time held is consumed: in the setting of PollingIndependent,
      and unless somebody moved limit or balance, a refresh leaves the caller with
      at least its carry and the whole seconds the lock was held so far.  So it
      is refused further locks once these reach its limit and overdraft. */
  lemma HeldIsConsumed(s: State, l: string, acquiredAt: int, expiresAt: int, now: int, ops: seq<Op>,
                       closing: seq<string>, order: seq<string>, at: int, overdraft: nat)
    requires Metered(s, now) && InOrder(s) && s.periodStart <= acquiredAt <= now
    requires LegalRun(ops, now) && LastTime(ops, now) <= at
    requires QuietRun(Opened(s, l, acquiredAt, expiresAt, now), ops, l, now)
    requires var t := Run(Opened(s, l, acquiredAt, expiresAt, now), ops, now);
      && t.config.periodSec > 0 && Iteration(order, t.holdings.Keys)
      && Quiet(t, DoRefresh(closing, order, at, false), l)
    ensures var u := Step(Run(Opened(s, l, acquiredAt, expiresAt, now), ops, now),
                          DoRefresh(closing, order, at, false));
      && (u.books.steady ==> u.consumed >= u.carry + Floor(at - acquiredAt))
      && (u.books.steady && u.carry + Floor(at - acquiredAt) >= u.config.limit + overdraft ==>
            !(u.consumed < u.config.limit + overdraft))
  {
    var s1 := Opened(s, l, acquiredAt, expiresAt, now);
    var t := Run(s1, ops, now);
    var op := DoRefresh(closing, order, at, false);
    var u := Step(t, op);
    assert Steady(s1, l, acquiredAt);
    assert s1 == Step(s, DoStart(l, acquiredAt, expiresAt, now));
    StepInOrder(s, DoStart(l, acquiredAt, expiresAt, now), now);
    hide InOrder;
    hide Metered;
    QuietRunKeeps(s1, ops, l, acquiredAt, now);
    RunMetered(s1, ops, now);
    RunInOrder(s1, ops, now);
    var clock := LastTime(ops, now);
    QuietKeeps(t, op, l, acquiredAt, clock);
    StepMetered(t, op, clock);
    StepInOrder(t, op, clock);
    LaterMetered(t, clock, at);
    CheckResetOk(t, closing, at, false);
    MeterEffect(t, order, at, false);
    hide Ticked;
    ChargedSoFar(t, u, l, acquiredAt, at);
    if u.books.steady {
      ConsumedAtLeast(u, l);
    }
  }

  lemma StepInOrder(s: State, op: Op, clock: int)
    requires Metered(s, clock) && InOrder(s)
    ensures s.config.periodSec > 0 && InOrder(Step(s, op))
  {
    PeriodSecPositive(s, clock);
    hide Metered;
    StepLedger(s, op);
    StepCovered(s, op);
    StepUpToDate(s, op);
    hide Ledger;
    hide Covered;
    hide UpToDate;
  }

  // ----------------------------------------------------------------- the carry

  /** Over every run of a new caller, a period whose limit and balance nobody moved
      hands on what it consumed over its limit, if anything was charged in it, its
      penalty, and the penalty of what is charged only at its end.  When nothing is
      left to charge at its end, that is the excess and the penalty exactly when
      something was charged in it or its own carry was within the limit. */
  lemma CarryLaw(c: Config, begun: int, ops: seq<Op>, closing: seq<string>, order: seq<string>, now: int)
    requires c.periodSec > 0 && LegalRun(ops, begun) && LastTime(ops, begun) <= now
    requires Metered(NewCaller(c, begun), begun)
    requires var s := Run(NewCaller(c, begun), ops, begun);
      && s.config.periodSec > 0 && s.periodEnd <= now && Iteration(closing, s.holdings.Keys) && s.books.steady
    ensures var s := Run(NewCaller(c, begun), ops, begun);
      var t := Step(s, DoRefresh(closing, order, now, false));
      var noted := if s.books.charged > 0 then Excess(s) else 0;
      && t.consumed == t.carry
      && InBand(s.config, s.consumed, Total(OwedBy(s, s.holdings.Keys, s.periodEnd)), t.carry - noted - s.penalty)
      && ((forall l :: l in s.holdings ==> Owed(s.holdings[l], s.periodEnd) == 0) ==>
            && t.carry == noted + s.penalty
            && (t.carry == Excess(s) + s.penalty <==> s.books.charged > 0 || s.carry <= s.config.limit))
  {
    var s := Run(NewCaller(c, begun), ops, begun);
    NewCallerInOrder(c, begun, ops);
    CarriedOver(s, closing, order, now, false);
    hide Step;
    hide Run;
    if forall l :: l in s.holdings ==> Owed(s.holdings[l], s.periodEnd) == 0 {
      NothingOwed(s, s.periodEnd);
    }
    hide Total;
  }

  lemma NothingOwed(s: State, end: int)
    requires forall l :: l in s.holdings ==> Owed(s.holdings[l], end) == 0
    ensures Total(OwedBy(s, s.holdings.Keys, end)) == 0
  {
    ZeroesAdd(map[], OwedBy(s, s.holdings.Keys, end));
  }

  /** A debt outlives one period without charges but not two: with a limit of ten,
      sixteen seconds charged in the first period leave 12 units to the second, and
      an idle second period leaves nothing to the third, although it began over its
      limit. */
  lemma DebtDropped()
    ensures var c := Config(10, 60, 40); var s := NewCaller(c, 0);
      var ops := [DoStart("l", 0, 90 * SECOND, 0), DoStop("l", 16 * SECOND), DoRefresh([], [], 60 * SECOND, false)];
      && Metered(s, 0) && LegalRun(ops, 0)
      && var t := Run(s, ops, 0);
         && t.consumed == 12 && t.carry == 12 && t.books.charged == 0 && t.books.steady
         && t.periodEnd == 120 * SECOND && t.config.periodSec > 0
         && Step(t, DoRefresh([], [], 120 * SECOND, false)).consumed == 0
  {
    var s := NewCaller(Config(10, 60, 40), 0);
    var a, b, d := DoStart("l", 0, 90 * SECOND, 0), DoStop("l", 16 * SECOND), DoRefresh([], [], 60 * SECOND, false);
    var s1 := Step(s, a);
    StepMetered(s, a, 0);
    var s2 := Step(s1, b);
    assert s2.consumed == 19 && s2.overdraft == 9 && s2.penalty == 3 && s2.holdings == map[];
    StepMetered(s1, b, 0);
    var s3 := Step(s2, d);
    assert s3.consumed == 12 && s3.holdings == map[] && s3.overdraft == 0 && s3.penalty == 0;
    StepMetered(s2, d, 16 * SECOND);
    var ops := [a, b, d];
    assert ops[1..] == [b, d] && [b, d][1..] == [d] && [d][1..] == [];
    assert LegalRun([d], 16 * SECOND) && LegalRun([b, d], 0);
    assert Run(s3, [], 60 * SECOND) == s3;
    assert Run(s2, [d], 16 * SECOND) == s3;
    assert Run(s1, [b, d], 0) == s3;
  }
}
