/** A caller's budget as the source writes it: an object whose methods update
    balance, period and holdings in place.  Every method is proved against the
    step functions of BudgetState, so what holds over runs (the time charged,
    the penalty band) holds of this object.  The ghost books record what the
    theorems speak about. */
module LockBudget {
  import opened Basics
  import opened MapWalks
  import opened BudgetState
  import opened BudgetMetering
  import opened BudgetEffects

  /** Some walk over the holdings leads from s to t. */
  ghost predicate MeteredInSomeOrder(s: State, t: State, now: int, inArrears: bool)
  {
    exists order :: Iteration(order, s.holdings.Keys) && t == Meter(s, order, now, inArrears)
  }

  ghost predicate FinalizedInSomeOrder(s: State, t: State, endTime: int, inArrears: bool)
  {
    exists order :: Iteration(order, s.holdings.Keys) && t == Finalize(s, order, endTime, inArrears)
  }

  ghost predicate ResetInSomeOrder(s: State, t: State, now: int, inArrears: bool)
    requires s.config.periodSec > 0
  {
    exists order :: Iteration(order, s.holdings.Keys) && t == CheckReset(s, order, now, inArrears)
  }

  ghost predicate RefreshedInSomeOrder(s: State, t: State, now: int, inArrears: bool)
    requires s.config.periodSec > 0
  {
    exists closing, order :: Iteration(closing, s.holdings.Keys) && Iteration(order, s.holdings.Keys) &&
      t == Refresh(s, closing, order, now, inArrears)
  }

  lemma FinalizeOneKeys(s: State, l: string, endTime: int, inArrears: bool)
    ensures FinalizeOne(s, l, endTime, inArrears).holdings.Keys == s.holdings.Keys
    ensures forall k :: k in s.holdings && k != l ==> FinalizeOne(s, l, endTime, inArrears).holdings[k] == s.holdings[k]
  {
  }

  lemma {:induction false} FinalizeKeys(s: State, order: seq<string>, endTime: int, inArrears: bool)
    ensures Finalize(s, order, endTime, inArrears).holdings.Keys == s.holdings.Keys
    ensures forall k :: k in s.holdings && k !in order ==>
              Finalize(s, order, endTime, inArrears).holdings[k] == s.holdings[k]
    decreases |order|
  {
    if order != [] {
      var front := order[..|order| - 1];
      assert order == front + [order[|order| - 1]];
      FinalizeKeys(s, front, endTime, inArrears);
      FinalizeOneKeys(Finalize(s, front, endTime, inArrears), order[|order| - 1], endTime, inArrears);
    }
  }

  /** Metering touches no other holding, and no expiry. */
  ghost predicate OthersKept(s: State, t: State, l: string)
  {
    && t.holdings.Keys == s.holdings.Keys && t.config == s.config
    && forall k :: k in s.holdings ==>
      t.holdings[k].expiresAt == s.holdings[k].expiresAt && (k != l ==> t.holdings[k] == s.holdings[k])
  }

  lemma MeterOneKeys(s: State, l: string, now: int, inArrears: bool)
    ensures OthersKept(s, MeterOne(s, l, now, inArrears), l)
  {
  }

  lemma {:induction false} MeterWalkKeys(s: State, order: seq<string>, now: int, inArrears: bool)
    ensures var t := MeterWalk(s, order, now, inArrears);
      && t.holdings.Keys == s.holdings.Keys && t.config == s.config
      && (forall k :: k in s.holdings ==> t.holdings[k].expiresAt == s.holdings[k].expiresAt)
      && (forall k :: k in s.holdings && k !in order ==> t.holdings[k] == s.holdings[k])
    decreases |order|
  {
    if order != [] {
      var front := order[..|order| - 1];
      assert order == front + [order[|order| - 1]];
      MeterWalkKeys(s, front, now, inArrears);
      hide MeterOne;
      MeterOneKeys(MeterWalk(s, front, now, inArrears), order[|order| - 1], now, inArrears);
    }
  }

  datatype Verdict = Allowed | InArrears | Frozen | OverdraftExhausted | BudgetExhausted

  class CallerBudget {
    var config: Config
    var periodStart: int
    var periodEnd: int
    var consumed: int
    var overdraft: int
    var penalty: int
    var carry: int
    var holdings: map<string, Holding>
    ghost var books: Books

    ghost function S(): State
      reads this
    {
      State(config, periodStart, periodEnd, consumed, overdraft, penalty, carry, holdings, books)
    }

    constructor (c: Config, now: int)
      ensures S() == NewCaller(c, now)
    {
      config := c;
      periodStart, periodEnd := now, now + c.periodSec * SECOND;
      consumed, overdraft, penalty, carry := 0, 0, 0, 0;
      holdings := map[];
      books := Books(map[], {}, 0, true);
    }

    method ApplyOverdraftPenalty(units: int) returns (add: int, pen: int)
      ensures (add, pen) == WithPenalty(config, consumed, units)
    {
      if config.overdraftLimit <= 0 {
        return units, 0;
      }
      var withNew := consumed + units;
      if withNew <= config.limit {
        return units, 0;
      }
      var normal := 0;
      if consumed < config.limit {
        normal := config.limit - consumed;
      }
      var over := units - normal;
      pen := Penalty(over);
      add := normal + over + pen;
    }

    /** units charged to the holding l and entered in the books. */
    method ChargeHolding(l: string, units: int, last: int)
      requires l in holdings
      modifies this
      ensures S() == Charge(old(S()), l, units, last)
      ensures holdings.Keys == old(holdings).Keys
    {
      hide WithPenalty;
      var h := holdings[l];
      var add, pen := ApplyOverdraftPenalty(units);
      consumed := consumed + add;
      penalty := penalty + pen;
      books := books.(raw := books.raw[l := RawOf(S(), l) + units], charged := books.charged + units);
      holdings := holdings[l := h.(accrued := h.accrued + add, last := last)];
    }

    method UpdateOverdraft()
      modifies this
      ensures S() == NoteOverdraft(old(S()))
    {
      if consumed > config.limit {
        overdraft := consumed - config.limit;
      }
    }

    method MeterHolding(l: string, now: int, inArrears: bool)
      requires l in holdings && holdings[l].expiresAt > now
      modifies this
      ensures S() == MeterOne(old(S()), l, now, inArrears)
    {
      hide Charge;
      var h := holdings[l];
      if inArrears {
        holdings := holdings[l := h.(last := now)];
        books := books.(clean := books.clean - {l});
        return;
      }
      if h.last < now {
        var units := Floor(now - h.last);
        if units > 0 {
          ChargeHolding(l, units, h.last + units * SECOND);
          UpdateOverdraft();
        }
      }
    }

    method MeterCaller(now: int, inArrears: bool)
      modifies this
      ensures MeteredInSomeOrder(old(S()), S(), now, inArrears)
      ensures config == old(config)
      ensures old(Metered(S(), now)) ==> Ticked(old(S()), S(), now, inArrears)
    {
      hide MeterOne;
      ghost var order: seq<string> := [];
      var expired: set<string> := {};
      var todo := holdings.Keys;
      while todo != {}
        invariant todo <= old(holdings).Keys
        invariant Iteration(order, old(holdings).Keys - todo)
        invariant S() == MeterWalk(old(S()), order, now, inArrears)
        invariant expired == set l | l in old(holdings) && l !in todo && old(holdings)[l].expiresAt <= now
      {
        var l := Pick(todo);
        MeterWalkKeys(old(S()), order, now, inArrears);
        WalkOn(order, todo, old(holdings).Keys, l);
        assert (order + [l])[..|order|] == order;
        if holdings[l].expiresAt <= now {
          ExpiredUnmetered(S(), l, now, inArrears);
          expired := expired + {l};
        } else {
          MeterHolding(l, now, inArrears);
        }
        order := order + [l];
        todo := todo - {l};
      }
      assert old(holdings).Keys - todo == old(holdings).Keys;
      assert expired == ExpiredAt(old(S()), now);
      MeterWalkKeys(old(S()), order, now, inArrears);
      ghost var walked := S();
      holdings := holdings - expired;
      books := books.(raw := books.raw - expired, clean := books.clean - expired);
      assert S() == Forget(walked, ExpiredAt(old(S()), now));
      assert S() == Meter(old(S()), order, now, inArrears);
      if old(Metered(S(), now)) {
        MeterEffect(old(S()), order, now, inArrears);
      }
      hide Metered;
      hide Ticked;
    }

    method FinalizeCurrentPeriod(endTime: int, inArrears: bool)
      modifies this
      ensures FinalizedInSomeOrder(old(S()), S(), endTime, inArrears)
    {
      hide Charge;
      ghost var order: seq<string> := [];
      var todo := holdings.Keys;
      while todo != {}
        invariant todo <= old(holdings).Keys
        invariant Iteration(order, old(holdings).Keys - todo)
        invariant S() == Finalize(old(S()), order, endTime, inArrears)
      {
        var l := Pick(todo);
        FinalizeKeys(old(S()), order, endTime, inArrears);
        WalkOn(order, todo, old(holdings).Keys, l);
        assert (order + [l])[..|order|] == order;
        CloseHolding(l, endTime, inArrears);
        order := order + [l];
        todo := todo - {l};
      }
      assert old(holdings).Keys - todo == old(holdings).Keys;
    }

    method CloseHolding(l: string, endTime: int, inArrears: bool)
      requires l in holdings
      modifies this
      ensures S() == FinalizeOne(old(S()), l, endTime, inArrears)
    {
      hide Charge;
      var h := holdings[l];
      if h.last < endTime {
        if inArrears {
          holdings := holdings[l := h.(last := endTime)];
          books := books.(clean := books.clean - {l});
        } else {
          var units := Floor(endTime - h.last);
          if units > 0 {
            ChargeHolding(l, units, endTime);
            holdings := holdings[l := holdings[l].(last := endTime)];
            books := books.(clean := books.clean - {l});
          }
        }
      }
    }

    method RestartHoldings(now: int)
      modifies this
      ensures S() == Restart(old(S()), now)
    {
      var todo := holdings.Keys;
      while todo != {}
        invariant todo <= holdings.Keys == old(holdings).Keys
        invariant S() == old(S()).(holdings := holdings)
        invariant forall l :: l in holdings ==>
          holdings[l] == if l in todo then old(holdings)[l] else old(holdings)[l].(last := now, accrued := 0)
      {
        var l := Pick(todo);
        holdings := holdings[l := holdings[l].(last := now, accrued := 0)];
        todo := todo - {l};
      }
      books := Books(books.raw, {}, 0, true);
      assert S().holdings == Restart(old(S()), now).holdings;
    }

    method CheckPeriodReset(now: int, inArrears: bool)
      requires config.periodSec > 0
      modifies this
      ensures ResetInSomeOrder(old(S()), S(), now, inArrears)
      ensures if now < old(periodEnd) then S() == old(S()) else ResetTo(old(S()), S(), now, inArrears)
      ensures config == old(config) && holdings.Keys == old(holdings).Keys
    {
      hide OpenPeriod;
      hide ResetInSomeOrder;
      hide Iteration;
      hide CheckReset;
      if now < periodEnd {
        NoReset(S(), now, inArrears);
        return;
      }
      FinalizeCurrentPeriod(periodEnd, inArrears);
      ghost var order :| Iteration(order, old(holdings).Keys) &&
          S() == Finalize(old(S()), order, old(periodEnd), inArrears);
      FinalizeKeys(old(S()), order, old(periodEnd), inArrears);
      var elapsedSec := Floor(now - periodEnd);
      var periods := 1;
      if elapsedSec > config.periodSec {
        periods := elapsedSec / config.periodSec;
        if elapsedSec % config.periodSec > 0 {
          periods := periods + 1;
        }
      }
      AtLeastOnePeriod(config.periodSec, now - periodEnd);
      ghost var t := S();
      ghost var width := config.periodSec * SECOND;
      assert periods == PeriodsToAdvance(config.periodSec, now - old(periodEnd));
      AdvancePeriodStart(periods, config.periodSec * SECOND);
      assert S() == t.(periodStart := t.periodEnd + (periods - 1) * width);
      CarryOver(now, inArrears);
      ResetIs(old(S()), t, order, periods, width, now, inArrears);
      ResetEffect(old(S()), order, now, inArrears);
      hide ResetTo;
    }

    method CarryOver(now: int, inArrears: bool)
      modifies this
      ensures S() == OpenPeriod(old(S()), periodStart, now, inArrears)
      ensures periodStart == old(periodStart) && holdings.Keys == old(holdings).Keys
    {
      periodEnd := periodStart + config.periodSec * SECOND;
      if inArrears {
        carry := 0;
        consumed := 0;
      } else {
        carry := overdraft + penalty;
        consumed := carry;
      }
      overdraft := 0;
      penalty := 0;
      RestartHoldings(now);
    }

    /** The period start moved on, one period after the other. */
    method AdvancePeriodStart(periods: int, width: int)
      requires periods >= 1
      modifies this`periodStart
      ensures periodStart == periodEnd + (periods - 1) * width
    {
      periodStart := periodEnd;
      var i := 1;
      while i < periods
        invariant 1 <= i <= periods
        invariant periodStart == periodEnd + (i - 1) * width
      {
        OneMore(i, width);
        periodStart := periodStart + width;
        i := i + 1;
      }
    }

    method Refresh(now: int, inArrears: bool)
      requires config.periodSec > 0
      modifies this
      ensures RefreshedInSomeOrder(old(S()), S(), now, inArrears)
      ensures config == old(config)
    {
      CheckPeriodReset(now, inArrears);
      ghost var closing :| Iteration(closing, old(holdings).Keys) &&
          S() == CheckReset(old(S()), closing, now, inArrears);
      ghost var t := S();
      MeterCaller(now, inArrears);
      ghost var order :| Iteration(order, t.holdings.Keys) && S() == Meter(t, order, now, inArrears);
      assert S() == BudgetState.Refresh(old(S()), closing, order, now, inArrears);
    }

    method SetBudgetWithOverdraft(c: Config, now: int, inArrears: bool) returns (ok: bool)
      modifies this
      ensures ok <==> c.limit > 0 && c.periodSec > 0
      ensures exists order :: Iteration(order, old(holdings).Keys) &&
                              S() == SetBudget(old(S()), c, order, now, inArrears)
      ensures if !ok then S() == old(S()) else StartedAfresh(old(S()), S(), c, now)
    {
      ghost var order := SomeWalk(holdings.Keys);
      if c.limit <= 0 || c.periodSec <= 0 {
        assert S() == SetBudget(old(S()), c, order, now, inArrears);
        return false;
      }
      var cfg := c;
      if cfg.overdraftLimit < 0 {
        cfg := cfg.(overdraftLimit := 0);
      }
      FinalizeCurrentPeriod(now, inArrears);
      order :| Iteration(order, old(holdings).Keys) && S() == Finalize(old(S()), order, now, inArrears);
      config := cfg;
      periodStart, periodEnd := now, now + cfg.periodSec * SECOND;
      consumed, overdraft, penalty, carry := 0, 0, 0, 0;
      RestartHoldings(now);
      assert S() == SetBudget(old(S()), c, order, now, inArrears);
      SetBudgetEffect(old(S()), c, order, now, inArrears);
      return true;
    }

    method RechargeBudget(newLimit: int)
      modifies this
      ensures S() == Recharge(old(S()), newLimit)
      ensures config == old(config).(limit := newLimit) && consumed == old(consumed) && overdraft == old(overdraft)
      ensures penalty == old(penalty) && carry == old(carry) && holdings == old(holdings)
      ensures periodStart == old(periodStart) && periodEnd == old(periodEnd)
    {
      config := config.(limit := newLimit);
      books := books.(steady := false);
    }

    /** CheckAcquire, given the answers on arrears, freezing and reputation. */
    method CheckAcquire(now: int, inArrears: bool, frozen: bool, effectiveOverdraft: int) returns (verdict: Verdict)
      requires config.periodSec > 0
      modifies this
      ensures inArrears ==> verdict == InArrears
      ensures !inArrears && frozen ==> verdict == Frozen
      ensures inArrears || frozen ==> S() == old(S())
      ensures !inArrears && !frozen ==> RefreshedInSomeOrder(old(S()), S(), now, false)
      ensures !inArrears && !frozen ==> (verdict == Allowed <==>
        consumed < config.limit + if effectiveOverdraft > 0 then effectiveOverdraft else 0)
      ensures !inArrears && !frozen && verdict != Allowed ==>
        verdict == if effectiveOverdraft > 0 then OverdraftExhausted else BudgetExhausted
    {
      if inArrears {
        return InArrears;
      }
      if frozen {
        return Frozen;
      }
      Refresh(now, false);
      if effectiveOverdraft > 0 {
        if consumed >= config.limit + effectiveOverdraft {
          return OverdraftExhausted;
        }
        return Allowed;
      }
      if consumed >= config.limit {
        return BudgetExhausted;
      }
      return Allowed;
    }

    method StartHolding(l: string, acquiredAt: int, expiresAt: int)
      modifies this
      ensures S() == BudgetState.StartHolding(old(S()), l, acquiredAt, expiresAt)
      ensures S() == old(S()).(holdings := holdings, books := books)
      ensures l in holdings && holdings == old(holdings)[l := holdings[l]]
      ensures holdings[l].acquiredAt == acquiredAt && holdings[l].expiresAt == expiresAt && holdings[l].accrued == 0
      ensures holdings[l].last == if acquiredAt < periodStart then periodStart else acquiredAt
    {
      var meterStart := acquiredAt;
      if meterStart < periodStart {
        meterStart := periodStart;
      }
      holdings := holdings[l := Holding(acquiredAt, expiresAt, meterStart, 0)];
      books := books.(raw := books.raw[l := 0],
                      clean := if acquiredAt >= periodStart then books.clean + {l} else books.clean - {l});
    }

    method StopHolding(l: string, releasedAt: int) returns (units: int)
      modifies this
      ensures (S(), units) == BudgetState.StopHolding(old(S()), l, releasedAt)
      ensures l !in old(holdings) ==> units == 0 && S() == old(S())
      ensures l in old(holdings) ==> Stopped(old(S()), S(), l, releasedAt, units)
    {
      hide Charge;
      if l !in holdings {
        return 0;
      }
      var h := holdings[l];
      if h.last < releasedAt {
        var rawUnits := Ceil(releasedAt - h.last);
        ChargeHolding(l, rawUnits, releasedAt);
        UpdateOverdraft();
      }
      assert S() == Settle(old(S()), l, releasedAt) && l in holdings by {
        ChargeKeepsKeys(old(S()), l, Ceil(releasedAt - h.last), releasedAt);
      }
      StopEffect(old(S()), l, releasedAt);
      units := holdings[l].accrued;
      holdings := holdings - {l};
      books := books.(raw := books.raw - {l}, clean := books.clean - {l});
    }

    method RenewHolding(l: string, expiresAt: int)
      modifies this
      ensures S() == BudgetState.RenewHolding(old(S()), l, expiresAt)
      ensures S() == old(S()).(holdings := holdings) && holdings.Keys == old(holdings).Keys
      ensures forall k :: k in holdings ==>
        holdings[k] == if k == l then old(holdings)[k].(expiresAt := expiresAt) else old(holdings)[k]
    {
      if l in holdings {
        holdings := holdings[l := holdings[l].(expiresAt := expiresAt)];
      }
    }

    /** TransferBudget between two callers, each with its own arrears answer. */
    method TransferTo(to: CallerBudget, amount: int, now: int, mayTransfer: bool, inArrears: bool, toInArrears: bool)
      returns (ok: bool)
      requires to != this && config.periodSec > 0 && to.config.periodSec > 0
      modifies this, to
      ensures !mayTransfer || amount <= 0 ==> !ok && S() == old(S()) && to.S() == old(to.S())
      ensures mayTransfer && amount > 0 ==> exists s, t ::
        && RefreshedInSomeOrder(old(S()), s, now, inArrears)
        && RefreshedInSomeOrder(old(to.S()), t, now, toInArrears)
        && (ok <==> amount <= s.config.limit - s.consumed)
        && S() == (if ok then Send(s, amount) else s)
        && to.S() == (if ok then Receive(t, amount) else t)
    {
      if amount <= 0 {
        return false;
      }
      if !mayTransfer {
        return false;
      }
      Refresh(now, inArrears);
      to.Refresh(now, toInArrears);
      ghost var s, t := S(), to.S();
      var remaining := config.limit - consumed;
      if remaining < amount {
        return false;
      }
      consumed := consumed + amount;
      books := books.(steady := false);
      UpdateOverdraft();
      to.consumed := to.consumed - amount;
      if to.consumed < 0 {
        to.consumed := 0;
      }
      to.overdraft := 0;
      to.books := to.books.(steady := false);
      to.UpdateOverdraft();
      assert S() == Send(s, amount) && to.S() == Receive(t, amount);
      return true;
    }
  }

  lemma ExpiredUnmetered(s: State, l: string, now: int, inArrears: bool)
    requires l in s.holdings && s.holdings[l].expiresAt <= now
    ensures MeterOne(s, l, now, inArrears) == s
  {
  }

  lemma AtLeastOnePeriod(periodSec: int, elapsed: int)
    requires periodSec > 0
    ensures PeriodsToAdvance(periodSec, elapsed) >= 1
  {
  }

  lemma NoReset(s: State, now: int, inArrears: bool)
    requires s.config.periodSec > 0 && now < s.periodEnd
    ensures ResetInSomeOrder(s, s, now, inArrears)
  {
    var order := SomeWalk(s.holdings.Keys);
    assert CheckReset(s, order, now, inArrears) == s;
  }

  /** The parts of a reset put together. */
  lemma ResetIs(s: State, t: State, order: seq<string>, periods: int, width: int, now: int, inArrears: bool)
    requires s.config.periodSec > 0 && now >= s.periodEnd && t == Finalize(s, order, s.periodEnd, inArrears)
    requires width == s.config.periodSec * SECOND && periods == PeriodsToAdvance(s.config.periodSec, now - s.periodEnd)
    requires Iteration(order, s.holdings.Keys)
    ensures var start := t.periodEnd + (periods - 1) * width;
      var u := OpenPeriod(t.(periodStart := start), start, now, inArrears);
      u == CheckReset(s, order, now, inArrears) && ResetInSomeOrder(s, u, now, inArrears) && u.config == s.config
  {
  }

  lemma OneMore(i: int, width: int)
    ensures (i - 1) * width + width == (i + 1 - 1) * width
  {
  }

  lemma ChargeKeepsKeys(s: State, l: string, units: int, last: int)
    requires l in s.holdings
    ensures Charge(s, l, units, last).holdings.Keys == s.holdings.Keys
  {
  }

  /** Between two callers nothing is lost exactly when the receiver has consumed
      at least the amount; the sender never goes over its limit by sending. */
  lemma TransferConserves(s: State, t: State, amount: int)
    requires 0 < amount <= s.config.limit - s.consumed
    ensures Send(s, amount).consumed + Receive(t, amount).consumed == s.consumed + t.consumed <==> amount <= t.consumed
    ensures Send(s, amount).consumed <= s.config.limit
    ensures var s' := Send(s, amount);
      s' == s.(consumed := s.consumed + amount, books := s'.books)
    ensures var t' := Receive(t, amount);
      var left := if t.consumed > amount then t.consumed - amount else 0;
      t' == t.(consumed := left, overdraft := if left > t.config.limit then left - t.config.limit else 0,
               books := t'.books)
  {
  }
}
