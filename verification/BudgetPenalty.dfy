/** The overdraft penalty depends on how the charges of a period are cut into
    chunks, but only within a band; and the balance always adds up. */
module BudgetPenalty {
  import opened BudgetState
  import opened BudgetMetering

  /** The part of the raw charges of a period that its limit does not cover. */
  function Overdrawn(limit: int, carry: int, raw: int): int
  {
    var cover := if limit - carry > 0 then limit - carry else 0;
    if raw > cover then raw - cover else 0
  }

  predicate InBand(c: Config, carry: int, raw: int, penalty: int)
  {
    if c.overdraftLimit <= 0 then penalty == 0
    else penalty <= Overdrawn(c.limit, carry, raw) <= 2 * penalty
  }

  /** One more chunk stays in the band. */
  lemma BandStep(c: Config, carry: int, raw: int, penalty: int, units: int)
    requires raw >= 0 && units > 0 && InBand(c, carry, raw, penalty)
    ensures var (add, pen) := WithPenalty(c, carry + raw + penalty, units);
      add == units + pen && InBand(c, carry, raw + units, penalty + pen)
  {
  }

  /** Consumed units and penalty after a list of chunks. */
  function ChargeAll(c: Config, carry: int, chunks: seq<int>): (int, int)
  {
    if chunks == [] then (carry, 0)
    else
      var (consumed, penalty) := ChargeAll(c, carry, chunks[..|chunks| - 1]);
      var (add, pen) := WithPenalty(c, consumed, chunks[|chunks| - 1]);
      (consumed + add, penalty + pen)
  }

  function Sum(chunks: seq<int>): int
  {
    if chunks == [] then 0 else Sum(chunks[..|chunks| - 1]) + chunks[|chunks| - 1]
  }

  /** For every way of splitting the charges of a period over holdings and
      ticks: the penalty lies between half the overdraft, rounded up, and the
      overdraft, and the units consumed are the carry, the charges and it. */
  lemma {:induction false} PenaltyBand(c: Config, carry: int, chunks: seq<int>)
    requires forall x :: x in chunks ==> x > 0
    ensures var (consumed, penalty) := ChargeAll(c, carry, chunks);
      && Sum(chunks) >= 0
      && consumed - penalty == carry + Sum(chunks)
      && InBand(c, carry, Sum(chunks), penalty)
  {
    if chunks != [] {
      var front, units := chunks[..|chunks| - 1], chunks[|chunks| - 1];
      assert units in chunks && forall x :: x in front ==> x in chunks;
      PenaltyBand(c, carry, front);
      BandStep(c, carry, Sum(front), ChargeAll(c, carry, front).1, units);
    }
  }

  /** Charged in one chunk, the penalty is the least of the band. */
  lemma OneChunkCostsLeast(c: Config, carry: int, n: int)
    requires n > 0 && c.overdraftLimit > 0
    ensures ChargeAll(c, carry, [n]).1 == (Overdrawn(c.limit, carry, n) + 1) / 2
  {
  }

  function Ones(n: nat): (r: seq<int>)
    ensures |r| == n && forall x :: x in r ==> x == 1
  {
    seq(n, i => 1)
  }

  /** Charged second by second, the penalty is the most of the band. */
  lemma {:induction false} SecondsCostMost(c: Config, carry: int, n: nat)
    requires c.overdraftLimit > 0
    ensures ChargeAll(c, carry, Ones(n)).1 == Overdrawn(c.limit, carry, n)
    ensures Sum(Ones(n)) == n
  {
    if n > 0 {
      SecondsCostMost(c, carry, n - 1);
      assert Ones(n)[..n - 1] == Ones(n - 1);
      PenaltyBand(c, carry, Ones(n - 1));
    }
  }

  // ------------------------------------------------------------------ runs

  /** In a period whose limit and balance nobody moved the books add up. */
  ghost predicate Ledger(s: State)
  {
    && s.books.charged >= 0
    && (s.books.steady ==>
        s.consumed - s.penalty == s.carry + s.books.charged && InBand(s.config, s.carry, s.books.charged, s.penalty))
  }

  /** A charge with whatever it does to holdings, metering and overdraft. */
  lemma ChargeLedger(s: State, l: string, units: int, last: int)
    requires Ledger(s) && l in s.holdings && units > 0
    ensures Ledger(Charge(s, l, units, last))
  {
  }

  lemma FinalizeOneLedger(s: State, l: string, endTime: int, inArrears: bool)
    requires Ledger(s)
    ensures Ledger(FinalizeOne(s, l, endTime, inArrears))
  {
    hide Charge;
    hide InBand;
    if l in s.holdings && s.holdings[l].last < endTime && !inArrears {
      var units := Floor(endTime - s.holdings[l].last);
      if units > 0 {
        ChargeLedger(s, l, units, endTime);
      }
    }
  }

  /** The books that a settlement closes, final charges included, add up. */
  lemma {:induction false} FinalizeLedger(s: State, order: seq<string>, endTime: int, inArrears: bool)
    requires Ledger(s)
    ensures Ledger(Finalize(s, order, endTime, inArrears))
    decreases |order|
  {
    hide Ledger;
    if order != [] {
      FinalizeLedger(s, order[..|order| - 1], endTime, inArrears);
      FinalizeOneLedger(Finalize(s, order[..|order| - 1], endTime, inArrears), order[|order| - 1], endTime, inArrears);
    }
  }

  lemma MeterOneLedger(s: State, l: string, now: int, inArrears: bool)
    requires Ledger(s)
    ensures Ledger(MeterOne(s, l, now, inArrears))
  {
  }

  lemma {:induction false} MeterWalkLedger(s: State, order: seq<string>, now: int, inArrears: bool)
    requires Ledger(s)
    ensures Ledger(MeterWalk(s, order, now, inArrears))
    decreases |order|
  {
    hide Ledger;
    if order != [] {
      MeterWalkLedger(s, order[..|order| - 1], now, inArrears);
      MeterOneLedger(MeterWalk(s, order[..|order| - 1], now, inArrears), order[|order| - 1], now, inArrears);
    }
  }

  /** A new period starts with the books closed. */
  lemma CheckResetLedger(s: State, order: seq<string>, now: int, inArrears: bool)
    requires Ledger(s) && s.config.periodSec > 0
    ensures Ledger(CheckReset(s, order, now, inArrears))
  {
  }

  lemma RefreshLedger(s: State, closing: seq<string>, order: seq<string>, now: int, inArrears: bool)
    requires Ledger(s) && s.config.periodSec > 0
    ensures Ledger(Refresh(s, closing, order, now, inArrears))
  {
    hide CheckReset;
    hide MeterWalk;
    hide InBand;
    CheckResetLedger(s, closing, now, inArrears);
    MeterWalkLedger(CheckReset(s, closing, now, inArrears), order, now, inArrears);
  }

  lemma StopLedger(s: State, l: string, now: int)
    requires Ledger(s)
    ensures Ledger(StopHolding(s, l, now).0)
  {
    hide Charge;
    hide InBand;
    if l in s.holdings && s.holdings[l].last < now {
      ChargeLedger(s, l, Ceil(now - s.holdings[l].last), now);
    }
  }

  lemma SetBudgetLedger(s: State, c: Config, order: seq<string>, now: int, inArrears: bool)
    requires Ledger(s)
    ensures Ledger(SetBudget(s, c, order, now, inArrears))
  {
  }

  /** Every step keeps the books: the balance is carry, charges and penalty, and
      the penalty is in the band of what was charged. */
  lemma StepLedger(s: State, op: Op)
    requires Ledger(s) && s.config.periodSec > 0
    ensures Ledger(Step(s, op))
  {
    hide InBand;
    match op
    case DoRefresh(closing, order, now, inArrears) => RefreshLedger(s, closing, order, now, inArrears);
    case DoSetBudget(c, order, now, inArrears) => SetBudgetLedger(s, c, order, now, inArrears);
    case DoStop(l, now) => StopLedger(s, l, now);
    case _ =>
  }

  lemma {:induction false} RunLedger(s: State, ops: seq<Op>, clock: int)
    requires Metered(s, clock) && LegalRun(ops, clock) && Ledger(s)
    ensures Ledger(Run(s, ops, clock))
    decreases |ops|
  {
    hide Ledger;
    if ops != [] {
      StepMetered(s, ops[0], clock);
      StepLedger(s, ops[0]);
      RunLedger(Step(s, ops[0]), ops[1..], ops[0].now);
    }
  }

  /** Over every run of a new caller the metering and the books are in order. */
  lemma NewCallerRuns(c: Config, now: int, ops: seq<Op>)
    requires c.periodSec > 0 && LegalRun(ops, now)
    ensures Metered(NewCaller(c, now), now)
    ensures var t := Run(NewCaller(c, now), ops, now);
      Metered(t, LastTime(ops, now)) && Ledger(t)
  {
    var s := NewCaller(c, now);
    assert Metered(s, now) && Ledger(s);
    hide *;
    RunMetered(s, ops, now);
    RunLedger(s, ops, now);
  }
}
