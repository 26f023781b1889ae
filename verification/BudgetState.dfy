/** One caller's lock budget as a value and the effect of every operation.
    Times are integer nanoseconds; whether the caller is in arrears is an
    answer of storage and so part of the operation; so is the order in which
    a map walk meets the holdings. */
module BudgetState {
  import opened Basics

  datatype Config = Config(limit: int, periodSec: int, overdraftLimit: int)

  datatype Holding = Holding(acquiredAt: int, expiresAt: int, last: int, accrued: int)

  /** What the statements of this model speak about and the source does not
      keep: the units charged for each current holding before any penalty; the
      holdings metered without interruption since they started; the units charged
      in this period before any penalty; and whether limit and balance were left
      alone in it. */
  datatype Books = Books(raw: map<string, int>, clean: set<string>, charged: int, steady: bool)

  datatype State = State(config: Config, periodStart: int, periodEnd: int, consumed: int, overdraft: int,
                         penalty: int, carry: int, holdings: map<string, Holding>, books: Books)

  // --------------------------------------------------------------- charging

  /** ceil(units * (OverdraftPenaltyMultiplier - 1)) for the multiplier 1.5 */
  function Penalty(overdraftUnits: int): int
  {
    (overdraftUnits + 1) / 2
  }

  /** applyOverdraftPenaltyLocked: units to add, and the penalty among them. */
  function WithPenalty(c: Config, consumed: int, units: int): (int, int)
  {
    if c.overdraftLimit <= 0 || consumed + units <= c.limit then (units, 0)
    else
      var normal := if consumed < c.limit then c.limit - consumed else 0;
      var over := units - normal;
      (normal + over + Penalty(over), Penalty(over))
  }

  /** Whole seconds, rounded down and rounded up. */
  function Floor(ns: int): (units: int)
    ensures units * SECOND <= ns < (units + 1) * SECOND
  {
    ns / SECOND
  }

  function Ceil(ns: int): (units: int)
    ensures (units - 1) * SECOND < ns <= units * SECOND
  {
    (ns + SECOND - 1) / SECOND
  }

  /** units charged to the holding l, metered up to `last` from now on. */
  function Charge(s: State, l: string, units: int, last: int): State
    requires l in s.holdings
  {
    var (add, pen) := WithPenalty(s.config, s.consumed, units);
    var h := s.holdings[l];
    s.(consumed := s.consumed + add, penalty := s.penalty + pen,
       holdings := s.holdings[l := h.(accrued := h.accrued + add, last := last)],
       books := s.books.(raw := s.books.raw[l := RawOf(s, l) + units], charged := s.books.charged + units))
  }

  function RawOf(s: State, l: string): int
  {
    if l in s.books.raw then s.books.raw[l] else 0
  }

  /** The overdraft brought up to date after a charge. */
  function NoteOverdraft(s: State): State
  {
    if s.consumed > s.config.limit then s.(overdraft := s.consumed - s.config.limit) else s
  }

  /** The time of l up to `last` passes uncharged: its metering is interrupted. */
  function Skip(s: State, l: string, last: int): State
    requires l in s.holdings
  {
    s.(holdings := s.holdings[l := s.holdings[l].(last := last)], books := s.books.(clean := s.books.clean - {l}))
  }

  // --------------------------------------------------------------- metering

  /** meterCallerLocked for one holding. */
  function MeterOne(s: State, l: string, now: int, inArrears: bool): State
  {
    if l !in s.holdings || s.holdings[l].expiresAt <= now then s
    else if inArrears then Skip(s, l, now)
    else
      var h := s.holdings[l];
      var units := Floor(now - h.last);
      if h.last < now && units > 0 then NoteOverdraft(Charge(s, l, units, h.last + units * SECOND)) else s
  }

  function MeterWalk(s: State, order: seq<string>, now: int, inArrears: bool): State
  {
    if order == [] then s
    else MeterOne(MeterWalk(s, order[..|order| - 1], now, inArrears), order[|order| - 1], now, inArrears)
  }

  function Forget(s: State, gone: set<string>): State
  {
    s.(holdings := s.holdings - gone, books := s.books.(raw := s.books.raw - gone, clean := s.books.clean - gone))
  }

  function ExpiredAt(s: State, now: int): set<string>
  {
    set l | l in s.holdings && s.holdings[l].expiresAt <= now
  }

  /** meterCallerLocked */
  function Meter(s: State, order: seq<string>, now: int, inArrears: bool): State
  {
    Forget(MeterWalk(s, order, now, inArrears), ExpiredAt(s, now))
  }

  /** finalizeCurrentPeriodLocked for one holding. */
  function FinalizeOne(s: State, l: string, endTime: int, inArrears: bool): State
  {
    if l !in s.holdings || s.holdings[l].last >= endTime then s
    else if inArrears then Skip(s, l, endTime)
    else
      var units := Floor(endTime - s.holdings[l].last);
      if units > 0 then Skip(Charge(s, l, units, endTime), l, endTime) else s
  }

  function Finalize(s: State, order: seq<string>, endTime: int, inArrears: bool): (r: State)
    ensures r.config == s.config && r.periodStart == s.periodStart && r.periodEnd == s.periodEnd
  {
    if order == [] then s
    else FinalizeOne(Finalize(s, order[..|order| - 1], endTime, inArrears), order[|order| - 1], endTime, inArrears)
  }

  // ---------------------------------------------------------------- periods

  /** How many periods a reset that finds `elapsed` ns past the end steps over. */
  function PeriodsToAdvance(periodSec: int, elapsed: int): int
    requires periodSec > 0
  {
    var sec := Floor(elapsed);
    if sec > periodSec then sec / periodSec + (if sec % periodSec > 0 then 1 else 0) else 1
  }

  /** Every holding starts afresh. */
  function Restart(s: State, now: int): State
  {
    s.(holdings := map l | l in s.holdings :: s.holdings[l].(last := now, accrued := 0),
       books := Books(s.books.raw, {}, 0, true))
  }

  /** The balance carried into the period that begins at `start`. */
  function OpenPeriod(t: State, start: int, now: int, inArrears: bool): State
  {
    var carry := if inArrears then 0 else t.overdraft + t.penalty;
    Restart(t.(periodStart := start, periodEnd := start + t.config.periodSec * SECOND,
               carry := carry, consumed := carry, overdraft := 0, penalty := 0), now)
  }

  /** checkPeriodResetLocked */
  function CheckReset(s: State, order: seq<string>, now: int, inArrears: bool): State
    requires s.config.periodSec > 0
  {
    if now < s.periodEnd then s
    else
      var k := PeriodsToAdvance(s.config.periodSec, now - s.periodEnd);
      OpenPeriod(Finalize(s, order, s.periodEnd, inArrears),
                 s.periodEnd + (k - 1) * (s.config.periodSec * SECOND), now, inArrears)
  }

  /** refreshCallerLocked: `closing` and `order` are its two map walks. */
  function Refresh(s: State, closing: seq<string>, order: seq<string>, now: int, inArrears: bool): State
    requires s.config.periodSec > 0
  {
    Meter(CheckReset(s, closing, now, inArrears), order, now, inArrears)
  }

  /** SetBudgetWithOverdraft for a caller that has a budget. */
  function SetBudget(s: State, c: Config, order: seq<string>, now: int, inArrears: bool): State
  {
    if c.limit <= 0 || c.periodSec <= 0 then s
    else
      var cfg := if c.overdraftLimit < 0 then c.(overdraftLimit := 0) else c;
      var t := Finalize(s, order, now, inArrears);
      Restart(t.(config := cfg, periodStart := now, periodEnd := now + cfg.periodSec * SECOND,
                 carry := 0, consumed := 0, overdraft := 0, penalty := 0), now)
  }

  function NewCaller(c: Config, now: int): State
  {
    State(c, now, now + c.periodSec * SECOND, 0, 0, 0, 0, map[], Books(map[], {}, 0, true))
  }

  /** RechargeBudget: only the limit changes. */
  function Recharge(s: State, limit: int): State
  {
    s.(config := s.config.(limit := limit), books := s.books.(steady := false))
  }

  // --------------------------------------------------------------- holdings

  function StartHolding(s: State, l: string, acquiredAt: int, expiresAt: int): State
  {
    var start := if acquiredAt < s.periodStart then s.periodStart else acquiredAt;
    var whole := acquiredAt >= s.periodStart;
    s.(holdings := s.holdings[l := Holding(acquiredAt, expiresAt, start, 0)],
       books := s.books.(raw := s.books.raw[l := 0],
                         clean := if whole then s.books.clean + {l} else s.books.clean - {l}))
  }

  /** The last charge of StopHolding, before the holding is removed. */
  function Settle(s: State, l: string, releasedAt: int): State
    requires l in s.holdings
  {
    var units := Ceil(releasedAt - s.holdings[l].last);
    if s.holdings[l].last < releasedAt then NoteOverdraft(Charge(s, l, units, releasedAt)) else s
  }

  /** StopHolding: the new state and the units it reports. */
  function StopHolding(s: State, l: string, releasedAt: int): (State, int)
  {
    if l !in s.holdings then (s, 0)
    else
      var t := Settle(s, l, releasedAt);
      (Forget(t, {l}), t.holdings[l].accrued)
  }

  function RenewHolding(s: State, l: string, expiresAt: int): State
  {
    if l !in s.holdings then s
    else s.(holdings := s.holdings[l := s.holdings[l].(expiresAt := expiresAt)])
  }

  // -------------------------------------------------------------- transfers

  function Send(s: State, amount: int): State
  {
    NoteOverdraft(s.(consumed := s.consumed + amount, books := s.books.(steady := false)))
  }

  function Receive(s: State, amount: int): State
  {
    var left := if s.consumed - amount < 0 then 0 else s.consumed - amount;
    NoteOverdraft(s.(consumed := left, overdraft := 0, books := s.books.(steady := false)))
  }

  // ------------------------------------------------------------------- runs

  datatype Op =
    | DoRefresh(closing: seq<string>, order: seq<string>, now: int, inArrears: bool)
    | DoSetBudget(c: Config, order: seq<string>, now: int, inArrears: bool)
    | DoRecharge(limit: int, now: int)
    | DoStart(l: string, acquiredAt: int, expiresAt: int, now: int)
    | DoStop(l: string, now: int)
    | DoRenew(l: string, expiresAt: int, now: int)
    | DoSend(amount: int, now: int)
    | DoReceive(amount: int, now: int)

  function Step(s: State, op: Op): State
    requires s.config.periodSec > 0
  {
    match op
    case DoRefresh(closing, order, now, inArrears) => Refresh(s, closing, order, now, inArrears)
    case DoSetBudget(c, order, now, inArrears) => SetBudget(s, c, order, now, inArrears)
    case DoRecharge(limit, _) => Recharge(s, limit)
    case DoStart(l, acquiredAt, expiresAt, _) => StartHolding(s, l, acquiredAt, expiresAt)
    case DoStop(l, now) => StopHolding(s, l, now).0
    case DoRenew(l, expiresAt, _) => RenewHolding(s, l, expiresAt)
    case DoSend(amount, _) => Send(s, amount)
    case DoReceive(amount, _) => Receive(s, amount)
  }
}
