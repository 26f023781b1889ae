/** Metering by polling charges a lock for the time it was held: never more than
    the seconds rounded up, and exactly that when nothing interrupted it. */
module BudgetMetering {
  import opened Basics
  import opened BudgetState

  ghost predicate HoldingOk(s: State, l: string, clock: int)
    requires l in s.holdings
  {
    var h := s.holdings[l];
    var raw := RawOf(s, l);
    && h.acquiredAt <= h.last <= clock
    && 0 <= raw && raw * SECOND <= h.last - h.acquiredAt
    && (l in s.books.clean ==>
        && raw * SECOND == h.last - h.acquiredAt
        && raw <= h.accrued <= 2 * raw
        && (s.config.overdraftLimit <= 0 ==> h.accrued == raw))
  }

  /** No holding is charged for more time than it was metered. */
  ghost predicate Metered(s: State, clock: int)
  {
    && s.config.periodSec > 0 && s.periodStart <= clock
    && s.books.raw.Keys == s.holdings.Keys && s.books.clean <= s.holdings.Keys
    && forall l :: l in s.holdings ==> HoldingOk(s, l, clock)
  }

  /** At most the holding l differs. */
  ghost predicate OnlyHolding(s: State, t: State, l: string)
  {
    && t.config == s.config && t.periodStart == s.periodStart && t.periodEnd == s.periodEnd && t.carry == s.carry
    && t.holdings.Keys == s.holdings.Keys && t.books.raw.Keys == s.books.raw.Keys
    && t.books.steady == s.books.steady
    && s.books.clean - {l} <= t.books.clean <= s.books.clean
    && forall k :: k in s.holdings && k != l ==> t.holdings[k] == s.holdings[k] && RawOf(t, k) == RawOf(s, k)
  }

  lemma OneHolding(s: State, t: State, l: string, clock: int)
    requires Metered(s, clock) && OnlyHolding(s, t, l)
    requires l in t.holdings ==> HoldingOk(t, l, clock)
    ensures Metered(t, clock)
  {
  }

  lemma ChargeShape(s: State, l: string, units: int, last: int)
    requires l in s.holdings && l in s.books.raw
    ensures OnlyHolding(s, Charge(s, l, units, last), l)
    ensures OnlyHolding(s, NoteOverdraft(Charge(s, l, units, last)), l)
  {
  }

  // ------------------------------------------------------------- the ticks

  /** A charge for whole seconds keeps a holding's account exact. */
  lemma ChargedHolding(s: State, l: string, now: int)
    requires l in s.holdings && HoldingOk(s, l, now) && Floor(now - s.holdings[l].last) > 0
    ensures var units := Floor(now - s.holdings[l].last);
      HoldingOk(NoteOverdraft(Charge(s, l, units, s.holdings[l].last + units * SECOND)), l, now)
  {
  }

  lemma SkipOk(s: State, l: string, last: int, clock: int)
    requires Metered(s, clock) && l in s.holdings && s.holdings[l].last <= last <= clock
    ensures Metered(Skip(s, l, last), clock) && OnlyHolding(s, Skip(s, l, last), l)
  {
  }

  lemma MeterChargeOk(s: State, t: State, l: string, units: int, last: int, now: int)
    requires Metered(s, now) && l in s.holdings && units == Floor(now - s.holdings[l].last) > 0
    requires last == s.holdings[l].last + units * SECOND
    requires t == NoteOverdraft(Charge(s, l, units, last))
    ensures Metered(t, now) && OnlyHolding(s, t, l) && t.books.clean == s.books.clean
  {
    assert HoldingOk(s, l, now) && l in s.books.raw;
    ChargedHolding(s, l, now);
    assert HoldingOk(t, l, now);
    hide *;
    ChargeShape(s, l, units, last);
    ChargeKeepsClean(s, l, units, last);
    OneHolding(s, t, l, now);
  }

  lemma MeterOneOk(s: State, l: string, now: int, inArrears: bool)
    requires Metered(s, now)
    ensures Metered(MeterOne(s, l, now, inArrears), now) && OnlyHolding(s, MeterOne(s, l, now, inArrears), l)
    ensures !inArrears ==> MeterOne(s, l, now, inArrears).books.clean == s.books.clean
  {
    hide Charge;
    hide Skip;
    if l in s.holdings && s.holdings[l].expiresAt > now {
      assert HoldingOk(s, l, now);
      if inArrears {
        SkipOk(s, l, now, now);
      } else if Floor(now - s.holdings[l].last) > 0 {
        var units := Floor(now - s.holdings[l].last);
        var last := s.holdings[l].last + units * SECOND;
        MeterChargeOk(s, NoteOverdraft(Charge(s, l, units, last)), l, units, last, now);
      }
    }
  }

  lemma ChargeKeepsClean(s: State, l: string, units: int, last: int)
    requires l in s.holdings
    ensures NoteOverdraft(Charge(s, l, units, last)).books.clean == s.books.clean
  {
  }

  lemma FinalizeOneOk(s: State, l: string, endTime: int, inArrears: bool, now: int)
    requires Metered(s, now) && endTime <= now
    ensures Metered(FinalizeOne(s, l, endTime, inArrears), now)
    ensures OnlyHolding(s, FinalizeOne(s, l, endTime, inArrears), l)
  {
  }

  /** Config, period and the set of holdings are as before. */
  ghost predicate SamePeriod(s: State, t: State)
  {
    && t.config == s.config && t.periodStart == s.periodStart && t.periodEnd == s.periodEnd
    && t.holdings.Keys == s.holdings.Keys
    && forall l :: l in s.holdings ==>
         t.holdings[l].expiresAt == s.holdings[l].expiresAt && t.holdings[l].acquiredAt == s.holdings[l].acquiredAt
  }

  lemma MeterOneSame(s: State, l: string, now: int, inArrears: bool)
    ensures SamePeriod(s, MeterOne(s, l, now, inArrears))
  {
  }

  lemma {:induction false} MeterWalkOk(s: State, order: seq<string>, now: int, inArrears: bool)
    requires Metered(s, now)
    ensures var t := MeterWalk(s, order, now, inArrears);
      && Metered(t, now) && SamePeriod(s, t)
      && (!inArrears ==> t.books.clean == s.books.clean)
    decreases |order|
  {
    if order != [] {
      var front, l := order[..|order| - 1], order[|order| - 1];
      MeterWalkOk(s, front, now, inArrears);
      var t := MeterWalk(s, front, now, inArrears);
      hide Metered;
      MeterOneOk(t, l, now, inArrears);
      MeterOneSame(t, l, now, inArrears);
    }
  }

  lemma {:induction false} FinalizeOk(s: State, order: seq<string>, endTime: int, inArrears: bool, now: int)
    requires Metered(s, now) && endTime <= now
    ensures Metered(Finalize(s, order, endTime, inArrears), now)
    decreases |order|
  {
    if order != [] {
      var front, l := order[..|order| - 1], order[|order| - 1];
      FinalizeOk(s, front, endTime, inArrears, now);
      FinalizeOneOk(Finalize(s, front, endTime, inArrears), l, endTime, inArrears, now);
    }
  }

  lemma ForgetOk(s: State, gone: set<string>, clock: int)
    requires Metered(s, clock)
    ensures Metered(Forget(s, gone), clock)
  {
  }

  // ----------------------------------------------------------- the periods

  /** The steps of a reset: the new period starts at or before now, and still
      covers now unless the seconds elapsed are a whole number of periods. */
  lemma AdvanceCovers(periodSec: int, end: int, now: int)
    requires periodSec > 0 && end <= now
    ensures var k := PeriodsToAdvance(periodSec, now - end);
      var start := end + (k - 1) * (periodSec * SECOND);
      && start <= now
      && (now < start + periodSec * SECOND <==>
          Floor(now - end) < periodSec || Floor(now - end) % periodSec != 0)
  {
  }

  /** So the period that a reset opens is over already when the seconds elapsed
      since the old one ended are a whole number of periods. */
  lemma ResetCovers(s: State, order: seq<string>, now: int, inArrears: bool)
    requires s.config.periodSec > 0 && s.periodEnd <= now
    ensures var t := CheckReset(s, order, now, inArrears);
      && t.periodStart <= now
      && (now < t.periodEnd <==> Floor(now - s.periodEnd) < s.config.periodSec ||
                                 Floor(now - s.periodEnd) % s.config.periodSec != 0)
  {
    AdvanceCovers(s.config.periodSec, s.periodEnd, now);
    assert Finalize(s, order, s.periodEnd, inArrears).config == s.config;
    hide Finalize;
    hide PeriodsToAdvance;
  }

  lemma RestartOk(s: State, t: State, now: int, clock: int)
    requires Metered(s, clock) && clock <= now
    requires t.holdings == s.holdings && t.books == s.books && t.config.periodSec > 0 && t.periodStart <= now
    ensures Metered(Restart(t, now), now)
  {
  }

  lemma LaterMetered(s: State, clock: int, now: int)
    requires Metered(s, clock) && clock <= now
    ensures Metered(s, now)
  {
  }

  lemma CheckResetOk(s: State, order: seq<string>, now: int, inArrears: bool)
    requires Metered(s, now)
    ensures Metered(CheckReset(s, order, now, inArrears), now)
    ensures now < s.periodEnd ==> CheckReset(s, order, now, inArrears) == s
  {
    if now >= s.periodEnd {
      var t := Finalize(s, order, s.periodEnd, inArrears);
      FinalizeOk(s, order, s.periodEnd, inArrears, now);
      AdvanceCovers(s.config.periodSec, s.periodEnd, now);
      var k := PeriodsToAdvance(s.config.periodSec, now - s.periodEnd);
      var start := s.periodEnd + (k - 1) * (s.config.periodSec * SECOND);
      var carry := if inArrears then 0 else t.overdraft + t.penalty;
      RestartOk(t, t.(periodStart := start, periodEnd := start + s.config.periodSec * SECOND,
                      carry := carry, consumed := carry, overdraft := 0, penalty := 0), now, now);
    }
  }

  lemma RefreshOk(s: State, closing: seq<string>, order: seq<string>, now: int, inArrears: bool)
    requires Metered(s, now)
    ensures Metered(Refresh(s, closing, order, now, inArrears), now)
  {
    CheckResetOk(s, closing, now, inArrears);
    hide Metered;
    var t := CheckReset(s, closing, now, inArrears);
    PeriodSecPositive(t, now);
    MeterWalkOk(t, order, now, inArrears);
    ForgetOk(MeterWalk(t, order, now, inArrears), ExpiredAt(t, now), now);
  }

  lemma PeriodSecPositive(s: State, clock: int)
    requires Metered(s, clock)
    ensures s.config.periodSec > 0
  {
  }

  lemma SetBudgetOk(s: State, c: Config, order: seq<string>, now: int, inArrears: bool)
    requires Metered(s, now)
    ensures Metered(SetBudget(s, c, order, now, inArrears), now)
  {
    if c.limit > 0 && c.periodSec > 0 {
      var cfg := if c.overdraftLimit < 0 then c.(overdraftLimit := 0) else c;
      var t := Finalize(s, order, now, inArrears);
      FinalizeOk(s, order, now, inArrears, now);
      RestartOk(t, t.(config := cfg, periodStart := now, periodEnd := now + cfg.periodSec * SECOND,
                      carry := 0, consumed := 0, overdraft := 0, penalty := 0), now, now);
    }
  }

  // ------------------------------------------------- start, stop, transfer

  lemma StartOk(s: State, l: string, acquiredAt: int, expiresAt: int, now: int)
    requires Metered(s, now) && acquiredAt <= now
    ensures Metered(StartHolding(s, l, acquiredAt, expiresAt), now)
  {
  }

  lemma StopOk(s: State, l: string, now: int)
    requires Metered(s, now)
    ensures Metered(StopHolding(s, l, now).0, now)
  {
    if l in s.holdings {
      var t := Forget(Settle(s, l, now), {l});
      var u := Forget(s, {l});
      ForgetOk(s, {l}, now);
      forall k | k in t.holdings
        ensures HoldingOk(t, k, now)
      {
        assert HoldingOk(u, k, now);
      }
    }
  }

  lemma RenewOk(s: State, l: string, expiresAt: int, now: int)
    requires Metered(s, now)
    ensures Metered(RenewHolding(s, l, expiresAt), now)
  {
  }

  /** Balances and limits do not enter the metering. */
  lemma BalanceOk(s: State, t: State, now: int)
    requires Metered(s, now)
    requires t.holdings == s.holdings && t.books.raw == s.books.raw && t.books.clean == s.books.clean
    requires t.periodStart == s.periodStart && t.config == s.config.(limit := t.config.limit)
    ensures Metered(t, now)
  {
  }

  // ------------------------------------------------------------------ runs

  /** The clock does not go back; a lock is reported no earlier than acquired. */
  predicate Legal(op: Op, clock: int)
  {
    clock <= op.now && (op.DoStart? ==> op.acquiredAt <= op.now)
  }

  lemma StepMetered(s: State, op: Op, clock: int)
    requires Metered(s, clock) && Legal(op, clock)
    ensures Metered(Step(s, op), op.now)
  {
    LaterMetered(s, clock, op.now);
    PeriodSecPositive(s, clock);
    hide Metered;
    match op
    case DoRefresh(closing, order, now, inArrears) => RefreshOk(s, closing, order, now, inArrears);
    case DoSetBudget(c, order, now, inArrears) => SetBudgetOk(s, c, order, now, inArrears);
    case DoRecharge(limit, now) => BalanceOk(s, Recharge(s, limit), now);
    case DoStart(l, acquiredAt, expiresAt, now) => StartOk(s, l, acquiredAt, expiresAt, now);
    case DoStop(l, now) => StopOk(s, l, now);
    case DoRenew(l, expiresAt, now) => RenewOk(s, l, expiresAt, now);
    case DoSend(amount, now) => BalanceOk(s, Send(s, amount), now);
    case DoReceive(amount, now) => BalanceOk(s, Receive(s, amount), now);
  }

  predicate LegalRun(ops: seq<Op>, clock: int)
    decreases |ops|
  {
    ops == [] || (Legal(ops[0], clock) && LegalRun(ops[1..], ops[0].now))
  }

  function LastTime(ops: seq<Op>, clock: int): int
    decreases |ops|
  {
    if ops == [] then clock else LastTime(ops[1..], ops[0].now)
  }

  ghost function Run(s: State, ops: seq<Op>, clock: int): State
    requires Metered(s, clock) && LegalRun(ops, clock)
    decreases |ops|
  {
    if ops == [] then s
    else
      StepMetered(s, ops[0], clock);
      Run(Step(s, ops[0]), ops[1..], ops[0].now)
  }

  lemma {:induction false} RunMetered(s: State, ops: seq<Op>, clock: int)
    requires Metered(s, clock) && LegalRun(ops, clock)
    ensures Metered(Run(s, ops, clock), LastTime(ops, clock))
    decreases |ops|
  {
    hide Metered;
    if ops != [] {
      StepMetered(s, ops[0], clock);
      PeriodSecPositive(s, clock);
      RunMetered(Step(s, ops[0]), ops[1..], ops[0].now);
    }
  }

  /** A caller with periods of a minute, refreshed a minute after its first one
      ended: the period just opened ends at that instant. */
  lemma ResetAlreadyOver()
    ensures var s := NewCaller(Config(10, 60, 0), 0); var ops := [DoRefresh([], [], 120 * SECOND, false)];
      Metered(s, 0) && LegalRun(ops, 0) && Run(s, ops, 0).periodEnd == 120 * SECOND
  {
    var s := NewCaller(Config(10, 60, 0), 0);
    var ops := [DoRefresh([], [], 120 * SECOND, false)];
    assert ops[1..] == [] && Finalize(s, [], s.periodEnd, false) == s;
    assert PeriodsToAdvance(60, 60 * SECOND) == 1;
    assert Step(s, ops[0]).periodEnd == 120 * SECOND;
    assert LegalRun([], 120 * SECOND);
    StepMetered(s, ops[0], 0);
    assert Run(s, ops, 0) == Run(Step(s, ops[0]), [], 120 * SECOND);
  }

  // ----------------------------------------------------------- what is paid

  /** Units charged in all, before penalty, to a lock released at `releasedAt`. */
  function ChargedAtRelease(s: State, l: string, releasedAt: int): int
    requires l in s.holdings
  {
    RawOf(Settle(s, l, releasedAt), l)
  }

  /** At release a lock has been charged at most the seconds it was held,
      rounded up, whatever resets, new budgets and spells of arrears it went
      through; and exactly those seconds when its metering was never
      interrupted. StopHolding then reports that many units when the caller has
      no overdraft, and at most twice as many otherwise. */
  lemma ChargedForTimeHeld(s: State, l: string, releasedAt: int, clock: int)
    requires Metered(s, clock) && l in s.holdings && clock <= releasedAt
    ensures var held := Ceil(releasedAt - s.holdings[l].acquiredAt);
      var reported := StopHolding(s, l, releasedAt).1;
      && ChargedAtRelease(s, l, releasedAt) <= held
      && (l in s.books.clean ==>
          && ChargedAtRelease(s, l, releasedAt) == held
          && held <= reported <= 2 * held
          && (s.config.overdraftLimit <= 0 ==> reported == held))
  {
  }

  /** Nothing in op interrupts l: it is not restarted, stopped or expired, no
      period ends, no budget is set and the caller is not in arrears. */
  predicate Quiet(s: State, op: Op, l: string)
  {
    match op
    case DoRefresh(_, _, now, inArrears) =>
      !inArrears && now < s.periodEnd && (l in s.holdings ==> now < s.holdings[l].expiresAt)
    case DoSetBudget(_, _, _, _) => false
    case DoStart(k, _, _, _) => k != l
    case DoStop(k, _) => k != l
    case _ => true
  }

  ghost predicate QuietRun(s: State, ops: seq<Op>, l: string, clock: int)
    requires Metered(s, clock) && LegalRun(ops, clock)
    decreases |ops|
  {
    ops == [] || (
      StepMetered(s, ops[0], clock);
      Quiet(s, ops[0], l) && QuietRun(Step(s, ops[0]), ops[1..], l, ops[0].now))
  }

  /** l is held since acquiredAt and metered without interruption. */
  ghost predicate Steady(s: State, l: string, acquiredAt: int)
  {
    l in s.holdings && l in s.books.clean && s.holdings[l].acquiredAt == acquiredAt
  }

  lemma QuietKeeps(s: State, op: Op, l: string, acquiredAt: int, clock: int)
    requires Metered(s, clock) && Legal(op, clock) && Quiet(s, op, l) && Steady(s, l, acquiredAt)
    ensures Step(s, op).config == s.config.(limit := Step(s, op).config.limit)
    ensures Steady(Step(s, op), l, acquiredAt)
  {
    if op.DoRefresh? {
      LaterMetered(s, clock, op.now);
      CheckResetOk(s, op.closing, op.now, op.inArrears);
      MeterWalkOk(s, op.order, op.now, op.inArrears);
    }
  }

  lemma {:induction false} QuietRunKeeps(s: State, ops: seq<Op>, l: string, acquiredAt: int, clock: int)
    requires Metered(s, clock) && LegalRun(ops, clock)
    requires QuietRun(s, ops, l, clock) && Steady(s, l, acquiredAt)
    ensures Steady(Run(s, ops, clock), l, acquiredAt)
    ensures Run(s, ops, clock).config.overdraftLimit == s.config.overdraftLimit
    decreases |ops|
  {
    hide Metered;
    if ops != [] {
      StepMetered(s, ops[0], clock);
      PeriodSecPositive(s, clock);
      QuietKeeps(s, ops[0], l, acquiredAt, clock);
      QuietRunKeeps(Step(s, ops[0]), ops[1..], l, acquiredAt, ops[0].now);
    }
  }

  /** The state in which the holding l has just started. */
  ghost function Opened(s: State, l: string, acquiredAt: int, expiresAt: int, now: int): (t: State)
    requires Metered(s, now) && acquiredAt <= now
    ensures Metered(t, now)
  {
    StartOk(s, l, acquiredAt, expiresAt, now);
    StartHolding(s, l, acquiredAt, expiresAt)
  }

  /** Polling does not matter: a lock that starts in this period and is released
      before a period ends, a budget is set, it expires or arrears begin is
      charged the seconds it was held, rounded up, whatever ticks, refreshes,
      renewals, transfers and other locks come in between. */
  lemma PollingIndependent(s: State, l: string, acquiredAt: int, expiresAt: int, now: int, ops: seq<Op>,
                           releasedAt: int)
    requires Metered(s, now) && s.periodStart <= acquiredAt <= now
    requires LegalRun(ops, now) && LastTime(ops, now) <= releasedAt
    requires QuietRun(Opened(s, l, acquiredAt, expiresAt, now), ops, l, now)
    ensures var t := Run(Opened(s, l, acquiredAt, expiresAt, now), ops, now);
      && l in t.holdings
      && ChargedAtRelease(t, l, releasedAt) == Ceil(releasedAt - acquiredAt)
      && (s.config.overdraftLimit <= 0 ==> StopHolding(t, l, releasedAt).1 == Ceil(releasedAt - acquiredAt))
  {
    var s1 := Opened(s, l, acquiredAt, expiresAt, now);
    assert Steady(s1, l, acquiredAt);
    hide Metered;
    QuietRunKeeps(s1, ops, l, acquiredAt, now);
    RunMetered(s1, ops, now);
    ChargedForTimeHeld(Run(s1, ops, now), l, releasedAt, LastTime(ops, now));
  }
}
