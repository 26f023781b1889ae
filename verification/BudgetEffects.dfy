/** What a tick, a settlement and a period reset charge and carry over, told from
    the holdings and the balance before them. */
module BudgetEffects {
  import opened Basics
  import opened Totals
  import opened MapWalks
  import opened BudgetState
  import opened BudgetMetering
  import opened BudgetPenalty

  // ---------------------------------------------------------------- the walks

  /** The whole seconds from the last metering of a holding up to an instant. */
  function Owed(h: Holding, upTo: int): nat
  {
    if h.last < upTo then (upTo - h.last) / SECOND else 0
  }

  ghost function OwedBy(s: State, listed: set<string>, upTo: int): map<string, int>
  {
    map l | l in s.holdings && l in listed :: Owed(s.holdings[l], upTo)
  }

  /** The holdings that have not expired. */
  function Live(s: State, now: int): set<string>
  {
    set l | l in s.holdings && now < s.holdings[l].expiresAt
  }

  /** `units` charged: they are in the balance with a penalty in the band of what
      they overdraw it by, and in the books. */
  ghost predicate Charged(s: State, t: State, units: int)
  {
    && t.config == s.config && t.periodStart == s.periodStart && t.periodEnd == s.periodEnd && t.carry == s.carry
    && t.books.steady == s.books.steady
    && t.books.charged == s.books.charged + units
    && t.consumed - t.penalty == s.consumed - s.penalty + units
    && InBand(s.config, s.consumed, units, t.penalty - s.penalty)
  }

  /** The overdraft of t is what its balance is over the limit by, if anything was
      charged and it is over. */
  predicate Noted(s: State, t: State)
  {
    t.overdraft == if t.books.charged > s.books.charged && t.consumed > t.config.limit then t.consumed - t.config.limit
                   else s.overdraft
  }

  lemma ChargedMore(s: State, t: State, u: State, units: int, more: int)
    requires Charged(s, t, units) && units >= 0 && more > 0
    requires var (add, pen) := WithPenalty(t.config, t.consumed, more);
      u.consumed == t.consumed + add && u.penalty == t.penalty + pen
    requires u.books.charged == t.books.charged + more && u.books.steady == t.books.steady
    requires u.config == t.config && u.periodStart == t.periodStart && u.periodEnd == t.periodEnd && u.carry == t.carry
    ensures Charged(s, u, units + more)
  {
    BandStep(s.config, s.consumed, units, t.penalty - s.penalty, more);
    hide WithPenalty;
    hide InBand;
  }

  lemma OwedMore(s: State, listed: set<string>, l: string, upTo: int)
    requires l in s.holdings && l !in listed
    ensures Total(OwedBy(s, listed + {l}, upTo)) == Total(OwedBy(s, listed, upTo)) + Owed(s.holdings[l], upTo)
  {
    assert OwedBy(s, listed + {l}, upTo) == OwedBy(s, listed, upTo)[l := Owed(s.holdings[l], upTo)];
    TotalUpdate(OwedBy(s, listed, upTo), l, Owed(s.holdings[l], upTo));
  }

  lemma OwedNotNegative(s: State, listed: set<string>, upTo: int)
    ensures Total(OwedBy(s, listed, upTo)) >= 0
  {
    TotalMonotone(map[], OwedBy(s, listed, upTo));
  }

  // ------------------------------------------------------------------- ticks

  /** h' is h with `units` more seconds metered and charged, once or up to twice. */
  predicate HoldingCharged(h: Holding, h': Holding, units: nat, last: int)
  {
    && h'.acquiredAt == h.acquiredAt && h'.expiresAt == h.expiresAt && h'.last == last
    && h.accrued + units <= h'.accrued <= h.accrued + 2 * units
  }

  /** The listed holdings have been charged the whole seconds since they were last
      metered and are metered up to there; the others are untouched. */
  ghost predicate MeteredTo(s: State, t: State, listed: set<string>, now: int)
  {
    && Charged(s, t, Total(OwedBy(s, listed, now))) && Noted(s, t)
    && t.holdings.Keys == s.holdings.Keys && t.books.clean == s.books.clean
    && forall l :: l in s.holdings ==> MeteredAt(s, t, listed, l, now)
  }

  ghost predicate MeteredAt(s: State, t: State, listed: set<string>, l: string, now: int)
    requires l in s.holdings && l in t.holdings
  {
    if l in listed then
      var units := Owed(s.holdings[l], now);
      && HoldingCharged(s.holdings[l], t.holdings[l], units, s.holdings[l].last + units * SECOND)
      && RawOf(t, l) == RawOf(s, l) + units
    else t.holdings[l] == s.holdings[l] && RawOf(t, l) == RawOf(s, l)
  }

  lemma PenaltyAtMost(c: Config, consumed: int, units: int)
    requires units > 0
    ensures var (add, pen) := WithPenalty(c, consumed, units);
      add == units + pen && 0 <= pen <= units
  {
  }

  /** One holding charged, and nothing else. */
  ghost predicate OneCharged(t: State, u: State, l: string, units: nat, last: int)
    requires l in t.holdings
  {
    && u.config == t.config && u.periodStart == t.periodStart && u.periodEnd == t.periodEnd && u.carry == t.carry
    && u.books.steady == t.books.steady && u.books.charged == t.books.charged + units
    && u.consumed == t.consumed + WithPenalty(t.config, t.consumed, units).0
    && u.penalty == t.penalty + WithPenalty(t.config, t.consumed, units).1
    && u.holdings.Keys == t.holdings.Keys
    && HoldingCharged(t.holdings[l], u.holdings[l], units, last) && RawOf(u, l) == RawOf(t, l) + units
    && forall k :: k in t.holdings && k != l ==> u.holdings[k] == t.holdings[k] && RawOf(u, k) == RawOf(t, k)
  }

  lemma ChargeIsOne(t: State, l: string, units: int, last: int)
    requires l in t.holdings && units > 0
    ensures var u := Charge(t, l, units, last);
      OneCharged(t, u, l, units, last) && u.overdraft == t.overdraft && u.books.clean == t.books.clean
  {
    PenaltyAtMost(t.config, t.consumed, units);
    hide WithPenalty;
  }

  lemma MeterIsOne(t: State, l: string, now: int)
    requires l in t.holdings && now < t.holdings[l].expiresAt
    ensures var u := MeterOne(t, l, now, false); var units := Owed(t.holdings[l], now);
      if units == 0 then u == t
      else
        && OneCharged(t, u, l, units, t.holdings[l].last + units * SECOND) && u.books.clean == t.books.clean
        && u.overdraft == (if u.consumed > u.config.limit then u.consumed - u.config.limit else t.overdraft)
  {
    var units := Owed(t.holdings[l], now);
    if units > 0 {
      ChargeIsOne(t, l, units, t.holdings[l].last + units * SECOND);
      hide Charge;
    }
  }

  /** A charge for the whole seconds of one more holding. */
  lemma MeterOneMore(s: State, t: State, listed: set<string>, l: string, now: int)
    requires MeteredTo(s, t, listed, now) && l in s.holdings && l !in listed && now < s.holdings[l].expiresAt
    ensures MeteredTo(s, MeterOne(t, l, now, false), listed + {l}, now)
  {
    var u := MeterOne(t, l, now, false);
    var units := Owed(s.holdings[l], now);
    assert MeteredAt(s, t, listed, l, now);
    hide MeteredTo;
    MeterIsOne(t, l, now);
    hide *;
    if units == 0 {
      MeteredSame(s, t, listed, l, now);
    } else {
      MeteredMore(s, t, u, listed, l, now);
    }
  }

  /** One more holding charged what it owes. */
  lemma ChargedOneMore(s: State, t: State, u: State, listed: set<string>, l: string, upTo: int, last: int)
    requires l in s.holdings && l !in listed && l in t.holdings && Owed(s.holdings[l], upTo) > 0
    requires Charged(s, t, Total(OwedBy(s, listed, upTo)))
    requires OneCharged(t, u, l, Owed(s.holdings[l], upTo), last)
    ensures Charged(s, u, Total(OwedBy(s, listed + {l}, upTo))) && Total(OwedBy(s, listed, upTo)) >= 0
  {
    OwedMore(s, listed, l, upTo);
    OwedNotNegative(s, listed, upTo);
    hide Total;
    hide InBand;
    hide WithPenalty;
    hide HoldingCharged;
    ChargedMore(s, t, u, Total(OwedBy(s, listed, upTo)), Owed(s.holdings[l], upTo));
    hide Charged;
  }

  lemma MeteredMore(s: State, t: State, u: State, listed: set<string>, l: string, now: int)
    requires MeteredTo(s, t, listed, now) && l in s.holdings && l !in listed && Owed(s.holdings[l], now) > 0
    requires var units := Owed(s.holdings[l], now);
      && OneCharged(t, u, l, units, s.holdings[l].last + units * SECOND) && u.books.clean == t.books.clean
      && u.overdraft == (if u.consumed > u.config.limit then u.consumed - u.config.limit else t.overdraft)
    ensures MeteredTo(s, u, listed + {l}, now)
  {
    var units := Owed(s.holdings[l], now);
    assert MeteredAt(s, t, listed, l, now);
    ChargedOneMore(s, t, u, listed, l, now, s.holdings[l].last + units * SECOND);
    NotedMore(s, t, u, listed, l, units, now);
    hide Total;
    hide InBand;
    hide WithPenalty;
    hide Noted;
    hide Charged;
    hide HoldingCharged;
    hide MeteredAt;
    forall k | k in s.holdings
      ensures MeteredAt(s, u, listed + {l}, k, now)
    {
      MeteredAtMore(s, t, u, listed, l, k, now);
    }
  }

  lemma NotedMore(s: State, t: State, u: State, listed: set<string>, l: string, units: int, now: int)
    requires Noted(s, t) && Charged(s, t, Total(OwedBy(s, listed, now))) && Total(OwedBy(s, listed, now)) >= 0
    requires l in t.holdings && units > 0 && OneCharged(t, u, l, units, t.holdings[l].last + units * SECOND)
    requires u.overdraft == if u.consumed > u.config.limit then u.consumed - u.config.limit else t.overdraft
    ensures Noted(s, u)
  {
    PenaltyAtMost(t.config, t.consumed, units);
    hide Total;
    hide InBand;
    hide WithPenalty;
    hide HoldingCharged;
  }

  lemma MeteredAtMore(s: State, t: State, u: State, listed: set<string>, l: string, k: string, now: int)
    requires k in s.holdings && k in t.holdings && k in u.holdings && l in s.holdings && l in t.holdings && l !in listed
    requires MeteredAt(s, t, listed, k, now) && MeteredAt(s, t, listed, l, now)
    requires var units := Owed(s.holdings[l], now);
      OneCharged(t, u, l, units, s.holdings[l].last + units * SECOND)
    ensures MeteredAt(s, u, listed + {l}, k, now)
  {
    hide WithPenalty;
    hide HoldingCharged;
  }

  lemma MeteredSame(s: State, t: State, listed: set<string>, l: string, now: int)
    requires MeteredTo(s, t, listed, now) && l in s.holdings && l !in listed && Owed(s.holdings[l], now) == 0
    ensures MeteredTo(s, t, listed + {l}, now)
  {
    OwedMore(s, listed, l, now);
    hide Total;
    hide InBand;
  }

  /** The walk so far has metered the live holdings it met. */
  lemma {:induction false} MeterWalkEffect(s: State, order: seq<string>, now: int)
    requires NoRepeats(order)
    ensures MeteredTo(s, MeterWalk(s, order, now, false), (set l | l in order) * Live(s, now), now)
    decreases |order|
  {
    if order == [] {
      var none: set<string> := {};
      assert (set l | l in order) * Live(s, now) == none && OwedBy(s, none, now) == map[];
    } else {
      var front, l := order[..|order| - 1], order[|order| - 1];
      var t := MeterWalk(s, front, now, false);
      assert order == front + [l] && l !in front;
      MeterWalkEffect(s, front, now);
      var listed, more := (set k | k in front) * Live(s, now), (set k | k in order) * Live(s, now);
      if l in s.holdings && now < s.holdings[l].expiresAt {
        assert more == listed + {l} && l !in listed;
        hide MeteredTo;
        MeterOneMore(s, t, listed, l, now);
      } else {
        assert more == listed;
        assert MeterOne(t, l, now, false) == t;
      }
    }
  }

  /** In arrears the time of the live holdings passes uncharged. */
  ghost predicate SkippedTo(s: State, t: State, listed: set<string>, now: int)
  {
    && t == s.(holdings := t.holdings, books := s.books.(clean := s.books.clean - listed))
    && t.holdings.Keys == s.holdings.Keys
    && forall l :: l in s.holdings ==>
         t.holdings[l] == if l in listed then s.holdings[l].(last := now) else s.holdings[l]
  }

  lemma {:induction false} SkipWalkEffect(s: State, order: seq<string>, now: int)
    ensures SkippedTo(s, MeterWalk(s, order, now, true), (set l | l in order) * Live(s, now), now)
    decreases |order|
  {
    if order == [] {
      assert s.books.clean - (set l | l in order) * Live(s, now) == s.books.clean;
    } else {
      var front, l := order[..|order| - 1], order[|order| - 1];
      var t := MeterWalk(s, front, now, true);
      assert order == front + [l];
      SkipWalkEffect(s, front, now);
      var listed, more := (set k | k in front) * Live(s, now), (set k | k in order) * Live(s, now);
      if l in s.holdings && now < s.holdings[l].expiresAt {
        assert more == listed + {l};
        assert s.books.clean - listed - {l} == s.books.clean - more;
      } else {
        assert more == listed;
        assert MeterOne(t, l, now, true) == t;
      }
    }
  }

  /** A tick: exactly the expired holdings are gone. Out of arrears each of the
      others is charged the whole seconds since its last metering, so that less
      than a second of it is left unmetered; in arrears none is charged and their
      metering goes on from now. */
  ghost predicate Ticked(s: State, t: State, now: int, inArrears: bool)
  {
    && t.holdings.Keys == Live(s, now) && t.books.raw.Keys == s.books.raw.Keys - (s.holdings.Keys - Live(s, now))
    && if inArrears then
         && t == s.(holdings := t.holdings, books := s.books.(raw := t.books.raw, clean := {}))
         && forall l :: l in t.holdings ==> t.holdings[l] == s.holdings[l].(last := now) && RawOf(t, l) == RawOf(s, l)
       else
         && Charged(s, t, Total(OwedBy(s, Live(s, now), now))) && Noted(s, t)
         && t.books.clean == s.books.clean * Live(s, now)
         && forall l :: l in t.holdings ==>
              var units := Owed(s.holdings[l], now);
              && HoldingCharged(s.holdings[l], t.holdings[l], units, s.holdings[l].last + units * SECOND)
              && RawOf(t, l) == RawOf(s, l) + units
  }

  lemma ForgetMetered(s: State, w: State, now: int)
    requires MeteredTo(s, w, Live(s, now), now) && w.books.raw.Keys == s.books.raw.Keys
    requires s.books.clean <= s.holdings.Keys
    ensures Ticked(s, Forget(w, ExpiredAt(s, now)), now, false)
  {
    var t := Forget(w, ExpiredAt(s, now));
    var gone := ExpiredAt(s, now);
    assert s.holdings.Keys - gone == Live(s, now) && s.holdings.Keys - Live(s, now) == gone;
    assert s.books.clean - gone == s.books.clean * Live(s, now);
    hide InBand;
    assert Charged(s, t, Total(OwedBy(s, Live(s, now), now))) && Noted(s, t);
    hide Charged;
    hide Noted;
    hide HoldingCharged;
    hide Total;
    forall l | l in t.holdings
      ensures t.holdings[l] == w.holdings[l] && RawOf(t, l) == RawOf(w, l) && l in Live(s, now)
    {
    }
  }

  lemma ForgetSkipped(s: State, w: State, now: int)
    requires SkippedTo(s, w, Live(s, now), now) && s.books.clean <= s.holdings.Keys
    ensures Ticked(s, Forget(w, ExpiredAt(s, now)), now, true)
  {
    var gone := ExpiredAt(s, now);
    assert s.holdings.Keys - gone == Live(s, now) && s.holdings.Keys - Live(s, now) == gone;
    assert s.books.clean - Live(s, now) - gone == {};
  }

  lemma WalkCoversLive(s: State, order: seq<string>, now: int)
    requires Iteration(order, s.holdings.Keys)
    ensures (set l | l in order) * Live(s, now) == Live(s, now)
  {
  }

  lemma MeterEffect(s: State, order: seq<string>, now: int, inArrears: bool)
    requires Metered(s, now) && Iteration(order, s.holdings.Keys)
    ensures Ticked(s, Meter(s, order, now, inArrears), now, inArrears)
  {
    WalkCoversLive(s, order, now);
    if inArrears {
      SkipWalkEffect(s, order, now);
      ForgetSkipped(s, MeterWalk(s, order, now, true), now);
    } else {
      MeterWalkOk(s, order, now, false);
      MeterWalkEffect(s, order, now);
      hide MeteredTo;
      ForgetMetered(s, MeterWalk(s, order, now, false), now);
    }
    hide Ticked;
    hide Forget;
  }

  /** After a tick less than a second of every holding is left unmetered. */
  lemma TickedUpToDate(s: State, t: State, now: int, inArrears: bool)
    requires Metered(s, now) && Ticked(s, t, now, inArrears)
    ensures forall l :: l in t.holdings ==> now < t.holdings[l].expiresAt && t.holdings[l].last <= now
    ensures forall l :: l in t.holdings ==>
      if inArrears then t.holdings[l].last == now else now - t.holdings[l].last < SECOND
  {
    forall l | l in t.holdings
      ensures t.holdings[l].last <= now && now - t.holdings[l].last < SECOND
    {
      assert HoldingOk(s, l, now);
    }
  }

  // ------------------------------------------------------------- settlements

  /** The listed holdings have been charged the whole seconds up to the end of the
      period, if there are any; this is not noted as overdraft. */
  ghost predicate ClosedTo(s: State, t: State, listed: set<string>, end: int)
  {
    && Charged(s, t, Total(OwedBy(s, listed, end))) && t.overdraft == s.overdraft
    && t.holdings.Keys == s.holdings.Keys
    && forall l :: l in s.holdings ==>
         if l in listed && Owed(s.holdings[l], end) > 0 then
           && HoldingCharged(s.holdings[l], t.holdings[l], Owed(s.holdings[l], end), end)
           && RawOf(t, l) == RawOf(s, l) + Owed(s.holdings[l], end)
         else t.holdings[l] == s.holdings[l] && RawOf(t, l) == RawOf(s, l)
  }

  lemma FinalizeIsOne(t: State, l: string, end: int)
    requires l in t.holdings
    ensures var u := FinalizeOne(t, l, end, false); var units := Owed(t.holdings[l], end);
      if units == 0 then u == t else OneCharged(t, u, l, units, end) && u.overdraft == t.overdraft
  {
    var units := Owed(t.holdings[l], end);
    if units > 0 {
      ChargeIsOne(t, l, units, end);
      hide Charge;
    }
  }

  lemma ClosedMore(s: State, t: State, u: State, listed: set<string>, l: string, end: int)
    requires ClosedTo(s, t, listed, end) && l in s.holdings && l !in listed && Owed(s.holdings[l], end) > 0
    requires OneCharged(t, u, l, Owed(s.holdings[l], end), end) && u.overdraft == t.overdraft
    ensures ClosedTo(s, u, listed + {l}, end)
  {
    ChargedOneMore(s, t, u, listed, l, end, end);
    hide Total;
    hide InBand;
    hide WithPenalty;
    hide Charged;
  }

  lemma ClosedSame(s: State, t: State, listed: set<string>, l: string, end: int)
    requires ClosedTo(s, t, listed, end) && l in s.holdings && l !in listed && Owed(s.holdings[l], end) == 0
    ensures ClosedTo(s, t, listed + {l}, end)
  {
    OwedMore(s, listed, l, end);
    hide Total;
    hide InBand;
    hide HoldingCharged;
  }

  lemma FinalizeOneMore(s: State, t: State, listed: set<string>, l: string, end: int)
    requires ClosedTo(s, t, listed, end) && l in s.holdings && l !in listed
    ensures ClosedTo(s, FinalizeOne(t, l, end, false), listed + {l}, end)
  {
    var u := FinalizeOne(t, l, end, false);
    assert t.holdings[l] == s.holdings[l];
    hide ClosedTo;
    FinalizeIsOne(t, l, end);
    hide *;
    if Owed(s.holdings[l], end) > 0 {
      ClosedMore(s, t, u, listed, l, end);
    } else {
      ClosedSame(s, t, listed, l, end);
    }
  }

  lemma {:induction false} FinalizeEffect(s: State, order: seq<string>, end: int)
    requires NoRepeats(order)
    ensures ClosedTo(s, Finalize(s, order, end, false), (set l | l in order) * s.holdings.Keys, end)
    decreases |order|
  {
    if order == [] {
      var none: set<string> := {};
      assert (set l | l in order) * s.holdings.Keys == none && OwedBy(s, none, end) == map[];
    } else {
      var front, l := order[..|order| - 1], order[|order| - 1];
      var t := Finalize(s, front, end, false);
      assert order == front + [l] && l !in front;
      FinalizeEffect(s, front, end);
      var listed, more := (set k | k in front) * s.holdings.Keys, (set k | k in order) * s.holdings.Keys;
      if l in s.holdings {
        assert more == listed + {l};
        hide ClosedTo;
        FinalizeOneMore(s, t, listed, l, end);
      } else {
        assert more == listed;
        assert FinalizeOne(t, l, end, false) == t;
      }
    }
  }

  /** In arrears a settlement charges nothing. */
  lemma {:induction false} FinalizeInArrears(s: State, order: seq<string>, end: int)
    ensures var t := Finalize(s, order, end, true);
      && t == s.(holdings := t.holdings, books := s.books.(clean := t.books.clean))
      && t.holdings.Keys == s.holdings.Keys
    decreases |order|
  {
    if order != [] {
      FinalizeInArrears(s, order[..|order| - 1], end);
    }
  }

  lemma {:induction false} FinalizeKeepsDates(s: State, order: seq<string>, end: int, inArrears: bool)
    ensures SamePeriod(s, Finalize(s, order, end, inArrears))
    decreases |order|
  {
    if order != [] {
      FinalizeKeepsDates(s, order[..|order| - 1], end, inArrears);
    }
  }

  // ---------------------------------------------------- releases and new budgets

  /** A release: the holding is gone; unless it was metered up to the release, its
      seconds since then are charged, rounded up, and noted; and the units reported
      are all that was added to the balance for it in this period. */
  ghost predicate Stopped(s: State, t: State, l: string, releasedAt: int, units: int)
    requires l in s.holdings
  {
    && t.holdings == s.holdings - {l}
    && units == s.holdings[l].accrued + t.consumed - s.consumed
    && Noted(s, t)
    && Charged(s, t, OwedInFull(s.holdings[l], releasedAt))
  }

  function OwedInFull(h: Holding, releasedAt: int): nat
  {
    if h.last < releasedAt then (releasedAt - h.last + SECOND - 1) / SECOND else 0
  }

  lemma StopEffect(s: State, l: string, releasedAt: int)
    requires l in s.holdings
    ensures var (t, units) := StopHolding(s, l, releasedAt);
      Stopped(s, t, l, releasedAt, units)
  {
    var units := OwedInFull(s.holdings[l], releasedAt);
    if units > 0 {
      assert InBand(s.config, s.consumed, 0, 0);
      BandStep(s.config, s.consumed, 0, 0, units);
      hide WithPenalty;
      hide InBand;
    }
  }

  /** A new budget: its period begins now, with nothing consumed and every holding
      metered afresh from now on; an overdraft below zero counts as none. */
  ghost predicate StartedAfresh(s: State, t: State, c: Config, now: int)
  {
    && t.config == c.(overdraftLimit := if c.overdraftLimit < 0 then 0 else c.overdraftLimit)
    && t.periodStart == now && t.periodEnd == now + c.periodSec * SECOND
    && t.consumed == 0 && t.overdraft == 0 && t.penalty == 0 && t.carry == 0
    && t.holdings.Keys == s.holdings.Keys
    && forall l :: l in t.holdings ==> t.holdings[l] == s.holdings[l].(last := now, accrued := 0)
  }

  lemma SetBudgetEffect(s: State, c: Config, order: seq<string>, now: int, inArrears: bool)
    ensures var t := SetBudget(s, c, order, now, inArrears);
      if c.limit <= 0 || c.periodSec <= 0 then t == s else StartedAfresh(s, t, c, now)
  {
    FinalizeKeepsDates(s, order, now, inArrears);
    hide Finalize;
  }

  // ------------------------------------------------------------ period resets

  /** A reset once the period is over: the new period begins a whole number of
      periods after the old one ended; every holding starts afresh now; and, out
      of arrears, it begins with the overdraft last noted in the old period and
      the whole penalty of the old period, that of the closing charges included. */
  ghost predicate ResetTo(s: State, t: State, now: int, inArrears: bool)
  {
    && t.config == s.config && t.periodEnd == t.periodStart + s.config.periodSec * SECOND
    && (exists k: nat :: t.periodStart == PeriodsLater(s, k))
    && t.overdraft == 0 && t.penalty == 0 && t.books == Books(s.books.raw, {}, 0, true).(raw := t.books.raw)
    && t.holdings.Keys == s.holdings.Keys
    && (forall l :: l in t.holdings ==>
          t.holdings[l] == s.holdings[l].(last := now, accrued := 0))
    && t.consumed == t.carry
    && if inArrears then t.carry == 0
       else
         var extra := t.carry - s.overdraft - s.penalty;
         InBand(s.config, s.consumed, Total(OwedBy(s, s.holdings.Keys, s.periodEnd)), extra)
  }

  function PeriodsLater(s: State, k: nat): int
  {
    s.periodEnd + k * (s.config.periodSec * SECOND)
  }

  lemma OpenEffect(s: State, f: State, k: nat, now: int, inArrears: bool)
    requires SamePeriod(s, f)
    requires !inArrears ==> (
      && f.overdraft == s.overdraft
      && InBand(s.config, s.consumed, Total(OwedBy(s, s.holdings.Keys, s.periodEnd)), f.penalty - s.penalty))
    ensures ResetTo(s, OpenPeriod(f, PeriodsLater(s, k), now, inArrears), now, inArrears)
  {
    hide Total;
    hide InBand;
    var t := OpenPeriod(f, PeriodsLater(s, k), now, inArrears);
    assert t.periodStart == PeriodsLater(s, k);
  }

  /** What a settlement at the end of the period leaves for the next one. */
  lemma ClosedPeriod(s: State, order: seq<string>, inArrears: bool)
    requires Iteration(order, s.holdings.Keys)
    ensures var f := Finalize(s, order, s.periodEnd, inArrears);
      && SamePeriod(s, f)
      && (!inArrears ==>
            && f.overdraft == s.overdraft
            && InBand(s.config, s.consumed, Total(OwedBy(s, s.holdings.Keys, s.periodEnd)), f.penalty - s.penalty))
  {
    FinalizeKeepsDates(s, order, s.periodEnd, inArrears);
    if !inArrears {
      FinalizeEffect(s, order, s.periodEnd);
      assert (set l | l in order) * s.holdings.Keys == s.holdings.Keys;
    }
    hide Finalize;
    hide Total;
    hide InBand;
    hide HoldingCharged;
    hide SamePeriod;
  }

  lemma ResetEffect(s: State, order: seq<string>, now: int, inArrears: bool)
    requires s.config.periodSec > 0 && Iteration(order, s.holdings.Keys)
    ensures var t := CheckReset(s, order, now, inArrears);
      if now < s.periodEnd then t == s else ResetTo(s, t, now, inArrears)
  {
    if s.periodEnd <= now {
      var f := Finalize(s, order, s.periodEnd, inArrears);
      var k := PeriodsToAdvance(s.config.periodSec, now - s.periodEnd);
      assert k >= 1;
      assert CheckReset(s, order, now, inArrears) == OpenPeriod(f, PeriodsLater(s, k - 1), now, inArrears);
      ClosedPeriod(s, order, inArrears);
      assert SamePeriod(s, f);
      assert f.config == s.config && f.holdings.Keys == s.holdings.Keys;
      hide *;
      OpenEffect(s, f, k - 1, now, inArrears);
    }
  }

  /** Right after a reset there is nothing to meter. */
  lemma {:induction false} NothingToMeter(r: State, order: seq<string>, now: int, inArrears: bool)
    requires r.books.clean == {} && forall l :: l in r.holdings ==> r.holdings[l].last == now
    ensures MeterWalk(r, order, now, inArrears) == r
    decreases |order|
  {
    if order != [] {
      NothingToMeter(r, order[..|order| - 1], now, inArrears);
      var l := order[|order| - 1];
      if l in r.holdings {
        assert r.holdings[l := r.holdings[l].(last := now)] == r.holdings;
        assert r.books.clean - {l} == r.books.clean;
      }
    }
  }

  /** A refresh after the end of a period carries over the overdraft last noted in
      it and its whole penalty, that of its closing charges included; in arrears
      nothing.  The carry is consumed from the start, overdraft and penalty begin
      at zero. */
  lemma CarriedOver(s: State, closing: seq<string>, order: seq<string>, now: int, inArrears: bool)
    requires s.config.periodSec > 0 && s.periodEnd <= now && Iteration(closing, s.holdings.Keys)
    ensures var t := Step(s, DoRefresh(closing, order, now, inArrears));
      && t.consumed == t.carry && t.overdraft == 0 && t.penalty == 0
      && t.holdings.Keys == Live(s, now)
      && if inArrears then t.carry == 0
         else
           var closingUnits := Total(OwedBy(s, s.holdings.Keys, s.periodEnd));
           InBand(s.config, s.consumed, closingUnits, t.carry - s.overdraft - s.penalty)
  {
    var r := CheckReset(s, closing, now, inArrears);
    ResetEffect(s, closing, now, inArrears);
    hide CheckReset;
    hide Total;
    hide InBand;
    NothingToMeter(r, order, now, inArrears);
    hide MeterWalk;
    assert r.holdings.Keys - ExpiredAt(r, now) == Live(s, now);
  }
}
