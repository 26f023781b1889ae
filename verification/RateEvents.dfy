/** Every operation of the limiter, seen from one caller, is a list of the events
    that RateBounds speaks about. */
module RateEvents {
  import opened Totals
  import opened RateState
  import opened RateInvariant
  import opened RateReservations
  import opened RateBounds

  // ------------------------------------------ what an operation does to a caller

  function Lowered(before: int, after: int): nat
  {
    if before > after then before - after else 0
  }

  function UsedBy(s: State, c: string): int
  {
    if c in s.bindings then s.bindings[c].used else 0
  }

  /** Tokens of caller c granted by the queue loop. */
  function GrantedFrom(s: State, q: seq<Waiting>, now: int, decay: Decay, c: string): int
    requires WellFormed(s)
  {
    if q == [] then 0
    else
      var front, item := q[..|q| - 1], q[|q| - 1];
      var t := GrantQueued(s, front, now, decay).0;
      var kept := |GrantQueued(s, q, now, decay).1| > |GrantQueued(s, front, now, decay).1|;
      GrantedFrom(s, front, now, decay, c) +
      (if item.caller == c && item.timeoutAt > now && Known(t, c) && !kept then item.tokens else 0)
  }

  /** The state in which the background loop ticks the bindings. */
  function AfterReservations(s: State, order: seq<int>, now: int): State
  {
    AdvanceAll(s.(waitQueue := DropExpired(s.waitQueue, now)), order, now)
  }

  /** The state in which the background loop starts to grant. */
  function BeforeGrants(s: State, order: seq<int>, now: int, decay: Decay): State
    requires WellFormed(s)
  {
    TickAll(AfterReservations(s, order, now), now, decay)
  }

  /** Tokens one operation grants to caller c. */
  ghost function GrantedBy(s: State, op: Op, now: int, decay: Decay, c: string): int
    requires WellFormed(s)
  {
    match op
    case DoRequest(k, tokens, waitable, waitSec) =>
      if k == c && Request(s, k, tokens, waitable, waitSec, now, decay).1.Granted? then tokens else 0
    case DoRefillTick(order) =>
      var t := BeforeGrants(s, order, now, decay);
      GrantedFrom(t, t.waitQueue, now, decay, c)
    case _ => 0
  }

  ghost function ReturnedBy(op: Op, c: string): int
  {
    if op.DoReturn? && op.c == c then op.tokens else 0
  }

  /** The walk of the reservation tick that an operation performs, if any. */
  ghost predicate TicksReservations(s: State, op: Op)
  {
    op.DoReservationTick? || op.DoRefillTick? || (op.DoStatus? && Known(s, op.c))
  }

  /** Used tokens of c that the clamp cuts off while reservations end. */
  ghost function CutBy(s: State, op: Op, now: int, c: string): nat
  {
    if TicksReservations(s, op) then Lowered(UsedBy(s, c), UsedBy(AdvanceAll(s, op.order, now), c)) else 0
  }

  ghost predicate LimitIs(s: State, c: string, limit: int)
  {
    c in s.bindings && EffectiveLimit(s, s.bindings[c]) == limit
  }

  // ------------------------------------------------------------------- meters

  /** The part of a binding that the algorithms read and write. */
  predicate SameMeter(a: Binding, b: Binding)
  {
    a.used == b.used && a.windowStart == b.windowStart && a.lastRefill == b.lastRefill
  }

  lemma TickMeter(a: Binding, b: Binding, p: Policy, limit: int, now: int, decay: Decay)
    requires SameMeter(a, b) && (p.algorithm.FixedWindow? ==> p.windowSec > 0)
    ensures SameMeter(Tick(a, p, limit, now, decay), Tick(b, p, limit, now, decay))
  {
  }

  lemma ApplyMeter(a: Binding, b: Binding, p: Policy, limit: int, e: Event, decay: Decay)
    requires SameMeter(a, b) && (p.algorithm.FixedWindow? ==> p.windowSec > 0)
    ensures SameMeter(Apply(a, p, limit, e, decay), Apply(b, p, limit, e, decay))
    ensures GrantOf(a, p, limit, e, decay) == GrantOf(b, p, limit, e, decay)
  {
    TickMeter(a, b, p, limit, e.now, decay);
    hide Tick;
  }

  lemma {:induction false} AfterMeter(a: Binding, b: Binding, p: Policy, limit: int, events: seq<Event>, decay: Decay)
    requires SameMeter(a, b) && (p.algorithm.FixedWindow? ==> p.windowSec > 0)
    ensures SameMeter(After(a, p, limit, events, decay), After(b, p, limit, events, decay))
    ensures GrantedOver(a, p, limit, events, decay) == GrantedOver(b, p, limit, events, decay)
    decreases |events|
  {
    if events != [] {
      ApplyMeter(a, b, p, limit, events[0], decay);
      hide SameMeter;
      AfterMeter(Apply(a, p, limit, events[0], decay), Apply(b, p, limit, events[0], decay), p, limit, events[1..],
                 decay);
    }
  }

  lemma {:induction false} AfterConcat(b: Binding, p: Policy, limit: int, e: seq<Event>, f: seq<Event>, decay: Decay)
    requires p.algorithm.FixedWindow? ==> p.windowSec > 0
    ensures After(b, p, limit, e + f, decay) == After(After(b, p, limit, e, decay), p, limit, f, decay)
    ensures GrantedOver(b, p, limit, e + f, decay) ==
            GrantedOver(b, p, limit, e, decay) + GrantedOver(After(b, p, limit, e, decay), p, limit, f, decay)
    ensures ReturnedOver(e + f) == ReturnedOver(e) + ReturnedOver(f)
    decreases |e|
  {
    if e == [] {
      assert e + f == f;
    } else {
      assert (e + f)[1..] == e[1..] + f;
      AfterConcat(Apply(b, p, limit, e[0], decay), p, limit, e[1..], f, decay);
    }
  }

  lemma OneEvent(b: Binding, p: Policy, limit: int, e: Event, decay: Decay)
    requires p.algorithm.FixedWindow? ==> p.windowSec > 0
    ensures After(b, p, limit, [e], decay) == Apply(b, p, limit, e, decay)
    ensures GrantedOver(b, p, limit, [e], decay) == GrantOf(b, p, limit, e, decay)
    ensures ReturnedOver([e]) == ReturnOf(e)
  {
    assert [e][1..] == [];
  }

  /** What the events explain: from binding b to binding b', with so much granted
      and so much coming back, all at one instant. */
  ghost predicate Explains(p: Policy, limit: int, events: seq<Event>, decay: Decay, b: Binding, b': Binding,
                           granted: int, back: int, now: int)
    requires p.algorithm.FixedWindow? ==> p.windowSec > 0
  {
    && SameMeter(b', After(b, p, limit, events, decay))
    && granted == GrantedOver(b, p, limit, events, decay) && back == ReturnedOver(events)
    && forall e :: e in events ==> e.now == now
  }

  lemma ExplainsNothing(p: Policy, limit: int, decay: Decay, b: Binding, b': Binding, now: int)
    requires (p.algorithm.FixedWindow? ==> p.windowSec > 0) && SameMeter(b', b)
    ensures Explains(p, limit, [], decay, b, b', 0, 0, now)
  {
  }

  lemma ExplainsOne(p: Policy, limit: int, e: Event, decay: Decay, b: Binding, b': Binding)
    requires (p.algorithm.FixedWindow? ==> p.windowSec > 0) && SameMeter(b', Apply(b, p, limit, e, decay))
    ensures Explains(p, limit, [e], decay, b, b', GrantOf(b, p, limit, e, decay), ReturnOf(e), e.now)
  {
    OneEvent(b, p, limit, e, decay);
  }

  /** Explanations of consecutive parts of an operation join. */
  lemma ExplainsJoin(p: Policy, limit: int, e: seq<Event>, f: seq<Event>, decay: Decay, b: Binding, b1: Binding,
                     b2: Binding, g1: int, r1: int, g2: int, r2: int, now: int)
    requires p.algorithm.FixedWindow? ==> p.windowSec > 0
    requires Explains(p, limit, e, decay, b, b1, g1, r1, now) && Explains(p, limit, f, decay, b1, b2, g2, r2, now)
    ensures Explains(p, limit, e + f, decay, b, b2, g1 + g2, r1 + r2, now)
  {
    AfterConcat(b, p, limit, e, f, decay);
    AfterMeter(b1, After(b, p, limit, e, decay), p, limit, f, decay);
  }

  // --------------------------------------------------------------- operations

  /** The policy of a known caller. */
  function PolicyOf(s: State, c: string): Policy
    requires Known(s, c)
  {
    s.policies[s.bindings[c].policy]
  }

  /** c keeps its policy. */
  ghost predicate SamePolicy(s: State, t: State, c: string)
  {
    && WellFormed(s) && WellFormed(t) && Known(s, c) && Known(t, c)
    && t.bindings[c].policy == s.bindings[c].policy && PolicyOf(t, c) == PolicyOf(s, c)
  }

  /** c keeps its policy and its limit. */
  ghost predicate SameTerms(s: State, t: State, c: string)
  {
    SamePolicy(s, t, c) && EffectiveLimit(t, t.bindings[c]) == EffectiveLimit(s, s.bindings[c])
  }

  /** From s to t the events tell what happens to c. */
  ghost predicate Told(s: State, t: State, c: string, events: seq<Event>, granted: int, back: int, now: int,
                       decay: Decay)
  {
    && SamePolicy(s, t, c)
    && Explains(PolicyOf(s, c), EffectiveLimit(s, s.bindings[c]), events, decay, s.bindings[c], t.bindings[c],
                granted, back, now)
  }

  lemma ToldNothing(s: State, t: State, c: string, now: int, decay: Decay)
    requires SamePolicy(s, t, c) && SameMeter(t.bindings[c], s.bindings[c])
    ensures Told(s, t, c, [], 0, 0, now, decay)
  {
    ExplainsNothing(PolicyOf(s, c), EffectiveLimit(s, s.bindings[c]), decay, s.bindings[c], t.bindings[c], now);
  }

  lemma ToldOne(s: State, t: State, c: string, e: Event, decay: Decay)
    requires SamePolicy(s, t, c)
    requires SameMeter(t.bindings[c], Apply(s.bindings[c], PolicyOf(s, c), EffectiveLimit(s, s.bindings[c]), e, decay))
    ensures Told(s, t, c, [e], GrantOf(s.bindings[c], PolicyOf(s, c), EffectiveLimit(s, s.bindings[c]), e, decay),
                 ReturnOf(e), e.now, decay)
  {
    ExplainsOne(PolicyOf(s, c), EffectiveLimit(s, s.bindings[c]), e, decay, s.bindings[c], t.bindings[c]);
  }

  lemma ToldJoin(s: State, t: State, u: State, c: string, e: seq<Event>, f: seq<Event>, g1: int, r1: int, g2: int,
                 r2: int, now: int, decay: Decay)
    requires Told(s, t, c, e, g1, r1, now, decay) && Told(t, u, c, f, g2, r2, now, decay) && SameTerms(s, t, c)
    ensures Told(s, u, c, e + f, g1 + g2, r1 + r2, now, decay)
  {
    ExplainsJoin(PolicyOf(s, c), EffectiveLimit(s, s.bindings[c]), e, f, decay, s.bindings[c], t.bindings[c],
                 u.bindings[c], g1, r1, g2, r2, now);
    hide Explains;
    hide EffectiveLimit;
  }

  /** A part that leaves c's meter alone needs no event of its own. */
  lemma ToldOn(s: State, t: State, u: State, c: string, e: seq<Event>, granted: int, back: int, now: int, decay: Decay)
    requires Told(s, t, c, e, granted, back, now, decay)
    requires SamePolicy(t, u, c) && SameMeter(u.bindings[c], t.bindings[c])
    ensures Told(s, u, c, e, granted, back, now, decay)
  {
    hide EffectiveLimit;
  }

  lemma TermsTrans(s: State, t: State, u: State, c: string)
    requires SamePolicy(s, t, c) && SamePolicy(t, u, c)
    ensures SamePolicy(s, u, c)
    ensures SameTerms(s, t, c) && SameTerms(t, u, c) ==> SameTerms(s, u, c)
    ensures SameTerms(s, u, c) && SameTerms(t, u, c) ==> SameTerms(s, t, c)
  {
    hide EffectiveLimit;
  }

  function PollIf(cond: bool, now: int): seq<Event>
  {
    if cond then [Event(now, Poll)] else []
  }

  function Cuts(s: State, order: seq<int>, now: int, c: string): seq<Event>
  {
    [Event(now, Cut(Lowered(UsedBy(s, c), UsedBy(AdvanceAll(s, order, now), c))))]
  }

  /** The ask of one item of the queue, if it is on behalf of c and still in time. */
  function ItemEvents(item: Waiting, now: int, c: string): seq<Event>
  {
    if item.caller == c && item.timeoutAt > now && item.tokens >= 0 then [Event(now, Ask(item.tokens))] else []
  }

  /** The asks of the queue loop on behalf of c. */
  function QueueEvents(q: seq<Waiting>, now: int, c: string): seq<Event>
  {
    if q == [] then []
    else QueueEvents(q[..|q| - 1], now, c) + ItemEvents(q[|q| - 1], now, c)
  }

  /** One operation seen from caller c. */
  ghost function EventsOf(s: State, op: Op, now: int, decay: Decay, c: string): seq<Event>
    requires WellFormed(s)
  {
    match op
    case DoRequest(k, tokens, _, _) => if k == c && tokens >= 0 then [Event(now, Ask(tokens))] else []
    case DoReturn(k, tokens) => if k == c && tokens >= 0 then [Event(now, Back(tokens))] else []
    case DoBorrow(from, to, _) =>
      if from in s.bindings && to in s.bindings then PollIf(from == c, now) + PollIf(to == c, now) else []
    case DoAdjust(k, _) => PollIf(k == c, now)
    case DoReservationTick(order) => Cuts(s, order, now, c)
    case DoRefillTick(order) =>
      Cuts(s, order, now, c) + ([Event(now, Poll)] + QueueEvents(BeforeGrants(s, order, now, decay).waitQueue, now, c))
    case DoStatus(k, order) => if Known(s, k) then Cuts(s, order, now, c) + PollIf(k == c, now) else []
    case _ => []
  }

  /** The operation is told by its events, and c keeps its limit. */
  ghost predicate Explained(s: State, t: State, op: Op, now: int, decay: Decay, c: string)
    requires WellFormed(s)
  {
    SameTerms(s, t, c) &&
    Told(s, t, c, EventsOf(s, op, now, decay, c), GrantedBy(s, op, now, decay, c),
         ReturnedBy(op, c) + CutBy(s, op, now, c),
         now, decay)
  }

  lemma TickedMeter(s: State, k: string, c: string, now: int, decay: Decay)
    requires WellFormed(s) && Known(s, c)
    ensures var t := Ticked(s, k, now, decay);
      && SameTerms(s, t, c) && t == s.(bindings := t.bindings) && t.bindings.Keys == s.bindings.Keys
      && t.bindings[c] == (if k == c then Tick(s.bindings[c], PolicyOf(s, c), EffectiveLimit(s, s.bindings[c]), now,
                                               decay)
                           else s.bindings[c])
  {
    TickFields(s.bindings[c], PolicyOf(s, c), EffectiveLimit(s, s.bindings[c]), now, decay);
    hide Tick;
  }

  lemma PollTold(s: State, k: string, c: string, now: int, decay: Decay)
    requires WellFormed(s) && Known(s, c)
    ensures var t := Ticked(s, k, now, decay);
      SameTerms(s, t, c) && Told(s, t, c, PollIf(k == c, now), 0, 0, now, decay)
  {
    TickedMeter(s, k, c, now, decay);
    var t := Ticked(s, k, now, decay);
    hide Tick;
    hide Ticked;
    if k == c {
      ToldOne(s, t, c, Event(now, Poll), decay);
    } else {
      ToldNothing(s, t, c, now, decay);
    }
    hide Told;
  }

  // ------------------------------------------------------ requests and returns

  lemma RequestTerms(s: State, k: string, tokens: int, waitable: bool, waitSec: int, now: int, decay: Decay, c: string)
    requires WellFormed(s) && Known(s, c)
    ensures var t := Request(s, k, tokens, waitable, waitSec, now, decay).0;
      SameTerms(s, t, c) && (k != c ==> t.bindings[c] == s.bindings[c])
  {
    TickedMeter(s, k, c, now, decay);
    hide Tick;
    hide TickedBinding;
  }

  /** A request seen from its own caller. */
  lemma RequestTold(s: State, c: string, tokens: nat, waitable: bool, waitSec: int, now: int, decay: Decay, clock: int)
    requires Ok(s, clock) && Known(s, c)
    ensures var (t, outcome) := Request(s, c, tokens, waitable, waitSec, now, decay);
      Told(s, t, c, [Event(now, Ask(tokens))], if outcome.Granted? then tokens else 0, 0, now, decay)
  {
    var (t, outcome) := Request(s, c, tokens, waitable, waitSec, now, decay);
    RequestTerms(s, c, tokens, waitable, waitSec, now, decay, c);
    RequestIsAsk(s, c, tokens, waitable, waitSec, now, decay, clock);
    hide Request;
    hide Ok;
    hide Apply;
    hide GrantOf;
    ToldOne(s, t, c, Event(now, Ask(tokens)), decay);
  }

  lemma RequestExplained(s: State, k: string, tokens: int, waitable: bool, waitSec: int, now: int, decay: Decay,
                         c: string, clock: int)
    requires Ok(s, clock) && Known(s, c) && tokens >= 0
    ensures Explained(s, Request(s, k, tokens, waitable, waitSec, now, decay).0,
                      DoRequest(k, tokens, waitable, waitSec), now, decay, c)
  {
    var t := Request(s, k, tokens, waitable, waitSec, now, decay).0;
    RequestTerms(s, k, tokens, waitable, waitSec, now, decay, c);
    if k == c {
      RequestTold(s, c, tokens, waitable, waitSec, now, decay, clock);
    } else {
      ToldNothing(s, t, c, now, decay);
    }
    hide Told;
    hide Request;
    hide Ok;
    hide EffectiveLimit;
  }

  lemma ReturnTerms(s: State, k: string, tokens: int, now: int, decay: Decay, c: string)
    requires WellFormed(s) && Known(s, c)
    ensures var t := Return(s, k, tokens, now, decay);
      SameTerms(s, t, c) && (k != c ==> t.bindings[c] == s.bindings[c])
  {
    TickedMeter(s, k, c, now, decay);
    hide Tick;
    hide TickedBinding;
  }

  lemma ReturnExplained(s: State, k: string, tokens: int, now: int, decay: Decay, c: string, clock: int)
    requires Ok(s, clock) && Known(s, c) && tokens >= 0
    ensures Explained(s, Return(s, k, tokens, now, decay), DoReturn(k, tokens), now, decay, c)
  {
    var t := Return(s, k, tokens, now, decay);
    ReturnTerms(s, k, tokens, now, decay, c);
    if k == c {
      ReturnIsBack(s, c, tokens, now, decay, clock);
      ToldOne(s, t, c, Event(now, Back(tokens)), decay);
    } else {
      ToldNothing(s, t, c, now, decay);
    }
    hide *;
  }

  // --------------------------------------------------------- quiet operations

  /** Operations that leave c's meter alone. */
  predicate Quiet(op: Op)
  {
    op.DoPolicy? || op.DoBind? || op.DoGiveBack? || op.DoReserve? || op.DoCancel?
  }

  /** A clamp to a limit that covers the used tokens changes nothing. */
  lemma ClampIdle(v: State, k: string, c: string)
    requires k in v.bindings && Known(v, c)
    requires v.bindings[c].used <= EffectiveLimit(Clamp(v, k), Clamp(v, k).bindings[c])
    ensures Clamp(v, k).bindings[c] == v.bindings[c]
  {
  }

  lemma GiveBackQuiet(s: State, from: string, to: string, amount: int, c: string)
    requires WellFormed(s) && Known(s, c) && 0 <= s.bindings[c].used <= EffectiveLimit(s, s.bindings[c])
    requires LimitIs(GiveBack(s, from, to, amount).0, c, EffectiveLimit(s, s.bindings[c]))
    ensures var t := GiveBack(s, from, to, amount).0;
      SameTerms(s, t, c) && SameMeter(t.bindings[c], s.bindings[c])
  {
    if from in s.bindings && to in s.bindings {
      var v := Lend(TakeUp(s, from, -amount), to, -amount);
      if GiveBack(s, from, to, amount).0 == Clamp(v, from) {
        ClampIdle(v, from, c);
      }
    }
  }

  lemma CancelQuiet(s: State, id: int, c: string)
    requires WellFormed(s) && Known(s, c) && 0 <= s.bindings[c].used <= EffectiveLimit(s, s.bindings[c])
    requires LimitIs(Cancel(s, id), c, EffectiveLimit(s, s.bindings[c]))
    ensures SameTerms(s, Cancel(s, id), c) && SameMeter(Cancel(s, id).bindings[c], s.bindings[c])
  {
    if id in s.reservations && s.reservations[id].status.Active? && s.reservations[id].caller in s.bindings {
      var r := s.reservations[id];
      var b := s.bindings[r.caller];
      var reserved := if b.reserved >= r.tokens then b.reserved - r.tokens else 0;
      var v := s.(bindings := s.bindings[r.caller := b.(reserved := reserved)]);
      assert Cancel(s, id) == SetStatus(Clamp(v, r.caller), id, Cancelled);
      ClampIdle(v, r.caller, c);
    }
  }

  lemma QuietStep(s: State, op: Op, now: int, decay: Decay, c: string, clock: int)
    requires Ok(s, clock) && Known(s, c) && Quiet(op) && Legal(s, op)
    requires LimitIs(Step(s, op, now, decay), c, EffectiveLimit(s, s.bindings[c]))
    ensures var t := Step(s, op, now, decay);
      SameTerms(s, t, c) && SameMeter(t.bindings[c], s.bindings[c])
  {
    hide Total;
    hide GiveBack;
    hide Cancel;
    hide EffectiveLimit;
    hide ReserveOutcomeOf;
    assert BindingOk(s, s.bindings[c]);
    match op
    case DoGiveBack(from, to, amount) => GiveBackQuiet(s, from, to, amount, c);
    case DoCancel(id) => CancelQuiet(s, id, c);
    case _ =>
  }

  lemma QuietExplained(s: State, t: State, op: Op, now: int, decay: Decay, c: string)
    requires Quiet(op) && SameTerms(s, t, c) && SameMeter(t.bindings[c], s.bindings[c])
    ensures Explained(s, t, op, now, decay, c)
  {
    ToldNothing(s, t, c, now, decay);
  }

  // ---------------------------------------------------------- loans and quotas

  /** After its ticks a loan leaves every meter alone. */
  lemma BorrowTail(t: State, from: string, to: string, amount: int, c: string, clock: int)
    requires Ok(t, clock) && from in t.bindings && to in t.bindings && Known(t, c) && amount >= 0
    requires Remaining(t, t.bindings[from]) >= amount
    ensures var u := Clamp(TakeUp(Lend(t, from, amount), to, amount), from);
      SamePolicy(t, u, c) && SameMeter(u.bindings[c], t.bindings[c])
  {
    LoanOk(t, from, to, amount, clock);
  }

  /** The two ticks of a loan. */
  lemma BorrowPolls(s: State, from: string, to: string, now: int, decay: Decay, c: string, clock: int)
    requires Ok(s, clock) && Known(s, c)
    ensures var t := Ticked(Ticked(s, from, now, decay), to, now, decay);
      Ok(t, clock) && Known(t, c) && Told(s, t, c, PollIf(from == c, now) + PollIf(to == c, now), 0, 0, now, decay)
  {
    var t1 := Ticked(s, from, now, decay);
    TickedOk(s, from, now, decay, clock);
    TickedOk(t1, to, now, decay, clock);
    PollTold(s, from, c, now, decay);
    PollTold(t1, to, c, now, decay);
    hide Explains;
    hide Ok;
    hide Ticked;
    hide PollIf;
    hide EffectiveLimit;
    ToldJoin(s, t1, Ticked(t1, to, now, decay), c, PollIf(from == c, now), PollIf(to == c, now), 0, 0, 0, 0, now,
             decay);
  }

  lemma BorrowTold(s: State, from: string, to: string, amount: int, now: int, decay: Decay, c: string, clock: int)
    requires Ok(s, clock) && Known(s, c) && amount >= 0 && from in s.bindings && to in s.bindings
    ensures Told(s, Borrow(s, from, to, amount, now, decay).0, c, PollIf(from == c, now) + PollIf(to == c, now), 0,
                 0, now, decay)
  {
    var t := Ticked(Ticked(s, from, now, decay), to, now, decay);
    BorrowPolls(s, from, to, now, decay, c, clock);
    BorrowIs(s, from, to, amount, now, decay);
    if Remaining(t, t.bindings[from]) >= amount {
      BorrowTail(t, from, to, amount, c, clock);
      hide *;
      ToldOn(s, t, Clamp(TakeUp(Lend(t, from, amount), to, amount), from), c,
             PollIf(from == c, now) + PollIf(to == c, now),
             0, 0, now, decay);
    }
  }

  lemma BorrowExplained(s: State, from: string, to: string, amount: int, now: int, decay: Decay, c: string, clock: int)
    requires Ok(s, clock) && Known(s, c) && amount >= 0
    requires LimitIs(Borrow(s, from, to, amount, now, decay).0, c, EffectiveLimit(s, s.bindings[c]))
    ensures Explained(s, Borrow(s, from, to, amount, now, decay).0, DoBorrow(from, to, amount), now, decay, c)
  {
    if from in s.bindings && to in s.bindings {
      BorrowTold(s, from, to, amount, now, decay, c, clock);
    } else {
      ToldNothing(s, s, c, now, decay);
    }
    hide Explains;
    hide PollIf;
    hide EffectiveLimit;
    hide Ok;
  }

  /** After its tick a new quota that leaves c's limit leaves its meter, too. */
  lemma AdjustTail(t: State, k: string, quota: int, c: string, clock: int)
    requires Ok(t, clock) && k in t.bindings && Known(t, c)
    requires LimitIs(Clamp(t.(bindings := t.bindings[k := t.bindings[k].(quota := quota)]), k), c,
                     EffectiveLimit(t, t.bindings[c]))
    ensures var u := Clamp(t.(bindings := t.bindings[k := t.bindings[k].(quota := quota)]), k);
      SamePolicy(t, u, c) && SameMeter(u.bindings[c], t.bindings[c])
  {
    assert BindingOk(t, t.bindings[c]);
    ClampIdle(t.(bindings := t.bindings[k := t.bindings[k].(quota := quota)]), k, c);
  }

  lemma AdjustIs(s: State, k: string, quota: int, now: int, decay: Decay)
    requires WellFormed(s)
    ensures var t := Ticked(s, k, now, decay);
      if k in s.bindings
      then k in t.bindings &&
           Adjust(s, k, quota, now, decay) == Clamp(t.(bindings := t.bindings[k := t.bindings[k].(quota := quota)]), k)
      else Adjust(s, k, quota, now, decay) == t
  {
  }

  lemma AdjustTold(s: State, k: string, quota: int, now: int, decay: Decay, c: string, clock: int)
    requires Ok(s, clock) && Known(s, c)
    requires LimitIs(Adjust(s, k, quota, now, decay), c, EffectiveLimit(s, s.bindings[c]))
    ensures Told(s, Adjust(s, k, quota, now, decay), c, PollIf(k == c, now), 0, 0, now, decay)
  {
    var t := Ticked(s, k, now, decay);
    PollTold(s, k, c, now, decay);
    TickedOk(s, k, now, decay, clock);
    AdjustIs(s, k, quota, now, decay);
    if k in s.bindings {
      assert Known(t, c) && EffectiveLimit(t, t.bindings[c]) == EffectiveLimit(s, s.bindings[c]);
      hide *;
      AdjustTail(t, k, quota, c, clock);
      ToldOn(s, t, Adjust(s, k, quota, now, decay), c, PollIf(k == c, now), 0, 0, now, decay);
    }
  }

  lemma AdjustExplained(s: State, k: string, quota: int, now: int, decay: Decay, c: string, clock: int)
    requires Ok(s, clock) && Known(s, c)
    requires LimitIs(Adjust(s, k, quota, now, decay), c, EffectiveLimit(s, s.bindings[c]))
    ensures Explained(s, Adjust(s, k, quota, now, decay), DoAdjust(k, quota), now, decay, c)
  {
    AdjustTold(s, k, quota, now, decay, c, clock);
    hide Explains;
    hide Adjust;
    hide PollIf;
    hide EffectiveLimit;
    hide Ok;
  }

  // ------------------------------------------------------- reservation ticks

  /** c keeps its policy and its stamps, and its used tokens only fall. */
  ghost predicate OnlyCut(s: State, t: State, c: string)
  {
    && SamePolicy(s, t, c)
    && t.bindings[c].windowStart == s.bindings[c].windowStart && t.bindings[c].lastRefill == s.bindings[c].lastRefill
    && 0 <= t.bindings[c].used <= s.bindings[c].used
  }

  lemma FinishCuts(s: State, id: int, status: Status, c: string)
    requires WellFormed(s) && Known(s, c) && s.bindings[c].used >= 0 && id in s.reservations
    ensures OnlyCut(s, Finish(s, id, status), c)
  {
  }

  lemma ActivateCuts(s: State, id: int, c: string)
    requires WellFormed(s) && Known(s, c) && s.bindings[c].used >= 0 && id in s.reservations
    ensures OnlyCut(s, Activate(s, id), c) && Activate(s, id).bindings[c].used == s.bindings[c].used
  {
  }

  lemma AdvanceCuts(s: State, id: int, now: int, c: string)
    requires WellFormed(s) && Known(s, c) && s.bindings[c].used >= 0
    ensures OnlyCut(s, Advance(s, id, now), c)
  {
    if id in s.reservations {
      var r := s.reservations[id];
      var t := s;
      if r.status.Pending? && r.startAt <= now {
        t := Activate(s, id);
        ActivateCuts(s, id, c);
      }
      FinishCuts(t, id, Completed, c);
      hide Activate;
      hide Finish;
    }
  }

  lemma {:induction false} AdvanceAllCuts(s: State, order: seq<int>, now: int, c: string)
    requires WellFormed(s) && Known(s, c) && s.bindings[c].used >= 0
    ensures OnlyCut(s, AdvanceAll(s, order, now), c)
    decreases |order|
  {
    if order != [] {
      AdvanceAllCuts(s, order[..|order| - 1], now, c);
      hide Advance;
      AdvanceCuts(AdvanceAll(s, order[..|order| - 1], now), order[|order| - 1], now, c);
    }
  }

  lemma CutsTold(s: State, order: seq<int>, now: int, decay: Decay, c: string, clock: int)
    requires Ok(s, clock) && Known(s, c)
    ensures var t := AdvanceAll(s, order, now);
      Told(s, t, c, Cuts(s, order, now, c), 0, Lowered(UsedBy(s, c), UsedBy(t, c)), now, decay)
  {
    assert BindingOk(s, s.bindings[c]);
    AdvanceAllCuts(s, order, now, c);
    var t := AdvanceAll(s, order, now);
    hide AdvanceAll;
    hide EffectiveLimit;
    hide Total;
    ToldOne(s, t, c, Event(now, Cut(Lowered(UsedBy(s, c), UsedBy(t, c)))), decay);
  }

  lemma ReservationTickExplained(s: State, order: seq<int>, now: int, decay: Decay, c: string, clock: int)
    requires Ok(s, clock) && Known(s, c)
    requires LimitIs(AdvanceAll(s, order, now), c, EffectiveLimit(s, s.bindings[c]))
    ensures Explained(s, AdvanceAll(s, order, now), DoReservationTick(order), now, decay, c)
  {
    CutsTold(s, order, now, decay, c, clock);
    hide Ok;
    hide AdvanceAll;
    hide Explains;
    hide Cuts;
    hide EffectiveLimit;
  }

  /** The reservation tick and the tick of the caller asked about. */
  lemma StatusTold(s: State, k: string, order: seq<int>, now: int, decay: Decay, c: string, clock: int)
    requires Ok(s, clock) && clock <= now && Known(s, c)
    requires LimitIs(Ticked(AdvanceAll(s, order, now), k, now, decay), c, EffectiveLimit(s, s.bindings[c]))
    ensures var t := AdvanceAll(s, order, now); var u := Ticked(t, k, now, decay);
      && SameTerms(s, u, c)
      && Told(s, u, c, Cuts(s, order, now, c) + PollIf(k == c, now), 0, Lowered(UsedBy(s, c), UsedBy(t, c)), now, decay)
  {
    CutsTold(s, order, now, decay, c, clock);
    var t := AdvanceAll(s, order, now);
    PollTold(t, k, c, now, decay);
    var u := Ticked(t, k, now, decay);
    hide AdvanceAll;
    hide Explains;
    hide Ticked;
    hide EffectiveLimit;
    hide Ok;
    hide Cuts;
    hide PollIf;
    ToldJoin(s, t, u, c, Cuts(s, order, now, c), PollIf(k == c, now), 0, Lowered(UsedBy(s, c), UsedBy(t, c)), 0, 0,
             now, decay);
  }

  lemma StatusExplained(s: State, k: string, order: seq<int>, now: int, decay: Decay, c: string, clock: int)
    requires Ok(s, clock) && clock <= now && Known(s, c)
    requires LimitIs(Step(s, DoStatus(k, order), now, decay), c, EffectiveLimit(s, s.bindings[c]))
    ensures Explained(s, Step(s, DoStatus(k, order), now, decay), DoStatus(k, order), now, decay, c)
  {
    if Known(s, k) {
      StatusTold(s, k, order, now, decay, c, clock);
    } else {
      ToldNothing(s, s, c, now, decay);
    }
    hide Told;
    hide Ok;
    hide AdvanceAll;
    hide Ticked;
    hide EffectiveLimit;
  }

  // ---------------------------------------------------------- background tick

  /** The grant loop serves its last item as a request that cannot wait. */
  lemma LastItem(s: State, q: seq<Waiting>, now: int, decay: Decay)
    requires WellFormed(s) && q != []
    ensures var item := q[|q| - 1];
      var (t, left) := GrantQueued(s, q[..|q| - 1], now, decay);
      var served := item.timeoutAt > now && Known(t, item.caller);
      var (u, outcome) := Request(t, item.caller, item.tokens, false, 0, now, decay);
      GrantQueued(s, q, now, decay) ==
      if !served then (t, left) else if outcome.Granted? then (u, left) else (u, left + [item])
  {
    hide Tick;
  }

  ghost function ItemGrant(t: State, item: Waiting, now: int, decay: Decay, c: string): int
    requires WellFormed(t)
  {
    if item.caller == c && item.timeoutAt > now && Known(t, c) &&
       Request(t, c, item.tokens, false, 0, now, decay).1.Granted? then item.tokens else 0
  }

  /** The turn of one item: an ask if it is c's, nothing to c otherwise. */
  lemma ItemTold(t: State, item: Waiting, now: int, decay: Decay, c: string, clock: int)
    requires Ok(t, clock) && Known(t, c) && item.tokens >= 0
    ensures var u := if item.timeoutAt > now && Known(t, item.caller)
                     then Request(t, item.caller, item.tokens, false, 0, now, decay).0 else t;
      SameTerms(t, u, c) && Told(t, u, c, ItemEvents(item, now, c), ItemGrant(t, item, now, decay, c), 0, now, decay)
  {
    var u := Request(t, item.caller, item.tokens, false, 0, now, decay).0;
    if item.timeoutAt <= now || !Known(t, item.caller) {
      ToldNothing(t, t, c, now, decay);
    } else if item.caller == c {
      RequestTerms(t, c, item.tokens, false, 0, now, decay, c);
      RequestIsAsk(t, c, item.tokens, false, 0, now, decay, clock);
      ToldOne(t, u, c, Event(now, Ask(item.tokens)), decay);
    } else {
      RequestTerms(t, item.caller, item.tokens, false, 0, now, decay, c);
      ToldNothing(t, u, c, now, decay);
    }
    hide Ok;
    hide Told;
    hide Request;
    hide EffectiveLimit;
  }

  /** The grants of the loop, item by item. */
  lemma GrantedLast(s: State, q: seq<Waiting>, now: int, decay: Decay, c: string)
    requires WellFormed(s) && q != []
    ensures GrantedFrom(s, q, now, decay, c) ==
            GrantedFrom(s, q[..|q| - 1], now, decay, c) +
            ItemGrant(GrantQueued(s, q[..|q| - 1], now, decay).0, q[|q| - 1], now, decay, c)
  {
    LastItem(s, q, now, decay);
    hide Request;
  }

  lemma {:induction false} QueueTold(s: State, q: seq<Waiting>, now: int, decay: Decay, c: string, clock: int)
    requires Ok(s, clock) && Known(s, c) && forall w :: w in q ==> w.tokens >= 0
    ensures var t := GrantQueued(s, q, now, decay).0;
      SameTerms(s, t, c) && Told(s, t, c, QueueEvents(q, now, c), GrantedFrom(s, q, now, decay, c), 0, now, decay)
    decreases |q|
  {
    if q == [] {
      ToldNothing(s, s, c, now, decay);
    } else {
      var front, item := q[..|q| - 1], q[|q| - 1];
      assert q == front + [item] && item in q && forall w :: w in front ==> w in q;
      QueueTold(s, front, now, decay, c, clock);
      GrantQueuedOk(s, front, now, decay, clock);
      LastItem(s, q, now, decay);
      GrantedLast(s, q, now, decay, c);
      var t, u := GrantQueued(s, front, now, decay).0, GrantQueued(s, q, now, decay).0;
      assert QueueEvents(q, now, c) == QueueEvents(front, now, c) + ItemEvents(item, now, c);
      assert Known(t, c);
      ItemTold(t, item, now, decay, c, clock);
      hide *;
      ToldJoin(s, t, u, c, QueueEvents(front, now, c), ItemEvents(item, now, c),
               GrantedFrom(s, front, now, decay, c), 0,
               ItemGrant(t, item, now, decay, c), 0, now, decay);
      TermsChain(s, t, u, c);
    }
  }

  lemma TermsChain(s: State, t: State, u: State, c: string)
    requires SameTerms(s, t, c) && SameTerms(t, u, c)
    ensures SameTerms(s, u, c)
  {
    hide EffectiveLimit;
  }

  /** The walk of the reservations does not look at the queue. */
  lemma {:induction false} AdvanceQueue(s: State, q: seq<Waiting>, order: seq<int>, now: int)
    ensures AdvanceAll(s.(waitQueue := q), order, now) == AdvanceAll(s, order, now).(waitQueue := q)
    decreases |order|
  {
    if order != [] {
      AdvanceQueue(s, q, order[..|order| - 1], now);
      hide Advance;
      AdvanceOneQueue(AdvanceAll(s, order[..|order| - 1], now), q, order[|order| - 1], now);
    }
  }

  lemma AdvanceOneQueue(s: State, q: seq<Waiting>, id: int, now: int)
    ensures Advance(s.(waitQueue := q), id, now) == Advance(s, id, now).(waitQueue := q)
  {
    if id in s.reservations {
      FinishQueue(s, q, id);
      FinishQueue(Activate(s, id), q, id);
      hide Finish;
    }
  }

  lemma FinishQueue(s: State, q: seq<Waiting>, id: int)
    requires id in s.reservations
    ensures Finish(s.(waitQueue := q), id, Completed) == Finish(s, id, Completed).(waitQueue := q)
  {
  }

  lemma TickAllTold(s: State, now: int, decay: Decay, c: string)
    requires WellFormed(s) && Known(s, c)
    ensures var t := TickAll(s, now, decay);
      SameTerms(s, t, c) && Told(s, t, c, [Event(now, Poll)], 0, 0, now, decay)
  {
    var t := TickAll(s, now, decay);
    TickFields(s.bindings[c], PolicyOf(s, c), EffectiveLimit(s, s.bindings[c]), now, decay);
    hide Tick;
    ToldOne(s, t, c, Event(now, Poll), decay);
    hide Told;
  }

  /** The ticks and grants of the background loop after its reservation tick. */
  lemma GrantsTold(s2: State, now: int, decay: Decay, c: string)
    requires Ok(s2, now) && Known(s2, c)
    ensures var s3 := TickAll(s2, now, decay);
      var s4 := GrantQueued(s3, s3.waitQueue, now, decay).0;
      && SameTerms(s2, s4, c)
      && Told(s2, s4, c, [Event(now, Poll)] + QueueEvents(s3.waitQueue, now, c),
              GrantedFrom(s3, s3.waitQueue, now, decay, c), 0, now, decay)
  {
    TickAllTold(s2, now, decay, c);
    TickAllOk(s2, now, decay, now);
    var s3 := TickAll(s2, now, decay);
    assert Known(s3, c) && forall w :: w in s3.waitQueue ==> w.tokens >= 0;
    QueueTold(s3, s3.waitQueue, now, decay, c, now);
    var s4 := GrantQueued(s3, s3.waitQueue, now, decay).0;
    hide *;
    TermsChain(s2, s3, s4, c);
    ToldJoin(s2, s3, s4, c, [Event(now, Poll)], QueueEvents(s3.waitQueue, now, c), 0, 0,
             GrantedFrom(s3, s3.waitQueue, now, decay, c), 0, now, decay);
  }

  lemma ReservationsTold(s: State, order: seq<int>, now: int, decay: Decay, c: string, clock: int)
    requires Ok(s, clock) && clock <= now && Known(s, c)
    ensures var s2 := AfterReservations(s, order, now);
      && Ok(s2, now) && Known(s2, c) && SamePolicy(s, s2, c)
      && Told(s, s2, c, Cuts(s, order, now, c), 0, Lowered(UsedBy(s, c), UsedBy(AdvanceAll(s, order, now), c)), now,
              decay)
  {
    var q := DropExpired(s.waitQueue, now);
    DropExpiredSubset(s.waitQueue, now);
    QueueOk(s, q, clock);
    AdvanceAllOk(s.(waitQueue := q), order, clock, now);
    AdvanceQueue(s, q, order, now);
    CutsTold(s, order, now, decay, c, clock);
    var s0 := AdvanceAll(s, order, now);
    hide Ok;
    hide AdvanceAll;
    hide Explains;
    hide Cuts;
    ToldOn(s, s0, s0.(waitQueue := q), c, Cuts(s, order, now, c), 0, Lowered(UsedBy(s, c), UsedBy(s0, c)), now, decay);
  }

  lemma RefillIs(s: State, order: seq<int>, now: int, decay: Decay)
    requires WellFormed(s)
    ensures var t := BeforeGrants(s, order, now, decay);
      && t == TickAll(AfterReservations(s, order, now), now, decay)
      && RefillTick(s, order, now, decay) ==
         GrantQueued(t, t.waitQueue, now, decay).0.(waitQueue := GrantQueued(t, t.waitQueue, now, decay).1)
  {
  }

  lemma RefillExplained(s: State, order: seq<int>, now: int, decay: Decay, c: string, clock: int)
    requires Ok(s, clock) && clock <= now && Known(s, c)
    requires LimitIs(RefillTick(s, order, now, decay), c, EffectiveLimit(s, s.bindings[c]))
    ensures Explained(s, RefillTick(s, order, now, decay), DoRefillTick(order), now, decay, c)
  {
    assert WellFormed(s);
    hide Ok;
    hide Explains;
    hide EffectiveLimit;
    hide AdvanceAll;
    var s2 := AfterReservations(s, order, now);
    ReservationsTold(s, order, now, decay, c, clock);
    GrantsTold(s2, now, decay, c);
    RefillIs(s, order, now, decay);
    var t := BeforeGrants(s, order, now, decay);
    var s4 := GrantQueued(t, t.waitQueue, now, decay).0;
    var u := RefillTick(s, order, now, decay);
    SwapQueue(s4, GrantQueued(t, t.waitQueue, now, decay).1, c);
    var granted, cut := GrantedFrom(t, t.waitQueue, now, decay, c), CutBy(s, DoRefillTick(order), now, c);
    var tail := [Event(now, Poll)] + QueueEvents(t.waitQueue, now, c);
    RefillParts(s, order, now, decay, c);
    assert WellFormed(s) && SamePolicy(s, s2, c);
    LimitBack(s, s2, s4, u, c);
    hide *;
    ToldOn(s2, s4, u, c, tail, granted, 0, now, decay);
    ToldJoin(s, s2, u, c, Cuts(s, order, now, c), tail, 0, cut, granted, 0, now, decay);
    RefillConclusion(s, u, order, now, decay, c, granted, cut, tail);
  }

  /** Exchanging the queue changes no binding. */
  lemma SwapQueue(s: State, q: seq<Waiting>, c: string)
    requires WellFormed(s) && Known(s, c)
    ensures SameTerms(s, s.(waitQueue := q), c) && SameMeter(s.(waitQueue := q).bindings[c], s.bindings[c])
  {
  }

  /** The limit before the grants is the one after them. */
  lemma LimitBack(s: State, s2: State, s4: State, u: State, c: string)
    requires SamePolicy(s, s2, c) && SameTerms(s2, s4, c) && SameTerms(s4, u, c)
    requires LimitIs(u, c, EffectiveLimit(s, s.bindings[c]))
    ensures SameTerms(s, s2, c) && SameTerms(s, u, c) && SamePolicy(s4, u, c)
  {
    hide EffectiveLimit;
  }

  lemma RefillParts(s: State, order: seq<int>, now: int, decay: Decay, c: string)
    requires WellFormed(s)
    ensures var t := BeforeGrants(s, order, now, decay); var op := DoRefillTick(order);
      && EventsOf(s, op, now, decay, c) ==
         Cuts(s, order, now, c) + ([Event(now, Poll)] + QueueEvents(t.waitQueue, now, c))
      && GrantedBy(s, op, now, decay, c) == GrantedFrom(t, t.waitQueue, now, decay, c)
      && ReturnedBy(op, c) == 0
      && CutBy(s, op, now, c) == Lowered(UsedBy(s, c), UsedBy(AdvanceAll(s, order, now), c))
  {
  }

  lemma RefillConclusion(s: State, u: State, order: seq<int>, now: int, decay: Decay, c: string, granted: int, cut: int,
                         tail: seq<Event>)
    requires SameTerms(s, u, c) && Told(s, u, c, Cuts(s, order, now, c) + tail, granted, cut, now, decay)
    requires tail == [Event(now, Poll)] + QueueEvents(BeforeGrants(s, order, now, decay).waitQueue, now, c)
    requires granted == GrantedBy(s, DoRefillTick(order), now, decay, c) && cut == CutBy(s, DoRefillTick(order), now, c)
    ensures Explained(s, u, DoRefillTick(order), now, decay, c)
  {
    RefillParts(s, order, now, decay, c);
    hide *;
  }

  /** Every operation that keeps c's limit is told by its events. */
  lemma StepExplained(s: State, op: Op, now: int, decay: Decay, c: string, clock: int)
    requires Ok(s, clock) && clock <= now && Legal(s, op) && Known(s, c)
    requires LimitIs(Step(s, op, now, decay), c, EffectiveLimit(s, s.bindings[c]))
    ensures Explained(s, Step(s, op, now, decay), op, now, decay, c)
  {
    hide Ok;
    hide Explained;
    hide EffectiveLimit;
    match op
    case DoRequest(k, tokens, waitable, waitSec) =>
      RequestExplained(s, k, tokens, waitable, waitSec, now, decay, c, clock);
    case DoReturn(k, tokens) => ReturnExplained(s, k, tokens, now, decay, c, clock);
    case DoBorrow(from, to, amount) => BorrowExplained(s, from, to, amount, now, decay, c, clock);
    case DoAdjust(k, quota) => AdjustExplained(s, k, quota, now, decay, c, clock);
    case DoReservationTick(order) => ReservationTickExplained(s, order, now, decay, c, clock);
    case DoRefillTick(order) => RefillExplained(s, order, now, decay, c, clock);
    case DoStatus(k, order) => StatusExplained(s, k, order, now, decay, c, clock);
    case _ =>
      QuietStep(s, op, now, decay, c, clock);
      QuietExplained(s, Step(s, op, now, decay), op, now, decay, c);
  }
}
