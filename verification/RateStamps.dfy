/** The stamps of the algorithms over the runs of the limiter: none is ahead of
    the clock, and windows only ever move by whole widths. */
module RateStamps {
  import opened RateState
  import opened RateInvariant
  import opened RateReservations
  import opened RateBounds
  import opened RateEvents

  /** The algorithm's stamps are not ahead of the clock. */
  ghost predicate Stamped(s: State, clock: int)
  {
    forall c :: c in s.bindings && s.bindings[c].policy in s.policies ==> StampOk(s, s.bindings[c], clock)
  }

  ghost predicate StampOk(s: State, b: Binding, clock: int)
    requires b.policy in s.policies
  {
    && (s.policies[b.policy].algorithm.FixedWindow? ==> b.windowStart <= clock)
    && (s.policies[b.policy].algorithm.TokenBucket? ==> b.lastRefill <= clock)
  }

  /** What a number of whole windows adds to a window start. */
  function WindowsLater(start: int, k: nat, p: Policy): int
  {
    start + k * Width(p)
  }

  ghost predicate OnGrid(p: Policy, start: int, later: int)
  {
    exists k: nat :: later == WindowsLater(start, k, p)
  }

  lemma GridTrans(p: Policy, x: int, y: int, z: int)
    requires OnGrid(p, x, y) && OnGrid(p, y, z)
    ensures OnGrid(p, x, z)
  {
    var i: nat :| y == WindowsLater(x, i, p);
    var j: nat :| z == WindowsLater(y, j, p);
    DistributeInt(i, j, Width(p));
    assert z == WindowsLater(x, i + j, p);
  }

  lemma GridSame(p: Policy, start: int)
    ensures OnGrid(p, start, start)
  {
    assert start == WindowsLater(start, 0, p);
  }

  /** From s to t the callers and their policies are the same. */
  ghost predicate SameBound(s: State, t: State)
  {
    && t.bindings.Keys == s.bindings.Keys
    && forall c :: c in s.bindings ==>
      && t.bindings[c].policy == s.bindings[c].policy
      && (t.bindings[c].policy in t.policies ==>
          t.bindings[c].policy in s.policies && t.policies[t.bindings[c].policy] == s.policies[t.bindings[c].policy])
  }

  /** Up to now the windows have moved by whole widths, and no stamp is ahead. */
  ghost predicate StampsMove(s: State, t: State, now: int)
  {
    && SameBound(s, t) && Stamped(t, now)
    && forall c :: c in s.bindings && t.bindings[c].policy in t.policies ==>
      GridMove(t.policies[t.bindings[c].policy], s.bindings[c], t.bindings[c])
  }

  ghost predicate GridMove(p: Policy, b: Binding, b': Binding)
  {
    p.algorithm.FixedWindow? ==> OnGrid(p, b.windowStart, b'.windowStart)
  }

  lemma MoveTrans(s: State, t: State, u: State, now: int)
    requires StampsMove(s, t, now) && StampsMove(t, u, now)
    ensures StampsMove(s, u, now)
  {
    hide Stamped;
    forall c | c in s.bindings && u.bindings[c].policy in u.policies
      ensures GridMove(u.policies[u.bindings[c].policy], s.bindings[c], u.bindings[c])
    {
      var p := u.policies[u.bindings[c].policy];
      assert GridMove(p, s.bindings[c], t.bindings[c]) && GridMove(p, t.bindings[c], u.bindings[c]);
      if p.algorithm.FixedWindow? {
        GridTrans(p, s.bindings[c].windowStart, t.bindings[c].windowStart, u.bindings[c].windowStart);
      }
    }
  }

  lemma TickStamp(s: State, b: Binding, limit: int, now: int, decay: Decay)
    requires WellFormed(s) && b.policy in s.policies && StampOk(s, b, now)
    ensures var t := Tick(b, s.policies[b.policy], limit, now, decay);
      StampOk(s, t, now) && GridMove(s.policies[b.policy], b, t)
  {
    var p := s.policies[b.policy];
    TickFields(b, p, limit, now, decay);
    if p.algorithm.FixedWindow? {
      var k := WindowTick(b, p, limit, now, decay);
      assert Tick(b, p, limit, now, decay).windowStart == WindowsLater(b.windowStart, k, p);
    }
  }

  /** Callers, policies and stamps are the same. */
  ghost predicate SameStamps(s: State, t: State)
  {
    SameBound(s, t) && forall c :: c in s.bindings ==>
      t.bindings[c].windowStart == s.bindings[c].windowStart && t.bindings[c].lastRefill == s.bindings[c].lastRefill
  }

  lemma SameMove(s: State, t: State, now: int)
    requires Stamped(s, now) && SameStamps(s, t)
    ensures StampsMove(s, t, now)
  {
    forall c | c in s.bindings && t.bindings[c].policy in t.policies
      ensures StampOk(t, t.bindings[c], now)
      ensures GridMove(t.policies[t.bindings[c].policy], s.bindings[c], t.bindings[c])
    {
      assert StampOk(s, s.bindings[c], now);
      GridSame(t.policies[t.bindings[c].policy], s.bindings[c].windowStart);
    }
  }

  lemma StampsTrans(s: State, t: State, u: State)
    requires SameStamps(s, t) && SameStamps(t, u)
    ensures SameStamps(s, u)
  {
  }

  lemma LendStamps(s: State, c: string, amount: int)
    requires c in s.bindings
    ensures SameStamps(s, Lend(s, c, amount)) && SameStamps(s, TakeUp(s, c, amount))
  {
  }

  lemma LoanStamps(s: State, from: string, to: string, lent: int, taken: int, k: string)
    requires from in s.bindings && to in s.bindings && k in s.bindings
    ensures var v := TakeUp(Lend(s, from, lent), to, taken);
      SameStamps(s, v) && SameStamps(s, Clamp(v, k))
  {
    var s1 := Lend(s, from, lent);
    var s2 := TakeUp(s1, to, taken);
    LendStamps(s, from, lent);
    LendStamps(s1, to, taken);
    ClampStamps(s2, k);
    hide *;
    StampsTrans(s, s1, s2);
    StampsTrans(s, s2, Clamp(s2, k));
  }

  lemma ClampStamps(s: State, k: string)
    requires k in s.bindings
    ensures SameStamps(s, Clamp(s, k))
  {
    hide EffectiveLimit;
  }

  lemma TickedMove(s: State, k: string, now: int, decay: Decay)
    requires WellFormed(s) && Stamped(s, now)
    ensures StampsMove(s, Ticked(s, k, now, decay), now)
  {
    var t := Ticked(s, k, now, decay);
    forall c | c in s.bindings
      ensures c in t.bindings && t.bindings[c].policy == s.bindings[c].policy
      ensures s.bindings[c].policy in s.policies ==>
        StampOk(t, t.bindings[c], now) && GridMove(s.policies[s.bindings[c].policy], s.bindings[c], t.bindings[c])
    {
      BindingMove(s, s.bindings[c], if c == k then t.bindings[c] else s.bindings[c], now, decay);
      hide Tick;
    }
  }

  /** A binding that is ticked or left alone. */
  lemma BindingMove(s: State, b: Binding, b': Binding, now: int, decay: Decay)
    requires WellFormed(s) && (b.policy in s.policies ==> StampOk(s, b, now))
    requires b' == b || b' == TickedBinding(s, b, now, decay)
    ensures b'.policy == b.policy
    ensures b.policy in s.policies ==> StampOk(s, b', now) && GridMove(s.policies[b.policy], b, b')
  {
    if b.policy in s.policies {
      var p := s.policies[b.policy];
      GridSame(p, b.windowStart);
      TickStamp(s, b, EffectiveLimit(s, b), now, decay);
      TickFields(b, p, EffectiveLimit(s, b), now, decay);
      hide Tick;
    }
  }

  lemma TickAllMove(s: State, now: int, decay: Decay)
    requires WellFormed(s) && Stamped(s, now)
    ensures StampsMove(s, TickAll(s, now, decay), now)
  {
    var t := TickAll(s, now, decay);
    forall c | c in s.bindings
      ensures t.bindings[c].policy == s.bindings[c].policy
      ensures s.bindings[c].policy in s.policies ==>
        StampOk(t, t.bindings[c], now) && GridMove(s.policies[s.bindings[c].policy], s.bindings[c], t.bindings[c])
    {
      BindingMove(s, s.bindings[c], t.bindings[c], now, decay);
      hide Tick;
    }
  }

  lemma AdvanceStamps(s: State, id: int, now: int)
    ensures SameStamps(s, Advance(s, id, now)) && Advance(s, id, now).policies == s.policies
  {
    if id in s.reservations {
      var t := Activate(s, id);
      ActivateStamps(s, id);
      FinishStamps(s, id);
      FinishStamps(t, id);
      hide Activate;
      hide Finish;
      StampsTrans(s, t, Finish(t, id, Completed));
    }
  }

  lemma ActivateStamps(s: State, id: int)
    requires id in s.reservations
    ensures SameStamps(s, Activate(s, id)) && Activate(s, id).policies == s.policies
  {
  }

  lemma FinishStamps(s: State, id: int)
    requires id in s.reservations
    ensures SameStamps(s, Finish(s, id, Completed)) && Finish(s, id, Completed).policies == s.policies
  {
    hide EffectiveLimit;
  }

  lemma {:induction false} AdvanceAllMove(s: State, order: seq<int>, now: int)
    requires Stamped(s, now)
    ensures StampsMove(s, AdvanceAll(s, order, now), now)
    decreases |order|
  {
    if order == [] {
      SameMove(s, s, now);
    } else {
      var t := AdvanceAll(s, order[..|order| - 1], now);
      AdvanceAllMove(s, order[..|order| - 1], now);
      AdvanceStamps(t, order[|order| - 1], now);
      hide Advance;
      SameMove(t, Advance(t, order[|order| - 1], now), now);
      MoveTrans(s, t, Advance(t, order[|order| - 1], now), now);
    }
  }

  /** A tick of caller k, and then no stamp changes. */
  lemma TickThen(s: State, k: string, u: State, now: int, decay: Decay)
    requires WellFormed(s) && Stamped(s, now) && SameStamps(Ticked(s, k, now, decay), u)
    ensures StampsMove(s, u, now)
  {
    var t := Ticked(s, k, now, decay);
    TickedMove(s, k, now, decay);
    SameMove(t, u, now);
    hide *;
    MoveTrans(s, t, u, now);
  }

  lemma RequestIs(s: State, k: string, tokens: int, waitable: bool, waitSec: int, now: int, decay: Decay)
    requires WellFormed(s) && Known(s, k)
    ensures var t := Ticked(s, k, now, decay); var u := Request(s, k, tokens, waitable, waitSec, now, decay).0;
      k in t.bindings && (u == Charge(t, k, tokens) || u == t.(waitQueue := u.waitQueue))
  {
    hide TickedBinding;
  }

  lemma ChargeStamps(s: State, k: string, tokens: int, q: seq<Waiting>)
    requires k in s.bindings
    ensures SameStamps(s, Charge(s, k, tokens)) && SameStamps(s, s.(waitQueue := q))
  {
  }

  lemma RequestMove(s: State, k: string, tokens: int, waitable: bool, waitSec: int, now: int, decay: Decay)
    requires WellFormed(s) && Stamped(s, now)
    ensures StampsMove(s, Request(s, k, tokens, waitable, waitSec, now, decay).0, now)
  {
    var u := Request(s, k, tokens, waitable, waitSec, now, decay).0;
    if Known(s, k) {
      RequestIs(s, k, tokens, waitable, waitSec, now, decay);
      ChargeStamps(Ticked(s, k, now, decay), k, tokens, u.waitQueue);
      hide *;
      TickThen(s, k, u, now, decay);
    } else {
      SameMove(s, s, now);
    }
  }

  lemma {:induction false} GrantQueuedMove(s: State, q: seq<Waiting>, now: int, decay: Decay)
    requires WellFormed(s) && Stamped(s, now)
    ensures StampsMove(s, GrantQueued(s, q, now, decay).0, now)
    decreases |q|
  {
    if q == [] {
      SameMove(s, s, now);
    } else {
      var t, u := GrantQueued(s, q[..|q| - 1], now, decay).0, GrantQueued(s, q, now, decay).0;
      GrantQueuedMove(s, q[..|q| - 1], now, decay);
      RequestMove(t, q[|q| - 1].caller, q[|q| - 1].tokens, false, 0, now, decay);
      LastItem(s, q, now, decay);
      hide Request;
      if u != t {
        MoveTrans(s, t, u, now);
      }
    }
  }

  lemma BorrowMove(s: State, from: string, to: string, amount: int, now: int, decay: Decay)
    requires WellFormed(s) && Stamped(s, now)
    ensures StampsMove(s, Borrow(s, from, to, amount, now, decay).0, now)
  {
    if from in s.bindings && to in s.bindings {
      var t1 := Ticked(s, from, now, decay);
      var t := Ticked(t1, to, now, decay);
      TickedMove(s, from, now, decay);
      BorrowIs(s, from, to, amount, now, decay);
      LoanStamps(t, from, to, amount, amount, from);
      assert WellFormed(t1) && SameStamps(t, t) && Stamped(t1, now);
      hide *;
      TickThen(t1, to, Borrow(s, from, to, amount, now, decay).0, now, decay);
      MoveTrans(s, t1, Borrow(s, from, to, amount, now, decay).0, now);
    } else {
      SameMove(s, s, now);
    }
  }

  lemma AdjustMove(s: State, k: string, quota: int, now: int, decay: Decay)
    requires WellFormed(s) && Stamped(s, now)
    ensures StampsMove(s, Adjust(s, k, quota, now, decay), now)
  {
    var t := Ticked(s, k, now, decay);
    AdjustIs(s, k, quota, now, decay);
    if k in s.bindings {
      var v := t.(bindings := t.bindings[k := t.bindings[k].(quota := quota)]);
      ClampStamps(v, k);
      assert SameStamps(t, v);
      StampsTrans(t, v, Clamp(v, k));
    }
    hide *;
    TickThen(s, k, Adjust(s, k, quota, now, decay), now, decay);
  }

  lemma ReturnMove(s: State, k: string, tokens: int, now: int, decay: Decay)
    requires WellFormed(s) && Stamped(s, now)
    ensures StampsMove(s, Return(s, k, tokens, now, decay), now)
  {
    assert SameStamps(Ticked(s, k, now, decay), Return(s, k, tokens, now, decay)) by {
      hide TickedBinding;
    }
    hide *;
    TickThen(s, k, Return(s, k, tokens, now, decay), now, decay);
  }

  lemma RefillMove(s: State, order: seq<int>, now: int, decay: Decay)
    requires WellFormed(s) && Stamped(s, now)
    ensures StampsMove(s, RefillTick(s, order, now, decay), now)
  {
    var s1 := s.(waitQueue := DropExpired(s.waitQueue, now));
    SameMove(s, s1, now);
    AdvanceAllMove(s1, order, now);
    var s2 := AdvanceAll(s1, order, now);
    TickAllMove(s2, now, decay);
    var s3 := TickAll(s2, now, decay);
    GrantQueuedMove(s3, s3.waitQueue, now, decay);
    var s4, u := GrantQueued(s3, s3.waitQueue, now, decay).0, RefillTick(s, order, now, decay);
    assert SameStamps(s4, u);
    SameMove(s4, u, now);
    hide *;
    MoveTrans(s, s1, s2, now);
    MoveTrans(s, s2, s3, now);
    MoveTrans(s, s3, s4, now);
    MoveTrans(s, s4, u, now);
  }

  lemma ReturnedLoanStamps(s: State, from: string, to: string, taken: int, lent: int)
    requires from in s.bindings && to in s.bindings
    ensures var v := Lend(TakeUp(s, from, taken), to, lent);
      SameStamps(s, v) && SameStamps(s, Clamp(v, from))
  {
    var s1 := TakeUp(s, from, taken);
    var s2 := Lend(s1, to, lent);
    LendStamps(s, from, taken);
    LendStamps(s1, to, lent);
    ClampStamps(s2, from);
    hide *;
    StampsTrans(s, s1, s2);
    StampsTrans(s, s2, Clamp(s2, from));
  }

  /** What GiveBack leaves, told with the change of the ledgers. */
  lemma GiveBackIs(s: State, from: string, to: string, amount: int, change: int)
    requires from in s.bindings && to in s.bindings && change == -amount
    ensures var v := Lend(TakeUp(s, from, change), to, change); var t := GiveBack(s, from, to, amount).0;
      from in v.bindings && (t == s || t == v || t == Clamp(v, from))
  {
    hide Clamp;
  }

  lemma LoanBackStamps(s: State, from: string, to: string, amount: int, change: int)
    requires from in s.bindings && to in s.bindings && change == -amount
    ensures SameStamps(s, GiveBack(s, from, to, amount).0)
  {
    assert SameStamps(s, s);
    GiveBackIs(s, from, to, amount, change);
    hide *;
    ReturnedLoanStamps(s, from, to, change, change);
  }

  lemma GiveBackStamps(s: State, from: string, to: string, amount: int)
    ensures SameStamps(s, GiveBack(s, from, to, amount).0)
  {
    if from in s.bindings && to in s.bindings {
      LoanBackStamps(s, from, to, amount, -amount);
    }
    hide EffectiveLimit;
    hide Clamp;
  }

  lemma CancelStamps(s: State, id: int)
    ensures SameStamps(s, Cancel(s, id))
  {
    hide EffectiveLimit;
  }

  lemma ReserveStamps(s: State, k: Booking, now: int, order: seq<int>)
    ensures SameStamps(s, Reserve(s, k, now, order))
  {
    hide ReserveOutcomeOf;
  }

  lemma BindStamped(s: State, c: string, policy: string, quota: int, now: int)
    requires Stamped(s, now)
    ensures Stamped(Bind(s, c, policy, quota, now), now)
  {
    var t := Bind(s, c, policy, quota, now);
    forall k | k in t.bindings && t.bindings[k].policy in t.policies
      ensures StampOk(t, t.bindings[k], now)
    {
      assert k in s.bindings && s.bindings[k].policy in s.policies ==> StampOk(s, s.bindings[k], now);
    }
  }

  lemma PolicyStamps(s: State, name: string, p: Policy, clock: int)
    requires Ok(s, clock)
    ensures SameStamps(s, NewPolicy(s, name, p))
  {
    assert forall c :: c in s.bindings ==> BindingOk(s, s.bindings[c]);
  }

  /** Every operation but the binding of a new caller. */
  lemma StepMove(s: State, op: Op, now: int, decay: Decay, clock: int)
    requires Ok(s, clock) && Stamped(s, now) && !op.DoBind?
    ensures StampsMove(s, Step(s, op, now, decay), now)
  {
    hide Stamped;
    match op
    case DoPolicy(name, p) =>
      PolicyStamps(s, name, p, clock);
      SameMove(s, NewPolicy(s, name, p), now);
    case DoRequest(k, tokens, waitable, waitSec) => RequestMove(s, k, tokens, waitable, waitSec, now, decay);
    case DoReturn(k, tokens) => ReturnMove(s, k, tokens, now, decay);
    case DoBorrow(from, to, amount) => BorrowMove(s, from, to, amount, now, decay);
    case DoGiveBack(from, to, amount) =>
      GiveBackStamps(s, from, to, amount);
      SameMove(s, GiveBack(s, from, to, amount).0, now);
    case DoAdjust(k, quota) => AdjustMove(s, k, quota, now, decay);
    case DoReserve(k, order) =>
      ReserveStamps(s, k, now, order);
      SameMove(s, Reserve(s, k, now, order), now);
    case DoCancel(id) =>
      CancelStamps(s, id);
      SameMove(s, Cancel(s, id), now);
    case DoReservationTick(order) => AdvanceAllMove(s, order, now);
    case DoRefillTick(order) => RefillMove(s, order, now, decay);
    case DoStatus(k, order) => StatusMove(s, k, order, now, decay);
  }

  lemma StatusMove(s: State, k: string, order: seq<int>, now: int, decay: Decay)
    requires WellFormed(s) && Stamped(s, now)
    ensures StampsMove(s, Step(s, DoStatus(k, order), now, decay), now)
  {
    if Known(s, k) {
      var t := AdvanceAll(s, order, now);
      AdvanceAllMove(s, order, now);
      TickedMove(t, k, now, decay);
      assert Step(s, DoStatus(k, order), now, decay) == Ticked(t, k, now, decay);
      hide *;
      MoveTrans(s, t, Ticked(t, k, now, decay), now);
    } else {
      SameMove(s, s, now);
    }
  }

  lemma StepStamped(s: State, op: Op, now: int, decay: Decay, clock: int)
    requires Ok(s, clock) && Stamped(s, clock) && clock <= now
    ensures Stamped(Step(s, op, now, decay), now)
  {
    StampedLater(s, clock, now);
    if op.DoBind? {
      BindStamped(s, op.c, op.policy, op.quota, now);
    } else {
      StepMove(s, op, now, decay, clock);
      hide Step;
    }
  }

  lemma StampedLater(s: State, clock: int, now: int)
    requires Stamped(s, clock) && clock <= now
    ensures Stamped(s, now)
  {
    forall c | c in s.bindings && s.bindings[c].policy in s.policies
      ensures StampOk(s, s.bindings[c], now)
    {
      assert StampOk(s, s.bindings[c], clock);
    }
  }

  /** Every reachable state is stamped. */
  lemma {:induction false} RunStamped(s: State, clock: int, ops: seq<(Op, int)>, decay: Decay)
    requires Ok(s, clock) && Stamped(s, clock) && LegalRun(s, clock, ops, decay)
    ensures Stamped(Run(s, clock, ops, decay).0, Run(s, clock, ops, decay).1)
    decreases |ops|
  {
    hide Ok;
    hide Legal;
    hide Stamped;
    if ops != [] {
      StepOk(s, ops[0].0, ops[0].1, decay, clock);
      StepStamped(s, ops[0].0, ops[0].1, decay, clock);
      RunStamped(Step(s, ops[0].0, ops[0].1, decay), ops[0].1, ops[1..], decay);
    }
  }

  /** A caller's policy stays, and its window has moved by whole widths. */
  ghost predicate WindowMoves(s: State, t: State, c: string)
  {
    SamePolicy(s, t, c) && GridMove(PolicyOf(s, c), s.bindings[c], t.bindings[c])
  }

  lemma StepWindow(s: State, op: Op, now: int, decay: Decay, c: string, clock: int)
    requires Ok(s, clock) && Stamped(s, clock) && clock <= now && Legal(s, op) && Known(s, c)
    ensures WindowMoves(s, Step(s, op, now, decay), c)
  {
    var t := Step(s, op, now, decay);
    StampedLater(s, clock, now);
    StepOk(s, op, now, decay, clock);
    if op.DoBind? {
      assert c in t.bindings && t.bindings[c] == s.bindings[c] && t.policies == s.policies;
      GridSame(PolicyOf(s, c), s.bindings[c].windowStart);
    } else {
      StepMove(s, op, now, decay, clock);
      hide Step;
      KnownByOk(t, c, now);
    }
    hide Step;
    hide Ok;
    hide Stamped;
  }

  /** Over every legal run, whatever happens to a caller's limit, its window
      starts move by whole widths. */
  lemma {:induction false} WindowStartsRuns(s: State, clock: int, ops: seq<(Op, int)>, decay: Decay, c: string)
    requires Ok(s, clock) && Stamped(s, clock) && LegalRun(s, clock, ops, decay) && Known(s, c)
    ensures WindowMoves(s, Run(s, clock, ops, decay).0, c)
    decreases |ops|
  {
    if ops == [] {
      GridSame(PolicyOf(s, c), s.bindings[c].windowStart);
    } else {
      var (op, now) := ops[0];
      var t := Step(s, op, now, decay);
      StepOk(s, op, now, decay, clock);
      StepStamped(s, op, now, decay, clock);
      StepWindow(s, op, now, decay, c, clock);
      WindowStartsRuns(t, now, ops[1..], decay, c);
      var u := Run(t, now, ops[1..], decay).0;
      if PolicyOf(s, c).algorithm.FixedWindow? {
        GridTrans(PolicyOf(s, c), s.bindings[c].windowStart, t.bindings[c].windowStart, u.bindings[c].windowStart);
      }
    }
  }

  /** After binding a caller to a fixed window, every window of every run starts
      a whole number of widths after the bind time. */
  lemma WindowsFromBind(s: State, clock: int, c: string, policy: string, quota: int, at: int, ops: seq<(Op, int)>,
                        decay: Decay) returns (k: nat)
    requires Ok(s, clock) && Stamped(s, clock) && clock <= at && c !in s.bindings
    requires policy in s.policies && s.policies[policy].algorithm.FixedWindow?
    requires LegalRun(Bind(s, c, policy, quota, at), at, ops, decay)
    ensures var t := Run(Bind(s, c, policy, quota, at), at, ops, decay).0;
      c in t.bindings && t.bindings[c].windowStart == WindowsLater(at, k, s.policies[policy])
  {
    var b := Bind(s, c, policy, quota, at);
    var op := DoBind(c, policy, quota);
    StepOk(s, op, at, decay, clock);
    StepStamped(s, op, at, decay, clock);
    assert Step(s, op, at, decay) == b && Known(b, c) && b.bindings[c].windowStart == at;
    WindowStartsRuns(b, at, ops, decay, c);
    var p := s.policies[policy];
    assert PolicyOf(b, c) == p;
    assert OnGrid(p, at, Run(b, at, ops, decay).0.bindings[c].windowStart);
    k :| Run(b, at, ops, decay).0.bindings[c].windowStart == WindowsLater(at, k, p);
  }
}
