/** The rate limiter's tables as one value and the effect of every operation.
    Times are integer nanoseconds; `decay` abstracts the exponential factor of
    the sliding window. */
module RateState {
  import opened Basics
  import opened Sweep

  datatype Algorithm = FixedWindow | TokenBucket | SlidingWindow | OtherAlgorithm

  datatype Policy = Policy(algorithm: Algorithm, windowSec: int, maxTokens: int, refillRate: real)

  datatype Binding = Binding(policy: string, quota: int, used: int, borrowed: int, lent: int, reserved: int,
                             windowStart: int, lastRefill: int)

  datatype Status = Pending | Active | Completed | Cancelled

  datatype Reservation = Reservation(policy: string, caller: string, tokens: int,
                                     startAt: int, endAt: int, status: Status)

  datatype Waiting = Waiting(caller: string, tokens: int, timeoutAt: int)

  datatype State = State(policies: map<string, Policy>, bindings: map<string, Binding>,
                         reservations: map<int, Reservation>, nextId: int, waitQueue: seq<Waiting>)

  /** A factor in [0, 1] for the time elapsed and the window length. */
  type Decay = f: (int, int) -> real | forall e, w :: 0.0 <= f(e, w) <= 1.0 witness (e, w) => 1.0

  const EMPTY := State(map[], map[], map[], 1, [])

  /** Go's conversion of a float to int. */
  function Truncate(x: real): int
  {
    if x >= 0.0 then x.Floor else -((-x).Floor)
  }

  function Min(a: int, b: int): int
  {
    if a <= b then a else b
  }

  /** The limit before it is cut off at zero. */
  function RawLimit(s: State, b: Binding): int
  {
    if b.policy in s.policies
    then Min(b.quota, s.policies[b.policy].maxTokens) + b.borrowed - b.lent + b.reserved
    else b.quota
  }

  function EffectiveLimit(s: State, b: Binding): int
  {
    if b.policy in s.policies && RawLimit(s, b) < 0 then 0 else RawLimit(s, b)
  }

  function Seconds(ns: int): real
  {
    ns as real / 1_000_000_000.0
  }

  /** Tokens that flow into a bucket during ns nanoseconds. */
  function Inflow(p: Policy, ns: int): real
  {
    Seconds(ns) * p.refillRate
  }

  /** What is left of the used tokens of a sliding window. */
  function Decayed(used: int, elapsed: int, window: int, decay: Decay): real
  {
    used as real * decay(elapsed, window)
  }

  /** applyAlgorithmTick for a binding whose effective limit is `limit`. */
  function Tick(b: Binding, p: Policy, limit: int, now: int, decay: Decay): Binding
    requires p.algorithm.FixedWindow? ==> p.windowSec > 0
  {
    match p.algorithm
    case FixedWindow =>
      var elapsed := now - b.windowStart;
      if elapsed >= p.windowSec * SECOND then
        var windowsPassed := (elapsed / SECOND) / p.windowSec;
        b.(windowStart := b.windowStart + windowsPassed * p.windowSec * SECOND, used := 0)
      else b
    case TokenBucket =>
      var elapsed := now - b.lastRefill;
      if elapsed < MILLISECOND then b
      else
        var refill := Inflow(p, elapsed);
        if refill < 0.1 then b.(lastRefill := now)
        else
          var refilled := (limit - b.used) as real + refill;
          var capped := if refilled > limit as real then limit as real else refilled;
          var newUsed := Truncate(limit as real - capped);
          b.(used := if newUsed < 0 then 0 else newUsed, lastRefill := now)
    case SlidingWindow =>
      var elapsed := now - b.windowStart;
      if elapsed > 0 then
        var newUsed := Truncate(Decayed(b.used, elapsed, if p.windowSec <= 0 then 60 else p.windowSec, decay));
        b.(used := if newUsed < 0 then 0 else newUsed, windowStart := now)
      else b
    case OtherAlgorithm => b
  }

  predicate WellFormed(s: State)
  {
    forall p :: p in s.policies && s.policies[p].algorithm.FixedWindow? ==> s.policies[p].windowSec > 0
  }

  function TickedBinding(s: State, b: Binding, now: int, decay: Decay): Binding
    requires WellFormed(s)
  {
    if b.policy in s.policies then Tick(b, s.policies[b.policy], EffectiveLimit(s, b), now, decay) else b
  }

  /** The binding of one caller brought up to date. */
  function Ticked(s: State, c: string, now: int, decay: Decay): State
    requires WellFormed(s)
  {
    if c in s.bindings then s.(bindings := s.bindings[c := TickedBinding(s, s.bindings[c], now, decay)]) else s
  }

  function Remaining(s: State, b: Binding): int
  {
    var left := EffectiveLimit(s, b) - b.used;
    if left < 0 then 0 else left
  }

  predicate Known(s: State, c: string)
  {
    c in s.bindings && s.bindings[c].policy in s.policies
  }

  function Charge(s: State, c: string, tokens: int): State
    requires c in s.bindings
  {
    s.(bindings := s.bindings[c := s.bindings[c].(used := s.bindings[c].used + tokens)])
  }

  datatype TokenOutcome = UnknownCaller | Granted | Enqueued | Refused

  /** RequestTokens */
  function Request(s: State, c: string, tokens: int, waitable: bool, waitSec: int, now: int, decay: Decay): (State,
      TokenOutcome)
    requires WellFormed(s)
  {
    if !Known(s, c) then (s, UnknownCaller)
    else
      var t := Ticked(s, c, now, decay);
      if Remaining(t, t.bindings[c]) >= tokens then (Charge(t, c, tokens), Granted)
      else if waitable then
        var item := Waiting(c, tokens, now + (if waitSec <= 0 then 30 else waitSec) * SECOND);
        (t.(waitQueue := t.waitQueue + [item]), Enqueued)
      else (t, Refused)
  }

  /** Tokens taken off the used ones, down to zero. */
  function Lower(b: Binding, tokens: int): Binding
  {
    b.(used := if tokens > b.used then 0 else b.used - tokens)
  }

  function Refund(s: State, c: string, tokens: int): State
    requires c in s.bindings
  {
    s.(bindings := s.bindings[c := Lower(s.bindings[c], tokens)])
  }

  /** ReturnTokens */
  function Return(s: State, c: string, tokens: int, now: int, decay: Decay): State
    requires WellFormed(s)
  {
    if c !in s.bindings then s
    else Refund(Ticked(s, c, now, decay), c, tokens)
  }

  /** Used tokens cut down to the caller's effective limit. */
  function Clamp(s: State, c: string): State
    requires c in s.bindings
  {
    var b := s.bindings[c];
    if b.used > EffectiveLimit(s, b) then s.(bindings := s.bindings[c := b.(used := EffectiveLimit(s, b))]) else s
  }

  function Lend(s: State, c: string, amount: int): State
    requires c in s.bindings
  {
    s.(bindings := s.bindings[c := s.bindings[c].(lent := s.bindings[c].lent + amount)])
  }

  function TakeUp(s: State, c: string, amount: int): State
    requires c in s.bindings
  {
    s.(bindings := s.bindings[c := s.bindings[c].(borrowed := s.bindings[c].borrowed + amount)])
  }

  /** BorrowQuota: `to` borrows from `from`. */
  function Borrow(s: State, from: string, to: string, amount: int, now: int, decay: Decay): (State, bool)
    requires WellFormed(s)
  {
    if from !in s.bindings || to !in s.bindings then (s, false)
    else
      var t := Ticked(Ticked(s, from, now, decay), to, now, decay);
      if Remaining(t, t.bindings[from]) < amount then (t, false)
      else (Clamp(TakeUp(Lend(t, from, amount), to, amount), from), true)
  }

  /** ReturnQuota: `from` gives back what it borrowed from `to`. */
  function GiveBack(s: State, from: string, to: string, amount: int): (State, bool)
  {
    if from !in s.bindings || to !in s.bindings then (s, false)
    else if s.bindings[from].borrowed < amount || s.bindings[to].lent < amount then (s, false)
    else
      var t := Lend(TakeUp(s, from, -amount), to, -amount);
      (if t.bindings[from].policy in t.policies then Clamp(t, from) else t, true)
  }

  /** AdjustQuota */
  function Adjust(s: State, c: string, quota: int, now: int, decay: Decay): State
    requires WellFormed(s)
  {
    if c !in s.bindings then s
    else
      var t := Ticked(s, c, now, decay);
      Clamp(t.(bindings := t.bindings[c := t.bindings[c].(quota := quota)]), c)
  }

  function NewPolicy(s: State, name: string, p: Policy): State
  {
    if name in s.policies then s else s.(policies := s.policies[name := p])
  }

  function FreshBinding(policy: string, p: Policy, quota: int, now: int): Binding
  {
    Binding(policy, quota, 0, 0, 0, 0,
            if p.algorithm.FixedWindow? || p.algorithm.SlidingWindow? then now else 0,
            if p.algorithm.TokenBucket? then now else 0)
  }

  /** BindCaller: also replaces an existing binding. */
  function Bind(s: State, c: string, policy: string, quota: int, now: int): State
  {
    if policy !in s.policies then s
    else s.(bindings := s.bindings[c := FreshBinding(policy, s.policies[policy], quota, now)])
  }

  // ----------------------------------------------------------- reservations

  predicate Live(r: Reservation)
  {
    r.status.Pending? || r.status.Active?
  }

  /** The live reservations of a policy in iteration order, after the new one. */
  function Contenders(s: State, policy: string, order: seq<int>): seq<Interval>
  {
    if order == [] then []
    else
      var rest := Contenders(s, policy, order[1..]);
      var id := order[0];
      if id in s.reservations && s.reservations[id].policy == policy && Live(s.reservations[id])
      then [Interval(s.reservations[id].startAt, s.reservations[id].endAt, s.reservations[id].tokens)] + rest
      else rest
  }

  predicate Conflicts(s: State, policy: string, startAt: int, endAt: int, tokens: int, order: seq<int>)
    requires policy in s.policies
  {
    Exceeds(ExchangeSort(EventsOf([Interval(startAt, endAt, tokens)] + Contenders(s, policy, order))),
            s.policies[policy].maxTokens)
  }

  datatype ReserveOutcome =
    BadInterval | InThePast | BadTokens | NoPolicy | TooMany | NoCaller | Conflict | Reserved(id: int)

  datatype Booking = Booking(policy: string, caller: string, tokens: int, startAt: int, endAt: int)

  /** CreateReservation, with the map iteration order of the conflict check. */
  function ReserveOutcomeOf(s: State, k: Booking, now: int, order: seq<int>): ReserveOutcome
  {
    if k.endAt <= k.startAt then BadInterval
    else if k.endAt < now then InThePast
    else if k.tokens <= 0 then BadTokens
    else if k.policy !in s.policies then NoPolicy
    else if k.tokens > s.policies[k.policy].maxTokens then TooMany
    else if k.caller !in s.bindings then NoCaller
    else if Conflicts(s, k.policy, k.startAt, k.endAt, k.tokens, order) then Conflict
    else Reserved(s.nextId)
  }

  function AddReserved(s: State, c: string, tokens: int): State
    requires c in s.bindings
  {
    s.(bindings := s.bindings[c := s.bindings[c].(reserved := s.bindings[c].reserved + tokens)])
  }

  function Reserve(s: State, k: Booking, now: int, order: seq<int>): State
  {
    if !ReserveOutcomeOf(s, k, now, order).Reserved? then s
    else
      var status := if k.startAt <= now then Active else Pending;
      var r := Reservation(k.policy, k.caller, k.tokens, k.startAt, k.endAt, status);
      var t := s.(reservations := s.reservations[s.nextId := r], nextId := s.nextId + 1);
      if status.Active? && k.caller in t.bindings then AddReserved(t, k.caller, k.tokens) else t
  }

  /** The reserved tokens of an active reservation taken back from its caller. */
  function DropReserved(s: State, c: string, tokens: int): State
  {
    if c !in s.bindings then s
    else
      var b := s.bindings[c];
      Clamp(s.(bindings := s.bindings[c := b.(reserved := if b.reserved >= tokens then b.reserved - tokens else 0)]), c)
  }

  function SetStatus(s: State, id: int, status: Status): State
    requires id in s.reservations
  {
    s.(reservations := s.reservations[id := s.reservations[id].(status := status)])
  }

  /** activateReservationLocked */
  function Activate(s: State, id: int): State
    requires id in s.reservations
  {
    var r := s.reservations[id];
    if r.caller !in s.bindings then SetStatus(s, id, Cancelled)
    else SetStatus(AddReserved(s, r.caller, r.tokens), id, Active)
  }

  /** completeReservationLocked, and CancelReservation of an active one. */
  function Finish(s: State, id: int, status: Status): State
    requires id in s.reservations
  {
    var r := s.reservations[id];
    SetStatus(DropReserved(s, r.caller, r.tokens), id, status)
  }

  /** processReservationTickLocked for one reservation. */
  function Advance(s: State, id: int, now: int): State
  {
    if id !in s.reservations then s
    else
      var r := s.reservations[id];
      var t := if r.status.Pending? && r.startAt <= now then Activate(s, id) else s;
      if t.reservations[id].status.Active? && r.endAt <= now then Finish(t, id, Completed) else t
  }

  function AdvanceAll(s: State, order: seq<int>, now: int): (r: State)
    ensures r.policies == s.policies
  {
    if order == [] then s
    else Advance(AdvanceAll(s, order[..|order| - 1], now), order[|order| - 1], now)
  }

  /** CancelReservation */
  function Cancel(s: State, id: int): State
  {
    if id !in s.reservations || !Live(s.reservations[id]) then s
    else if s.reservations[id].status.Active? then Finish(s, id, Cancelled)
    else SetStatus(s, id, Cancelled)
  }

  // ------------------------------------------------------------- background

  function TickAll(s: State, now: int, decay: Decay): State
    requires WellFormed(s)
  {
    s.(bindings := map c | c in s.bindings :: TickedBinding(s, s.bindings[c], now, decay))
  }

  function DropExpired(q: seq<Waiting>, now: int): seq<Waiting>
  {
    if q == [] then []
    else
      var front := DropExpired(q[..|q| - 1], now);
      if q[|q| - 1].timeoutAt <= now then front else front + [q[|q| - 1]]
  }

  /** tryGrantFromQueueLocked on the first n items: the state charged so far
      and the items that keep waiting. */
  function GrantQueued(s: State, q: seq<Waiting>, now: int, decay: Decay): (r: (State, seq<Waiting>))
    requires WellFormed(s)
    ensures r.0.policies == s.policies
  {
    if q == [] then (s, [])
    else
      var (t, left) := GrantQueued(s, q[..|q| - 1], now, decay);
      var item := q[|q| - 1];
      if item.timeoutAt <= now || !Known(t, item.caller) then (t, left)
      else
        var u := Ticked(t, item.caller, now, decay);
        if Remaining(u, u.bindings[item.caller]) >= item.tokens then (Charge(u, item.caller, item.tokens), left)
        else (u, left + [item])
  }

  /** refillTick, with the iteration order of the reservations. */
  function RefillTick(s: State, order: seq<int>, now: int, decay: Decay): State
    requires WellFormed(s)
  {
    var s1 := s.(waitQueue := DropExpired(s.waitQueue, now));
    var s2 := AdvanceAll(s1, order, now);
    var s3 := TickAll(s2, now, decay);
    var (s4, left) := GrantQueued(s3, s3.waitQueue, now, decay);
    s4.(waitQueue := left)
  }
}
