/** What single operations of the rate limiter do to limits, ledgers, the wait
    queue and reservations, told field by field. */
module RateEffects {
  import opened Basics
  import opened Rows
  import opened RateState
  import opened MapWalks
  import opened RateInvariant
  import opened RateReservations
  import opened TxTokens

  /** What a caller may use at once: the smaller of its quota and its policy's
      maximum, what it borrowed and has reserved on top, what it lent taken off,
      and nothing when that is negative. */
  function Limit(s: State, b: Binding): nat
    requires b.policy in s.policies
  {
    var most := s.policies[b.policy].maxTokens;
    var base := if b.quota < most then b.quota else most;
    if base + b.borrowed + b.reserved > b.lent then base + b.borrowed + b.reserved - b.lent else 0
  }

  lemma LimitIs(s: State, b: Binding)
    ensures EffectiveLimit(s, b) == if b.policy in s.policies then Limit(s, b) else b.quota
  {
  }

  /** Free tokens cover a demand. */
  predicate Fits(s: State, b: Binding, tokens: int)
    requires b.policy in s.policies
  {
    tokens <= 0 || b.used + tokens <= Limit(s, b)
  }

  /** b with the used tokens cut down to its limit. */
  predicate CutDown(s: State, b: Binding, b': Binding)
  {
    b' == b.(used := if b.policy in s.policies && b.used > Limit(s, b) then Limit(s, b) else b.used)
  }

  // ---------------------------------------------------------------- requests

  lemma TickedShape(s: State, c: string, now: int, decay: Decay)
    requires WellFormed(s) && c in s.bindings
    ensures var t := Ticked(s, c, now, decay);
      && c in t.bindings && t == s.(bindings := s.bindings[c := t.bindings[c]])
      && t.bindings[c].(used := s.bindings[c].used, windowStart := s.bindings[c].windowStart,
                        lastRefill := s.bindings[c].lastRefill) == s.bindings[c]
  {
    var b := s.bindings[c];
    if b.policy in s.policies {
      RateInvariant.TickFields(b, s.policies[b.policy], EffectiveLimit(s, b), now, decay);
    }
    hide Tick;
  }

  /** A request is granted exactly when the caller has that much left after its
      tick; otherwise it queues if it may, for thirty seconds unless it says
      otherwise. */
  lemma RequestEffect(s: State, c: string, tokens: int, waitable: bool, waitSec: int, now: int, decay: Decay)
    requires WellFormed(s)
    ensures var (t, outcome) := Request(s, c, tokens, waitable, waitSec, now, decay);
      if c !in s.bindings || s.bindings[c].policy !in s.policies then outcome == UnknownCaller && t == s
      else
        var u := Ticked(s, c, now, decay); var b := u.bindings[c];
        if Fits(u, b, tokens) then
          outcome == Granted && t == u.(bindings := u.bindings[c := b.(used := b.used + tokens)])
        else
          var timeout := now + (if waitSec > 0 then waitSec else 30) * SECOND;
          if waitable then outcome == Enqueued && t == u.(waitQueue := u.waitQueue + [Waiting(c, tokens, timeout)])
          else outcome == Refused && t == u
  {
    if Known(s, c) {
      TickedShape(s, c, now, decay);
      hide TickedBinding;
      LimitIs(Ticked(s, c, now, decay), Ticked(s, c, now, decay).bindings[c]);
      hide EffectiveLimit;
    }
  }

  /** A return takes tokens off the used ones, down to zero, after the tick. */
  lemma ReturnEffect(s: State, c: string, tokens: int, now: int, decay: Decay)
    requires WellFormed(s) && c in s.bindings
    ensures var u := Ticked(s, c, now, decay); var b := u.bindings[c];
      Return(s, c, tokens, now, decay) ==
      u.(bindings := u.bindings[c := b.(used := if b.used > tokens then b.used - tokens else 0)])
  {
    hide Tick;
  }

  /** A new quota, with the used tokens cut down to the limit it leaves. */
  lemma AdjustEffect(s: State, c: string, quota: int, now: int, decay: Decay)
    requires WellFormed(s) && Known(s, c)
    ensures var u := Ticked(s, c, now, decay); var t := Adjust(s, c, quota, now, decay);
      && c in t.bindings && t == u.(bindings := u.bindings[c := t.bindings[c]])
      && CutDown(s, u.bindings[c].(quota := quota), t.bindings[c])
  {
    TickedShape(s, c, now, decay);
    hide TickedBinding;
    var u := Ticked(s, c, now, decay);
    var b := u.bindings[c].(quota := quota);
    LimitIs(u.(bindings := u.bindings[c := b]), b);
    hide EffectiveLimit;
  }

  /** A sliding window keeps a factor of its used tokens, rounded down. */
  lemma SlidingTick(b: Binding, p: Policy, limit: int, now: int, decay: Decay)
    requires p.algorithm.SlidingWindow? && b.used >= 0
    ensures var t := Tick(b, p, limit, now, decay);
      if now <= b.windowStart then t == b
      else
        var factor := decay(now - b.windowStart, if p.windowSec > 0 then p.windowSec else 60);
        t == b.(windowStart := now, used := (b.used as real * factor).Floor)
  {
    if now > b.windowStart {
      DecayedWithin(b.used, now - b.windowStart, if p.windowSec > 0 then p.windowSec else 60, decay);
    }
  }

  /** A bucket takes off the used tokens what flowed in since the last stamp, rounded
      up, down to zero; a tick within a millisecond of the stamp does nothing, and
      less than a tenth of a token is lost. */
  lemma BucketTick(b: Binding, p: Policy, limit: int, now: int, decay: Decay)
    requires p.algorithm.TokenBucket? && 0 <= b.used <= limit
    ensures var t := Tick(b, p, limit, now, decay); var passed := now - b.lastRefill;
      if passed < MILLISECOND then t == b
      else
        var inflow := passed as real / SECOND as real * p.refillRate;
        var left := b.used as real - inflow;
        var used := if inflow < 0.1 then b.used else if left > 0.0 then left.Floor else 0;
        t == b.(lastRefill := now, used := used)
  {
    var x := Inflow(p, now - b.lastRefill);
    assert x == (now - b.lastRefill) as real / SECOND as real * p.refillRate;
    assert limit as real - ((limit - b.used) as real + x) == b.used as real - x;
    hide Inflow;
  }

  // -------------------------------------------------------------------- loans

  /** A loan of `amount` booked on both sides, or back if it is negative; besides,
      only used tokens of `cut` may differ, which are cut down to its limit. */
  ghost predicate Booked(s: State, t: State, lender: string, borrower: string, amount: int, cut: string)
  {
    && t == s.(bindings := t.bindings) && t.bindings.Keys == s.bindings.Keys
    && forall c :: c in s.bindings ==>
         var b := s.bindings[c];
         var moved := b.(lent := b.lent + if c == lender then amount else 0,
                         borrowed := b.borrowed + if c == borrower then amount else 0);
         if c == cut then CutDown(s, moved, t.bindings[c]) else t.bindings[c] == moved
  }

  lemma ClampCuts(s: State, c: string)
    requires c in s.bindings && s.bindings[c].policy in s.policies
    ensures var t := Clamp(s, c);
      && t == s.(bindings := s.bindings[c := t.bindings[c]])
      && CutDown(s, s.bindings[c], t.bindings[c])
  {
    LimitIs(s, s.bindings[c]);
    hide EffectiveLimit;
  }

  lemma GiveBackIs(s: State, from: string, to: string, amount: int, change: int)
    requires from in s.bindings && to in s.bindings && change == -amount
    requires s.bindings[from].borrowed >= amount && s.bindings[to].lent >= amount
    ensures var v := Lend(TakeUp(s, from, change), to, change);
      && from in v.bindings && v.bindings[from].policy == s.bindings[from].policy && v.policies == s.policies
      && GiveBack(s, from, to, amount) == (if v.bindings[from].policy in v.policies then Clamp(v, from) else v, true)
  {
    hide Clamp;
  }

  lemma TransferBooked(s: State, from: string, to: string, change: int)
    requires from in s.bindings && to in s.bindings
    ensures var v := Lend(TakeUp(s, from, change), to, change);
      && v == s.(bindings := v.bindings) && v.bindings.Keys == s.bindings.Keys
      && forall c :: c in s.bindings ==>
           var b := s.bindings[c];
           v.bindings[c] == b.(lent := b.lent + if c == to then change else 0,
                               borrowed := b.borrowed + if c == from then change else 0)
  {
  }

  lemma CutBooked(s: State, v: State, t: State, from: string, to: string, change: int)
    requires from in s.bindings && v == s.(bindings := v.bindings) && v.bindings.Keys == s.bindings.Keys
    requires forall c :: c in s.bindings ==>
      var b := s.bindings[c];
      v.bindings[c] == b.(lent := b.lent + if c == to then change else 0,
                          borrowed := b.borrowed + if c == from then change else 0)
    requires from in t.bindings && t == v.(bindings := v.bindings[from := t.bindings[from]])
    requires CutDown(v, v.bindings[from], t.bindings[from])
    ensures Booked(s, t, to, from, change, from)
  {
  }

  /** `from` gives back what it borrowed from `to`: exactly when both are bound and
      the ledgers show that much.  Then both ledgers are lower by the amount and
      from's used tokens are cut down to the limit it keeps; nothing else changes. */
  lemma GiveBackEffect(s: State, from: string, to: string, amount: int, change: int)
    requires change == -amount
    ensures var (t, ok) := GiveBack(s, from, to, amount);
      && (ok <==> from in s.bindings && to in s.bindings &&
                  s.bindings[from].borrowed >= amount && s.bindings[to].lent >= amount)
      && if ok then Booked(s, t, to, from, change, from) else t == s
  {
    if from in s.bindings && to in s.bindings {
      if s.bindings[from].borrowed >= amount && s.bindings[to].lent >= amount {
        GiveBackIs(s, from, to, amount, change);
        hide GiveBack;
        TransferBooked(s, from, to, change);
        var v := Lend(TakeUp(s, from, change), to, change);
        if v.bindings[from].policy in v.policies {
          ClampCuts(v, from);
          hide Clamp;
        }
        hide Lend;
        hide TakeUp;
        hide Booked;
        hide CutDown;
        CutBooked(s, v, GiveBack(s, from, to, amount).0, from, to, change);
      }
    }
  }

  lemma BorrowBooked(t: State, from: string, to: string, amount: int, clock: int)
    requires Ok(t, clock) && from in t.bindings && to in t.bindings
    requires 0 <= amount <= Remaining(t, t.bindings[from])
    ensures var u := Clamp(TakeUp(Lend(t, from, amount), to, amount), from);
      Ok(u, clock) && Booked(t, u, from, to, amount, from) && SameUsed(t, u)
  {
    LoanOk(t, from, to, amount, clock);
    hide Ok;
    hide Clamp;
    var u := TakeUp(Lend(t, from, amount), to, amount);
    LoanMoves(t, from, to, amount);
  }

  ghost predicate SameUsed(s: State, t: State)
  {
    t.bindings.Keys == s.bindings.Keys && forall c :: c in s.bindings ==> t.bindings[c].used == s.bindings[c].used
  }

  lemma LoanMoves(t: State, from: string, to: string, amount: int)
    requires from in t.bindings && to in t.bindings && t.bindings[from].policy in t.policies
    requires var u := TakeUp(Lend(t, from, amount), to, amount);
      u.bindings[from].used <= Limit(u, u.bindings[from])
    ensures var u := TakeUp(Lend(t, from, amount), to, amount);
      Booked(t, u, from, to, amount, from) && SameUsed(t, u)
  {
  }

  /** `to` borrows from `from`: granted exactly when both are bound and the lender
      has that much left after both were ticked; booked on both sides, and nothing
      else changes. */
  lemma BorrowEffect(s: State, from: string, to: string, amount: int, now: int, decay: Decay, clock: int)
    requires Ok(s, clock) && amount >= 0
    ensures var (t, ok) := Borrow(s, from, to, amount, now, decay);
      if from !in s.bindings || to !in s.bindings then !ok && t == s
      else
        var u := Ticked(Ticked(s, from, now, decay), to, now, decay);
        && u.bindings.Keys == s.bindings.Keys && u.bindings[from].policy in u.policies
        && (ok <==> Fits(u, u.bindings[from], amount))
        && if ok then Booked(u, t, from, to, amount, from) && SameUsed(u, t) else t == u
  {
    if from in s.bindings && to in s.bindings {
      TickedOk(s, from, now, decay, clock);
      var t1 := Ticked(s, from, now, decay);
      TickedOk(t1, to, now, decay, clock);
      var u := Ticked(t1, to, now, decay);
      BorrowIs(s, from, to, amount, now, decay);
      KnownByOk(u, from, clock);
      LimitIs(u, u.bindings[from]);
      hide Borrow;
      hide Ticked;
      hide EffectiveLimit;
      if Remaining(u, u.bindings[from]) >= amount {
        BorrowBooked(u, from, to, amount, clock);
      }
      hide Ok;
      hide Booked;
      hide SameUsed;
      hide Clamp;
    }
  }

  ghost predicate SameLimits(s: State, t: State)
  {
    && t.policies == s.policies && t.bindings.Keys == s.bindings.Keys
    && forall c :: c in s.bindings ==>
         && t.bindings[c].lent == s.bindings[c].lent && t.bindings[c].borrowed == s.bindings[c].borrowed
         && t.bindings[c].policy == s.bindings[c].policy && t.bindings[c].policy in s.policies
         && Limit(t, t.bindings[c]) == Limit(s, s.bindings[c])
  }

  lemma SameLimitsTrans(s: State, t: State, u: State)
    requires SameLimits(s, t) && SameLimits(t, u)
    ensures SameLimits(s, u)
  {
  }

  lemma TickKeepsLimits(s: State, c: string, now: int, decay: Decay, clock: int)
    requires Ok(s, clock)
    ensures SameLimits(s, Ticked(s, c, now, decay))
  {
    forall k | k in s.bindings
      ensures s.bindings[k].policy in s.policies
    {
      KnownByOk(s, k, clock);
    }
    hide Ok;
    if c in s.bindings {
      TickedShape(s, c, now, decay);
      hide Ticked;
    }
  }

  /** A binding booked forth and back is as it was: nothing of its used tokens is
      over its limit. */
  lemma UndoneAt(u: State, t: State, v: State, from: string, to: string, amount: int, change: int, c: string)
    requires c in u.bindings && BindingOk(u, u.bindings[c]) && change == -amount
    requires Booked(u, t, from, to, amount, from) && t.bindings[c].used == u.bindings[c].used
    requires Booked(t, v, from, to, change, to)
    ensures v.bindings[c] == u.bindings[c]
  {
    LimitIs(u, u.bindings[c]);
    hide EffectiveLimit;
    var b, d, e := u.bindings[c], t.bindings[c], v.bindings[c];
    assert d == b.(lent := d.lent, borrowed := d.borrowed);
    assert e == b.(used := e.used);
    assert Limit(t, b) == Limit(u, b);
  }

  lemma LedgersRaised(u: State, t: State, from: string, to: string, amount: int)
    requires from in u.bindings && to in u.bindings
    requires BindingOk(u, u.bindings[from]) && BindingOk(u, u.bindings[to])
    requires Booked(u, t, from, to, amount, from)
    ensures from in t.bindings && to in t.bindings
    ensures t.bindings[to].borrowed >= amount && t.bindings[from].lent >= amount
  {
    hide Limit;
  }

  lemma LoanUndone(u: State, t: State, from: string, to: string, amount: int, change: int, clock: int)
    requires Ok(u, clock) && from in u.bindings && to in u.bindings && change == -amount && amount >= 0
    requires Booked(u, t, from, to, amount, from) && SameUsed(u, t)
    ensures GiveBack(t, to, from, amount) == (u, true)
  {
    assert forall c :: c in u.bindings ==> BindingOk(u, u.bindings[c]);
    hide Ok;
    hide BindingOk;
    LedgersRaised(u, t, from, to, amount);
    GiveBackEffect(t, to, from, amount, change);
    var v := GiveBack(t, to, from, amount).0;
    hide GiveBack;
    forall c | c in u.bindings
      ensures v.bindings[c] == u.bindings[c]
    {
      hide Booked;
      UndoneAt(u, t, v, from, to, amount, change, c);
    }
    assert v.bindings.Keys == u.bindings.Keys && v == u.(bindings := v.bindings);
    assert v.bindings == u.bindings;
  }

  /** A loan given back in full undoes it: after a successful borrow the return
      succeeds and leaves the state that the two ticks before the loan left, with
      everybody's ledgers and limits as in the state before. */
  lemma LoanRoundTrip(s: State, from: string, to: string, amount: int, now: int, decay: Decay, clock: int)
    requires Ok(s, clock) && amount >= 0 && Borrow(s, from, to, amount, now, decay).1
    ensures var t := Borrow(s, from, to, amount, now, decay).0;
      var u := Ticked(Ticked(s, from, now, decay), to, now, decay);
      && GiveBack(t, to, from, amount) == (u, true)
      && SameLimits(s, u)
  {
    var t1 := Ticked(s, from, now, decay);
    var u := Ticked(t1, to, now, decay);
    BorrowEffect(s, from, to, amount, now, decay, clock);
    hide Borrow;
    TickedOk(s, from, now, decay, clock);
    TickedOk(t1, to, now, decay, clock);
    TickKeepsLimits(s, from, now, decay, clock);
    TickKeepsLimits(t1, to, now, decay, clock);
    SameLimitsTrans(s, t1, u);
    assert from in s.bindings && to in s.bindings;
    assert s.bindings.Keys == u.bindings.Keys;
    hide *;
    LoanUndone(u, Borrow(s, from, to, amount, now, decay).0, from, to, amount, -amount, clock);
  }

  // ------------------------------------------------------------- the wait queue

  /** What the queue grants to its last item, after those before it: nothing if it
      has timed out or its caller is not known any more; otherwise all of its
      tokens if they fit after a tick, and else it keeps waiting. */
  lemma QueueStep(s: State, q: seq<Waiting>, now: int, decay: Decay)
    requires WellFormed(s) && q != []
    ensures var front, item := q[..|q| - 1], q[|q| - 1];
      var (t, left) := GrantQueued(s, front, now, decay);
      var (u, kept) := GrantQueued(s, q, now, decay);
      if item.timeoutAt <= now || item.caller !in t.bindings || t.bindings[item.caller].policy !in t.policies then
        u == t && kept == left
      else
        var v := Ticked(t, item.caller, now, decay); var b := v.bindings[item.caller];
        if Fits(v, b, item.tokens) then
          && u == v.(bindings := v.bindings[item.caller := b.(used := b.used + item.tokens)]) && kept == left
        else u == v && kept == left + [item]
  {
    var item := q[|q| - 1];
    var (t, left) := GrantQueued(s, q[..|q| - 1], now, decay);
    if Known(t, item.caller) {
      TickedShape(t, item.caller, now, decay);
      LimitIs(Ticked(t, item.caller, now, decay), Ticked(t, item.caller, now, decay).bindings[item.caller]);
      hide TickedBinding;
      hide EffectiveLimit;
    }
  }

  lemma {:induction false} DropExpiredRows(q: seq<Waiting>, keep: Waiting -> bool, now: int) returns (at: seq<nat>)
    requires forall x :: keep(x) <==> x.timeoutAt > now
    ensures RowsAt(q, at, DropExpired(q, now)) && Chosen(q, at, keep)
  {
    if q == [] {
      at := [];
    } else {
      var front, last := q[..|q| - 1], q[|q| - 1];
      assert DropExpired(q, now) == DropExpired(front, now) + if keep(last) then [last] else [];
      hide DropExpired;
      at := DropExpiredRows(front, keep, now);
      RowsNext(q, at, DropExpired(front, now));
      ChosenNext(q, at, keep);
      hide RowsAt;
      hide Chosen;
      if keep(last) {
        at := at + [|q| - 1];
      }
    }
  }

  /** Cleaning up the queue removes exactly the items whose time is over. */
  lemma DropExpiredEffect(q: seq<Waiting>, now: int) returns (at: seq<nat>)
    ensures RowsAt(q, at, DropExpired(q, now))
    ensures forall i: nat :: i in at <==> i < |q| && q[i].timeoutAt > now
  {
    at := DropExpiredRows(q, (x: Waiting) => x.timeoutAt > now, now);
  }

  // --------------------------------------------------------------- reservations

  /** The tokens a reservation adds to its caller's limit in a status. */
  function Held(r: Reservation, status: Status): int
  {
    if status.Active? then r.tokens else 0
  }

  /** The reservation has moved to a status: its caller's reserved tokens follow, and
      its used tokens are cut down to the limit they leave; nothing else changes. */
  ghost predicate Moved(s: State, t: State, id: int, status: Status)
    requires id in s.reservations && s.reservations[id].caller in s.bindings
  {
    var r := s.reservations[id];
    var b := s.bindings[r.caller];
    && t == s.(reservations := s.reservations[id := r.(status := status)], bindings := t.bindings)
    && r.caller in t.bindings && t.bindings == s.bindings[r.caller := t.bindings[r.caller]]
    && CutDown(s, b.(reserved := b.reserved + Held(r, status) - Held(r, r.status)), t.bindings[r.caller])
  }

  lemma MovedSelf(s: State, id: int, clock: int)
    requires Ok(s, clock) && id in s.reservations
    ensures s.reservations[id].caller in s.bindings && Moved(s, s, id, s.reservations[id].status)
  {
    assert ReservationOk(s, id, clock);
    var c := s.reservations[id].caller;
    KnownByOk(s, c, clock);
    LimitIs(s, s.bindings[c]);
    hide Ok;
    assert s.bindings[c := s.bindings[c]] == s.bindings;
    assert s.reservations[id := s.reservations[id]] == s.reservations;
  }

  lemma FinishMoves(s: State, id: int, status: Status)
    requires id in s.reservations && s.reservations[id].status.Active? && !status.Active?
    requires var c := s.reservations[id].caller;
      c in s.bindings && s.bindings[c].policy in s.policies && s.bindings[c].reserved >= s.reservations[id].tokens
    ensures Moved(s, Finish(s, id, status), id, status)
  {
    var r := s.reservations[id];
    var b := s.bindings[r.caller];
    LimitIs(s, b.(reserved := b.reserved - r.tokens));
    var v := s.(bindings := s.bindings[r.caller := b.(reserved := b.reserved - r.tokens)]);
    ClampCuts(v, r.caller);
    hide Clamp;
  }

  lemma ActivateMoves(s: State, id: int)
    requires id in s.reservations && s.reservations[id].status.Pending? && s.reservations[id].tokens >= 0
    requires var c := s.reservations[id].caller;
      c in s.bindings && s.bindings[c].policy in s.policies && s.bindings[c].used <= Limit(s, s.bindings[c])
    ensures Moved(s, Activate(s, id), id, Active)
  {
  }

  lemma MovedTwice(s: State, t: State, u: State, id: int)
    requires id in s.reservations && s.reservations[id].status.Pending? && s.reservations[id].tokens >= 0
    requires var c := s.reservations[id].caller;
      c in s.bindings && s.bindings[c].policy in s.policies && s.bindings[c].used <= Limit(s, s.bindings[c])
    requires Moved(s, t, id, Active) && Moved(t, u, id, Completed)
    ensures Moved(s, u, id, Completed)
  {
    var c := s.reservations[id].caller;
    assert t.bindings[c] == s.bindings[c].(reserved := s.bindings[c].reserved + s.reservations[id].tokens);
    assert u.bindings[c] == s.bindings[c];
    assert u.reservations == s.reservations[id := s.reservations[id].(status := Completed)];
    assert u.bindings == s.bindings[c := s.bindings[c]];
  }

  /** Where a reservation stands at an instant. */
  function StatusAt(r: Reservation, now: int): Status
  {
    match r.status
    case Pending => if now < r.startAt then Pending else if now < r.endAt then Active else Completed
    case Active => if now < r.endAt then Active else Completed
    case _ => r.status
  }

  /** A reservation's turn in a tick moves it to where it stands now. */
  lemma AdvanceEffect(s: State, id: int, clock: int, now: int)
    requires Ok(s, clock) && clock <= now && id in s.reservations
    ensures s.reservations[id].caller in s.bindings
    ensures Moved(s, Advance(s, id, now), id, StatusAt(s.reservations[id], now))
  {
    var r := s.reservations[id];
    assert ReservationOk(s, id, clock);
    KnownByOk(s, r.caller, clock);
    LimitIs(s, s.bindings[r.caller]);
    MovedSelf(s, id, clock);
    if r.status.Pending? && r.startAt <= now {
      ActivateMoves(s, id);
      if r.endAt <= now {
        ActivateOk(s, id, clock, now);
        var t := Activate(s, id);
        ReservedCovers(t, id, now);
        KnownByOk(t, r.caller, now);
        FinishMoves(t, id, Completed);
        MovedTwice(s, t, Finish(t, id, Completed), id);
      }
    } else if r.status.Active? && r.endAt <= now {
      ReservedCovers(s, id, clock);
      FinishMoves(s, id, Completed);
    }
    hide Ok;
    hide Moved;
    hide Activate;
    hide Finish;
  }

  /** A reservation of a caller that is not bound is cancelled instead of activated. */
  lemma ActivateUnbound(s: State, id: int, now: int)
    requires id in s.reservations && s.reservations[id].caller !in s.bindings
    requires s.reservations[id].status.Pending? && s.reservations[id].startAt <= now
    ensures var r := s.reservations[id];
      Advance(s, id, now) == s.(reservations := s.reservations[id := r.(status := Cancelled)])
  {
  }

  /** A cancelled reservation is off, with what it held; one that is over already,
      or unknown, stays as it is. */
  lemma CancelEffect(s: State, id: int, clock: int)
    requires Ok(s, clock)
    ensures if id in s.reservations && Live(s.reservations[id])
            then s.reservations[id].caller in s.bindings && Moved(s, Cancel(s, id), id, Cancelled)
            else Cancel(s, id) == s
  {
    if id in s.reservations && Live(s.reservations[id]) {
      var r := s.reservations[id];
      assert ReservationOk(s, id, clock);
      KnownByOk(s, r.caller, clock);
      LimitIs(s, s.bindings[r.caller]);
      if r.status.Active? {
        ReservedCovers(s, id, clock);
        FinishMoves(s, id, Cancelled);
        hide Finish;
      } else {
        assert s.bindings[r.caller := s.bindings[r.caller]] == s.bindings;
      }
      hide Ok;
    }
  }

  /** What a tick over all reservations leaves, in whatever order it walks the map:
      every reservation stands where it should now, and of the bindings only
      reserved and used tokens differ. */
  ghost predicate TickedThrough(s: State, t: State, done: set<int>, now: int)
  {
    && t == s.(reservations := t.reservations, bindings := t.bindings)
    && t.reservations.Keys == s.reservations.Keys && t.bindings.Keys == s.bindings.Keys
    && (forall id :: id in s.reservations ==>
          var r := s.reservations[id];
          t.reservations[id] == if id in done then r.(status := StatusAt(r, now)) else r)
    && forall c :: c in s.bindings ==>
         t.bindings[c] == s.bindings[c].(reserved := t.bindings[c].reserved, used := t.bindings[c].used)
  }

  lemma {:induction false} AdvanceAllEffect(s: State, order: seq<int>, clock: int, now: int)
    requires Ok(s, clock) && clock <= now && NoRepeats(order)
    ensures TickedThrough(s, AdvanceAll(s, order, now), (set id | id in order), now)
    decreases |order|
  {
    if order != [] {
      var front, id := order[..|order| - 1], order[|order| - 1];
      AdvanceAllEffect(s, front, clock, now);
      AdvanceAllOk(s, front, clock, now);
      var t := AdvanceAll(s, front, now);
      assert order == front + [id] && id !in front;
      var done := set k | k in front;
      assert done + {id} == (set k | k in order) && id !in done;
      assert id in t.reservations <==> id in s.reservations;
      hide Ok;
      hide Moved;
      hide NoRepeats;
      if id in t.reservations {
        AdvanceEffect(t, id, now, now);
        hide Advance;
        hide StatusAt;
        hide TickedThrough;
        ThroughMore(s, t, Advance(t, id, now), done, id, now);
      } else {
        assert Advance(t, id, now) == t;
        hide Advance;
        ThroughUnknown(s, t, done, id, now);
      }
    }
  }

  lemma ThroughUnknown(s: State, t: State, done: set<int>, id: int, now: int)
    requires TickedThrough(s, t, done, now) && id !in s.reservations
    ensures TickedThrough(s, t, done + {id}, now)
  {
  }

  lemma ThroughMore(s: State, t: State, u: State, done: set<int>, id: int, now: int)
    requires TickedThrough(s, t, done, now) && id in s.reservations && id !in done
    requires id in t.reservations && t.reservations[id].caller in t.bindings
    requires Moved(t, u, id, StatusAt(t.reservations[id], now))
    ensures TickedThrough(s, u, done + {id}, now)
  {
    hide Limit;
  }

  /** A booking succeeds exactly when its interval is not empty and not over, its
      tokens are positive and within the policy, policy and caller are known and
      the sweep finds no conflict.  Then it is entered under the next id, active
      if it has begun, and its caller's limit is raised at once in that case. */
  lemma ReserveEffect(s: State, k: Booking, now: int, order: seq<int>)
    ensures var t := Reserve(s, k, now, order); var outcome := ReserveOutcomeOf(s, k, now, order);
      && (outcome.Reserved? <==>
            && k.startAt < k.endAt && now <= k.endAt && k.policy in s.policies && k.caller in s.bindings
            && 0 < k.tokens <= s.policies[k.policy].maxTokens
            && !Conflicts(s, k.policy, k.startAt, k.endAt, k.tokens, order))
      && (outcome == BadInterval <==> k.endAt <= k.startAt)
      && (outcome == InThePast <==> k.startAt < k.endAt < now)
      && (outcome == BadTokens <==> k.startAt < k.endAt && now <= k.endAt && k.tokens <= 0)
      && (outcome == TooMany ==> k.policy in s.policies && k.tokens > s.policies[k.policy].maxTokens)
      && (outcome == NoPolicy ==> k.policy !in s.policies)
      && (outcome == NoCaller ==> k.caller !in s.bindings)
      && if !outcome.Reserved? then t == s
         else
           var begun := k.startAt <= now;
           var r := Reservation(k.policy, k.caller, k.tokens, k.startAt, k.endAt, if begun then Active else Pending);
           var b := s.bindings[k.caller];
           && outcome.id == s.nextId
           && t == s.(nextId := s.nextId + 1, reservations := s.reservations[s.nextId := r], bindings := t.bindings)
           && t.bindings ==
              if begun then s.bindings[k.caller := b.(reserved := b.reserved + k.tokens)] else s.bindings
  {
    hide Conflicts;
  }

  // ----------------------------------------------------------------- background

  /** Nobody's tick is due at now: another one would change nothing. */
  ghost predicate UpToDate(s: State, now: int, decay: Decay)
  {
    WellFormed(s) && forall c :: c in s.bindings ==> TickedBinding(s, s.bindings[c], now, decay) == s.bindings[c]
  }

  lemma TickTwice(s: State, b: Binding, tokens: int, now: int, decay: Decay)
    requires WellFormed(s)
    ensures var t := TickedBinding(s, b, now, decay); var u := t.(used := t.used + tokens);
      TickedBinding(s, u, now, decay) == u && TickedBinding(s, t, now, decay) == t
  {
    if b.policy in s.policies {
      var p, limit := s.policies[b.policy], EffectiveLimit(s, b);
      RateInvariant.TickFields(b, p, limit, now, decay);
      TickAgain(b, p, limit, now, decay, tokens);
      TickAgain(b, p, limit, now, decay, 0);
      var t := Tick(b, p, limit, now, decay);
      assert Charged(t, 0) == t;
      hide Tick;
      assert EffectiveLimit(s, t) == limit && EffectiveLimit(s, Charged(t, tokens)) == limit;
    }
  }

  lemma TickAllUpToDate(s: State, now: int, decay: Decay)
    requires WellFormed(s)
    ensures UpToDate(TickAll(s, now, decay), now, decay)
  {
    var t := TickAll(s, now, decay);
    forall c | c in t.bindings
      ensures TickedBinding(t, t.bindings[c], now, decay) == t.bindings[c]
    {
      TickTwice(s, s.bindings[c], 0, now, decay);
      SamePolicies(s, t, t.bindings[c], now, decay);
    }
  }

  lemma SamePolicies(s: State, t: State, b: Binding, now: int, decay: Decay)
    requires WellFormed(s) && t.policies == s.policies
    ensures TickedBinding(t, b, now, decay) == TickedBinding(s, b, now, decay)
  {
    hide Tick;
  }

  /** Granting from the queue leaves everybody up to date and charges nobody less. */
  lemma {:induction false} QueueUpToDate(s: State, q: seq<Waiting>, now: int, decay: Decay)
    requires UpToDate(s, now, decay)
    ensures var t := GrantQueued(s, q, now, decay).0;
      UpToDate(t, now, decay) && t == s.(bindings := t.bindings) && t.bindings.Keys == s.bindings.Keys
    decreases |q|
  {
    if q != [] {
      var item := q[|q| - 1];
      var t := GrantQueued(s, q[..|q| - 1], now, decay).0;
      var u := GrantQueued(s, q, now, decay).0;
      QueueUpToDate(s, q[..|q| - 1], now, decay);
      QueueStep(s, q, now, decay);
      hide GrantQueued;
      if item.caller in t.bindings {
        var b := t.bindings[item.caller];
        assert Ticked(t, item.caller, now, decay).bindings == t.bindings;
        TickTwice(t, b, item.tokens, now, decay);
        hide TickedBinding;
        forall c | c in u.bindings
          ensures TickedBinding(u, u.bindings[c], now, decay) == u.bindings[c]
        {
          SamePolicies(t, u, u.bindings[c], now, decay);
        }
      }
    }
  }

  /** The item has time left and its caller not enough tokens for it. */
  ghost predicate StillWaits(s: State, w: Waiting, now: int)
  {
    w.timeoutAt > now && Known(s, w.caller) && !Fits(s, s.bindings[w.caller], w.tokens)
  }

  /** Only items that have time left and do not fit keep waiting. */
  lemma {:induction false} QueueStillWaits(s: State, q: seq<Waiting>, now: int, decay: Decay)
    requires UpToDate(s, now, decay) && forall w :: w in q ==> w.tokens >= 0
    ensures var (t, left) := GrantQueued(s, q, now, decay);
      forall w :: w in left ==> w in q && StillWaits(t, w, now)
    decreases |q|
  {
    if q != [] {
      var front, item := q[..|q| - 1], q[|q| - 1];
      assert q == front + [item] && item in q && forall w :: w in front ==> w in q;
      var (t, left) := GrantQueued(s, front, now, decay);
      var (u, kept) := GrantQueued(s, q, now, decay);
      QueueStillWaits(s, front, now, decay);
      QueueUpToDate(s, front, now, decay);
      QueueStep(s, q, now, decay);
      hide GrantQueued;
      if Known(t, item.caller) {
        assert Ticked(t, item.caller, now, decay) == t by {
          assert t.bindings[item.caller := t.bindings[item.caller]] == t.bindings;
        }
      }
      hide UpToDate;
      hide Ticked;
      forall w | w in kept
        ensures w in q && StillWaits(u, w, now)
      {
        if w in left {
          assert StillWaits(t, w, now);
        }
      }
    }
  }

  /** What the queue leaves when nobody's tick was due. */
  lemma QueueServed(s: State, now: int, decay: Decay)
    requires UpToDate(s, now, decay) && forall w :: w in s.waitQueue ==> w.tokens >= 0
    ensures var (t, left) := GrantQueued(s, s.waitQueue, now, decay); var u := t.(waitQueue := left);
      && u == s.(bindings := u.bindings, waitQueue := left) && u.bindings.Keys == s.bindings.Keys
      && UpToDate(u, now, decay)
      && forall w :: w in left ==> w in s.waitQueue && StillWaits(u, w, now)
  {
    var (t, left) := GrantQueued(s, s.waitQueue, now, decay);
    var u := t.(waitQueue := left);
    QueueUpToDate(s, s.waitQueue, now, decay);
    QueueStillWaits(s, s.waitQueue, now, decay);
    hide GrantQueued;
    forall c | c in u.bindings
      ensures TickedBinding(u, u.bindings[c], now, decay) == u.bindings[c]
    {
      SamePolicies(t, u, u.bindings[c], now, decay);
    }
    hide TickedBinding;
    forall w | w in left
      ensures StillWaits(u, w, now)
    {
      assert StillWaits(t, w, now);
    }
  }

  /** The reservation tick and the ticks of the bindings in one pass. */
  lemma AllTicked(s: State, order: seq<int>, now: int, decay: Decay, clock: int)
    requires Ok(s, clock) && clock <= now && Iteration(order, s.reservations.Keys)
    ensures var t := TickAll(AdvanceAll(s, order, now), now, decay);
      && t == s.(reservations := t.reservations, bindings := t.bindings)
      && t.bindings.Keys == s.bindings.Keys && t.reservations.Keys == s.reservations.Keys
      && (forall id :: id in s.reservations ==>
            t.reservations[id] == s.reservations[id].(status := StatusAt(s.reservations[id], now)))
      && UpToDate(t, now, decay)
  {
    AdvanceAllEffect(s, order, clock, now);
    var t := AdvanceAll(s, order, now);
    TickAllUpToDate(t, now, decay);
    hide Ok;
    hide AdvanceAll;
    hide TickedBinding;
    hide UpToDate;
    hide StatusAt;
  }

  lemma CleanedOk(s: State, now: int, clock: int)
    requires Ok(s, clock)
    ensures Ok(s.(waitQueue := DropExpired(s.waitQueue, now)), clock)
    ensures forall w :: w in DropExpired(s.waitQueue, now) ==> w in s.waitQueue && w.tokens >= 0
  {
    DropExpiredSubset(s.waitQueue, now);
    SameLedgerOk(s, s.(waitQueue := DropExpired(s.waitQueue, now)), clock);
    hide EffectiveLimit;
    hide ReservationOk;
  }

  /** After a pass of the background loop every reservation stands where it should,
      nobody's tick is due, and whoever still waits has time left and asks for more
      than its caller has. */
  lemma RefillEffect(s: State, order: seq<int>, now: int, decay: Decay, clock: int)
    requires Ok(s, clock) && clock <= now && Iteration(order, s.reservations.Keys)
    ensures var t := RefillTick(s, order, now, decay);
      && t.policies == s.policies && t.nextId == s.nextId && t.bindings.Keys == s.bindings.Keys
      && t.reservations.Keys == s.reservations.Keys
      && (forall id :: id in s.reservations ==>
            t.reservations[id] == s.reservations[id].(status := StatusAt(s.reservations[id], now)))
      && UpToDate(t, now, decay)
      && forall w :: w in t.waitQueue ==> w in s.waitQueue && StillWaits(t, w, now)
  {
    var s1 := s.(waitQueue := DropExpired(s.waitQueue, now));
    var s2 := TickAll(AdvanceAll(s1, order, now), now, decay);
    var (t, left) := GrantQueued(s2, s2.waitQueue, now, decay);
    assert RefillTick(s, order, now, decay) == t.(waitQueue := left);
    hide *;
    CleanedOk(s, now, clock);
    AllTicked(s1, order, now, decay, clock);
    QueueServed(s2, now, decay);
  }
}
