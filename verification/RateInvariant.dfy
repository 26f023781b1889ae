/** What every operation of the rate limiter keeps: balanced ledgers, used
    tokens within the effective limit, and no over-reservation at any instant. */
module RateInvariant {
  import opened Basics
  import opened Totals
  import opened RateState

  // ----------------------------------------------------------------- ledgers

  ghost function BorrowedMap(s: State): map<string, int>
  {
    map c | c in s.bindings :: s.bindings[c].borrowed
  }

  ghost function LentMap(s: State): map<string, int>
  {
    map c | c in s.bindings :: s.bindings[c].lent
  }

  /** The active reservations of caller c. */
  ghost function ActiveMap(s: State, c: string): map<int, int>
  {
    map id | id in s.reservations && s.reservations[id].status.Active? && s.reservations[id].caller == c ::
      s.reservations[id].tokens
  }

  /** The live reservations of policy p that cover instant t. */
  ghost function LoadMap(s: State, p: string, t: int): map<int, int>
  {
    map id | id in s.reservations && s.reservations[id].policy == p && Live(s.reservations[id]) &&
             s.reservations[id].startAt <= t < s.reservations[id].endAt ::
      s.reservations[id].tokens
  }

  /** The active reservations of policy p, whatever the instant. */
  ghost function ActiveOfPolicy(s: State, p: string): map<int, int>
  {
    map id | id in s.reservations && s.reservations[id].policy == p && s.reservations[id].status.Active? ::
      s.reservations[id].tokens
  }

  ghost predicate BindingOk(s: State, b: Binding)
  {
    b.policy in s.policies && 0 <= b.used <= EffectiveLimit(s, b) && b.borrowed >= 0 && b.lent >= 0
  }

  ghost predicate ReservationOk(s: State, id: int, clock: int)
    requires id in s.reservations
  {
    var r := s.reservations[id];
    && id < s.nextId && r.tokens > 0 && r.startAt < r.endAt
    && r.policy in s.policies && r.caller in s.bindings
    && (r.status.Active? ==> r.startAt <= clock)
  }

  ghost predicate NotOverReserved(s: State)
  {
    forall p, t :: p in s.policies ==> Total(LoadMap(s, p, t)) <= s.policies[p].maxTokens
  }

  ghost predicate LedgersOk(s: State)
  {
    && Balanced(s)
    && forall c :: c in s.bindings ==> s.bindings[c].reserved == Total(ActiveMap(s, c))
  }

  ghost predicate Ok(s: State, clock: int)
  {
    && WellFormed(s)
    && (forall c :: c in s.bindings ==> BindingOk(s, s.bindings[c]))
    && LedgersOk(s)
    && (forall id :: id in s.reservations ==> ReservationOk(s, id, clock))
    && NotOverReserved(s)
    && (forall w :: w in s.waitQueue ==> w.tokens >= 0)
  }

  /** A tick touches used tokens and timestamps only. */
  lemma TickFields(b: Binding, p: Policy, limit: int, now: int, decay: Decay)
    requires p.algorithm.FixedWindow? ==> p.windowSec > 0
    ensures var t := Tick(b, p, limit, now, decay);
      t == b.(used := t.used, windowStart := t.windowStart, lastRefill := t.lastRefill)
  {
  }

  lemma KnownByOk(s: State, c: string, clock: int)
    requires Ok(s, clock) && c in s.bindings
    ensures Known(s, c) && WellFormed(s) && 0 <= s.bindings[c].used <= EffectiveLimit(s, s.bindings[c])
  {
    assert BindingOk(s, s.bindings[c]);
  }

  // -------------------------------------------- steps that touch no ledger

  /** Only used tokens, quotas, timestamps and the wait queue may differ. */
  ghost predicate SameLedger(s: State, t: State)
  {
    && t.policies == s.policies && t.reservations == s.reservations && t.nextId == s.nextId
    && t.bindings.Keys == s.bindings.Keys
    && forall c :: c in s.bindings ==>
      && t.bindings[c].policy == s.bindings[c].policy && t.bindings[c].borrowed == s.bindings[c].borrowed
      && t.bindings[c].lent == s.bindings[c].lent && t.bindings[c].reserved == s.bindings[c].reserved
  }

  ghost predicate BindingsOk(s: State)
  {
    forall c :: c in s.bindings ==> BindingOk(s, s.bindings[c])
  }

  lemma SameLedgerOk(s: State, t: State, clock: int)
    requires Ok(s, clock) && SameLedger(s, t) && BindingsOk(t)
    requires forall w :: w in t.waitQueue ==> w.tokens >= 0
    ensures Ok(t, clock)
  {
    hide Total;
    assert BorrowedMap(t) == BorrowedMap(s);
    assert LentMap(t) == LentMap(s);
    forall c | c in t.bindings
      ensures t.bindings[c].reserved == Total(ActiveMap(t, c))
    {
      assert ActiveMap(t, c) == ActiveMap(s, c);
    }
    forall p, i | p in t.policies
      ensures Total(LoadMap(t, p, i)) <= t.policies[p].maxTokens
    {
      assert LoadMap(t, p, i) == LoadMap(s, p, i);
    }
  }

  lemma ScaledDown(x: real, f: real)
    requires 0.0 <= x && 0.0 <= f <= 1.0
    ensures 0.0 <= x * f <= x
  {
  }

  lemma TruncateBelow(x: real, n: int)
    requires 0.0 <= x <= n as real
    ensures 0 <= Truncate(x) <= n
  {
  }

  lemma DecayedWithin(used: nat, elapsed: int, window: int, decay: Decay)
    ensures 0.0 <= Decayed(used, elapsed, window, decay) <= used as real
  {
    var f := decay(elapsed, window);
    assert 0.0 <= f <= 1.0;
    ScaledDown(used as real, f);
  }

  lemma DecayLowers(b: Binding, p: Policy, limit: int, now: int, decay: Decay)
    requires p.algorithm.SlidingWindow? && b.used >= 0
    ensures 0 <= Tick(b, p, limit, now, decay).used <= b.used
  {
    hide Decayed;
    if now > b.windowStart {
      var elapsed, window := now - b.windowStart, if p.windowSec <= 0 then 60 else p.windowSec;
      DecayedWithin(b.used, elapsed, window, decay);
      TruncateBelow(Decayed(b.used, elapsed, window, decay), b.used);
    }
  }

  lemma RefillLowers(b: Binding, p: Policy, limit: int, now: int, decay: Decay)
    requires p.algorithm.TokenBucket? && 0 <= b.used <= limit
    ensures 0 <= Tick(b, p, limit, now, decay).used <= b.used
  {
    hide Inflow;
    var x := Inflow(p, now - b.lastRefill);
    if now - b.lastRefill >= MILLISECOND && x >= 0.1 && b.used as real - x >= 0.0 {
      TruncateBelow(b.used as real - x, b.used);
      assert limit as real - ((limit - b.used) as real + x) == b.used as real - x;
    }
  }

  /** A tick only lowers the used tokens and keeps the ledger fields. */
  lemma TickLowers(b: Binding, p: Policy, limit: int, now: int, decay: Decay)
    requires p.algorithm.FixedWindow? ==> p.windowSec > 0
    requires 0 <= b.used <= limit
    ensures var t := Tick(b, p, limit, now, decay);
      && 0 <= t.used <= b.used
      && t == b.(used := t.used, windowStart := t.windowStart, lastRefill := t.lastRefill)
  {
    TickFields(b, p, limit, now, decay);
    match p.algorithm
    case SlidingWindow =>
      DecayLowers(b, p, limit, now, decay);
      hide Tick;
    case TokenBucket =>
      RefillLowers(b, p, limit, now, decay);
      hide Tick;
    case _ =>
  }

  lemma TickedOk(s: State, c: string, now: int, decay: Decay, clock: int)
    requires Ok(s, clock)
    ensures Ok(Ticked(s, c, now, decay), clock) && SameLedger(s, Ticked(s, c, now, decay))
  {
    hide Total;
    if c in s.bindings {
      var b := s.bindings[c];
      TickLowers(b, s.policies[b.policy], EffectiveLimit(s, b), now, decay);
      SameLedgerOk(s, Ticked(s, c, now, decay), clock);
    }
  }

  lemma ChargeOk(s: State, c: string, tokens: int, clock: int)
    requires Ok(s, clock) && c in s.bindings && 0 <= tokens <= Remaining(s, s.bindings[c])
    ensures Ok(Charge(s, c, tokens), clock)
  {
    hide Total;
    SameLedgerOk(s, Charge(s, c, tokens), clock);
  }

  lemma RequestOk(s: State, c: string, tokens: int, waitable: bool, waitSec: int, now: int, decay: Decay, clock: int)
    requires Ok(s, clock) && tokens >= 0
    ensures Ok(Request(s, c, tokens, waitable, waitSec, now, decay).0, clock)
  {
    hide Total;
    if Known(s, c) {
      TickedOk(s, c, now, decay, clock);
      var t := Ticked(s, c, now, decay);
      var (u, outcome) := Request(s, c, tokens, waitable, waitSec, now, decay);
      if outcome.Granted? {
        ChargeOk(t, c, tokens, clock);
      } else if outcome.Enqueued? {
        SameLedgerOk(t, u, clock);
      }
    }
  }

  lemma ReturnOk(s: State, c: string, tokens: int, now: int, decay: Decay, clock: int)
    requires Ok(s, clock) && tokens >= 0
    ensures Ok(Return(s, c, tokens, now, decay), clock)
  {
    TickedOk(s, c, now, decay, clock);
    if c in s.bindings {
      RefundOk(Ticked(s, c, now, decay), c, tokens, clock);
    }
    hide Ok;
    hide TickedBinding;
  }

  lemma RefundOk(t: State, c: string, tokens: int, clock: int)
    requires Ok(t, clock) && c in t.bindings && tokens >= 0
    ensures Ok(Refund(t, c, tokens), clock)
  {
    RefundSame(t, c, tokens);
    assert forall w :: w in t.waitQueue ==> w.tokens >= 0;
    hide Refund;
    SameLedgerOk(t, Refund(t, c, tokens), clock);
  }

  lemma RefundSame(t: State, c: string, tokens: int)
    requires BindingsOk(t) && c in t.bindings && tokens >= 0
    ensures var u := Refund(t, c, tokens);
      BindingsOk(u) && SameLedger(t, u) && u.waitQueue == t.waitQueue
  {
  }

  lemma RequotaSame(t: State, c: string, quota: int)
    requires BindingsOk(t) && c in t.bindings
    ensures var u := Clamp(t.(bindings := t.bindings[c := t.bindings[c].(quota := quota)]), c);
      BindingsOk(u) && SameLedger(t, u) && u.waitQueue == t.waitQueue
  {
  }

  lemma AdjustOk(s: State, c: string, quota: int, now: int, decay: Decay, clock: int)
    requires Ok(s, clock)
    ensures Ok(Adjust(s, c, quota, now, decay), clock)
  {
    hide Total;
    TickedOk(s, c, now, decay, clock);
    if c in s.bindings {
      var t := Ticked(s, c, now, decay);
      RequotaSame(t, c, quota);
      SameLedgerOk(t, Adjust(s, c, quota, now, decay), clock);
    }
  }

  // --------------------------------------------------------- borrow and lend

  lemma LendTotals(s: State, c: string, amount: int)
    requires c in s.bindings
    ensures Total(LentMap(Lend(s, c, amount))) == Total(LentMap(s)) + amount
    ensures BorrowedMap(Lend(s, c, amount)) == BorrowedMap(s)
  {
    hide Total;
    assert LentMap(Lend(s, c, amount)) == LentMap(s)[c := s.bindings[c].lent + amount];
    TotalUpdate(LentMap(s), c, s.bindings[c].lent + amount);
  }

  lemma TakeUpTotals(s: State, c: string, amount: int)
    requires c in s.bindings
    ensures Total(BorrowedMap(TakeUp(s, c, amount))) == Total(BorrowedMap(s)) + amount
    ensures LentMap(TakeUp(s, c, amount)) == LentMap(s)
  {
    hide Total;
    assert BorrowedMap(TakeUp(s, c, amount)) == BorrowedMap(s)[c := s.bindings[c].borrowed + amount];
    TotalUpdate(BorrowedMap(s), c, s.bindings[c].borrowed + amount);
  }

  lemma ClampKeepsTotals(s: State, c: string)
    requires c in s.bindings
    ensures BorrowedMap(Clamp(s, c)) == BorrowedMap(s) && LentMap(Clamp(s, c)) == LentMap(s)
  {
  }

  /** Balanced transfers between bindings leave the reservations alone. */
  lemma TransferOk(s: State, t: State, clock: int)
    requires Ok(s, clock) && BindingsOk(t)
    requires t == s.(bindings := t.bindings) && t.bindings.Keys == s.bindings.Keys
    requires forall c :: c in s.bindings ==> t.bindings[c].reserved == s.bindings[c].reserved
    requires Balanced(t)
    ensures Ok(t, clock)
  {
    hide Total;
    forall c | c in t.bindings
      ensures t.bindings[c].reserved == Total(ActiveMap(t, c))
    {
      assert ActiveMap(t, c) == ActiveMap(s, c);
    }
    forall p, i | p in t.policies
      ensures Total(LoadMap(t, p, i)) <= t.policies[p].maxTokens
    {
      assert LoadMap(t, p, i) == LoadMap(s, p, i);
    }
  }

  /** The lender's used tokens fit what it keeps. */
  lemma BorrowBindings(t: State, from: string, to: string, amount: int)
    requires BindingsOk(t) && from in t.bindings && to in t.bindings
    requires 0 <= amount <= Remaining(t, t.bindings[from])
    ensures var u := TakeUp(Lend(t, from, amount), to, amount);
      BindingsOk(u) && u.bindings[from].used <= EffectiveLimit(u, u.bindings[from])
  {
  }

  /** A transfer changes nothing but lent and borrowed tokens. */
  lemma TransferShape(t: State, from: string, to: string, lent: int, taken: int)
    requires from in t.bindings && to in t.bindings
    ensures var u := TakeUp(Lend(t, from, lent), to, taken);
      && u == Lend(TakeUp(t, to, taken), from, lent)
      && u == t.(bindings := u.bindings) && u.bindings.Keys == t.bindings.Keys
      && forall c :: c in t.bindings ==> u.bindings[c].reserved == t.bindings[c].reserved
  {
  }

  /** The clamp of BorrowQuota never cuts anything off, and the loan is booked
      on both sides. */
  lemma LoanOk(t: State, from: string, to: string, amount: int, clock: int)
    requires Ok(t, clock) && from in t.bindings && to in t.bindings
    requires 0 <= amount <= Remaining(t, t.bindings[from])
    ensures var u := TakeUp(Lend(t, from, amount), to, amount);
      Ok(u, clock) && Clamp(u, from) == u
  {
    hide Total;
    BorrowBindings(t, from, to, amount);
    TransferShape(t, from, to, amount, amount);
    LendTotals(t, from, amount);
    TakeUpTotals(Lend(t, from, amount), to, amount);
    TransferOk(t, TakeUp(Lend(t, from, amount), to, amount), clock);
  }

  lemma BorrowIs(s: State, from: string, to: string, amount: int, now: int, decay: Decay)
    requires WellFormed(s) && from in s.bindings && to in s.bindings
    ensures var t := Ticked(Ticked(s, from, now, decay), to, now, decay);
      from in t.bindings && to in t.bindings &&
      Borrow(s, from, to, amount, now, decay) ==
      if Remaining(t, t.bindings[from]) < amount then (t, false)
      else (Clamp(TakeUp(Lend(t, from, amount), to, amount), from), true)
  {
  }

  lemma BorrowOk(s: State, from: string, to: string, amount: int, now: int, decay: Decay, clock: int)
    requires Ok(s, clock) && amount >= 0
    ensures Ok(Borrow(s, from, to, amount, now, decay).0, clock)
  {
    hide Total;
    TickedOk(s, from, now, decay, clock);
    var t1 := Ticked(s, from, now, decay);
    TickedOk(t1, to, now, decay, clock);
    var t := Ticked(t1, to, now, decay);
    if from in s.bindings && to in s.bindings {
      if Remaining(t, t.bindings[from]) >= amount {
        LoanOk(t, from, to, amount, clock);
      }
    }
  }

  /** After the clamp both sides of a returned loan are within their limits. */
  lemma GiveBackBindings(s: State, from: string, to: string, amount: int)
    requires BindingsOk(s) && from in s.bindings && to in s.bindings
    requires 0 <= amount <= s.bindings[from].borrowed && amount <= s.bindings[to].lent
    ensures BindingsOk(Clamp(Lend(TakeUp(s, from, -amount), to, -amount), from))
  {
  }

  lemma ClampShape(t: State, c: string)
    requires c in t.bindings
    ensures var u := Clamp(t, c);
      && u == t.(bindings := u.bindings) && u.bindings.Keys == t.bindings.Keys
      && forall k :: k in t.bindings ==> u.bindings[k] == t.bindings[k].(used := u.bindings[k].used)
  {
  }

  ghost predicate Balanced(s: State)
  {
    Total(BorrowedMap(s)) == Total(LentMap(s))
  }

  /** Taking a loan back on both sides keeps the books balanced. */
  lemma UnlendTotals(s: State, t: State, v: State, from: string, to: string, amount: int)
    requires from in s.bindings && to in s.bindings && Balanced(s)
    requires t == TakeUp(s, from, amount) && v == Lend(t, to, amount)
    ensures Balanced(v)
  {
    hide Total;
    TakeUpTotals(s, from, amount);
    LendTotals(t, to, amount);
  }

  lemma ClampBalanced(v: State, c: string)
    requires c in v.bindings && Balanced(v)
    ensures Balanced(Clamp(v, c))
  {
    hide Total;
    ClampKeepsTotals(v, c);
  }

  lemma UnlendOk(s: State, from: string, to: string, amount: int, clock: int)
    requires Ok(s, clock) && from in s.bindings && to in s.bindings
    requires 0 <= amount <= s.bindings[from].borrowed && amount <= s.bindings[to].lent
    ensures Ok(Clamp(Lend(TakeUp(s, from, -amount), to, -amount), from), clock)
  {
    hide Total;
    var t := TakeUp(s, from, -amount);
    var v := Lend(t, to, -amount);
    GiveBackBindings(s, from, to, amount);
    UnlendTotals(s, t, v, from, to, -amount);
    ClampBalanced(v, from);
    TransferShape(s, to, from, -amount, -amount);
    ClampShape(v, from);
    TransferOk(s, Clamp(v, from), clock);
  }

  lemma GiveBackOk(s: State, from: string, to: string, amount: int, clock: int)
    requires Ok(s, clock) && amount >= 0
    ensures Ok(GiveBack(s, from, to, amount).0, clock)
  {
    hide Total;
    if GiveBack(s, from, to, amount).1 {
      UnlendOk(s, from, to, amount, clock);
      assert BindingOk(s, s.bindings[from]);
    }
  }

  lemma NewPolicyOk(s: State, name: string, p: Policy, clock: int)
    requires Ok(s, clock) && p.maxTokens >= 0
    requires p.algorithm.FixedWindow? ==> p.windowSec > 0
    ensures Ok(NewPolicy(s, name, p), clock)
  {
    var t := NewPolicy(s, name, p);
    NewPolicyTables(s, name, p, clock);
    NewPolicyLoad(s, name, p, clock);
    hide Total;
    hide ReservationOk;
    hide EffectiveLimit;
    forall c | c in t.bindings
      ensures t.bindings[c].reserved == Total(ActiveMap(t, c))
    {
      assert ActiveMap(t, c) == ActiveMap(s, c);
    }
  }

  /** A new policy changes no binding's limit and no reservation. */
  lemma NewPolicyTables(s: State, name: string, p: Policy, clock: int)
    requires Ok(s, clock)
    ensures var t := NewPolicy(s, name, p);
      && BindingsOk(t) && BorrowedMap(t) == BorrowedMap(s) && LentMap(t) == LentMap(s)
      && forall id :: id in t.reservations ==> ReservationOk(t, id, clock)
  {
    hide Total;
    var t := NewPolicy(s, name, p);
    forall c | c in t.bindings
      ensures BindingOk(t, t.bindings[c])
    {
      assert BindingOk(s, s.bindings[c]);
    }
    forall id | id in t.reservations
      ensures ReservationOk(t, id, clock)
    {
      assert ReservationOk(s, id, clock);
    }
  }

  lemma NewPolicyLoad(s: State, name: string, p: Policy, clock: int)
    requires Ok(s, clock) && p.maxTokens >= 0
    ensures NotOverReserved(NewPolicy(s, name, p))
  {
    var t := NewPolicy(s, name, p);
    forall q, i | q in t.policies
      ensures Total(LoadMap(t, q, i)) <= t.policies[q].maxTokens
    {
      assert LoadMap(t, q, i) == LoadMap(s, q, i);
      if q !in s.policies {
        forall id | id in s.reservations
          ensures s.reservations[id].policy != q
        {
          assert ReservationOk(s, id, clock);
        }
        assert LoadMap(t, q, i) == map[];
      }
    }
  }

  lemma BindTotals(s: State, c: string, policy: string, quota: int, now: int)
    requires policy in s.policies
    ensures var t := Bind(s, c, policy, quota, now);
      && Total(BorrowedMap(t)) == Total(BorrowedMap(s)) - (if c in s.bindings then s.bindings[c].borrowed else 0)
      && Total(LentMap(t)) == Total(LentMap(s)) - (if c in s.bindings then s.bindings[c].lent else 0)
      && forall k :: ActiveMap(t, k) == ActiveMap(s, k)
  {
    hide Total;
    var t := Bind(s, c, policy, quota, now);
    assert BorrowedMap(t) == BorrowedMap(s)[c := 0];
    assert LentMap(t) == LentMap(s)[c := 0];
    TotalUpdate(BorrowedMap(s), c, 0);
    TotalUpdate(LentMap(s), c, 0);
  }

  lemma NoneReserved(s: State, c: string, clock: int)
    requires Ok(s, clock) && c !in s.bindings
    ensures Total(ActiveMap(s, c)) == 0
  {
    forall id | id in s.reservations
      ensures s.reservations[id].caller != c
    {
      assert ReservationOk(s, id, clock);
    }
    assert ActiveMap(s, c) == map[];
  }

  /** A caller that was unknown starts within its limit and changes no other row. */
  lemma FreshBindings(s: State, c: string, policy: string, quota: int, now: int, clock: int)
    requires Ok(s, clock) && c !in s.bindings && policy in s.policies
    ensures var t := Bind(s, c, policy, quota, now);
      BindingsOk(t) && forall id :: id in t.reservations ==> ReservationOk(t, id, clock)
  {
    hide Total;
    var t := Bind(s, c, policy, quota, now);
    forall id | id in t.reservations
      ensures ReservationOk(t, id, clock)
    {
      assert ReservationOk(s, id, clock);
    }
    forall k | k in t.bindings
      ensures BindingOk(t, t.bindings[k])
    {
      assert k in s.bindings ==> BindingOk(s, s.bindings[k]);
    }
  }

  lemma BindNewOk(s: State, c: string, policy: string, quota: int, now: int, clock: int)
    requires Ok(s, clock) && c !in s.bindings
    ensures Ok(Bind(s, c, policy, quota, now), clock)
  {
    if policy in s.policies {
      var t := Bind(s, c, policy, quota, now);
      BindTotals(s, c, policy, quota, now);
      FreshBindings(s, c, policy, quota, now, clock);
      NoneReserved(s, c, clock);
      hide Total;
      hide ReservationOk;
      hide EffectiveLimit;
      forall p, i | p in t.policies
        ensures Total(LoadMap(t, p, i)) <= t.policies[p].maxTokens
      {
        assert LoadMap(t, p, i) == LoadMap(s, p, i);
      }
    }
  }

  /** Binding a caller again wipes its ledger entries: the books stay balanced
      exactly when it borrowed as much as it lent and reserved nothing. */
  lemma RebindLedgers(s: State, c: string, policy: string, quota: int, now: int)
    requires LedgersOk(s) && c in s.bindings && policy in s.policies
    ensures LedgersOk(Bind(s, c, policy, quota, now)) <==>
      s.bindings[c].borrowed == s.bindings[c].lent && s.bindings[c].reserved == 0
  {
    hide Total;
    var t := Bind(s, c, policy, quota, now);
    BindTotals(s, c, policy, quota, now);
    assert t.bindings[c].reserved == 0;
    assert Total(ActiveMap(t, c)) == s.bindings[c].reserved;
    forall k | k in t.bindings && k != c
      ensures t.bindings[k].reserved == Total(ActiveMap(t, k))
    {
    }
  }
}
