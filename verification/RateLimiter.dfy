/** The rate limiter as the source writes it: an object whose methods update
    policies, bindings, reservations and the wait queue in place.  Every method
    is proved against the step functions of RateState, so the run theorems
    (ledgers, reservations, grant bounds) are theorems about this object.
    Walks over a Go map take the keys in an arbitrary order. */
module RateLimiter {
  import opened Basics
  import opened Sweep
  import opened RateState
  import opened MapWalks
  import opened RateInvariant
  import opened RateEffects

  /** The walk that AdvanceAll describes, in some order of the reservations. */
  ghost predicate Advanced(s: State, t: State, now: int)
  {
    exists order :: Iteration(order, s.reservations.Keys) && t == AdvanceAll(s, order, now)
  }

  lemma AdvanceShape(s: State, id: int, now: int)
    ensures var t := Advance(s, id, now);
      && t.policies == s.policies && t.waitQueue == s.waitQueue && t.nextId == s.nextId
      && t.reservations.Keys == s.reservations.Keys && t.bindings.Keys == s.bindings.Keys
  {
    if id in s.reservations {
      ActivateShape(s, id);
      FinishShape(s, id);
      FinishShape(Activate(s, id), id);
      hide Activate;
      hide Finish;
    }
  }

  lemma ActivateShape(s: State, id: int)
    requires id in s.reservations
    ensures var t := Activate(s, id);
      && t.policies == s.policies && t.waitQueue == s.waitQueue && t.nextId == s.nextId
      && t.reservations.Keys == s.reservations.Keys && t.bindings.Keys == s.bindings.Keys
  {
  }

  lemma FinishShape(s: State, id: int)
    requires id in s.reservations
    ensures var t := Finish(s, id, Completed);
      && t.policies == s.policies && t.waitQueue == s.waitQueue && t.nextId == s.nextId
      && t.reservations.Keys == s.reservations.Keys && t.bindings.Keys == s.bindings.Keys
  {
    hide EffectiveLimit;
  }

  lemma {:induction false} AdvanceAllShape(s: State, order: seq<int>, now: int)
    ensures var t := AdvanceAll(s, order, now);
      && t.policies == s.policies && t.waitQueue == s.waitQueue && t.nextId == s.nextId
      && t.reservations.Keys == s.reservations.Keys && t.bindings.Keys == s.bindings.Keys
    decreases |order|
  {
    if order != [] {
      AdvanceAllShape(s, order[..|order| - 1], now);
      AdvanceShape(AdvanceAll(s, order[..|order| - 1], now), order[|order| - 1], now);
    }
  }

  /** A walk grown at its front by one more reservation. */
  lemma ContendersGrow(s: State, p: string, id: int, rest: seq<int>)
    ensures Contenders(s, p, [id] + rest) ==
      (if id in s.reservations && s.reservations[id].policy == p && Live(s.reservations[id])
       then [Interval(s.reservations[id].startAt, s.reservations[id].endAt, s.reservations[id].tokens)] else [])
      + Contenders(s, p, rest)
  {
  }

  lemma {:induction false} ContendersConcat(s: State, p: string, a: seq<int>, b: seq<int>)
    ensures Contenders(s, p, a + b) == Contenders(s, p, a) + Contenders(s, p, b)
    decreases |a|
  {
    if a == [] {
      assert a + b == b;
    } else {
      assert a == [a[0]] + a[1..] && a + b == [a[0]] + (a[1..] + b);
      ContendersGrow(s, p, a[0], a[1..]);
      ContendersGrow(s, p, a[0], a[1..] + b);
      ContendersConcat(s, p, a[1..], b);
    }
  }

  lemma {:induction false} EventsConcat(a: seq<Interval>, b: seq<Interval>)
    ensures EventsOf(a + b) == EventsOf(a) + EventsOf(b)
    decreases |a|
  {
    if a == [] {
      assert a + b == b;
    } else {
      assert a + b == [a[0]] + (a[1..] + b);
      EventsConcat(a[1..], b);
    }
  }

  class RateLimiter {
    const decay: Decay
    var policies: map<string, Policy>
    var bindings: map<string, Binding>
    var reservations: map<int, Reservation>
    var nextId: int
    var waitQueue: seq<Waiting>

    function S(): State
      reads this
    {
      State(policies, bindings, reservations, nextId, waitQueue)
    }

    constructor (decay: Decay)
      ensures S() == EMPTY && this.decay == decay
    {
      this.decay := decay;
      policies, bindings, reservations, nextId, waitQueue := map[], map[], map[], 1, [];
    }

    method CreatePolicy(name: string, p: Policy) returns (ok: bool)
      modifies this
      ensures S() == NewPolicy(old(S()), name, p) && ok == (name !in old(policies))
      ensures S() == old(S()).(policies := if ok then old(policies)[name := p] else old(policies))
    {
      if name in policies {
        return false;
      }
      policies := policies[name := p];
      return true;
    }

    method BindCaller(c: string, policy: string, quota: int, now: int) returns (ok: bool)
      modifies this
      ensures S() == Bind(old(S()), c, policy, quota, now) && ok == (policy in old(policies))
      ensures !ok ==> S() == old(S())
      ensures ok ==>
        var a := policies[policy].algorithm;
        && c in bindings && S() == old(S()).(bindings := old(bindings)[c := bindings[c]])
        && bindings[c] == Binding(policy, quota, 0, 0, 0, 0, bindings[c].windowStart, bindings[c].lastRefill)
        && bindings[c].windowStart == (if a.FixedWindow? || a.SlidingWindow? then now else 0)
        && bindings[c].lastRefill == (if a.TokenBucket? then now else 0)
    {
      if policy !in policies {
        return false;
      }
      var b := Binding(policy, quota, 0, 0, 0, 0, 0, 0);
      match policies[policy].algorithm {
        case FixedWindow => b := b.(windowStart := now);
        case SlidingWindow => b := b.(windowStart := now);
        case TokenBucket => b := b.(lastRefill := now);
        case OtherAlgorithm =>
      }
      bindings := bindings[c := b];
      return true;
    }

    /** The fields applyAlgorithmTick leaves in a binding. */
    method TickFields(binding: Binding, p: Policy, limit: int, now: int) returns (b: Binding)
      requires p.algorithm.FixedWindow? ==> p.windowSec > 0
      ensures b == Tick(binding, p, limit, now, decay)
      ensures p.algorithm.OtherAlgorithm? ==> b == binding
    {
      hide Inflow;
      hide Truncate;
      b := binding;
      match p.algorithm {
        case FixedWindow =>
          var elapsed := now - b.windowStart;
          if elapsed >= p.windowSec * SECOND {
            var windowsPassed := (elapsed / SECOND) / p.windowSec;
            b := b.(windowStart := b.windowStart + windowsPassed * p.windowSec * SECOND, used := 0);
          }
        case TokenBucket =>
          var elapsed := now - b.lastRefill;
          if elapsed < MILLISECOND {
            return;
          }
          var refill := Inflow(p, elapsed);
          if refill < 0.1 {
            b := b.(lastRefill := now);
            return;
          }
          var tokens := (limit - b.used) as real + refill;
          if tokens > limit as real {
            tokens := limit as real;
          }
          var used := Truncate(limit as real - tokens);
          if used < 0 {
            used := 0;
          }
          b := b.(used := used, lastRefill := now);
        case SlidingWindow =>
          var elapsed := now - b.windowStart;
          var window := p.windowSec;
          if window <= 0 {
            window := 60;
          }
          if elapsed > 0 {
            var used := Truncate(Decayed(b.used, elapsed, window, decay));
            if used < 0 {
              used := 0;
            }
            b := b.(used := used, windowStart := now);
          }
        case OtherAlgorithm =>
      }
    }

    method ApplyAlgorithmTick(c: string, now: int)
      requires WellFormed(S()) && c in bindings
      modifies this`bindings
      ensures S() == Ticked(old(S()), c, now, decay)
    {
      hide Tick;
      var b := bindings[c];
      assert bindings[c := b] == bindings;
      if b.policy in policies {
        b := TickFields(b, policies[b.policy], EffectiveLimit(S(), b), now);
        bindings := bindings[c := b];
      }
    }

    method RequestTokens(c: string, tokens: int, waitable: bool, waitSec: int, now: int) returns (outcome: TokenOutcome)
      requires WellFormed(S())
      modifies this
      ensures (S(), outcome) == Request(old(S()), c, tokens, waitable, waitSec, now, decay)
    {
      if c !in bindings {
        return UnknownCaller;
      }
      if bindings[c].policy !in policies {
        return UnknownCaller;
      }
      ApplyAlgorithmTick(c, now);
      var b := bindings[c];
      var remaining := EffectiveLimit(S(), b) - b.used;
      if remaining < 0 {
        remaining := 0;
      }
      if remaining >= tokens {
        bindings := bindings[c := b.(used := b.used + tokens)];
        return Granted;
      }
      if waitable {
        var wait := waitSec;
        if wait <= 0 {
          wait := 30;
        }
        waitQueue := waitQueue + [Waiting(c, tokens, now + wait * SECOND)];
        return Enqueued;
      }
      return Refused;
    }

    method ReturnTokens(c: string, tokens: int, now: int) returns (ok: bool)
      requires WellFormed(S())
      modifies this
      ensures S() == Return(old(S()), c, tokens, now, decay) && ok == (c in old(bindings))
    {
      if c !in bindings {
        return false;
      }
      ApplyAlgorithmTick(c, now);
      var b := bindings[c];
      if tokens > b.used {
        b := b.(used := 0);
      } else {
        b := b.(used := b.used - tokens);
      }
      bindings := bindings[c := b];
      return true;
    }

    method ClampUsed(c: string)
      requires c in bindings
      modifies this`bindings
      ensures S() == Clamp(old(S()), c)
    {
      var b := bindings[c];
      var limit := EffectiveLimit(S(), b);
      if b.used > limit {
        bindings := bindings[c := b.(used := limit)];
      }
    }

    method BorrowQuota(from: string, to: string, amount: int, now: int) returns (ok: bool)
      requires WellFormed(S())
      modifies this
      ensures (S(), ok) == Borrow(old(S()), from, to, amount, now, decay)
    {
      if from !in bindings {
        return false;
      }
      if to !in bindings {
        return false;
      }
      ApplyAlgorithmTick(from, now);
      ApplyAlgorithmTick(to, now);
      var remaining := EffectiveLimit(S(), bindings[from]) - bindings[from].used;
      if remaining < 0 {
        remaining := 0;
      }
      assert remaining == Remaining(S(), bindings[from]);
      BorrowIs(old(S()), from, to, amount, now, decay);
      hide Borrow;
      hide Ticked;
      hide Remaining;
      if remaining < amount {
        return false;
      }
      bindings := bindings[from := bindings[from].(lent := bindings[from].lent + amount)];
      bindings := bindings[to := bindings[to].(borrowed := bindings[to].borrowed + amount)];
      ClampUsed(from);
      return true;
    }

    method ReturnQuota(from: string, to: string, amount: int) returns (ok: bool)
      modifies this
      ensures (S(), ok) == GiveBack(old(S()), from, to, amount)
      ensures ok <==> from in old(bindings) && to in old(bindings) &&
                      old(bindings)[from].borrowed >= amount && old(bindings)[to].lent >= amount
      ensures if ok then Booked(old(S()), S(), to, from, -amount, from) else S() == old(S())
    {
      GiveBackEffect(S(), from, to, amount, -amount);
      hide Booked;
      if from !in bindings {
        return false;
      }
      if to !in bindings {
        return false;
      }
      if bindings[from].borrowed < amount {
        return false;
      }
      if bindings[to].lent < amount {
        return false;
      }
      GiveBackIs(S(), from, to, amount, -amount);
      hide GiveBack;
      hide Clamp;
      ghost var v := Lend(TakeUp(S(), from, -amount), to, -amount);
      bindings := bindings[from := bindings[from].(borrowed := bindings[from].borrowed - amount)];
      bindings := bindings[to := bindings[to].(lent := bindings[to].lent - amount)];
      assert S() == v;
      hide *;
      if bindings[from].policy in policies {
        ClampUsed(from);
      }
      return true;
    }

    method AdjustQuota(c: string, quota: int, now: int) returns (ok: bool)
      requires WellFormed(S())
      modifies this
      ensures S() == Adjust(old(S()), c, quota, now, decay) && ok == (c in old(bindings))
    {
      if c !in bindings {
        return false;
      }
      ApplyAlgorithmTick(c, now);
      bindings := bindings[c := bindings[c].(quota := quota)];
      ClampUsed(c);
      return true;
    }

    // -------------------------------------------------------- reservations

    /** checkConflictLocked: the new interval's events, those of the policy's
        live reservations in whatever order the map yields them, then the sort
        and the sweep. */
    method CheckConflict(policy: string, startAt: int, endAt: int, tokens: int)
      returns (conflict: bool, ghost order: seq<int>)
      ensures Iteration(order, reservations.Keys)
      ensures policy !in policies ==> conflict
      ensures policy in policies ==> conflict == Conflicts(S(), policy, startAt, endAt, tokens, order)
    {
      order := [];
      var todo := reservations.Keys;
      var events := [Event(startAt, tokens), Event(endAt, -tokens)];
      ghost var mine := [Interval(startAt, endAt, tokens)];
      assert mine[1..] == [];
      assert EventsOf(mine) == events;
      assert mine + Contenders(S(), policy, order) == mine;
      while todo != {}
        invariant todo <= reservations.Keys
        invariant Iteration(order, reservations.Keys - todo)
        invariant events == EventsOf(mine + Contenders(S(), policy, order))
      {
        var id := Pick(todo);
        WalkOn(order, todo, reservations.Keys, id);
        ContendersConcat(S(), policy, order, [id]);
        ContendersGrow(S(), policy, id, []);
        assert [id] + [] == [id];
        var r := reservations[id];
        if r.policy == policy && Live(r) {
          ghost var iv := [Interval(r.startAt, r.endAt, r.tokens)];
          assert iv[1..] == [] && EventsOf(iv) == [Event(r.startAt, r.tokens), Event(r.endAt, -r.tokens)];
          assert mine + Contenders(S(), policy, order + [id]) == (mine + Contenders(S(), policy, order)) + iv;
          EventsConcat(mine + Contenders(S(), policy, order), iv);
          events := events + [Event(r.startAt, r.tokens), Event(r.endAt, -r.tokens)];
        } else {
          assert Contenders(S(), policy, order + [id]) == Contenders(S(), policy, order);
        }
        order := order + [id];
        todo := todo - {id};
      }
      assert reservations.Keys - todo == reservations.Keys;
      if policy !in policies {
        return true, order;
      }
      conflict := SweepEvents(events, policies[policy].maxTokens);
    }

    method CreateReservation(k: Booking, now: int) returns (outcome: ReserveOutcome, ghost order: seq<int>)
      modifies this
      ensures Iteration(order, old(reservations).Keys)
      ensures outcome == ReserveOutcomeOf(old(S()), k, now, order)
      ensures S() == Reserve(old(S()), k, now, order)
    {
      order := SomeWalk(reservations.Keys);
      if k.endAt <= k.startAt {
        return BadInterval, order;
      }
      if k.endAt < now {
        return InThePast, order;
      }
      if k.tokens <= 0 {
        return BadTokens, order;
      }
      if k.policy !in policies {
        return NoPolicy, order;
      }
      if k.tokens > policies[k.policy].maxTokens {
        return TooMany, order;
      }
      if k.caller !in bindings {
        return NoCaller, order;
      }
      var conflict;
      conflict, order := CheckConflict(k.policy, k.startAt, k.endAt, k.tokens);
      if conflict {
        return Conflict, order;
      }
      var status := Pending;
      if k.startAt <= now {
        status := Active;
      }
      var id := nextId;
      nextId := nextId + 1;
      reservations := reservations[id := Reservation(k.policy, k.caller, k.tokens, k.startAt, k.endAt, status)];
      if status == Active {
        bindings := bindings[k.caller := bindings[k.caller].(reserved := bindings[k.caller].reserved + k.tokens)];
      }
      return Reserved(id), order;
    }

    method ActivateReservation(id: int)
      requires id in reservations
      modifies this
      ensures S() == Activate(old(S()), id)
    {
      var r := reservations[id];
      if r.caller !in bindings {
        reservations := reservations[id := r.(status := Cancelled)];
        return;
      }
      bindings := bindings[r.caller := bindings[r.caller].(reserved := bindings[r.caller].reserved + r.tokens)];
      reservations := reservations[id := r.(status := Active)];
    }

    /** completeReservationLocked and the active branch of CancelReservation. */
    method FinishReservation(id: int, status: Status)
      requires id in reservations
      modifies this
      ensures S() == Finish(old(S()), id, status)
    {
      var r := reservations[id];
      if r.caller in bindings {
        var b := bindings[r.caller];
        if b.reserved >= r.tokens {
          b := b.(reserved := b.reserved - r.tokens);
        } else {
          b := b.(reserved := 0);
        }
        bindings := bindings[r.caller := b];
        ClampUsed(r.caller);
      }
      reservations := reservations[id := r.(status := status)];
    }

    method ProcessReservationTick(now: int)
      modifies this
      ensures Advanced(old(S()), S(), now)
    {
      ghost var order: seq<int> := [];
      var todo := reservations.Keys;
      while todo != {}
        invariant todo <= old(reservations).Keys
        invariant Iteration(order, old(reservations).Keys - todo)
        invariant S() == AdvanceAll(old(S()), order, now)
      {
        var id := Pick(todo);
        WalkOn(order, todo, old(reservations).Keys, id);
        AdvanceAllShape(old(S()), order, now);
        if reservations[id].status == Pending && reservations[id].startAt <= now {
          ActivateReservation(id);
        }
        if reservations[id].status == Active && reservations[id].endAt <= now {
          FinishReservation(id, Completed);
        }
        assert (order + [id])[..|order|] == order;
        order := order + [id];
        todo := todo - {id};
      }
      assert old(reservations).Keys - todo == old(reservations).Keys;
    }

    method CancelReservation(id: int) returns (ok: bool)
      modifies this
      ensures S() == Cancel(old(S()), id)
      ensures ok <==> id in old(reservations) && Live(old(reservations)[id])
    {
      if id !in reservations {
        return false;
      }
      var r := reservations[id];
      if r.status == Completed || r.status == Cancelled {
        return false;
      }
      if r.status == Active {
        FinishReservation(id, Cancelled);
      } else {
        reservations := reservations[id := r.(status := Cancelled)];
      }
      return true;
    }

    // ---------------------------------------------------------- background

    method CleanupExpiredWaitItems(now: int)
      modifies this`waitQueue
      ensures waitQueue == DropExpired(old(waitQueue), now)
    {
      var alive := [];
      var i := 0;
      while i < |waitQueue|
        invariant 0 <= i <= |waitQueue|
        invariant alive == DropExpired(waitQueue[..i], now)
      {
        var item := waitQueue[i];
        assert waitQueue[..i + 1][..i] == waitQueue[..i];
        if item.timeoutAt > now {
          alive := alive + [item];
        }
        i := i + 1;
      }
      assert waitQueue[..|waitQueue|] == waitQueue;
      waitQueue := alive;
    }

    method TryGrantFromQueue(now: int)
      requires WellFormed(S())
      modifies this
      ensures var (t, left) := GrantQueued(old(S()), old(waitQueue), now, decay);
        S() == t.(waitQueue := left)
    {
      hide Tick;
      hide TickedBinding;
      hide EffectiveLimit;
      var left := [];
      var q := waitQueue;
      var i := 0;
      while i < |q|
        invariant 0 <= i <= |q|
        invariant policies == old(policies)
        invariant GrantQueued(old(S()), q[..i], now, decay) == (S(), left)
      {
        var item := q[i];
        assert q[..i + 1][..i] == q[..i];
        i := i + 1;
        if item.timeoutAt <= now {
          continue;
        }
        if item.caller !in bindings {
          continue;
        }
        if bindings[item.caller].policy !in policies {
          continue;
        }
        ApplyAlgorithmTick(item.caller, now);
        var b := bindings[item.caller];
        var remaining := EffectiveLimit(S(), b) - b.used;
        if remaining < 0 {
          remaining := 0;
        }
        if remaining >= item.tokens {
          bindings := bindings[item.caller := b.(used := b.used + item.tokens)];
        } else {
          left := left + [item];
        }
      }
      assert q[..|q|] == q;
      waitQueue := left;
    }

    /** The tick of every binding, in arbitrary order. */
    method TickBindings(now: int)
      requires WellFormed(S())
      modifies this`bindings
      ensures S() == TickAll(old(S()), now, decay)
    {
      var todo := bindings.Keys;
      while todo != {}
        invariant todo <= old(bindings).Keys == bindings.Keys
        invariant forall c :: c in bindings ==>
          bindings[c] == if c in todo then old(bindings)[c] else TickedBinding(old(S()), old(bindings)[c], now, decay)
      {
        var c := Pick(todo);
        ApplyAlgorithmTick(c, now);
        todo := todo - {c};
      }
      assert S().bindings == TickAll(old(S()), now, decay).bindings;
    }

    /** One pass of the background loop. */
    method Refill(now: int)
      requires WellFormed(S())
      modifies this
      ensures exists order :: Iteration(order, old(reservations).Keys) && S() == RefillTick(old(S()), order, now, decay)
    {
      CleanupExpiredWaitItems(now);
      ghost var s1 := S();
      ProcessReservationTick(now);
      ghost var order :| Iteration(order, s1.reservations.Keys) && S() == AdvanceAll(s1, order, now);
      AdvanceAllShape(s1, order, now);
      TickBindings(now);
      TryGrantFromQueue(now);
      assert S() == RefillTick(old(S()), order, now, decay);
    }

    /** GetCallerStatus: the answer, and the ticks it performs on the way. */
    method GetCallerStatus(c: string, now: int) returns (known: bool, remaining: int)
      requires WellFormed(S())
      modifies this
      ensures known == Known(old(S()), c)
      ensures !known ==> S() == old(S())
      ensures known ==> exists order ::
        Iteration(order, old(reservations).Keys) && S() == Ticked(AdvanceAll(old(S()), order, now), c, now, decay)
      ensures known ==> c in bindings && remaining == Remaining(S(), bindings[c])
      ensures known && bindings[c].policy in policies ==>
        var b := bindings[c]; var limit := Limit(S(), b);
        remaining == if limit > b.used then limit - b.used else 0
    {
      if c !in bindings {
        return false, 0;
      }
      if bindings[c].policy !in policies {
        return false, 0;
      }
      ProcessReservationTick(now);
      ghost var order :| Iteration(order, old(reservations).Keys) && S() == AdvanceAll(old(S()), order, now);
      AdvanceAllShape(old(S()), order, now);
      ApplyAlgorithmTick(c, now);
      known := true;
      LimitIs(S(), bindings[c]);
      hide AdvanceAll;
      hide TickedBinding;
      hide EffectiveLimit;
      remaining := EffectiveLimit(S(), bindings[c]) - bindings[c].used;
      if remaining < 0 {
        remaining := 0;
      }
    }
  }
}
