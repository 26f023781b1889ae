/** Reservations: admission never over-reserves a policy, activation and
    completion keep the ledgers, and whole runs keep every invariant. */
module RateReservations {
  import opened Basics
  import opened Totals
  import opened Sweep
  import opened RateState
  import opened MapWalks
  import opened RateInvariant

  // --------------------------------------------------------------- admission

  /** The listed entries only. */
  ghost function Listed(m: map<int, int>, order: seq<int>): map<int, int>
  {
    map id | id in m && id in order :: m[id]
  }

  lemma ListedHead(m: map<int, int>, order: seq<int>)
    requires order != [] && NoRepeats(order)
    ensures Total(Listed(m, order)) ==
      (if order[0] in m then m[order[0]] else 0) + Total(Listed(m, order[1..]))
  {
    hide Total;
    var id, rest := order[0], order[1..];
    assert id !in rest && order == [id] + rest;
    if id in m {
      assert Listed(m, order) == Listed(m, rest)[id := m[id]];
      TotalUpdate(Listed(m, rest), id, m[id]);
    } else {
      assert Listed(m, order) == Listed(m, rest);
    }
  }

  lemma {:induction false} ContendersLoad(s: State, p: string, t: int, order: seq<int>)
    requires NoRepeats(order)
    ensures Load(Contenders(s, p, order), t) == Total(Listed(LoadMap(s, p, t), order))
  {
    if order == [] {
      assert Listed(LoadMap(s, p, t), order) == map[];
    } else {
      ContendersLoad(s, p, t, order[1..]);
      ListedHead(LoadMap(s, p, t), order);
      hide Total;
      hide Listed;
    }
  }

  /** The live reservations of policy p that cover t or end there. */
  ghost function ClosedMap(s: State, p: string, t: int): map<int, int>
  {
    map id | id in s.reservations && s.reservations[id].policy == p && Live(s.reservations[id]) &&
             s.reservations[id].startAt <= t <= s.reservations[id].endAt ::
      s.reservations[id].tokens
  }

  lemma {:induction false} ContendersClosedLoad(s: State, p: string, t: int, order: seq<int>)
    requires NoRepeats(order)
    ensures ClosedLoad(Contenders(s, p, order), t) == Total(Listed(ClosedMap(s, p, t), order))
  {
    if order == [] {
      assert Listed(ClosedMap(s, p, t), order) == map[];
    } else {
      ContendersClosedLoad(s, p, t, order[1..]);
      ListedHead(ClosedMap(s, p, t), order);
      hide Total;
      hide Listed;
    }
  }

  lemma {:induction false} ContendersProper(s: State, p: string, order: seq<int>, clock: int)
    requires Ok(s, clock)
    ensures Proper(Contenders(s, p, order))
  {
    if order != [] {
      ContendersProper(s, p, order[1..], clock);
      assert order[0] in s.reservations ==> ReservationOk(s, order[0], clock);
    }
  }

  /** No conflict reported means the new reservation fits at every instant, in
      whatever order the map was walked. */
  lemma AdmissionSound(s: State, k: Booking, order: seq<int>, clock: int)
    requires Ok(s, clock) && k.policy in s.policies && Iteration(order, s.reservations.Keys)
    requires k.tokens > 0 && k.startAt < k.endAt
    requires !Conflicts(s, k.policy, k.startAt, k.endAt, k.tokens, order)
    ensures forall t :: Total(LoadMap(s, k.policy, t)) + (if k.startAt <= t < k.endAt then k.tokens else 0)
                        <= s.policies[k.policy].maxTokens
  {
    hide Total;
    hide ExchangeSort;
    hide Exceeds;
    var others := Contenders(s, k.policy, order);
    var ivs := [Interval(k.startAt, k.endAt, k.tokens)] + others;
    ContendersProper(s, k.policy, order, clock);
    assert Proper(ivs);
    SweepSound(ivs, EventsOf(ivs), s.policies[k.policy].maxTokens);
    forall t
      ensures Total(LoadMap(s, k.policy, t)) + (if k.startAt <= t < k.endAt then k.tokens else 0)
              <= s.policies[k.policy].maxTokens
    {
      ContendersLoad(s, k.policy, t, order);
      assert Listed(LoadMap(s, k.policy, t), order) == LoadMap(s, k.policy, t);
      assert ivs[1..] == others;
      assert Load(ivs, t) <= s.policies[k.policy].maxTokens;
    }
  }

  /** A refusal exhibits an instant at which the reservations that start at or
      before it and end at or after it, with the new one, are over the limit. */
  lemma RefusalWitness(s: State, k: Booking, order: seq<int>, clock: int) returns (t: int)
    requires Ok(s, clock) && k.policy in s.policies && k.tokens > 0 && k.startAt < k.endAt
    requires Conflicts(s, k.policy, k.startAt, k.endAt, k.tokens, order)
    ensures ClosedLoad([Interval(k.startAt, k.endAt, k.tokens)] + Contenders(s, k.policy, order), t)
            > s.policies[k.policy].maxTokens
  {
    var ivs := [Interval(k.startAt, k.endAt, k.tokens)] + Contenders(s, k.policy, order);
    ContendersProper(s, k.policy, order, clock);
    SweepSound(ivs, EventsOf(ivs), s.policies[k.policy].maxTokens);
    t :| ClosedLoad(ivs, t) > s.policies[k.policy].maxTokens;
  }

  /** With the new booking some instant is over the policy's limit. */
  ghost predicate Overfull(s: State, k: Booking)
    requires k.policy in s.policies
  {
    exists t :: Total(LoadMap(s, k.policy, t)) + (if k.startAt <= t < k.endAt then k.tokens else 0)
                > s.policies[k.policy].maxTokens
  }

  /** Or would be, if reservations that end there counted as well. */
  ghost predicate OverfullWithEnds(s: State, k: Booking)
    requires k.policy in s.policies
  {
    exists t :: Total(ClosedMap(s, k.policy, t)) + (if k.startAt <= t <= k.endAt then k.tokens else 0)
                > s.policies[k.policy].maxTokens
  }

  /** The loads that the sweep speaks about are those of the tables. */
  lemma SweptLoads(s: State, k: Booking, order: seq<int>, t: int)
    requires Iteration(order, s.reservations.Keys)
    ensures var ivs := [Interval(k.startAt, k.endAt, k.tokens)] + Contenders(s, k.policy, order);
      && Load(ivs, t) == Total(LoadMap(s, k.policy, t)) + (if k.startAt <= t < k.endAt then k.tokens else 0)
      && ClosedLoad(ivs, t) == Total(ClosedMap(s, k.policy, t)) + (if k.startAt <= t <= k.endAt then k.tokens else 0)
  {
    var others := Contenders(s, k.policy, order);
    var ivs := [Interval(k.startAt, k.endAt, k.tokens)] + others;
    assert ivs[1..] == others;
    ContendersLoad(s, k.policy, t, order);
    ContendersClosedLoad(s, k.policy, t, order);
    forall id | id in s.reservations
      ensures id in order
    {
      assert id in (set i | i in order);
    }
    assert Listed(LoadMap(s, k.policy, t), order) == LoadMap(s, k.policy, t);
    assert Listed(ClosedMap(s, k.policy, t), order) == ClosedMap(s, k.policy, t);
    hide Total;
    hide Contenders;
  }

  /** Unless end points alone overload some instant, the conflict check refuses a
      booking exactly when it does not fit, in whatever order the map is walked. */
  lemma ConflictExact(s: State, k: Booking, order: seq<int>, clock: int)
    requires Ok(s, clock) && k.policy in s.policies && Iteration(order, s.reservations.Keys)
    requires k.tokens > 0 && k.startAt < k.endAt
    requires OverfullWithEnds(s, k) ==> Overfull(s, k)
    ensures Conflicts(s, k.policy, k.startAt, k.endAt, k.tokens, order) <==> Overfull(s, k)
  {
    var ivs := [Interval(k.startAt, k.endAt, k.tokens)] + Contenders(s, k.policy, order);
    var max := s.policies[k.policy].maxTokens;
    ContendersProper(s, k.policy, order, clock);
    hide Total;
    hide Contenders;
    hide Ok;
    forall t
      ensures Load(ivs, t) == Total(LoadMap(s, k.policy, t)) + (if k.startAt <= t < k.endAt then k.tokens else 0)
      ensures ClosedLoad(ivs, t) ==
              Total(ClosedMap(s, k.policy, t)) + (if k.startAt <= t <= k.endAt then k.tokens else 0)
    {
      SweptLoads(s, k, order, t);
    }
    assert Overloaded(ivs, max) <==> Overfull(s, k);
    assert OverloadedWithEnds(ivs, max) <==> OverfullWithEnds(s, k);
    hide Load;
    hide ClosedLoad;
    hide Exceeds;
    SweepExactIff(ivs, max);
  }

  // ------------------------------------------------------- one status change

  /** One reservation differs; its old and new weight in each sum. */
  lemma ActiveMapChange(s: State, t: State, id: int, c: string)
    requires id in t.reservations && t.reservations == s.reservations[id := t.reservations[id]]
    requires id in s.reservations ==>
      t.reservations[id] == s.reservations[id].(status := t.reservations[id].status)
    ensures Total(ActiveMap(t, c)) == Total(ActiveMap(s, c)) + Share(t, id, c) - Share(s, id, c)
  {
    hide Total;
    var r := t.reservations[id];
    if r.caller == c && r.status.Active? {
      assert ActiveMap(t, c) == ActiveMap(s, c)[id := r.tokens];
      TotalUpdate(ActiveMap(s, c), id, r.tokens);
    } else if id in ActiveMap(s, c) {
      TotalRemove(ActiveMap(s, c), id);
      assert ActiveMap(t, c) == ActiveMap(s, c) - {id};
    } else {
      assert ActiveMap(t, c) == ActiveMap(s, c);
    }
  }

  /** Ending or keeping a live reservation never adds load. */
  lemma LoadFalls(s: State, t: State, id: int, p: string, i: int)
    requires id in s.reservations && id in t.reservations
    requires t.reservations == s.reservations[id := t.reservations[id]]
    requires t.reservations[id] == s.reservations[id].(status := t.reservations[id].status)
    requires Live(t.reservations[id]) ==> Live(s.reservations[id])
    requires forall k :: k in s.reservations ==> s.reservations[k].tokens > 0
    ensures Total(LoadMap(t, p, i)) <= Total(LoadMap(s, p, i))
  {
    hide Total;
    TotalMonotone(LoadMap(t, p, i), LoadMap(s, p, i));
  }

  /** The caller's reserved tokens and the status of one of its reservations
      change together. */
  ghost predicate Moves(s: State, t: State, id: int)
  {
    && id in s.reservations
    && t == s.(bindings := t.bindings, reservations := t.reservations)
    && id in t.reservations && t.reservations == s.reservations[id := t.reservations[id]]
    && t.reservations[id] == s.reservations[id].(status := t.reservations[id].status)
    && t.bindings.Keys == s.bindings.Keys
    && (Live(t.reservations[id]) ==> Live(s.reservations[id]))
    && forall c :: c in s.bindings ==>
      t.bindings[c].borrowed == s.bindings[c].borrowed && t.bindings[c].lent == s.bindings[c].lent
  }

  /** What reservation id adds to the reserved tokens of caller c. */
  ghost function Share(s: State, id: int, c: string): int
  {
    if id in s.reservations && s.reservations[id].caller == c && s.reservations[id].status.Active?
    then s.reservations[id].tokens else 0
  }

  lemma MoveOk(s: State, t: State, id: int, clock: int, now: int)
    requires Ok(s, clock) && clock <= now && Moves(s, t, id) && BindingsOk(t)
    requires t.reservations[id].status.Active? ==> s.reservations[id].startAt <= now
    requires forall c :: c in s.bindings ==>
      t.bindings[c].reserved == s.bindings[c].reserved + Share(t, id, c) - Share(s, id, c)
    ensures Ok(t, now)
  {
    hide Total;
    assert BorrowedMap(t) == BorrowedMap(s) && LentMap(t) == LentMap(s);
    forall c | c in t.bindings
      ensures t.bindings[c].reserved == Total(ActiveMap(t, c))
    {
      ActiveMapChange(s, t, id, c);
    }
    forall k | k in t.reservations
      ensures ReservationOk(t, k, now)
    {
      assert ReservationOk(s, k, clock);
      assert ReservationOk(s, id, clock);
    }
    forall k | k in s.reservations
      ensures s.reservations[k].tokens > 0
    {
      assert ReservationOk(s, k, clock);
    }
    forall p, i | p in t.policies
      ensures Total(LoadMap(t, p, i)) <= t.policies[p].maxTokens
    {
      LoadFalls(s, t, id, p, i);
      assert Total(LoadMap(s, p, i)) <= s.policies[p].maxTokens;
    }
  }

  /** The clamp to zero of completeReservationLocked and CancelReservation is
      never taken: the caller's reserved tokens include this reservation's. */
  lemma ReservedCovers(s: State, id: int, clock: int)
    requires Ok(s, clock) && id in s.reservations && s.reservations[id].status.Active?
    ensures s.reservations[id].caller in s.bindings
    ensures s.bindings[s.reservations[id].caller].reserved >= s.reservations[id].tokens
  {
    assert ReservationOk(s, id, clock);
    var m := ActiveMap(s, s.reservations[id].caller);
    TotalRemove(m, id);
    forall k | k in m - {id}
      ensures (m - {id})[k] >= 0
    {
      assert ReservationOk(s, k, clock);
    }
    TotalMonotone(map[], m - {id});
  }

  lemma ActivateOk(s: State, id: int, clock: int, now: int)
    requires Ok(s, clock) && clock <= now && id in s.reservations
    requires s.reservations[id].status.Pending? && s.reservations[id].startAt <= now
    ensures Ok(Activate(s, id), now) && Moves(s, Activate(s, id), id)
  {
    hide Total;
    assert ReservationOk(s, id, clock);
    var t := Activate(s, id);
    forall c | c in t.bindings
      ensures BindingOk(t, t.bindings[c])
    {
      assert BindingOk(s, s.bindings[c]);
    }
    MoveOk(s, t, id, clock, now);
  }

  lemma FinishBindings(s: State, c: string, tokens: int)
    requires BindingsOk(s) && c in s.bindings && s.bindings[c].reserved >= tokens
    ensures var t := DropReserved(s, c, tokens);
      && BindingsOk(t) && t == s.(bindings := t.bindings) && t.bindings.Keys == s.bindings.Keys
      && (forall k :: k in s.bindings && k != c ==> t.bindings[k] == s.bindings[k])
      && t.bindings[c] == s.bindings[c].(reserved := s.bindings[c].reserved - tokens, used := t.bindings[c].used)
  {
  }

  lemma FinishOk(s: State, id: int, status: Status, clock: int, now: int)
    requires Ok(s, clock) && clock <= now && id in s.reservations && s.reservations[id].status.Active?
    requires status.Completed? || status.Cancelled?
    ensures Ok(Finish(s, id, status), now) && Moves(s, Finish(s, id, status), id)
  {
    hide Total;
    var r := s.reservations[id];
    ReservedCovers(s, id, clock);
    FinishBindings(s, r.caller, r.tokens);
    var t := Finish(s, id, status);
    assert BindingsOk(t) by {
      forall c | c in t.bindings
        ensures BindingOk(t, t.bindings[c])
      {
        assert BindingOk(DropReserved(s, r.caller, r.tokens), t.bindings[c]);
      }
    }
    MoveOk(s, t, id, clock, now);
  }

  lemma CancelOk(s: State, id: int, clock: int, now: int)
    requires Ok(s, clock) && clock <= now
    ensures Ok(Cancel(s, id), now)
  {
    LaterOk(s, clock, now);
    if id in s.reservations {
      if s.reservations[id].status.Active? {
        FinishOk(s, id, Cancelled, clock, now);
      } else if s.reservations[id].status.Pending? {
        var t := SetStatus(s, id, Cancelled);
        assert forall c :: c in t.bindings ==> BindingOk(s, s.bindings[c]) && BindingOk(t, t.bindings[c]);
        MoveOk(s, t, id, clock, now);
      }
    }
  }

  lemma LaterOk(s: State, clock: int, now: int)
    requires Ok(s, clock) && clock <= now
    ensures Ok(s, now)
  {
  }

  // ------------------------------------------------------------------- ticks

  /** After its turn in the tick a reservation is active only while it covers now. */
  ghost predicate Current(s: State, id: int, now: int)
  {
    id in s.reservations && s.reservations[id].status.Active? ==>
      s.reservations[id].startAt <= now < s.reservations[id].endAt
  }

  lemma AdvanceOk(s: State, id: int, clock: int, now: int)
    requires Ok(s, clock) && clock <= now
    ensures var t := Advance(s, id, now);
      && Ok(t, now) && Current(t, id, now) && t.policies == s.policies && t.waitQueue == s.waitQueue
      && t.reservations.Keys == s.reservations.Keys
      && forall k :: k != id && k in s.reservations ==> t.reservations[k] == s.reservations[k]
  {
    hide Total;
    LaterOk(s, clock, now);
    if id in s.reservations {
      var r := s.reservations[id];
      assert ReservationOk(s, id, clock);
      if r.status.Pending? && r.startAt <= now {
        ActivateOk(s, id, clock, now);
        var t := Activate(s, id);
        assert t.reservations[id].status.Active?;
        if r.endAt <= now {
          FinishOk(t, id, Completed, now, now);
        }
      } else if r.status.Active? && r.endAt <= now {
        FinishOk(s, id, Completed, clock, now);
      }
    }
  }

  lemma {:induction false} AdvanceAllOk(s: State, order: seq<int>, clock: int, now: int)
    requires Ok(s, clock) && clock <= now
    ensures var t := AdvanceAll(s, order, now);
      && Ok(t, now) && t.reservations.Keys == s.reservations.Keys && t.waitQueue == s.waitQueue
      && forall id :: id in order ==> Current(t, id, now)
  {
    hide Total;
    hide Ok;
    if order == [] {
      LaterOk(s, clock, now);
    } else {
      var front, last := order[..|order| - 1], order[|order| - 1];
      AdvanceAllOk(s, front, clock, now);
      var t := AdvanceAll(s, front, now);
      AdvanceOk(t, last, now, now);
      assert order == front + [last];
      forall id | id in order
        ensures Current(Advance(t, last, now), id, now)
      {
        if id != last {
          assert Current(t, id, now);
        }
      }
    }
  }

  /** The active reservations of a policy alone fit its limit whenever none of them
      has run out. */
  lemma ActiveFits(s: State, p: string, clock: int)
    requires Ok(s, clock) && p in s.policies
    requires forall id :: id in ActiveOfPolicy(s, p) ==> clock < s.reservations[id].endAt
    ensures Total(ActiveOfPolicy(s, p)) <= s.policies[p].maxTokens
  {
    hide Total;
    forall id | id in ActiveOfPolicy(s, p)
      ensures id in LoadMap(s, p, clock)
    {
      assert ReservationOk(s, id, clock);
    }
    forall id | id in LoadMap(s, p, clock)
      ensures LoadMap(s, p, clock)[id] >= 0
    {
      assert ReservationOk(s, id, clock);
    }
    TotalMonotone(ActiveOfPolicy(s, p), LoadMap(s, p, clock));
    assert Total(LoadMap(s, p, clock)) <= s.policies[p].maxTokens;
  }

  /** That is so after every reservation tick, in whatever order the map was walked. */
  lemma ActiveFitsAfterTick(s: State, order: seq<int>, clock: int, now: int, p: string)
    requires Ok(s, clock) && clock <= now && Iteration(order, s.reservations.Keys)
    requires p in s.policies
    ensures var t := AdvanceAll(s, order, now);
      Total(ActiveOfPolicy(t, p)) <= t.policies[p].maxTokens
  {
    AdvanceAllOk(s, order, clock, now);
    var t := AdvanceAll(s, order, now);
    hide Ok;
    hide Total;
    forall id | id in ActiveOfPolicy(t, p)
      ensures now < t.reservations[id].endAt
    {
      assert id in order;
      assert Current(t, id, now);
    }
    ActiveFits(t, p, now);
  }

  lemma ReserveOk(s: State, k: Booking, now: int, order: seq<int>, clock: int)
    requires Ok(s, clock) && clock <= now && Iteration(order, s.reservations.Keys)
    ensures Ok(Reserve(s, k, now, order), now)
  {
    hide Total;
    hide Conflicts;
    LaterOk(s, clock, now);
    if ReserveOutcomeOf(s, k, now, order).Reserved? {
      var t := Reserve(s, k, now, order);
      var id := s.nextId;
      forall n | n in s.reservations
        ensures ReservationOk(s, n, now) && n != id
      {
      }
      AdmissionSound(s, k, order, clock);
      BookingOk(s, t, k, id, now);
    }
  }

  /** t is s with the booking k recorded under the fresh id. */
  ghost predicate Booked(s: State, t: State, k: Booking, id: int, now: int)
  {
    && id == s.nextId && id !in s.reservations && k.policy in s.policies && k.caller in s.bindings
    && k.tokens > 0 && k.startAt < k.endAt
    && var status := if k.startAt <= now then Active else Pending;
       t == s.(reservations := s.reservations[id := Reservation(k.policy, k.caller, k.tokens, k.startAt, k.endAt,
           status)],
               nextId := id + 1,
               bindings := if status.Active? then AddReserved(s, k.caller, k.tokens).bindings else s.bindings)
  }

  lemma BookedBindings(s: State, t: State, k: Booking, id: int, now: int)
    requires BindingsOk(s) && Booked(s, t, k, id, now)
    ensures BindingsOk(t) && t.bindings.Keys == s.bindings.Keys
    ensures BorrowedMap(t) == BorrowedMap(s) && LentMap(t) == LentMap(s)
    ensures forall c :: c in s.bindings ==> t.bindings[c].reserved == s.bindings[c].reserved + Share(t, id, c)
  {
    forall c | c in t.bindings
      ensures BindingOk(t, t.bindings[c])
    {
      assert BindingOk(s, s.bindings[c]);
    }
  }

  lemma BookedLoad(s: State, t: State, k: Booking, id: int, now: int, p: string, i: int)
    requires Booked(s, t, k, id, now)
    ensures Total(LoadMap(t, p, i)) ==
      Total(LoadMap(s, p, i)) + if p == k.policy && k.startAt <= i < k.endAt then k.tokens else 0
  {
    hide Total;
    if p == k.policy && k.startAt <= i < k.endAt {
      assert LoadMap(t, p, i) == LoadMap(s, p, i)[id := k.tokens];
      TotalUpdate(LoadMap(s, p, i), id, k.tokens);
    } else {
      assert LoadMap(t, p, i) == LoadMap(s, p, i);
    }
  }

  lemma BookingOk(s: State, t: State, k: Booking, id: int, now: int)
    requires Ok(s, now) && Booked(s, t, k, id, now)
    requires forall i :: Total(LoadMap(s, k.policy, i)) + (if k.startAt <= i < k.endAt then k.tokens else 0)
                         <= s.policies[k.policy].maxTokens
    ensures Ok(t, now)
  {
    hide Total;
    BookedBindings(s, t, k, id, now);
    forall c | c in t.bindings
      ensures t.bindings[c].reserved == Total(ActiveMap(t, c))
    {
      ActiveMapChange(s, t, id, c);
    }
    forall n | n in t.reservations
      ensures ReservationOk(t, n, now)
    {
      assert n != id ==> ReservationOk(s, n, now);
    }
    forall p, i | p in t.policies
      ensures Total(LoadMap(t, p, i)) <= t.policies[p].maxTokens
    {
      BookedLoad(s, t, k, id, now, p, i);
      assert Total(LoadMap(s, p, i)) <= s.policies[p].maxTokens;
      assert Total(LoadMap(s, k.policy, i)) + (if k.startAt <= i < k.endAt then k.tokens else 0)
             <= s.policies[k.policy].maxTokens;
    }
  }

  lemma TickAllOk(s: State, now: int, decay: Decay, clock: int)
    requires Ok(s, clock)
    ensures Ok(TickAll(s, now, decay), clock)
  {
    hide Total;
    var t := TickAll(s, now, decay);
    forall c | c in t.bindings
      ensures BindingOk(t, t.bindings[c])
      ensures t.bindings[c] == s.bindings[c].(used := t.bindings[c].used, windowStart := t.bindings[c].windowStart,
                                              lastRefill := t.bindings[c].lastRefill)
    {
      var b := s.bindings[c];
      assert BindingOk(s, b);
      TickLowers(b, s.policies[b.policy], EffectiveLimit(s, b), now, decay);
    }
    SameLedgerOk(s, t, clock);
  }

  lemma {:induction false} DropExpiredSubset(q: seq<Waiting>, now: int)
    ensures forall w :: w in DropExpired(q, now) ==> w in q
  {
    if q != [] {
      DropExpiredSubset(q[..|q| - 1], now);
      assert q == q[..|q| - 1] + [q[|q| - 1]];
    }
  }

  lemma {:induction false} GrantQueuedOk(s: State, q: seq<Waiting>, now: int, decay: Decay, clock: int)
    requires Ok(s, clock) && forall w :: w in q ==> w.tokens >= 0
    ensures Ok(GrantQueued(s, q, now, decay).0, clock)
    ensures forall w :: w in GrantQueued(s, q, now, decay).1 ==> w in q
  {
    hide Total;
    if q != [] {
      var front, item := q[..|q| - 1], q[|q| - 1];
      assert q == front + [item] && item in q && forall w :: w in front ==> w in q;
      GrantQueuedOk(s, front, now, decay, clock);
      var (t, left) := GrantQueued(s, front, now, decay);
      if item.timeoutAt > now && Known(t, item.caller) {
        TickedOk(t, item.caller, now, decay, clock);
        var u := Ticked(t, item.caller, now, decay);
        if Remaining(u, u.bindings[item.caller]) >= item.tokens {
          ChargeOk(u, item.caller, item.tokens, clock);
        }
      }
    }
  }

  lemma QueueOk(s: State, q: seq<Waiting>, clock: int)
    requires Ok(s, clock) && forall w :: w in q ==> w.tokens >= 0
    ensures Ok(s.(waitQueue := q), clock)
  {
    hide Total;
    SameLedgerOk(s, s.(waitQueue := q), clock);
  }

  lemma RefillTickOk(s: State, order: seq<int>, now: int, decay: Decay, clock: int)
    requires Ok(s, clock) && clock <= now
    ensures Ok(RefillTick(s, order, now, decay), now)
  {
    hide Total;
    DropExpiredSubset(s.waitQueue, now);
    var s1 := s.(waitQueue := DropExpired(s.waitQueue, now));
    QueueOk(s, s1.waitQueue, clock);
    AdvanceAllOk(s1, order, clock, now);
    var s2 := AdvanceAll(s1, order, now);
    TickAllOk(s2, now, decay, now);
    var s3 := TickAll(s2, now, decay);
    GrantQueuedOk(s3, s3.waitQueue, now, decay, now);
    var (s4, left) := GrantQueued(s3, s3.waitQueue, now, decay);
    QueueOk(s4, left, now);
  }

  // -------------------------------------------------------------------- runs

  datatype Op =
    | DoPolicy(name: string, p: Policy)
    | DoBind(c: string, policy: string, quota: int)
    | DoRequest(c: string, tokens: int, waitable: bool, waitSec: int)
    | DoReturn(c: string, tokens: int)
    | DoBorrow(from: string, to: string, amount: int)
    | DoGiveBack(from: string, to: string, amount: int)
    | DoAdjust(c: string, quota: int)
    | DoReserve(k: Booking, order: seq<int>)
    | DoCancel(id: int)
    | DoReservationTick(order: seq<int>)
    | DoRefillTick(order: seq<int>)
    | DoStatus(c: string, order: seq<int>)

  /** What the callers owe: non-negative amounts and limits (the API's binding
      rules), window lengths that do not divide by zero, map walks that visit
      every reservation once, and BindCaller for new callers only. */
  ghost predicate Legal(s: State, op: Op)
  {
    match op
    case DoPolicy(_, p) => p.maxTokens >= 0 && (p.algorithm.FixedWindow? ==> p.windowSec > 0)
    case DoBind(c, _, _) => c !in s.bindings
    case DoRequest(_, tokens, _, _) => tokens >= 0
    case DoReturn(_, tokens) => tokens >= 0
    case DoBorrow(_, _, amount) => amount >= 0
    case DoGiveBack(_, _, amount) => amount >= 0
    case DoReserve(_, order) => Iteration(order, s.reservations.Keys)
    case DoReservationTick(order) => Iteration(order, s.reservations.Keys)
    case DoRefillTick(order) => Iteration(order, s.reservations.Keys)
    case DoStatus(_, order) => Iteration(order, s.reservations.Keys)
    case _ => true
  }

  ghost function Step(s: State, op: Op, now: int, decay: Decay): State
    requires WellFormed(s)
  {
    match op
    case DoPolicy(name, p) => NewPolicy(s, name, p)
    case DoBind(c, policy, quota) => Bind(s, c, policy, quota, now)
    case DoRequest(c, tokens, waitable, waitSec) => Request(s, c, tokens, waitable, waitSec, now, decay).0
    case DoReturn(c, tokens) => Return(s, c, tokens, now, decay)
    case DoBorrow(from, to, amount) => Borrow(s, from, to, amount, now, decay).0
    case DoGiveBack(from, to, amount) => GiveBack(s, from, to, amount).0
    case DoAdjust(c, quota) => Adjust(s, c, quota, now, decay)
    case DoReserve(k, order) => Reserve(s, k, now, order)
    case DoCancel(id) => Cancel(s, id)
    case DoReservationTick(order) => AdvanceAll(s, order, now)
    case DoRefillTick(order) => RefillTick(s, order, now, decay)
    case DoStatus(c, order) => if Known(s, c) then Ticked(AdvanceAll(s, order, now), c, now, decay) else s
  }

  lemma StepOk(s: State, op: Op, now: int, decay: Decay, clock: int)
    requires Ok(s, clock) && clock <= now && Legal(s, op)
    ensures Ok(Step(s, op, now, decay), now)
  {
    hide Total;
    hide Ok;
    hide Iteration;
    LaterOk(s, clock, now);
    match op
    case DoPolicy(name, p) => NewPolicyOk(s, name, p, now);
    case DoBind(c, policy, quota) => BindNewOk(s, c, policy, quota, now, now);
    case DoRequest(c, tokens, waitable, waitSec) => RequestOk(s, c, tokens, waitable, waitSec, now, decay, now);
    case DoReturn(c, tokens) => ReturnOk(s, c, tokens, now, decay, now);
    case DoBorrow(from, to, amount) => BorrowOk(s, from, to, amount, now, decay, now);
    case DoGiveBack(from, to, amount) => GiveBackOk(s, from, to, amount, now);
    case DoAdjust(c, quota) => AdjustOk(s, c, quota, now, decay, now);
    case DoReserve(k, order) => ReserveOk(s, k, now, order, now);
    case DoCancel(id) => CancelOk(s, id, now, now);
    case DoReservationTick(order) => AdvanceAllOk(s, order, now, now);
    case DoRefillTick(order) => RefillTickOk(s, order, now, decay, now);
    case DoStatus(c, order) =>
      AdvanceAllOk(s, order, now, now);
      TickedOk(AdvanceAll(s, order, now), c, now, decay, now);
  }

  /** A run is a list of timed operations; the clock never goes back and each
      operation is legal in the state it meets. */
  ghost predicate LegalRun(s: State, clock: int, ops: seq<(Op, int)>, decay: Decay)
    decreases |ops|
  {
    ops == [] || (WellFormed(s) && clock <= ops[0].1 && Legal(s, ops[0].0) &&
                  LegalRun(Step(s, ops[0].0, ops[0].1, decay), ops[0].1, ops[1..], decay))
  }

  /** The state and the clock after a run. */
  ghost function Run(s: State, clock: int, ops: seq<(Op, int)>, decay: Decay): (State, int)
    requires LegalRun(s, clock, ops, decay)
    decreases |ops|
  {
    if ops == [] then (s, clock)
    else Run(Step(s, ops[0].0, ops[0].1, decay), ops[0].1, ops[1..], decay)
  }

  /** One legal operation in front of a run. */
  lemma RunOn(s: State, clock: int, ops: seq<(Op, int)>, decay: Decay, t: State)
    requires ops != [] && WellFormed(s) && clock <= ops[0].1 && Legal(s, ops[0].0)
    requires t == Step(s, ops[0].0, ops[0].1, decay) && LegalRun(t, ops[0].1, ops[1..], decay)
    ensures LegalRun(s, clock, ops, decay)
    ensures Run(s, clock, ops, decay) == Run(t, ops[0].1, ops[1..], decay)
  {
    hide Step;
  }

  /** Every reachable state: loans balance, reserved tokens match the active
      reservations, used tokens stay within the effective limit, and at no
      instant is a policy over-reserved. */
  lemma {:induction false} RunOk(s: State, clock: int, ops: seq<(Op, int)>, decay: Decay)
    requires Ok(s, clock) && LegalRun(s, clock, ops, decay)
    ensures Ok(Run(s, clock, ops, decay).0, Run(s, clock, ops, decay).1)
    decreases |ops|
  {
    hide Ok;
    hide Legal;
    if ops != [] {
      StepOk(s, ops[0].0, ops[0].1, decay, clock);
      RunOk(Step(s, ops[0].0, ops[0].1, decay), ops[0].1, ops[1..], decay);
    }
  }

  lemma EmptyOk(clock: int)
    ensures Ok(EMPTY, clock)
  {
  }
}
