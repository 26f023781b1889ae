/** What a reservation tick cuts off a caller's used tokens: the worst walk of the
    reservations, and the grant bounds of the runs in which nothing is cut off. */
module RateCuts {
  import opened Basics
  import opened Totals
  import opened MapWalks
  import opened RateState
  import opened RateInvariant
  import opened RateReservations
  import opened RateBounds
  import opened RateEvents
  import opened RateRuns
  import opened RateStamps

  /** The active reservations of c that have run out. */
  ghost function Ending(s: State, c: string, now: int): map<int, int>
  {
    map id | id in s.reservations && s.reservations[id].status.Active? && s.reservations[id].caller == c &&
             s.reservations[id].endAt <= now ::
      s.reservations[id].tokens
  }

  /** c's reserved tokens without theirs. */
  ghost function Spare(s: State, c: string, now: int): int
    requires c in s.bindings
  {
    s.bindings[c].reserved - Total(Ending(s, c, now))
  }

  function LimitWith(s: State, c: string, reserved: int): int
    requires c in s.bindings
  {
    EffectiveLimit(s, s.bindings[c].(reserved := reserved))
  }

  /** c's effective limit without the reservations that have run out. */
  ghost function Lasting(s: State, c: string, now: int): int
    requires c in s.bindings
  {
    LimitWith(s, c, Spare(s, c, now))
  }

  /** From s to t, c keeps its terms but for the reserved tokens, the lasting limit
      does not fall, and used tokens below it are not taken. */
  ghost predicate Holds(s: State, t: State, c: string, now: int)
  {
    && c in s.bindings && c in t.bindings && t.policies == s.policies
    && t.bindings[c] == s.bindings[c].(reserved := t.bindings[c].reserved, used := t.bindings[c].used)
    && Spare(t, c, now) >= Spare(s, c, now)
    && Min(s.bindings[c].used, Lasting(s, c, now)) <= t.bindings[c].used <= s.bindings[c].used
  }

  lemma LimitGrows(s: State, t: State, c: string, x: int, y: int)
    requires c in s.bindings && c in t.bindings && t.policies == s.policies && x <= y
    requires t.bindings[c] == s.bindings[c].(reserved := t.bindings[c].reserved, used := t.bindings[c].used)
    ensures LimitWith(s, c, x) <= LimitWith(t, c, y)
  {
  }

  lemma HoldsTrans(s: State, t: State, u: State, c: string, now: int)
    requires Holds(s, t, c, now) && Holds(t, u, c, now)
    ensures Holds(s, u, c, now)
  {
    LimitGrows(s, t, c, Spare(s, c, now), Spare(t, c, now));
    hide Spare;
    hide LimitWith;
  }

  lemma EndingPositive(s: State, c: string, now: int, clock: int)
    requires Ok(s, clock)
    ensures Total(Ending(s, c, now)) >= 0
  {
    var m := Ending(s, c, now);
    forall id | id in m
      ensures m[id] >= 0
    {
      assert ReservationOk(s, id, clock);
    }
    TotalMonotone(map[], m);
  }

  /** The tokens of the caller's reservation leave its ledger and, when it has run
      out, its ending tokens too. */
  lemma FinishSpare(s: State, id: int, c: string, now: int, clock: int)
    requires Ok(s, clock) && c in s.bindings && id in s.reservations
    requires s.reservations[id].status.Active? && s.reservations[id].endAt <= now
    ensures var t := Finish(s, id, Completed);
      && c in t.bindings && t.policies == s.policies && Spare(t, c, now) == Spare(s, c, now)
      && (s.reservations[id].caller == c ==>
          t.bindings[c].reserved == s.bindings[c].reserved - s.reservations[id].tokens)
      && (s.reservations[id].caller != c ==> t.bindings[c] == s.bindings[c])
      && Ending(t, c, now) == Ending(s, c, now) - {id}
  {
    hide Total;
    hide EffectiveLimit;
    ReservedCovers(s, id, clock);
    var t := Finish(s, id, Completed);
    assert Ending(t, c, now) == Ending(s, c, now) - {id};
    if s.reservations[id].caller == c {
      TotalRemove(Ending(s, c, now), id);
    } else {
      assert Ending(t, c, now) == Ending(s, c, now);
    }
  }

  /** The clamp at the end of a reservation of c. */
  lemma FinishUsed(s: State, id: int, c: string)
    requires c in s.bindings && id in s.reservations && s.reservations[id].caller == c
    requires s.bindings[c].policy in s.policies && s.bindings[c].reserved >= s.reservations[id].tokens
    ensures var t := Finish(s, id, Completed); var left := s.bindings[c].reserved - s.reservations[id].tokens;
      && t.policies == s.policies && c in t.bindings
      && t.bindings[c] == s.bindings[c].(reserved := left, used := Min(s.bindings[c].used, LimitWith(s, c, left)))
  {
  }

  lemma FinishHolds(s: State, id: int, c: string, now: int, clock: int)
    requires Ok(s, clock) && clock <= now && c in s.bindings && id in s.reservations
    requires s.reservations[id].status.Active? && s.reservations[id].endAt <= now
    ensures Holds(s, Finish(s, id, Completed), c, now)
  {
    FinishSpare(s, id, c, now, clock);
    var t := Finish(s, id, Completed);
    if s.reservations[id].caller == c {
      FinishFloor(s, id, c, now, clock);
      ReservedCovers(s, id, clock);
      assert s.bindings[c].policy in s.policies by { assert BindingOk(s, s.bindings[c]); }
      FinishUsed(s, id, c);
      hide *;
      FinishedHolds(s, t, c, now);
    } else {
      KnownByOk(s, c, clock);
      hide *;
      OtherHolds(s, t, c, now);
    }
  }

  lemma FinishFloor(s: State, id: int, c: string, now: int, clock: int)
    requires Ok(s, clock) && clock <= now && c in s.bindings && id in s.reservations
    requires s.reservations[id].status.Active? && s.reservations[id].endAt <= now && s.reservations[id].caller == c
    ensures LimitWith(s, c, Spare(s, c, now)) <= LimitWith(s, c, s.bindings[c].reserved - s.reservations[id].tokens)
  {
    FinishSpare(s, id, c, now, clock);
    FinishOk(s, id, Completed, clock, now);
    var t := Finish(s, id, Completed);
    EndingPositive(t, c, now, now);
    assert t.bindings[c].reserved >= Spare(t, c, now);
    hide *;
    LimitGrows(s, s, c, Spare(s, c, now), s.bindings[c].reserved - s.reservations[id].tokens);
  }

  lemma OtherHolds(s: State, t: State, c: string, now: int)
    requires c in s.bindings && c in t.bindings && t.policies == s.policies && t.bindings[c] == s.bindings[c]
    requires Spare(t, c, now) == Spare(s, c, now)
    ensures Holds(s, t, c, now)
  {
    hide Spare;
    hide LimitWith;
  }

  lemma FinishedHolds(s: State, t: State, c: string, now: int)
    requires c in s.bindings && c in t.bindings && t.policies == s.policies
    requires Spare(t, c, now) == Spare(s, c, now)
    requires LimitWith(s, c, Spare(s, c, now)) <= LimitWith(s, c, t.bindings[c].reserved)
    requires t.bindings[c] == s.bindings[c].(reserved := t.bindings[c].reserved,
                                             used := Min(s.bindings[c].used, LimitWith(s, c, t.bindings[c].reserved)))
    ensures Holds(s, t, c, now)
  {
    hide LimitWith;
    hide Spare;
  }

  lemma ActivateHolds(s: State, id: int, c: string, now: int, clock: int)
    requires Ok(s, clock) && c in s.bindings && id in s.reservations && s.reservations[id].status.Pending?
    ensures Holds(s, Activate(s, id), c, now)
  {
    hide Total;
    hide EffectiveLimit;
    var t := Activate(s, id);
    var r := s.reservations[id];
    assert ReservationOk(s, id, clock);
    if r.caller == c && r.endAt <= now {
      assert Ending(t, c, now) == Ending(s, c, now)[id := r.tokens];
      TotalUpdate(Ending(s, c, now), id, r.tokens);
    } else {
      assert Ending(t, c, now) == Ending(s, c, now);
    }
  }

  lemma AdvanceHolds(s: State, id: int, c: string, now: int, clock: int)
    requires Ok(s, clock) && clock <= now && c in s.bindings
    ensures Holds(s, Advance(s, id, now), c, now)
  {
    if id in s.reservations {
      var r := s.reservations[id];
      if r.status.Pending? && r.startAt <= now {
        assert ReservationOk(s, id, clock);
        ActivateOk(s, id, clock, now);
        ActivateHolds(s, id, c, now, clock);
        var t := Activate(s, id);
        assert t.reservations[id] == r.(status := Active);
        if r.endAt <= now {
          FinishHolds(t, id, c, now, now);
          HoldsTrans(s, t, Finish(t, id, Completed), c, now);
        }
      } else if r.status.Active? && r.endAt <= now {
        FinishHolds(s, id, c, now, clock);
      }
    }
  }

  lemma {:induction false} AdvanceAllHolds(s: State, order: seq<int>, c: string, now: int, clock: int)
    requires Ok(s, clock) && clock <= now && c in s.bindings
    ensures Holds(s, AdvanceAll(s, order, now), c, now)
    decreases |order|
  {
    if order != [] {
      var front, last := order[..|order| - 1], order[|order| - 1];
      var t := AdvanceAll(s, front, now);
      AdvanceAllHolds(s, front, c, now, clock);
      AdvanceAllOk(s, front, clock, now);
      hide Ok;
      AdvanceHolds(t, last, c, now, now);
      hide Holds;
      HoldsTrans(s, t, Advance(t, last, now), c, now);
    }
  }

  /** A walk that visits the reservations that have run out first. */
  lemma {:induction false} EndingsFirst(s: State, front: seq<int>, c: string, now: int, clock: int)
    requires Ok(s, clock) && clock <= now && c in s.bindings && NoRepeats(front)
    requires forall id :: id in front ==> id in Ending(s, c, now)
    ensures var t := AdvanceAll(s, front, now);
      && Ok(t, now) && c in t.bindings && Spare(t, c, now) == Spare(s, c, now)
      && Ending(t, c, now) == Ending(s, c, now) - (set id | id in front)
    decreases |front|
  {
    hide Total;
    hide Ok;
    if front == [] {
      LaterOk(s, clock, now);
    } else {
      var rest, last := front[..|front| - 1], front[|front| - 1];
      assert front == rest + [last];
      EndingsFirst(s, rest, c, now, clock);
      var t := AdvanceAll(s, rest, now);
      assert last in Ending(t, c, now);
      FinishSpare(t, last, c, now, now);
      FinishOk(t, last, Completed, now, now);
      assert Advance(t, last, now) == Finish(t, last, Completed);
    }
  }

  lemma {:induction false} AdvanceAllConcat(s: State, front: seq<int>, back: seq<int>, now: int)
    ensures AdvanceAll(s, front + back, now) == AdvanceAll(AdvanceAll(s, front, now), back, now)
    decreases |back|
  {
    if back == [] {
      assert front + back == front;
    } else {
      assert (front + back)[..|front + back| - 1] == front + back[..|back| - 1];
      hide Advance;
      AdvanceAllConcat(s, front, back[..|back| - 1], now);
    }
  }

  /** Once all of them are finished, c is within its lasting limit. */
  lemma EndingsDone(s: State, front: seq<int>, c: string, now: int, clock: int)
    requires Ok(s, clock) && clock <= now && c in s.bindings && Iteration(front, Ending(s, c, now).Keys)
    ensures var t := AdvanceAll(s, front, now);
      Known(t, c) && WellFormed(t) && 0 <= t.bindings[c].used <= Lasting(s, c, now)
  {
    forall id | id in front
      ensures id in Ending(s, c, now)
    {
      InWalk(front, Ending(s, c, now).Keys, id);
    }
    EndingsFirst(s, front, c, now, clock);
    var t := AdvanceAll(s, front, now);
    assert Ending(t, c, now) == map[];
    AdvanceAllHolds(s, front, c, now, clock);
    KnownByOk(t, c, now);
    assert Spare(t, c, now) == t.bindings[c].reserved;
    hide *;
    LimitGrows(t, s, c, t.bindings[c].reserved, Spare(s, c, now));
  }

  /** The cut of a reservation tick: no walk takes more than the used tokens above
      the limit that the reservations which have run out leave behind, and the
      walk that visits those first takes exactly that much. */
  lemma WorstWalk(s: State, c: string, now: int, clock: int) returns (worst: seq<int>)
    requires Ok(s, clock) && clock <= now && c in s.bindings
    ensures forall order :: Lowered(UsedBy(s, c), UsedBy(AdvanceAll(s, order, now), c)) <=
                            Lowered(UsedBy(s, c), Lasting(s, c, now))
    ensures Iteration(worst, s.reservations.Keys)
    ensures Lowered(UsedBy(s, c), UsedBy(AdvanceAll(s, worst, now), c)) == Lowered(UsedBy(s, c), Lasting(s, c, now))
  {
    var endings := Ending(s, c, now).Keys;
    var front := SomeWalk(endings);
    var back := SomeWalk(s.reservations.Keys - endings);
    worst := front + back;
    WalksJoin(front, back, endings, s.reservations.Keys);
    EndingsDone(s, front, c, now, clock);
    AdvanceAllConcat(s, front, back, now);
    var t := AdvanceAll(s, front, now);
    AdvanceAllCuts(t, back, now, c);
    hide AdvanceAll;
    hide Ok;
    hide Lasting;
    forall order
      ensures Lowered(UsedBy(s, c), UsedBy(AdvanceAll(s, order, now), c)) <= Lowered(UsedBy(s, c), Lasting(s, c, now))
    {
      AdvanceAllHolds(s, order, c, now, clock);
    }
  }

  lemma InWalk<T>(order: seq<T>, keys: set<T>, k: T)
    requires Iteration(order, keys)
    ensures k in order <==> k in keys
  {
    assert k in (set i | i in order) <==> k in order;
  }

  lemma WalksJoin<T>(front: seq<T>, back: seq<T>, some: set<T>, keys: set<T>)
    requires some <= keys && Iteration(front, some) && Iteration(back, keys - some)
    ensures Iteration(front + back, keys)
  {
    var o := front + back;
    assert (set i | i in o) == (set i | i in front) + (set i | i in back);
    forall i, j | 0 <= i < j < |o|
      ensures o[i] != o[j]
    {
      if i < |front| <= j {
        assert front[i] in front && back[j - |front|] in back;
        InWalk(front, some, front[i]);
        InWalk(back, keys - some, back[j - |front|]);
      } else if |front| <= i {
        assert back[i - |front|] != back[j - |front|];
      } else {
        assert front[i] != front[j];
      }
    }
  }

  // -------------------------------------------------------- runs without a cut

  /** No reservation tick of the run meets used tokens of c above the limit that
      the reservations which have run out by then leave behind. */
  ghost predicate NothingToCut(s: State, clock: int, ops: seq<(Op, int)>, decay: Decay, c: string)
    requires LegalRun(s, clock, ops, decay)
    decreases |ops|
  {
    ops == [] ||
    ((TicksReservations(s, ops[0].0) && c in s.bindings ==> s.bindings[c].used <= Lasting(s, c, ops[0].1)) &&
     NothingToCut(Step(s, ops[0].0, ops[0].1, decay), ops[0].1, ops[1..], decay, c))
  }

  /** A tick at which no active reservation of c has run out is one of them. */
  lemma NoneEnding(s: State, c: string, now: int, clock: int)
    requires Ok(s, clock) && c in s.bindings
    requires forall id ::
      id in s.reservations && s.reservations[id].status.Active? && s.reservations[id].caller == c ==>
      now < s.reservations[id].endAt
    ensures s.bindings[c].used <= Lasting(s, c, now)
  {
    forall id
      ensures id !in Ending(s, c, now)
    {
      assert id in s.reservations ==> s.reservations[id].endAt == s.reservations[id].endAt;
    }
    assert Ending(s, c, now) == map[];
    KnownByOk(s, c, clock);
  }

  lemma TickUncut(s: State, op: Op, now: int, c: string, clock: int)
    requires Ok(s, clock) && clock <= now && c in s.bindings
    requires TicksReservations(s, op) ==> s.bindings[c].used <= Lasting(s, c, now)
    ensures CutBy(s, op, now, c) == 0
  {
    var worst := WorstWalk(s, c, now, clock);
    hide Ok;
  }

  lemma {:induction false} RunUncut(s: State, clock: int, ops: seq<(Op, int)>, decay: Decay, c: string, limit: int)
    requires Ok(s, clock) && LegalRun(s, clock, ops, decay)
    requires LimitStays(s, clock, ops, decay, c, limit) && NothingToCut(s, clock, ops, decay, c)
    ensures RunCut(s, clock, ops, decay, c) == 0
    decreases |ops|
  {
    if ops != [] {
      var (op, now) := ops[0];
      TickUncut(s, op, now, c, clock);
      StepOk(s, op, now, decay, clock);
      hide Ok;
      hide Legal;
      hide CutBy;
      hide EffectiveLimit;
      RunUncut(Step(s, op, now, decay), now, ops[1..], decay, c, limit);
    }
  }

  /** In a run whose reservation ticks find nothing to cut off, the bucket's grants
      are bounded by the limit, the refill and what comes back. */
  lemma BucketRunsUncut(s: State, clock: int, ops: seq<(Op, int)>, decay: Decay, c: string, limit: int)
    requires Ok(s, clock) && Stamped(s, clock) && LegalRun(s, clock, ops, decay) && ops != []
    requires LimitStays(s, clock, ops, decay, c, limit) && Known(s, c) && NothingToCut(s, clock, ops, decay, c)
    requires PolicyOf(s, c).algorithm.TokenBucket? && PolicyOf(s, c).refillRate >= 0.0
    ensures RunGranted(s, clock, ops, decay, c) as real <=
      (limit + RunReturned(ops, c)) as real
      + Allowance(PolicyOf(s, c), Early(ops[0].1), Run(s, clock, ops, decay).1)
  {
    BucketRuns(s, clock, ops, decay, c, limit);
    RunUncut(s, clock, ops, decay, c, limit);
  }

  /** Likewise for a window: at most twice the limit and what comes back. */
  lemma WindowRunsUncut(s: State, clock: int, ops: seq<(Op, int)>, decay: Decay, c: string, limit: int, start: int)
    requires Ok(s, clock) && Stamped(s, clock) && LegalRun(s, clock, ops, decay)
    requires LimitStays(s, clock, ops, decay, c, limit) && Known(s, c) && NothingToCut(s, clock, ops, decay, c)
    requires PolicyOf(s, c).algorithm.FixedWindow?
    requires ops != [] ==> start <= ops[0].1 && Run(s, clock, ops, decay).1 < start + Width(PolicyOf(s, c))
    ensures RunGranted(s, clock, ops, decay, c) <= 2 * limit + RunReturned(ops, c)
  {
    WindowRuns(s, clock, ops, decay, c, limit, start);
    RunUncut(s, clock, ops, decay, c, limit);
  }
}
