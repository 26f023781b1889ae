/** AcquireLocksBatch takes every lock or leaves no trace. */
module LockBatch {
  import opened Basics
  import opened LockState
  import opened LockTables
  import opened LockInvariant

  /** Same holders, counts, active leases, timers and queues. */
  ghost predicate NoTrace(s: State, t: State)
  {
    && t.queue == s.queue && t.accelerated == s.accelerated
    && forall l :: SameHolding(s, t, l)
  }

  ghost predicate SameHolding(s: State, t: State, l: string)
  {
    && (Held(s, l) <==> Held(t, l)) && (Held(s, l) ==> s.locks[l] == t.locks[l])
    && ActiveOf(s.leases, l) == ActiveOf(t.leases, l)
    && (l in s.timers <==> l in t.timers) && (l in s.timers ==> s.timers[l] == t.timers[l])
  }

  /** Every lock of names is held once by holder under a lease running to expiresAt. */
  ghost predicate HoldsAll(t: State, names: seq<string>, holder: string, reentrant: bool, expiresAt: int)
  {
    forall l :: l in names ==>
      && l in t.locks && t.locks[l] == Lock(true, holder, reentrant, 1)
      && |ActiveOf(t.leases, l)| == 1
      && ActiveOf(t.leases, l)[0].holder == holder && ActiveOf(t.leases, l)[0].expiresAt == expiresAt
      && l in t.timers && t.timers[l] == expiresAt
  }

  /** What a batch in progress has changed: only the locks it took. */
  ghost predicate TookOnly(s: State, t: State, names: seq<string>)
  {
    && t.queue == s.queue && t.accelerated == s.accelerated
    && forall l :: l !in names ==> SameAt(s, t, l)
  }

  lemma {:induction false} TakeAllEffect(s: State, names: seq<string>, holder: string, reentrant: bool,
                                         leaseSec: int, now: int)
    requires Inv(s) && NoRepeats(names) && forall l :: l in names ==> !Held(s, l)
    ensures var t := TakeAll(s, names, holder, reentrant, leaseSec, now);
      TookOnly(s, t, names) && HoldsAll(t, names, holder, reentrant, now + leaseSec * SECOND)
  {
    if names != [] {
      var front, last := names[..|names| - 1], names[|names| - 1];
      assert names == front + [last] && last !in front;
      TakeAllEffect(s, front, holder, reentrant, leaseSec, now);
      var u := TakeAll(s, front, holder, reentrant, leaseSec, now);
      assert SameAt(s, u, last) && LockOk(s, last);
      TakeOne(u, last, holder, reentrant, leaseSec, now);
      var t := TakeAll(s, names, holder, reentrant, leaseSec, now);
      forall l | l !in names
        ensures SameAt(s, t, l)
      {
        assert SameAt(s, u, l) && SameAt(u, t, l);
      }
      forall l | l in front
        ensures SameAt(u, t, l)
      {
      }
    }
  }

  lemma TakeOne(u: State, l: string, holder: string, reentrant: bool, leaseSec: int, now: int)
    requires ActiveOf(u.leases, l) == []
    ensures var t := Assign(u, l, holder, reentrant, leaseSec, now);
      SameElsewhere(u, t, l) && HoldsAll(t, [l], holder, reentrant, now + leaseSec * SECOND)
  {
  }

  /** Giving up a lock nobody waits for only frees it. */
  lemma ReleaseQuiet(u: State, l: string, holder: string, now: int, allowed: Allowed)
    requires l in u.locks && u.locks[l].held && u.locks[l].holder == holder && u.locks[l].count == 1
    requires QueueOf(u.queue, l) == []
    ensures var t := Release(u, l, holder, now, allowed);
      && t.queue == u.queue && t.accelerated == u.accelerated && SameElsewhere(u, t, l)
      && !Held(t, l) && ActiveOf(t.leases, l) == [] && l !in t.timers
      && l in t.locks && t.locks[l].holder == "" && t.locks[l].count == 0
  {
    VacateEffect(u, l);
    DequeueEffect(u.queue, l);
  }

  lemma {:induction false} ReleaseAllEffect(s: State, u: State, names: seq<string>, holder: string, now: int,
                                            allowed: Allowed)
    requires Inv(s) && NoRepeats(names) && TookOnly(s, u, names)
    requires forall l :: l in names ==>
      !Held(s, l) && l in u.locks && u.locks[l].held && u.locks[l].holder == holder && u.locks[l].count == 1
    ensures NoTrace(s, ReleaseAll(u, names, holder, now, allowed))
    decreases |names|
  {
    if names != [] {
      var front, last := names[..|names| - 1], names[|names| - 1];
      assert names == front + [last] && last !in front;
      assert LockOk(s, last);
      ReleaseQuiet(u, last, holder, now, allowed);
      var v := Release(u, last, holder, now, allowed);
      var s' := s.(locks := if last in v.locks then s.locks[last := v.locks[last]] else s.locks - {last});
      assert SameHolding(s, s', last);
      forall l | l !in front
        ensures SameAt(s', v, l)
      {
        assert LockOk(s, l);
        if l != last {
          assert SameAt(s, u, l) && SameAt(u, v, l);
        }
      }
      FreeRowInv(s, s', last);
      forall l | l in front
        ensures !Held(s', l) && l in v.locks && v.locks[l] == u.locks[l]
      {
        assert SameAt(u, v, l);
      }
      ReleaseAllEffect(s', v, front, holder, now, allowed);
      var t := ReleaseAll(u, names, holder, now, allowed);
      forall l
        ensures SameHolding(s, t, l)
      {
        assert SameHolding(s', t, l);
      }
    } else {
      forall l
        ensures SameHolding(s, u, l)
      {
        assert SameAt(s, u, l);
      }
    }
  }

  /** The row of a free lock may change its reentrant flag or appear. */
  lemma FreeRowInv(s: State, s': State, l: string)
    requires Inv(s) && !Held(s, l)
    requires s' == s.(locks := s'.locks) && !Held(s', l)
    requires l in s'.locks ==> s'.locks[l].holder == "" && s'.locks[l].count == 0
    requires forall k :: k != l ==> SameAt(s, s', k)
    ensures Inv(s')
  {
    assert LockOk(s, l);
    FrameInv(s, s', l);
  }

  /** AcquireLocksBatch is all or nothing: it succeeds exactly when the lease
      time is positive, there are names, all locks are free and all are within
      budget; then it holds them all and nothing else changed; otherwise
      holders, counts, active leases and queues are as before. */
  lemma BatchAllOrNothing(s: State, names: seq<string>, holder: string, leaseSec: int, reentrant: bool,
                          now: int, allowed: Allowed)
    requires Inv(s) && NoRepeats(names)
    ensures var (t, outcome) := BatchAcquire(s, names, holder, leaseSec, reentrant, now, allowed);
      && (outcome == BatchAcquired <==>
          leaseSec > 0 && names != [] && forall l :: l in names ==> !Held(s, l) && (holder, l) in allowed)
      && (outcome == BatchAcquired ==>
          TookOnly(s, t, names) && HoldsAll(t, names, holder, reentrant, now + leaseSec * SECOND))
      && (outcome != BatchAcquired ==> NoTrace(s, t))
  {
    var h := FirstHeld(s, names);
    var k := FirstRefused(names, holder, allowed);
    if h == |names| {
      var taken := names[..k];
      assert forall l :: l in taken ==> l in names;
      TakeAllEffect(s, taken, holder, reentrant, leaseSec, now);
      ReleaseAllEffect(s, TakeAll(s, taken, holder, reentrant, leaseSec, now), taken, holder, now, allowed);
      assert k == |names| ==> taken == names;
      assert k < |names| ==> names[k] in names;
    } else {
      assert names[h] in names;
    }
  }
}
