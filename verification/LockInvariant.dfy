/** The lock invariant holds after every step of every run. */
module LockInvariant {
  import opened Basics
  import opened LockState
  import opened LockTables

  /** Nothing the invariant of k mentions differs between s and t. */
  ghost predicate SameAt(s: State, t: State, k: string)
  {
    && (k in s.locks <==> k in t.locks) && (k in s.locks ==> s.locks[k] == t.locks[k])
    && QueueOf(s.queue, k) == QueueOf(t.queue, k)
    && ActiveOf(s.leases, k) == ActiveOf(t.leases, k)
    && (k in s.timers <==> k in t.timers) && (k in s.timers ==> s.timers[k] == t.timers[k])
  }

  ghost predicate SameElsewhere(s: State, t: State, l: string)
  {
    forall k :: k != l ==> SameAt(s, t, k)
  }

  lemma SameTrans(s: State, u: State, t: State, l: string)
    requires SameElsewhere(s, u, l) && SameElsewhere(u, t, l)
    ensures SameElsewhere(s, t, l)
  {
    forall k | k != l
      ensures SameAt(s, t, k)
    {
      assert SameAt(s, u, k) && SameAt(u, t, k);
    }
  }

  lemma FrameInv(s: State, t: State, l: string)
    requires Inv(s) && SameElsewhere(s, t, l) && LockOk(t, l)
    ensures Inv(t)
  {
    forall k
      ensures LockOk(t, k)
    {
      assert LockOk(s, k);
      assert k != l ==> SameAt(s, t, k);
    }
  }

  /** A waiter the grant loop accepts. */
  predicate Eligible(x: WaitItem, l: string, now: int, allowed: Allowed)
  {
    x.timeoutAt >= now && (x.holder, l) in allowed
  }

  /** Position of the first waiter the grant loop accepts; |q| when there is none. */
  function FirstEligible(q: seq<WaitItem>, l: string, now: int, allowed: Allowed): (r: nat)
    ensures r <= |q|
    ensures r < |q| ==> Eligible(q[r], l, now, allowed)
    ensures forall i :: 0 <= i < r ==> !Eligible(q[i], l, now, allowed)
  {
    if q == [] then 0 else if Eligible(q[0], l, now, allowed) then 0 else 1 + FirstEligible(q[1..], l, now, allowed)
  }

  lemma AssignEffect(s: State, l: string, holder: string, reentrant: bool, leaseSec: int, now: int)
    requires ActiveOf(s.leases, l) == []
    ensures var t := Assign(s, l, holder, reentrant, leaseSec, now);
      && SameElsewhere(s, t, l) && QueueOf(t.queue, l) == QueueOf(s.queue, l)
      && |ActiveOf(t.leases, l)| == 1 && ActiveOf(t.leases, l)[0].holder == holder
  {
  }

  /** t is s after tryGrantNextLocked: the first j waiters left the queue; all
      but the last of them are ineligible, and the last one is either
      ineligible too (the queue ran empty) or is the new holder. */
  ghost predicate Granted(s: State, t: State, l: string, now: int, allowed: Allowed, j: nat)
  {
    var q := QueueOf(s.queue, l);
    && j <= |q| && QueueOf(t.queue, l) == q[j..]
    && (forall i :: 0 <= i < j - 1 ==> !Eligible(q[i], l, now, allowed))
    && (if j > 0 && Eligible(q[j - 1], l, now, allowed) then
          t == Assign(s.(queue := t.queue), l, q[j - 1].holder, q[j - 1].reentrant,
                      EffectiveLease(s, l, q[j - 1].leaseSec), now)
        else j == |q| && t == s.(queue := t.queue))
  }

  function Dequeued(s: State, l: string): State
    requires FirstFor(s.queue, l) < |s.queue|
  {
    s.(queue := RemoveAt(s.queue, FirstFor(s.queue, l)))
  }

  lemma DequeuedEffect(s: State, l: string)
    requires FirstFor(s.queue, l) < |s.queue|
    ensures SameElsewhere(s, Dequeued(s, l), l)
    ensures QueueOf(s.queue, l) == [s.queue[FirstFor(s.queue, l)]] + QueueOf(Dequeued(s, l).queue, l)
  {
    DequeueEffect(s.queue, l);
  }

  lemma {:induction false} GrantNextEffect(s: State, l: string, now: int, allowed: Allowed) returns (j: nat)
    requires ActiveOf(s.leases, l) == []
    ensures Granted(s, GrantNext(s, l, now, allowed), l, now, allowed, j)
    ensures SameElsewhere(s, GrantNext(s, l, now, allowed), l)
    decreases |s.queue|
  {
    var i := FirstFor(s.queue, l);
    if i == |s.queue| {
      DequeueEffect(s.queue, l);
      j := 0;
    } else {
      var item, s1 := s.queue[i], Dequeued(s, l);
      var t := GrantNext(s, l, now, allowed);
      DequeuedEffect(s, l);
      if Eligible(item, l, now, allowed) {
        GrantedNow(s, s1, item, l, now, allowed);
        j := 1;
      } else {
        var j1 := GrantNextEffect(s1, l, now, allowed);
        GrantedLater(s, s1, t, item, l, now, allowed, j1);
        j := j1 + 1;
      }
      SameTrans(s, s1, t, l);
    }
  }

  lemma GrantedNow(s: State, s1: State, item: WaitItem, l: string, now: int, allowed: Allowed)
    requires s1 == s.(queue := s1.queue) && QueueOf(s.queue, l) == [item] + QueueOf(s1.queue, l)
    requires ActiveOf(s.leases, l) == []
    requires Eligible(item, l, now, allowed)
    ensures var t := Assign(s1, l, item.holder, item.reentrant, EffectiveLease(s1, l, item.leaseSec), now);
      Granted(s, t, l, now, allowed, 1) && SameElsewhere(s1, t, l)
  {
  }

  /** An ineligible head in front of a finished grant. */
  lemma GrantedLater(s: State, s1: State, t: State, item: WaitItem, l: string, now: int, allowed: Allowed, j: nat)
    requires s1 == s.(queue := s1.queue) && QueueOf(s.queue, l) == [item] + QueueOf(s1.queue, l)
    requires !Eligible(item, l, now, allowed) && Granted(s1, t, l, now, allowed, j)
    ensures Granted(s, t, l, now, allowed, j + 1)
  {
  }

  lemma VacateEffect(s: State, l: string)
    requires l in s.locks
    ensures var t := Vacate(s, l);
      && SameElsewhere(s, t, l) && ActiveOf(t.leases, l) == [] && t.queue == s.queue
      && !Held(t, l) && l !in t.timers
  {
    var t := Vacate(s, l);
    forall k
      ensures ActiveOf(t.leases, k) == if k == l then [] else ActiveOf(s.leases, k)
    {
      ActiveDeactivate(s.leases, l, k);
    }
  }

  /** Who gets a lock that is given up: the first eligible waiter of its queue;
      those before it leave the queue, those behind it stay. */
  lemma HandOverGoesTo(s: State, l: string, now: int, allowed: Allowed)
    requires Held(s, l)
    ensures var t := GrantNext(Vacate(s, l), l, now, allowed);
      var q := QueueOf(s.queue, l);
      var j := FirstEligible(q, l, now, allowed);
      && (Held(t, l) <==> j < |q|)
      && (j < |q| ==> t.locks[l].holder == q[j].holder && QueueOf(t.queue, l) == q[j + 1..])
      && (j == |q| ==> QueueOf(t.queue, l) == [])
  {
    VacateEffect(s, l);
    var j := GrantNextEffect(Vacate(s, l), l, now, allowed);
  }

  /** Giving a held lock up and granting it on keeps the invariant. */
  lemma HandOverKeepsInv(s: State, l: string, now: int, allowed: Allowed)
    requires Inv(s) && Held(s, l)
    ensures Inv(GrantNext(Vacate(s, l), l, now, allowed))
  {
    assert LockOk(s, l);
    VacateEffect(s, l);
    var v := Vacate(s, l);
    var t := GrantNext(v, l, now, allowed);
    var j := GrantNextEffect(v, l, now, allowed);
    var q := QueueOf(s.queue, l);
    SameTrans(s, v, t, l);
    assert forall i :: 0 <= i < |q[j..]| ==> q[j..][i] == q[i + j];
    if j > 0 && Eligible(q[j - 1], l, now, allowed) {
      AssignEffect(v.(queue := t.queue), l, q[j - 1].holder, q[j - 1].reentrant,
                   EffectiveLease(v, l, q[j - 1].leaseSec), now);
    }
    assert LockOk(t, l);
    FrameInv(s, t, l);
  }

  lemma ReleaseKeepsInv(s: State, l: string, holder: string, now: int, allowed: Allowed)
    requires Inv(s)
    ensures Inv(Release(s, l, holder, now, allowed))
  {
    if CanRelease(s, l, holder) {
      var t := Release(s, l, holder, now, allowed);
      if s.locks[l].reentrant && s.locks[l].count > 1 {
        assert LockOk(s, l);
        FrameInv(s, t, l);
      } else {
        HandOverKeepsInv(s, l, now, allowed);
      }
    }
  }

  lemma AssignFreeKeepsInv(s: State, l: string, holder: string, reentrant: bool, leaseSec: int, now: int)
    requires Inv(s) && !Held(s, l)
    ensures Inv(Assign(s, l, holder, reentrant, leaseSec, now))
  {
    assert LockOk(s, l);
    AssignEffect(s, l, holder, reentrant, leaseSec, now);
    var t := Assign(s, l, holder, reentrant, leaseSec, now);
    assert LockOk(t, l);
    FrameInv(s, t, l);
  }

  /** The queue of the requested lock after a request was queued. */
  lemma EnqueueEffect(s: State, r: Request)
    requires AcquireOutcome(s, r).Queued?
    ensures var t := Acquire(s, r); var q := QueueOf(s.queue, r.lockName);
      && t == s.(queue := t.queue)
      && QueueOf(t.queue, r.lockName) == (if r.gold then [NewItem(r)] + q else q + [NewItem(r)])
      && (forall k :: k != r.lockName ==> QueueOf(t.queue, k) == QueueOf(s.queue, k))
      && (forall i :: 0 <= i < |q| ==> q[i].holder != r.holder)
  {
    var l := r.lockName;
    var q := QueueOf(s.queue, l);
    forall i | 0 <= i < |q|
      ensures q[i].holder != r.holder
    {
      QueueMember(s.queue, l, q[i]);
    }
    forall k
      ensures QueueOf(s.queue + [NewItem(r)], k) == if k == l then q + [NewItem(r)] else QueueOf(s.queue, k)
    {
      QueueAppend(s.queue, NewItem(r), k);
    }
    if r.gold {
      MoveToFrontEffect(s.queue, NewItem(r));
    }
  }

  lemma ReenterKeepsInv(s: State, l: string, n: int)
    requires Inv(s) && Held(s, l) && s.locks[l].reentrant && n >= 1
    ensures Inv(s.(locks := s.locks[l := s.locks[l].(count := n)]))
  {
    assert LockOk(s, l);
    FrameInv(s, s.(locks := s.locks[l := s.locks[l].(count := n)]), l);
  }

  lemma QueuedKeepsInv(s: State, r: Request)
    requires Inv(s) && AcquireOutcome(s, r).Queued?
    ensures Inv(Acquire(s, r))
  {
    var l := r.lockName;
    var t := Acquire(s, r);
    assert LockOk(s, l);
    EnqueueEffect(s, r);
    QueuedBehindHolder(s, r);
    hide Acquire;
    hide AcquireOutcome;
    assert LockOk(t, l);
    FrameInv(s, t, l);
  }

  /** Only a lock that somebody else holds is queued for. */
  lemma QueuedBehindHolder(s: State, r: Request)
    requires AcquireOutcome(s, r).Queued?
    ensures Held(s, r.lockName) && s.locks[r.lockName].holder != r.holder
  {
  }

  lemma AcquireKeepsInv(s: State, r: Request)
    requires Inv(s)
    ensures Inv(Acquire(s, r))
  {
    assert LockOk(s, r.lockName);
    match AcquireOutcome(s, r)
    case Acquired =>
      hide Inv;
      hide LockOk;
      AssignFreeKeepsInv(s, r.lockName, r.holder, r.reentrant, EffectiveLease(s, r.lockName, r.leaseSec), r.now);
    case Reentered(n) =>
      hide Inv;
      ReenterKeepsInv(s, r.lockName, n);
    case Queued(_) =>
      QueuedKeepsInv(s, r);
    case _ =>
  }

  lemma KeepKeepsInv(s: State, keep: WaitItem -> bool)
    requires Inv(s)
    ensures Inv(s.(queue := Keep(s.queue, keep)))
  {
    var t := s.(queue := Keep(s.queue, keep));
    forall l
      ensures LockOk(t, l)
    {
      assert LockOk(s, l);
      QueueKeep(s.queue, keep, l);
      var q, q' := QueueOf(s.queue, l), QueueOf(t.queue, l);
      KeepOrder(q, keep);
      forall i | 0 <= i < |q'|
        ensures q'[i] in q
      {
        KeepMember(q, keep, q'[i]);
      }
    }
  }

  lemma RescheduleKeepsInv(s: State, l: string, e: int)
    requires Inv(s) && Held(s, l)
    ensures Inv(Reschedule(s, l, e))
  {
    var t := Reschedule(s, l, e);
    assert LockOk(s, l);
    forall k
      ensures k != l ==> SameAt(s, t, k)
      ensures k == l ==> LockOk(t, k)
    {
      ActiveReschedule(s.leases, l, e, k);
    }
    FrameInv(s, t, l);
  }

  lemma {:induction false} TakeAllKeepsInv(s: State, names: seq<string>, holder: string, reentrant: bool,
                                           leaseSec: int, now: int)
    requires Inv(s) && NoRepeats(names) && forall l :: l in names ==> !Held(s, l)
    ensures var t := TakeAll(s, names, holder, reentrant, leaseSec, now);
      Inv(t) && forall l :: l !in names ==> Held(t, l) == Held(s, l)
  {
    if names != [] {
      var front, last := names[..|names| - 1], names[|names| - 1];
      assert names == front + [last];
      assert last !in front;
      TakeAllKeepsInv(s, front, holder, reentrant, leaseSec, now);
      AssignFreeKeepsInv(TakeAll(s, front, holder, reentrant, leaseSec, now), last, holder, reentrant, leaseSec, now);
    }
  }

  lemma {:induction false} ReleaseAllKeepsInv(s: State, names: seq<string>, holder: string, now: int, allowed: Allowed)
    requires Inv(s)
    ensures Inv(ReleaseAll(s, names, holder, now, allowed))
    decreases |names|
  {
    if names != [] {
      ReleaseKeepsInv(s, names[|names| - 1], holder, now, allowed);
      ReleaseAllKeepsInv(Release(s, names[|names| - 1], holder, now, allowed), names[..|names| - 1], holder, now,
                         allowed);
    }
  }

  lemma BatchKeepsInv(s: State, names: seq<string>, holder: string, leaseSec: int, reentrant: bool, now: int,
                      allowed: Allowed)
    requires Inv(s) && NoRepeats(names)
    ensures Inv(BatchAcquire(s, names, holder, leaseSec, reentrant, now, allowed).0)
  {
    if FirstHeld(s, names) == |names| {
      var k := FirstRefused(names, holder, allowed);
      TakeAllKeepsInv(s, names[..k], holder, reentrant, leaseSec, now);
      ReleaseAllKeepsInv(TakeAll(s, names[..k], holder, reentrant, leaseSec, now), names[..k], holder, now, allowed);
    }
  }

  lemma EmptyInv()
    ensures Inv(EMPTY)
  {
  }

  lemma RenewKeepsInv(s: State, l: string, h: string, addSec: int, now: int)
    requires Inv(s)
    ensures Inv(Renew(s, l, h, addSec, now))
  {
    assert LockOk(s, l);
    if Renew(s, l, h, addSec, now) != s {
      var lease := ActiveOf(s.leases, l)[0];
      var capped := l in s.accelerated && s.accelerated[l] > 0 &&
        lease.expiresAt + addSec * SECOND > now + s.accelerated[l] * SECOND;
      RescheduleKeepsInv(s, l, lease.expiresAt + (if capped then s.accelerated[l] else addSec) * SECOND);
    }
  }

  lemma ShortenKeepsInv(s: State, l: string, newLeaseSec: int, now: int)
    requires Inv(s)
    ensures Inv(Shorten(s, l, newLeaseSec, now))
  {
    assert LockOk(s, l);
    if Shorten(s, l, newLeaseSec, now) != s {
      var lease := ActiveOf(s.leases, l)[0];
      var wanted := now + newLeaseSec * SECOND;
      RescheduleKeepsInv(s, l, if wanted > lease.expiresAt then lease.expiresAt else wanted);
    }
  }

  lemma AccelerateKeepsInv(s: State, l: string, enabled: bool, cooldownSec: int)
    requires Inv(s)
    ensures Inv(SetAccelerated(s, l, enabled, cooldownSec))
  {
    var t := SetAccelerated(s, l, enabled, cooldownSec);
    assert LockOk(s, l);
    assert SameElsewhere(s, t, l);
    FrameInv(s, t, l);
  }

  /** Every operation, with any answers from the budget and reputation
      managers, keeps the invariant. */
  lemma StepKeepsInv(s: State, op: Op)
    requires Inv(s) && WellFormed(op)
    ensures Inv(Step(s, op))
  {
    hide Inv;
    match op
    case DoAcquire(r) => AcquireKeepsInv(s, r);
    case DoRelease(l, h, now, allowed) => ReleaseKeepsInv(s, l, h, now, allowed);
    case DoExpire(l, now, allowed) =>
      if Held(s, l) {
        HandOverKeepsInv(s, l, now, allowed);
      }
    case DoTimeouts(now) => KeepKeepsInv(s, (x: WaitItem) => x.timeoutAt >= now);
    case DoCancel(h) => KeepKeepsInv(s, (x: WaitItem) => x.holder != h);
    case DoRenew(l, h, addSec, now) => RenewKeepsInv(s, l, h, addSec, now);
    case DoShorten(l, newLeaseSec, now) => ShortenKeepsInv(s, l, newLeaseSec, now);
    case DoAccelerate(l, enabled, cooldownSec) => AccelerateKeepsInv(s, l, enabled, cooldownSec);
    case DoBatch(names, h, leaseSec, reentrant, now, allowed) =>
      BatchKeepsInv(s, names, h, leaseSec, reentrant, now, allowed);
  }

  /** The global lock invariant of every reachable state. */
  lemma {:induction false} RunKeepsInv(ops: seq<Op>)
    requires forall op :: op in ops ==> WellFormed(op)
    ensures Inv(Run(EMPTY, ops))
  {
    if ops == [] {
      EmptyInv();
    } else {
      assert ops[|ops| - 1] in ops;
      assert forall op :: op in ops[..|ops| - 1] ==> op in ops;
      RunKeepsInv(ops[..|ops| - 1]);
      StepKeepsInv(Run(EMPTY, ops[..|ops| - 1]), ops[|ops| - 1]);
    }
  }
}
