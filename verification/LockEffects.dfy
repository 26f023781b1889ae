/** What each operation of the lock manager does, told row by row from the tables
    before it. */
module LockEffects {
  import opened Basics
  import opened Rows
  import opened LockState
  import opened LockTables
  import opened LockInvariant

  /** d is the lease a request for `wanted` seconds gets: all of it, or the
      cooldown of an accelerated lock if that is less. */
  predicate LeaseGiven(s: State, l: string, wanted: int, d: int)
  {
    var capped := l in s.accelerated && s.accelerated[l] > 0;
    && d <= wanted && (capped ==> d <= s.accelerated[l])
    && (d == wanted || (capped && d == s.accelerated[l]))
  }

  /** holder has l once, under one active lease of d seconds from now and its timer. */
  predicate HoldsFrom(t: State, l: string, holder: string, reentrant: bool, d: int, now: int)
  {
    && l in t.locks && t.locks[l] == Lock(true, holder, reentrant, 1)
    && ActiveOf(t.leases, l) == [Lease(l, holder, d, now, now + d * SECOND, true)]
    && l in t.timers && t.timers[l] == now + d * SECOND
  }

  predicate Free(t: State, l: string)
  {
    !Held(t, l) && ActiveOf(t.leases, l) == [] && l !in t.timers && QueueOf(t.queue, l) == []
  }

  /** The lease rows of l are switched off, the others are as before. */
  predicate LeasesEnded(before: seq<Lease>, after: seq<Lease>, l: string)
  {
    |before| <= |after| && forall i :: 0 <= i < |before| ==> (
      after[i] == if before[i].lockName == l then before[i].(active := false) else before[i])
  }

  /** The j-th waiter is the first whose time is not over and whose budget allows
      the lock; none is when j is the length of the queue. */
  predicate FirstServed(q: seq<WaitItem>, l: string, now: int, allowed: Allowed, j: nat)
  {
    && j <= |q| && (j < |q| ==> now <= q[j].timeoutAt && (q[j].holder, l) in allowed)
    && forall i :: 0 <= i < j ==> q[i].timeoutAt < now || (q[i].holder, l) !in allowed
  }

  /** l was given up at now: its leases ended, the first waiter to be served has it
      and those behind that one keep waiting, or l is free and nobody waits. */
  ghost predicate HandedOn(s: State, t: State, l: string, now: int, allowed: Allowed)
  {
    var q := QueueOf(s.queue, l);
    var j := FirstEligible(q, l, now, allowed);
    && FirstServed(q, l, now, allowed, j)
    && SameElsewhere(s, t, l) && t.accelerated == s.accelerated && LeasesEnded(s.leases, t.leases, l)
    && if j < |q| then
         && |t.leases| == |s.leases| + 1 && QueueOf(t.queue, l) == q[j + 1..]
         && var d := t.leases[|s.leases|].leaseSec;
            LeaseGiven(s, l, q[j].leaseSec, d) && HoldsFrom(t, l, q[j].holder, q[j].reentrant, d, now)
       else |t.leases| == |s.leases| && Free(t, l)
  }

  lemma {:induction false} DeactivateRows(leases: seq<Lease>, l: string)
    ensures LeasesEnded(leases, Deactivate(leases, l), l)
  {
    if leases != [] {
      DeactivateRows(leases[..|leases| - 1], l);
    }
  }

  lemma AssignHolds(s: State, l: string, holder: string, reentrant: bool, d: int, now: int)
    requires ActiveOf(s.leases, l) == []
    ensures var t := Assign(s, l, holder, reentrant, d, now);
      && SameElsewhere(s, t, l) && HoldsFrom(t, l, holder, reentrant, d, now)
      && t.queue == s.queue && t.accelerated == s.accelerated
      && t.leases == s.leases + [Lease(l, holder, d, now, now + d * SECOND, true)]
  {
    AssignEffect(s, l, holder, reentrant, d, now);
    ActiveAppend(s.leases, Lease(l, holder, d, now, now + d * SECOND, true), l);
  }

  /** l is given up in v, and nobody has it yet. */
  ghost predicate GivenUp(s: State, v: State, l: string)
  {
    && SameElsewhere(s, v, l) && v.queue == s.queue && v.accelerated == s.accelerated
    && ActiveOf(v.leases, l) == [] && !Held(v, l) && l !in v.timers
    && |v.leases| == |s.leases| && LeasesEnded(s.leases, v.leases, l)
  }

  lemma GrantedTo(s: State, v: State, t: State, l: string, now: int, allowed: Allowed, j: nat)
    requires GivenUp(s, v, l) && Granted(v, t, l, now, allowed, j) && SameElsewhere(v, t, l)
    requires j > 0 && Eligible(QueueOf(s.queue, l)[j - 1], l, now, allowed)
    ensures HandedOn(s, t, l, now, allowed)
  {
    var q := QueueOf(s.queue, l);
    SameTrans(s, v, t, l);
    var d := EffectiveLease(v, l, q[j - 1].leaseSec);
    assert FirstEligible(q, l, now, allowed) == j - 1;
    assert LeaseGiven(s, l, q[j - 1].leaseSec, d);
    hide SameElsewhere;
    hide Eligible;
    hide FirstEligible;
    AssignHolds(v.(queue := t.queue), l, q[j - 1].holder, q[j - 1].reentrant, d, now);
    hide Assign;
  }

  lemma GrantedToNobody(s: State, v: State, t: State, l: string, now: int, allowed: Allowed, j: nat)
    requires GivenUp(s, v, l) && Granted(v, t, l, now, allowed, j) && SameElsewhere(v, t, l)
    requires j == 0 || !Eligible(QueueOf(s.queue, l)[j - 1], l, now, allowed)
    ensures HandedOn(s, t, l, now, allowed)
  {
    SameTrans(s, v, t, l);
    assert FirstEligible(QueueOf(s.queue, l), l, now, allowed) == |QueueOf(s.queue, l)|;
    hide SameElsewhere;
  }

  lemma HandOverEffect(s: State, l: string, now: int, allowed: Allowed)
    requires Held(s, l)
    ensures HandedOn(s, GrantNext(Vacate(s, l), l, now, allowed), l, now, allowed)
  {
    var v := Vacate(s, l);
    var t := GrantNext(v, l, now, allowed);
    VacateEffect(s, l);
    DeactivateRows(s.leases, l);
    var j := GrantNextEffect(v, l, now, allowed);
    assert GivenUp(s, v, l);
    hide Vacate;
    hide GrantNext;
    hide SameElsewhere;
    if j > 0 && Eligible(QueueOf(s.queue, l)[j - 1], l, now, allowed) {
      GrantedTo(s, v, t, l, now, allowed, j);
    } else {
      GrantedToNobody(s, v, t, l, now, allowed, j);
    }
  }

  /** An expiry takes a held lock from its holder, whoever that is and however
      often it was taken, and hands it on; a free lock stays as it is. */
  ghost predicate Expired(s: State, t: State, l: string, now: int, allowed: Allowed)
  {
    if Held(s, l) then HandedOn(s, t, l, now, allowed) else t == s
  }

  lemma ExpireEffect(s: State, l: string, now: int, allowed: Allowed)
    ensures Expired(s, Step(s, DoExpire(l, now, allowed)), l, now, allowed)
  {
    if Held(s, l) {
      HandOverEffect(s, l, now, allowed);
    }
  }

  /** A release by the holder gives back one count, and with the last one hands
      the lock on; any other release changes nothing. */
  ghost predicate Released(s: State, t: State, l: string, holder: string, now: int, allowed: Allowed)
  {
    if !Held(s, l) || s.locks[l].holder != holder then t == s
    else if s.locks[l].count > 1 then t == s.(locks := s.locks[l := s.locks[l].(count := s.locks[l].count - 1)])
    else HandedOn(s, t, l, now, allowed)
  }

  lemma ReleaseEffect(s: State, l: string, holder: string, now: int, allowed: Allowed)
    requires Inv(s)
    ensures Released(s, Step(s, DoRelease(l, holder, now, allowed)), l, holder, now, allowed)
  {
    assert LockOk(s, l);
    if Held(s, l) && s.locks[l].holder == holder && s.locks[l].count <= 1 {
      HandOverEffect(s, l, now, allowed);
    }
  }

  // ---------------------------------------------------------------- acquires

  /** Which answer an acquire gets. */
  lemma AcquireAnswers(s: State, r: Request)
    ensures var a := AcquireOutcome(s, r);
      var fine := r.leaseSec > 0 && r.budgetOk && r.limitOk;
      var busy := Held(s, r.lockName) && s.locks[r.lockName].holder != r.holder;
      var mine := Held(s, r.lockName) && s.locks[r.lockName].holder == r.holder;
      && (a == BadLease <==> r.leaseSec <= 0)
      && (a == BudgetRejected <==> r.leaseSec > 0 && !r.budgetOk)
      && (a == LimitRejected <==> r.leaseSec > 0 && r.budgetOk && !r.limitOk)
      && (a == Acquired <==> fine && !Held(s, r.lockName))
      && (a.Reentered? <==> fine && mine && s.locks[r.lockName].reentrant && r.reentrant)
      && (a == AlreadyHeld <==> fine && mine && !(s.locks[r.lockName].reentrant && r.reentrant))
      && (a == DeadlockFound ==> fine && busy)
      && (a == AlreadyQueued ==>
            fine && busy && exists x :: x in s.queue && x.lockName == r.lockName && x.holder == r.holder)
      && (a.Queued? ==> fine && busy && forall x :: x in s.queue && x.lockName == r.lockName ==> x.holder != r.holder)
  {
    assert AcquireOutcome(s, r) == AlreadyQueued ==> QueuedOn(s, r.lockName, r.holder);
  }

  /** A free lock is the requester's from now on. */
  lemma AcquiredEffect(s: State, r: Request)
    requires Inv(s) && AcquireOutcome(s, r) == Acquired
    ensures var t := Step(s, DoAcquire(r)); var l := r.lockName;
      && SameElsewhere(s, t, l) && t.queue == s.queue && t.accelerated == s.accelerated
      && |t.leases| == |s.leases| + 1 && t.leases[..|s.leases|] == s.leases
      && var d := t.leases[|s.leases|].leaseSec;
         LeaseGiven(s, l, r.leaseSec, d) && HoldsFrom(t, l, r.holder, r.reentrant, d, r.now)
  {
    var l := r.lockName;
    assert LockOk(s, l);
    hide Inv;
    hide AcquireOutcome;
    AssignHolds(s, l, r.holder, r.reentrant, EffectiveLease(s, l, r.leaseSec), r.now);
    hide SameElsewhere;
  }

  /** Or the requester gets one more row in the queue, which times out after
      thirty seconds; or one more count; or nothing changes. */
  lemma WaitingEffect(s: State, r: Request)
    requires AcquireOutcome(s, r) != Acquired
    ensures var t := Step(s, DoAcquire(r)); var l := r.lockName; var q := QueueOf(s.queue, l);
      match AcquireOutcome(s, r)
      case Reentered(n) =>
        l in s.locks && n == s.locks[l].count + 1 && t == s.(locks := s.locks[l := s.locks[l].(count := n)])
      case Queued(n) =>
        var row := WaitItem(l, r.holder, r.reentrant, r.leaseSec, r.now, r.now + 30 * SECOND);
        && n == |q| + 1 && t == s.(queue := t.queue)
        && QueueOf(t.queue, l) == (if r.gold then [row] + q else q + [row])
        && forall k :: k != l ==> QueueOf(t.queue, k) == QueueOf(s.queue, k)
      case _ => t == s
  {
    if AcquireOutcome(s, r).Queued? {
      EnqueueEffect(s, r);
      assert AcquireOutcome(s, r) == Queued(|QueueOf(s.queue, r.lockName)| + 1);
      hide Acquire;
      hide AcquireOutcome;
    }
  }

  // -------------------------------------------------------------- wait rows

  lemma {:induction false} KeepRows(q: seq<WaitItem>, keep: WaitItem -> bool) returns (at: seq<nat>)
    ensures RowsAt(q, at, Keep(q, keep)) && Chosen(q, at, keep)
  {
    if q == [] {
      at := [];
    } else {
      var front := q[..|q| - 1];
      at := KeepRows(front, keep);
      RowsNext(q, at, Keep(front, keep));
      ChosenNext(q, at, keep);
      hide RowsAt;
      hide Chosen;
      if keep(q[|q| - 1]) {
        at := at + [|q| - 1];
      }
    }
  }

  /** The timeout check removes exactly the rows whose time is over. */
  lemma TimeoutsEffect(s: State, now: int) returns (at: seq<nat>)
    ensures var t := Step(s, DoTimeouts(now));
      && t == s.(queue := t.queue) && RowsAt(s.queue, at, t.queue)
      && forall i :: 0 <= i < |s.queue| ==> (i in at <==> s.queue[i].timeoutAt >= now)
  {
    at := KeepRows(s.queue, (x: WaitItem) => x.timeoutAt >= now);
  }

  /** A cancelled wait removes exactly the holder's rows. */
  lemma CancelEffect(s: State, holder: string) returns (at: seq<nat>)
    ensures var t := Step(s, DoCancel(holder));
      && t == s.(queue := t.queue) && RowsAt(s.queue, at, t.queue)
      && forall i :: 0 <= i < |s.queue| ==> (i in at <==> s.queue[i].holder != holder)
  {
    at := KeepRows(s.queue, (x: WaitItem) => x.holder != holder);
  }

  // ------------------------------------------------------------------ leases

  /** The active lease of l ends at e, and its timer fires then; every other lease
      row and timer is as before. */
  predicate LeaseMoved(s: State, t: State, l: string, e: int)
  {
    && t == s.(leases := t.leases, timers := s.timers[l := e]) && |t.leases| == |s.leases|
    && forall i :: 0 <= i < |s.leases| ==> (
      t.leases[i] ==
      if s.leases[i].lockName == l && s.leases[i].active then s.leases[i].(expiresAt := e) else s.leases[i])
  }

  lemma {:induction false} RescheduleRows(leases: seq<Lease>, l: string, e: int)
    ensures forall i :: 0 <= i < |leases| ==> (
      SetExpiry(leases, l, e)[i] ==
      if leases[i].lockName == l && leases[i].active then leases[i].(expiresAt := e) else leases[i])
  {
    if leases != [] {
      RescheduleRows(leases[..|leases| - 1], l, e);
    }
  }

  /** When a renewal in accelerated mode gets the cooldown only. */
  predicate Slowed(s: State, l: string, wanted: int, now: int)
  {
    l in s.accelerated && 0 < s.accelerated[l] && now + s.accelerated[l] * SECOND < wanted
  }

  lemma RenewLive(s: State, l: string, holder: string, addSec: int, now: int)
    requires |ActiveOf(s.leases, l)| == 1
    ensures var t := Renew(s, l, holder, addSec, now); var lease := ActiveOf(s.leases, l)[0];
      if lease.holder == holder && lease.expiresAt >= now then
        var wanted := lease.expiresAt + addSec * SECOND;
        if Slowed(s, l, wanted, now) then LeaseMoved(s, t, l, lease.expiresAt + s.accelerated[l] * SECOND)
        else LeaseMoved(s, t, l, wanted)
      else t == s
  {
    var e := ActiveOf(s.leases, l)[0].expiresAt;
    RescheduleRows(s.leases, l, e + addSec * SECOND);
    if Slowed(s, l, e + addSec * SECOND, now) {
      RescheduleRows(s.leases, l, e + s.accelerated[l] * SECOND);
    }
    hide ActiveOf;
    hide SetExpiry;
  }

  /** A renewal by the holder of a live lease adds the seconds to its expiry, or
      the cooldown when they would pass it in accelerated mode. */
  lemma RenewEffect(s: State, l: string, holder: string, addSec: int, now: int)
    requires Inv(s)
    ensures var t := Step(s, DoRenew(l, holder, addSec, now)); var active := ActiveOf(s.leases, l);
      if Held(s, l) && s.locks[l].holder == holder && |active| == 1 && active[0].expiresAt >= now then
        var wanted := active[0].expiresAt + addSec * SECOND;
        if Slowed(s, l, wanted, now) then LeaseMoved(s, t, l, active[0].expiresAt + s.accelerated[l] * SECOND)
        else LeaseMoved(s, t, l, wanted)
      else t == s
  {
    assert LockOk(s, l);
    hide LeaseMoved;
    hide Inv;
    if Held(s, l) {
      hide Slowed;
      RenewLive(s, l, holder, addSec, now);
      hide Renew;
    }
  }

  /** Shortening moves the expiry of a held lock to the earlier of the two. */
  lemma ShortenEffect(s: State, l: string, newLeaseSec: int, now: int)
    requires Inv(s)
    ensures var t := Step(s, DoShorten(l, newLeaseSec, now)); var active := ActiveOf(s.leases, l);
      if Held(s, l) && |active| == 1 && newLeaseSec > 0 then
        var e, wanted := active[0].expiresAt, now + newLeaseSec * SECOND;
        LeaseMoved(s, t, l, if wanted <= e then wanted else e)
      else t == s
  {
    assert LockOk(s, l);
    if Held(s, l) && newLeaseSec > 0 {
      var e, wanted := ActiveOf(s.leases, l)[0].expiresAt, now + newLeaseSec * SECOND;
      RescheduleRows(s.leases, l, if wanted > e then e else wanted);
    }
  }
}
