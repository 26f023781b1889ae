/** The lock manager as the source writes it: an object whose methods update
    the tables in place.  Every method is proved against the step functions of
    LockState, so the run theorems (invariant, acyclicity, order, batches) are
    theorems about this object. */
module LockManager {
  import opened Basics
  import opened DeadlockDetector
  import opened LockState
  import opened LockEffects
  import opened LockTables

  /** The tables show waiter queued for lockName while holder holds it. */
  ghost predicate GenuineWait(s: State, waiter: string, lockName: string, holder: string)
  {
    exists x :: x in s.queue && x.holder == waiter && x.lockName == lockName && BlocksOn(s, x) &&
                s.locks[lockName].holder == holder
  }

  ghost predicate GenuineLabels(s: State, adj: Adjacency)
  {
    forall w, h :: w in adj && h in adj[w] ==> GenuineWait(s, w, adj[w][h], h)
  }

  datatype ReleaseResult =
    | LockNotFound | NotHeld | NotTheHolder(current: string)
    | CountedDown(count: int) | Freed(granted: Grantee)

  datatype Grantee = Nobody | Granted(holder: string)

  function GranteeOf(s: State, l: string): Grantee
  {
    if Held(s, l) then Granted(s.locks[l].holder) else Nobody
  }

  class LockManager {
    var locks: map<string, Lock>
    var leases: seq<Lease>
    var queue: seq<WaitItem>
    var timers: map<string, int>
    var accelerated: map<string, int>

    ghost function S(): State
      reads this
    {
      State(locks, leases, queue, timers, accelerated)
    }

    constructor ()
      ensures S() == EMPTY
    {
      locks, leases, queue, timers, accelerated := map[], [], [], map[], map[];
    }

    /** buildWaitGraphLocked: the adjacency map of the wait-for edges. */
    method BuildWaitGraph() returns (adj: Adjacency)
      ensures EdgesOf(adj) == WaitEdges(S())
      ensures GenuineLabels(S(), adj)
    {
      var lockHolder := map l | l in locks && locks[l].held :: locks[l].holder;
      adj := map[];
      var i := 0;
      while i < |queue|
        invariant 0 <= i <= |queue|
        invariant EdgesOf(adj) == set x | x in queue[..i] && BlocksOn(S(), x) :: (x.holder, locks[x.lockName].holder)
        invariant GenuineLabels(S(), adj)
      {
        var item := queue[i];
        assert queue[..i + 1] == queue[..i] + [item];
        if item.lockName in lockHolder && lockHolder[item.lockName] != "" && lockHolder[item.lockName] != item.holder {
          var holder := lockHolder[item.lockName];
          AddWaitEdges(adj, item.holder, item.lockName, holder);
          AddGenuine(S(), adj, item);
          adj := AddWait(adj, item.holder, item.lockName, holder);
        }
        i := i + 1;
      }
      assert queue[..|queue|] == queue;
    }

    /** acquireLockLocked, answered with the deadlock cycle where one is found. */
    method AcquireLock(r: Request) returns (outcome: Outcome, cycle: seq<WaitEdge>)
      modifies this
      ensures outcome == AcquireOutcome(old(S()), r)
      ensures S() == Acquire(old(S()), r)
      ensures outcome == DeadlockFound <==> cycle != []
      ensures cycle != [] ==> ClosedChain(cycle) && forall e :: e in cycle ==>
        || GenuineWait(S(), e.waiter, e.lockName, e.holder)
        || (e == WaitEdge(r.holder, r.lockName, locks[r.lockName].holder))
    {
      cycle := [];
      var l := r.lockName;
      if r.leaseSec <= 0 {
        return BadLease, [];
      }
      if !r.budgetOk {
        return BudgetRejected, [];
      }
      if !r.limitOk {
        return LimitRejected, [];
      }
      var lock := if l in locks then locks[l] else Lock(false, "", r.reentrant, 0);
      if lock.held {
        if lock.holder == r.holder {
          if lock.reentrant && r.reentrant {
            lock := lock.(count := lock.count + 1);
            locks := locks[l := lock];
            return Reentered(lock.count), [];
          }
          return AlreadyHeld, [];
        }
        outcome, cycle := WaitFor(r);
        return;
      }
      var leaseSec := r.leaseSec;
      if l in accelerated && accelerated[l] > 0 {
        if leaseSec > accelerated[l] {
          leaseSec := accelerated[l];
        }
      }
      AssignLock(l, r.holder, r.reentrant, leaseSec, r.now);
      return Acquired, [];
    }

    /** The part of the acquire for a lock that another holder has: no wait that
        closes a cycle, no second row, gold in front. */
    method WaitFor(r: Request) returns (outcome: Outcome, cycle: seq<WaitEdge>)
      requires r.leaseSec > 0 && r.budgetOk && r.limitOk
      requires Held(S(), r.lockName) && locks[r.lockName].holder != r.holder
      modifies this`queue
      ensures outcome == AcquireOutcome(old(S()), r)
      ensures S() == Acquire(old(S()), r)
      ensures outcome == DeadlockFound <==> cycle != []
      ensures cycle != [] ==> ClosedChain(cycle) && forall e :: e in cycle ==>
        || GenuineWait(S(), e.waiter, e.lockName, e.holder)
        || (e == WaitEdge(r.holder, r.lockName, locks[r.lockName].holder))
    {
      var l := r.lockName;
      var adj := BuildWaitGraph();
      cycle := CheckDeadlock(adj, r.holder, l, locks[l].holder);
      if cycle != [] {
        GenuineCycle(S(), adj, r.holder, l, locks[l].holder, cycle);
        return DeadlockFound, cycle;
      }
      var waiting := QueueOf(queue, l);
      var i := 0;
      while i < |waiting|
        invariant 0 <= i <= |waiting|
        invariant forall k :: 0 <= k < i ==> waiting[k].holder != r.holder
      {
        if waiting[i].holder == r.holder {
          QueueMember(queue, l, waiting[i]);
          return AlreadyQueued, [];
        }
        i := i + 1;
      }
      NotQueued(S(), l, r.holder);
      queue := queue + [NewItem(r)];
      if r.gold {
        queue := MoveToFront(queue, l, r.holder);
      }
      return Queued(|waiting| + 1), [];
    }

    /** The lock row, lease and timer written for a new holder. */
    method AssignLock(l: string, holder: string, reentrant: bool, leaseSec: int, now: int)
      modifies this
      ensures S() == Assign(old(S()), l, holder, reentrant, leaseSec, now)
    {
      locks := locks[l := Lock(true, holder, reentrant, 1)];
      leases := leases + [Lease(l, holder, leaseSec, now, now + leaseSec * SECOND, true)];
      timers := timers[l := now + leaseSec * SECOND];
    }

    method TryGrantNext(l: string, now: int, allowed: Allowed) returns (granted: Grantee)
      requires !Held(S(), l)
      modifies this
      ensures S() == GrantNext(old(S()), l, now, allowed)
      ensures granted == GranteeOf(S(), l)
      decreases |queue|
    {
      var i := FirstFor(queue, l);
      if i == |queue| {
        return Nobody;
      }
      var item := queue[i];
      queue := RemoveAt(queue, i);
      if item.timeoutAt < now {
        granted := TryGrantNext(l, now, allowed);
        return;
      }
      if (item.holder, l) !in allowed {
        granted := TryGrantNext(l, now, allowed);
        return;
      }
      var leaseSec := item.leaseSec;
      if l in accelerated && accelerated[l] > 0 && leaseSec > accelerated[l] {
        leaseSec := accelerated[l];
      }
      AssignLock(l, item.holder, item.reentrant, leaseSec, now);
      granted := Granted(item.holder);
    }

    /** Timer stopped, lease deactivated, lock row freed. */
    method VacateLock(l: string)
      requires l in locks
      modifies this
      ensures S() == Vacate(old(S()), l)
    {
      timers := timers - {l};
      leases := Deactivate(leases, l);
      locks := locks[l := locks[l].(held := false, holder := "", count := 0)];
    }

    method ReleaseLock(l: string, holder: string, now: int, allowed: Allowed) returns (result: ReleaseResult)
      modifies this
      ensures S() == Release(old(S()), l, holder, now, allowed)
      ensures result == LockNotFound <==> l !in old(locks)
      ensures result == NotHeld <==> l in old(locks) && !old(locks)[l].held
      ensures (result.CountedDown? || result.Freed?) <==> CanRelease(old(S()), l, holder)
      ensures result.NotTheHolder? ==> result.current == old(locks)[l].holder
      ensures result.CountedDown? ==> l in locks && result.count == locks[l].count
      ensures result.Freed? ==> result.granted == GranteeOf(S(), l)
      ensures old(Inv(S())) ==> Released(old(S()), S(), l, holder, now, allowed)
    {
      if Inv(S()) {
        ReleaseEffect(S(), l, holder, now, allowed);
      }
      hide Inv;
      hide HandedOn;
      if l !in locks {
        return LockNotFound;
      }
      var lock := locks[l];
      if !lock.held {
        return NotHeld;
      }
      if lock.holder != holder {
        return NotTheHolder(lock.holder);
      }
      if lock.reentrant && lock.count > 1 {
        lock := lock.(count := lock.count - 1);
        locks := locks[l := lock];
        return CountedDown(lock.count);
      }
      VacateLock(l);
      var granted := TryGrantNext(l, now, allowed);
      return Freed(granted);
    }

    method ExpireLock(l: string, now: int, allowed: Allowed)
      modifies this
      ensures S() == Expire(old(S()), l, now, allowed)
      ensures Expired(old(S()), S(), l, now, allowed)
    {
      ExpireEffect(S(), l, now, allowed);
      hide HandedOn;
      if l !in locks || !locks[l].held {
        return;
      }
      VacateLock(l);
      var _ := TryGrantNext(l, now, allowed);
    }

    method CheckWaitQueueTimeouts(now: int)
      modifies this
      ensures S() == CheckTimeouts(old(S()), now)
    {
      var _ := RemoveRows((x: WaitItem) => x.timeoutAt >= now);
    }

    method CancelWaitForHolder(holder: string) returns (count: nat)
      modifies this
      ensures S() == CancelWait(old(S()), holder)
      ensures count == |old(queue)| - |queue|
    {
      count := RemoveRows((x: WaitItem) => x.holder != holder);
    }

    /** The loop of both: the rows not to keep are deleted one by one. */
    method RemoveRows(keep: WaitItem -> bool) returns (count: nat)
      modifies this`queue
      ensures queue == Keep(old(queue), keep) && count == |old(queue)| - |queue|
    {
      var items := queue;
      var i := 0;
      var kept := 0;
      count := 0;
      SweepEnds(items, keep);
      hide Swept;
      hide Keep;
      while i < |items|
        invariant 0 <= i <= |items|
        invariant kept == |Keep(items[..i], keep)| && count == i - kept
        invariant queue == Swept(items, i, keep) && |queue| == |items| - count
      {
        SweepRow(items, i, keep);
        if keep(items[i]) {
          kept := kept + 1;
        } else {
          queue := RemoveAt(queue, kept);
          count := count + 1;
        }
        i := i + 1;
      }
    }

    method UpdateLeaseExpiry(l: string, expiresAt: int)
      modifies this
      ensures S() == Reschedule(old(S()), l, expiresAt)
    {
      leases := SetExpiry(leases, l, expiresAt);
      timers := timers[l := expiresAt];
    }

    /** renewed is false where the source answers with an error. */
    method RenewLease(l: string, holder: string, addSec: int, now: int) returns (renewed: bool)
      modifies this
      ensures S() == Renew(old(S()), l, holder, addSec, now)
      ensures renewed <==> var active := ActiveOf(old(leases), l);
        active != [] && active[|active| - 1].holder == holder && active[|active| - 1].expiresAt >= now
    {
      var active := ActiveOf(leases, l);
      if active == [] {
        return false;
      }
      var lease := active[|active| - 1];
      if lease.holder != holder || lease.expiresAt < now {
        return false;
      }
      var add := addSec;
      if l in accelerated && accelerated[l] > 0 {
        var maxExpiry := now + accelerated[l] * SECOND;
        if lease.expiresAt + addSec * SECOND > maxExpiry {
          add := (maxExpiry - now) / SECOND;
        }
      }
      UpdateLeaseExpiry(l, lease.expiresAt + add * SECOND);
      return true;
    }

    method ShortenLease(l: string, newLeaseSec: int, now: int) returns (shortened: bool)
      modifies this
      ensures S() == Shorten(old(S()), l, newLeaseSec, now)
      ensures shortened <==> ActiveOf(old(leases), l) != [] && newLeaseSec > 0
    {
      var active := ActiveOf(leases, l);
      if active == [] || newLeaseSec <= 0 {
        return false;
      }
      var lease := active[|active| - 1];
      var newExpiry := now + newLeaseSec * SECOND;
      if newExpiry > lease.expiresAt {
        newExpiry := lease.expiresAt;
      }
      UpdateLeaseExpiry(l, newExpiry);
      return true;
    }

    method SetAcceleratedGrant(l: string, enabled: bool, cooldownSec: int)
      modifies this
      ensures S() == SetAccelerated(old(S()), l, enabled, cooldownSec)
      ensures forall k :: k != l ==> (k in accelerated <==> k in old(accelerated))
      ensures forall k :: k in accelerated ==>
        accelerated[k] == if k == l then cooldownSec else old(accelerated)[k]
      ensures l in accelerated <==> enabled
      ensures S() == old(S()).(accelerated := accelerated)
    {
      if enabled {
        accelerated := accelerated[l := cooldownSec];
      } else {
        accelerated := accelerated - {l};
      }
    }

    /** AcquireLocksBatch on the sorted, duplicate-free names. */
    method AcquireLocksBatch(names: seq<string>, holder: string, leaseSec: int, reentrant: bool,
                             now: int, allowed: Allowed) returns (outcome: BatchOutcome)
      requires NoRepeats(names)
      modifies this
      ensures (S(), outcome) == BatchAcquire(old(S()), names, holder, leaseSec, reentrant, now, allowed)
    {
      if leaseSec <= 0 || names == [] {
        return BadBatch;
      }
      var i := 0;
      while i < |names|
        invariant 0 <= i <= |names|
        invariant forall k :: 0 <= k < i ==> !Held(S(), names[k])
      {
        if names[i] in locks && locks[names[i]].held {
          return HeldBy(names[i]);
        }
        i := i + 1;
      }
      var taken := TakeBatch(names, holder, leaseSec, reentrant, now, allowed);
      if taken < |names| {
        RollbackBatch(names[..taken], holder, now, allowed);
        return BatchBudgetRejected(names[taken]);
      }
      assert names[..taken] == names;
      return BatchAcquired;
    }

    /** Takes the locks in order up to the first one over budget. */
    method TakeBatch(names: seq<string>, holder: string, leaseSec: int, reentrant: bool,
                     now: int, allowed: Allowed) returns (taken: nat)
      modifies this
      ensures taken == FirstRefused(names, holder, allowed)
      ensures S() == TakeAll(old(S()), names[..taken], holder, reentrant, leaseSec, now)
    {
      taken := 0;
      while taken < |names|
        invariant 0 <= taken <= |names|
        invariant S() == TakeAll(old(S()), names[..taken], holder, reentrant, leaseSec, now)
        invariant forall k :: 0 <= k < taken ==> (holder, names[k]) in allowed
      {
        if (holder, names[taken]) !in allowed {
          return;
        }
        assert names[..taken + 1][..taken] == names[..taken];
        AssignLock(names[taken], holder, reentrant, leaseSec, now);
        taken := taken + 1;
      }
    }

    method RollbackBatch(taken: seq<string>, holder: string, now: int, allowed: Allowed)
      modifies this
      ensures S() == ReleaseAll(old(S()), taken, holder, now, allowed)
    {
      var i := |taken|;
      assert taken[..i] == taken;
      while i > 0
        invariant 0 <= i <= |taken|
        invariant ReleaseAll(S(), taken[..i], holder, now, allowed) == ReleaseAll(old(S()), taken, holder, now, allowed)
      {
        assert taken[..i][..i - 1] == taken[..i - 1];
        i := i - 1;
        var _ := ReleaseLock(taken[i], holder, now, allowed);
      }
    }
  }

  /** The queue after a sweep over its first i rows. */
  ghost function Swept(items: seq<WaitItem>, i: nat, keep: WaitItem -> bool): seq<WaitItem>
    requires i <= |items|
  {
    Keep(items[..i], keep) + items[i..]
  }

  lemma SweepEnds(items: seq<WaitItem>, keep: WaitItem -> bool)
    ensures Keep(items[..0], keep) == [] && Swept(items, 0, keep) == items
    ensures items[..|items|] == items && Swept(items, |items|, keep) == Keep(items, keep)
  {
    assert items[..|items|] == items;
  }

  /** Sweeping over row i keeps it in place or removes it behind the kept rows. */
  lemma SweepRow(items: seq<WaitItem>, i: nat, keep: WaitItem -> bool)
    requires i < |items|
    ensures var n := |Keep(items[..i], keep)|; var q := Swept(items, i, keep);
      && n < |q|
      && if keep(items[i]) then
           |Keep(items[..i + 1], keep)| == n + 1 && Swept(items, i + 1, keep) == q
         else
           |Keep(items[..i + 1], keep)| == n && Swept(items, i + 1, keep) == RemoveAt(q, n)
  {
    assert items[..i + 1] == items[..i] + [items[i]];
    KeepAppend(items[..i], items[i], keep);
    assert items[i..] == [items[i]] + items[i + 1..];
  }

  lemma NotQueued(s: State, l: string, h: string)
    requires forall k :: 0 <= k < |QueueOf(s.queue, l)| ==> QueueOf(s.queue, l)[k].holder != h
    ensures !QueuedOn(s, l, h)
  {
    forall x | x in s.queue && x.lockName == l
      ensures x.holder != h
    {
      QueueMember(s.queue, l, x);
    }
  }

  lemma AddGenuine(s: State, adj: Adjacency, x: WaitItem)
    requires GenuineLabels(s, adj) && x in s.queue && BlocksOn(s, x)
    ensures GenuineLabels(s, AddWait(adj, x.holder, x.lockName, s.locks[x.lockName].holder))
  {
  }

  lemma GenuineCycle(s: State, adj: Adjacency, waiter: string, l: string, holder: string, cycle: seq<WaitEdge>)
    requires GenuineLabels(s, adj) && LabelledBy(cycle, AddWait(adj, waiter, l, holder))
    ensures forall e :: e in cycle ==>
      GenuineWait(s, e.waiter, e.lockName, e.holder) || e == WaitEdge(waiter, l, holder)
  {
  }
}
