/** The lock manager's storage tables as one value, and the effect of every
    operation on it.  One step is one critical section of the manager's mutex;
    `now` is the clock reading of that step, and the answers of the budget and
    reputation managers are part of the operation. */
module LockState {
  import opened Basics
  import opened Graphs

  const WAIT_TIMEOUT_SEC := 30

  datatype Lock = Lock(held: bool, holder: string, reentrant: bool, count: int)

  datatype Lease = Lease(lockName: string, holder: string, leaseSec: int, acquiredAt: int, expiresAt: int, active: bool)

  datatype WaitItem = WaitItem(lockName: string, holder: string, reentrant: bool, leaseSec: int,
                               enqueuedAt: int, timeoutAt: int)

  /** leases and queue hold the table rows in row-id order. */
  datatype State = State(locks: map<string, Lock>, leases: seq<Lease>, queue: seq<WaitItem>,
                         timers: map<string, int>, accelerated: map<string, int>)

  /** (holder, lock) pairs the budget manager lets through during one step. */
  type Allowed = set<(string, string)>

  const EMPTY := State(map[], [], [], map[], map[])

  // ---------------------------------------------------------------- tables

  function QueueOf(q: seq<WaitItem>, l: string): seq<WaitItem>
  {
    if q == [] then []
    else if q[|q| - 1].lockName == l then QueueOf(q[..|q| - 1], l) + [q[|q| - 1]]
    else QueueOf(q[..|q| - 1], l)
  }

  function ActiveOf(leases: seq<Lease>, l: string): seq<Lease>
  {
    if leases == [] then []
    else
      var last := leases[|leases| - 1];
      if last.lockName == l && last.active then ActiveOf(leases[..|leases| - 1], l) + [last]
      else ActiveOf(leases[..|leases| - 1], l)
  }

  function Deactivate(leases: seq<Lease>, l: string): (r: seq<Lease>)
    ensures |r| == |leases|
  {
    if leases == [] then []
    else
      var last := leases[|leases| - 1];
      Deactivate(leases[..|leases| - 1], l) + [if last.lockName == l then last.(active := false) else last]
  }

  function SetExpiry(leases: seq<Lease>, l: string, expiresAt: int): (r: seq<Lease>)
    ensures |r| == |leases|
  {
    if leases == [] then []
    else
      var last := leases[|leases| - 1];
      SetExpiry(leases[..|leases| - 1], l, expiresAt) +
      [if last.lockName == l && last.active then last.(expiresAt := expiresAt) else last]
  }

  /** Position of the oldest row waiting for l; |q| when there is none. */
  function FirstFor(q: seq<WaitItem>, l: string): (r: nat)
    ensures r <= |q|
    ensures r < |q| ==> q[r].lockName == l
    ensures forall i :: 0 <= i < r ==> q[i].lockName != l
  {
    if q == [] then 0 else if q[0].lockName == l then 0 else 1 + FirstFor(q[1..], l)
  }

  function RemoveAt(q: seq<WaitItem>, i: nat): seq<WaitItem>
    requires i < |q|
  {
    q[..i] + q[i + 1..]
  }

  /** The rows that satisfy keep, in order. */
  function Keep(q: seq<WaitItem>, keep: WaitItem -> bool): seq<WaitItem>
  {
    if q == [] then []
    else if keep(q[|q| - 1]) then Keep(q[..|q| - 1], keep) + [q[|q| - 1]]
    else Keep(q[..|q| - 1], keep)
  }

  /** ReorderWaitQueueForGold: the rows of l are deleted and inserted again,
      the holder's rows first. */
  function MoveToFront(q: seq<WaitItem>, l: string, holder: string): seq<WaitItem>
  {
    var gold := Keep(QueueOf(q, l), (x: WaitItem) => x.holder == holder);
    var others := Keep(QueueOf(q, l), (x: WaitItem) => x.holder != holder);
    if gold == [] || others == [] then q
    else Keep(q, (x: WaitItem) => x.lockName != l) + gold + others
  }

  // ------------------------------------------------------------ operations

  predicate Held(s: State, l: string)
  {
    l in s.locks && s.locks[l].held
  }

  function EffectiveLease(s: State, l: string, leaseSec: int): int
  {
    if l in s.accelerated && s.accelerated[l] > 0 && leaseSec > s.accelerated[l]
    then s.accelerated[l] else leaseSec
  }

  /** The lock row, a new active lease and its timer for a new holder. */
  function Assign(s: State, l: string, holder: string, reentrant: bool, leaseSec: int, now: int): State
  {
    s.(locks := s.locks[l := Lock(true, holder, reentrant, 1)],
       leases := s.leases + [Lease(l, holder, leaseSec, now, now + leaseSec * SECOND, true)],
       timers := s.timers[l := now + leaseSec * SECOND])
  }

  /** tryGrantNextLocked: timed out and over-budget waiters are dropped, the
      first remaining one gets the lock. */
  function GrantNext(s: State, l: string, now: int, allowed: Allowed): State
    decreases |s.queue|
  {
    var i := FirstFor(s.queue, l);
    if i == |s.queue| then s
    else
      var item := s.queue[i];
      var s1 := s.(queue := RemoveAt(s.queue, i));
      if item.timeoutAt < now || (item.holder, l) !in allowed then GrantNext(s1, l, now, allowed)
      else Assign(s1, l, item.holder, item.reentrant, EffectiveLease(s1, l, item.leaseSec), now)
  }

  /** The lock, its lease and its timer given up; nobody granted yet. */
  function Vacate(s: State, l: string): State
    requires l in s.locks
  {
    s.(locks := s.locks[l := s.locks[l].(held := false, holder := "", count := 0)],
       leases := Deactivate(s.leases, l),
       timers := s.timers - {l})
  }

  predicate CanRelease(s: State, l: string, holder: string)
  {
    Held(s, l) && s.locks[l].holder == holder
  }

  /** releaseLockLocked */
  function Release(s: State, l: string, holder: string, now: int, allowed: Allowed): State
  {
    if !CanRelease(s, l, holder) then s
    else if s.locks[l].reentrant && s.locks[l].count > 1 then
      s.(locks := s.locks[l := s.locks[l].(count := s.locks[l].count - 1)])
    else GrantNext(Vacate(s, l), l, now, allowed)
  }

  /** expireLockLocked: may fire for any lock at any time. */
  function Expire(s: State, l: string, now: int, allowed: Allowed): State
  {
    if !Held(s, l) then s else GrantNext(Vacate(s, l), l, now, allowed)
  }

  /** Who waits for whom: the edges of buildWaitGraphLocked. */
  ghost function WaitEdges(s: State): set<(string, string)>
  {
    set x | x in s.queue && BlocksOn(s, x) :: (x.holder, s.locks[x.lockName].holder)
  }

  predicate BlocksOn(s: State, x: WaitItem)
  {
    Held(s, x.lockName) && s.locks[x.lockName].holder != "" && s.locks[x.lockName].holder != x.holder
  }

  predicate QueuedOn(s: State, l: string, holder: string)
  {
    exists x :: x in s.queue && x.lockName == l && x.holder == holder
  }

  /** What acquireLockLocked answers; the cycle of a deadlock is reported apart. */
  datatype Outcome =
    | BadLease | BudgetRejected | LimitRejected
    | Reentered(count: int) | AlreadyHeld
    | DeadlockFound | AlreadyQueued | Queued(position: nat) | Acquired

  datatype Request = Request(lockName: string, holder: string, leaseSec: int, reentrant: bool,
                             budgetOk: bool, limitOk: bool, gold: bool, now: int)

  ghost function AcquireOutcome(s: State, r: Request): Outcome
  {
    var l := r.lockName;
    if r.leaseSec <= 0 then BadLease
    else if !r.budgetOk then BudgetRejected
    else if !r.limitOk then LimitRejected
    else if !Held(s, l) then Acquired
    else if s.locks[l].holder == r.holder then
      if s.locks[l].reentrant && r.reentrant then Reentered(s.locks[l].count + 1) else AlreadyHeld
    else if CycleReachable(WaitEdges(s) + {(r.holder, s.locks[l].holder)}, r.holder) then DeadlockFound
    else if QueuedOn(s, l, r.holder) then AlreadyQueued
    else Queued(|QueueOf(s.queue, l)| + 1)
  }

  function NewItem(r: Request): WaitItem
  {
    WaitItem(r.lockName, r.holder, r.reentrant, r.leaseSec, r.now, r.now + WAIT_TIMEOUT_SEC * SECOND)
  }

  ghost function Acquire(s: State, r: Request): State
  {
    var l := r.lockName;
    match AcquireOutcome(s, r)
    case Acquired => Assign(s, l, r.holder, r.reentrant, EffectiveLease(s, l, r.leaseSec), r.now)
    case Reentered(n) => if l in s.locks then s.(locks := s.locks[l := s.locks[l].(count := n)]) else s
    case Queued(_) =>
      var q := s.queue + [NewItem(r)];
      s.(queue := if r.gold then MoveToFront(q, l, r.holder) else q)
    case _ => s
  }

  function CheckTimeouts(s: State, now: int): State
  {
    s.(queue := Keep(s.queue, (x: WaitItem) => x.timeoutAt >= now))
  }

  function CancelWait(s: State, holder: string): State
  {
    s.(queue := Keep(s.queue, (x: WaitItem) => x.holder != holder))
  }

  /** UpdateLeaseExpiry together with the re-armed timer. */
  function Reschedule(s: State, l: string, expiresAt: int): State
  {
    s.(leases := SetExpiry(s.leases, l, expiresAt),
       timers := s.timers[l := expiresAt])
  }

  /** RenewLease; the cap applies while the lock is in accelerated-grant mode. */
  function Renew(s: State, l: string, holder: string, addSec: int, now: int): State
  {
    var active := ActiveOf(s.leases, l);
    if active == [] then s
    else
      var lease := active[|active| - 1];
      if lease.holder != holder || lease.expiresAt < now then s
      else
        var capped := l in s.accelerated && s.accelerated[l] > 0 &&
          lease.expiresAt + addSec * SECOND > now + s.accelerated[l] * SECOND;
        var add := if capped then s.accelerated[l] else addSec;
        Reschedule(s, l, lease.expiresAt + add * SECOND)
  }

  function Shorten(s: State, l: string, newLeaseSec: int, now: int): State
  {
    var active := ActiveOf(s.leases, l);
    if active == [] || newLeaseSec <= 0 then s
    else
      var lease := active[|active| - 1];
      var wanted := now + newLeaseSec * SECOND;
      Reschedule(s, l, if wanted > lease.expiresAt then lease.expiresAt else wanted)
  }

  function SetAccelerated(s: State, l: string, enabled: bool, cooldownSec: int): State
  {
    s.(accelerated := if enabled then s.accelerated[l := cooldownSec] else s.accelerated - {l})
  }

  datatype BatchOutcome = BatchAcquired | BadBatch | HeldBy(lockName: string) | BatchBudgetRejected(lockName: string)

  /** acquireLockNoQueueLocked on free locks, in order. */
  function TakeAll(s: State, names: seq<string>, holder: string, reentrant: bool, leaseSec: int, now: int): State
  {
    if names == [] then s
    else Assign(TakeAll(s, names[..|names| - 1], holder, reentrant, leaseSec, now),
                names[|names| - 1], holder, reentrant, leaseSec, now)
  }

  /** rollbackBatchLocked: released again, last one first. */
  function ReleaseAll(s: State, names: seq<string>, holder: string, now: int, allowed: Allowed): State
    decreases |names|
  {
    if names == [] then s
    else ReleaseAll(Release(s, names[|names| - 1], holder, now, allowed), names[..|names| - 1], holder, now, allowed)
  }

  /** Position of the first lock already held; |names| when all are free. */
  function FirstHeld(s: State, names: seq<string>): (r: nat)
    ensures r <= |names|
    ensures r < |names| ==> Held(s, names[r])
    ensures forall i :: 0 <= i < r ==> !Held(s, names[i])
  {
    if names == [] then 0 else if Held(s, names[0]) then 0 else 1 + FirstHeld(s, names[1..])
  }

  function FirstRefused(names: seq<string>, holder: string, allowed: Allowed): (r: nat)
    ensures r <= |names|
    ensures r < |names| ==> (holder, names[r]) !in allowed
    ensures forall i :: 0 <= i < r ==> (holder, names[i]) in allowed
  {
    if names == [] then 0 else if (holder, names[0]) !in allowed then 0 else 1 + FirstRefused(names[1..], holder,
        allowed)
  }

  /** AcquireLocksBatch on the sorted, duplicate-free names. */
  function BatchAcquire(s: State, names: seq<string>, holder: string, leaseSec: int, reentrant: bool,
                        now: int, allowed: Allowed): (State, BatchOutcome)
  {
    var h := FirstHeld(s, names);
    if leaseSec <= 0 || names == [] then (s, BadBatch)
    else if h < |names| then (s, HeldBy(names[h]))
    else
      var k := FirstRefused(names, holder, allowed);
      var taken := TakeAll(s, names[..k], holder, reentrant, leaseSec, now);
      if k == |names| then (taken, BatchAcquired)
      else (ReleaseAll(taken, names[..k], holder, now, allowed), BatchBudgetRejected(names[k]))
  }

  // ------------------------------------------------------------------ runs

  datatype Op =
    | DoAcquire(r: Request)
    | DoRelease(lockName: string, holder: string, now: int, allowed: Allowed)
    | DoExpire(lockName: string, now: int, allowed: Allowed)
    | DoTimeouts(now: int)
    | DoCancel(holder: string)
    | DoRenew(lockName: string, holder: string, addSec: int, now: int)
    | DoShorten(lockName: string, newLeaseSec: int, now: int)
    | DoAccelerate(lockName: string, enabled: bool, cooldownSec: int)
    | DoBatch(names: seq<string>, holder: string, leaseSec: int, reentrant: bool, now: int, allowed: Allowed)

  /** The batch lists its locks once each (the manager removes duplicates). */
  predicate WellFormed(op: Op)
  {
    op.DoBatch? ==> NoRepeats(op.names)
  }

  ghost function Step(s: State, op: Op): State
  {
    match op
    case DoAcquire(r) => Acquire(s, r)
    case DoRelease(l, h, now, allowed) => Release(s, l, h, now, allowed)
    case DoExpire(l, now, allowed) => Expire(s, l, now, allowed)
    case DoTimeouts(now) => CheckTimeouts(s, now)
    case DoCancel(h) => CancelWait(s, h)
    case DoRenew(l, h, addSec, now) => Renew(s, l, h, addSec, now)
    case DoShorten(l, newLeaseSec, now) => Shorten(s, l, newLeaseSec, now)
    case DoAccelerate(l, enabled, cooldownSec) => SetAccelerated(s, l, enabled, cooldownSec)
    case DoBatch(names, h, leaseSec, reentrant, now, allowed) =>
      BatchAcquire(s, names, h, leaseSec, reentrant, now, allowed).0
  }

  ghost function Run(s: State, ops: seq<Op>): State
  {
    if ops == [] then s else Step(Run(s, ops[..|ops| - 1]), ops[|ops| - 1])
  }

  // ------------------------------------------------------------- invariant

  predicate DistinctHolders(q: seq<WaitItem>)
  {
    forall i, j :: 0 <= i < j < |q| ==> q[i].holder != q[j].holder
  }

  /** A held lock has one active lease, of its holder, a positive count and an
      armed timer, and its holder is not among its distinct waiters.  A free
      lock has no lease, no timer and no waiters (no wake-up is lost). */
  predicate LockOk(s: State, l: string)
  {
    var q := QueueOf(s.queue, l);
    var active := ActiveOf(s.leases, l);
    if Held(s, l) then
      && l in s.timers
      && |active| == 1 && active[0].holder == s.locks[l].holder
      && s.locks[l].count >= 1 && (!s.locks[l].reentrant ==> s.locks[l].count == 1)
      && DistinctHolders(q)
      && (forall i :: 0 <= i < |q| ==> q[i].holder != s.locks[l].holder)
    else
      && l !in s.timers
      && active == [] && q == []
      && (l in s.locks ==> s.locks[l].holder == "" && s.locks[l].count == 0)
  }

  ghost predicate Inv(s: State)
  {
    forall l :: LockOk(s, l)
  }
}
