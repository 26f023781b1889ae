/** The lock phase of an orchestration transaction: locks acquired in order,
    released last one first when an acquire does not succeed. */
module TxLocks {
  import opened Basics
  import opened LockState
  import opened LockTables
  import opened LockInvariant
  import opened LockBatch

  /** A requested lock with the answers the budget and reputation managers give. */
  datatype LockSpec = LockSpec(lockName: string, leaseSec: int, budgetOk: bool, limitOk: bool, gold: bool)

  function RequestOf(x: LockSpec, holder: string, now: int): Request
  {
    Request(x.lockName, holder, x.leaseSec, false, x.budgetOk, x.limitOk, x.gold, now)
  }

  function Names(specs: seq<LockSpec>): (r: seq<string>)
    ensures |r| == |specs| && forall i :: 0 <= i < |specs| ==> r[i] == specs[i].lockName
  {
    if specs == [] then [] else Names(specs[..|specs| - 1]) + [specs[|specs| - 1].lockName]
  }

  /** The acquires of CreateTx; how many succeeded before the first that did not. */
  ghost function TakeLocks(s: State, specs: seq<LockSpec>, holder: string, now: int): (r: (State, nat))
    ensures r.1 <= |specs|
    decreases |specs|
  {
    if specs == [] then (s, 0)
    else
      var req := RequestOf(specs[0], holder, now);
      if AcquireOutcome(s, req) == Acquired then
        var (t, k) := TakeLocks(Acquire(s, req), specs[1..], holder, now);
        (t, k + 1)
      else (Acquire(s, req), 0)
  }

  /** Releases in reverse, then the holder's wait entries dropped. */
  function UndoLocks(s: State, names: seq<string>, holder: string, now: int, allowed: Allowed): State
  {
    CancelWait(ReleaseAll(s, names, holder, now, allowed), holder)
  }

  /** Held locks, active leases and timers as before; queues as before without
      the holder's own entries. */
  ghost predicate OnlyOwnWaitsGone(s: State, t: State, holder: string)
  {
    && t.accelerated == s.accelerated
    && forall l :: SameHolding(s, t, l) && QueueOf(t.queue, l) == OthersOf(QueueOf(s.queue, l), holder)
  }

  function OthersOf(q: seq<WaitItem>, holder: string): seq<WaitItem>
  {
    Keep(q, (x: WaitItem) => x.holder != holder)
  }

  /** l is held once by holder under one active lease with its timer. */
  ghost predicate HeldOnce(t: State, l: string, holder: string)
  {
    && l in t.locks && t.locks[l] == Lock(true, holder, false, 1)
    && |ActiveOf(t.leases, l)| == 1 && ActiveOf(t.leases, l)[0].holder == holder && l in t.timers
  }

  /** The locks taken so far were free and are held; nothing else changed. */
  ghost predicate Holding(s: State, u: State, names: seq<string>, holder: string)
  {
    && NoRepeats(names) && TookOnly(s, u, names)
    && forall l :: l in names ==> !Held(s, l) && HeldOnce(u, l, holder)
  }

  lemma HoldingNone(s: State, holder: string)
    ensures Holding(s, s, [], holder)
  {
  }

  lemma AcquiredIs(u: State, x: LockSpec, holder: string, now: int)
    requires AcquireOutcome(u, RequestOf(x, holder, now)) == Acquired
    ensures !Held(u, x.lockName)
    ensures Acquire(u, RequestOf(x, holder, now)) ==
      Assign(u, x.lockName, holder, false, EffectiveLease(u, x.lockName, x.leaseSec), now)
  {
  }

  /** One more lock: it was free from the start and not among those taken. */
  lemma HoldingOneMore(s: State, u: State, names: seq<string>, x: LockSpec, holder: string, now: int)
    requires Inv(s) && Holding(s, u, names, holder)
    requires AcquireOutcome(u, RequestOf(x, holder, now)) == Acquired
    ensures Holding(s, Acquire(u, RequestOf(x, holder, now)), names + [x.lockName], holder)
  {
    AcquiredIs(u, x, holder, now);
    TakeFree(s, u, names, x.lockName, EffectiveLease(u, x.lockName, x.leaseSec), holder, now);
  }

  lemma TakeFree(s: State, u: State, names: seq<string>, l: string, lease: int, holder: string, now: int)
    requires Inv(s) && Holding(s, u, names, holder) && !Held(u, l)
    ensures Holding(s, Assign(u, l, holder, false, lease, now), names + [l], holder)
  {
    var t := Assign(u, l, holder, false, lease, now);
    assert l in names ==> HeldOnce(u, l, holder);
    assert SameAt(s, u, l) && LockOk(s, l);
    TakeOne(u, l, holder, false, lease, now);
    hide Assign;
    hide QueueOf;
    assert l in [l];
    var more := names + [l];
    forall k | k !in more
      ensures SameAt(s, t, k)
    {
      assert SameAt(s, u, k) && SameAt(u, t, k);
    }
    forall k | k in more
      ensures !Held(s, k) && HeldOnce(t, k, holder)
    {
      if k != l {
        assert HeldOnce(u, k, holder) && SameAt(u, t, k);
      }
    }
  }

  /** The i-th lock is leased for a positive time, within every limit, free, and
      named neither before nor among the locks already taken. */
  predicate GrantableAt(s: State, taken: seq<string>, specs: seq<LockSpec>, i: nat)
    requires i < |specs|
  {
    var x := specs[i];
    && x.leaseSec > 0 && x.budgetOk && x.limitOk && !Held(s, x.lockName) && x.lockName !in taken
    && forall j :: 0 <= j < i ==> specs[j].lockName != x.lockName
  }

  predicate AllGrantable(s: State, taken: seq<string>, specs: seq<LockSpec>)
  {
    forall i :: 0 <= i < |specs| ==> GrantableAt(s, taken, specs, i)
  }

  /** What the lock phase leaves behind: k locks, and at most one new entry of
      the holder's own in a queue. */
  ghost predicate PhaseResult(s: State, t: State, names: seq<string>, holder: string)
  {
    && NoRepeats(names) && t.accelerated == s.accelerated
    && (forall l :: l in names ==> !Held(s, l) && HeldOnce(t, l, holder) && QueueOf(t.queue, l) == [])
    && (forall l :: l !in names ==>
          SameHolding(s, t, l) && (l in s.locks <==> l in t.locks) && (l in s.locks ==> s.locks[l] == t.locks[l]))
    && (forall l :: OthersOf(QueueOf(t.queue, l), holder) == OthersOf(QueueOf(s.queue, l), holder))
  }

  lemma HoldingIsResult(s: State, t: State, names: seq<string>, holder: string)
    requires Inv(s) && Holding(s, t, names, holder)
    ensures PhaseResult(s, t, names, holder)
  {
    forall l | l in names
      ensures QueueOf(t.queue, l) == []
    {
      assert LockOk(s, l);
    }
    forall l | l !in names
      ensures SameHolding(s, t, l)
    {
      assert SameAt(s, t, l);
    }
  }

  /** An acquire that does not succeed adds at most an entry of the holder. */
  lemma FailedIsResult(s: State, u: State, names: seq<string>, x: LockSpec, holder: string, now: int)
    requires Inv(s) && Holding(s, u, names, holder)
    requires AcquireOutcome(u, RequestOf(x, holder, now)) != Acquired
    ensures PhaseResult(s, Acquire(u, RequestOf(x, holder, now)), names, holder)
  {
    var r := RequestOf(x, holder, now);
    HoldingIsResult(s, u, names, holder);
    FailedShape(u, x, holder, now);
    if AcquireOutcome(u, r).Queued? {
      EnqueueEffect(u, r);
      HeldByOther(u, x, holder, now);
      assert !HeldOnce(u, x.lockName, holder);
      hide Acquire;
      hide AcquireOutcome;
      QueuedIsResult(s, u, Acquire(u, r), names, x.lockName, NewItem(r), holder);
    }
  }

  /** Without reentrance only the Queued outcome changes anything. */
  lemma FailedShape(u: State, x: LockSpec, holder: string, now: int)
    ensures var r := RequestOf(x, holder, now);
      AcquireOutcome(u, r) != Acquired && !AcquireOutcome(u, r).Queued? ==> Acquire(u, r) == u
  {
  }

  lemma HeldByOther(u: State, x: LockSpec, holder: string, now: int)
    requires AcquireOutcome(u, RequestOf(x, holder, now)).Queued?
    ensures x.lockName in u.locks && u.locks[x.lockName].holder != holder
  {
  }

  lemma QueuedIsResult(s: State, u: State, t: State, names: seq<string>, l: string, x: WaitItem, holder: string)
    requires PhaseResult(s, u, names, holder) && l !in names && x.holder == holder
    requires t == u.(queue := t.queue) && forall k :: k != l ==> QueueOf(t.queue, k) == QueueOf(u.queue, k)
    requires QueueOf(t.queue, l) == [x] + QueueOf(u.queue, l) || QueueOf(t.queue, l) == QueueOf(u.queue, l) + [x]
    ensures PhaseResult(s, t, names, holder)
  {
    OwnEntryDropped(QueueOf(u.queue, l), x, holder);
    assert forall k :: OthersOf(QueueOf(t.queue, k), holder) == OthersOf(QueueOf(u.queue, k), holder);
    hide OthersOf;
    hide QueueOf;
    SameLocksResult(s, u, t, names, holder);
  }

  /** The queues of other callers and of the taken locks are all that counts. */
  lemma SameLocksResult(s: State, u: State, t: State, names: seq<string>, holder: string)
    requires PhaseResult(s, u, names, holder) && t == u.(queue := t.queue)
    requires forall k :: k in names ==> QueueOf(t.queue, k) == QueueOf(u.queue, k)
    requires forall k :: OthersOf(QueueOf(t.queue, k), holder) == OthersOf(QueueOf(u.queue, k), holder)
    ensures PhaseResult(s, t, names, holder)
  {
    hide OthersOf;
    hide QueueOf;
    forall k | k in names
      ensures HeldOnce(t, k, holder) && QueueOf(t.queue, k) == []
    {
      assert HeldOnce(u, k, holder);
    }
    forall k | k !in names
      ensures SameHolding(s, t, k)
    {
      assert SameHolding(s, u, k);
    }
  }

  lemma OwnEntryDropped(q: seq<WaitItem>, x: WaitItem, holder: string)
    requires x.holder == holder
    ensures OthersOf(q + [x], holder) == OthersOf(q, holder)
    ensures OthersOf([x] + q, holder) == OthersOf(q, holder)
  {
    var keep := (y: WaitItem) => y.holder != holder;
    KeepAppend(q, x, keep);
    KeepConcat([x], q, keep);
    assert [x][..0] == [];
    assert [] + Keep(q, keep) == Keep(q, keep);
  }

  lemma {:induction false} KeepConcat(a: seq<WaitItem>, b: seq<WaitItem>, keep: WaitItem -> bool)
    ensures Keep(a + b, keep) == Keep(a, keep) + Keep(b, keep)
    decreases |b|
  {
    if b == [] {
      assert a + b == a;
    } else {
      var front, last := b[..|b| - 1], b[|b| - 1];
      assert a + b == (a + front) + [last];
      KeepConcat(a, front, keep);
      KeepAppend(a + front, last, keep);
    }
  }

  /** k more locks were taken, all of them exactly when all were grantable. */
  ghost predicate LocksTaken(s: State, t: State, k: nat, names: seq<string>, specs: seq<LockSpec>, holder: string)
  {
    && k <= |specs|
    && PhaseResult(s, t, names + Names(specs[..k]), holder)
    && (k == |specs| ==> Holding(s, t, names + Names(specs), holder))
    && (k == |specs| <==> AllGrantable(s, names, specs))
  }

  lemma LocksTakenNone(s: State, u: State, names: seq<string>, holder: string)
    requires Inv(s) && Holding(s, u, names, holder)
    ensures LocksTaken(s, u, 0, names, [], holder)
  {
    var none: seq<LockSpec> := [];
    assert names + Names(none) == names && names + Names(none[..0]) == names;
    HoldingIsResult(s, u, names, holder);
  }

  lemma LocksTakenMore(s: State, t: State, k: nat, names: seq<string>, x: LockSpec, rest: seq<LockSpec>, holder: string)
    requires LocksTaken(s, t, k, names + [x.lockName], rest, holder) && GrantableAt(s, names, [x] + rest, 0)
    ensures LocksTaken(s, t, k + 1, names, [x] + rest, holder)
  {
    RestSplits(s, names, x, rest);
    NamesHead(x, rest, k, names);
    NamesHead(x, rest, |rest|, names);
    assert rest[..|rest|] == rest && ([x] + rest)[..|rest| + 1] == [x] + rest;
    hide PhaseResult;
    hide Holding;
    hide AllGrantable;
    hide Names;
  }

  lemma LocksTakenFailed(s: State, t: State, names: seq<string>, x: LockSpec, rest: seq<LockSpec>, holder: string)
    requires PhaseResult(s, t, names, holder) && !GrantableAt(s, names, [x] + rest, 0)
    ensures LocksTaken(s, t, 0, names, [x] + rest, holder)
  {
  }

  /** The acquires stop at the first lock that cannot be granted. */
  lemma {:induction false} TakeLocksEffect(s: State, u: State, names: seq<string>, specs: seq<LockSpec>,
                                           holder: string, now: int)
    requires Inv(s) && Holding(s, u, names, holder)
    ensures var (t, k) := TakeLocks(u, specs, holder, now); LocksTaken(s, t, k, names, specs, holder)
    decreases |specs|
  {
    if specs == [] {
      LocksTakenNone(s, u, names, holder);
    } else {
      var x, rest := specs[0], specs[1..];
      assert specs == [x] + rest;
      var r := RequestOf(x, holder, now);
      var v := Acquire(u, r);
      HeadGrantable(s, u, names, x, rest, holder, now);
      if AcquireOutcome(u, r) == Acquired {
        HoldingOneMore(s, u, names, x, holder, now);
        hide *;
        TakeLocksEffect(s, v, names + [x.lockName], rest, holder, now);
        var (t, k) := TakeLocks(v, rest, holder, now);
        LocksTakenMore(s, t, k, names, x, rest, holder);
        TakeLocksHead(u, specs, holder, now);
      } else {
        FailedIsResult(s, u, names, x, holder, now);
        hide *;
        LocksTakenFailed(s, v, names, x, rest, holder);
        TakeLocksHead(u, specs, holder, now);
      }
    }
  }

  lemma TakeLocksHead(u: State, specs: seq<LockSpec>, holder: string, now: int)
    requires specs != []
    ensures var r := RequestOf(specs[0], holder, now);
      var (t, k) := TakeLocks(Acquire(u, r), specs[1..], holder, now);
      && (AcquireOutcome(u, r) == Acquired ==> TakeLocks(u, specs, holder, now) == (t, k + 1))
      && (AcquireOutcome(u, r) != Acquired ==> TakeLocks(u, specs, holder, now) == (Acquire(u, r), 0))
  {
  }

  lemma NamesHead(x: LockSpec, rest: seq<LockSpec>, k: nat, names: seq<string>)
    requires k <= |rest|
    ensures names + Names(([x] + rest)[..k + 1]) == (names + [x.lockName]) + Names(rest[..k])
  {
  }

  /** The next acquire succeeds exactly when its lock is grantable. */
  lemma HeadGrantable(s: State, u: State, names: seq<string>, x: LockSpec, rest: seq<LockSpec>, holder: string,
                      now: int)
    requires Holding(s, u, names, holder)
    ensures AcquireOutcome(u, RequestOf(x, holder, now)) == Acquired <==> GrantableAt(s, names, [x] + rest, 0)
  {
  }

  lemma RestSplits(s: State, names: seq<string>, x: LockSpec, rest: seq<LockSpec>)
    requires GrantableAt(s, names, [x] + rest, 0)
    ensures AllGrantable(s, names, [x] + rest) <==> AllGrantable(s, names + [x.lockName], rest)
  {
    var specs := [x] + rest;
    forall i | 0 <= i < |rest|
      ensures GrantableAt(s, names + [x.lockName], rest, i) <==> GrantableAt(s, names, specs, i + 1)
    {
      assert specs[i + 1] == rest[i] && specs[0] == x;
      assert forall j :: 0 <= j < i ==> specs[j + 1] == rest[j];
      if GrantableAt(s, names + [x.lockName], rest, i) {
        forall j | 0 <= j < i + 1
          ensures specs[j].lockName != rest[i].lockName
        {
          assert j > 0 ==> specs[j] == rest[j - 1];
        }
      }
    }
    if AllGrantable(s, names + [x.lockName], rest) {
      forall i | 0 <= i < |specs|
        ensures GrantableAt(s, names, specs, i)
      {
        assert i > 0 ==> GrantableAt(s, names + [x.lockName], rest, i - 1);
      }
    }
  }

  /** The result of the lock phase undone. */
  lemma UndoRestores(s: State, t: State, names: seq<string>, holder: string, now: int, allowed: Allowed)
    requires Inv(s) && PhaseResult(s, t, names, holder)
    ensures OnlyOwnWaitsGone(s, UndoLocks(t, names, holder, now, allowed), holder)
  {
    ReleasePhase(s, t, names, holder, now, allowed);
    var v := ReleaseAll(t, names, holder, now, allowed);
    var w := UndoLocks(t, names, holder, now, allowed);
    forall l
      ensures SameHolding(s, w, l) && QueueOf(w.queue, l) == OthersOf(QueueOf(s.queue, l), holder)
    {
      assert SameHolding(s, v, l);
      QueueKeep(v.queue, (x: WaitItem) => x.holder != holder, l);
    }
  }

  /** Releasing the locks of the phase gives every lock back and leaves the
      queues alone. */
  lemma {:induction false} ReleasePhase(s: State, t: State, names: seq<string>, holder: string, now: int,
                                        allowed: Allowed)
    requires Inv(s) && PhaseResult(s, t, names, holder)
    ensures var v := ReleaseAll(t, names, holder, now, allowed);
      v.queue == t.queue && v.accelerated == t.accelerated && forall l :: SameHolding(s, v, l)
    decreases |names|
  {
    if names != [] {
      var front, last := names[..|names| - 1], names[|names| - 1];
      assert names == front + [last] && last !in front && last in names;
      assert HeldOnce(t, last, holder) && LockOk(s, last);
      ReleaseQuiet(t, last, holder, now, allowed);
      var v := Release(t, last, holder, now, allowed);
      // The row of the freed lock may differ from the one it replaces.
      var s' := s.(locks := s.locks[last := v.locks[last]]);
      assert SameHolding(s, s', last);
      FreeRowPhase(s, s', t, v, front, last, holder);
      ReleasePhase(s', v, front, holder, now, allowed);
      var w := ReleaseAll(t, names, holder, now, allowed);
      forall l
        ensures SameHolding(s, w, l)
      {
        assert SameHolding(s', w, l);
      }
    } else {
      forall l
        ensures SameHolding(s, t, l)
      {
        assert l !in names;
      }
    }
  }

  lemma FreeRowPhase(s: State, s': State, t: State, v: State, front: seq<string>, last: string, holder: string)
    requires Inv(s) && PhaseResult(s, t, front + [last], holder) && last !in front
    requires v.queue == t.queue && v.accelerated == t.accelerated && SameElsewhere(t, v, last)
    requires !Held(v, last) && ActiveOf(v.leases, last) == [] && last !in v.timers
    requires last in v.locks && v.locks[last].holder == "" && v.locks[last].count == 0
    requires s' == s.(locks := s.locks[last := v.locks[last]])
    ensures Inv(s') && PhaseResult(s', v, front, holder)
  {
    var names := front + [last];
    assert last in names && forall l :: l in front ==> l in names;
    assert forall i :: 0 <= i < |front| ==> names[i] == front[i];
    assert LockOk(s, last);
    forall k | k != last
      ensures SameAt(s, s', k)
    {
    }
    FreeRowInv(s, s', last);
    forall l | l in front
      ensures !Held(s', l) && HeldOnce(v, l, holder) && QueueOf(v.queue, l) == []
    {
      assert HeldOnce(t, l, holder) && SameAt(t, v, l);
    }
    forall l | l !in front
      ensures SameHolding(s', v, l) && (l in s'.locks <==> l in v.locks) &&
          (l in s'.locks ==> s'.locks[l] == v.locks[l])
    {
      if l != last {
        assert l !in names && SameHolding(s, t, l) && SameAt(t, v, l);
      }
    }
  }
}
