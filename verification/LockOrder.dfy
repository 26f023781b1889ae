/** No overtaking in a lock's queue, over any interleaving of steps. */
module LockOrder {
  import opened Basics
  import opened LockState
  import opened LockTables
  import opened LockInvariant
  import opened LockBatch
  import opened WaitGraph

  /** One step's effect on l's queue and holder: waiters keep their relative
      order, a new row belongs to a new holder, and a new holder of the lock
      came out of the queue together with everyone before it. */
  ghost predicate FairChange(s: State, t: State, l: string)
  {
    var q, q' := QueueOf(s.queue, l), QueueOf(t.queue, l);
    && OrderKept(q, q')
    && (Held(s, l) && Held(t, l) && t.locks[l].holder != s.locks[l].holder ==>
        exists j :: 0 < j <= |q| && q[j - 1].holder == t.locks[l].holder && q' == q[j..])
  }

  lemma SuffixOrder(q: seq<WaitItem>, j: nat)
    requires j <= |q|
    ensures OrderKept(q, q[j..])
  {
  }

  /** A fresh holder's row added at either end. */
  lemma AddRowOrder(q: seq<WaitItem>, x: WaitItem)
    requires forall i :: 0 <= i < |q| ==> q[i].holder != x.holder
    ensures OrderKept(q, q + [x]) && OrderKept(q, [x] + q)
  {
  }

  lemma HandOverFair(s: State, k: string, now: int, allowed: Allowed, l: string)
    requires Inv(s) && Held(s, k)
    ensures FairChange(s, GrantNext(Vacate(s, k), k, now, allowed), l)
  {
    var v := Vacate(s, k);
    var t := GrantNext(v, k, now, allowed);
    VacateEffect(s, k);
    var j := GrantNextEffect(v, k, now, allowed);
    var q := QueueOf(s.queue, l);
    SuffixOrder(q, 0);
    assert q[0..] == q;
    if l == k {
      SuffixOrder(q, j);
    } else {
      assert SameAt(s, v, l) && SameAt(v, t, l);
    }
  }

  lemma AcquireFair(s: State, r: Request, l: string)
    requires Inv(s)
    ensures FairChange(s, Acquire(s, r), l)
  {
    var q := QueueOf(s.queue, l);
    SuffixOrder(q, 0);
    assert q[0..] == q;
    if AcquireOutcome(s, r).Queued? {
      EnqueueEffect(s, r);
      if l == r.lockName {
        AddRowOrder(q, NewItem(r));
      }
    }
  }

  lemma BatchFair(s: State, names: seq<string>, holder: string, leaseSec: int, reentrant: bool, now: int,
                  allowed: Allowed, l: string)
    requires Inv(s) && NoRepeats(names)
    ensures FairChange(s, BatchAcquire(s, names, holder, leaseSec, reentrant, now, allowed).0, l)
  {
    var (t, outcome) := BatchAcquire(s, names, holder, leaseSec, reentrant, now, allowed);
    BatchAllOrNothing(s, names, holder, leaseSec, reentrant, now, allowed);
    SuffixOrder(QueueOf(s.queue, l), 0);
    assert QueueOf(s.queue, l)[0..] == QueueOf(s.queue, l);
    hide BatchAcquire;
    if outcome == BatchAcquired {
      assert l !in names ==> SameAt(s, t, l);
    } else {
      assert SameHolding(s, t, l);
    }
  }

  lemma StepFair(s: State, op: Op, l: string)
    requires Inv(s) && WellFormed(op)
    ensures FairChange(s, Step(s, op), l)
  {
    var t := Step(s, op);
    var q := QueueOf(s.queue, l);
    SuffixOrder(q, 0);
    assert q[0..] == q;
    if op.DoAcquire? {
      AcquireFair(s, op.r, l);
    } else if op.DoBatch? {
      BatchFair(s, op.names, op.holder, op.leaseSec, op.reentrant, op.now, op.allowed, l);
    } else if HandsOver(s, op) {
      HandOverFair(s, op.lockName, op.now, op.allowed, l);
    } else if op.DoTimeouts? {
      var keep := (x: WaitItem) => x.timeoutAt >= op.now;
      QueueKeep(s.queue, keep, l);
      KeepOrder(q, keep);
    } else if op.DoCancel? {
      var keep := (x: WaitItem) => x.holder != op.holder;
      QueueKeep(s.queue, keep, l);
      KeepOrder(q, keep);
    }
  }

  /** While h stands before k in l's queue and stays queued, no step gives the
      lock to k, and k does not pass h. */
  lemma StepNoOvertaking(s: State, op: Op, l: string, h: string, k: string)
    requires Inv(s) && WellFormed(op)
    requires Ahead(QueueOf(s.queue, l), h, k)
    ensures var t := Step(s, op);
      HasHolder(QueueOf(t.queue, l), h) ==>
        && !(Held(t, l) && t.locks[l].holder == k)
        && (HasHolder(QueueOf(t.queue, l), k) ==> Ahead(QueueOf(t.queue, l), h, k))
  {
    var t := Step(s, op);
    var q, q' := QueueOf(s.queue, l), QueueOf(t.queue, l);
    StepFair(s, op, l);
    assert LockOk(s, l);
    var a, b :| 0 <= a < b < |q| && q[a].holder == h && q[b].holder == k;
    hide Step;
    hide Inv;
    if Held(t, l) && t.locks[l].holder == k {
      var j :| 0 < j <= |q| && q[j - 1].holder == k && q' == q[j..];
      GoneFromSuffix(q, a, j);
    } else if HasHolder(q', h) && HasHolder(q', k) {
      var c :| 0 <= c < |q'| && q'[c].holder == h;
      var d :| 0 <= d < |q'| && q'[d].holder == k;
      AheadUnique(q, a, b);
      KeptAhead(q, q', a, b, c, d);
    }
  }

  lemma GoneFromSuffix(q: seq<WaitItem>, a: nat, j: nat)
    requires DistinctHolders(q) && a < j <= |q|
    ensures !HasHolder(q[j..], q[a].holder)
  {
  }

  /** Rows that survive keep their order. */
  lemma KeptAhead(q: seq<WaitItem>, q': seq<WaitItem>, a: nat, b: nat, c: nat, d: nat)
    requires OrderKept(q, q') && a < b < |q| && c < |q'| && d < |q'|
    requires q'[c].holder == q[a].holder && q'[d].holder == q[b].holder && !Ahead(q, q[b].holder, q[a].holder)
    requires DistinctHolders(q)
    ensures Ahead(q', q[a].holder, q[b].holder)
  {
  }

  lemma AheadUnique(q: seq<WaitItem>, a: nat, b: nat)
    requires DistinctHolders(q) && a < b < |q|
    ensures !Ahead(q, q[b].holder, q[a].holder)
  {
  }

  /** Over any run during which h, ahead of k, stays in l's queue and k is
      still waiting up to the last step, k never gets the lock before h. */
  lemma {:induction false} RunNoOvertaking(s: State, ops: seq<Op>, l: string, h: string, k: string)
    requires Inv(s) && (forall op :: op in ops ==> WellFormed(op))
    requires Ahead(QueueOf(s.queue, l), h, k)
    requires forall n :: 0 <= n <= |ops| ==> HasHolder(QueueOf(Run(s, ops[..n]).queue, l), h)
    requires forall n :: 0 <= n < |ops| ==> HasHolder(QueueOf(Run(s, ops[..n]).queue, l), k)
    ensures var t := Run(s, ops);
      && Inv(t) && !(Held(t, l) && t.locks[l].holder == k)
      && (HasHolder(QueueOf(t.queue, l), k) ==> Ahead(QueueOf(t.queue, l), h, k))
  {
    if ops == [] {
      assert LockOk(s, l);
    } else {
      var front, last := ops[..|ops| - 1], ops[|ops| - 1];
      assert last in ops && forall op :: op in front ==> op in ops;
      forall n | 0 <= n <= |front|
        ensures front[..n] == ops[..n]
      {
      }
      assert ops[..|ops|] == ops;
      RunNoOvertaking(s, front, l, h, k);
      StepKeepsInv(Run(s, front), last);
      StepNoOvertaking(Run(s, front), last, l, h, k);
    }
  }

  /** A gold request enters at the front of its lock's queue, any other request
      at the back; nobody else moves. */
  lemma GoldEntersInFront(s: State, r: Request)
    requires AcquireOutcome(s, r).Queued?
    ensures var q := QueueOf(s.queue, r.lockName);
      QueueOf(Acquire(s, r).queue, r.lockName) == if r.gold then [NewItem(r)] + q else q + [NewItem(r)]
    ensures forall k :: k != r.lockName ==> QueueOf(Acquire(s, r).queue, k) == QueueOf(s.queue, k)
  {
    EnqueueEffect(s, r);
  }
}
