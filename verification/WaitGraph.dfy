/** Deadlock freedom over whole runs: what each step does to the wait-for graph. */
module WaitGraph {
  import opened Basics
  import opened Graphs
  import opened LockState
  import opened LockTables
  import opened LockInvariant
  import opened LockBatch

  /** h waits for some lock other than l. */
  ghost predicate BusyElsewhere(s: State, h: string, l: string)
  {
    exists x :: x in s.queue && x.holder == h && x.lockName != l
  }

  /** The steps that give a held lock to the next waiter. */
  predicate HandsOver(s: State, op: Op)
  {
    match op
    case DoRelease(l, h, _, _) => CanRelease(s, l, h) && !(s.locks[l].reentrant && s.locks[l].count > 1)
    case DoExpire(l, _, _) => Held(s, l)
    case _ => false
  }

  /** The step would grant its lock to a waiter who is queued elsewhere too. */
  ghost predicate GrantsBusyWaiter(s: State, op: Op)
  {
    HandsOver(s, op) &&
    var q := QueueOf(s.queue, op.lockName);
    var j := FirstEligible(q, op.lockName, op.now, op.allowed);
    j < |q| && BusyElsewhere(s, q[j].holder, op.lockName)
  }

  lemma EdgeOfRow(s: State, x: WaitItem)
    requires x in s.queue && BlocksOn(s, x)
    ensures (x.holder, s.locks[x.lockName].holder) in WaitEdges(s)
  {
  }

  lemma RowOfEdge(s: State, e: (string, string)) returns (x: WaitItem)
    requires e in WaitEdges(s)
    ensures x in s.queue && BlocksOn(s, x) && e == (x.holder, s.locks[x.lockName].holder)
  {
    x :| x in s.queue && BlocksOn(s, x) && e == (x.holder, s.locks[x.lockName].holder);
  }

  /** Rows that block in t block in s on the same holder: no new edges. */
  lemma FewerEdges(s: State, t: State)
    requires forall x :: x in t.queue && BlocksOn(t, x) ==>
      x in s.queue && BlocksOn(s, x) && s.locks[x.lockName].holder == t.locks[x.lockName].holder
    ensures WaitEdges(t) <= WaitEdges(s)
  {
  }

  /** The edges of l's remaining waiters to its new holder g. */
  ghost function IntoGrantee(t: State, l: string): set<(string, string)>
  {
    set x | x in t.queue && x.lockName == l && BlocksOn(t, x) :: (x.holder, t.locks[l].holder)
  }

  /** A grant redirects the edges of every remaining waiter of l to the new
      holder and leaves all other edges as they were. */
  lemma GrantEdges(v: State, l: string, now: int, allowed: Allowed)
    requires ActiveOf(v.leases, l) == [] && !Held(v, l)
    ensures var t := GrantNext(v, l, now, allowed);
      WaitEdges(t) == WaitEdges(v) + IntoGrantee(t, l) && (!Held(t, l) ==> IntoGrantee(t, l) == {})
  {
    var t := GrantNext(v, l, now, allowed);
    var j := GrantNextEffect(v, l, now, allowed);
    forall x: WaitItem
      ensures x.lockName != l ==> (x in v.queue <==> x in t.queue) && (BlocksOn(v, x) <==> BlocksOn(t, x))
      ensures x.lockName != l && BlocksOn(v, x) ==> v.locks[x.lockName] == t.locks[x.lockName]
    {
      QueueMember(v.queue, x.lockName, x);
      QueueMember(t.queue, x.lockName, x);
      if x.lockName != l {
        assert SameAt(v, t, x.lockName);
      }
    }
    forall e | e in WaitEdges(v)
      ensures e in WaitEdges(t)
    {
      var x := RowOfEdge(v, e);
      EdgeOfRow(t, x);
    }
    forall e | e in WaitEdges(t)
      ensures e in WaitEdges(v) + IntoGrantee(t, l)
    {
      var x := RowOfEdge(t, e);
      if x.lockName != l {
        EdgeOfRow(v, x);
      }
    }
  }

  lemma VacateEdges(s: State, l: string)
    requires l in s.locks
    ensures WaitEdges(Vacate(s, l)) <= WaitEdges(s)
  {
  }

  /** Without an outgoing edge only the node itself is reached. */
  lemma NoWayOut(g: set<(string, string)>, a: string, b: string)
    requires forall e :: e in g ==> e.0 != a
    requires Reaches(g, a, b)
    ensures a == b
  {
    var p :| PathFromTo(g, p, a, b);
    PathHead(g, p);
  }

  /** A hand-over closes a cycle exactly when its new holder already waits for a
      row it leaves behind. */
  lemma HandOverEdges(s: State, l: string, now: int, allowed: Allowed)
    requires Inv(s) && Held(s, l) && Acyclic(WaitEdges(s))
    ensures var v := Vacate(s, l); var t := GrantNext(v, l, now, allowed);
      Acyclic(WaitEdges(t)) <==>
      forall x :: x in t.queue && x.lockName == l && BlocksOn(t, x) ==>
        !Reaches(WaitEdges(v), t.locks[l].holder, x.holder)
  {
    var v := Vacate(s, l);
    var t := GrantNext(v, l, now, allowed);
    VacateEffect(s, l);
    VacateEdges(s, l);
    AcyclicMono(WaitEdges(v), WaitEdges(s));
    GrantEdges(v, l, now, allowed);
    if Held(t, l) {
      var g := t.locks[l].holder;
      AddEdgesInto(WaitEdges(v), IntoGrantee(t, l), g);
      forall x | x in t.queue && x.lockName == l && BlocksOn(t, x)
        ensures (x.holder, g) in IntoGrantee(t, l) && (x.holder, g).0 == x.holder
      {
      }
      forall e | e in IntoGrantee(t, l)
        ensures exists x :: x in t.queue && x.lockName == l && BlocksOn(t, x) && x.holder == e.0
      {
      }
    } else {
      assert WaitEdges(t) == WaitEdges(v);
    }
  }

  /** The rows of l that are left are those behind the j-th. */
  lemma RowsBehind(queue: seq<WaitItem>, l: string, q: seq<WaitItem>, j: nat)
    requires j < |q| && QueueOf(queue, l) == q[j + 1..]
    ensures forall i :: j < i < |q| ==> q[i] in queue && q[i].lockName == l
    ensures forall x :: x in queue && x.lockName == l ==> exists i :: j < i < |q| && q[i] == x
  {
    forall i | j < i < |q|
      ensures q[i] in queue && q[i].lockName == l
    {
      assert q[i] == q[j + 1..][i - (j + 1)];
      QueueMember(queue, l, q[i]);
    }
    forall x | x in queue && x.lockName == l
      ensures exists i :: j < i < |q| && q[i] == x
    {
      QueueMember(queue, l, x);
      var k :| 0 <= k < |q[j + 1..]| && q[j + 1..][k] == x;
      assert q[k + j + 1] == x;
    }
  }

  /** Exactly when a hand-over closes a cycle, told from the state before it:
      when the first eligible waiter already waits, directly or through others,
      for a waiter behind it in the same queue. */
  lemma HandOverClosesCycleIff(s: State, l: string, now: int, allowed: Allowed)
    requires Inv(s) && Held(s, l) && Acyclic(WaitEdges(s))
    ensures var q := QueueOf(s.queue, l); var j := FirstEligible(q, l, now, allowed);
      !Acyclic(WaitEdges(GrantNext(Vacate(s, l), l, now, allowed))) <==>
      j < |q| && q[j].holder != "" &&
      exists i :: j < i < |q| && Reaches(WaitEdges(Vacate(s, l)), q[j].holder, q[i].holder)
  {
    var g := WaitEdges(Vacate(s, l));
    var t := GrantNext(Vacate(s, l), l, now, allowed);
    var q := QueueOf(s.queue, l);
    var j := FirstEligible(q, l, now, allowed);
    HandOverEdges(s, l, now, allowed);
    HandOverGoesTo(s, l, now, allowed);
    HandOverKeepsInv(s, l, now, allowed);
    assert LockOk(t, l);
    if j < |q| {
      assert forall i :: j < i < |q| ==> q[i] == q[j + 1..][i - (j + 1)] && q[i].holder != q[j].holder;
      RowsBehind(t.queue, l, q, j);
      forall i | j < i < |q|
        ensures BlocksOn(t, q[i]) <==> q[j].holder != ""
      {
      }
    }
  }

  /** A grantee that waits nowhere else closes no cycle. */
  lemma HandOverKeepsAcyclic(s: State, l: string, now: int, allowed: Allowed)
    requires Inv(s) && Held(s, l) && Acyclic(WaitEdges(s))
    requires var q := QueueOf(s.queue, l); var j := FirstEligible(q, l, now, allowed);
      j < |q| ==> !BusyElsewhere(s, q[j].holder, l)
    ensures Acyclic(WaitEdges(GrantNext(Vacate(s, l), l, now, allowed)))
  {
    var v := Vacate(s, l);
    var t := GrantNext(v, l, now, allowed);
    VacateEffect(s, l);
    HandOverEdges(s, l, now, allowed);
    HandOverGoesTo(s, l, now, allowed);
    if Held(t, l) {
      var g := t.locks[l].holder;
      HandOverKeepsInv(s, l, now, allowed);
      forall e | e in WaitEdges(v)
        ensures e.0 != g
      {
        var x := RowOfEdge(v, e);
      }
      forall x | x in t.queue && x.lockName == l && BlocksOn(t, x) && Reaches(WaitEdges(v), g, x.holder)
        ensures false
      {
        NoWayOut(WaitEdges(v), g, x.holder);
      }
    }
  }

  /** A request is queued only where its edge closes no cycle. */
  lemma AcquireKeepsAcyclic(s: State, r: Request)
    requires Inv(s) && Acyclic(WaitEdges(s))
    ensures Acyclic(WaitEdges(Acquire(s, r)))
  {
    var l := r.lockName;
    var t := Acquire(s, r);
    assert LockOk(s, l);
    match AcquireOutcome(s, r)
    case Acquired =>
      forall x | x in t.queue && BlocksOn(t, x)
        ensures BlocksOn(s, x) && s.locks[x.lockName].holder == t.locks[x.lockName].holder
      {
        QueueMember(s.queue, l, x);
      }
      FewerEdges(s, t);
      AcyclicMono(WaitEdges(t), WaitEdges(s));
    case Queued(_) =>
      var e := (r.holder, s.locks[l].holder);
      EnqueueEffect(s, r);
      EnqueueEdges(s, r);
      AddEdge(WaitEdges(s), r.holder, s.locks[l].holder);
      if Reaches(WaitEdges(s), s.locks[l].holder, r.holder) {
        ReachesMono(WaitEdges(s), WaitEdges(s) + {e}, s.locks[l].holder, r.holder);
        EdgeThenReaches(WaitEdges(s) + {e}, r.holder, s.locks[l].holder, r.holder);
        ReachesSelf(WaitEdges(s) + {e}, r.holder);
        assert CycleReachable(WaitEdges(s) + {e}, r.holder);
      }
      AcyclicMono(WaitEdges(t), WaitEdges(s) + {e});
    case _ =>
      FewerEdges(s, t);
      AcyclicMono(WaitEdges(t), WaitEdges(s));
  }

  lemma EnqueueEdges(s: State, r: Request)
    requires AcquireOutcome(s, r).Queued?
    ensures WaitEdges(Acquire(s, r)) <= WaitEdges(s) + {(r.holder, s.locks[r.lockName].holder)}
  {
    var t := Acquire(s, r);
    EnqueueEffect(s, r);
    forall e | e in WaitEdges(t)
      ensures e in WaitEdges(s) + {(r.holder, s.locks[r.lockName].holder)}
    {
      var x := RowOfEdge(t, e);
      QueueMember(t.queue, x.lockName, x);
      QueueMember(s.queue, x.lockName, x);
      if x in s.queue {
        EdgeOfRow(s, x);
      }
    }
  }

  /** In a state without deadlock a request is refused as a deadlock exactly
      when the holder it would wait for already waits for the requester. */
  lemma DeadlockVerdict(s: State, r: Request)
    requires Inv(s) && Acyclic(WaitEdges(s))
    requires r.leaseSec > 0 && r.budgetOk && r.limitOk
    requires Held(s, r.lockName) && s.locks[r.lockName].holder != r.holder
    ensures AcquireOutcome(s, r) == DeadlockFound <==>
      Reaches(WaitEdges(s), s.locks[r.lockName].holder, r.holder)
  {
    var g, e := WaitEdges(s), (r.holder, s.locks[r.lockName].holder);
    AddEdge(g, e.0, e.1);
    if Reaches(g, e.1, e.0) {
      ReachesMono(g, g + {e}, e.1, e.0);
      EdgeThenReaches(g + {e}, e.0, e.1, e.0);
      ReachesSelf(g + {e}, e.0);
      assert CycleReachable(g + {e}, e.0);
    }
  }

  lemma BatchKeepsAcyclic(s: State, names: seq<string>, holder: string, leaseSec: int, reentrant: bool,
                          now: int, allowed: Allowed)
    requires Inv(s) && NoRepeats(names) && Acyclic(WaitEdges(s))
    ensures Acyclic(WaitEdges(BatchAcquire(s, names, holder, leaseSec, reentrant, now, allowed).0))
  {
    var (t, outcome) := BatchAcquire(s, names, holder, leaseSec, reentrant, now, allowed);
    BatchAllOrNothing(s, names, holder, leaseSec, reentrant, now, allowed);
    forall x | x in t.queue && BlocksOn(t, x)
      ensures BlocksOn(s, x) && s.locks[x.lockName].holder == t.locks[x.lockName].holder
    {
      assert LockOk(s, x.lockName);
      QueueMember(s.queue, x.lockName, x);
      if outcome == BatchAcquired {
        assert x.lockName !in names;
        assert SameAt(s, t, x.lockName);
      } else {
        assert SameHolding(s, t, x.lockName);
      }
    }
    FewerEdges(s, t);
    AcyclicMono(WaitEdges(t), WaitEdges(s));
  }

  /** Every step keeps the graph acyclic, except granting a lock to a waiter
      that is still queued elsewhere. */
  lemma StepKeepsAcyclic(s: State, op: Op)
    requires Inv(s) && WellFormed(op) && Acyclic(WaitEdges(s))
    requires !GrantsBusyWaiter(s, op)
    ensures Acyclic(WaitEdges(Step(s, op)))
  {
    var t := Step(s, op);
    if op.DoAcquire? {
      AcquireKeepsAcyclic(s, op.r);
    } else if op.DoBatch? {
      BatchKeepsAcyclic(s, op.names, op.holder, op.leaseSec, op.reentrant, op.now, op.allowed);
    } else if HandsOver(s, op) {
      HandOverKeepsAcyclic(s, op.lockName, op.now, op.allowed);
    } else {
      QuietStep(s, op);
      FewerEdges(s, t);
      AcyclicMono(WaitEdges(t), WaitEdges(s));
    }
  }

  /** All other steps at most remove rows. */
  lemma QuietStep(s: State, op: Op)
    requires !op.DoAcquire? && !op.DoBatch? && !HandsOver(s, op)
    ensures var t := Step(s, op);
      forall x :: x in t.queue && BlocksOn(t, x) ==>
        x in s.queue && BlocksOn(s, x) && s.locks[x.lockName].holder == t.locks[x.lockName].holder
  {
    var t := Step(s, op);
    forall x | x in t.queue
      ensures x in s.queue
    {
      if op.DoTimeouts? {
        KeepMember(s.queue, (y: WaitItem) => y.timeoutAt >= op.now, x);
      } else if op.DoCancel? {
        KeepMember(s.queue, (y: WaitItem) => y.holder != op.holder, x);
      }
    }
  }

  /** No holder is queued on two locks at once. */
  ghost predicate SingleQueued(s: State)
  {
    forall x, y :: x in s.queue && y in s.queue && x.holder == y.holder ==> x.lockName == y.lockName
  }

  lemma SingleQueuedGrants(s: State, op: Op)
    requires Inv(s) && SingleQueued(s)
    ensures !GrantsBusyWaiter(s, op)
  {
    if HandsOver(s, op) {
      var q := QueueOf(s.queue, op.lockName);
      var j := FirstEligible(q, op.lockName, op.now, op.allowed);
      if j < |q| {
        QueueMember(s.queue, op.lockName, q[j]);
      }
    }
  }

  /** In every run in which no holder is ever queued on two locks at once, the
      wait-for graph is acyclic in every state. */
  lemma {:induction false} RunKeepsAcyclic(ops: seq<Op>)
    requires forall op :: op in ops ==> WellFormed(op)
    requires forall n :: 0 <= n < |ops| ==> SingleQueued(Run(EMPTY, ops[..n]))
    ensures Acyclic(WaitEdges(Run(EMPTY, ops)))
  {
    if ops == [] {
      forall a: string | ReachesPlus(WaitEdges(EMPTY), a, a)
        ensures false
      {
        var s := FirstStep(WaitEdges(EMPTY), a, a);
      }
    } else {
      var front, last := ops[..|ops| - 1], ops[|ops| - 1];
      assert last in ops && forall op :: op in front ==> op in ops;
      forall n | 0 <= n < |front|
        ensures SingleQueued(Run(EMPTY, front[..n]))
      {
        assert front[..n] == ops[..n];
      }
      RunKeepsAcyclic(front);
      RunKeepsInv(front);
      assert SingleQueued(Run(EMPTY, ops[..|ops| - 1]));
      SingleQueuedGrants(Run(EMPTY, front), last);
      StepKeepsAcyclic(Run(EMPTY, front), last);
    }
  }

  /** In a state without deadlock, following holders from any waiter ends at a
      holder whose own waits, if any, are only for locks of unnamed holders. */
  lemma WaiterChainEnds(s: State, x: WaitItem) returns (free: string)
    requires Inv(s) && Acyclic(WaitEdges(s)) && x in s.queue
    ensures Reaches(WaitEdges(s), x.holder, free)
    ensures forall y :: y in s.queue && y.holder == free ==>
      Held(s, y.lockName) && s.locks[y.lockName].holder == ""
    ensures (forall l :: Held(s, l) ==> s.locks[l].holder != "") ==>
      (forall y :: y in s.queue ==> y.holder != free) && exists l :: Held(s, l) && s.locks[l].holder == free
  {
    var g := WaitEdges(s);
    var nodes := {x.holder} + (set e | e in g :: e.0) + (set e | e in g :: e.1);
    var sinks := set n | n in nodes && forall e :: e in g ==> e.0 != n;
    forall n | n in nodes && n !in sinks
      ensures exists m :: m in nodes && (n, m) in g
    {
      var e :| e in g && e.0 == n;
      assert e.1 in nodes && (n, e.1) in g;
    }
    free := WalkToGoal(g, nodes, sinks, x.holder);
    forall y | y in s.queue && y.holder == free
      ensures Held(s, y.lockName) && s.locks[y.lockName].holder == ""
    {
      QueueMember(s.queue, y.lockName, y);
      assert LockOk(s, y.lockName);
      if BlocksOn(s, y) {
        EdgeOfRow(s, y);
      }
    }
    if forall l :: Held(s, l) ==> s.locks[l].holder != "" {
      QueueMember(s.queue, x.lockName, x);
      assert LockOk(s, x.lockName);
      assert x.holder != free;
      var p :| PathFromTo(g, p, x.holder, free);
      assert (p[|p| - 2], p[|p| - 2 + 1]) in g;
      var y := RowOfEdge(s, (p[|p| - 2], free));
    }
  }
}
