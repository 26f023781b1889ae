/** The restriction of RunKeepsAcyclic is needed: a reachable deadlock that no
    request was refused for. */
module WaitGraphWitness {
  import opened Basics
  import opened Graphs
  import opened LockState
  import opened LockInvariant
  import opened WaitGraph

  function Ask(l: string, h: string): Op
  {
    DoAcquire(Request(l, h, 10, false, true, true, false, 0))
  }

  function Row(l: string, h: string): WaitItem
  {
    WaitItem(l, h, false, 10, 0, WAIT_TIMEOUT_SEC * SECOND)
  }

  function LeaseOf(l: string, h: string): Lease
  {
    Lease(l, h, 10, 0, 10 * SECOND, true)
  }

  /** l1 is held by x, l2 by y; the rest queue up in the given rows. */
  function Contended(rows: seq<WaitItem>): State
  {
    State(map["l1" := Lock(true, "x", false, 1), "l2" := Lock(true, "y", false, 1)],
          [LeaseOf("l1", "x"), LeaseOf("l2", "y")], rows,
          map["l1" := 10 * SECOND, "l2" := 10 * SECOND], map[])
  }

  lemma RunSnoc(s: State, ops: seq<Op>, op: Op)
    ensures Run(s, ops + [op]) == Step(Run(s, ops), op)
  {
  }

  /** A request by h for l, whose holder reaches only nodes of closed, queues. */
  lemma AskQueues(rows: seq<WaitItem>, l: string, h: string, closed: set<string>)
    requires l == "l1" || l == "l2"
    requires h != Contended(rows).locks[l].holder
    requires Inv(Contended(rows)) && Acyclic(WaitEdges(Contended(rows)))
    requires forall x :: x in rows ==> !(x.lockName == l && x.holder == h)
    requires h !in closed && Contended(rows).locks[l].holder in closed
    requires forall x :: x in rows && x.holder in closed && x.lockName in Contended(rows).locks ==>
      Contended(rows).locks[x.lockName].holder in closed
    ensures Step(Contended(rows), Ask(l, h)) == Contended(rows + [Row(l, h)])
    ensures Inv(Contended(rows + [Row(l, h)])) && Acyclic(WaitEdges(Contended(rows + [Row(l, h)])))
  {
    var s := Contended(rows);
    var r := Ask(l, h).r;
    DeadlockVerdict(s, r);
    if Reaches(WaitEdges(s), s.locks[l].holder, h) {
      forall e | e in WaitEdges(s) && e.0 in closed
        ensures e.1 in closed
      {
        var x := RowOfEdge(s, e);
      }
      ClosedContains(WaitEdges(s), closed, s.locks[l].holder, h);
    }
    assert AcquireOutcome(s, r).Queued?;
    StepKeepsInv(s, Ask(l, h));
    StepKeepsAcyclic(s, Ask(l, h));
  }

  lemma FirstTwoAsks()
    ensures Run(EMPTY, [Ask("l1", "x"), Ask("l2", "y")]) == Contended([])
    ensures Inv(Contended([])) && Acyclic(WaitEdges(Contended([])))
  {
    var ops := [Ask("l1", "x"), Ask("l2", "y")];
    assert ops[..1] == [Ask("l1", "x")] && ops[..1][..0] == [];
    var s1 := Step(EMPTY, Ask("l1", "x"));
    assert Run(EMPTY, ops[..1]) == s1;
    assert s1 == State(map["l1" := Lock(true, "x", false, 1)], [LeaseOf("l1", "x")], [], map["l1" := 10 * SECOND],
                       map[]);
    assert !Held(s1, "l2");
    assert Step(s1, Ask("l2", "y")) == Contended([]);
    RunKeepsInv(ops);
    forall a: string | ReachesPlus(WaitEdges(Contended([])), a, a)
      ensures false
    {
      var s := FirstStep(WaitEdges(Contended([])), a, a);
    }
  }

  /** ops is a well-formed run into the contended state with these rows. */
  ghost predicate LeadsTo(ops: seq<Op>, rows: seq<WaitItem>)
  {
    && (forall op :: op in ops ==> WellFormed(op))
    && Run(EMPTY, ops) == Contended(rows)
    && Inv(Contended(rows)) && Acyclic(WaitEdges(Contended(rows)))
  }

  lemma AskNext(ops: seq<Op>, rows: seq<WaitItem>, l: string, h: string, closed: set<string>)
    requires LeadsTo(ops, rows)
    requires l == "l1" || l == "l2"
    requires h != Contended(rows).locks[l].holder
    requires forall x :: x in rows ==> !(x.lockName == l && x.holder == h)
    requires h !in closed && Contended(rows).locks[l].holder in closed
    requires forall x :: x in rows && x.holder in closed && x.lockName in Contended(rows).locks ==>
      Contended(rows).locks[x.lockName].holder in closed
    ensures LeadsTo(ops + [Ask(l, h)], rows + [Row(l, h)])
  {
    AskQueues(rows, l, h, closed);
    RunSnoc(EMPTY, ops, Ask(l, h));
  }

  lemma ThreeWaiters() returns (ops: seq<Op>)
    ensures LeadsTo(ops, [Row("l1", "a"), Row("l1", "y"), Row("l2", "a")])
  {
    var base := [Ask("l1", "x"), Ask("l2", "y")];
    FirstTwoAsks();
    AskNext(base, [], "l1", "a", {"x"});
    assert [] + [Row("l1", "a")] == [Row("l1", "a")];
    AskNext(base + [Ask("l1", "a")], [Row("l1", "a")], "l1", "y", {"x"});
    assert [Row("l1", "a")] + [Row("l1", "y")] == [Row("l1", "a"), Row("l1", "y")];
    ops := base + [Ask("l1", "a")] + [Ask("l1", "y")];
    AskNext(ops, [Row("l1", "a"), Row("l1", "y")], "l2", "a", {"x", "y"});
    assert [Row("l1", "a"), Row("l1", "y")] + [Row("l2", "a")] == [Row("l1", "a"), Row("l1", "y"), Row("l2", "a")];
    ops := ops + [Ask("l2", "a")];
  }

  /** x holds l1 and y holds l2; a queues for l1, y queues for l1, and a, still
      first in l1's queue, also queues for l2.  Nothing is refused.  When x
      releases l1, a gets it, and a and y wait for each other. */
  lemma BusyGrantClosesCycle() returns (ops: seq<Op>, last: Op)
    ensures (forall op :: op in ops ==> WellFormed(op)) && WellFormed(last)
    ensures Acyclic(WaitEdges(Run(EMPTY, ops)))
    ensures last.DoRelease? && GrantsBusyWaiter(Run(EMPTY, ops), last)
    ensures !Acyclic(WaitEdges(Run(EMPTY, ops + [last])))
  {
    ops := ThreeWaiters();
    last := DoRelease("l1", "x", 0, {("a", "l1")});
    RunSnoc(EMPTY, ops, last);
    BusyHead([Row("l1", "a"), Row("l1", "y"), Row("l2", "a")], last);
    ReleaseDeadlocks([Row("l1", "a"), Row("l1", "y"), Row("l2", "a")], last);
  }

  /** a is first in l1's queue, eligible, and queued for l2 as well. */
  lemma BusyHead(rows: seq<WaitItem>, last: Op)
    requires rows == [Row("l1", "a"), Row("l1", "y"), Row("l2", "a")]
    requires last == DoRelease("l1", "x", 0, {("a", "l1")})
    ensures GrantsBusyWaiter(Contended(rows), last)
  {
    assert rows[..2] == [Row("l1", "a"), Row("l1", "y")] && rows[..2][..1] == [Row("l1", "a")];
    assert rows[..2][..1][..0] == [];
    assert QueueOf(rows[..2][..1], "l1") == [Row("l1", "a")];
    assert QueueOf(rows, "l1") == [Row("l1", "a"), Row("l1", "y")];
    assert FirstEligible(QueueOf(rows, "l1"), "l1", 0, {("a", "l1")}) == 0;
    assert rows[2] in rows;
  }

  lemma ReleaseDeadlocks(rows: seq<WaitItem>, last: Op)
    requires rows == [Row("l1", "a"), Row("l1", "y"), Row("l2", "a")]
    requires last == DoRelease("l1", "x", 0, {("a", "l1")})
    ensures !Acyclic(WaitEdges(Step(Contended(rows), last)))
  {
    var s := Contended(rows);
    var v := Vacate(s, "l1");
    assert FirstFor(v.queue, "l1") == 0;
    assert RemoveAt(v.queue, 0) == [Row("l1", "y"), Row("l2", "a")];
    var t := GrantNext(v, "l1", 0, {("a", "l1")});
    assert t.queue == [Row("l1", "y"), Row("l2", "a")];
    assert t.locks["l1"] == Lock(true, "a", false, 1) && t.locks["l2"] == Lock(true, "y", false, 1);
    assert Step(s, last) == t;
    assert Row("l2", "a") in rows by {
      assert rows[2] == Row("l2", "a");
    }
    assert Row("l1", "y") == t.queue[0] && Row("l2", "a") == t.queue[1];
    EdgeOfRow(t, Row("l1", "y"));
    EdgeOfRow(t, Row("l2", "a"));
    EdgeReaches(WaitEdges(t), "a", "y");
    ReachesThenEdge(WaitEdges(t), "a", "y", "a");
  }
}
