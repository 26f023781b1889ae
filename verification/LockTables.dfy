/** How the table operations act on the rows of one lock. */
module LockTables {
  import opened LockState

  lemma {:induction false} QueueConcat(a: seq<WaitItem>, b: seq<WaitItem>, l: string)
    ensures QueueOf(a + b, l) == QueueOf(a, l) + QueueOf(b, l)
  {
    if b == [] {
      assert a + b == a;
    } else {
      QueueConcat(a, b[..|b| - 1], l);
      assert (a + b)[..|a + b| - 1] == a + b[..|b| - 1];
    }
  }

  lemma QueueAppend(q: seq<WaitItem>, x: WaitItem, l: string)
    ensures QueueOf(q + [x], l) == if x.lockName == l then QueueOf(q, l) + [x] else QueueOf(q, l)
  {
  }

  lemma {:induction false} QueueMember(q: seq<WaitItem>, l: string, x: WaitItem)
    ensures x in QueueOf(q, l) <==> x in q && x.lockName == l
  {
    if q != [] {
      QueueMember(q[..|q| - 1], l, x);
      assert q == q[..|q| - 1] + [q[|q| - 1]];
    }
  }

  lemma {:induction false} QueueNone(q: seq<WaitItem>, l: string)
    requires forall x :: x in q ==> x.lockName != l
    ensures QueueOf(q, l) == []
  {
    if q != [] {
      var front, last := q[..|q| - 1], q[|q| - 1];
      assert last in q && forall x :: x in front ==> x in q;
      QueueNone(front, l);
    }
  }

  lemma RemoveAtQueue(q: seq<WaitItem>, i: nat, k: string)
    requires i < |q|
    ensures QueueOf(q, k) == QueueOf(q[..i], k) + QueueOf([q[i]], k) + QueueOf(q[i + 1..], k)
    ensures QueueOf(RemoveAt(q, i), k) == QueueOf(q[..i], k) + QueueOf(q[i + 1..], k)
    ensures QueueOf([q[i]], k) == if q[i].lockName == k then [q[i]] else []
  {
    assert q == q[..i] + [q[i]] + q[i + 1..];
    QueueConcat(q[..i] + [q[i]], q[i + 1..], k);
    QueueConcat(q[..i], [q[i]], k);
    QueueConcat(q[..i], q[i + 1..], k);
    QueueAppend([], q[i], k);
    assert [] + [q[i]] == [q[i]];
  }

  /** Dequeuing takes the head of the lock's queue and leaves the others alone. */
  lemma DequeueEffect(q: seq<WaitItem>, l: string)
    ensures FirstFor(q, l) == |q| <==> QueueOf(q, l) == []
    ensures FirstFor(q, l) < |q| ==>
      var i := FirstFor(q, l);
      && QueueOf(q, l) == [q[i]] + QueueOf(RemoveAt(q, i), l)
      && forall k :: k != l ==> QueueOf(RemoveAt(q, i), k) == QueueOf(q, k)
  {
    hide QueueOf;
    var i := FirstFor(q, l);
    QueueNone(q[..i], l);
    if i == |q| {
      assert q[..i] == q;
    } else {
      RemoveAtQueue(q, i, l);
      forall k | k != l
        ensures QueueOf(RemoveAt(q, i), k) == QueueOf(q, k)
      {
        RemoveAtQueue(q, i, k);
        assert QueueOf(q[..i], k) + [] == QueueOf(q[..i], k);
      }
    }
  }

  lemma {:induction false} KeepMember(q: seq<WaitItem>, keep: WaitItem -> bool, x: WaitItem)
    ensures x in Keep(q, keep) <==> x in q && keep(x)
  {
    if q != [] {
      KeepMember(q[..|q| - 1], keep, x);
      assert q == q[..|q| - 1] + [q[|q| - 1]];
    }
  }

  lemma {:induction false} QueueKeep(q: seq<WaitItem>, keep: WaitItem -> bool, l: string)
    ensures QueueOf(Keep(q, keep), l) == Keep(QueueOf(q, l), keep)
  {
    if q != [] {
      var front, last := q[..|q| - 1], q[|q| - 1];
      QueueKeep(front, keep, l);
      QueueAppend(Keep(front, keep), last, l);
      KeepAppend(QueueOf(front, l), last, keep);
    }
  }

  lemma KeepAppend(q: seq<WaitItem>, x: WaitItem, keep: WaitItem -> bool)
    ensures Keep(q + [x], keep) == if keep(x) then Keep(q, keep) + [x] else Keep(q, keep)
  {
  }

  lemma {:induction false} KeepEverything(q: seq<WaitItem>, keep: WaitItem -> bool)
    requires forall x :: x in q ==> keep(x)
    ensures Keep(q, keep) == q
  {
    if q != [] {
      var front, last := q[..|q| - 1], q[|q| - 1];
      assert last in q && forall x :: x in front ==> x in q;
      KeepEverything(front, keep);
    }
  }

  lemma {:induction false} KeepNothing(q: seq<WaitItem>, keep: WaitItem -> bool)
    requires forall x :: x in q ==> !keep(x)
    ensures Keep(q, keep) == []
  {
    if q != [] {
      var front, last := q[..|q| - 1], q[|q| - 1];
      assert last in q && forall x :: x in front ==> x in q;
      KeepNothing(front, keep);
    }
  }

  /** A kept row was in the queue, and two kept rows keep their order. */
  ghost predicate OrderKept(q: seq<WaitItem>, q': seq<WaitItem>)
  {
    forall i, j :: 0 <= i < j < |q'| && HasHolder(q, q'[i].holder) && HasHolder(q, q'[j].holder) ==>
      Ahead(q, q'[i].holder, q'[j].holder)
  }

  predicate HasHolder(q: seq<WaitItem>, h: string)
  {
    exists i :: 0 <= i < |q| && q[i].holder == h
  }

  /** h stands before k in the queue. */
  predicate Ahead(q: seq<WaitItem>, h: string, k: string)
  {
    exists i, j :: 0 <= i < j < |q| && q[i].holder == h && q[j].holder == k
  }

  lemma {:induction false} KeepOrder(q: seq<WaitItem>, keep: WaitItem -> bool)
    ensures forall i, j :: 0 <= i < j < |Keep(q, keep)| ==>
      Ahead(q, Keep(q, keep)[i].holder, Keep(q, keep)[j].holder)
    ensures DistinctHolders(q) ==> DistinctHolders(Keep(q, keep))
  {
    if q != [] {
      var front := q[..|q| - 1];
      KeepOrder(front, keep);
      var kept := Keep(q, keep);
      forall i, j | 0 <= i < j < |kept|
        ensures Ahead(q, kept[i].holder, kept[j].holder)
        ensures DistinctHolders(q) ==> kept[i].holder != kept[j].holder
      {
        KeepMember(front, keep, kept[i]);
        if j < |Keep(front, keep)| {
          assert Ahead(front, kept[i].holder, kept[j].holder);
        }
      }
    }
  }

  /** The queue after appending x splits into x, the only row of its holder,
      and the rows that were there. */
  lemma SplitByHolder(mine: seq<WaitItem>, x: WaitItem)
    requires forall y :: y in mine ==> y.holder != x.holder
    ensures Keep(mine + [x], (y: WaitItem) => y.holder == x.holder) == [x]
    ensures Keep(mine + [x], (y: WaitItem) => y.holder != x.holder) == mine
  {
    var isGold := (y: WaitItem) => y.holder == x.holder;
    var isOther := (y: WaitItem) => y.holder != x.holder;
    KeepAppend(mine, x, isGold);
    KeepAppend(mine, x, isOther);
    KeepNothing(mine, isGold);
    KeepEverything(mine, isOther);
  }

  lemma QueueWithoutLock(q: seq<WaitItem>, l: string, k: string)
    ensures QueueOf(Keep(q, (y: WaitItem) => y.lockName != l), k) == if k == l then [] else QueueOf(q, k)
  {
    var foreign := (y: WaitItem) => y.lockName != l;
    QueueKeep(q, foreign, k);
    forall y | y in QueueOf(q, k)
      ensures y.lockName == k
    {
      QueueMember(q, k, y);
    }
    if k == l {
      KeepNothing(QueueOf(q, k), foreign);
    } else {
      KeepEverything(QueueOf(q, k), foreign);
    }
  }

  lemma QueueOfOneLock(q: seq<WaitItem>, l: string, k: string)
    requires forall y :: y in q ==> y.lockName == l
    ensures QueueOf(q, k) == if k == l then q else []
  {
  }

  lemma MoveToFrontAt(q: seq<WaitItem>, x: WaitItem, k: string)
    requires forall y :: y in QueueOf(q, x.lockName) ==> y.holder != x.holder
    ensures QueueOf(MoveToFront(q + [x], x.lockName, x.holder), k) ==
      if k == x.lockName then [x] + QueueOf(q, k) else QueueOf(q, k)
  {
    hide QueueOf;
    hide Keep;
    var l, all := x.lockName, q + [x];
    var mine := QueueOf(q, l);
    QueueAppend(q, x, l);
    QueueAppend(q, x, k);
    SplitByHolder(mine, x);
    if mine != [] {
      var rest := Keep(all, (y: WaitItem) => y.lockName != l);
      QueueConcat(rest + [x], mine, k);
      QueueConcat(rest, [x], k);
      QueueWithoutLock(all, l, k);
      forall y | y in mine
        ensures y.lockName == l
      {
        QueueMember(q, l, y);
      }
      QueueOfOneLock(mine, l, k);
      QueueOfOneLock([x], l, k);
    }
  }

  /** A gold holder's fresh row goes to the front; all others keep their order
      and the other locks' queues are untouched. */
  lemma MoveToFrontEffect(q: seq<WaitItem>, x: WaitItem)
    requires forall y :: y in QueueOf(q, x.lockName) ==> y.holder != x.holder
    ensures QueueOf(MoveToFront(q + [x], x.lockName, x.holder), x.lockName) == [x] + QueueOf(q, x.lockName)
    ensures forall k :: k != x.lockName ==>
      QueueOf(MoveToFront(q + [x], x.lockName, x.holder), k) == QueueOf(q, k)
  {
    hide QueueOf;
    hide MoveToFront;
    forall k
      ensures QueueOf(MoveToFront(q + [x], x.lockName, x.holder), k) ==
        if k == x.lockName then [x] + QueueOf(q, k) else QueueOf(q, k)
    {
      MoveToFrontAt(q, x, k);
    }
  }

  lemma ActiveAppend(leases: seq<Lease>, x: Lease, l: string)
    ensures ActiveOf(leases + [x], l) ==
      if x.lockName == l && x.active then ActiveOf(leases, l) + [x] else ActiveOf(leases, l)
  {
  }

  lemma {:induction false} ActiveDeactivate(leases: seq<Lease>, l: string, k: string)
    ensures ActiveOf(Deactivate(leases, l), k) == if k == l then [] else ActiveOf(leases, k)
  {
    if leases != [] {
      var front, last := leases[..|leases| - 1], leases[|leases| - 1];
      ActiveDeactivate(front, l, k);
      ActiveAppend(Deactivate(front, l), if last.lockName == l then last.(active := false) else last, k);
    }
  }

  /** Rescheduling changes nothing but expiry times of l's active leases. */
  lemma {:induction false} ActiveReschedule(leases: seq<Lease>, l: string, e: int, k: string)
    ensures k != l ==> ActiveOf(SetExpiry(leases, l, e), k) == ActiveOf(leases, k)
    ensures |ActiveOf(SetExpiry(leases, l, e), k)| == |ActiveOf(leases, k)|
    ensures forall i :: 0 <= i < |ActiveOf(leases, l)| && k == l ==>
      ActiveOf(SetExpiry(leases, l, e), l)[i] == ActiveOf(leases, l)[i].(expiresAt := e)
  {
    if leases != [] {
      var front, last := leases[..|leases| - 1], leases[|leases| - 1];
      ActiveReschedule(front, l, e, k);
      var last' := if last.lockName == l && last.active then last.(expiresAt := e) else last;
      ActiveAppend(SetExpiry(front, l, e), last', k);
    }
  }
}
