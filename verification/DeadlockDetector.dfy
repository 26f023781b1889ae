/** The deadlock detector of the lock manager (detectCycle, checkDeadlockLocked):
    a depth-first search with a recursion stack over the wait-for adjacency
    map waiter -> holder -> lock name.  Map iteration order is arbitrary, so
    successors are picked with ":|". */
module DeadlockDetector {
  import opened Graphs

  type Adjacency = map<string, map<string, string>>

  /** One reported edge: waiter wants lockName, which holder holds. */
  datatype WaitEdge = WaitEdge(waiter: string, lockName: string, holder: string)

  function Successors(adj: Adjacency, n: string): set<string>
  {
    if n in adj then adj[n].Keys else {}
  }

  ghost function EdgesOf(adj: Adjacency): set<(string, string)>
  {
    set n, h | n in adj && h in adj[n] :: (n, h)
  }

  ghost function NodesOf(adj: Adjacency): set<string>
  {
    adj.Keys + set n, h | n in adj && h in adj[n] :: h
  }

  /** c[0] -> c[1] -> ... -> c[|c|-1] -> c[0] */
  ghost predicate IsCycle(g: set<(string, string)>, c: seq<string>)
  {
    IsPath(g, c) && (c[|c| - 1], c[0]) in g
  }

  lemma CycleReaches(g: set<(string, string)>, c: seq<string>)
    requires IsCycle(g, c)
    ensures ReachesPlus(g, c[0], c[0])
  {
    assert PathFromTo(g, c, c[0], c[|c| - 1]);
    ReachesThenEdge(g, c[0], c[|c| - 1], c[0]);
  }

  lemma EdgesFrom(adj: Adjacency, n: string)
    ensures forall h :: h in Successors(adj, n) ==> (n, h) in EdgesOf(adj) && h in NodesOf(adj)
    ensures forall e :: e in EdgesOf(adj) && e.0 == n ==> e.1 in Successors(adj, n)
  {
  }

  class CycleDetector {
    const adj: Adjacency
    var visited: set<string>
    var recStack: set<string>
    var path: seq<string>
    var cycleNodes: seq<string>

    constructor (adj: Adjacency)
      ensures this.adj == adj && visited == {} && recStack == {} && path == [] && cycleNodes == []
    {
      this.adj := adj;
      visited, recStack, path, cycleNodes := {}, {}, [], [];
    }

    ghost function Graph(): set<(string, string)>
    {
      EdgesOf(adj)
    }

    /** The stack is the current path, and the finished nodes are closed under
        edges and see no cycle. */
    ghost predicate Searching()
      reads this
    {
      && (forall x :: x in recStack <==> x in path)
      && recStack <= visited <= NodesOf(adj)
      && (path != [] ==> IsPath(Graph(), path))
      && Finished(Graph(), visited - recStack)
    }

    /** The closure dfs: true when the recursion stack closes a cycle. */
    method Dfs(node: string) returns (found: bool)
      requires Searching()
      requires node !in visited && node in NodesOf(adj)
      requires path != [] ==> (path[|path| - 1], node) in Graph()
      modifies this
      ensures found ==> IsCycle(Graph(), cycleNodes)
      ensures found ==> Reaches(Graph(), (old(path) + [node])[0], cycleNodes[0])
      ensures !found ==> Searching() && path == old(path) && recStack == old(recStack)
      ensures !found ==> old(visited) + {node} <= visited
      decreases NodesOf(adj) - visited, 0
    {
      Push(node);
      found := VisitSuccessors(node);
      if !found {
        Pop(node);
        assert recStack == old(recStack);
      }
    }

    method Push(node: string)
      requires Searching()
      requires node !in visited && node in NodesOf(adj)
      requires path != [] ==> (path[|path| - 1], node) in Graph()
      modifies this
      ensures Searching() && path == old(path) + [node]
      ensures visited == old(visited) + {node} && recStack == old(recStack) + {node}
    {
      ghost var path0 := path;
      visited := visited + {node};
      recStack := recStack + {node};
      path := path + [node];
      ExtendPath(Graph(), path0, node);
      assert visited - recStack == old(visited - recStack);
    }

    /** The loop over adj[node], in any order. */
    method VisitSuccessors(node: string) returns (found: bool)
      requires Searching() && path != [] && path[|path| - 1] == node
      modifies this
      ensures found ==> IsCycle(Graph(), cycleNodes) && Reaches(Graph(), old(path)[0], cycleNodes[0])
      ensures !found ==> Searching() && path == old(path) && recStack == old(recStack)
      ensures !found ==> old(visited) <= visited && Successors(adj, node) <= visited - recStack
      decreases NodesOf(adj) - visited, 1
    {
      hide EdgesOf;
      hide NodesOf;
      hide IsPath;
      hide IsCycle;
      hide Finished;
      hide Reaches;
      EdgesFrom(adj, node);
      var todo := Successors(adj, node);
      while todo != {}
        invariant todo <= Successors(adj, node)
        invariant path == old(path) && recStack == old(recStack)
        invariant Searching()
        invariant old(visited) <= visited
        invariant Successors(adj, node) - todo <= visited - recStack
        decreases todo
      {
        var next :| next in todo;
        todo := todo - {next};
        if next !in visited {
          ghost var finished := visited - recStack;
          found := Dfs(next);
          if found {
            return;
          }
          assert finished + {next} <= visited - recStack;
        } else if next in recStack {
          ReportCycle(next);
          return true;
        }
      }
      found := false;
    }

    /** All successors are finished, so the node is. */
    method Pop(node: string)
      requires Searching() && path != [] && path[|path| - 1] == node && node !in path[..|path| - 1]
      requires Successors(adj, node) <= visited - recStack
      modifies this
      ensures Searching() && path == old(path)[..|old(path)| - 1]
      ensures visited == old(visited) && recStack == old(recStack) - {node}
    {
      EdgesFrom(adj, node);
      FinishNode(Graph(), visited - recStack, node);
      ghost var done := visited - recStack;
      path := path[..|path| - 1];
      recStack := recStack - {node};
      assert visited - recStack == done + {node};
      assert old(path) == path + [node];
    }

    /** The back edge to next cuts the cycle out of the current path. */
    method ReportCycle(next: string)
      requires Searching() && next in path
      requires (path[|path| - 1], next) in Graph()
      modifies this`cycleNodes
      ensures IsCycle(Graph(), cycleNodes)
      ensures Reaches(Graph(), path[0], cycleNodes[0])
    {
      assert IsPath(Graph(), path);
      hide Searching;
      hide IsPath;
      hide Reaches;
      var i := 0;
      while path[i] != next
        invariant 0 <= i < |path|
        invariant next in path[i..]
        decreases |path| - i
      {
        assert path[i..] == [path[i]] + path[i + 1..];
        i := i + 1;
      }
      cycleNodes := path[i..];
      CloseCycle(Graph(), path, i);
    }
  }

  /** An edge from the end of a path to one of its nodes closes a cycle. */
  lemma CloseCycle(g: set<(string, string)>, p: seq<string>, i: nat)
    requires IsPath(g, p) && i < |p| && (p[|p| - 1], p[i]) in g
    ensures IsCycle(g, p[i..]) && Reaches(g, p[0], p[i])
  {
    CutPath(g, p, i);
    assert PathFromTo(g, p[..i + 1], p[0], p[i]);
  }

  /** Both parts of a path are paths. */
  lemma CutPath(g: set<(string, string)>, p: seq<string>, i: nat)
    requires IsPath(g, p) && i < |p|
    ensures IsPath(g, p[i..]) && IsPath(g, p[..i + 1])
  {
  }

  /** The index after i in a cyclic sequence of length n: (i + 1) mod n. */
  function NextIndex(i: nat, n: nat): (j: nat)
    requires i < n
    ensures j < n
  {
    if i + 1 == n then 0 else i + 1
  }

  /** locks[i] is the recorded label of the edge from nodes[i] to its successor
      in the cyclic order. */
  ghost predicate Labels(adj: Adjacency, nodes: seq<string>, locks: seq<string>)
    requires |locks| <= |nodes|
  {
    forall i :: 0 <= i < |locks| ==> LabelOf(adj, nodes[i], nodes[NextIndex(i, |nodes|)], locks[i])
  }

  ghost predicate LabelOf(adj: Adjacency, waiter: string, holder: string, lockName: string)
  {
    waiter in adj && holder in adj[waiter] && adj[waiter][holder] == lockName
  }

  lemma CycleEdge(g: set<(string, string)>, c: seq<string>, i: nat)
    requires IsCycle(g, c) && i < |c|
    ensures (c[i], c[NextIndex(i, |c|)]) in g
  {
  }

  /** detectCycle: found exactly when some cycle can be reached from start,
      whatever the iteration order; the lock names label the cycle's edges. */
  method DetectCycle(adj: Adjacency, start: string)
    returns (cycleNodes: seq<string>, cycleLocks: seq<string>, found: bool)
    requires start in adj
    ensures found <==> CycleReachable(EdgesOf(adj), start)
    ensures found ==> IsCycle(EdgesOf(adj), cycleNodes) && Reaches(EdgesOf(adj), start, cycleNodes[0])
    ensures found ==> |cycleLocks| == |cycleNodes| && Labels(adj, cycleNodes, cycleLocks)
  {
    cycleNodes, cycleLocks := [], [];
    var search := new CycleDetector(adj);
    found := search.Dfs(start);
    if !found {
      return;
    }
    cycleNodes := search.cycleNodes;
    CycleReaches(EdgesOf(adj), cycleNodes);
    cycleLocks := LabelCycle(adj, cycleNodes);
  }

  method LabelCycle(adj: Adjacency, cycleNodes: seq<string>) returns (cycleLocks: seq<string>)
    requires IsCycle(EdgesOf(adj), cycleNodes)
    ensures |cycleLocks| == |cycleNodes| && Labels(adj, cycleNodes, cycleLocks)
  {
    cycleLocks := [];
    var i := 0;
    while i < |cycleNodes|
      invariant 0 <= i <= |cycleNodes| && |cycleLocks| == i
      invariant Labels(adj, cycleNodes, cycleLocks)
    {
      var cur := cycleNodes[i];
      var next := cycleNodes[NextIndex(i, |cycleNodes|)];
      CycleEdge(EdgesOf(adj), cycleNodes, i);
      if cur in adj && next in adj[cur] {
        cycleLocks := cycleLocks + [adj[cur][next]];
      }
      i := i + 1;
    }
  }

  /** A closed chain of wait edges: each edge's holder is the next edge's waiter. */
  ghost predicate ClosedChain(cycle: seq<WaitEdge>)
  {
    |cycle| >= 1 &&
    forall i :: 0 <= i < |cycle| ==> cycle[i].holder == cycle[NextIndex(i, |cycle|)].waiter
  }

  /** Every edge of the chain carries the lock name the adjacency records. */
  ghost predicate LabelledBy(cycle: seq<WaitEdge>, adj: Adjacency)
  {
    forall e :: e in cycle ==> LabelOf(adj, e.waiter, e.holder, e.lockName)
  }

  function AddWait(adj: Adjacency, waiter: string, lockName: string, holder: string): Adjacency
  {
    adj[waiter := (if waiter in adj then adj[waiter] else map[])[holder := lockName]]
  }

  lemma AddWaitEdges(adj: Adjacency, waiter: string, lockName: string, holder: string)
    ensures EdgesOf(AddWait(adj, waiter, lockName, holder)) == EdgesOf(adj) + {(waiter, holder)}
  {
  }

  /** checkDeadlockLocked: the empty sequence stands for "no deadlock".  The
      prospective edge (waiter, holder) is added to the graph first. */
  method CheckDeadlock(adj: Adjacency, waiter: string, lockName: string, holder: string)
    returns (cycle: seq<WaitEdge>)
    ensures cycle != [] <==> CycleReachable(EdgesOf(adj) + {(waiter, holder)}, waiter)
    ensures cycle != [] ==> ClosedChain(cycle) && LabelledBy(cycle, AddWait(adj, waiter, lockName, holder))
  {
    var adj' := AddWait(adj, waiter, lockName, holder);
    AddWaitEdges(adj, waiter, lockName, holder);
    var cycleNodes, cycleLocks, hasCycle := DetectCycle(adj', waiter);
    if hasCycle {
      cycle := BuildCycle(adj', cycleNodes, cycleLocks);
    } else {
      cycle := [];
    }
  }

  method BuildCycle(adj: Adjacency, cycleNodes: seq<string>, cycleLocks: seq<string>)
    returns (cycle: seq<WaitEdge>)
    requires |cycleLocks| == |cycleNodes| >= 1 && Labels(adj, cycleNodes, cycleLocks)
    ensures ClosedChain(cycle) && LabelledBy(cycle, adj)
  {
    cycle := [];
    var i := 0;
    while i < |cycleNodes| - 1
      invariant 0 <= i <= |cycleNodes| - 1
      invariant |cycle| == i
      invariant forall k :: 0 <= k < i ==>
        cycle[k] == WaitEdge(cycleNodes[k], cycleLocks[k], cycleNodes[k + 1])
    {
      cycle := cycle + [WaitEdge(cycleNodes[i], cycleLocks[i], cycleNodes[i + 1])];
      i := i + 1;
    }
    if |cycleNodes| > 0 && |cycleLocks| > 0 {
      var lastIdx := |cycleLocks| - 1;
      cycle := cycle + [WaitEdge(cycleNodes[|cycleNodes| - 1], cycleLocks[lastIdx], cycleNodes[0])];
    }
    assert forall k :: 0 <= k < |cycle| ==>
      cycle[k] == WaitEdge(cycleNodes[k], cycleLocks[k], cycleNodes[NextIndex(k, |cycleNodes|)]);
  }
}
