/** The depth-first searches of the topology manager over its adjacency lists:
    the cycle check, the ancestors in acquire order and the descendants. */
module TopologySearch {
  import opened Basics
  import opened Graphs
  import opened MapWalks

  /** The children (or parents) of each node, in list order. */
  type Table = map<string, seq<string>>

  function Row(m: Table, n: string): seq<string>
  {
    if n in m then m[n] else []
  }

  ghost function Arcs(m: Table): set<(string, string)>
  {
    set n, c | n in m && c in m[n] :: (n, c)
  }

  ghost function Ends(m: Table): set<string>
  {
    set n, c | n in m && c in m[n] :: c
  }

  ghost predicate RowsDistinct(m: Table)
  {
    forall n :: NoRepeats(Row(m, n))
  }

  lemma ArcsFrom(m: Table, n: string)
    ensures forall c :: c in Row(m, n) <==> (n, c) in Arcs(m)
    ensures forall c :: c in Row(m, n) ==> c in Ends(m)
    ensures forall e :: e in Arcs(m) && e.0 == n ==> e.1 in Row(m, n)
  {
  }

  lemma ReachesIsPlus<T(!new)>(g: set<(T, T)>, a: T, b: T)
    requires Reaches(g, a, b)
    ensures a == b || ReachesPlus(g, a, b)
  {
    var p :| PathFromTo(g, p, a, b);
    assert |p| >= 2 || a == b;
  }

  // ------------------------------------------------------------ cycle check

  class CycleSearch {
    const children: Table
    const nodes: set<string>
    var visited: set<string>
    var recStack: set<string>

    ghost function Graph(): set<(string, string)>
    {
      Arcs(children)
    }

    constructor (children: Table, nodes: set<string>)
      ensures this.children == children && this.nodes == nodes && visited == {} && recStack == {}
    {
      this.children, this.nodes := children, nodes;
      visited, recStack := {}, {};
    }

    /** The nodes on the stack lead to `node`; the finished ones see no cycle. */
    ghost predicate Searching(node: string)
      reads this
    {
      && recStack <= visited <= nodes + Ends(children)
      && (forall s :: s in recStack ==> Reaches(Graph(), s, node))
      && Finished(Graph(), visited - recStack)
    }

    method Dfs(node: string) returns (found: bool)
      requires Searching(node) && node !in visited && node in nodes + Ends(children)
      modifies this
      ensures found ==> !Acyclic(Graph())
      ensures !found ==> Searching(node) && recStack == old(recStack) && old(visited) + {node} <= visited
      decreases nodes + Ends(children) - visited, 0
    {
      ReachesSelf(Graph(), node);
      visited := visited + {node};
      recStack := recStack + {node};
      assert visited - recStack == old(visited - recStack);
      found := VisitChildren(node);
      if !found {
        ArcsFrom(children, node);
        FinishNode(Graph(), visited - recStack, node);
        ghost var done := visited - recStack;
        recStack := recStack - {node};
        assert visited - recStack == done + {node};
      }
    }

    method VisitChildren(node: string) returns (found: bool)
      requires Searching(node) && node in recStack
      modifies this
      ensures found ==> !Acyclic(Graph())
      ensures !found ==> Searching(node) && recStack == old(recStack) && old(visited) <= visited
      ensures !found ==> forall c :: c in Row(children, node) ==> c in visited - recStack
      decreases nodes + Ends(children) - visited, 1
    {
      hide Finished;
      ArcsFrom(children, node);
      var row := Row(children, node);
      var i := 0;
      while i < |row|
        invariant 0 <= i <= |row|
        invariant Searching(node) && recStack == old(recStack) && old(visited) <= visited
        invariant forall k :: 0 <= k < i ==> row[k] in visited - recStack
      {
        var child := row[i];
        assert child in row && (node, child) in Graph();
        if child !in visited {
          StackLeadsOn(Graph(), recStack, node, child);
          ghost var done := visited - recStack;
          found := Dfs(child);
          if found {
            return;
          }
          assert done <= visited - recStack;
          assert forall s :: s in recStack ==> Reaches(Graph(), s, node);
        } else if child in recStack {
          ReachesThenEdge(Graph(), child, node, child);
          return true;
        }
        i := i + 1;
      }
      found := false;
    }
  }

  lemma StackLeadsOn(g: set<(string, string)>, stack: set<string>, n: string, c: string)
    requires (n, c) in g && forall s :: s in stack ==> Reaches(g, s, n)
    ensures forall s :: s in stack ==> Reaches(g, s, c)
  {
    forall s | s in stack
      ensures Reaches(g, s, c)
    {
      ReachesThenEdge(g, s, n, c);
      PlusIsReaches(g, s, c);
    }
  }

  /** hasCycleDFS: true exactly when the lists close a cycle, whatever order the
      map yields the nodes in. */
  method HasCycleDFS(children: Table, nodes: set<string>) returns (found: bool)
    requires children.Keys <= nodes
    ensures found <==> !Acyclic(Arcs(children))
  {
    var search := new CycleSearch(children, nodes);
    var todo := nodes;
    while todo != {}
      invariant todo <= nodes && nodes - todo <= search.visited
      invariant search.recStack == {} && search.visited <= nodes + Ends(children)
      invariant Finished(Arcs(children), search.visited)
    {
      var node := Pick(todo);
      todo := todo - {node};
      if node !in search.visited {
        assert search.visited - search.recStack == search.visited;
        found := search.Dfs(node);
        if found {
          return;
        }
        assert search.visited - search.recStack == search.visited;
      }
    }
    AcyclicByNodes(Arcs(children), nodes);
    found := false;
  }

  // -------------------------------------------------------------- ancestors

  /** The rows of the nodes in s, as one bag. */
  ghost function Bag(m: Table, s: set<string>): multiset<string>
  {
    if s == {} then multiset{}
    else
      var n :| n in s;
      multiset(Row(m, n)) + Bag(m, s - {n})
  }

  lemma {:induction false} BagRemove(m: Table, s: set<string>, n: string)
    requires n in s
    ensures Bag(m, s) == multiset(Row(m, n)) + Bag(m, s - {n})
    decreases |s|
  {
    var first :| first in s && Bag(m, s) == multiset(Row(m, first)) + Bag(m, s - {first});
    if first != n {
      BagRemove(m, s - {first}, n);
      BagRemove(m, s - {n}, first);
      assert s - {first} - {n} == s - {n} - {first};
    }
  }

  lemma BagsAssociate(x: multiset<string>, y: multiset<string>, z: multiset<string>)
    ensures x + (y + z) == (x + y) + z
  {
  }

  lemma WithoutOne(a: set<string>, b: set<string>, n: string)
    requires a !! b && n in a
    ensures a + b - {n} == (a - {n}) + b && (a - {n}) !! b && |a - {n}| < |a| && n in a + b
  {
  }

  lemma {:induction false} BagUnion(m: Table, a: set<string>, b: set<string>)
    requires a !! b
    ensures Bag(m, a + b) == Bag(m, a) + Bag(m, b)
    decreases |a|
  {
    if a == {} {
      assert a + b == b;
    } else {
      var n :| n in a;
      hide Bag;
      WithoutOne(a, b, n);
      BagRemove(m, a, n);
      BagRemove(m, a + b, n);
      BagUnion(m, a - {n}, b);
      BagsAssociate(multiset(Row(m, n)), Bag(m, a - {n}), Bag(m, b));
    }
  }

  /** The nodes of s that list x. */
  function ListedBy(m: Table, s: set<string>, x: string): set<string>
  {
    set n | n in s && x in Row(m, n)
  }

  /** With rows free of repeats, x is in the bag once for every node listing it. */
  lemma {:induction false} BagCount(m: Table, s: set<string>, x: string)
    requires RowsDistinct(m)
    ensures Bag(m, s)[x] == |ListedBy(m, s, x)|
    decreases |s|
  {
    if s != {} {
      var n :| n in s;
      BagRemove(m, s, n);
      BagCount(m, s - {n}, x);
      assert NoRepeats(Row(m, n));
      DistinctCount(Row(m, n), x);
      if x in Row(m, n) {
        assert ListedBy(m, s, x) == ListedBy(m, s - {n}, x) + {n};
      } else {
        assert ListedBy(m, s, x) == ListedBy(m, s - {n}, x);
      }
    }
  }

  lemma {:induction false} DistinctCount(s: seq<string>, x: string)
    requires NoRepeats(s)
    ensures multiset(s)[x] == if x in s then 1 else 0
  {
    if s != [] {
      var front := s[..|s| - 1];
      assert s == front + [s[|s| - 1]];
      DistinctCount(front, x);
    }
  }

  /** Every occurrence in out comes after all nodes reachable from it. */
  ghost predicate AncestorsFirst(g: set<(string, string)>, out: seq<string>)
  {
    forall i, b :: 0 <= i < |out| && ReachesPlus(g, out[i], b) ==> b in out[..i]
  }

  ghost predicate Complete(g: set<(string, string)>, out: seq<string>, n: string)
  {
    forall b :: ReachesPlus(g, n, b) ==> b in out
  }

  ghost predicate AllComplete(g: set<(string, string)>, out: seq<string>, s: set<string>)
  {
    forall n :: n in s ==> Complete(g, out, n)
  }

  lemma AppendComplete(g: set<(string, string)>, out: seq<string>, s: set<string>, p: string)
    requires AncestorsFirst(g, out) && AllComplete(g, out, s) && p in s
    ensures AncestorsFirst(g, out + [p]) && AllComplete(g, out + [p], s)
  {
    var r := out + [p];
    forall i, b | 0 <= i < |r| && ReachesPlus(g, r[i], b)
      ensures b in r[..i]
    {
      if i < |out| {
        assert r[..i] == out[..i];
      } else {
        assert Complete(g, out, p) && r[..i] == out;
      }
    }
    forall n | n in s
      ensures Complete(g, r, n)
    {
      assert Complete(g, out, n);
    }
  }

  /** A node whose successors are all listed and complete is complete. */
  lemma NodeComplete(g: set<(string, string)>, out: seq<string>, s: set<string>, n: string)
    requires AllComplete(g, out, s)
    requires forall e :: e in g && e.0 == n ==> e.1 in s && e.1 in out
    ensures AllComplete(g, out, s + {n})
  {
    forall b | ReachesPlus(g, n, b)
      ensures b in out
    {
      var p := FirstStep(g, n, b);
      assert (n, p).0 == n && p in s && Complete(g, out, p);
      ReachesIsPlus(g, p, b);
    }
  }

  class AncestorSearch {
    const parents: Table
    ghost const target: string
    var visited: set<string>
    var ancestors: seq<string>

    ghost function Graph(): set<(string, string)>
    {
      Arcs(parents)
    }

    constructor (parents: Table, target: string)
      ensures this.parents == parents && this.target == target && visited == {} && ancestors == []
    {
      this.parents, this.target := parents, target;
      visited, ancestors := {}, [];
    }

    /** Visited nodes are reachable; those off the stack have their parents
        visited and, in an acyclic graph, all their ancestors listed. */
    ghost predicate Searching(stack: set<string>)
      reads this
    {
      && stack <= visited <= Ends(parents) + {target}
      && (forall v :: v in visited ==> Reaches(Graph(), target, v))
      && (forall e :: e in Graph() && e.0 in visited - stack ==> e.1 in visited)
      && (Acyclic(Graph()) ==> AncestorsFirst(Graph(), ancestors) && AllComplete(Graph(), ancestors, visited - stack))
    }

    method Dfs(n: string, ghost stack: set<string>)
      requires Searching(stack) && n in Ends(parents) + {target} && Reaches(Graph(), target, n)
      requires forall s :: s in stack ==> Reaches(Graph(), s, n)
      modifies this
      ensures Searching(stack) && old(visited) + {n} <= visited && old(ancestors) <= ancestors
      ensures multiset(ancestors) == multiset(old(ancestors)) + Bag(parents, visited - old(visited))
      decreases Ends(parents) + {target} - visited, 0
    {
      if n in visited {
        assert visited - old(visited) == {};
        return;
      }
      visited := visited + {n};
      ReachesSelf(Graph(), n);
      assert visited - (stack + {n}) == old(visited) - stack;
      VisitParents(n, stack + {n});
      assert visited - stack == visited - (stack + {n}) + {n};
      BagRemove(parents, visited - old(visited), n);
      assert visited - old(visited) - {n} == visited - (old(visited) + {n});
    }

    method VisitParents(n: string, ghost stack: set<string>)
      requires Searching(stack) && n in stack && Reaches(Graph(), target, n)
      requires forall s :: s in stack ==> Reaches(Graph(), s, n)
      modifies this
      ensures Searching(stack) && old(visited) <= visited && old(ancestors) <= ancestors
      ensures forall e :: e in Graph() && e.0 == n ==> e.1 in visited
      ensures Acyclic(Graph()) ==> AllComplete(Graph(), ancestors, visited - stack + {n})
      ensures multiset(ancestors) ==
              multiset(old(ancestors)) + (multiset(Row(parents, n)) + Bag(parents, visited - old(visited)))
      decreases Ends(parents) + {target} - visited, 2
    {
      hide Arcs;
      hide Reaches;
      hide AncestorsFirst;
      hide AllComplete;
      hide Acyclic;
      hide Bag;
      hide Off;
      var row := Row(parents, n);
      ArcsFrom(parents, n);
      var i := 0;
      NothingVisited(parents, visited, ancestors, row);
      while i < |row|
        invariant 0 <= i <= |row|
        invariant Searching(stack) && old(visited) <= visited && old(ancestors) <= ancestors
        invariant forall k :: 0 <= k < i ==> row[k] in visited
        invariant Acyclic(Arcs(parents)) ==> Off(row[..i], visited - stack, ancestors)
        invariant multiset(ancestors) ==
                  multiset(old(ancestors)) + (multiset(row[..i]) + Bag(parents, visited - old(visited)))
      {
        ghost var seen, before := visited, ancestors;
        assert row[i] in row;
        VisitParent(n, row[i], stack);
        OffGrows(row, i, seen - stack, before, visited - stack, ancestors);
        GrowBag(parents, row, i, old(visited), seen, visited, multiset(old(ancestors)), multiset(before),
                multiset(ancestors));
        i := i + 1;
      }
      assert row[..|row|] == row;
      if Acyclic(Arcs(parents)) {
        AllListed(parents, row, ancestors, visited - stack, n);
      }
    }

    /** One turn of the loop: the parent's own ancestors, then the parent. */
    method VisitParent(n: string, parent: string, ghost stack: set<string>)
      requires Searching(stack) && n in stack && Reaches(Graph(), target, n) && (n, parent) in Graph()
      requires parent in Ends(parents)
      requires forall s :: s in stack ==> Reaches(Graph(), s, n)
      modifies this
      ensures Searching(stack) && old(visited) + {parent} <= visited
      ensures old(ancestors) <= ancestors && parent in ancestors
      ensures Acyclic(Graph()) ==> parent in visited - stack
      ensures multiset(ancestors) ==
              multiset(old(ancestors)) + (multiset{parent} + Bag(parents, visited - old(visited)))
      decreases Ends(parents) + {target} - visited, 1
    {
      ReachesThenEdge(Graph(), target, n, parent);
      PlusIsReaches(Graph(), target, parent);
      StackLeadsOn(Graph(), stack, n, parent);
      hide Arcs;
      hide Reaches;
      hide AncestorsFirst;
      hide AllComplete;
      hide Acyclic;
      hide Bag;
      Dfs(parent, stack);
      OffStack(Graph(), stack, n, parent);
      if Acyclic(Graph()) {
        AppendComplete(Graph(), ancestors, visited - stack, parent);
      }
      ancestors := ancestors + [parent];
    }
  }

  /** The nodes of row are off the stack and listed. */
  predicate Off(row: seq<string>, finished: set<string>, out: seq<string>)
  {
    forall x :: x in row ==> x in finished && x in out
  }

  lemma OffGrows(row: seq<string>, i: nat, finished: set<string>, out: seq<string>, finished': set<string>,
                 out': seq<string>)
    requires i < |row| && finished <= finished' && out <= out'
    ensures Off(row[..i], finished, out) && row[i] in finished' && row[i] in out' ==> Off(row[..i + 1], finished', out')
  {
    assert row[..i + 1] == row[..i] + [row[i]];
  }

  lemma NothingVisited(m: Table, visited: set<string>, out: seq<string>, row: seq<string>)
    ensures multiset(out) == multiset(out) + (multiset(row[..0]) + Bag(m, visited - visited))
    ensures Off(row[..0], {}, out) && forall finished :: Off(row[..0], finished, out)
  {
  }

  /** The bag after one more turn of the loop. */
  lemma GrowBag(m: Table, row: seq<string>, i: nat, start: set<string>, seen: set<string>, visited: set<string>,
                first: multiset<string>, before: multiset<string>, after: multiset<string>)
    requires i < |row| && start <= seen <= visited
    requires before == first + (multiset(row[..i]) + Bag(m, seen - start))
    requires after == before + (multiset{row[i]} + Bag(m, visited - seen))
    ensures after == first + (multiset(row[..i + 1]) + Bag(m, visited - start))
  {
    hide Bag;
    assert row[..i + 1] == row[..i] + [row[i]];
    BagUnion(m, seen - start, visited - seen);
    assert (seen - start) + (visited - seen) == visited - start;
  }

  lemma AllListed(m: Table, row: seq<string>, out: seq<string>, s: set<string>, n: string)
    requires row == Row(m, n) && Off(row, s, out) && AllComplete(Arcs(m), out, s)
    ensures AllComplete(Arcs(m), out, s + {n})
  {
    ArcsFrom(m, n);
    NodeComplete(Arcs(m), out, s, n);
  }

  /** In an acyclic graph a parent is not among the nodes that lead to its child. */
  lemma OffStack(g: set<(string, string)>, stack: set<string>, n: string, p: string)
    requires (n, p) in g && forall s :: s in stack ==> Reaches(g, s, n)
    ensures Acyclic(g) ==> p !in stack
  {
    if p in stack {
      ReachesThenEdge(g, p, n, p);
    }
  }

  /** collectAncestorsLocked: the strict ancestors, each once per child it has
      among the target and its ancestors; in an acyclic graph every occurrence
      comes after all its own ancestors. */
  method CollectAncestors(parents: Table, target: string) returns (ancestors: seq<string>, ghost family: set<string>)
    ensures forall v :: v in family <==> Reaches(Arcs(parents), target, v)
    ensures forall a :: a in ancestors <==> ReachesPlus(Arcs(parents), target, a)
    ensures RowsDistinct(parents) ==> forall a :: multiset(ancestors)[a] == |ListedBy(parents, family, a)|
    ensures Acyclic(Arcs(parents)) ==> AncestorsFirst(Arcs(parents), ancestors)
  {
    var search := new AncestorSearch(parents, target);
    ReachesSelf(Arcs(parents), target);
    search.Dfs(target, {});
    ancestors, family := search.ancestors, search.visited;
    assert family - {} == family;
    forall v | Reaches(Arcs(parents), target, v)
      ensures v in family
    {
      ClosedContains(Arcs(parents), family, target, v);
    }
    forall a
      ensures a in ancestors <==> ReachesPlus(Arcs(parents), target, a)
    {
      assert a in ancestors <==> a in multiset(ancestors);
      BagMembers(parents, family, a);
      FamilyAncestors(parents, target, family, a);
    }
    if RowsDistinct(parents) {
      forall a
        ensures multiset(ancestors)[a] == |ListedBy(parents, family, a)|
      {
        BagCount(parents, family, a);
      }
    }
  }

  lemma {:induction false} BagMembers(m: Table, s: set<string>, x: string)
    ensures x in Bag(m, s) <==> ListedBy(m, s, x) != {}
    decreases |s|
  {
    if s != {} {
      var n :| n in s;
      BagRemove(m, s, n);
      BagMembers(m, s - {n}, x);
      ListedSplit(m, s, n, x);
      hide *;
      assert x in Bag(m, s) <==> x in Bag(m, s - {n}) || x in multiset(Row(m, n));
      assert n in {n};
    }
  }

  lemma ListedSplit(m: Table, s: set<string>, n: string, x: string)
    requires n in s
    ensures ListedBy(m, s, x) == ListedBy(m, s - {n}, x) + if x in Row(m, n) then {n} else {}
  {
  }

  lemma FamilyAncestors(m: Table, target: string, family: set<string>, a: string)
    requires forall v :: v in family <==> Reaches(Arcs(m), target, v)
    ensures ListedBy(m, family, a) != {} <==> ReachesPlus(Arcs(m), target, a)
  {
    if ListedBy(m, family, a) != {} {
      var c :| c in ListedBy(m, family, a);
      ArcsFrom(m, c);
      ReachesThenEdge(Arcs(m), target, c, a);
    }
    if ReachesPlus(Arcs(m), target, a) {
      var c := LastStep(Arcs(m), target, a);
      assert c in ListedBy(m, family, a);
    }
  }

  // ------------------------------------------------------------ descendants

  lemma AppendDistinct(s: seq<string>, x: string)
    requires NoRepeats(s) && x !in s
    ensures NoRepeats(s + [x])
  {
  }

  class DescendantSearch {
    const children: Table
    ghost const target: string
    var visited: set<string>
    var descendants: seq<string>

    ghost function Graph(): set<(string, string)>
    {
      Arcs(children)
    }

    constructor (children: Table, target: string)
      ensures this.children == children && this.target == target && visited == {} && descendants == []
    {
      this.children, this.target := children, target;
      visited, descendants := {}, [];
    }

    ghost predicate Searching(stack: set<string>)
      reads this
    {
      && stack <= visited <= Ends(children)
      && NoRepeats(descendants) && (forall d :: d in descendants <==> d in visited)
      && (forall v :: v in visited ==> ReachesPlus(Graph(), target, v))
      && (forall e :: e in Graph() && e.0 in visited - stack ==> e.1 in visited)
    }

    method Dfs(n: string, ghost stack: set<string>)
      requires Searching(stack) && n in Ends(children) && ReachesPlus(Graph(), target, n)
      modifies this
      ensures Searching(stack) && old(visited) + {n} <= visited
      decreases Ends(children) - visited, 0
    {
      if n in visited {
        return;
      }
      AppendDistinct(descendants, n);
      visited := visited + {n};
      descendants := descendants + [n];
      assert visited - (stack + {n}) == old(visited) - stack;
      VisitChildren(n, stack + {n});
      ArcsFrom(children, n);
      assert visited - stack == visited - (stack + {n}) + {n};
    }

    method VisitChildren(n: string, ghost stack: set<string>)
      requires Searching(stack) && n in stack && ReachesPlus(Graph(), target, n)
      modifies this
      ensures Searching(stack) && old(visited) <= visited
      ensures forall c :: c in Row(children, n) ==> c in visited
      decreases Ends(children) - visited, 1
    {
      hide Arcs;
      hide NoRepeats;
      hide ReachesPlus;
      var row := Row(children, n);
      ArcsFrom(children, n);
      PlusIsReaches(Graph(), target, n);
      var i := 0;
      while i < |row|
        invariant 0 <= i <= |row|
        invariant Searching(stack) && old(visited) <= visited
        invariant forall k :: 0 <= k < i ==> row[k] in visited
      {
        assert row[i] in row;
        ReachesThenEdge(Graph(), target, n, row[i]);
        Dfs(row[i], stack);
        i := i + 1;
      }
    }
  }

  /** collectDescendantsLocked: every strict descendant exactly once, in any
      graph. */
  method CollectDescendants(children: Table, target: string) returns (descendants: seq<string>)
    ensures NoRepeats(descendants)
    ensures forall d :: d in descendants <==> ReachesPlus(Arcs(children), target, d)
  {
    var search := new DescendantSearch(children, target);
    var row := Row(children, target);
    ArcsFrom(children, target);
    var i := 0;
    while i < |row|
      invariant 0 <= i <= |row|
      invariant search.Searching({})
      invariant forall k :: 0 <= k < i ==> row[k] in search.visited
    {
      assert row[i] in row;
      EdgeReaches(Arcs(children), target, row[i]);
      search.Dfs(row[i], {});
      i := i + 1;
    }
    descendants := search.descendants;
    forall d | ReachesPlus(Arcs(children), target, d)
      ensures d in descendants
    {
      var c := FirstStep(Arcs(children), target, d);
      assert (target, c).0 == target && c in row && c in search.visited;
      assert search.visited - {} == search.visited;
      ClosedContains(Arcs(children), search.visited, c, d);
    }
  }
}
