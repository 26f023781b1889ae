/** The topology manager as the source writes it: nodes and two adjacency maps,
    children and parents, changed edge by edge. */
module Topology {
  import opened Basics
  import opened Graphs
  import opened TopologySearch

  datatype Node = Node(lockName: string, ratePolicy: string, tokenCost: int)

  /** b is listed under a in one map exactly when a is listed under b in the other. */
  ghost predicate Transposed(children: Table, parents: Table)
  {
    forall a, b :: b in Row(children, a) <==> a in Row(parents, b)
  }

  function AppendTo(m: Table, n: string, c: string): Table
  {
    m[n := Row(m, n) + [c]]
  }

  /** Position of the first x in s; |s| when there is none. */
  function IndexOf(s: seq<string>, x: string): (r: nat)
    ensures r <= |s|
    ensures r < |s| <==> x in s
    ensures r < |s| ==> s[r] == x
  {
    if s == [] then 0 else if s[0] == x then 0 else 1 + IndexOf(s[1..], x)
  }

  function CutAt(s: seq<string>, i: nat): seq<string>
    requires i < |s|
  {
    s[..i] + s[i + 1..]
  }

  lemma CutMembers(s: seq<string>, i: nat)
    requires i < |s| && NoRepeats(s)
    ensures NoRepeats(CutAt(s, i))
    ensures forall x :: x in CutAt(s, i) <==> x in s && x != s[i]
  {
  }

  lemma AppendArcs(m: Table, n: string, c: string)
    ensures Arcs(AppendTo(m, n, c)) == Arcs(m) + {(n, c)}
  {
  }

  lemma CutArcs(m: Table, n: string, i: nat)
    requires n in m && i < |m[n]| && NoRepeats(m[n])
    ensures Arcs(m[n := CutAt(m[n], i)]) == Arcs(m) - {(n, m[n][i])}
  {
  }

  /** The parents table lists the same edges the other way round. */
  lemma TransposedArcs(children: Table, parents: Table)
    requires Transposed(children, parents)
    ensures forall a, b :: (a, b) in Arcs(children) <==> (b, a) in Arcs(parents)
  {
    forall a, b
      ensures (a, b) in Arcs(children) <==> (b, a) in Arcs(parents)
    {
      ArcsFrom(children, a);
      ArcsFrom(parents, b);
    }
  }

  datatype Declared = MissingName | SelfLoop | NoFrom | NoTo | Exists | WouldCycle | Added

  class TopologyManager {
    var nodes: map<string, Node>
    var children: Table
    var parents: Table

    /** The maps are duplicate-free transposes of each other over the nodes, and
        the graph is acyclic. */
    ghost predicate Valid()
      reads this
    {
      && children.Keys <= nodes.Keys && parents.Keys <= nodes.Keys
      && Ends(children) <= nodes.Keys && Ends(parents) <= nodes.Keys
      && RowsDistinct(children) && RowsDistinct(parents)
      && Transposed(children, parents)
      && Acyclic(Arcs(children))
    }

    constructor ()
      ensures Valid() && nodes == map[] && Arcs(children) == {}
    {
      nodes, children, parents := map[], map[], map[];
      new;
      forall x | ReachesPlus(Arcs(children), x, x)
        ensures false
      {
        var y := FirstStep(Arcs(children), x, x);
      }
    }

    method RegisterNode(name: string, lockName: string, ratePolicy: string, tokenCost: int) returns (ok: bool)
      requires Valid()
      modifies this`nodes
      ensures Valid()
      ensures ok <==> name != "" && tokenCost >= 0 && name !in old(nodes)
      ensures nodes == if ok then old(nodes)[name := Node(if lockName == "" then name else lockName, ratePolicy,
                                                          tokenCost)]
                       else old(nodes)
    {
      if name == "" {
        return false;
      }
      if tokenCost < 0 {
        return false;
      }
      var lock := lockName;
      if lock == "" {
        lock := name;
      }
      if name in nodes {
        return false;
      }
      nodes := nodes[name := Node(lock, ratePolicy, tokenCost)];
      return true;
    }

    /** DeclareEdge accepts exactly the new edges between registered nodes that
        keep the graph acyclic. */
    method DeclareEdge(from: string, to: string) returns (answer: Declared)
      requires Valid()
      modifies this`children, this`parents
      ensures Valid()
      ensures answer == Added <==> from != "" && to != "" && from in nodes && to in nodes &&
                                   (from, to) !in old(Arcs(children)) && Acyclic(old(Arcs(children)) + {(from, to)})
      ensures answer == Added ==>
        children == AppendTo(old(children), from, to) && parents == AppendTo(old(parents), to, from)
      ensures answer == Added ==> Arcs(children) == old(Arcs(children)) + {(from, to)}
      ensures answer != Added ==> children == old(children) && parents == old(parents)
    {
      ArcsFrom(children, from);
      AppendArcs(children, from, to);
      if from == "" || to == "" {
        return MissingName;
      }
      if from == to {
        EdgeReaches(Arcs(children) + {(from, to)}, from, from);
        return SelfLoop;
      }
      if from !in nodes {
        return NoFrom;
      }
      if to !in nodes {
        return NoTo;
      }
      var i := 0;
      var existing := Row(children, from);
      while i < |existing|
        invariant 0 <= i <= |existing|
        invariant forall k :: 0 <= k < i ==> existing[k] != to
      {
        if existing[i] == to {
          return Exists;
        }
        i := i + 1;
      }
      var tempChildren := AppendTo(children, from, to);
      var cycle := HasCycleDFS(tempChildren, nodes.Keys);
      if cycle {
        return WouldCycle;
      }
      ArcsFrom(parents, to);
      AppendKeeps(children, parents, from, to);
      AppendArcs(parents, to, from);
      children := AppendTo(children, from, to);
      parents := AppendTo(parents, to, from);
      return Added;
    }

    method RemoveEdge(from: string, to: string) returns (ok: bool)
      requires Valid()
      modifies this`children, this`parents
      ensures Valid()
      ensures ok <==> (from, to) in old(Arcs(children))
      ensures Arcs(children) == old(Arcs(children)) - {(from, to)}
      ensures !ok ==> children == old(children) && parents == old(parents)
    {
      ArcsFrom(children, from);
      ArcsFrom(parents, to);
      var idx := IndexOf(Row(children, from), to);
      if idx == |Row(children, from)| {
        return false;
      }
      var pIdx := IndexOf(Row(parents, to), from);
      assert to in Row(children, from) && from in Row(parents, to);
      RemoveKeeps(children, parents, from, to, idx, pIdx);
      AcyclicMono(Arcs(children) - {(from, to)}, Arcs(children));
      children := children[from := CutAt(children[from], idx)];
      if pIdx < |Row(parents, to)| {
        parents := parents[to := CutAt(parents[to], pIdx)];
      }
      return true;
    }

    /** The acquire order of a cascade: every strict ancestor of the target,
        each after all of its own ancestors. */
    method CollectAncestorsOf(target: string) returns (ancestors: seq<string>, ghost family: set<string>)
      requires Valid()
      ensures forall v :: v in family <==> Reaches(Arcs(parents), target, v)
      ensures forall a :: a in ancestors <==> ReachesPlus(Arcs(parents), target, a)
      ensures forall a :: multiset(ancestors)[a] == |ListedBy(parents, family, a)|
      ensures AncestorsFirst(Arcs(parents), ancestors)
    {
      TransposeAcyclic(children, parents);
      ancestors, family := CollectAncestors(parents, target);
    }

    method CollectDescendantsOf(target: string) returns (descendants: seq<string>)
      ensures NoRepeats(descendants)
      ensures forall d :: d in descendants <==> ReachesPlus(Arcs(children), target, d)
    {
      descendants := CollectDescendants(children, target);
    }
  }

  /** A new edge keeps both maps duplicate-free and transposed. */
  lemma AppendKeeps(children: Table, parents: Table, from: string, to: string)
    requires RowsDistinct(children) && RowsDistinct(parents) && Transposed(children, parents)
    requires to !in Row(children, from)
    ensures RowsDistinct(AppendTo(children, from, to)) && RowsDistinct(AppendTo(parents, to, from))
    ensures Transposed(AppendTo(children, from, to), AppendTo(parents, to, from))
  {
    AppendRow(children, from, to);
    AppendRow(parents, to, from);
  }

  lemma AppendRow(m: Table, n: string, c: string)
    requires RowsDistinct(m) && c !in Row(m, n)
    ensures RowsDistinct(AppendTo(m, n, c))
    ensures forall k, x :: x in Row(AppendTo(m, n, c), k) <==> x in Row(m, k) || (k == n && x == c)
  {
    forall k
      ensures NoRepeats(Row(AppendTo(m, n, c), k))
    {
      assert NoRepeats(Row(m, k));
    }
  }

  /** The rows of t are those of m without c in the row of n. */
  ghost predicate RowsWithout(m: Table, t: Table, n: string, c: string)
  {
    forall k, x :: x in Row(t, k) <==> x in Row(m, k) && !(k == n && x == c)
  }

  lemma CutRow(m: Table, t: Table, n: string, i: nat)
    requires RowsDistinct(m) && n in m && i < |m[n]| && t == m[n := CutAt(m[n], i)]
    ensures RowsDistinct(t) && RowsWithout(m, t, n, m[n][i])
  {
    assert NoRepeats(Row(m, n));
    CutMembers(m[n], i);
    forall k
      ensures NoRepeats(Row(t, k))
    {
      assert NoRepeats(Row(m, k));
    }
  }

  lemma CutTransposed(children: Table, parents: Table, c: Table, p: Table, from: string, to: string)
    requires Transposed(children, parents) && RowsWithout(children, c, from, to) && RowsWithout(parents, p, to, from)
    ensures Transposed(c, p)
  {
  }

  lemma RemoveKeeps(children: Table, parents: Table, from: string, to: string, i: nat, j: nat)
    requires RowsDistinct(children) && RowsDistinct(parents) && Transposed(children, parents)
    requires from in children && i < |children[from]| && children[from][i] == to
    requires to in parents && j < |parents[to]| && parents[to][j] == from
    ensures var c, p := children[from := CutAt(children[from], i)], parents[to := CutAt(parents[to], j)];
      && RowsDistinct(c) && RowsDistinct(p) && Transposed(c, p)
      && Arcs(c) == Arcs(children) - {(from, to)} && Arcs(p) == Arcs(parents) - {(to, from)}
  {
    var c, p := children[from := CutAt(children[from], i)], parents[to := CutAt(parents[to], j)];
    assert NoRepeats(Row(children, from)) && NoRepeats(Row(parents, to));
    CutArcs(children, from, i);
    CutArcs(parents, to, j);
    CutRow(children, c, from, i);
    CutRow(parents, p, to, j);
    hide *;
    CutTransposed(children, parents, c, p, from, to);
  }

  lemma ReversePath(g: set<(string, string)>, h: set<(string, string)>, p: seq<string>) returns (q: seq<string>)
    requires forall a, b :: (a, b) in g <==> (b, a) in h
    requires IsPath(g, p)
    ensures IsPath(h, q) && |q| == |p| && q[0] == p[|p| - 1] && q[|q| - 1] == p[0]
  {
    var n := |p|;
    q := seq(n, i requires 0 <= i < n => p[n - 1 - i]);
    forall i | 0 <= i < n - 1
      ensures (q[i], q[i + 1]) in h
    {
      assert (p[n - 2 - i], p[n - 2 - i + 1]) in g;
    }
  }

  /** The reversed graph is as acyclic. */
  lemma TransposeAcyclic(children: Table, parents: Table)
    requires Transposed(children, parents) && Acyclic(Arcs(children))
    ensures Acyclic(Arcs(parents))
  {
    TransposedArcs(children, parents);
    if a :| ReachesPlus(Arcs(parents), a, a) {
      var p :| PathFromTo(Arcs(parents), p, a, a) && |p| >= 2;
      var q := ReversePath(Arcs(parents), Arcs(children), p);
      assert PathFromTo(Arcs(children), q, a, a) && |q| >= 2;
      assert ReachesPlus(Arcs(children), a, a);
    }
  }

  /** No ancestor is listed twice exactly when each has one child in the family. */
  lemma NoDuplicatesIff(parents: Table, family: set<string>, ancestors: seq<string>)
    requires forall a :: multiset(ancestors)[a] == |ListedBy(parents, family, a)|
    ensures NoRepeats(ancestors) <==> forall a :: a in ancestors ==> |ListedBy(parents, family, a)| == 1
  {
    if NoRepeats(ancestors) {
      forall a | a in ancestors
        ensures |ListedBy(parents, family, a)| == 1
      {
        DistinctCount(ancestors, a);
      }
    } else {
      var i, j :| 0 <= i < j < |ancestors| && ancestors[i] == ancestors[j];
      TwiceListed(ancestors, i, j);
      assert ancestors[i] in ancestors;
    }
  }

  lemma TwiceListed(s: seq<string>, i: nat, j: nat)
    requires i < j < |s| && s[i] == s[j]
    ensures multiset(s)[s[i]] >= 2
  {
    assert s == s[..j] + [s[j]] + s[j + 1..];
    assert s[i] in s[..j];
  }
}
