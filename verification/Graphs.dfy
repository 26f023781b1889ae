/** Directed graphs as finite edge sets: paths, reachability and acyclicity.
    The lock wait-for graph, the resource topology and the heartbeat group
    dependencies are all instances. */
module Graphs {

  /** A non-empty node sequence whose consecutive nodes are joined by edges. */
  ghost predicate IsPath<T>(g: set<(T, T)>, p: seq<T>)
  {
    |p| >= 1 && forall i :: 0 <= i < |p| - 1 ==> (p[i], p[i + 1]) in g
  }

  ghost predicate PathFromTo<T>(g: set<(T, T)>, p: seq<T>, a: T, b: T)
  {
    IsPath(g, p) && p[0] == a && p[|p| - 1] == b
  }

  /** b can be reached from a in zero or more steps. */
  ghost predicate Reaches<T(!new)>(g: set<(T, T)>, a: T, b: T)
  {
    exists p :: PathFromTo(g, p, a, b)
  }

  /** b can be reached from a in one or more steps. */
  ghost predicate ReachesPlus<T(!new)>(g: set<(T, T)>, a: T, b: T)
  {
    exists p :: PathFromTo(g, p, a, b) && |p| >= 2
  }

  ghost predicate Acyclic<T(!new)>(g: set<(T, T)>)
  {
    forall a :: !ReachesPlus(g, a, a)
  }

  /** Some cycle can be reached from a. */
  ghost predicate CycleReachable<T(!new)>(g: set<(T, T)>, a: T)
  {
    exists c :: Reaches(g, a, c) && ReachesPlus(g, c, c)
  }

  lemma ReachesSelf<T(!new)>(g: set<(T, T)>, a: T)
    ensures Reaches(g, a, a)
  {
    assert PathFromTo(g, [a], a, a);
  }

  lemma EdgeReaches<T(!new)>(g: set<(T, T)>, a: T, b: T)
    requires (a, b) in g
    ensures ReachesPlus(g, a, b) && Reaches(g, a, b)
  {
    var p := [a, b];
    assert PathFromTo(g, p, a, b) && |p| >= 2;
  }

  lemma JoinPaths<T>(g: set<(T, T)>, p: seq<T>, q: seq<T>, a: T, b: T, c: T)
    requires PathFromTo(g, p, a, b) && PathFromTo(g, q, b, c)
    ensures PathFromTo(g, p + q[1..], a, c)
  {
  }

  lemma ReachesTrans<T(!new)>(g: set<(T, T)>, a: T, b: T, c: T)
    requires Reaches(g, a, b) && Reaches(g, b, c)
    ensures Reaches(g, a, c)
    ensures ReachesPlus(g, a, b) || ReachesPlus(g, b, c) ==> ReachesPlus(g, a, c)
  {
    var p :| PathFromTo(g, p, a, b) && (ReachesPlus(g, a, b) ==> |p| >= 2);
    var q :| PathFromTo(g, q, b, c) && (ReachesPlus(g, b, c) ==> |q| >= 2);
    JoinPaths(g, p, q, a, b, c);
  }

  lemma PlusIsReaches<T(!new)>(g: set<(T, T)>, a: T, b: T)
    requires ReachesPlus(g, a, b)
    ensures Reaches(g, a, b)
  {
  }

  /** A path of one or more steps splits into its first edge and the rest. */
  lemma FirstStep<T(!new)>(g: set<(T, T)>, a: T, b: T) returns (s: T)
    requires ReachesPlus(g, a, b)
    ensures (a, s) in g && Reaches(g, s, b)
  {
    var p :| PathFromTo(g, p, a, b) && |p| >= 2;
    s := p[1];
    assert (p[0], p[0 + 1]) in g;
    var q := p[1..];
    forall i | 0 <= i < |q| - 1
      ensures (q[i], q[i + 1]) in g
    {
      assert q[i] == p[i + 1] && q[i + 1] == p[i + 1 + 1];
    }
    assert PathFromTo(g, q, s, b);
  }

  /** A path has one node or leaves its first node by an edge. */
  lemma PathHead<T>(g: set<(T, T)>, p: seq<T>)
    requires IsPath(g, p)
    ensures |p| == 1 || exists e :: e in g && e.0 == p[0]
  {
    if |p| > 1 {
      assert (p[0], p[0 + 1]) in g;
      assert (p[0], p[1]).0 == p[0];
    }
  }

  lemma LastStep<T(!new)>(g: set<(T, T)>, a: T, b: T) returns (s: T)
    requires ReachesPlus(g, a, b)
    ensures Reaches(g, a, s) && (s, b) in g
  {
    var p :| PathFromTo(g, p, a, b) && |p| >= 2;
    s := p[|p| - 2];
    assert (p[|p| - 2], p[|p| - 2 + 1]) in g;
    assert PathFromTo(g, p[..|p| - 1], a, s);
  }

  lemma EdgeThenReaches<T(!new)>(g: set<(T, T)>, a: T, b: T, c: T)
    requires (a, b) in g && Reaches(g, b, c)
    ensures ReachesPlus(g, a, c)
  {
    EdgeReaches(g, a, b);
    ReachesTrans(g, a, b, c);
  }

  lemma ReachesThenEdge<T(!new)>(g: set<(T, T)>, a: T, b: T, c: T)
    requires Reaches(g, a, b) && (b, c) in g
    ensures ReachesPlus(g, a, c)
  {
    EdgeReaches(g, b, c);
    ReachesTrans(g, a, b, c);
  }

  lemma ReachesMono<T(!new)>(g: set<(T, T)>, h: set<(T, T)>, a: T, b: T)
    requires g <= h
    ensures Reaches(g, a, b) ==> Reaches(h, a, b)
    ensures ReachesPlus(g, a, b) ==> ReachesPlus(h, a, b)
  {
    forall p | PathFromTo(g, p, a, b)
      ensures PathFromTo(h, p, a, b)
    {
    }
  }

  lemma AcyclicMono<T(!new)>(g: set<(T, T)>, h: set<(T, T)>)
    requires g <= h && Acyclic(h)
    ensures Acyclic(g)
  {
    forall a
      ensures !ReachesPlus(g, a, a)
    {
      ReachesMono(g, h, a, a);
    }
  }

  /** Nodes on the far side of a set closed under edges stay out of reach. */
  lemma ClosedContains<T(!new)>(g: set<(T, T)>, s: set<T>, a: T, b: T)
    requires forall e :: e in g && e.0 in s ==> e.1 in s
    requires a in s && Reaches(g, a, b)
    ensures b in s
  {
    var p :| PathFromTo(g, p, a, b);
    PathStaysIn(g, s, p);
  }

  lemma {:induction false} PathStaysIn<T>(g: set<(T, T)>, s: set<T>, p: seq<T>)
    requires forall e :: e in g && e.0 in s ==> e.1 in s
    requires IsPath(g, p) && p[0] in s
    ensures forall i :: 0 <= i < |p| ==> p[i] in s
  {
    if |p| > 1 {
      var q := p[..|p| - 1];
      PathStaysIn(g, s, q);
      assert q[|q| - 1] == p[|p| - 2];
      assert (p[|p| - 2], p[|p| - 2 + 1]) in g;
    }
  }

  /** A path that uses the extra edges E either avoids them or enters one of
      them: the part before its first extra edge lies in g. */
  lemma {:induction false} FirstExtraEdge<T(!new)>(g: set<(T, T)>, extra: set<(T, T)>, p: seq<T>)
    returns (avoids: bool, u: T, v: T)
    requires IsPath(g + extra, p)
    ensures avoids ==> IsPath(g, p)
    ensures !avoids ==> (u, v) in extra && Reaches(g, p[0], u) && Reaches(g + extra, v, p[|p| - 1])
  {
    if |p| == 1 {
      avoids, u, v := true, p[0], p[0];
    } else {
      assert (p[0], p[0 + 1]) in g + extra;
      var q := p[1..];
      forall i | 0 <= i < |q| - 1
        ensures (q[i], q[i + 1]) in g + extra
      {
        assert q[i] == p[i + 1] && q[i + 1] == p[i + 1 + 1];
      }
      assert q[|q| - 1] == p[|p| - 1];
      if (p[0], p[1]) in g {
        avoids, u, v := FirstExtraEdge(g, extra, q);
        if avoids {
          forall i | 0 <= i < |p| - 1
            ensures (p[i], p[i + 1]) in g
          {
            if i > 0 {
              assert p[i] == q[i - 1] && p[i + 1] == q[i - 1 + 1];
            }
          }
        } else {
          EdgeThenReaches(g, p[0], p[1], u);
          PlusIsReaches(g, p[0], u);
        }
      } else {
        avoids, u, v := false, p[0], p[1];
        ReachesSelf(g, u);
        assert PathFromTo(g + extra, q, v, p[|p| - 1]);
      }
    }
  }

  /** A cycle of g + extra, where all extra edges enter t, is a cycle of g or
      shows that t reaches the tail of an extra edge inside g. */
  lemma CycleThrough<T(!new)>(g: set<(T, T)>, extra: set<(T, T)>, t: T, a: T)
    requires forall e :: e in extra ==> e.1 == t
    requires ReachesPlus(g + extra, a, a)
    ensures ReachesPlus(g, a, a) || exists e :: e in extra && Reaches(g, t, e.0)
  {
    var p :| PathFromTo(g + extra, p, a, a) && |p| >= 2;
    var avoids, u, v := FirstExtraEdge(g, extra, p);
    if avoids {
      assert PathFromTo(g, p, a, a);
    } else {
      assert (u, v).1 == t;
      // t reaches a in g + extra, and a reaches u in g.
      var q :| PathFromTo(g + extra, q, t, a);
      var avoids', u', v' := FirstExtraEdge(g, extra, q);
      if avoids' {
        assert PathFromTo(g, q, t, a);
        ReachesTrans(g, t, a, u);
        assert (u, v).0 == u;
      } else {
        assert (u', v').0 == u';
      }
    }
  }

  /** Adding edges that all enter one node t: a cycle appears exactly when t
      already reached the tail of one of them. */
  lemma AddEdgesInto<T(!new)>(g: set<(T, T)>, extra: set<(T, T)>, t: T)
    requires Acyclic(g)
    requires forall e :: e in extra ==> e.1 == t
    ensures Acyclic(g + extra) <==> forall e :: e in extra ==> !Reaches(g, t, e.0)
  {
    if exists e :: e in extra && Reaches(g, t, e.0) {
      var e :| e in extra && Reaches(g, t, e.0);
      ReachesMono(g, g + extra, t, e.0);
      assert (e.0, t) == e;
      ReachesThenEdge(g + extra, t, e.0, t);
      assert !Acyclic(g + extra);
    } else {
      forall a | ReachesPlus(g + extra, a, a)
        ensures ReachesPlus(g, a, a)
      {
        CycleThrough(g, extra, t, a);
      }
    }
  }

  /** One more edge closes a cycle exactly when its head reached its tail. */
  lemma AddEdge<T(!new)>(g: set<(T, T)>, a: T, b: T)
    requires Acyclic(g)
    ensures Acyclic(g + {(a, b)}) <==> !Reaches(g, b, a)
  {
    AddEdgesInto(g, {(a, b)}, b);
    assert (a, b) in {(a, b)} && (a, b).0 == a;
  }

  /** In a finite acyclic graph, if every node of s lies in q or has an edge
      into s, then every node of s reaches a node of s that lies in q. */
  lemma WalkToGoal<T(!new)>(g: set<(T, T)>, s: set<T>, q: set<T>, a: T) returns (b: T)
    requires Acyclic(g) && a in s
    requires forall x :: x in s ==> x in q || exists y :: y in s && (x, y) in g
    ensures b in s && b in q && Reaches(g, a, b)
  {
    ReachesSelf(g, a);
    b := WalkFrom(g, s, q, a, a, {});
  }

  lemma {:induction false} WalkFrom<T(!new)>(g: set<(T, T)>, s: set<T>, q: set<T>, a: T, x: T, seen: set<T>)
    returns (b: T)
    requires Acyclic(g) && x in s && seen <= s
    requires forall z :: z in s ==> z in q || exists y :: y in s && (z, y) in g
    requires Reaches(g, a, x)
    requires forall z :: z in seen ==> ReachesPlus(g, z, x)
    ensures b in s && b in q && Reaches(g, a, b)
    decreases s - seen
  {
    if x in q {
      b := x;
    } else {
      var y :| y in s && (x, y) in g;
      assert x !in seen;
      forall z | z in seen + {x}
        ensures ReachesPlus(g, z, y)
      {
        if z in seen {
          PlusIsReaches(g, z, x);
          ReachesThenEdge(g, z, x, y);
        } else {
          EdgeReaches(g, x, y);
        }
      }
      ReachesThenEdge(g, a, x, y);
      PlusIsReaches(g, a, y);
      b := WalkFrom(g, s, q, a, y, seen + {x});
    }
  }

  /** In a finite acyclic graph a set from which every node leads back into the
      set is empty. */
  lemma NoEndlessWalk<T(!new)>(g: set<(T, T)>, s: set<T>)
    requires Acyclic(g)
    requires forall x :: x in s ==> exists y :: y in s && (x, y) in g
    ensures s == {}
  {
    if a :| a in s {
      var b := WalkToGoal(g, s, {}, a);
    }
  }

  /** A depth-first search has finished the nodes of done: every edge out of a
      finished node leads to a finished node, and no cycle is reachable from
      any of them. */
  ghost predicate Finished<T(!new)>(g: set<(T, T)>, done: set<T>)
  {
    && (forall e :: e in g && e.0 in done ==> e.1 in done)
    && (forall d :: d in done ==> !CycleReachable(g, d))
  }

  /** A node all of whose successors are finished can join them. */
  lemma FinishNode<T(!new)>(g: set<(T, T)>, done: set<T>, n: T)
    requires Finished(g, done)
    requires forall e :: e in g && e.0 == n ==> e.1 in done
    ensures Finished(g, done + {n})
  {
    if CycleReachable(g, n) {
      var c :| Reaches(g, n, c) && ReachesPlus(g, c, c);
      if c == n {
        var s := FirstStep(g, n, n);
        assert (n, s).0 == n;
        assert CycleReachable(g, s);
      } else {
        var p :| PathFromTo(g, p, n, c);
        assert |p| >= 2;
        var s := FirstStep(g, n, c);
        assert (n, s).0 == n;
        assert CycleReachable(g, s);
      }
    }
  }

  lemma ExtendPath<T>(g: set<(T, T)>, p: seq<T>, n: T)
    requires p != [] ==> IsPath(g, p) && (p[|p| - 1], n) in g
    ensures IsPath(g, p + [n])
  {
  }

  /** A graph is acyclic exactly when no cycle is reachable from its nodes. */
  lemma AcyclicByNodes<T(!new)>(g: set<(T, T)>, nodes: set<T>)
    requires forall e :: e in g ==> e.0 in nodes
    ensures Acyclic(g) <==> forall n :: n in nodes ==> !CycleReachable(g, n)
  {
    if !Acyclic(g) {
      var a :| ReachesPlus(g, a, a);
      var s := FirstStep(g, a, a);
      assert (a, s).0 in nodes;
      ReachesSelf(g, a);
      assert CycleReachable(g, a);
    }
  }
}
