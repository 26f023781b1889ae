/** Heartbeat groups and the dependencies between them, as the rows of their
    tables: when a group counts as bad, and why a group may be degraded. */
module HeartbeatGroups {
  import opened Graphs

  datatype GroupStatus = Healthy | Unhealthy | Degraded

  datatype MemberStatus = MemberHealthy | MemberSuspect | MemberLost | MemberFrozen | MemberRecovered

  datatype Group = Group(threshold: int, status: GroupStatus, alive: int, total: int, degraded: bool)

  /** group depends on dependsOn */
  datatype Dep = Dep(group: string, dependsOn: string)

  /** deps holds the dependency rows in row-id order. */
  datatype State = State(groups: map<string, Group>, deps: seq<Dep>)

  /** The members that are not lost and not frozen. */
  ghost function AliveOnes(members: seq<MemberStatus>): set<int>
  {
    set i | 0 <= i < |members| && !members[i].MemberLost? && !members[i].MemberFrozen?
  }

  lemma NextMember(members: seq<MemberStatus>, i: nat)
    requires i < |members|
    ensures i !in AliveOnes(members[..i])
    ensures AliveOnes(members[..i + 1]) ==
      if members[i].MemberLost? || members[i].MemberFrozen? then AliveOnes(members[..i])
      else AliveOnes(members[..i]) + {i}
  {
    assert forall k :: 0 <= k < i ==> members[..i + 1][k] == members[..i][k];
  }

  predicate Bad(g: Group)
  {
    g.status.Unhealthy? || g.degraded
  }

  predicate BadRow(s: State, e: Dep)
  {
    e.dependsOn !in s.groups || Bad(s.groups[e.dependsOn])
  }

  predicate HasBadDep(s: State, n: string)
  {
    exists e :: e in s.deps && e.group == n && BadRow(s, e)
  }

  ghost function Edges(s: State): set<(string, string)>
  {
    set e | e in s.deps :: (e.group, e.dependsOn)
  }

  /** Rows are unique, refer to groups and form no cycle. */
  ghost predicate Structured(s: State)
  {
    && (forall i, j :: 0 <= i < j < |s.deps| ==> s.deps[i] != s.deps[j])
    && (forall e :: e in s.deps ==> e.group in s.groups && e.dependsOn in s.groups)
    && Acyclic(Edges(s))
  }

  /** Every degraded group outside `except` has a bad dependency. */
  ghost predicate Caused(s: State, except: set<string>)
  {
    forall n :: n in s.groups && s.groups[n].degraded && n !in except ==> HasBadDep(s, n)
  }

  function Cleared(g: Group): Group
  {
    g.(degraded := false, status := if g.alive >= g.threshold then Healthy else Unhealthy)
  }

  // ------------------------------------------------- what a restore may do

  ghost predicate RowRelaxed(s: State, t: State, n: string)
    requires n in s.groups && n in t.groups
  {
    || t.groups[n] == s.groups[n]
    || (s.groups[n].degraded && t.groups[n] == Cleared(s.groups[n]) && !HasBadDep(t, n))
  }

  /** t arises from s by clearing flags, each of a group that in the end has no
      bad dependency; nothing else differs. */
  ghost predicate Relaxed(s: State, t: State)
  {
    && t.deps == s.deps && t.groups.Keys == s.groups.Keys
    && forall n :: n in s.groups ==> RowRelaxed(s, t, n)
  }

  /** A group that a restore touched was degraded and is not any more, and it is
      healthy exactly when its alive count reaches its threshold. */
  lemma RestoredStatus(s: State, t: State, n: string)
    requires Relaxed(s, t) && n in s.groups && t.groups[n] != s.groups[n]
    ensures s.groups[n].degraded && !t.groups[n].degraded && !t.groups[n].status.Degraded?
    ensures t.groups[n].status.Healthy? <==> s.groups[n].alive >= s.groups[n].threshold
    ensures t.groups[n] == s.groups[n].(degraded := false, status := t.groups[n].status)
    ensures forall e :: e in s.deps && e.group == n && e.dependsOn in t.groups ==>
      !t.groups[e.dependsOn].status.Unhealthy? && !t.groups[e.dependsOn].degraded
  {
    assert RowRelaxed(s, t, n);
    forall e | e in s.deps && e.group == n && e.dependsOn in t.groups
      ensures !t.groups[e.dependsOn].status.Unhealthy? && !t.groups[e.dependsOn].degraded
    {
      assert e in t.deps && !BadRow(t, e);
    }
  }

  lemma RelaxedTrans(a: State, b: State, c: State)
    requires Relaxed(a, b) && Relaxed(b, c)
    ensures Relaxed(a, c)
  {
  }

  /** The degraded groups. */
  function DegradedSet(s: State): set<string>
  {
    set n | n in s.groups && s.groups[n].degraded
  }

  /** Which groups end up restored does not depend on the order of the cascade:
      clearing flags from s until every degraded group has a bad dependency has
      one possible outcome. */
  lemma RestoreUnique(s: State, t: State, u: State)
    requires Structured(s) && Relaxed(s, t) && Relaxed(s, u) && Caused(t, {}) && Caused(u, {})
    ensures t == u
  {
    SameFlags(s, t, u);
    forall n | n in s.groups
      ensures t.groups[n] == u.groups[n]
    {
      assert RowRelaxed(s, t, n) && RowRelaxed(s, u, n);
    }
    assert t.groups == u.groups;
  }

  lemma SameFlags(s: State, t: State, u: State)
    requires Structured(s) && Relaxed(s, t) && Relaxed(s, u) && Caused(t, {}) && Caused(u, {})
    ensures forall n :: n in s.groups ==> t.groups[n].degraded == u.groups[n].degraded
  {
    var diff := set n | n in s.groups && t.groups[n].degraded != u.groups[n].degraded;
    forall n | n in diff
      ensures exists y :: y in diff && (n, y) in Edges(s)
    {
      DifferenceSpreads(s, t, u, n);
    }
    hide *;
    NoEndlessWalk(Edges(s), diff);
  }

  lemma DifferenceSpreads(s: State, t: State, u: State, n: string)
    requires Structured(s) && Relaxed(s, t) && Relaxed(s, u) && Caused(t, {}) && Caused(u, {})
    requires n in s.groups && t.groups[n].degraded != u.groups[n].degraded
    ensures exists y :: y in s.groups && t.groups[y].degraded != u.groups[y].degraded && (n, y) in Edges(s)
  {
  }

  // --------------------------------------------------------------- theorems

  /** A degraded group is downstream of an unhealthy one. */
  lemma DegradedIsDownstream(s: State, n: string) returns (root: string)
    requires Structured(s) && Caused(s, {}) && n in s.groups && s.groups[n].degraded
    ensures root in s.groups && s.groups[root].status.Unhealthy? && Reaches(Edges(s), n, root)
  {
    var bad := set g | g in s.groups && Bad(s.groups[g]);
    var sick := set g | g in s.groups && s.groups[g].status.Unhealthy?;
    forall x | x in bad
      ensures x in sick || exists y :: y in bad && (x, y) in Edges(s)
    {
      if x !in sick {
        var e :| e in s.deps && e.group == x && BadRow(s, e);
        assert e.dependsOn in bad && (x, e.dependsOn) in Edges(s);
      }
    }
    root := WalkToGoal(Edges(s), bad, sick, n);
  }

  /** DeleteGroup's effect: the row and every dependency from or to it. */
  function Drop(deps: seq<Dep>, n: string): seq<Dep>
  {
    if deps == [] then []
    else
      var e := deps[|deps| - 1];
      if e.group == n || e.dependsOn == n then Drop(deps[..|deps| - 1], n) else Drop(deps[..|deps| - 1], n) + [e]
  }

  function Delete(s: State, n: string): State
  {
    State(s.groups - {n}, Drop(s.deps, n))
  }

  lemma {:induction false} DropMembers(deps: seq<Dep>, n: string)
    ensures forall e :: e in Drop(deps, n) <==> e in deps && e.group != n && e.dependsOn != n
  {
    if deps != [] {
      assert deps == deps[..|deps| - 1] + [deps[|deps| - 1]];
      DropMembers(deps[..|deps| - 1], n);
    }
  }

  lemma {:induction false} DropDistinct(deps: seq<Dep>, n: string)
    requires forall i, j :: 0 <= i < j < |deps| ==> deps[i] != deps[j]
    ensures forall i, j :: 0 <= i < j < |Drop(deps, n)| ==> Drop(deps, n)[i] != Drop(deps, n)[j]
  {
    if deps != [] {
      DropMembers(deps[..|deps| - 1], n);
      DropDistinct(deps[..|deps| - 1], n);
    }
  }

  lemma DeleteStructured(s: State, n: string)
    requires Structured(s)
    ensures Structured(Delete(s, n))
  {
    DropMembers(s.deps, n);
    DropDistinct(s.deps, n);
    AcyclicMono(Edges(Delete(s, n)), Edges(s));
  }

  /** Some bad dependency of n is not the group d. */
  predicate BadDepBeside(s: State, n: string, d: string)
  {
    exists e :: e in s.deps && e.group == n && e.dependsOn != d && BadRow(s, e)
  }

  /** Deleting a group is the one operation that can leave a degraded group
      without a cause: exactly when it deletes the only bad dependency of a
      degraded group. */
  lemma DeleteKeepsCausedIff(s: State, d: string)
    requires Structured(s) && Caused(s, {})
    ensures Caused(Delete(s, d), {}) <==>
      forall n :: n in s.groups && n != d && s.groups[n].degraded ==> BadDepBeside(s, n, d)
  {
    var t := Delete(s, d);
    DropMembers(s.deps, d);
    forall n | n in s.groups && n != d
      ensures HasBadDep(t, n) <==> BadDepBeside(s, n, d)
    {
      if HasBadDep(t, n) {
        var e :| e in t.deps && e.group == n && BadRow(t, e);
        assert e in s.deps && e.dependsOn != d && BadRow(s, e);
      }
      if BadDepBeside(s, n, d) {
        var e :| e in s.deps && e.group == n && e.dependsOn != d && BadRow(s, e);
        assert e in t.deps && BadRow(t, e);
      }
    }
    forall n | n in t.groups
      ensures n in s.groups && n != d && t.groups[n] == s.groups[n]
    {
    }
  }

  /** An empty group below its threshold is deleted; the group that depended on
      it stays degraded for no reason. */
  lemma DeleteLeavesOrphan()
    ensures var s := State(map["a" := Group(1, Degraded, 1, 1, true), "b" := Group(1, Unhealthy, 0, 0, false)],
                           [Dep("a", "b")]);
      Structured(s) && Caused(s, {}) && !Caused(Delete(s, "b"), {})
  {
    var s := State(map["a" := Group(1, Degraded, 1, 1, true), "b" := Group(1, Unhealthy, 0, 0, false)],
                   [Dep("a", "b")]);
    assert Edges(s) == {("a", "b")};
    var none: set<(string, string)> := {};
    assert Acyclic(none) by {
      forall x | ReachesPlus(none, x, x)
        ensures false
      {
        var y := FirstStep(none, x, x);
      }
    }
    AddEdge(none, "a", "b");
    assert none + {("a", "b")} == {("a", "b")};
    ClosedFrom(none, "b", "a");
    assert s.deps[0] == Dep("a", "b") && BadRow(s, s.deps[0]);
    DropMembers(s.deps, "b");
    var t := Delete(s, "b");
    assert "a" in t.groups && t.groups["a"].degraded && !HasBadDep(t, "a");
  }

  lemma ClosedFrom(g: set<(string, string)>, a: string, b: string)
    requires g == {} && a != b
    ensures !Reaches(g, a, b)
  {
    if Reaches(g, a, b) {
      ClosedContains(g, {a}, a, b);
    }
  }
}
