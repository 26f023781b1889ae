/** The heartbeat manager's groups as the source writes them: an object whose
    methods rewrite group rows in recursive cascades. */
module Heartbeat {
  import opened Graphs
  import opened HeartbeatGroups

  /** The groups with a row on which they depend on `name`. */
  function DependentsOf(s: State, name: string): set<string>
  {
    set e | e in s.deps && e.dependsOn == name :: e.group
  }

  /** The groups in `who` that were not degraded are flagged; the other rows are
      as before. */
  ghost predicate DegradedGroups(s: State, t: State, who: set<string>)
  {
    && t.deps == s.deps && t.groups.Keys == s.groups.Keys
    && forall n :: n in s.groups ==> (
         t.groups[n] ==
           if n in who && !s.groups[n].degraded then s.groups[n].(degraded := true, status := Degraded)
           else s.groups[n])
  }

  /** The state with one more dependency row; rows are unique. */
  function WithRow(s: State, e: Dep): State
  {
    s.(deps := if e in s.deps then s.deps else s.deps + [e])
  }

  /** A group found unhealthy is the cause of every flag set because of it. */
  lemma DegradeCaused(s: State, t: State, name: string)
    requires Structured(s) && name in s.groups && s.groups[name].status == Unhealthy
    requires DegradedGroups(s, t, DependentsOf(s, name)) && t.groups[name] == s.groups[name]
    requires Caused(s, DependentsOf(s, name))
    ensures Caused(t, {})
  {
  }

  lemma FlagOne(s: State, t: State, who: set<string>, d: string)
    requires DegradedGroups(s, t, who) && d in s.groups
    ensures t.groups[d].degraded ==> DegradedGroups(s, t, who + {d})
    ensures !t.groups[d].degraded ==>
      DegradedGroups(s, t.(groups := t.groups[d := t.groups[d].(degraded := true, status := Degraded)]), who + {d})
  {
  }

  lemma StructuredSame(s: State, t: State)
    requires t.deps == s.deps && t.groups.Keys == s.groups.Keys
    ensures Structured(s) ==> Structured(t)
  {
  }

  lemma NoSelfRow(s: State, n: string, d: string)
    requires Structured(s)
    ensures Dep(d, n) in s.deps ==> d != n && d in s.groups
  {
    if Dep(d, n) in s.deps && d == n {
      assert (d, n) in Edges(s);
      EdgeReaches(Edges(s), n, n);
    }
  }

  /** The groups on the other side of the rows that are still to be visited. */
  function Dependents(rows: seq<Dep>): set<string>
  {
    set e | e in rows :: e.group
  }

  lemma NextDependent(rows: seq<Dep>, i: nat)
    requires i < |rows|
    ensures Dependents(rows[..i + 1]) == Dependents(rows[..i]) + {rows[i].group}
  {
    assert rows[..i + 1] == rows[..i] + [rows[i]];
  }

  lemma CausedWider(s: State, x: set<string>, y: set<string>)
    requires Caused(s, x) && x <= y
    ensures Caused(s, y)
  {
  }

  /** n drops out of the exceptions once it is not degraded or has a cause. */
  lemma CausedNarrower(s: State, x: set<string>, n: string)
    requires Caused(s, x + {n})
    requires n in s.groups ==> !s.groups[n].degraded || HasBadDep(s, n)
    ensures Caused(s, x)
  {
  }

  /** Changing the row of n leaves only its dependents to look after. */
  lemma RowChange(s: State, t: State, n: string, x: set<string>, y: set<string>)
    requires Structured(s) && Caused(s, x) && n in s.groups && n in t.groups
    requires t == s.(groups := s.groups[n := t.groups[n]]) && (t.groups[n].degraded ==> s.groups[n].degraded)
    requires x - {n} <= y && DependentsOf(s, n) <= y && (n in x ==> !t.groups[n].degraded)
    ensures Caused(t, y)
  {
  }

  lemma ClearRelaxed(s: State, n: string)
    requires Structured(s) && n in s.groups && s.groups[n].degraded && !HasBadDep(s, n)
    ensures Relaxed(s, s.(groups := s.groups[n := Cleared(s.groups[n])]))
  {
  }

  lemma RelaxedSelf(s: State)
    ensures Relaxed(s, s)
  {
  }

  /** The degraded groups after a relaxation are fewer or the same. */
  lemma RelaxedFewer(s: State, t: State)
    requires Relaxed(s, t)
    ensures DegradedSet(t) <= DegradedSet(s)
    ensures Structured(s) ==> Structured(t)
  {
  }

  method ListGroupsThatDependOn(deps: seq<Dep>, name: string) returns (rows: seq<Dep>)
    ensures forall e :: e in rows <==> e in deps && e.dependsOn == name
  {
    rows := [];
    var i := 0;
    while i < |deps|
      invariant 0 <= i <= |deps|
      invariant forall e :: e in rows <==> e in deps[..i] && e.dependsOn == name
    {
      assert deps[..i + 1] == deps[..i] + [deps[i]];
      if deps[i].dependsOn == name {
        rows := rows + [deps[i]];
      }
      i := i + 1;
    }
    assert deps[..|deps|] == deps;
  }

  method ListGroupDependenciesByGroup(deps: seq<Dep>, name: string) returns (rows: seq<Dep>)
    ensures forall e :: e in rows <==> e in deps && e.group == name
  {
    rows := [];
    var i := 0;
    while i < |deps|
      invariant 0 <= i <= |deps|
      invariant forall e :: e in rows <==> e in deps[..i] && e.group == name
    {
      assert deps[..i + 1] == deps[..i] + [deps[i]];
      if deps[i].group == name {
        rows := rows + [deps[i]];
      }
      i := i + 1;
    }
    assert deps[..|deps|] == deps;
  }

  /** The depth-first search of wouldCreateCycleLocked. */
  class PathSearch {
    const deps: seq<Dep>
    const goal: string
    var visited: set<string>

    ghost const nodes: set<string>

    ghost function E(): set<(string, string)>
    {
      Edges(State(map[], deps))
    }

    constructor (deps: seq<Dep>, goal: string, start: string)
      ensures this.deps == deps && this.goal == goal && visited == {}
      ensures start in nodes && forall e :: e in deps ==> e.dependsOn in nodes
    {
      this.deps, this.goal, visited := deps, goal, {};
      nodes := (set e | e in deps :: e.dependsOn) + {start};
    }

    /** found: the goal is reachable; otherwise everything newly visited has all
        its successors visited, and the goal is not among them. */
    method Dfs(current: string) returns (found: bool)
      requires current in nodes && (forall e :: e in deps ==> e.dependsOn in nodes) && goal !in visited
      modifies this
      ensures found ==> Reaches(E(), current, goal)
      ensures !found ==> current in visited && goal !in visited && old(visited) <= visited
      ensures !found ==> forall e :: e in deps && e.group in visited - old(visited) ==> e.dependsOn in visited
      decreases nodes - visited
    {
      if current == goal {
        ReachesSelf(E(), goal);
        return true;
      }
      if current in visited {
        return false;
      }
      visited := visited + {current};
      var rows := ListGroupDependenciesByGroup(deps, current);
      var i := 0;
      while i < |rows|
        invariant 0 <= i <= |rows|
        invariant old(visited) + {current} <= visited && goal !in visited
        invariant forall e :: e in deps && e.group in visited - old(visited) - {current} ==> e.dependsOn in visited
        invariant forall k :: 0 <= k < i ==> rows[k].dependsOn in visited
      {
        assert rows[i] in rows;
        found := Dfs(rows[i].dependsOn);
        if found {
          assert (current, rows[i].dependsOn) in E();
          EdgeThenReaches(E(), current, rows[i].dependsOn, goal);
          PlusIsReaches(E(), current, goal);
          return true;
        }
        i := i + 1;
      }
      return false;
    }
  }

  class GroupManager {
    var groups: map<string, Group>
    var deps: seq<Dep>

    ghost function S(): State
      reads this
    {
      State(groups, deps)
    }

    ghost predicate Valid()
      reads this
    {
      Structured(S())
    }

    constructor ()
      ensures Valid() && S() == State(map[], []) && Caused(S(), {})
    {
      groups, deps := map[], [];
      new;
      forall x | ReachesPlus(Edges(S()), x, x)
        ensures false
      {
        var y := FirstStep(Edges(S()), x, x);
      }
    }

    method CreateGroup(name: string, threshold: int) returns (ok: bool)
      requires Valid()
      modifies this
      ensures Valid()
      ensures ok <==> name != "" && threshold > 0 && name !in old(groups)
      ensures S() == if ok then old(S()).(groups := old(groups)[name := Group(threshold, Healthy, 0, 0,
          false)]) else old(S())
      ensures old(Caused(S(), {})) ==> Caused(S(), {})
    {
      if name == "" {
        return false;
      }
      if threshold <= 0 {
        return false;
      }
      if name in groups {
        return false;
      }
      groups := groups[name := Group(threshold, Healthy, 0, 0, false)];
      assert Edges(S()) == old(Edges(S()));
      forall n | old(Caused(S(), {})) && n in groups && groups[n].degraded
        ensures HasBadDep(S(), n)
      {
        assert n in old(groups) && old(HasBadDep(S(), n));
        ghost var e :| e in deps && e.group == n && BadRow(old(S()), e);
        assert BadRow(S(), e);
      }
      return true;
    }

    /** tryRestoreGroupLocked: the exceptions are degraded groups that the
        cascade has still to look at. */
    method TryRestoreGroup(name: string, ghost except: set<string>)
      requires Valid() && name in groups && groups[name].degraded
      modifies this
      ensures Valid() && Relaxed(old(S()), S())
      ensures old(Caused(S(), except + {name})) ==> Caused(S(), except)
      ensures old(HasBadDep(S(), name)) ==> S() == old(S())
      ensures (forall e :: e in old(deps) && e.group == name ==>
                 && e.dependsOn in old(groups) && old(groups)[e.dependsOn].status != Unhealthy
                 && !old(groups)[e.dependsOn].degraded) <==>
              name in groups && !groups[name].degraded
      decreases |DegradedSet(S())|, 0
    {
      var rows := ListGroupDependenciesByGroup(deps, name);
      var allHealthy := true;
      var i := 0;
      while i < |rows|
        invariant 0 <= i <= |rows| && allHealthy
        invariant forall k :: 0 <= k < i ==> !BadRow(S(), rows[k])
      {
        var d := rows[i].dependsOn;
        if d !in groups || groups[d].status == Unhealthy || groups[d].degraded {
          allHealthy := false;
          break;
        }
        i := i + 1;
      }
      if !allHealthy {
        assert rows[i] in deps && rows[i].group == name && BadRow(S(), rows[i]);
        if Caused(S(), except + {name}) {
          CausedNarrower(S(), except, name);
        }
        RelaxedSelf(S());
        return;
      }
      assert !HasBadDep(S(), name);
      var g := groups[name].(degraded := false);
      if g.alive >= g.threshold {
        g := g.(status := Healthy);
      } else {
        g := g.(status := Unhealthy);
      }
      ClearRelaxed(S(), name);
      groups := groups[name := g];
      assert S() == old(S()).(groups := old(groups)[name := Cleared(old(groups)[name])]);
      RelaxedFewer(old(S()), S());
      assert DegradedSet(S()) < DegradedSet(old(S())) by {
        assert name in DegradedSet(old(S())) && name !in DegradedSet(S());
      }
      SmallerSet(DegradedSet(S()), DegradedSet(old(S())));
      var dependents := ListGroupsThatDependOn(deps, name);
      if old(Caused(S(), except + {name})) {
        assert Dependents(dependents) == DependentsOf(old(S()), name);
        RowChange(old(S()), S(), name, except + {name}, except + Dependents(dependents));
      }
      RestoreDependents(dependents, except);
      RelaxedTrans(old(S()), old(S()).(groups := old(groups)[name := g]), S());
    }

    /** The loop over the dependents of a group that may have become good. */
    method RestoreDependents(rows: seq<Dep>, ghost except: set<string>)
      requires Valid() && forall e :: e in rows ==> e in deps
      modifies this
      ensures Valid() && Relaxed(old(S()), S())
      ensures old(Caused(S(), except + Dependents(rows))) ==> Caused(S(), except)
      ensures (forall e :: e in rows && old(groups)[e.group].degraded ==> old(HasBadDep(S(), e.group))) ==>
        S() == old(S())
      decreases |DegradedSet(S())|, 1
    {
      RelaxedSelf(S());
      var i := 0;
      assert rows[0..] == rows;
      while i < |rows|
        invariant 0 <= i <= |rows|
        invariant Valid() && Relaxed(old(S()), S())
        invariant old(Caused(S(), except + Dependents(rows))) ==> Caused(S(), except + Dependents(rows[i..]))
        invariant (forall e :: e in rows && old(groups)[e.group].degraded ==> old(HasBadDep(S(), e.group))) ==>
          S() == old(S())
      {
        var d := rows[i].group;
        assert rows[i] in rows;
        assert rows[i..] == [rows[i]] + rows[i + 1..];
        assert except + Dependents(rows[i..]) == except + Dependents(rows[i + 1..]) + {d};
        RelaxedFewer(old(S()), S());
        SmallerOrSame(DegradedSet(S()), DegradedSet(old(S())));
        ghost var before := S();
        if d in groups && groups[d].degraded {
          TryRestoreGroup(d, except + Dependents(rows[i + 1..]));
          RelaxedTrans(old(S()), before, S());
        } else if Caused(S(), except + Dependents(rows[i..])) {
          CausedNarrower(S(), except + Dependents(rows[i + 1..]), d);
        }
        i := i + 1;
      }
      assert except + Dependents(rows[i..]) == except;
    }

    /** checkCascadeDegradeLocked for the group's current row. */
    method CheckCascadeDegrade(name: string)
      requires Valid() && name in groups
      modifies this
      ensures Valid()
      ensures old(groups)[name].status == Unhealthy ==> DegradedGroups(old(S()), S(), DependentsOf(S(), name))
      ensures old(groups)[name].status != Unhealthy ==> Relaxed(old(S()), S())
      ensures old(groups)[name].status != Unhealthy && old(groups)[name].degraded ==> S() == old(S())
      ensures old(Caused(S(), DependentsOf(S(), name))) ==> Caused(S(), {})
      decreases if groups[name].status == Unhealthy then 1 else 0
    {
      var rows := ListGroupsThatDependOn(deps, name);
      assert Dependents(rows) == DependentsOf(S(), name);
      if groups[name].status != Unhealthy {
        if groups[name].degraded {
          forall e | e in rows
            ensures HasBadDep(S(), e.group)
          {
            assert BadRow(S(), e);
          }
        }
        assert {} + Dependents(rows) == Dependents(rows);
        RestoreDependents(rows, {});
        return;
      }
      DegradeDependents(name, rows);
      if old(Caused(S(), DependentsOf(S(), name))) {
        DegradeCaused(old(S()), S(), name);
      }
    }

    method DegradeDependents(name: string, rows: seq<Dep>)
      requires Valid() && name in groups && groups[name].status == Unhealthy
      requires forall e :: e in rows ==> e in deps && e.dependsOn == name
      modifies this
      ensures Valid() && DegradedGroups(old(S()), S(), Dependents(rows))
      ensures groups[name] == old(groups)[name]
      decreases 1, 0
    {
      var i := 0;
      while i < |rows|
        invariant 0 <= i <= |rows|
        invariant Valid() && DegradedGroups(old(S()), S(), Dependents(rows[..i]))
        invariant groups[name] == old(groups)[name]
      {
        var d := rows[i].group;
        assert rows[i] == Dep(d, name) && rows[i] in rows;
        NextDependent(rows, i);
        NoSelfRow(S(), name, d);
        hide Structured;
        hide DegradedGroups;
        FlagOne(old(S()), S(), Dependents(rows[..i]), d);
        StructuredSame(S(), S().(groups := groups[d := groups[d].(degraded := true, status := Degraded)]));
        if !groups[d].degraded {
          groups := groups[d := groups[d].(degraded := true, status := Degraded)];
          CheckCascadeDegrade(d);
        }
        i := i + 1;
      }
      assert rows[..|rows|] == rows;
    }

    /** updateGroupHealthLocked: the counts are taken from the members, and the
        status from the counts; the flag stays as it is. */
    method UpdateGroupHealth(name: string, members: seq<MemberStatus>)
      requires Valid()
      modifies this
      ensures Valid()
      ensures name !in old(groups) ==> S() == old(S())
      ensures name in old(groups) ==>
        var g := old(groups)[name];
        var alive := |set i | 0 <= i < |members| &&
          (members[i] == MemberHealthy || members[i] == MemberSuspect || members[i] == MemberRecovered)|;
        var status := if alive < g.threshold then Unhealthy else Healthy;
        var s := old(S()).(groups := old(groups)[name := g.(alive := alive, total := |members|, status := status)]);
        && name in groups && groups[name] == s.groups[name].(degraded := groups[name].degraded)
        && if alive < g.threshold then DegradedGroups(s, S(), DependentsOf(s, name)) else Relaxed(s, S())
      ensures old(Caused(S(), {})) ==> Caused(S(), {})
    {
      if name !in groups {
        return;
      }
      var alive := 0;
      var i := 0;
      while i < |members|
        invariant 0 <= i <= |members|
        invariant alive == |AliveOnes(members[..i])| && S() == old(S())
      {
        NextMember(members, i);
        if members[i] == MemberHealthy || members[i] == MemberSuspect || members[i] == MemberRecovered {
          alive := alive + 1;
        }
        i := i + 1;
      }
      assert members[..|members|] == members;
      assert AliveOnes(members) == set i | 0 <= i < |members| &&
        (members[i] == MemberHealthy || members[i] == MemberSuspect || members[i] == MemberRecovered);
      var g := groups[name].(alive := alive, total := |members|);
      if alive >= g.threshold {
        g := g.(status := Healthy);
      } else {
        g := g.(status := Unhealthy);
      }
      groups := groups[name := g];
      ghost var s := S();
      assert Edges(s) == old(Edges(S()));
      if old(Caused(S(), {})) {
        RowChange(old(S()), s, name, {}, DependentsOf(s, name));
      }
      NoSelfRow(s, name, name);
      CheckCascadeDegrade(name);
    }

    /** wouldCreateCycleLocked: true exactly when dependsOn already depends,
        directly or not, on groupName. */
    method WouldCreateCycle(groupName: string, dependsOn: string) returns (cycle: bool)
      ensures cycle <==> Reaches(Edges(S()), dependsOn, groupName)
    {
      var search := new PathSearch(deps, groupName, dependsOn);
      cycle := search.Dfs(dependsOn);
      if !cycle && Reaches(Edges(S()), dependsOn, groupName) {
        ClosedContains(Edges(S()), search.visited, dependsOn, groupName);
      }
    }

    /** AddGroupDependency accepts exactly the edges that keep the dependencies
        acyclic, between groups that exist. */
    method AddGroupDependency(groupName: string, dependsOn: string) returns (ok: bool)
      requires Valid()
      modifies this
      ensures Valid()
      ensures ok <==> groupName != "" && dependsOn != "" && groupName in old(groups) && dependsOn in old(groups) &&
                      Acyclic(old(Edges(S())) + {(groupName, dependsOn)})
      ensures ok ==>
        var s := WithRow(old(S()), Dep(groupName, dependsOn));
        && Edges(s) == old(Edges(S())) + {(groupName, dependsOn)}
        && if s.groups[dependsOn].status == Unhealthy
           then groupName in DependentsOf(s, dependsOn) && DegradedGroups(s, S(), DependentsOf(s, dependsOn))
           else S() == s
      ensures !ok ==> S() == old(S())
      ensures old(Caused(S(), {})) ==> Caused(S(), {})
    {
      AddEdge(Edges(S()), groupName, dependsOn);
      ReachesSelf(Edges(S()), groupName);
      if groupName == "" || dependsOn == "" {
        return false;
      }
      if groupName == dependsOn {
        return false;
      }
      if groupName !in groups {
        return false;
      }
      if dependsOn !in groups {
        return false;
      }
      var cycle := WouldCreateCycle(groupName, dependsOn);
      if cycle {
        return false;
      }
      InsertOrIgnore(Dep(groupName, dependsOn));
      if groups[dependsOn].status == Unhealthy || groups[dependsOn].degraded {
        if old(Caused(S(), {})) {
          CausedWider(S(), {}, DependentsOf(S(), dependsOn));
        }
        assert groupName in DependentsOf(S(), dependsOn) by {
          assert Dep(groupName, dependsOn) in deps;
        }
        CheckCascadeDegrade(dependsOn);
      }
      return true;
    }

    /** CreateGroupDependency: the row is unique. */
    method InsertOrIgnore(e: Dep)
      requires Valid() && e.group in groups && e.dependsOn in groups
      requires Acyclic(Edges(S()) + {(e.group, e.dependsOn)})
      modifies this`deps
      ensures Valid() && S() == WithRow(old(S()), e)
      ensures Edges(S()) == old(Edges(S())) + {(e.group, e.dependsOn)}
      ensures old(Caused(S(), {})) ==> Caused(S(), {})
    {
      if e !in deps {
        deps := deps + [e];
        forall n | old(Caused(S(), {})) && n in groups && groups[n].degraded
          ensures HasBadDep(S(), n)
        {
          assert old(HasBadDep(S(), n));
          ghost var x :| x in old(deps) && x.group == n && BadRow(old(S()), x);
          assert BadRow(S(), x);
        }
      }
      assert Edges(S()) == old(Edges(S())) + {(e.group, e.dependsOn)};
    }

    method RemoveGroupDependency(groupName: string, dependsOn: string) returns (ok: bool)
      requires Valid()
      modifies this
      ensures Valid()
      ensures ok <==> groupName != "" && dependsOn != ""
      ensures !ok ==> S() == old(S())
      ensures ok ==> Relaxed(old(S()).(deps := Without(old(deps), Dep(groupName, dependsOn))), S())
      ensures ok ==> forall e :: e in deps <==> e in old(deps) && e != Dep(groupName, dependsOn)
      ensures old(Caused(S(), {})) ==> Caused(S(), {})
    {
      if groupName == "" || dependsOn == "" {
        return false;
      }
      ok := true;
      WithoutMembers(deps, Dep(groupName, dependsOn));
      WithoutStructured(S(), Dep(groupName, dependsOn));
      deps := Without(deps, Dep(groupName, dependsOn));
      ghost var s := S();
      assert old(Caused(S(), {})) ==> Caused(s, {groupName}) by {
        forall n | old(Caused(S(), {})) && n in groups && groups[n].degraded && n != groupName
          ensures HasBadDep(s, n)
        {
          assert old(HasBadDep(S(), n));
          ghost var x :| x in old(deps) && x.group == n && BadRow(old(S()), x);
          assert x in s.deps && BadRow(s, x);
        }
      }
      assert {} + {groupName} == {groupName};
      RelaxedSelf(s);
      if groupName in groups && groups[groupName].degraded {
        TryRestoreGroup(groupName, {});
      } else if old(Caused(S(), {})) {
        CausedNarrower(S(), {}, groupName);
      }
    }

    /** DeleteGroup: refused while the group has members; otherwise its row and
        the dependencies from and to it go.  No restore follows, so a degraded
        group can lose its cause: exactly when its only bad dependency goes. */
    method DeleteGroup(name: string, memberCount: nat) returns (ok: bool)
      requires Valid()
      modifies this
      ensures Valid()
      ensures ok <==> name != "" && name in old(groups) && memberCount == 0
      ensures S() == if ok then Delete(old(S()), name) else old(S())
      ensures ok ==> groups == old(groups) - {name}
      ensures ok ==> forall e :: e in deps <==> e in old(deps) && e.group != name && e.dependsOn != name
      ensures ok && old(Caused(S(), {})) ==> (Caused(S(), {}) <==>
        forall n :: n in old(groups) && n != name && old(groups)[n].degraded ==> BadDepBeside(old(S()), n, name))
    {
      if name == "" {
        return false;
      }
      if name !in groups {
        return false;
      }
      if memberCount > 0 {
        return false;
      }
      DeleteStructured(S(), name);
      DropMembers(deps, name);
      if Caused(S(), {}) {
        DeleteKeepsCausedIff(S(), name);
      }
      deps := Drop(deps, name);
      groups := groups - {name};
      return true;
    }
  }

  function Without(deps: seq<Dep>, e: Dep): seq<Dep>
  {
    if deps == [] then []
    else if deps[|deps| - 1] == e then Without(deps[..|deps| - 1], e)
    else Without(deps[..|deps| - 1], e) + [deps[|deps| - 1]]
  }

  lemma {:induction false} WithoutMembers(deps: seq<Dep>, e: Dep)
    ensures forall x :: x in Without(deps, e) <==> x in deps && x != e
  {
    if deps != [] {
      assert deps == deps[..|deps| - 1] + [deps[|deps| - 1]];
      WithoutMembers(deps[..|deps| - 1], e);
    }
  }

  lemma {:induction false} WithoutDistinct(deps: seq<Dep>, e: Dep)
    requires forall i, j :: 0 <= i < j < |deps| ==> deps[i] != deps[j]
    ensures forall i, j :: 0 <= i < j < |Without(deps, e)| ==> Without(deps, e)[i] != Without(deps, e)[j]
  {
    if deps != [] {
      var front, last := deps[..|deps| - 1], deps[|deps| - 1];
      WithoutMembers(front, e);
      WithoutDistinct(front, e);
      assert last !in front && last !in Without(front, e);
    }
  }

  lemma WithoutStructured(s: State, e: Dep)
    requires Structured(s)
    ensures Structured(s.(deps := Without(s.deps, e)))
  {
    WithoutMembers(s.deps, e);
    WithoutDistinct(s.deps, e);
    AcyclicMono(Edges(s.(deps := Without(s.deps, e))), Edges(s));
  }

  lemma SmallerSet(a: set<string>, b: set<string>)
    requires a < b
    ensures |a| < |b|
  {
    var x :| x in b && x !in a;
    SmallerOrSame(a, b - {x});
  }

  lemma {:induction false} SmallerOrSame(a: set<string>, b: set<string>)
    requires a <= b
    ensures |a| <= |b|
  {
    if a != {} {
      var x :| x in a;
      SmallerOrSame(a - {x}, b - {x});
    }
  }
}
