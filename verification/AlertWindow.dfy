/** What holds over the runs of the rate alert: when the pruned window is the
    true window, that an unfrozen caller is below its alert threshold, and that
    a freeze takes its time. */
module AlertWindow {
  import opened Basics
  import opened AlertState

  predicate Ordered(h: seq<Record>)
  {
    forall i, j :: 0 <= i < j < |h| ==> h[i].at <= h[j].at
  }

  lemma {:induction false} SinceAll(h: seq<Record>, cutoff: int)
    requires forall i :: 0 <= i < |h| ==> h[i].at >= cutoff
    ensures Since(h, cutoff) == h
  {
    if h != [] {
      SinceAll(h[1..], cutoff);
    }
  }

  lemma {:induction false} SinceSkips(h: seq<Record>, k: nat, cutoff: int)
    requires k <= |h| && forall i :: 0 <= i < k ==> h[i].at < cutoff
    ensures Since(h, cutoff) == Since(h[k..], cutoff)
  {
    if k > 0 {
      SinceSkips(h[1..], k - 1, cutoff);
      assert h[1..][k - 1..] == h[k..];
    } else {
      assert h[0..] == h;
    }
  }

  lemma {:induction false} SinceMembers(h: seq<Record>, cutoff: int)
    ensures |Since(h, cutoff)| <= |h|
    ensures forall x :: x in Since(h, cutoff) ==> x.at >= cutoff
  {
    if h != [] {
      SinceMembers(h[1..], cutoff);
    }
  }

  /** A record before the cutoff somewhere keeps Since from being everything. */
  lemma {:induction false} SinceAllIff(h: seq<Record>, cutoff: int)
    ensures Since(h, cutoff) == h <==> forall i :: 0 <= i < |h| ==> h[i].at >= cutoff
  {
    SinceMembers(h, cutoff);
    if forall i :: 0 <= i < |h| ==> h[i].at >= cutoff {
      SinceAll(h, cutoff);
    } else {
      var i :| 0 <= i < |h| && h[i].at < cutoff;
      assert h[i] in h;
    }
  }

  predicate StaleAfterValid(w: seq<Record>, cutoff: int)
  {
    exists i, j :: 0 <= i < j < |w| && w[i].at >= cutoff && w[j].at < cutoff
  }

  predicate AllValid(w: seq<Record>, cutoff: int)
  {
    forall i :: 0 <= i < |w| ==> w[i].at >= cutoff
  }

  lemma PrunedValidIff(w: seq<Record>, cutoff: int)
    ensures AllValid(Prune(w, cutoff), cutoff) <==> !StaleAfterValid(w, cutoff)
  {
  }

  /** w is what is left of h after dropping records before the cutoff. */
  predicate Tail(h: seq<Record>, w: seq<Record>, cutoff: int)
  {
    && |w| <= |h| && w == h[|h| - |w|..]
    && forall i :: 0 <= i < |h| - |w| ==> h[i].at < cutoff
  }

  lemma TailAppend(h: seq<Record>, w: seq<Record>, cutoff: int, r: Record)
    requires Tail(h, w, cutoff)
    ensures Tail(h + [r], w + [r], cutoff)
  {
  }

  /** In time order pruning the tail gives the true window of the history. */
  lemma TailPrune(h: seq<Record>, w: seq<Record>, cutoff: int, later: int)
    requires Ordered(h) && Tail(h, w, cutoff) && cutoff <= later
    ensures Tail(h, Prune(w, later), later) && Prune(w, later) == Since(h, later)
  {
    var k := FirstValid(w, later);
    var v := Prune(w, later);
    var d := |h| - |w|;
    assert v == h[d + k..];
    forall i | 0 <= i < d + k
      ensures h[i].at < later
    {
      if i >= d {
        assert h[i] == w[i - d];
      }
    }
    hide Since;
    SinceSkips(h, d + k, later);
    forall i | 0 <= i < |v|
      ensures v[i].at >= later
    {
      assert v[0] == w[k] && v[i] == h[d + k + i];
    }
    SinceAll(v, later);
  }

  predicate NotAfter(h: seq<Record>, clock: int)
  {
    forall x :: x in h ==> x.at <= clock
  }

  lemma OrderedAppend(h: seq<Record>, clock: int, r: Record)
    requires Ordered(h) && NotAfter(h, clock) && clock <= r.at
    ensures Ordered(h + [r]) && NotAfter(h + [r], r.at)
  {
  }

  // ------------------------------------------------- runs in any time order

  /** What every run keeps, in time order or not: the window is a suffix of the
      history, the counted alerts are at least the suppression span apart, and a
      caller that is not frozen is below its threshold. */
  ghost predicate Kept(s: State)
  {
    s.rule.Some? ==>
      && Retained(s)
      && 0 <= s.alerts && s.rule.value.windowSec > 0 && s.rule.value.freezeTriggerN > 0
      && (!s.frozen ==> s.alerts < s.rule.value.freezeTriggerN)
      && (s.alerts >= 1 ==> s.lastAlertAt >= s.books.firstAlertAt + (s.alerts - 1) * Suppression(s.rule.value))
  }

  predicate Retained(s: State)
  {
    |s.window| <= |s.books.history| && s.window == s.books.history[|s.books.history| - |s.window|..]
  }

  /** What earlier prunes and cleanups have dropped since the rule was set. */
  function Dropped(s: State): seq<Record>
    requires Retained(s)
  {
    s.books.history[..|s.books.history| - |s.window|]
  }

  lemma PruneRetained(h: seq<Record>, w: seq<Record>, cutoff: int)
    requires |w| <= |h| && w == h[|h| - |w|..]
    ensures var v := Prune(w, cutoff); |v| <= |h| && v == h[|h| - |v|..]
  {
  }

  lemma NotedRetained(s: State, units: int, at: int)
    requires s.rule.Some? && Retained(s)
    ensures Retained(Noted(s, units, at))
  {
    var r := Record(at, units);
    var h, w := s.books.history + [r], s.window + [r];
    assert h[|h| - |w|..] == s.books.history[|s.books.history| - |s.window|..] + [r];
    PruneRetained(h, w, at - Width(s.rule.value));
  }

  /** Recording leaves rule and counters alone. */
  lemma NotedKeeps(s: State, units: int, at: int)
    requires s.rule.Some?
    ensures var t := Noted(s, units, at);
      t == s.(window := t.window, books := t.books) && t.books.firstAlertAt == s.books.firstAlertAt
      && t.books.history == s.books.history + [Record(at, units)]
  {
  }

  lemma AlertKept(s: State, at: int)
    requires s.rule.Some? && Kept(s) && !s.frozen && at - s.lastAlertAt >= Suppression(s.rule.value)
    ensures Kept(Alert(s, at))
  {
    OneSpanMore(s.alerts, Suppression(s.rule.value));
  }

  lemma OneSpanMore(n: int, span: int)
    ensures (n - 1) * span + span == (n + 1 - 1) * span
  {
  }

  lemma RecordKept(s: State, units: int, at: int)
    requires Kept(s)
    ensures Kept(RecordConsumption(s, units, at))
  {
    hide Noted;
    hide Total;
    hide Retained;
    if Recording(s, units) {
      NotedRetained(s, units, at);
      NotedKeeps(s, units, at);
      var t := Noted(s, units, at);
      if Total(t.window) >= s.rule.value.maxUnits && at - s.lastAlertAt >= Suppression(s.rule.value) {
        AlertKept(t, at);
      }
    }
  }

  lemma CleanupKept(s: State, now: int)
    requires Kept(s)
    ensures Kept(Cleanup(s, now))
  {
    hide Prune;
    if s.rule.Some? {
      PruneRetained(s.books.history, s.window, now - Width(s.rule.value));
    }
  }

  lemma StepKept(s: State, op: Op)
    requires Kept(s)
    ensures Kept(Step(s, op))
  {
    hide RecordConsumption;
    hide Cleanup;
    match op
    case DoRecord(units, now) => RecordKept(s, units, now);
    case DoCleanup(now) => CleanupKept(s, now);
    case _ =>
  }

  lemma {:induction false} RunKept(s: State, ops: seq<Op>)
    requires Kept(s)
    ensures Kept(Run(s, ops))
    decreases |ops|
  {
    hide Kept;
    if ops != [] {
      StepKept(s, ops[0]);
      RunKept(Step(s, ops[0]), ops[1..]);
    }
  }

  /** After any run, a caller with a rule that is not frozen has fewer than N
      alerts counted. */
  lemma UnfrozenBelowThreshold(ops: seq<Op>)
    ensures var s := Run(EMPTY, ops); s.rule.Some? && !s.frozen ==> 0 <= s.alerts < s.rule.value.freezeTriggerN
  {
    RunKept(EMPTY, ops);
  }

  /** After any run, a freeze comes on the N-th counted alert, and no earlier
      than N - 1 times half a window after the first of them. */
  lemma FreezeTakesTime(ops: seq<Op>, units: int, at: int)
    requires !Run(EMPTY, ops).frozen && RecordConsumption(Run(EMPTY, ops), units, at).frozen
    ensures var t := RecordConsumption(Run(EMPTY, ops), units, at);
      && t.rule.Some? && t.alerts == t.rule.value.freezeTriggerN && t.lastAlertAt == at
      && at >= t.books.firstAlertAt + (t.rule.value.freezeTriggerN - 1) * Suppression(t.rule.value)
  {
    RunKept(EMPTY, ops);
    RecordKept(Run(EMPTY, ops), units, at);
  }

  // -------------------------------------------------- when the window is true

  lemma {:induction false} SinceConcat(a: seq<Record>, b: seq<Record>, cutoff: int)
    ensures Since(a + b, cutoff) == Since(a, cutoff) + Since(b, cutoff)
  {
    if a == [] {
      assert a + b == b;
    } else {
      assert (a + b)[1..] == a[1..] + b;
      SinceConcat(a[1..], b, cutoff);
    }
  }

  lemma {:induction false} SinceNoneIff(h: seq<Record>, cutoff: int)
    ensures Since(h, cutoff) == [] <==> forall x :: x in h ==> x.at < cutoff
  {
    if h != [] {
      SinceNoneIff(h[1..], cutoff);
      assert h == [h[0]] + h[1..];
    }
  }

  /** Pruning the window w gives the valid records of d + w exactly when d has
      none and no stale record of w follows a valid one. */
  lemma PruneIsTrueIff(d: seq<Record>, w: seq<Record>, cutoff: int)
    ensures Prune(w, cutoff) == Since(d + w, cutoff) <==>
      (forall x :: x in d ==> x.at < cutoff) && !StaleAfterValid(w, cutoff)
  {
    var v := Prune(w, cutoff);
    SinceConcat(d, w, cutoff);
    SinceNoneIff(d, cutoff);
    PrunedValidIff(w, cutoff);
    SinceSkips(w, FirstValid(w, cutoff), cutoff);
    SinceAllIff(v, cutoff);
    SinceMembers(d + w, cutoff);
    if v == Since(d + w, cutoff) {
      assert forall i :: 0 <= i < |v| ==> v[i] in v;
      assert Since(w, cutoff) == v;
      assert |Since(d, cutoff)| == 0;
    }
  }

  /** After any run, in time order or not, recording leaves the true window, all
      consumption recorded since the rule was set that is at most a window old,
      exactly when no record dropped earlier is that young and no stale record
      in the window follows a valid one. */
  lemma WindowIsTrueIff(ops: seq<Op>, units: int, at: int)
    requires Recording(Run(EMPTY, ops), units)
    ensures var s := Run(EMPTY, ops);
      var t := RecordConsumption(s, units, at);
      var cutoff := at - Width(s.rule.value);
      && Retained(s)
      && (t.window == Since(t.books.history, cutoff) <==>
          (forall x :: x in Dropped(s) ==> x.at < cutoff) && !StaleAfterValid(s.window + [Record(at, units)], cutoff))
  {
    RunKept(EMPTY, ops);
    var s := Run(EMPTY, ops);
    RecordedIff(s, units, at);
  }

  lemma RecordedIff(s: State, units: int, at: int)
    requires Kept(s) && Recording(s, units)
    ensures var t := RecordConsumption(s, units, at);
      var cutoff := at - Width(s.rule.value);
      && Retained(s)
      && (t.window == Since(t.books.history, cutoff) <==>
          (forall x :: x in Dropped(s) ==> x.at < cutoff) && !StaleAfterValid(s.window + [Record(at, units)], cutoff))
  {
    var r := Record(at, units);
    NotedKeeps(s, units, at);
    assert s.books.history + [r] == Dropped(s) + (s.window + [r]);
    PruneIsTrueIff(Dropped(s), s.window + [r], at - Width(s.rule.value));
    hide Prune;
    hide Since;
    hide Total;
    hide StaleAfterValid;
  }

  /** Recording below the maximum only notes the record. */
  lemma QuietRecord(s: State, units: int, at: int)
    requires Recording(s, units) && Total(Noted(s, units, at).window) < s.rule.value.maxUnits
    ensures RecordConsumption(s, units, at) == Noted(s, units, at)
  {
  }

  /** Under a rule with a window of six seconds, never near its maximum. */
  function SixSeconds(w: seq<Record>, h: seq<Record>): State
  {
    State(Some(Rule(6, 100, 3, true)), w, 0, -12 * SECOND, false, Books(h, 0))
  }

  function At(sec: int): Record
  {
    Record(sec * SECOND, 1)
  }

  lemma NoteAt(w: seq<Record>, h: seq<Record>, sec: int, left: seq<Record>)
    requires Prune(w + [At(sec)], (sec - 6) * SECOND) == left && Total(left) < 100
    ensures RecordConsumption(SixSeconds(w, h), 1, sec * SECOND) == SixSeconds(left, h + [At(sec)])
  {
    QuietRecord(SixSeconds(w, h), 1, sec * SECOND);
  }

  function Records(a: int, b: int): seq<Op>
  {
    [DoSetRule(Rule(6, 100, 3, true), 0), DoRecord(1, a * SECOND), DoRecord(1, b * SECOND)]
  }

  lemma TwoRecords(a: int, b: int, s: State)
    requires s == RecordConsumption(RecordConsumption(SixSeconds([], []), 1, a * SECOND), 1, b * SECOND)
    ensures Run(EMPTY, Records(a, b)) == s
  {
    hide RecordConsumption;
    var ops := Records(a, b);
    var s1 := RecordConsumption(SixSeconds([], []), 1, a * SECOND);
    assert ops[1..] == [ops[1], ops[2]] && [ops[1], ops[2]][1..] == [ops[2]] && [ops[2]][1..] == [];
    assert Step(EMPTY, ops[0]) == SixSeconds([], []);
    assert Run(s1, [ops[2]]) == Run(s, []);
    assert Run(SixSeconds([], []), [ops[1], ops[2]]) == Run(s1, [ops[2]]);
  }

  lemma PruneTwo(a: Record, b: Record, cutoff: int)
    requires a.at < cutoff <= b.at
    ensures Prune([a, b], cutoff) == [b]
  {
    var w := [a, b];
    assert w[1..] == [b];
    assert FirstValid(w, cutoff) == 1;
  }

  /** Records at 10 s, 4 s and 11 s: the one at 4 s is more than six seconds old
      at the end but stands behind a valid one, and is kept. */
  lemma OutOfOrderKeepsStale()
    ensures var s := Run(EMPTY, Records(10, 4));
      Recording(s, 1) && RecordConsumption(s, 1, 11 * SECOND).window == [At(10), At(4), At(11)]
      && Since(RecordConsumption(s, 1, 11 * SECOND).books.history, (11 - 6) * SECOND) == [At(10), At(11)]
  {
    NoteAt([], [], 10, [At(10)]);
    NoteAt([At(10)], [At(10)], 4, [At(10), At(4)]);
    TwoRecords(10, 4, SixSeconds([At(10), At(4)], [At(10), At(4)]));
    NoteAt([At(10), At(4)], [At(10), At(4)], 11, [At(10), At(4), At(11)]);
    SinceThree(At(10), At(4), At(11), (11 - 6) * SECOND);
  }

  /** Records at 1 s, 8 s and 7 s: the first is dropped at 8 s, but at 7 s it is
      six seconds old again. */
  lemma OutOfOrderMissesDropped()
    ensures var s := Run(EMPTY, Records(1, 8));
      Recording(s, 1) && RecordConsumption(s, 1, 7 * SECOND).window == [At(8), At(7)]
      && Since(RecordConsumption(s, 1, 7 * SECOND).books.history, (7 - 6) * SECOND) == [At(1), At(8), At(7)]
  {
    NoteAt([], [], 1, [At(1)]);
    PruneTwo(At(1), At(8), 2 * SECOND);
    NoteAt([At(1)], [At(1)], 8, [At(8)]);
    TwoRecords(1, 8, SixSeconds([At(8)], [At(1), At(8)]));
    NoteAt([At(8)], [At(1), At(8)], 7, [At(8), At(7)]);
    SinceThree(At(1), At(8), At(7), (7 - 6) * SECOND);
  }

  lemma SinceThree(a: Record, b: Record, c: Record, cutoff: int)
    ensures Since([a, b, c], cutoff) ==
      (if a.at >= cutoff then [a] else []) + (if b.at >= cutoff then [b] else []) + (if c.at >= cutoff then [c] else [])
  {
    assert [a, b, c] == [a] + ([b] + [c]);
    SinceConcat([a], [b] + [c], cutoff);
    SinceConcat([b], [c], cutoff);
  }

  // ----------------------------------------------------- runs in time order

  /** In time order the window is what is left of the history after dropping
      records that were too old already. */
  ghost predicate WindowOk(s: State, clock: int)
  {
    s.rule.Some? ==>
      && Ordered(s.books.history) && NotAfter(s.books.history, clock)
      && Tail(s.books.history, s.window, clock - Width(s.rule.value))
  }

  lemma NotedOk(s: State, units: int, at: int, clock: int)
    requires s.rule.Some? && WindowOk(s, clock) && clock <= at
    ensures var t := Noted(s, units, at);
      WindowOk(t, at) && t.window == Since(t.books.history, at - Width(s.rule.value))
  {
    hide Prune;
    hide Since;
    hide Tail;
    hide Ordered;
    hide NotAfter;
    var r := Record(at, units);
    var before, cutoff := clock - Width(s.rule.value), at - Width(s.rule.value);
    TailAppend(s.books.history, s.window, before, r);
    OrderedAppend(s.books.history, clock, r);
    TailPrune(s.books.history + [r], s.window + [r], before, cutoff);
  }

  lemma LaterOk(s: State, clock: int, now: int)
    requires WindowOk(s, clock) && clock <= now
    ensures WindowOk(s, now)
  {
  }

  lemma CleanupOk(s: State, now: int, clock: int)
    requires WindowOk(s, clock) && clock <= now
    ensures WindowOk(Cleanup(s, now), now)
  {
    hide Prune;
    hide Since;
    hide Tail;
    hide Ordered;
    LaterOk(s, clock, now);
    if s.rule.Some? {
      TailPrune(s.books.history, s.window, clock - Width(s.rule.value), now - Width(s.rule.value));
    }
  }

  lemma StepOk(s: State, op: Op, clock: int)
    requires WindowOk(s, clock) && clock <= op.now
    ensures WindowOk(Step(s, op), op.now)
  {
    hide Noted;
    hide Prune;
    hide Total;
    hide Tail;
    LaterOk(s, clock, op.now);
    match op
    case DoRecord(units, now) =>
      if Recording(s, units) {
        NotedOk(s, units, now, clock);
        NotedKeeps(s, units, now);
      }
    case DoCleanup(now) => CleanupOk(s, now, clock);
    case DoSetRule(r, now) => FreshTail(now - Width(r));
    case _ =>
  }

  lemma FreshTail(cutoff: int)
    ensures Tail([], [], cutoff)
  {
  }

  lemma {:induction false} RunOk(s: State, ops: seq<Op>, clock: int)
    requires WindowOk(s, clock) && Monotone(ops, clock)
    ensures WindowOk(Run(s, ops), LastTime(ops, clock))
    decreases |ops|
  {
    hide WindowOk;
    if ops != [] {
      StepOk(s, ops[0], clock);
      RunOk(Step(s, ops[0]), ops[1..], ops[0].now);
    }
  }

  ghost predicate TrueWindow(s: State, t: State, units: int, at: int)
    requires s.rule.Some?
  {
    var rule := s.rule.value;
    var inWindow := Since(s.books.history + [Record(at, units)], at - rule.windowSec * SECOND);
    var counted := Total(inWindow) >= rule.maxUnits && 2 * (at - s.lastAlertAt) >= rule.windowSec * SECOND;
    && t.books.history == s.books.history + [Record(at, units)]
    && t.window == inWindow
    && t.alerts == (if counted then s.alerts + 1 else s.alerts)
    && t.lastAlertAt == (if counted then at else s.lastAlertAt)
    && (t.frozen <==> counted && t.alerts >= rule.freezeTriggerN)
  }

  lemma HalfWindow(rule: Rule, passed: int)
    ensures passed >= Suppression(rule) <==> 2 * passed >= rule.windowSec * SECOND
    ensures Width(rule) == rule.windowSec * SECOND
  {
    var half := rule.windowSec * 500_000_000;
    assert rule.windowSec * SECOND == 2 * half;
    Halved(half);
  }

  lemma Halved(half: int)
    ensures 2 * half / 2 == half
  {
  }

  lemma RecordedWindow(s: State, units: int, at: int, clock: int)
    requires WindowOk(s, clock) && clock <= at && Recording(s, units)
    ensures TrueWindow(s, RecordConsumption(s, units, at), units, at)
  {
    assert RecordConsumption(s, units, at) ==
      var t := Noted(s, units, at);
      if Total(t.window) >= s.rule.value.maxUnits && at - s.lastAlertAt >= Suppression(s.rule.value)
      then Alert(t, at) else t;
    hide RecordConsumption;
    NotedOk(s, units, at, clock);
    NotedKeeps(s, units, at);
    HalfWindow(s.rule.value, at - s.lastAlertAt);
    hide WindowOk;
    hide Noted;
    hide Suppression;
    hide Width;
    hide Since;
    hide Total;
  }

  /** After any run in time order, recording leaves exactly the consumption
      recorded since the rule was set that is at most a window old, and counts
      an alert exactly when its true sum reaches the maximum and the last alert
      is half a window ago. */
  lemma WindowIsTrue(ops: seq<Op>, units: int, at: int)
    requires Monotone(ops, 0) && LastTime(ops, 0) <= at && Recording(Run(EMPTY, ops), units)
    ensures TrueWindow(Run(EMPTY, ops), RecordConsumption(Run(EMPTY, ops), units, at), units, at)
  {
    RunOk(EMPTY, ops, 0);
    hide TrueWindow;
    hide WindowOk;
    hide RecordConsumption;
    RecordedWindow(Run(EMPTY, ops), units, at, LastTime(ops, 0));
  }
}
