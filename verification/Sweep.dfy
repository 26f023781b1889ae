/** The admission sweep of checkConflictLocked: reservations become +/- events,
    an in-place exchange sort orders them by time with ties in arbitrary order,
    and a running sum is compared with the policy's limit. */
module Sweep {

  datatype Event = Event(time: int, delta: int)
  datatype Interval = Interval(startAt: int, endAt: int, tokens: int)

  predicate Proper(ivs: seq<Interval>)
  {
    forall iv :: iv in ivs ==> iv.tokens > 0 && iv.startAt < iv.endAt
  }

  /** Tokens reserved at instant t, with startAt <= t < endAt. */
  function Load(ivs: seq<Interval>, t: int): int
  {
    if ivs == [] then 0
    else (if ivs[0].startAt <= t < ivs[0].endAt then ivs[0].tokens else 0) + Load(ivs[1..], t)
  }

  /** The same with both end points included. */
  function ClosedLoad(ivs: seq<Interval>, t: int): int
  {
    if ivs == [] then 0
    else (if ivs[0].startAt <= t <= ivs[0].endAt then ivs[0].tokens else 0) + ClosedLoad(ivs[1..], t)
  }

  function EventsOf(ivs: seq<Interval>): (r: seq<Event>)
    ensures |r| == 2 * |ivs|
  {
    if ivs == [] then []
    else [Event(ivs[0].startAt, ivs[0].tokens), Event(ivs[0].endAt, -ivs[0].tokens)] + EventsOf(ivs[1..])
  }

  // ---------------------------------------------------------- exchange sort

  function Swap(s: seq<Event>, i: nat, j: nat): (r: seq<Event>)
    requires i < j < |s|
    ensures |r| == |s|
  {
    s[i := s[j]][j := s[i]]
  }

  /** The inner loop at position i, from j on. */
  function Inner(s: seq<Event>, i: nat, j: nat): (r: seq<Event>)
    requires i < j <= |s|
    ensures |r| == |s|
    decreases |s| - j
  {
    if j == |s| then s
    else Inner(if s[i].time > s[j].time then Swap(s, i, j) else s, i, j + 1)
  }

  function Outer(s: seq<Event>, i: nat): (r: seq<Event>)
    requires i <= |s|
    ensures |r| == |s|
    decreases |s| - i
  {
    if i == |s| then s else Outer(Inner(s, i, i + 1), i + 1)
  }

  function ExchangeSort(s: seq<Event>): (r: seq<Event>)
    ensures |r| == |s|
  {
    Outer(s, 0)
  }

  predicate Sorted(s: seq<Event>)
  {
    forall i, j :: 0 <= i < j < |s| ==> s[i].time <= s[j].time
  }

  predicate From(s: seq<Event>, i: nat, t: int)
  {
    forall k :: i <= k < |s| ==> t <= s[k].time
  }

  lemma SwapPermutes(s: seq<Event>, i: nat, j: nat)
    requires i < j < |s|
    ensures multiset(Swap(s, i, j)) == multiset(s)
  {
  }

  /** The inner loop brings a least element to position i and moves nothing
      before i. */
  /** One turn of the inner loop: the least time so far comes to place i. */
  lemma InnerTurn(s: seq<Event>, i: nat, j: nat)
    requires i < j < |s|
    requires forall k :: i < k < j ==> s[i].time <= s[k].time
    ensures var r := if s[i].time > s[j].time then Swap(s, i, j) else s;
      && |r| == |s| && multiset(r) == multiset(s) && r[..i] == s[..i]
      && (forall k :: i < k <= j ==> r[i].time <= r[k].time)
      && forall t :: From(s, i, t) ==> From(r, i, t)
  {
    if s[i].time > s[j].time {
      SwapPermutes(s, i, j);
    }
  }

  lemma {:induction false} InnerLeast(s: seq<Event>, i: nat, j: nat)
    requires i < j <= |s|
    requires forall k :: i < k < j ==> s[i].time <= s[k].time
    ensures var r := Inner(s, i, j);
      && multiset(r) == multiset(s) && r[..i] == s[..i]
      && From(r, i, r[i].time)
      && forall t :: From(s, i, t) ==> From(r, i, t)
    decreases |s| - j
  {
    if j == |s| {
      assert From(s, i, s[i].time);
    } else {
      InnerTurn(s, i, j);
      var s' := if s[i].time > s[j].time then Swap(s, i, j) else s;
      assert Inner(s, i, j) == Inner(s', i, j + 1);
      hide *;
      InnerLeast(s', i, j + 1);
    }
    hide *;
  }

  lemma {:induction false} OuterSorts(s: seq<Event>, i: nat)
    requires i <= |s| && Sorted(s[..i])
    requires forall k :: 0 <= k < i ==> From(s, i, s[k].time)
    ensures Sorted(Outer(s, i)) && multiset(Outer(s, i)) == multiset(s)
    decreases |s| - i
  {
    if i == |s| {
      assert s[..i] == s;
    } else {
      InnerLeast(s, i, i + 1);
      var r := Inner(s, i, i + 1);
      forall k | 0 <= k < i
        ensures r[k] == s[k] && From(r, i, r[k].time)
      {
        assert r[..i][k] == s[..i][k];
      }
      assert r[..i + 1] == s[..i] + [r[i]];
      OuterSorts(r, i + 1);
    }
  }

  /** Whatever the input order, the result is a sorted permutation. */
  lemma SortCorrect(s: seq<Event>)
    ensures Sorted(ExchangeSort(s)) && multiset(ExchangeSort(s)) == multiset(s)
  {
    OuterSorts(s, 0);
  }

  // ------------------------------------------------------------- the sweep

  function Sum(s: seq<Event>, f: Event -> int): int
  {
    if s == [] then 0 else f(s[0]) + Sum(s[1..], f)
  }

  function Delta(e: Event): int
  {
    e.delta
  }

  function RunningSum(s: seq<Event>, k: nat): int
    requires k <= |s|
  {
    if k == 0 then 0 else RunningSum(s, k - 1) + s[k - 1].delta
  }

  /** The answer of the sweep on an already sorted event list. */
  predicate Exceeds(s: seq<Event>, maxTokens: int)
  {
    exists k :: 0 < k <= |s| && RunningSum(s, k) > maxTokens
  }

  lemma {:induction false} SumConcat(a: seq<Event>, b: seq<Event>, f: Event -> int)
    ensures Sum(a + b, f) == Sum(a, f) + Sum(b, f)
  {
    if a == [] {
      assert a + b == b;
    } else {
      assert (a + b)[1..] == a[1..] + b;
      SumConcat(a[1..], b, f);
    }
  }

  /** The same events in another order: without a's first event both lists
      still hold the same events. */
  lemma MatchFirst(a: seq<Event>, b: seq<Event>) returns (i: nat)
    requires multiset(a) == multiset(b) && a != []
    ensures i < |b| && b[i] == a[0]
    ensures multiset(a[1..]) == multiset(b[..i] + b[i + 1..])
  {
    assert a[0] in multiset(a);
    i :| 0 <= i < |b| && b[i] == a[0];
    assert a == [a[0]] + a[1..];
    assert b == b[..i] + [b[i]] + b[i + 1..];
    assert multiset(a[1..]) == multiset(a) - multiset{a[0]};
    assert multiset(b[..i] + b[i + 1..]) == multiset(b) - multiset{b[i]};
  }

  lemma {:induction false} SumPermutes(a: seq<Event>, b: seq<Event>, f: Event -> int)
    requires multiset(a) == multiset(b)
    ensures Sum(a, f) == Sum(b, f)
    decreases |a|
  {
    if a == [] {
      assert |multiset(b)| == |b|;
    } else {
      var i := MatchFirst(a, b);
      SumPermutes(a[1..], b[..i] + b[i + 1..], f);
      SumWithout(b, i, f);
    }
  }

  lemma SumHead(e: Event, rest: seq<Event>, f: Event -> int)
    ensures Sum([e] + rest, f) == f(e) + Sum(rest, f)
  {
    assert ([e] + rest)[1..] == rest;
  }

  lemma SumWithout(b: seq<Event>, i: nat, f: Event -> int)
    requires i < |b|
    ensures Sum(b, f) == f(b[i]) + Sum(b[..i] + b[i + 1..], f)
  {
    hide Sum;
    var front, e, back := b[..i], b[i], b[i + 1..];
    assert b == front + ([e] + back);
    SumConcat(front, [e] + back, f);
    SumHead(e, back, f);
    SumConcat(front, back, f);
  }

  lemma {:induction false} RunningIsSum(s: seq<Event>, k: nat)
    requires k <= |s|
    ensures RunningSum(s, k) == Sum(s[..k], Delta)
  {
    if k > 0 {
      RunningIsSum(s, k - 1);
      assert s[..k] == s[..k - 1] + [s[k - 1]];
      SumConcat(s[..k - 1], [s[k - 1]], Delta);
    }
  }

  /** Weights that turn the event sum into the load at t. */
  function UpTo(t: int): Event -> int
  {
    (e: Event) => if e.time <= t then e.delta else 0
  }

  /** Starts at t count, ends at t do not. */
  function UpToClosed(t: int): Event -> int
  {
    (e: Event) => if e.time < t || (e.time == t && e.delta > 0) then e.delta else 0
  }

  lemma {:induction false} EventSums(ivs: seq<Interval>, t: int)
    requires Proper(ivs)
    ensures Sum(EventsOf(ivs), UpTo(t)) == Load(ivs, t)
    ensures Sum(EventsOf(ivs), UpToClosed(t)) == ClosedLoad(ivs, t)
    ensures Sum(EventsOf(ivs), Delta) == 0
  {
    if ivs != [] {
      assert ivs[0] in ivs && forall iv :: iv in ivs[1..] ==> iv in ivs;
      EventSums(ivs[1..], t);
      var head := [Event(ivs[0].startAt, ivs[0].tokens), Event(ivs[0].endAt, -ivs[0].tokens)];
      forall f: Event -> int
        ensures Sum(EventsOf(ivs), f) == f(head[0]) + f(head[1]) + Sum(EventsOf(ivs[1..]), f)
      {
        SumConcat(head, EventsOf(ivs[1..]), f);
        assert head[1..] == [head[1]] && head[1..][1..] == [];
      }
    }
  }

  lemma {:induction false} SumOfZeros(s: seq<Event>, f: Event -> int)
    requires forall e :: e in s ==> f(e) == 0
    ensures Sum(s, f) == 0
  {
    if s != [] {
      assert s[0] in s && forall e :: e in s[1..] ==> e in s;
      SumOfZeros(s[1..], f);
    }
  }

  lemma {:induction false} SumLe(s: seq<Event>, f: Event -> int, g: Event -> int)
    requires forall e :: e in s ==> f(e) <= g(e)
    ensures Sum(s, f) <= Sum(s, g)
  {
    if s != [] {
      assert s[0] in s && forall e :: e in s[1..] ==> e in s;
      SumLe(s[1..], f, g);
    }
  }

  /** A running sum that cuts a sorted list between t and later times is the
      weighted sum up to t. */
  lemma {:induction false} CutAt(s: seq<Event>, t: int) returns (k: nat)
    requires Sorted(s)
    ensures k <= |s| && RunningSum(s, k) == Sum(s, UpTo(t))
  {
    k := 0;
    while k < |s| && s[k].time <= t
      invariant 0 <= k <= |s| && forall i :: 0 <= i < k ==> s[i].time <= t
    {
      k := k + 1;
    }
    var a, b := s[..k], s[k..];
    assert s == a + b;
    SumConcat(a, b, UpTo(t));
    SumLe(a, UpTo(t), Delta);
    SumLe(a, Delta, UpTo(t));
    SumOfZeros(b, UpTo(t));
    RunningIsSum(s, k);
  }

  /** A running sum never exceeds the closed load at its last event. */
  lemma RunningBelowClosed(s: seq<Event>, k: nat)
    requires Sorted(s) && 0 < k <= |s|
    ensures RunningSum(s, k) <= Sum(s, UpToClosed(s[k - 1].time))
  {
    var t := s[k - 1].time;
    var a, b := s[..k], s[k..];
    var zero := (e: Event) => 0;
    assert s == a + b;
    SumConcat(a, b, UpToClosed(t));
    SumLe(a, Delta, UpToClosed(t));
    SumLe(b, zero, UpToClosed(t));
    SumOfZeros(b, zero);
    RunningIsSum(s, k);
  }

  /** "No conflict" bounds the load at every instant; "conflict" exhibits an
      instant at which the closed load is over the limit. */
  lemma SweepSound(ivs: seq<Interval>, events: seq<Event>, maxTokens: int)
    requires Proper(ivs) && ivs != [] && multiset(events) == multiset(EventsOf(ivs))
    ensures !Exceeds(ExchangeSort(events), maxTokens) ==> forall t :: Load(ivs, t) <= maxTokens
    ensures Exceeds(ExchangeSort(events), maxTokens) ==> exists t :: ClosedLoad(ivs, t) > maxTokens
  {
    var s := ExchangeSort(events);
    SortCorrect(events);
    assert |s| == |multiset(EventsOf(ivs))| by {
      assert |multiset(s)| == |s|;
    }
    if Exceeds(s, maxTokens) {
      var k :| 0 < k <= |s| && RunningSum(s, k) > maxTokens;
      var t := s[k - 1].time;
      RunningBelowClosed(s, k);
      EventSums(ivs, t);
      SumPermutes(s, EventsOf(ivs), UpToClosed(t));
      assert ClosedLoad(ivs, t) > maxTokens;
    } else {
      EventSums(ivs, 0);
      SumPermutes(s, EventsOf(ivs), Delta);
      RunningIsSum(s, |s|);
      assert s[..|s|] == s;
      forall t
        ensures Load(ivs, t) <= maxTokens
      {
        var k := CutAt(s, t);
        EventSums(ivs, t);
        SumPermutes(s, EventsOf(ivs), UpTo(t));
      }
    }
  }

  predicate TieFree(ivs: seq<Interval>)
  {
    forall a, b :: a in ivs && b in ivs ==> a.startAt != b.endAt
  }

  /** Just before t nothing that starts at t counts yet; at t nothing that ends
      at t counts any more. */
  lemma {:induction false} ClosedLoadSplits(ivs: seq<Interval>, t: int)
    requires Proper(ivs)
    ensures (forall iv :: iv in ivs ==> iv.startAt != t) ==> ClosedLoad(ivs, t) == Load(ivs, t - 1)
    ensures (forall iv :: iv in ivs ==> iv.endAt != t) ==> ClosedLoad(ivs, t) == Load(ivs, t)
  {
    if ivs != [] {
      assert ivs[0] in ivs && forall iv :: iv in ivs[1..] ==> iv in ivs;
      ClosedLoadSplits(ivs[1..], t);
    }
  }

  // --------------------------------------------------------------- exactness

  /** Some instant is over the limit. */
  ghost predicate Overloaded(ivs: seq<Interval>, maxTokens: int)
  {
    exists t :: Load(ivs, t) > maxTokens
  }

  /** Some instant is over the limit if intervals that end there count as well. */
  ghost predicate OverloadedWithEnds(ivs: seq<Interval>, maxTokens: int)
  {
    exists t :: ClosedLoad(ivs, t) > maxTokens
  }

  /** Whatever order the events come in, also one that no walk of the map builds,
      the sweep reports a conflict exactly when some instant is over the limit. */
  ghost predicate SweepAgrees(ivs: seq<Interval>, maxTokens: int)
  {
    forall events :: multiset(events) == multiset(EventsOf(ivs)) ==>
      (Exceeds(ExchangeSort(events), maxTokens) <==> Overloaded(ivs, maxTokens))
  }

  /** The events of s that satisfy p, in order. */
  function Select(s: seq<Event>, p: Event -> bool): seq<Event>
  {
    if s == [] then [] else (if p(s[0]) then [s[0]] else []) + Select(s[1..], p)
  }

  lemma {:induction false} SelectSorted(s: seq<Event>, p: Event -> bool)
    requires Sorted(s)
    ensures Sorted(Select(s, p))
    ensures forall e :: e in Select(s, p) ==> e in s && p(e)
  {
    if s != [] {
      var rest := Select(s[1..], p);
      assert Select(s, p) == (if p(s[0]) then [s[0]] else []) + rest;
      SelectSorted(s[1..], p);
      hide Select;
      assert forall e :: e in s[1..] ==> e in s && s[0].time <= e.time;
    }
  }

  lemma {:induction false} SelectSplits(s: seq<Event>, p: Event -> bool)
    ensures multiset(Select(s, p) + Select(s, (e: Event) => !p(e))) == multiset(s)
  {
    if s != [] {
      var q := (e: Event) => !p(e);
      var a, b := Select(s[1..], p), Select(s[1..], q);
      SelectSplits(s[1..], p);
      assert s == [s[0]] + s[1..];
      assert Select(s, p) == (if p(s[0]) then [s[0]] else []) + a;
      assert Select(s, q) == (if p(s[0]) then [] else [s[0]]) + b;
      hide Select;
      assert multiset(a) + multiset(b) == multiset(s[1..]);
    }
  }

  lemma {:induction false} InnerIdle(s: seq<Event>, i: nat, j: nat)
    requires Sorted(s) && i < j <= |s|
    ensures Inner(s, i, j) == s
    decreases |s| - j
  {
    if j < |s| {
      InnerIdle(s, i, j + 1);
    }
  }

  /** A sorted list comes out of the sort as it went in. */
  lemma {:induction false} OuterIdle(s: seq<Event>, i: nat)
    requires Sorted(s) && i <= |s|
    ensures Outer(s, i) == s
    decreases |s| - i
  {
    if i < |s| {
      InnerIdle(s, i, i + 1);
      OuterIdle(s, i + 1);
    }
  }

  predicate StartsBy(t: int, e: Event)
  {
    e.time < t || (e.time == t && e.delta > 0)
  }

  lemma JoinSorted(a: seq<Event>, b: seq<Event>, t: int)
    requires Sorted(a) && Sorted(b)
    requires (forall e :: e in a ==> e.time <= t) && (forall e :: e in b ==> t <= e.time)
    ensures Sorted(a + b)
  {
    var s := a + b;
    forall i, j | 0 <= i < j < |s|
      ensures s[i].time <= s[j].time
    {
      assert i < |a| ==> s[i] in a;
      assert j >= |a| ==> s[j] in b;
    }
  }

  /** Only the events that start by t weigh in. */
  lemma WeighFirst(a: seq<Event>, b: seq<Event>, t: int)
    requires (forall e :: e in a ==> StartsBy(t, e)) && (forall e :: e in b ==> !StartsBy(t, e))
    ensures RunningSum(a + b, |a|) == Sum(a + b, UpToClosed(t))
  {
    RunningIsSum(a + b, |a|);
    assert (a + b)[..|a|] == a;
    SumConcat(a, b, UpToClosed(t));
    SumLe(a, Delta, UpToClosed(t));
    SumLe(a, UpToClosed(t), Delta);
    SumOfZeros(b, UpToClosed(t));
  }

  /** The events in time order, with those that start at t before those that
      end at t: the running sum passes the closed load at t. */
  lemma StartsFirst(s: seq<Event>, t: int) returns (a: seq<Event>, k: nat)
    requires Sorted(s)
    ensures multiset(a) == multiset(s) && Sorted(a)
    ensures k <= |a| && RunningSum(a, k) == Sum(s, UpToClosed(t))
  {
    var p := (e: Event) => StartsBy(t, e);
    var q := (e: Event) => !p(e);
    var first, rest := Select(s, p), Select(s, q);
    a, k := first + rest, |first|;
    SelectSorted(s, p);
    SelectSorted(s, q);
    SelectSplits(s, p);
    JoinSorted(first, rest, t);
    WeighFirst(first, rest, t);
    SumPermutes(a, s, UpToClosed(t));
  }

  lemma {:induction false} LoadNotNegative(ivs: seq<Interval>, t: int)
    requires Proper(ivs)
    ensures Load(ivs, t) >= 0
  {
    if ivs != [] {
      assert ivs[0] in ivs && forall iv :: iv in ivs[1..] ==> iv in ivs;
      LoadNotNegative(ivs[1..], t);
    }
  }

  /** Where only the end points overload an instant, some order of the events
      makes the sweep report a conflict. */
  lemma EndsCanConflict(ivs: seq<Interval>, maxTokens: int) returns (events: seq<Event>)
    requires Proper(ivs) && OverloadedWithEnds(ivs, maxTokens) && maxTokens >= 0
    ensures multiset(events) == multiset(EventsOf(ivs)) && Exceeds(ExchangeSort(events), maxTokens)
  {
    var t :| ClosedLoad(ivs, t) > maxTokens;
    var s := ExchangeSort(EventsOf(ivs));
    SortCorrect(EventsOf(ivs));
    var k;
    events, k := StartsFirst(s, t);
    OuterIdle(events, 0);
    SumPermutes(s, EventsOf(ivs), UpToClosed(t));
    EventSums(ivs, t);
    assert RunningSum(events, k) > maxTokens;
  }

  /** If every overload that counts end points comes with one that does not, the
      sweep is exact for every order of the events, and so for every walk. Only
      for all orders is that condition also needed: the code lists each start
      right before its end, and may then accept what another order refuses. */
  lemma SweepExactIff(ivs: seq<Interval>, maxTokens: int)
    requires Proper(ivs) && ivs != []
    ensures SweepAgrees(ivs, maxTokens) <==> (OverloadedWithEnds(ivs, maxTokens) ==> Overloaded(ivs, maxTokens))
  {
    if OverloadedWithEnds(ivs, maxTokens) && !Overloaded(ivs, maxTokens) {
      LoadNotNegative(ivs, 0);
      assert Load(ivs, 0) <= maxTokens;
      var events := EndsCanConflict(ivs, maxTokens);
    } else {
      forall events | multiset(events) == multiset(EventsOf(ivs))
        ensures Exceeds(ExchangeSort(events), maxTokens) <==> Overloaded(ivs, maxTokens)
      {
        SweepSound(ivs, events, maxTokens);
      }
    }
  }

  /** Without a start that ties an end the sweep is exact. */
  lemma SweepExact(ivs: seq<Interval>, events: seq<Event>, maxTokens: int)
    requires Proper(ivs) && ivs != [] && multiset(events) == multiset(EventsOf(ivs))
    requires TieFree(ivs)
    ensures Exceeds(ExchangeSort(events), maxTokens) <==> Overloaded(ivs, maxTokens)
  {
    if OverloadedWithEnds(ivs, maxTokens) {
      var t :| ClosedLoad(ivs, t) > maxTokens;
      ClosedLoadSplits(ivs, t);
      if forall iv :: iv in ivs ==> iv.startAt != t {
        assert Load(ivs, t - 1) > maxTokens;
      } else {
        assert Load(ivs, t) > maxTokens;
      }
    }
    SweepExactIff(ivs, maxTokens);
  }

  /** The same two intervals the other way round, the new one ending where the old
      one starts, are accepted, although counting end points overloads an instant. */
  lemma BackToBackAccepted()
    ensures var ivs := [Interval(0, 10, 5), Interval(10, 20, 5)];
      && !Exceeds(ExchangeSort(EventsOf(ivs)), 5)
      && OverloadedWithEnds(ivs, 5) && !Overloaded(ivs, 5)
  {
    var ivs := [Interval(0, 10, 5), Interval(10, 20, 5)];
    var e := [Event(0, 5), Event(10, -5), Event(10, 5), Event(20, -5)];
    assert ivs[1..] == [Interval(10, 20, 5)] && ivs[1..][1..] == [];
    assert EventsOf(ivs[1..]) == [Event(10, 5), Event(20, -5)];
    assert EventsOf(ivs) == e;
    OuterIdle(e, 0);
    assert RunningSum(e, 1) == 5 && RunningSum(e, 2) == 0 && RunningSum(e, 3) == 5 && RunningSum(e, 4) == 0;
    assert ClosedLoad(ivs[1..], 10) == 5 && ClosedLoad(ivs, 10) == 10;
    forall t
      ensures Load(ivs, t) <= 5
    {
      assert Load(ivs[1..], t) == if 10 <= t < 20 then 5 else 0;
    }
  }

  /** With a tie the sweep can refuse a reservation that fits: back-to-back
      intervals of 5 tokens each under a limit of 5. */
  lemma BackToBackRefused()
    ensures var ivs := [Interval(10, 20, 5), Interval(0, 10, 5)];
      && Exceeds(ExchangeSort(EventsOf(ivs)), 5)
      && forall t :: Load(ivs, t) <= 5
  {
    var ivs := [Interval(10, 20, 5), Interval(0, 10, 5)];
    var e := [Event(10, 5), Event(20, -5), Event(0, 5), Event(10, -5)];
    assert ivs[1..] == [Interval(0, 10, 5)] && ivs[1..][1..] == [];
    assert EventsOf(ivs[1..]) == [Event(0, 5), Event(10, -5)];
    assert EventsOf(ivs) == e;
    var e1 := [Event(0, 5), Event(20, -5), Event(10, 5), Event(10, -5)];
    assert Swap(e, 0, 2) == e1;
    assert Inner(e, 0, 1) == Inner(e, 0, 2) == Inner(e1, 0, 3) == Inner(e1, 0, 4) == e1;
    var e2 := [Event(0, 5), Event(10, 5), Event(20, -5), Event(10, -5)];
    assert Swap(e1, 1, 2) == e2;
    assert Inner(e1, 1, 2) == Inner(e2, 1, 3) == Inner(e2, 1, 4) == e2;
    var e3 := [Event(0, 5), Event(10, 5), Event(10, -5), Event(20, -5)];
    assert Swap(e2, 2, 3) == e3;
    assert Inner(e2, 2, 3) == Inner(e3, 2, 4) == e3;
    assert Outer(e3, 3) == Outer(e3, 4) == e3;
    assert ExchangeSort(e) == Outer(e1, 1) == Outer(e2, 2) == e3;
    assert RunningSum(e3, 2) == RunningSum(e3, 1) + 5;
    assert RunningSum(e3, 1) == 5;
    forall t
      ensures Load(ivs, t) <= 5
    {
      assert Load(ivs[1..], t) == if 0 <= t < 10 then 5 else 0;
    }
  }

  // ------------------------------------------------------- the source's form

  /** The exchange sort in place. */
  method SortEvents(events: array<Event>)
    modifies events
    ensures events[..] == ExchangeSort(old(events[..]))
  {
    var n := events.Length;
    var i := 0;
    while i < n
      invariant 0 <= i <= n
      invariant Outer(events[..], i) == ExchangeSort(old(events[..]))
    {
      var j := i + 1;
      while j < n
        invariant i < j <= n
        invariant Outer(Inner(events[..], i, j), i + 1) == ExchangeSort(old(events[..]))
      {
        ghost var before := events[..];
        if events[i].time > events[j].time {
          events[i], events[j] := events[j], events[i];
          assert events[..] == Swap(before, i, j);
        }
        j := j + 1;
      }
      i := i + 1;
    }
  }

  /** Events in any order in, the verdict of the sweep out. */
  method SweepEvents(list: seq<Event>, maxTokens: int) returns (conflict: bool)
    ensures conflict <==> Exceeds(ExchangeSort(list), maxTokens)
  {
    var events := new Event[|list|](i requires 0 <= i < |list| => list[i]);
    assert events[..] == list;
    SortEvents(events);
    var current := 0;
    var i := 0;
    while i < events.Length
      invariant 0 <= i <= events.Length
      invariant events[..] == ExchangeSort(list)
      invariant current == RunningSum(ExchangeSort(list), i)
      invariant forall k :: 0 < k <= i ==> RunningSum(ExchangeSort(list), k) <= maxTokens
    {
      assert events[i] == ExchangeSort(list)[i];
      current := current + events[i].delta;
      i := i + 1;
      if current > maxTokens {
        assert RunningSum(ExchangeSort(list), i) > maxTokens;
        return true;
      }
    }
    return false;
  }
}
