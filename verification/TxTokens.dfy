/** The token phase of an orchestration transaction: tokens requested in order,
    returned last one first when a request is refused. */
module TxTokens {
  import opened RateState
  import opened RateInvariant

  datatype TokenSpec = TokenSpec(caller: string, tokens: int)

  /** The requests of CreateTx; the number granted before the first refusal. */
  function TakeTokens(s: State, specs: seq<TokenSpec>, now: int, decay: Decay): (r: (State, nat))
    requires WellFormed(s)
    ensures r.1 <= |specs| && r.0.policies == s.policies
    decreases |specs|
  {
    if specs == [] then (s, 0)
    else
      var (u, outcome) := Request(s, specs[0].caller, specs[0].tokens, false, 0, now, decay);
      if outcome.Granted? then
        var (t, k) := TakeTokens(u, specs[1..], now, decay);
        (t, k + 1)
      else (u, 0)
  }

  function ReturnAll(s: State, specs: seq<TokenSpec>, now: int, decay: Decay): State
    requires WellFormed(s)
    decreases |specs|
  {
    if specs == [] then s
    else
      var last := specs[|specs| - 1];
      ReturnAll(Return(s, last.caller, last.tokens, now, decay), specs[..|specs| - 1], now, decay)
  }

  function SumFor(specs: seq<TokenSpec>, c: string): int
  {
    if specs == [] then 0
    else SumFor(specs[..|specs| - 1], c) + if specs[|specs| - 1].caller == c then specs[|specs| - 1].tokens else 0
  }

  predicate NonNegative(specs: seq<TokenSpec>)
  {
    forall x :: x in specs ==> x.tokens >= 0
  }

  function Charged(b: Binding, tokens: int): Binding
  {
    b.(used := b.used + tokens)
  }

  /** A second tick at the same instant changes nothing, whatever was charged
      or returned in between. */
  lemma TickAgain(b: Binding, p: Policy, limit: int, now: int, decay: Decay, tokens: int)
    requires p.algorithm.FixedWindow? ==> p.windowSec > 0
    ensures var t := Tick(b, p, limit, now, decay);
      Tick(Charged(t, tokens), p, limit, now, decay) == Charged(t, tokens)
  {
  }

  /** t differs from s only in that the callers in `ticked` are brought up to
      date and charged for specs. */
  ghost predicate ChargedFor(s: State, t: State, ticked: set<string>, specs: seq<TokenSpec>, now: int, decay: Decay)
    requires WellFormed(s)
  {
    && t == s.(bindings := t.bindings) && t.bindings.Keys == s.bindings.Keys
    && (forall c :: c in ticked ==> Known(s, c))
    && (forall x :: x in specs ==> x.caller in ticked)
    && forall c :: c in s.bindings ==> t.bindings[c] == Expected(s, c, ticked, specs, now, decay)
  }

  function Expected(s: State, c: string, ticked: set<string>, specs: seq<TokenSpec>, now: int, decay: Decay): Binding
    requires WellFormed(s) && c in s.bindings
  {
    if c in ticked then Charged(TickedBinding(s, s.bindings[c], now, decay), SumFor(specs, c)) else s.bindings[c]
  }

  lemma {:induction false} SumNone(specs: seq<TokenSpec>, c: string)
    requires forall x :: x in specs ==> x.caller != c
    ensures SumFor(specs, c) == 0
  {
    if specs != [] {
      var front := specs[..|specs| - 1];
      assert specs[|specs| - 1] in specs && forall x :: x in front ==> x in specs;
      SumNone(front, c);
    }
  }

  lemma {:induction false} SumNonNegative(specs: seq<TokenSpec>, c: string)
    requires NonNegative(specs)
    ensures SumFor(specs, c) >= 0
  {
    if specs != [] {
      var front := specs[..|specs| - 1];
      assert specs[|specs| - 1] in specs && forall x :: x in front ==> x in specs;
      SumNonNegative(front, c);
    }
  }

  lemma {:induction false} SumConcat(a: seq<TokenSpec>, b: seq<TokenSpec>, c: string)
    ensures SumFor(a + b, c) == SumFor(a, c) + SumFor(b, c)
    decreases |b|
  {
    if b == [] {
      assert a + b == a;
    } else {
      var front, last := b[..|b| - 1], b[|b| - 1];
      assert (a + b)[..|a + b| - 1] == a + front && (a + b)[|a + b| - 1] == last;
      SumConcat(a, front, c);
    }
  }

  lemma SumAppend(specs: seq<TokenSpec>, x: TokenSpec, c: string)
    ensures SumFor(specs + [x], c) == SumFor(specs, c) + if x.caller == c then x.tokens else 0
  {
  }

  /** Ticking a caller of a state in progress adds it to the ticked ones. */
  lemma TickedOne(s: State, u: State, ticked: set<string>, specs: seq<TokenSpec>, c: string, now: int, decay: Decay)
    requires WellFormed(s) && ChargedFor(s, u, ticked, specs, now, decay) && Known(s, c)
    ensures ChargedFor(s, Ticked(u, c, now, decay), ticked + {c}, specs, now, decay)
    ensures Remaining(u, Ticked(u, c, now, decay).bindings[c]) ==
      (var left := EffectiveLimit(s, s.bindings[c]) - TickedBinding(s, s.bindings[c], now,
          decay).used - SumFor(specs, c);
       if left < 0 then 0 else left)
  {
    var b := s.bindings[c];
    var limit := EffectiveLimit(s, b);
    var p := s.policies[b.policy];
    assert u.bindings[c] == Expected(s, c, ticked, specs, now, decay);
    TickFields(b, p, limit, now, decay);
    if c in ticked {
      TickAgain(b, p, limit, now, decay, SumFor(specs, c));
    } else {
      SumNone(specs, c);
    }
    hide Tick;
  }

  lemma ChargeOne(s: State, u: State, ticked: set<string>, specs: seq<TokenSpec>, x: TokenSpec, now: int, decay: Decay)
    requires WellFormed(s) && ChargedFor(s, u, ticked, specs, now, decay) && x.caller in ticked
    ensures ChargedFor(s, Charge(u, x.caller, x.tokens), ticked, specs + [x], now, decay)
  {
  }

  /** The returns undo the charges exactly, last one first. */
  lemma {:induction false} ReturnsUndo(s: State, u: State, ticked: set<string>, specs: seq<TokenSpec>, now: int,
                                       decay: Decay, clock: int)
    requires Ok(s, clock) && ChargedFor(s, u, ticked, specs, now, decay) && NonNegative(specs)
    ensures ChargedFor(s, ReturnAll(u, specs, now, decay), ticked, [], now, decay)
    decreases |specs|
  {
    if specs != [] {
      var front, x := specs[..|specs| - 1], specs[|specs| - 1];
      assert specs == front + [x] && x in specs && forall y :: y in front ==> y in specs;
      ReturnOne(s, u, ticked, front, x, now, decay, clock);
      ReturnsUndo(s, Return(u, x.caller, x.tokens, now, decay), ticked, front, now, decay, clock);
    }
  }

  lemma RefundOne(s: State, v: State, ticked: set<string>, front: seq<TokenSpec>, x: TokenSpec, now: int, decay: Decay)
    requires WellFormed(s) && ChargedFor(s, v, ticked, front + [x], now, decay)
    requires x.caller in v.bindings && 0 <= x.tokens <= v.bindings[x.caller].used
    ensures ChargedFor(s, Refund(v, x.caller, x.tokens), ticked, front, now, decay)
  {
  }

  /** A charged caller has used at least what it was charged. */
  lemma UsedCovers(s: State, v: State, ticked: set<string>, front: seq<TokenSpec>, x: TokenSpec, now: int,
                   decay: Decay, clock: int)
    requires Ok(s, clock) && ChargedFor(s, v, ticked, front + [x], now, decay) && NonNegative(front)
    ensures x.caller in v.bindings && v.bindings[x.caller].used >= x.tokens
  {
    assert x in front + [x];
    var c := x.caller;
    var b := s.bindings[c];
    assert BindingOk(s, b);
    TickLowers(b, s.policies[b.policy], EffectiveLimit(s, b), now, decay);
    SumNonNegative(front, c);
    SumAppend(front, x, c);
    assert v.bindings[c] == Expected(s, c, ticked, front + [x], now, decay);
  }

  lemma ReturnOne(s: State, u: State, ticked: set<string>, front: seq<TokenSpec>, x: TokenSpec, now: int,
                  decay: Decay, clock: int)
    requires Ok(s, clock) && ChargedFor(s, u, ticked, front + [x], now, decay) && NonNegative(front) && x.tokens >= 0
    ensures ChargedFor(s, Return(u, x.caller, x.tokens, now, decay), ticked, front, now, decay)
  {
    var c := x.caller;
    assert x in front + [x] && c in ticked && Known(s, c) && c in u.bindings;
    TickedOne(s, u, ticked, front + [x], c, now, decay);
    var v := Ticked(u, c, now, decay);
    assert ticked + {c} == ticked;
    UsedCovers(s, v, ticked, front, x, now, decay, clock);
    RefundOne(s, v, ticked, front, x, now, decay);
    hide Ticked;
    hide ChargedFor;
  }

  /** The callers that the first requests bring up to date. */
  function KnownCallers(s: State, specs: seq<TokenSpec>): set<string>
  {
    set x | x in specs && Known(s, x.caller) :: x.caller
  }

  /** Every requested caller exists and all its requests together fit what it
      has left after the tick. */
  ghost predicate Covered(s: State, done: seq<TokenSpec>, specs: seq<TokenSpec>, now: int, decay: Decay)
    requires WellFormed(s)
  {
    forall x :: x in specs ==>
      Known(s, x.caller) && SumFor(done + specs, x.caller) <= Left(s, x.caller, now, decay)
  }

  /** What was charged so far fits every caller. */
  ghost predicate Fits(s: State, done: seq<TokenSpec>, now: int, decay: Decay)
    requires WellFormed(s)
  {
    forall c :: Known(s, c) ==> SumFor(done, c) <= Left(s, c, now, decay)
  }

  /** Tokens left to a caller after the tick. */
  function Left(s: State, c: string, now: int, decay: Decay): int
    requires WellFormed(s) && c in s.bindings
  {
    EffectiveLimit(s, s.bindings[c]) - TickedBinding(s, s.bindings[c], now, decay).used
  }

  function Upto(specs: seq<TokenSpec>, k: nat): seq<TokenSpec>
  {
    if k <= |specs| then specs[..k] else specs
  }

  /** The head of the remaining requests is granted exactly when it fits. */
  lemma HeadRequest(s: State, u: State, ticked: set<string>, done: seq<TokenSpec>, x: TokenSpec, now: int, decay: Decay)
    requires WellFormed(s) && ChargedFor(s, u, ticked, done, now, decay) && Fits(s, done, now, decay) && x.tokens >= 0
    ensures var (t, outcome) := Request(u, x.caller, x.tokens, false, 0, now, decay);
      && outcome in {UnknownCaller, Granted, Refused}
      && (outcome == UnknownCaller <==> !Known(s, x.caller))
      && (outcome == UnknownCaller ==> t == u)
      && (outcome == Granted <==>
          Known(s, x.caller) && SumFor(done, x.caller) + x.tokens <= Left(s, x.caller, now, decay))
      && (outcome == Granted ==> ChargedFor(s, t, ticked + {x.caller}, done + [x], now, decay))
      && (outcome == Refused ==> ChargedFor(s, t, ticked + {x.caller}, done, now, decay))
  {
    var c := x.caller;
    assert c in s.bindings ==> u.bindings[c] == Expected(s, c, ticked, done, now, decay);
    KnownSame(s, u, ticked, done, c, now, decay);
    if Known(s, c) {
      TickedOne(s, u, ticked, done, c, now, decay);
      RemainingSame(u, c, now, decay);
      hide ChargedFor;
      hide Tick;
      hide EffectiveLimit;
      ChargeOne(s, Ticked(u, c, now, decay), ticked + {c}, done, x, now, decay);
    }
  }

  lemma KnownSame(s: State, u: State, ticked: set<string>, done: seq<TokenSpec>, c: string, now: int, decay: Decay)
    requires WellFormed(s) && ChargedFor(s, u, ticked, done, now, decay)
    ensures Known(s, c) <==> Known(u, c)
    ensures u.policies == s.policies
  {
  }

  lemma RemainingSame(u: State, c: string, now: int, decay: Decay)
    requires WellFormed(u) && Known(u, c)
    ensures var v := Ticked(u, c, now, decay);
      c in v.bindings && Remaining(v, v.bindings[c]) == Remaining(u, v.bindings[c])
  {
  }

  lemma CoveredHead(s: State, done: seq<TokenSpec>, x: TokenSpec, rest: seq<TokenSpec>, now: int, decay: Decay)
    requires WellFormed(s) && Known(s, x.caller) && Fits(s, done + [x], now, decay)
    ensures Covered(s, done, [x] + rest, now, decay) <==> Covered(s, done + [x], rest, now, decay)
  {
    assert done + ([x] + rest) == (done + [x]) + rest;
    assert x in [x] + rest;
    if Covered(s, done + [x], rest, now, decay) {
      forall y | y in [x] + rest
        ensures Known(s, y.caller) && SumFor(done + ([x] + rest), y.caller) <= Left(s, y.caller, now, decay)
      {
        SumConcat(done + [x], rest, y.caller);
        if forall z :: z in rest ==> z.caller != y.caller {
          SumNone(rest, y.caller);
        } else {
          var z :| z in rest && z.caller == y.caller;
        }
      }
    }
    if Covered(s, done, [x] + rest, now, decay) {
      forall y | y in rest
        ensures Known(s, y.caller) && SumFor((done + [x]) + rest, y.caller) <= Left(s, y.caller, now, decay)
      {
        assert y in [x] + rest;
      }
    }
  }

  lemma FitsMore(s: State, done: seq<TokenSpec>, x: TokenSpec, now: int, decay: Decay)
    requires WellFormed(s) && Fits(s, done, now, decay)
    requires Known(s, x.caller) && SumFor(done, x.caller) + x.tokens <= Left(s, x.caller, now, decay)
    ensures Fits(s, done + [x], now, decay)
  {
  }

  lemma RefusedUncovered(s: State, done: seq<TokenSpec>, x: TokenSpec, rest: seq<TokenSpec>, now: int, decay: Decay)
    requires WellFormed(s) && NonNegative([x] + rest)
    requires Known(s, x.caller) ==> SumFor(done, x.caller) + x.tokens > Left(s, x.caller, now, decay)
    ensures !Covered(s, done, [x] + rest, now, decay)
  {
    assert x in [x] + rest;
    assert forall y :: y in rest ==> y in [x] + rest;
    SumConcat(done, [x] + rest, x.caller);
    SumConcat([x], rest, x.caller);
    SumNonNegative(rest, x.caller);
    assert [x][..0] == [];
  }

  /** k of the requests were granted, all of them exactly when together they
      fit; nothing but their callers' ticks and charges has changed. */
  ghost predicate Taken(s: State, t: State, k: nat, ticked: set<string>, done: seq<TokenSpec>, specs: seq<TokenSpec>,
                        now: int, decay: Decay)
    requires WellFormed(s)
  {
    && k <= |specs|
    && ChargedFor(s, t, ticked + KnownCallers(s, Upto(specs, k + 1)), done + specs[..k], now, decay)
    && (k == |specs| <==> Covered(s, done, specs, now, decay))
  }

  lemma TakenNone(s: State, u: State, ticked: set<string>, done: seq<TokenSpec>, now: int, decay: Decay)
    requires WellFormed(s) && ChargedFor(s, u, ticked, done, now, decay)
    ensures Taken(s, u, 0, ticked, done, [], now, decay)
  {
    var none: seq<TokenSpec> := [];
    assert ticked + KnownCallers(s, Upto(none, 1)) == ticked && done + none[..0] == done;
  }

  lemma TakenGranted(s: State, t: State, k: nat, ticked: set<string>, done: seq<TokenSpec>, x: TokenSpec,
                     rest: seq<TokenSpec>, now: int, decay: Decay)
    requires WellFormed(s) && Known(s, x.caller) && Fits(s, done + [x], now, decay)
    requires Taken(s, t, k, ticked + {x.caller}, done + [x], rest, now, decay)
    ensures Taken(s, t, k + 1, ticked, done, [x] + rest, now, decay)
  {
    CoveredHead(s, done, x, rest, now, decay);
    GrantedShape(s, ticked, done, x, rest, k);
    hide ChargedFor;
    hide Covered;
    hide KnownCallers;
    hide Upto;
  }

  lemma TakenRefused(s: State, t: State, ticked: set<string>, done: seq<TokenSpec>, x: TokenSpec,
                     rest: seq<TokenSpec>, now: int, decay: Decay)
    requires WellFormed(s) && NonNegative([x] + rest)
    requires Known(s, x.caller) ==> SumFor(done, x.caller) + x.tokens > Left(s, x.caller, now, decay)
    requires ChargedFor(s, t, if Known(s, x.caller) then ticked + {x.caller} else ticked, done, now, decay)
    ensures Taken(s, t, 0, ticked, done, [x] + rest, now, decay)
  {
    RefusedUncovered(s, done, x, rest, now, decay);
    RefusedShape(s, ticked, done, x, rest);
    hide ChargedFor;
    hide Covered;
    hide KnownCallers;
    hide Upto;
  }

  /** The requests stop at the first that does not fit. */
  lemma {:induction false} TakeEffect(s: State, u: State, ticked: set<string>, done: seq<TokenSpec>,
                                      specs: seq<TokenSpec>, now: int, decay: Decay)
    requires WellFormed(s) && ChargedFor(s, u, ticked, done, now, decay) && Fits(s, done, now, decay)
    requires NonNegative(specs) && WellFormed(u)
    ensures var (t, k) := TakeTokens(u, specs, now, decay);
      Taken(s, t, k, ticked, done, specs, now, decay)
    decreases |specs|
  {
    if specs == [] {
      TakenNone(s, u, ticked, done, now, decay);
    } else {
      var x, rest := specs[0], specs[1..];
      assert specs == [x] + rest && x in specs && forall y :: y in rest ==> y in specs;
      HeadRequest(s, u, ticked, done, x, now, decay);
      var (v, outcome) := Request(u, x.caller, x.tokens, false, 0, now, decay);
      KnownSame(s, u, ticked, done, x.caller, now, decay);
      if outcome == Granted {
        FitsMore(s, done, x, now, decay);
        KnownSame(s, v, ticked + {x.caller}, done + [x], x.caller, now, decay);
        hide *;
        TakeEffect(s, v, ticked + {x.caller}, done + [x], rest, now, decay);
        var (t, k) := TakeTokens(v, rest, now, decay);
        TakenGranted(s, t, k, ticked, done, x, rest, now, decay);
        TakeHead(u, v, specs, now, decay);
      } else {
        TakenRefused(s, v, ticked, done, x, rest, now, decay);
        hide *;
        TakeHead(u, v, specs, now, decay);
      }
    }
  }

  lemma TakeHead(u: State, v: State, specs: seq<TokenSpec>, now: int, decay: Decay)
    requires WellFormed(u) && specs != []
    requires v == Request(u, specs[0].caller, specs[0].tokens, false, 0, now, decay).0
    ensures WellFormed(v)
    ensures Request(u, specs[0].caller, specs[0].tokens, false, 0, now, decay).1.Granted? ==>
      TakeTokens(u, specs, now, decay) ==
      (TakeTokens(v, specs[1..], now, decay).0, TakeTokens(v, specs[1..], now, decay).1 + 1)
    ensures !Request(u, specs[0].caller, specs[0].tokens, false, 0, now, decay).1.Granted? ==>
      TakeTokens(u, specs, now, decay) == (v, 0)
  {
  }

  lemma GrantedShape(s: State, ticked: set<string>, done: seq<TokenSpec>, x: TokenSpec, rest: seq<TokenSpec>, k: nat)
    requires k <= |rest| && Known(s, x.caller)
    ensures done + ([x] + rest)[..k + 1] == (done + [x]) + rest[..k]
    ensures ticked + KnownCallers(s, Upto([x] + rest, k + 1 + 1)) ==
            ticked + {x.caller} + KnownCallers(s, Upto(rest, k + 1))
  {
    assert ([x] + rest)[..k + 1] == [x] + rest[..k];
    assert Upto([x] + rest, k + 1 + 1) == [x] + Upto(rest, k + 1);
    KnownHead(s, x, Upto(rest, k + 1));
  }

  lemma RefusedShape(s: State, ticked: set<string>, done: seq<TokenSpec>, x: TokenSpec, rest: seq<TokenSpec>)
    ensures done + ([x] + rest)[..0] == done
    ensures ticked + KnownCallers(s, Upto([x] + rest, 1)) == if Known(s, x.caller) then ticked + {x.caller} else ticked
  {
  }

  lemma KnownHead(s: State, x: TokenSpec, rest: seq<TokenSpec>)
    ensures KnownCallers(s, [x] + rest) == (if Known(s, x.caller) then {x.caller} else {}) + KnownCallers(s, rest)
  {
  }
}
