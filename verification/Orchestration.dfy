/** Orchestration transactions: locks, then tokens, all or nothing.  The
    transaction is one step here: nothing else runs in between and the clock
    stands still. */
module Orchestration {
  import L = LockState
  import LockManager
  import opened TxLocks
  import R = RateState
  import RateInvariant
  import RateLimiter
  import opened TxTokens

  datatype Tables = Tables(locks: L.State, rates: R.State)

  /** CreateTx on sorted lock specs: the tables afterwards, and whether the
      transaction committed. */
  ghost function Create(s: Tables, lockSpecs: seq<LockSpec>, tokenSpecs: seq<TokenSpec>, holder: string, now: int,
                        decay: R.Decay, allowed: L.Allowed): (Tables, bool)
    requires R.WellFormed(s.rates)
  {
    var (l, k) := TakeLocks(s.locks, lockSpecs, holder, now);
    var names := Names(lockSpecs[..k]);
    if k < |lockSpecs| then (Tables(UndoLocks(l, names, holder, now, allowed), s.rates), false)
    else
      var (r, j) := TakeTokens(s.rates, tokenSpecs, now, decay);
      if j < |tokenSpecs|
      then (Tables(UndoLocks(l, names, holder, now, allowed), ReturnAll(r, tokenSpecs[..j], now, decay)), false)
      else (Tables(l, r), true)
  }

  /** The callers whose bindings a transaction brings up to date. */
  ghost function Asked(s: Tables, lockSpecs: seq<LockSpec>, tokenSpecs: seq<TokenSpec>, holder: string, now: int,
                       decay: R.Decay): set<string>
    requires R.WellFormed(s.rates)
  {
    if TakeLocks(s.locks, lockSpecs, holder, now).1 < |lockSpecs| then {}
    else KnownCallers(s.rates, Upto(tokenSpecs, TakeTokens(s.rates, tokenSpecs, now, decay).1 + 1))
  }

  lemma NothingCharged(s: R.State, now: int, decay: R.Decay)
    requires R.WellFormed(s)
    ensures ChargedFor(s, s, {}, [], now, decay)
  {
  }

  lemma NothingFits(s: R.State, now: int, decay: R.Decay, clock: int)
    requires RateInvariant.Ok(s, clock)
    ensures Fits(s, [], now, decay)
  {
    forall c | R.Known(s, c)
      ensures SumFor([], c) <= Left(s, c, now, decay)
    {
      var b := s.bindings[c];
      assert RateInvariant.BindingOk(s, b);
      RateInvariant.TickLowers(b, s.policies[b.policy], R.EffectiveLimit(s, b), now, decay);
    }
  }

  lemma LockPhase(s: L.State, specs: seq<LockSpec>, holder: string, now: int)
    requires L.Inv(s)
    ensures var (t, k) := TakeLocks(s, specs, holder, now); LocksTaken(s, t, k, [], specs, holder)
  {
    HoldingNone(s, holder);
    TakeLocksEffect(s, s, [], specs, holder, now);
  }

  lemma TokenPhase(s: R.State, specs: seq<TokenSpec>, now: int, decay: R.Decay, clock: int)
    requires RateInvariant.Ok(s, clock) && NonNegative(specs)
    ensures var (t, k) := TakeTokens(s, specs, now, decay); Taken(s, t, k, {}, [], specs, now, decay)
  {
    NothingCharged(s, now, decay);
    NothingFits(s, now, decay, clock);
    TakeEffect(s, s, {}, [], specs, now, decay);
  }

  /** Held locks, leases and timers as before, queues without the holder's own
      entries, and no token charged. */
  ghost predicate RolledBack(s: Tables, t: Tables, ticked: set<string>, holder: string, now: int, decay: R.Decay)
    requires R.WellFormed(s.rates)
  {
    OnlyOwnWaitsGone(s.locks, t.locks, holder) && ChargedFor(s.rates, t.rates, ticked, [], now, decay)
  }

  /** Every lock held by the holder and every token charged; nothing else. */
  ghost predicate Committed(s: Tables, t: Tables, lockSpecs: seq<LockSpec>, tokenSpecs: seq<TokenSpec>, holder: string,
                            now: int, decay: R.Decay)
    requires R.WellFormed(s.rates)
  {
    && Holding(s.locks, t.locks, Names(lockSpecs), holder)
    && ChargedFor(s.rates, t.rates, KnownCallers(s.rates, tokenSpecs), tokenSpecs, now, decay)
  }

  /** A transaction commits exactly when all its locks are grantable and its
      token requests together fit what their callers have left; then it holds
      every lock and has charged every token.  Otherwise it leaves no trace but
      the algorithm ticks and the holder's own wait entries gone. */
  lemma AllOrNothing(s: Tables, lockSpecs: seq<LockSpec>, tokenSpecs: seq<TokenSpec>, holder: string, now: int,
                     decay: R.Decay, allowed: L.Allowed, clock: int)
    requires L.Inv(s.locks) && RateInvariant.Ok(s.rates, clock) && NonNegative(tokenSpecs)
    ensures var (t, committed) := Create(s, lockSpecs, tokenSpecs, holder, now, decay, allowed);
      && (committed <==>
          AllGrantable(s.locks, [], lockSpecs) && Covered(s.rates, [], tokenSpecs, now, decay))
      && (committed ==> Committed(s, t, lockSpecs, tokenSpecs, holder, now, decay))
      && (!committed ==> RolledBack(s, t, Asked(s, lockSpecs, tokenSpecs, holder, now, decay), holder, now, decay))
  {
    LockPhase(s.locks, lockSpecs, holder, now);
    TokenPhase(s.rates, tokenSpecs, now, decay, clock);
    var (l, k) := TakeLocks(s.locks, lockSpecs, holder, now);
    var (r, j) := TakeTokens(s.rates, tokenSpecs, now, decay);
    LocksUndone(s.locks, l, k, lockSpecs, holder, now, allowed);
    TokensUndone(s.rates, r, j, tokenSpecs, now, decay, clock);
    NothingCharged(s.rates, now, decay);
    LocksKept(s.locks, l, k, lockSpecs, holder);
    TokensKept(s.rates, r, j, tokenSpecs, now, decay);
    hide LocksTaken;
    hide Taken;
    hide ChargedFor;
    hide OnlyOwnWaitsGone;
    hide Holding;
    hide AllGrantable;
    hide Covered;
    hide TakeLocks;
    hide TakeTokens;
    hide ReturnAll;
    hide UndoLocks;
  }

  lemma LocksUndone(s: L.State, t: L.State, k: nat, specs: seq<LockSpec>, holder: string, now: int, allowed: L.Allowed)
    requires L.Inv(s) && LocksTaken(s, t, k, [], specs, holder)
    ensures k <= |specs| && OnlyOwnWaitsGone(s, UndoLocks(t, Names(specs[..k]), holder, now, allowed), holder)
  {
    assert [] + Names(specs[..k]) == Names(specs[..k]);
    UndoRestores(s, t, Names(specs[..k]), holder, now, allowed);
  }

  lemma LocksKept(s: L.State, t: L.State, k: nat, specs: seq<LockSpec>, holder: string)
    requires LocksTaken(s, t, k, [], specs, holder)
    ensures k <= |specs|
    ensures k == |specs| <==> AllGrantable(s, [], specs)
    ensures k == |specs| ==> Holding(s, t, Names(specs), holder)
  {
    assert [] + Names(specs) == Names(specs);
  }

  lemma TokensUndone(s: R.State, t: R.State, k: nat, specs: seq<TokenSpec>, now: int, decay: R.Decay, clock: int)
    requires RateInvariant.Ok(s, clock) && NonNegative(specs) && Taken(s, t, k, {}, [], specs, now, decay)
    requires R.WellFormed(t)
    ensures k <= |specs|
    ensures ChargedFor(s, ReturnAll(t, specs[..k], now, decay), KnownCallers(s, Upto(specs, k + 1)), [], now, decay)
  {
    var asked := KnownCallers(s, Upto(specs, k + 1));
    assert {} + asked == asked && [] + specs[..k] == specs[..k];
    assert forall x :: x in specs[..k] ==> x in specs;
    ReturnsUndo(s, t, asked, specs[..k], now, decay, clock);
  }

  lemma TokensKept(s: R.State, t: R.State, k: nat, specs: seq<TokenSpec>, now: int, decay: R.Decay)
    requires R.WellFormed(s) && Taken(s, t, k, {}, [], specs, now, decay)
    ensures k <= |specs|
    ensures k == |specs| <==> Covered(s, [], specs, now, decay)
    ensures k == |specs| ==> ChargedFor(s, t, KnownCallers(s, specs), specs, now, decay)
  {
    var asked := KnownCallers(s, Upto(specs, k + 1));
    assert {} + asked == asked;
    assert specs[..|specs|] == specs && [] + specs == specs;
  }

  // ------------------------------------------------------- the source's form

  class Orchestrator {
    const lockMgr: LockManager.LockManager
    const rlMgr: RateLimiter.RateLimiter

    ghost function S(): Tables
      reads lockMgr, rlMgr
    {
      Tables(lockMgr.S(), rlMgr.S())
    }

    constructor (lockMgr: LockManager.LockManager, rlMgr: RateLimiter.RateLimiter)
      ensures this.lockMgr == lockMgr && this.rlMgr == rlMgr
    {
      this.lockMgr, this.rlMgr := lockMgr, rlMgr;
    }

    method CreateTx(holder: string, lockSpecs: seq<LockSpec>, tokenSpecs: seq<TokenSpec>, now: int, allowed: L.Allowed)
      returns (committed: bool)
      requires R.WellFormed(rlMgr.S())
      modifies lockMgr, rlMgr
      ensures (S(), committed) == Create(old(S()), lockSpecs, tokenSpecs, holder, now, rlMgr.decay, allowed)
    {
      hide L.Acquire;
      hide L.AcquireOutcome;
      hide R.Request;
      hide R.Return;
      hide L.ReleaseAll;
      var acquired := AcquireAll(lockSpecs, holder, now);
      var names := NamesOf(lockSpecs[..acquired]);
      if acquired < |lockSpecs| {
        UndoAll(names, holder, now, allowed);
        return false;
      }
      var granted := RequestAll(tokenSpecs, now);
      if granted < |tokenSpecs| {
        ReturnGranted(tokenSpecs[..granted], now);
        UndoAll(names, holder, now, allowed);
        return false;
      }
      return true;
    }

    method NamesOf(specs: seq<LockSpec>) returns (names: seq<string>)
      ensures names == Names(specs)
    {
      names := [];
      var i := 0;
      while i < |specs|
        invariant 0 <= i <= |specs|
        invariant names == Names(specs[..i])
      {
        assert specs[..i + 1][..i] == specs[..i];
        names := names + [specs[i].lockName];
        i := i + 1;
      }
      assert specs[..|specs|] == specs;
    }

    method AcquireAll(specs: seq<LockSpec>, holder: string, now: int) returns (acquired: nat)
      modifies lockMgr
      ensures (lockMgr.S(), acquired) == TakeLocks(old(lockMgr.S()), specs, holder, now)
    {
      hide L.Acquire;
      hide L.AcquireOutcome;
      acquired := 0;
      assert specs[0..] == specs;
      while acquired < |specs|
        invariant 0 <= acquired <= |specs|
        invariant TakeLocks(old(lockMgr.S()), specs, holder, now) ==
          (TakeLocks(lockMgr.S(), specs[acquired..], holder, now).0,
           TakeLocks(lockMgr.S(), specs[acquired..], holder, now).1 + acquired)
      {
        assert specs[acquired..][1..] == specs[acquired + 1..];
        var outcome, _ := lockMgr.AcquireLock(RequestOf(specs[acquired], holder, now));
        if outcome != L.Acquired {
          return;
        }
        acquired := acquired + 1;
      }
    }

    method RequestAll(specs: seq<TokenSpec>, now: int) returns (granted: nat)
      requires R.WellFormed(rlMgr.S())
      modifies rlMgr
      ensures R.WellFormed(rlMgr.S())
      ensures (rlMgr.S(), granted) == TakeTokens(old(rlMgr.S()), specs, now, rlMgr.decay)
    {
      hide R.Request;
      granted := 0;
      assert specs[0..] == specs;
      while granted < |specs|
        invariant 0 <= granted <= |specs| && R.WellFormed(rlMgr.S())
        invariant TakeTokens(old(rlMgr.S()), specs, now, rlMgr.decay) ==
          (TakeTokens(rlMgr.S(), specs[granted..], now, rlMgr.decay).0,
           TakeTokens(rlMgr.S(), specs[granted..], now, rlMgr.decay).1 + granted)
      {
        assert specs[granted..][1..] == specs[granted + 1..];
        RequestWellFormed(rlMgr.S(), specs[granted], now, rlMgr.decay);
        var outcome := rlMgr.RequestTokens(specs[granted].caller, specs[granted].tokens, false, 0, now);
        if outcome != R.Granted {
          return;
        }
        granted := granted + 1;
      }
    }

    /** The granted tokens given back, last one first. */
    method ReturnGranted(specs: seq<TokenSpec>, now: int)
      requires R.WellFormed(rlMgr.S())
      modifies rlMgr
      ensures rlMgr.S() == ReturnAll(old(rlMgr.S()), specs, now, rlMgr.decay)
    {
      hide R.Return;
      var i := |specs|;
      assert specs[..i] == specs;
      while i > 0
        invariant 0 <= i <= |specs| && R.WellFormed(rlMgr.S())
        invariant ReturnAll(rlMgr.S(), specs[..i], now, rlMgr.decay) ==
          ReturnAll(old(rlMgr.S()), specs, now, rlMgr.decay)
      {
        assert specs[..i][..i - 1] == specs[..i - 1];
        i := i - 1;
        ReturnWellFormed(rlMgr.S(), specs[i], now, rlMgr.decay);
        var _ := rlMgr.ReturnTokens(specs[i].caller, specs[i].tokens, now);
      }
    }

    /** The acquired locks released, last one first, and the waits cancelled. */
    method UndoAll(names: seq<string>, holder: string, now: int, allowed: L.Allowed)
      modifies lockMgr
      ensures lockMgr.S() == UndoLocks(old(lockMgr.S()), names, holder, now, allowed)
    {
      hide L.Release;
      var i := |names|;
      assert names[..i] == names;
      while i > 0
        invariant 0 <= i <= |names|
        invariant L.ReleaseAll(lockMgr.S(), names[..i], holder, now, allowed) ==
          L.ReleaseAll(old(lockMgr.S()), names, holder, now, allowed)
      {
        assert names[..i][..i - 1] == names[..i - 1];
        i := i - 1;
        var _ := lockMgr.ReleaseLock(names[i], holder, now, allowed);
      }
      var _ := lockMgr.CancelWaitForHolder(holder);
    }
  }

  lemma RequestWellFormed(s: R.State, x: TokenSpec, now: int, decay: R.Decay)
    requires R.WellFormed(s)
    ensures R.WellFormed(R.Request(s, x.caller, x.tokens, false, 0, now, decay).0)
  {
  }

  lemma ReturnWellFormed(s: R.State, x: TokenSpec, now: int, decay: R.Decay)
    requires R.WellFormed(s)
    ensures R.WellFormed(R.Return(s, x.caller, x.tokens, now, decay))
  {
  }
}
