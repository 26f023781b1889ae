/** The rate alert of a caller as the source writes it: an object whose window
    is appended to and resliced, and whose counters change in place.  The books
    are ghost. */
module RateAlert {
  import opened Basics
  import opened AlertState

  /** The records of w before the first one at or after cutoff are gone. */
  predicate StalePrefixGone(w: seq<Record>, rest: seq<Record>, cutoff: int)
  {
    var gone := |w| - |rest|;
    && 0 <= gone && rest == w[gone..]
    && (forall i :: 0 <= i < gone ==> w[i].at < cutoff)
    && (gone < |w| ==> w[gone].at >= cutoff)
  }

  class CallerAlert {
    var rule: Option<Rule>
    var consumptionWindow: seq<Record>
    var consecutiveAlerts: int
    var lastAlertAt: int
    var frozen: bool
    ghost var books: Books

    ghost function S(): State
      reads this
    {
      State(rule, consumptionWindow, consecutiveAlerts, lastAlertAt, frozen, books)
    }

    constructor ()
      ensures S() == EMPTY
    {
      rule, consumptionWindow, consecutiveAlerts, lastAlertAt, frozen := None, [], 0, 0, false;
      books := Books([], 0);
    }

    method SetRule(r: Rule, now: int) returns (ok: bool)
      modifies this
      ensures S() == AlertState.SetRule(old(S()), r, now)
      ensures ok <==> r.windowSec > 0 && r.maxUnits > 0
      ensures !ok ==> S() == old(S())
      ensures ok ==> rule == Some(r.(freezeTriggerN := if r.freezeTriggerN > 0 then r.freezeTriggerN else 3))
      ensures ok ==> consumptionWindow == [] && consecutiveAlerts == 0 && frozen == old(frozen)
      ensures ok ==> lastAlertAt == now - 2 * r.windowSec * SECOND
    {
      if r.windowSec <= 0 {
        return false;
      }
      if r.maxUnits <= 0 {
        return false;
      }
      var n := r.freezeTriggerN;
      if n <= 0 {
        n := 3;
      }
      rule := Some(r.(freezeTriggerN := n));
      consumptionWindow := [];
      consecutiveAlerts := 0;
      lastAlertAt := now - 2 * Width(r);
      books := Books([], 0);
      return true;
    }

    method DeleteRule() returns (ok: bool)
      modifies this`rule
      ensures S() == AlertState.DeleteRule(old(S())) && ok == old(rule).Some? && rule.None?
    {
      ok := rule.Some?;
      rule := None;
    }

    /** RecordConsumption; alerted tells whether an alert was counted. */
    method RecordConsumption(units: int, at: int) returns (alerted: bool)
      modifies this
      ensures S() == AlertState.RecordConsumption(old(S()), units, at)
      ensures alerted <==> consecutiveAlerts == old(consecutiveAlerts) + 1
      ensures alerted ==> lastAlertAt == at && (frozen <==> consecutiveAlerts >= rule.value.freezeTriggerN)
      ensures !alerted ==> lastAlertAt == old(lastAlertAt) && frozen == old(frozen)
      ensures rule == old(rule)
    {
      if units <= 0 {
        return false;
      }
      if rule.None? || !rule.value.enabled {
        return false;
      }
      if frozen {
        return false;
      }
      AppendAndPrune(units, at);
      var totalUnits := TotalUnits(consumptionWindow);
      hide Noted;
      hide Total;
      if totalUnits >= rule.value.maxUnits {
        if at - lastAlertAt >= Suppression(rule.value) {
          TriggerAlert(at);
          return true;
        }
      }
      return false;
    }

    method AppendAndPrune(units: int, at: int)
      requires rule.Some?
      modifies this
      ensures S() == Noted(old(S()), units, at)
      ensures rule == old(rule) && consecutiveAlerts == old(consecutiveAlerts) && lastAlertAt == old(lastAlertAt)
      ensures frozen == old(frozen) && books.firstAlertAt == old(books).firstAlertAt
    {
      consumptionWindow := consumptionWindow + [Record(at, units)];
      var validIdx := ValidIndex(consumptionWindow, at - Width(rule.value));
      if validIdx > 0 {
        consumptionWindow := consumptionWindow[validIdx..];
      }
      books := books.(history := books.history + [Record(at, units)]);
    }

    method TriggerAlert(at: int)
      requires rule.Some?
      modifies this
      ensures S() == Alert(old(S()), at)
    {
      books := books.(firstAlertAt := if consecutiveAlerts == 0 then at else books.firstAlertAt);
      consecutiveAlerts := consecutiveAlerts + 1;
      lastAlertAt := at;
      if consecutiveAlerts >= rule.value.freezeTriggerN {
        if !frozen {
          frozen := true;
        }
      }
    }

    method CleanupExpiredRecords(now: int)
      modifies this
      ensures S() == Cleanup(old(S()), now)
      ensures S() == old(S()).(window := consumptionWindow)
      ensures rule.None? ==> consumptionWindow == old(consumptionWindow)
      ensures rule.Some? ==>
        StalePrefixGone(old(consumptionWindow), consumptionWindow, now - rule.value.windowSec * SECOND)
    {
      if rule.None? {
        return;
      }
      var validIdx := ValidIndex(consumptionWindow, now - Width(rule.value));
      ghost var w := consumptionWindow;
      if validIdx > 0 {
        consumptionWindow := consumptionWindow[validIdx..];
      }
      assert consumptionWindow == w[validIdx..] && |w| - |consumptionWindow| == validIdx;
      hide FirstValid;
    }

    method Unfreeze(operator: string) returns (ok: bool)
      modifies this
      ensures ok <==> operator != "" && old(frozen)
      ensures S() == if ok then AlertState.Unfreeze(old(S())) else old(S())
      ensures ok ==> !frozen && consecutiveAlerts == 0 && rule == old(rule) && lastAlertAt == old(lastAlertAt)
      ensures consumptionWindow == old(consumptionWindow)
    {
      if operator == "" {
        return false;
      }
      if !frozen {
        return false;
      }
      frozen := false;
      consecutiveAlerts := 0;
      return true;
    }
  }

  method TotalUnits(window: seq<Record>) returns (total: int)
    ensures total == Total(window)
  {
    total := 0;
    var i := 0;
    while i < |window|
      invariant 0 <= i <= |window|
      invariant total == Total(window[..i])
    {
      assert window[..i + 1][..i] == window[..i];
      total := total + window[i].units;
      i := i + 1;
    }
    assert window[..|window|] == window;
  }

  /** The index loop of the pruning: zero while undecided, the first valid index
      once found, the length when the last record is stale as well. */
  method ValidIndex(window: seq<Record>, cutoff: int) returns (validIdx: nat)
    ensures validIdx == FirstValid(window, cutoff)
  {
    validIdx := 0;
    var i := 0;
    while i < |window|
      invariant 0 <= i <= |window|
      invariant forall k :: 0 <= k < i ==> window[k].at < cutoff
      invariant validIdx == if i == |window| then |window| else 0
    {
      if window[i].at >= cutoff {
        validIdx := i;
        break;
      }
      if i == |window| - 1 {
        validIdx := |window|;
      }
      i := i + 1;
    }
  }
}
