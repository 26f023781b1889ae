/** The rate alert of one caller as a value, and the effect of every operation.
    Times are integer nanoseconds. */
module AlertState {
  import opened Basics

  datatype Rule = Rule(windowSec: int, maxUnits: int, freezeTriggerN: int, enabled: bool)

  datatype Record = Record(at: int, units: int)

  datatype Option<T> = None | Some(value: T)

  /** What the statements of this model speak about and the source does not
      keep: everything recorded since the rule was set, and the time of the
      first alert still counted. */
  datatype Books = Books(history: seq<Record>, firstAlertAt: int)

  datatype State = State(rule: Option<Rule>, window: seq<Record>, alerts: int, lastAlertAt: int, frozen: bool,
                         books: Books)

  const EMPTY := State(None, [], 0, 0, false, Books([], 0))

  function Width(r: Rule): int
  {
    r.windowSec * SECOND
  }

  /** The span in which further alerts are suppressed. */
  function Suppression(r: Rule): int
  {
    r.windowSec * SECOND / 2
  }

  /** Index of the first record at or after cutoff; |w| when there is none. */
  function FirstValid(w: seq<Record>, cutoff: int): (r: nat)
    ensures r <= |w|
    ensures forall i :: 0 <= i < r ==> w[i].at < cutoff
    ensures r < |w| ==> w[r].at >= cutoff
  {
    if w == [] then 0 else if w[0].at >= cutoff then 0 else 1 + FirstValid(w[1..], cutoff)
  }

  /** The records before the first valid one dropped. */
  function Prune(w: seq<Record>, cutoff: int): seq<Record>
  {
    w[FirstValid(w, cutoff)..]
  }

  /** The true sliding window: all records at or after cutoff. */
  function Since(h: seq<Record>, cutoff: int): seq<Record>
  {
    if h == [] then []
    else if h[0].at >= cutoff then [h[0]] + Since(h[1..], cutoff)
    else Since(h[1..], cutoff)
  }

  function Total(w: seq<Record>): int
  {
    if w == [] then 0 else Total(w[..|w| - 1]) + w[|w| - 1].units
  }

  predicate Recording(s: State, units: int)
  {
    units > 0 && s.rule.Some? && s.rule.value.enabled && !s.frozen
  }

  /** triggerAlertLocked with triggerFreezeLocked. */
  function Alert(s: State, at: int): State
    requires s.rule.Some?
  {
    var n := s.alerts + 1;
    s.(alerts := n, lastAlertAt := at, frozen := s.frozen || n >= s.rule.value.freezeTriggerN,
       books := s.books.(firstAlertAt := if s.alerts == 0 then at else s.books.firstAlertAt))
  }

  /** The window and the books with one more record. */
  function Noted(s: State, units: int, at: int): State
    requires s.rule.Some?
  {
    s.(window := Prune(s.window + [Record(at, units)], at - Width(s.rule.value)),
       books := s.books.(history := s.books.history + [Record(at, units)]))
  }

  /** RecordConsumption */
  function RecordConsumption(s: State, units: int, at: int): State
  {
    if !Recording(s, units) then s
    else
      var t := Noted(s, units, at);
      if Total(t.window) >= s.rule.value.maxUnits && at - s.lastAlertAt >= Suppression(s.rule.value)
      then Alert(t, at) else t
  }

  /** cleanupExpiredRecords */
  function Cleanup(s: State, now: int): State
  {
    if s.rule.None? then s else s.(window := Prune(s.window, now - Width(s.rule.value)))
  }

  /** SetRule: everything but a freeze starts afresh. */
  function SetRule(s: State, r: Rule, now: int): State
  {
    if r.windowSec <= 0 || r.maxUnits <= 0 then s
    else
      State(Some(if r.freezeTriggerN <= 0 then r.(freezeTriggerN := 3) else r), [], 0,
            now - 2 * Width(r), s.frozen, Books([], 0))
  }

  function DeleteRule(s: State): State
  {
    s.(rule := None)
  }

  function Unfreeze(s: State): State
  {
    if !s.frozen then s else s.(frozen := false, alerts := 0)
  }

  datatype Op =
    | DoRecord(units: int, now: int)
    | DoCleanup(now: int)
    | DoSetRule(r: Rule, now: int)
    | DoDeleteRule(now: int)
    | DoUnfreeze(now: int)

  function Step(s: State, op: Op): State
  {
    match op
    case DoRecord(units, now) => RecordConsumption(s, units, now)
    case DoCleanup(now) => Cleanup(s, now)
    case DoSetRule(r, now) => SetRule(s, r, now)
    case DoDeleteRule(_) => DeleteRule(s)
    case DoUnfreeze(_) => Unfreeze(s)
  }

  /** The clock does not go back. */
  predicate Monotone(ops: seq<Op>, clock: int)
    decreases |ops|
  {
    ops == [] || (clock <= ops[0].now && Monotone(ops[1..], ops[0].now))
  }

  function LastTime(ops: seq<Op>, clock: int): int
    decreases |ops|
  {
    if ops == [] then clock else LastTime(ops[1..], ops[0].now)
  }

  function Run(s: State, ops: seq<Op>): State
    decreases |ops|
  {
    if ops == [] then s else Run(Step(s, ops[0]), ops[1..])
  }
}
