/** The escalation ladder with its per-action cooldown and sliding action budget. */
module Policy {
  import opened RiskTypes

  datatype PolicyResult = PolicyResult(
    requested: DecisionAction,
    emitted: DecisionAction,
    enforcementApplied: bool,
    reason: string,
    budgetExhausted: bool)

  /** The policy's memory: times still counted against the budget, oldest first,
      and the last time each action was applied. */
  datatype PolicyState = PolicyState(applied: seq<int>, lastByAction: map<DecisionAction, int>)

  const Fresh := PolicyState([], map[])

  function Requested(settings: RiskSettings, level: RiskLevel, highCount: nat): DecisionAction {
    match level
    case Low => Continue
    case Medium => SoftChallenge
    case High => if highCount >= settings.breachN then Terminate else Reauth
    case Unavailable => NoAction
  }

  // Drops the leading times that have left the window.
  function Pruned(times: seq<int>, windowStart: int): seq<int> {
    if times != [] && times[0] <= windowStart then Pruned(times[1..], windowStart) else times
  }

  function Decide(
    settings: RiskSettings, s: PolicyState, level: RiskLevel, highCount: nat, t: int, enabled: bool)
    : (PolicyState, PolicyResult)
  {
    var requested := Requested(settings, level, highCount);
    if !enabled || requested in {Continue, NoAction} then
      (s, PolicyResult(requested, requested, false,
                       if !enabled then "SHADOW_OR_NON_ENFORCING" else "RISK_LOW", false))
    else
      var kept := Pruned(s.applied, t - settings.cooldownUs);
      if requested in s.lastByAction && t - s.lastByAction[requested] < settings.cooldownUs then
        (s.(applied := kept), PolicyResult(requested, NoAction, false, "ACTION_COOLDOWN", false))
      else if |kept| >= settings.actionBudget then
        (s.(applied := kept), PolicyResult(requested, NoAction, false, "ACTION_BUDGET", true))
      else
        (PolicyState(kept + [t], s.lastByAction[requested := t]),
         PolicyResult(requested, requested, true, "RISK_ESCALATION", false))
  }

  /** What an applied action says of the call: it was enabled, the action asked for is the
      one taken, and TERMINATE stands on a full history of high scores. */
  lemma AppliedMeans(settings: RiskSettings, s: PolicyState, level: RiskLevel, highCount: nat, t: int, enabled: bool)
    requires Decide(settings, s, level, highCount, t, enabled).1.enforcementApplied
    ensures var result := Decide(settings, s, level, highCount, t, enabled).1;
            && enabled && result.emitted == result.requested
            && result.emitted in {SoftChallenge, Reauth, Terminate}
            && (result.emitted == Terminate ==> highCount >= settings.breachN)
  {
  }

  class DecisionPolicy {
    const settings: RiskSettings
    var lastByAction: map<DecisionAction, int>
    var appliedTimes: seq<int>

    function View(): PolicyState
      reads this
    {
      PolicyState(appliedTimes, lastByAction)
    }

    constructor (settings: RiskSettings)
      ensures this.settings == settings && View() == Fresh
    {
      this.settings := settings;
      lastByAction := map[];
      appliedTimes := [];
    }

    method DecideAction(level: RiskLevel, highCount: nat, t: int, enabled: bool)
      returns (result: PolicyResult)
      modifies this
      ensures (View(), result) == Decide(settings, old(View()), level, highCount, t, enabled)
    {
      var requested := Requested(settings, level, highCount);
      if !enabled || requested in {Continue, NoAction} {
        return PolicyResult(requested, requested, false,
                            if !enabled then "SHADOW_OR_NON_ENFORCING" else "RISK_LOW", false);
      }
      var windowStart := t - settings.cooldownUs;
      while appliedTimes != [] && appliedTimes[0] <= windowStart
        invariant Pruned(appliedTimes, windowStart) == Pruned(old(appliedTimes), windowStart)
        invariant lastByAction == old(lastByAction)
        decreases |appliedTimes|
      {
        appliedTimes := appliedTimes[1..];
      }
      if requested in lastByAction && t - lastByAction[requested] < settings.cooldownUs {
        return PolicyResult(requested, NoAction, false, "ACTION_COOLDOWN", false);
      }
      if |appliedTimes| >= settings.actionBudget {
        return PolicyResult(requested, NoAction, false, "ACTION_BUDGET", true);
      }
      lastByAction := lastByAction[requested := t];
      appliedTimes := appliedTimes + [t];
      return PolicyResult(requested, requested, true, "RISK_ESCALATION", false);
    }
  }

  // ---------------------------------------------------------------------
  // Whole runs, told by the log of applied actions
  // ---------------------------------------------------------------------

  datatype Applied = Applied(action: DecisionAction, t: int)

  datatype Call = Call(level: RiskLevel, highCount: nat, t: int, enabled: bool)

  // What one call adds to the log.
  function Logged(result: PolicyResult, t: int): seq<Applied> {
    if result.enforcementApplied then [Applied(result.emitted, t)] else []
  }

  function Run(settings: RiskSettings, calls: seq<Call>): (PolicyState, seq<Applied>)
    decreases |calls|
  {
    if calls == [] then (Fresh, [])
    else
      var (s, log) := Run(settings, calls[..|calls| - 1]);
      var c := calls[|calls| - 1];
      var (s', result) := Decide(settings, s, c.level, c.highCount, c.t, c.enabled);
      (s', log + Logged(result, c.t))
  }

  ghost predicate InOrder(calls: seq<Call>) {
    forall i, j :: 0 <= i < j < |calls| ==> calls[i].t <= calls[j].t
  }

  ghost predicate Ordered(log: seq<Applied>) {
    forall i, j :: 0 <= i < j < |log| ==> log[i].t <= log[j].t
  }

  ghost predicate Enforcing(log: seq<Applied>) {
    forall i :: 0 <= i < |log| ==> log[i].action in {SoftChallenge, Reauth, Terminate}
  }

  ghost predicate Before(log: seq<Applied>, now: int) {
    forall i :: 0 <= i < |log| ==> log[i].t <= now
  }

  // `times` is the tail of the log.
  ghost predicate IsTail(times: seq<int>, log: seq<Applied>) {
    && |times| <= |log|
    && forall i :: |log| - |times| <= i < |log| ==> log[i].t == times[i - (|log| - |times|)]
  }

  // Everything but the last `kept` entries happened at or before `start`.
  ghost predicate DroppedBy(log: seq<Applied>, kept: nat, start: int) {
    forall i :: 0 <= i < |log| - kept ==> log[i].t <= start
  }

  ghost predicate LastKnown(last: map<DecisionAction, int>, log: seq<Applied>) {
    forall i :: 0 <= i < |log| ==> log[i].action in last && log[i].t <= last[log[i].action]
  }

  /** The policy's memory digests the log up to time `now`: the deque is the log's tail,
      whatever it has lost has left every later window, and the map dominates every
      logged occurrence of its action. */
  ghost predicate Digest(settings: RiskSettings, s: PolicyState, log: seq<Applied>, now: int) {
    && Ordered(log) && Enforcing(log) && Before(log, now)
    && IsTail(s.applied, log)
    && DroppedBy(log, |s.applied|, now - settings.cooldownUs)
    && LastKnown(s.lastByAction, log)
  }

  /** Two applications of one action are a cooldown apart. */
  ghost predicate Spaced(settings: RiskSettings, log: seq<Applied>) {
    forall i, j :: 0 <= i < j < |log| && log[i].action == log[j].action ==> log[j].t - log[i].t >= settings.cooldownUs
  }

  /** Log entries that fit in one window fit in the budget. */
  ghost predicate Budgeted(settings: RiskSettings, log: seq<Applied>) {
    forall i, j :: 0 <= i <= j < |log| && log[j].t - log[i].t < settings.cooldownUs ==> j - i + 1 <= settings.actionBudget
  }

  lemma PruneDropsExactlyTheExpired(times: seq<int>, windowStart: int)
    requires forall i, j :: 0 <= i < j < |times| ==> times[i] <= times[j]
    ensures var kept := Pruned(times, windowStart);
            && |kept| <= |times| && kept == times[|times| - |kept|..]
            && (forall i :: 0 <= i < |times| - |kept| ==> times[i] <= windowStart)
            && (forall i :: |times| - |kept| <= i < |times| ==> times[i] > windowStart)
  {
    if times != [] && times[0] <= windowStart {
      PruneDropsExactlyTheExpired(times[1..], windowStart);
    }
  }

  /** After pruning at `t` the deque is exactly the part of the log inside (t - cooldown, t]. */
  lemma PrunedDequeIsTheWindow(settings: RiskSettings, s: PolicyState, log: seq<Applied>, now: int, t: int)
    requires Digest(settings, s, log, now) && now <= t
    ensures var kept := Pruned(s.applied, t - settings.cooldownUs);
            && IsTail(kept, log) && DroppedBy(log, |kept|, t - settings.cooldownUs)
            && forall i :: |log| - |kept| <= i < |log| ==> log[i].t > t - settings.cooldownUs
  {
    var start := t - settings.cooldownUs;
    var offset := |log| - |s.applied|;
    TailIsOrdered(s.applied, log);
    PruneDropsExactlyTheExpired(s.applied, start);
    var kept := Pruned(s.applied, start);
    forall i | offset <= i < |log|
      ensures i < |log| - |kept| ==> log[i].t <= start
      ensures i >= |log| - |kept| ==> log[i].t > start && log[i].t == kept[i - (|log| - |kept|)]
    {
      assert log[i].t == s.applied[i - offset];
    }
  }

  lemma TailIsOrdered(times: seq<int>, log: seq<Applied>)
    requires IsTail(times, log) && Ordered(log)
    ensures forall i, j :: 0 <= i < j < |times| ==> times[i] <= times[j]
  {
    var offset := |log| - |times|;
    forall i, j | 0 <= i < j < |times| ensures times[i] <= times[j] {
      assert log[offset + i].t == times[i] && log[offset + j].t == times[j];
    }
  }

  /** Each call keeps the digest, the spacing and the budget, whatever it decides. */
  lemma DecideKeepsDigest(
    settings: RiskSettings, s: PolicyState, log: seq<Applied>, now: int,
    level: RiskLevel, highCount: nat, t: int, enabled: bool)
    requires settings.Valid() && Digest(settings, s, log, now) && now <= t
    requires Spaced(settings, log) && Budgeted(settings, log)
    ensures var (s', result) := Decide(settings, s, level, highCount, t, enabled);
            var log' := log + Logged(result, t);
            Digest(settings, s', log', t) && Spaced(settings, log') && Budgeted(settings, log')
  {
    var (s', result) := Decide(settings, s, level, highCount, t, enabled);
    var requested := Requested(settings, level, highCount);
    if result.enforcementApplied {
      ApplyKeepsDigest(settings, s, log, now, requested, t);
    } else {
      assert log + Logged(result, t) == log;
      PrunedDequeIsTheWindow(settings, s, log, now, t);
    }
  }

  lemma ApplyKeepsDigest(
    settings: RiskSettings, s: PolicyState, log: seq<Applied>, now: int, action: DecisionAction, t: int)
    requires settings.Valid() && Digest(settings, s, log, now) && now <= t
    requires Spaced(settings, log) && Budgeted(settings, log)
    requires action in {SoftChallenge, Reauth, Terminate}
    requires action in s.lastByAction ==> t - s.lastByAction[action] >= settings.cooldownUs
    requires |Pruned(s.applied, t - settings.cooldownUs)| < settings.actionBudget
    ensures var s' := PolicyState(Pruned(s.applied, t - settings.cooldownUs) + [t], s.lastByAction[action := t]);
            var log' := log + [Applied(action, t)];
            Digest(settings, s', log', t) && Spaced(settings, log') && Budgeted(settings, log')
  {
    var kept := Pruned(s.applied, t - settings.cooldownUs);
    PrunedDequeIsTheWindow(settings, s, log, now, t);
    AppendToTail(kept, log, Applied(action, t));
    AppendKeepsOrder(log, now, Applied(action, t));
    ApplyKeepsSpacing(settings, s.lastByAction, log, action, t);
    ApplyKeepsBudget(settings, kept, log, action, t);
  }

  lemma ApplyKeepsSpacing(
    settings: RiskSettings, last: map<DecisionAction, int>, log: seq<Applied>, action: DecisionAction, t: int)
    requires LastKnown(last, log) && Before(log, t) && Spaced(settings, log)
    requires action in last ==> t - last[action] >= settings.cooldownUs
    ensures Spaced(settings, log + [Applied(action, t)])
    ensures LastKnown(last[action := t], log + [Applied(action, t)])
  {
  }

  lemma ApplyKeepsBudget(
    settings: RiskSettings, kept: seq<int>, log: seq<Applied>, action: DecisionAction, t: int)
    requires 1 <= settings.actionBudget
    requires |kept| < settings.actionBudget && Budgeted(settings, log)
    requires |kept| <= |log| && DroppedBy(log, |kept|, t - settings.cooldownUs)
    ensures Budgeted(settings, log + [Applied(action, t)])
  {
    var log' := log + [Applied(action, t)];
    forall i, j | 0 <= i <= j < |log'| && log'[j].t - log'[i].t < settings.cooldownUs
      ensures j - i + 1 <= settings.actionBudget
    {
      if i < j == |log| {
        assert log[i].t > t - settings.cooldownUs;
      }
    }
  }

  lemma AppendKeepsOrder(log: seq<Applied>, now: int, entry: Applied)
    requires Ordered(log) && Enforcing(log) && Before(log, now) && now <= entry.t
    requires entry.action in {SoftChallenge, Reauth, Terminate}
    ensures Ordered(log + [entry]) && Enforcing(log + [entry]) && Before(log + [entry], entry.t)
    ensures Before(log, entry.t)
  {
  }

  lemma AppendToTail(times: seq<int>, log: seq<Applied>, entry: Applied)
    requires IsTail(times, log)
    ensures IsTail(times + [entry.t], log + [entry])
  {
  }

  lemma {:induction false} RunKeepsDigest(settings: RiskSettings, calls: seq<Call>)
    requires settings.Valid() && InOrder(calls)
    ensures var (s, log) := Run(settings, calls);
            && (calls == [] ==> s == Fresh && log == [])
            && (calls != [] ==> Digest(settings, s, log, calls[|calls| - 1].t))
            && Spaced(settings, log) && Budgeted(settings, log)
    decreases |calls|
  {
    if calls != [] {
      var before := calls[..|calls| - 1];
      RunKeepsDigest(settings, before);
      var (s, log) := Run(settings, before);
      var c := calls[|calls| - 1];
      var now := if before == [] then c.t else before[|before| - 1].t;
      DecideKeepsDigest(settings, s, log, now, c.level, c.highCount, c.t, c.enabled);
    }
  }

  // ---------------------------------------------------------------------
  // From the log to windows of time
  // ---------------------------------------------------------------------

  /** How many applied actions fall in the half-open window (start, end]. */
  function CountIn(log: seq<Applied>, start: int, end: int): nat {
    if log == [] then 0
    else CountIn(log[..|log| - 1], start, end)
         + if start < log[|log| - 1].t <= end then 1 else 0
  }

  // In a time-ordered log the entries of a window are contiguous: they are first .. first + count - 1.
  lemma {:induction false} WindowIsContiguous(log: seq<Applied>, start: int, end: int) returns (first: nat)
    requires Ordered(log)
    ensures first + CountIn(log, start, end) <= |log|
    ensures forall i :: 0 <= i < |log| ==>
              (start < log[i].t <= end <==> first <= i < first + CountIn(log, start, end))
    decreases |log|
  {
    if log == [] {
      first := 0;
    } else {
      var before := log[..|log| - 1];
      first := WindowIsContiguous(before, start, end);
      var count := CountIn(before, start, end);
      if start < log[|log| - 1].t <= end {
        if count == 0 {
          first := |before|;
        } else {
          assert before[first].t > start;
          assert forall i :: first <= i < |log| ==> start < log[i].t <= end;
        }
      }
      forall i | 0 <= i < |log|
        ensures start < log[i].t <= end <==> first <= i < first + CountIn(log, start, end)
      {
        if i < |before| { assert before[i] == log[i]; }
      }
    }
  }

  /** Main result: over any run with non-decreasing decision times, two applications of
      one action are a cooldown apart, and no window of one cooldown's length, wherever
      it ends, holds more than min(budget, 3) applied actions. */
  lemma SlidingBudget(settings: RiskSettings, calls: seq<Call>, end: int)
    requires settings.Valid() && InOrder(calls)
    ensures Spaced(settings, Run(settings, calls).1)
    ensures CountIn(Run(settings, calls).1, end - settings.cooldownUs, end) <= settings.actionBudget
    ensures CountIn(Run(settings, calls).1, end - settings.cooldownUs, end) <= 3
  {
    RunKeepsDigest(settings, calls);
    var (s, log) := Run(settings, calls);
    LogRespectsWindow(settings, log, end);
  }

  lemma LogRespectsWindow(settings: RiskSettings, log: seq<Applied>, end: int)
    requires settings.Valid() && Ordered(log) && Enforcing(log) && Spaced(settings, log) && Budgeted(settings, log)
    ensures CountIn(log, end - settings.cooldownUs, end) <= settings.actionBudget
    ensures CountIn(log, end - settings.cooldownUs, end) <= 3
  {
    var start := end - settings.cooldownUs;
    var count := CountIn(log, start, end);
    var first := WindowIsContiguous(log, start, end);
    if count > 0 {
      assert start < log[first].t && log[first + count - 1].t <= end;
    }
    if count > 3 {
      assert start < log[first].t && log[first + 3].t <= end;
      FourShareAnAction(settings, log, first);
    }
  }

  // Only three actions enforce, so among four consecutive entries two carry the same one.
  lemma FourShareAnAction(settings: RiskSettings, log: seq<Applied>, i: nat)
    requires Ordered(log) && Enforcing(log) && Spaced(settings, log)
    requires i + 3 < |log|
    ensures log[i + 3].t - log[i].t >= settings.cooldownUs
  {
    var a, b, c, d := log[i], log[i + 1], log[i + 2], log[i + 3];
    assert a.t <= b.t <= c.t <= d.t;
    assert {a.action, b.action, c.action, d.action} <= {SoftChallenge, Reauth, Terminate};
  }
}
