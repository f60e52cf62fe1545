/** Decisions and thresholds of the tool-loop guardrail. */
module GuardrailDecisions {

  datatype Action = Allow | Warn | Block | Halt

  datatype Reason =
    | NoReason
    | ExactFailure | ExactFailureBlock
    | ToolStreak | ToolStreakBlock
    | RepeatCall
    | NoProgress | NoProgressBlock
    | FailureWindow | FailureWindowExhausted
    | CumulativeRate | CumulativeRateExhausted
    | Stagnation | StagnationExhausted
    | LoopCap

  datatype Decision = Decision(action: Action, reason: Reason, tool: string, signature: string, count: int)

  const ALLOW := Decision(Allow, NoReason, "", "", 0)

  /** Thresholds. Ratios are reals; every integer threshold may be any integer. */
  datatype Config = Config(
    enabled: bool,
    exactFailureWarn: int, exactFailureBlock: int,
    toolStreakWarn: int, toolStreakBlock: int,
    noProgressWarn: int, noProgressBlock: int,
    windowSize: int, windowFailureThreshold: int,
    maxReflections: int,
    idempotentTools: set<string>,
    failedMethodsCap: int,
    cumulativeMinCalls: int, cumulativeFailureRatio: real,
    stagnationWarn: int, stagnationBlock: int,
    repeatTiers: set<int>,
    maxWebSearches: int, maxWebFetches: int, maxBrowserNavigations: int, maxDelegations: int)

  function Rank(a: Action): nat
  {
    match a
    case Allow => 0
    case Warn => 1
    case Block => 2
    case Halt => 3
  }

  /** The first decision of the highest rank; ALLOW when none is above Allow. */
  function Strictest(ds: seq<Decision>): (best: Decision)
    ensures forall d <- ds :: Rank(d.action) <= Rank(best.action)
    ensures best == ALLOW || best in ds
  {
    if ds == [] then ALLOW
    else
      var last, sofar := ds[|ds| - 1], Strictest(ds[..|ds| - 1]);
      if Rank(last.action) > Rank(sofar.action) then last else sofar
  }

  /** Ties go to the earlier decision. */
  lemma {:induction false} StrictestIsFirst(ds: seq<Decision>)
    ensures Strictest(ds).action == Allow <==> Strictest(ds) == ALLOW
    ensures Strictest(ds) != ALLOW ==>
      exists i :: 0 <= i < |ds| && ds[i] == Strictest(ds)
        && forall j :: 0 <= j < i ==> Rank(ds[j].action) < Rank(Strictest(ds).action)
  {
    if ds != [] {
      var prefix := ds[..|ds| - 1];
      StrictestIsFirst(prefix);
      if Strictest(ds) == Strictest(prefix) && Strictest(ds) != ALLOW {
        var i :| 0 <= i < |prefix| && prefix[i] == Strictest(ds)
          && forall j :: 0 <= j < i ==> Rank(prefix[j].action) < Rank(Strictest(ds).action);
        assert ds[i] == Strictest(ds) && forall j :: 0 <= j < i ==> ds[j] == prefix[j];
      }
    }
  }
}
