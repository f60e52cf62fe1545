/** Turn-scoped guardrail policy: the failure window, the cumulative rate, the stagnation
    counter, and the runner phase that turns their verdicts into reflections and halts.

    Main results: an unbroken series of failing batches is halted after an explicit number
    of batches (attained when no other detector fires), an unproductive turn is halted after
    an explicit number of iterations, and a turn injects a bounded number of reflections. */
module FailurePolicy {
  import opened PyLists
  import opened GuardrailDecisions
  import opened GuardrailHistory

  // ---------------------------------------------------------------- failure window

  datatype OutcomeWindow = OutcomeWindow(
    recent: seq<bool>, totalCalls: int, totalFailures: int, reflections: int, forcedStops: int)

  const FRESH_WINDOW := OutcomeWindow([], 0, 0, 0, 0)

  function NoteOutcome(cfg: Config, w: OutcomeWindow, failed: bool): OutcomeWindow
  {
    var recent := w.recent + [failed];
    w.(recent := if |recent| > cfg.windowSize then TailSlice(recent, cfg.windowSize) else recent,
       totalCalls := w.totalCalls + 1,
       totalFailures := w.totalFailures + if failed then 1 else 0)
  }

  function NoteOutcomes(cfg: Config, w: OutcomeWindow, outcomes: seq<bool>): OutcomeWindow
    decreases outcomes
  {
    if outcomes == [] then w else NoteOutcomes(cfg, NoteOutcome(cfg, w, outcomes[0]), outcomes[1..])
  }

  function FailureCount(recent: seq<bool>): (n: nat)
    ensures n <= |recent|
    ensures (forall i :: 0 <= i < |recent| ==> recent[i]) ==> n == |recent|
  {
    if recent == [] then 0 else (if recent[0] then 1 else 0) + FailureCount(recent[1..])
  }

  /** Shared warn-then-halt policy of the two failure detectors. */
  function Intervention(cfg: Config, w: OutcomeWindow, warn: Reason, exhausted: Reason, count: int): Decision
  {
    if w.forcedStops > 0 || w.reflections >= cfg.maxReflections then Decision(Halt, exhausted, "", "", count)
    else Decision(Warn, warn, "", "", count)
  }

  predicate WindowFires(cfg: Config, w: OutcomeWindow)
  {
    |w.recent| >= cfg.windowFailureThreshold && FailureCount(w.recent) >= cfg.windowFailureThreshold
  }

  predicate RateFires(cfg: Config, w: OutcomeWindow)
  {
    w.totalCalls >= cfg.cumulativeMinCalls
    && w.totalFailures as real >= w.totalCalls as real * cfg.cumulativeFailureRatio
  }

  function EvaluateWindow(cfg: Config, w: OutcomeWindow): Decision
  {
    if !cfg.enabled then ALLOW
    else
      Strictest([
        if WindowFires(cfg, w)
        then Intervention(cfg, w, FailureWindow, FailureWindowExhausted, FailureCount(w.recent)) else ALLOW,
        if RateFires(cfg, w)
        then Intervention(cfg, w, CumulativeRate, CumulativeRateExhausted, w.totalFailures) else ALLOW])
  }

  /** Half the window survives a reflection. */
  function Keep(cfg: Config): int { Max(1, cfg.windowSize / 2) }

  function NoteReflection(cfg: Config, w: OutcomeWindow): OutcomeWindow
  {
    w.(reflections := w.reflections + 1,
       recent := if w.recent == [] then [] else TailSlice(w.recent, Keep(cfg)),
       totalCalls := 0, totalFailures := 0)
  }

  function NoteForcedStop(w: OutcomeWindow): OutcomeWindow
  {
    w.(forcedStops := w.forcedStops + 1)
  }

  // ---------------------------------------------------------------- stagnation

  const WAIT_TOOLS: set<string> := {"check_subagent", "list_subagents"}

  datatype Progress = Progress(seen: set<string>, stagnant: nat, lastDigest: string, reflections: int)

  const FRESH_PROGRESS := Progress({}, 0, "", 0)

  /** One tool batch: the outcomes fed to the window, its (tool, signature) pairs, the digest
      of the assistant text if there was any, and whether a file mutation landed. */
  datatype Batch = Batch(outcomes: seq<bool>, calls: seq<(string, string)>, digest: Option<string>, mutated: bool)

  predicate Neutral(calls: seq<(string, string)>)
  {
    calls != [] && forall c <- calls :: c.0 in WAIT_TOOLS
  }

  function CallKeys(calls: seq<(string, string)>): set<string>
  {
    set c | c in calls && c.0 !in WAIT_TOOLS :: Key(c.0, c.1)
  }

  predicate NewInfo(p: Progress, calls: seq<(string, string)>, digest: Option<string>, mutated: bool)
  {
    mutated || (!(CallKeys(calls) <= p.seen) && !(digest.Some? && digest.value == p.lastDigest))
  }

  function NoteIteration(cfg: Config, p: Progress, calls: seq<(string, string)>, digest: Option<string>,
      mutated: bool): Progress
  {
    if !cfg.enabled || Neutral(calls) then p
    else
      Progress(
        p.seen + CallKeys(calls),
        if NewInfo(p, calls, digest, mutated) then 0 else p.stagnant + 1,
        if digest.Some? then digest.value else p.lastDigest,
        p.reflections)
  }

  function EvaluateStagnation(cfg: Config, p: Progress): Decision
  {
    if !cfg.enabled || p.stagnant < cfg.stagnationWarn then ALLOW
    else if p.stagnant >= cfg.stagnationBlock || p.reflections >= cfg.maxReflections
    then Decision(Halt, StagnationExhausted, "", "", p.stagnant)
    else Decision(Warn, Stagnation, "", "", p.stagnant)
  }

  function NoteStagnationReflection(p: Progress): Progress
  {
    p.(reflections := p.reflections + 1)
  }

  // ---------------------------------------------------------------- the runner phase

  datatype Turn = Turn(window: OutcomeWindow, progress: Progress)

  function PhaseDecision(cfg: Config, t: Turn): Decision
  {
    Strictest([EvaluateWindow(cfg, t.window), EvaluateStagnation(cfg, t.progress)])
  }

  predicate ForStagnation(d: Decision)
  {
    d.reason in {Stagnation, StagnationExhausted}
  }

  /** A warning is charged to the budget of the detector whose verdict won. */
  function AfterPhase(cfg: Config, t: Turn): Turn
  {
    var d := PhaseDecision(cfg, t);
    if d.action == Halt then t.(window := NoteForcedStop(t.window))
    else if d.action == Allow then t
    else if ForStagnation(d) then t.(progress := NoteStagnationReflection(t.progress))
    else t.(window := NoteReflection(cfg, t.window))
  }

  function NoteBatch(cfg: Config, t: Turn, b: Batch): Turn
  {
    Turn(NoteOutcomes(cfg, t.window, b.outcomes), NoteIteration(cfg, t.progress, b.calls, b.digest, b.mutated))
  }

  /** How many batches a turn survives: the 1-based index of the batch after which the phase
      halts, if any, and why (NoReason if it does not), and the numbers of reflections of
      either kind injected until then. */
  datatype TurnEnd = TurnEnd(
    haltedAt: Option<nat>, haltedFor: Reason, failureReflections: nat, stagnationReflections: nat)

  function RunTurn(cfg: Config, t: Turn, batches: seq<Batch>): TurnEnd
    decreases batches
  {
    if batches == [] then TurnEnd(None, NoReason, 0, 0)
    else
      var noted := NoteBatch(cfg, t, batches[0]);
      var d := PhaseDecision(cfg, noted);
      if d.action == Halt then TurnEnd(Some(1), d.reason, 0, 0)
      else
        var rest := RunTurn(cfg, AfterPhase(cfg, noted), batches[1..]);
        TurnEnd(
          if rest.haltedAt.Some? then Some(rest.haltedAt.value + 1) else None, rest.haltedFor,
          rest.failureReflections + (if d.action == Allow || ForStagnation(d) then 0 else 1),
          rest.stagnationReflections + (if d.action != Allow && ForStagnation(d) then 1 else 0))
  }

  /** The window verdict: silent unless a detector fires, then decided by the budget. */
  lemma WindowCases(cfg: Config, w: OutcomeWindow)
    requires cfg.enabled
    ensures var d, fires := EvaluateWindow(cfg, w), WindowFires(cfg, w) || RateFires(cfg, w);
      && d.action != Block && d.reason !in {Stagnation, StagnationExhausted}
      && (d.action == Allow <==> !fires)
      && (d.action == Halt <==> fires && (w.forcedStops > 0 || w.reflections >= cfg.maxReflections))
  {
    var a := if WindowFires(cfg, w)
      then Intervention(cfg, w, FailureWindow, FailureWindowExhausted, FailureCount(w.recent)) else ALLOW;
    var b := if RateFires(cfg, w)
      then Intervention(cfg, w, CumulativeRate, CumulativeRateExhausted, w.totalFailures) else ALLOW;
    assert EvaluateWindow(cfg, w) == Strictest([a, b]);
    StrictestOfTwo(a, b);
  }

  /** The phase decision: halt if either detector halts; the window's warning wins a tie. */
  lemma PhaseCases(cfg: Config, t: Turn)
    requires cfg.enabled
    ensures var d, w, s := PhaseDecision(cfg, t), EvaluateWindow(cfg, t.window), EvaluateStagnation(cfg, t.progress);
      && s.action != Block && d.action != Block
      && (d.action == Halt <==> w.action == Halt || s.action == Halt)
      && (d.action == Warn && w.action == Warn ==> d == w)
      && (d.action == Warn && w.action == Allow ==> d == s)
      && (d.action == Allow <==> w.action == Allow && s.action == Allow)
  {
    WindowCases(cfg, t.window);
    StrictestOfTwo(EvaluateWindow(cfg, t.window), EvaluateStagnation(cfg, t.progress));
  }

  /** What a phase that does not halt does to the two detectors. */
  lemma PhaseEffect(cfg: Config, t: Turn)
    requires cfg.enabled
    ensures var d, after := PhaseDecision(cfg, t), AfterPhase(cfg, t);
      var fires := WindowFires(cfg, t.window) || RateFires(cfg, t.window);
      var slow := !fires && EvaluateStagnation(cfg, t.progress).action == Warn;
      && (fires && (t.window.forcedStops > 0 || t.window.reflections >= cfg.maxReflections) ==> d.action == Halt)
      && (d.action != Halt ==> after.window == if fires then NoteReflection(cfg, t.window) else t.window)
      && (d.action != Halt ==> after.progress == if slow then NoteStagnationReflection(t.progress) else t.progress)
      && (d.action == Halt ==> after == t.(window := t.window.(forcedStops := t.window.forcedStops + 1)))
      && (d.action != Halt ==> EvaluateStagnation(cfg, t.progress).action != Halt)
      && (d.action == Halt ==> fires || EvaluateStagnation(cfg, t.progress).action == Halt)
      && (d.action == Halt && EvaluateStagnation(cfg, t.progress).action != Halt ==>
            t.window.forcedStops > 0 || t.window.reflections >= cfg.maxReflections)
  {
    WindowCases(cfg, t.window);
    PhaseCases(cfg, t);
  }

  lemma StrictestOfTwo(a: Decision, b: Decision)
    ensures Strictest([a, b]) ==
      if Rank(b.action) > Rank(a.action) then b else if a.action == Allow then ALLOW else a
  {
    assert [a, b][..1] == [a];
    assert [a][..0] == [];
  }

  // ---------------------------------------------------------------- an unbroken series of failures

  predicate AllFailed(outcomes: seq<bool>)
  {
    forall i :: 0 <= i < |outcomes| ==> outcomes[i]
  }

  predicate FailingBatches(batches: seq<Batch>)
  {
    forall b <- batches :: b.outcomes != [] && AllFailed(b.outcomes)
  }

  /** Batches left before the window detector alone must halt the turn. */
  function Patience(cfg: Config, w: OutcomeWindow): int
  {
    Max(1, cfg.windowFailureThreshold - |w.recent|)
    + Times(Max(0, cfg.maxReflections - w.reflections), Max(1, cfg.windowFailureThreshold - Keep(cfg)))
  }

  lemma {:induction false} NoteFailures(cfg: Config, w: OutcomeWindow, outcomes: seq<bool>)
    requires 1 <= cfg.windowSize
    requires AllFailed(w.recent) && |w.recent| <= cfg.windowSize && AllFailed(outcomes)
    ensures var after := NoteOutcomes(cfg, w, outcomes);
      && AllFailed(after.recent)
      && |after.recent| == Min(|w.recent| + |outcomes|, cfg.windowSize)
      && after.reflections == w.reflections && after.forcedStops == w.forcedStops
      && after.totalCalls == w.totalCalls + |outcomes|
    decreases outcomes
  {
    if outcomes != [] {
      NoteFailures(cfg, NoteOutcome(cfg, w, outcomes[0]), outcomes[1..]);
    }
  }

  lemma PatienceDrops(cfg: Config, w: OutcomeWindow, noted: OutcomeWindow)
    requires 1 <= cfg.windowFailureThreshold <= cfg.windowSize
    requires AllFailed(noted.recent) && noted.reflections == w.reflections
    requires |w.recent| <= cfg.windowSize && Min(|w.recent| + 1, cfg.windowSize) <= |noted.recent| <= cfg.windowSize
    ensures !WindowFires(cfg, noted) ==> Patience(cfg, noted) < Patience(cfg, w)
    ensures noted.reflections < cfg.maxReflections ==> Patience(cfg, NoteReflection(cfg, noted)) < Patience(cfg, w)
    ensures WindowFires(cfg, noted) && w.reflections >= cfg.maxReflections ==> 1 <= Patience(cfg, w)
    ensures |w.recent| + 1 == |noted.recent| && !WindowFires(cfg, noted) ==>
      Patience(cfg, noted) == Patience(cfg, w) - 1
    ensures |noted.recent| <= |w.recent| + 1 && WindowFires(cfg, noted) ==>
      Patience(cfg, w) ==
        if w.reflections < cfg.maxReflections then Patience(cfg, NoteReflection(cfg, noted)) + 1 else 1
  {
  }

  /** A failing batch uses up patience, whichever detector reacts to it. */
  lemma FailingStep(cfg: Config, t: Turn, b: Batch)
    requires cfg.enabled && 1 <= cfg.windowFailureThreshold <= cfg.windowSize
    requires AllFailed(t.window.recent) && |t.window.recent| <= cfg.windowSize
    requires b.outcomes != [] && AllFailed(b.outcomes)
    ensures var noted := NoteBatch(cfg, t, b);
      PhaseDecision(cfg, noted).action != Halt ==>
        var after := AfterPhase(cfg, noted).window;
        AllFailed(after.recent) && |after.recent| <= cfg.windowSize && Patience(cfg, after) < Patience(cfg, t.window)
  {
    hide PhaseDecision, AfterPhase, Patience;
    var noted := NoteBatch(cfg, t, b);
    NoteFailures(cfg, t.window, b.outcomes);
    PhaseEffect(cfg, noted);
    PatienceDrops(cfg, t.window, noted.window);
  }

  /** Every batch of an unbroken series of failures costs patience, so the turn is halted
      after at most Patience batches. */
  lemma {:induction false} FailingRunHalts(cfg: Config, t: Turn, batches: seq<Batch>)
    requires cfg.enabled && 1 <= cfg.windowFailureThreshold <= cfg.windowSize
    requires AllFailed(t.window.recent) && |t.window.recent| <= cfg.windowSize
    requires FailingBatches(batches) && |batches| >= Patience(cfg, t.window)
    ensures RunTurn(cfg, t, batches).haltedAt.Some?
    ensures RunTurn(cfg, t, batches).haltedAt.value <= Patience(cfg, t.window)
    decreases |batches|
  {
    FailingStep(cfg, t, batches[0]);
    var noted := NoteBatch(cfg, t, batches[0]);
    if PhaseDecision(cfg, noted).action != Halt {
      FailingRunHalts(cfg, AfterPhase(cfg, noted), batches[1..]);
    }
  }

  lemma FreshPatience(cfg: Config)
    requires 1 <= cfg.windowFailureThreshold
    ensures Patience(cfg, FRESH_WINDOW) == cfg.windowFailureThreshold
      + Max(0, cfg.maxReflections) * Max(1, cfg.windowFailureThreshold - Max(1, cfg.windowSize / 2))
  {
    TimesIsProduct(Max(0, cfg.maxReflections), Max(1, cfg.windowFailureThreshold - Keep(cfg)));
  }

  /** From a fresh turn the bound is threshold + maxReflections * max(1, threshold - keep). */
  lemma FreshFailingTurnHalts(cfg: Config, p: Progress, batches: seq<Batch>)
    requires cfg.enabled && 1 <= cfg.windowFailureThreshold <= cfg.windowSize
    requires FailingBatches(batches)
    requires |batches| >= cfg.windowFailureThreshold
      + Max(0, cfg.maxReflections) * Max(1, cfg.windowFailureThreshold - Max(1, cfg.windowSize / 2))
    ensures var n := RunTurn(cfg, Turn(FRESH_WINDOW, p), batches).haltedAt;
      n.Some? && n.value <= cfg.windowFailureThreshold
        + Max(0, cfg.maxReflections) * Max(1, cfg.windowFailureThreshold - Max(1, cfg.windowSize / 2))
  {
    hide RunTurn, Patience;
    FreshPatience(cfg);
    FailingRunHalts(cfg, Turn(FRESH_WINDOW, p), batches);
  }

  /** For the next n batches neither the rate detector nor stagnation can react. */
  predicate OnlyWindow(cfg: Config, t: Turn, n: nat)
  {
    && t.window.forcedStops == 0
    && 0 <= t.window.totalCalls && t.window.totalCalls + n < cfg.cumulativeMinCalls
    && t.progress.stagnant + n < cfg.stagnationWarn
  }

  lemma StagnantGrowsByOne(cfg: Config, p: Progress, b: Batch)
    ensures NoteIteration(cfg, p, b.calls, b.digest, b.mutated).stagnant <= p.stagnant + 1
  {
  }

  lemma WindowAloneStep(cfg: Config, t: Turn, b: Batch, n: nat)
    requires cfg.enabled && 1 <= cfg.windowFailureThreshold <= cfg.windowSize
    requires AllFailed(t.window.recent) && |t.window.recent| <= cfg.windowSize
    requires b.outcomes == [true] && 1 <= n && OnlyWindow(cfg, t, n)
    ensures var noted := NoteBatch(cfg, t, b);
      var after := AfterPhase(cfg, noted);
      if PhaseDecision(cfg, noted).action == Halt then Patience(cfg, t.window) == 1
      else
        && AllFailed(after.window.recent) && |after.window.recent| <= cfg.windowSize
        && OnlyWindow(cfg, after, n - 1)
        && Patience(cfg, after.window) == Patience(cfg, t.window) - 1
  {
    hide PhaseDecision, AfterPhase, Patience, NoteIteration, NoteOutcomes;
    var noted := NoteBatch(cfg, t, b);
    NoteFailures(cfg, t.window, b.outcomes);
    StagnantGrowsByOne(cfg, t.progress, b);
    PhaseEffect(cfg, noted);
    PatienceDrops(cfg, t.window, noted.window);
  }

  /** The bound is attained: when the rate detector never arms and stagnation never warns,
      single failing calls are halted at exactly the Patience-th batch and not before. */
  lemma {:induction false} WindowAloneHaltsExactly(cfg: Config, t: Turn, batches: seq<Batch>)
    requires cfg.enabled && 1 <= cfg.windowFailureThreshold <= cfg.windowSize
    requires AllFailed(t.window.recent) && |t.window.recent| <= cfg.windowSize
    requires OnlyWindow(cfg, t, |batches|)
    requires forall b <- batches :: b.outcomes == [true]
    ensures RunTurn(cfg, t, batches).haltedAt ==
      if |batches| >= Patience(cfg, t.window) then Some(Patience(cfg, t.window)) else None
    decreases |batches|
  {
    hide PhaseDecision, AfterPhase, NoteBatch, Patience;
    AtLeastOneLeft(cfg, t);
    if batches != [] {
      var noted := NoteBatch(cfg, t, batches[0]);
      WindowAloneStep(cfg, t, batches[0], |batches|);
      if PhaseDecision(cfg, noted).action != Halt {
        WindowAloneHaltsExactly(cfg, AfterPhase(cfg, noted), batches[1..]);
      }
    }
  }

  function CallCount(batches: seq<Batch>): nat
  {
    if batches == [] then 0 else |batches[0].outcomes| + CallCount(batches[1..])
  }

  /** Over these batches neither the rate detector nor stagnation can react. */
  predicate Calm(cfg: Config, t: Turn, batches: seq<Batch>)
  {
    && 0 <= t.window.totalCalls && t.window.totalCalls + CallCount(batches) < cfg.cumulativeMinCalls
    && t.progress.stagnant + |batches| < cfg.stagnationWarn
  }

  predicate SameWindowPolicy(a: Config, b: Config)
  {
    && a.enabled && b.enabled
    && a.windowFailureThreshold == b.windowFailureThreshold && a.windowSize == b.windowSize
    && a.maxReflections == b.maxReflections
  }

  /** The first window is at least as close to a halt: it has spent more reflections, or as many
      and holds no fewer failures. */
  predicate Ahead(cfg: Config, w: OutcomeWindow, other: OutcomeWindow)
  {
    && AllFailed(w.recent) && AllFailed(other.recent)
    && |w.recent| <= cfg.windowSize && |other.recent| <= cfg.windowSize
    && w.forcedStops == other.forcedStops && w.reflections >= other.reflections
    && |w.recent| >= Min(Keep(cfg), |other.recent|)
    && (w.reflections == other.reflections ==> |w.recent| >= |other.recent|)
    && (w.reflections > other.reflections ==> w.forcedStops <= 0 && w.reflections <= cfg.maxReflections)
  }

  lemma AllFailedFires(cfg: Config, w: OutcomeWindow)
    requires AllFailed(w.recent)
    ensures WindowFires(cfg, w) <==> |w.recent| >= cfg.windowFailureThreshold
  {
  }

  lemma ReflectionKeepsAhead(cfg: Config, w: OutcomeWindow, other: OutcomeWindow)
    requires 1 <= cfg.windowFailureThreshold <= cfg.windowSize && Ahead(cfg, w, other)
    ensures w.reflections < cfg.maxReflections && w.forcedStops <= 0 && other.reflections < cfg.maxReflections ==>
      Ahead(cfg, NoteReflection(cfg, w), NoteReflection(cfg, other))
    ensures w.reflections < cfg.maxReflections && w.forcedStops <= 0 ==> Ahead(cfg, NoteReflection(cfg, w), other)
    ensures w.reflections > other.reflections ==> Ahead(cfg, w, NoteReflection(cfg, other))
  {
  }

  lemma OutcomesKeepAhead(cfg: Config, quiet: Config, w: OutcomeWindow, other: OutcomeWindow, outcomes: seq<bool>)
    requires 1 <= cfg.windowFailureThreshold <= cfg.windowSize && SameWindowPolicy(cfg, quiet)
    requires Ahead(cfg, w, other) && AllFailed(outcomes)
    ensures Ahead(cfg, NoteOutcomes(cfg, w, outcomes), NoteOutcomes(quiet, other, outcomes))
  {
    NoteFailures(cfg, w, outcomes);
    NoteFailures(quiet, other, outcomes);
    hide NoteOutcomes;
  }

  lemma AheadStep(cfg: Config, quiet: Config, t: Turn, calm: Turn, batches: seq<Batch>)
    requires 1 <= cfg.windowFailureThreshold <= cfg.windowSize && SameWindowPolicy(cfg, quiet)
    requires Ahead(cfg, t.window, calm.window) && batches != [] && Calm(quiet, calm, batches)
    requires AllFailed(batches[0].outcomes)
    ensures var noted, still := NoteBatch(cfg, t, batches[0]), NoteBatch(quiet, calm, batches[0]);
      && (PhaseDecision(quiet, still).action == Halt ==> PhaseDecision(cfg, noted).action == Halt)
      && (PhaseDecision(quiet, still).action != Halt ==> Calm(quiet, AfterPhase(quiet, still), batches[1..]))
      && (PhaseDecision(cfg, noted).action != Halt ==>
            Ahead(cfg, AfterPhase(cfg, noted).window, AfterPhase(quiet, still).window))
  {
    var noted, still := NoteBatch(cfg, t, batches[0]), NoteBatch(quiet, calm, batches[0]);
    OutcomesKeepAhead(cfg, quiet, t.window, calm.window, batches[0].outcomes);
    CalmStep(quiet, calm, batches);
    PhaseEffect(cfg, noted);
    PhaseEffect(quiet, still);
    AllFailedFires(cfg, noted.window);
    AllFailedFires(quiet, still.window);
    hide PhaseDecision, AfterPhase, EvaluateStagnation, NoteBatch, Ahead, Calm, NoteReflection;
    ReflectionKeepsAhead(cfg, noted.window, still.window);
    AheadFires(cfg, noted.window, still.window);
  }

  lemma AheadFires(cfg: Config, w: OutcomeWindow, other: OutcomeWindow)
    requires Ahead(cfg, w, other)
    ensures w.forcedStops == other.forcedStops && w.reflections >= other.reflections
    ensures w.reflections == other.reflections ==> |w.recent| >= |other.recent|
    ensures w.reflections > other.reflections ==> w.forcedStops <= 0 && other.reflections < cfg.maxReflections
  {
  }

  /** A calm batch: the verdict is the window's alone, and the rest stays calm. */
  lemma CalmStep(quiet: Config, calm: Turn, batches: seq<Batch>)
    requires quiet.enabled && batches != [] && Calm(quiet, calm, batches)
    requires AllFailed(calm.window.recent) && AllFailed(batches[0].outcomes)
    requires 1 <= quiet.windowSize && |calm.window.recent| <= quiet.windowSize
    ensures var still := NoteBatch(quiet, calm, batches[0]);
      && !RateFires(quiet, still.window) && EvaluateStagnation(quiet, still.progress).action == Allow
      && (PhaseDecision(quiet, still).action != Halt ==> Calm(quiet, AfterPhase(quiet, still), batches[1..]))
  {
    hide PhaseDecision, AfterPhase, NoteOutcomes, NoteIteration;
    var still := NoteBatch(quiet, calm, batches[0]);
    NoteFailures(quiet, calm.window, batches[0].outcomes);
    StagnantGrowsByOne(quiet, calm.progress, batches[0]);
    PhaseEffect(quiet, still);
  }

  /** The other detectors can only bring the halt of an unbroken series of failures forward,
      whatever the sizes of the batches: a configuration in which they stay silent never halts
      earlier. */
  lemma {:induction false} OtherDetectorsOnlyHaltEarlier(
    cfg: Config, quiet: Config, t: Turn, calm: Turn, batches: seq<Batch>)
    requires 1 <= cfg.windowFailureThreshold <= cfg.windowSize && SameWindowPolicy(cfg, quiet)
    requires Ahead(cfg, t.window, calm.window) && Calm(quiet, calm, batches) && FailingBatches(batches)
    ensures var loud, still := RunTurn(cfg, t, batches).haltedAt, RunTurn(quiet, calm, batches).haltedAt;
      still.Some? ==> loud.Some? && loud.value <= still.value
    decreases |batches|
  {
    hide PhaseDecision, AfterPhase, NoteBatch, Ahead, Calm;
    if batches != [] {
      AheadStep(cfg, quiet, t, calm, batches);
      var noted, still := NoteBatch(cfg, t, batches[0]), NoteBatch(quiet, calm, batches[0]);
      if PhaseDecision(cfg, noted).action != Halt {
        OtherDetectorsOnlyHaltEarlier(cfg, quiet, AfterPhase(cfg, noted), AfterPhase(quiet, still), batches[1..]);
      }
    }
  }

  /** In particular from the same state. */
  lemma SilencingNeverHaltsEarlier(cfg: Config, quiet: Config, t: Turn, batches: seq<Batch>)
    requires 1 <= cfg.windowFailureThreshold <= cfg.windowSize && SameWindowPolicy(cfg, quiet)
    requires AllFailed(t.window.recent) && |t.window.recent| <= cfg.windowSize
    requires Calm(quiet, t, batches) && FailingBatches(batches)
    ensures var loud, still := RunTurn(cfg, t, batches).haltedAt, RunTurn(quiet, t, batches).haltedAt;
      still.Some? ==> loud.Some? && loud.value <= still.value
  {
    OtherDetectorsOnlyHaltEarlier(cfg, quiet, t, t, batches);
  }

  /** With a threshold above the window size the window detector is dead code: it fires for
      no outcome sequence at all. */
  lemma {:induction false} ShortWindowNeverFires(cfg: Config, w: OutcomeWindow, outcomes: seq<bool>)
    requires 1 <= cfg.windowSize < cfg.windowFailureThreshold && |w.recent| <= cfg.windowSize
    ensures !WindowFires(cfg, NoteOutcomes(cfg, w, outcomes))
    ensures |NoteOutcomes(cfg, w, outcomes).recent| <= cfg.windowSize
    decreases outcomes
  {
    if outcomes != [] {
      ShortWindowNeverFires(cfg, NoteOutcome(cfg, w, outcomes[0]), outcomes[1..]);
    }
  }

  // ---------------------------------------------------------------- an unproductive turn

  function NonNeutral(batches: seq<Batch>): nat
  {
    if batches == [] then 0 else (if Neutral(batches[0].calls) then 0 else 1) + NonNeutral(batches[1..])
  }

  function Mutations(batches: seq<Batch>): nat
  {
    if batches == [] then 0
    else (if !Neutral(batches[0].calls) && batches[0].mutated then 1 else 0) + Mutations(batches[1..])
  }

  /** A counter value at which stagnation certainly halts. */
  function Ceiling(cfg: Config): nat { Max(1, Max(cfg.stagnationWarn, cfg.stagnationBlock)) }

  /** Non-neutral iterations left when at most `f` more mutations land and every signature
      comes from `universe`. */
  function Slack(cfg: Config, p: Progress, universe: set<string>, f: nat): int
  {
    Times(|universe - p.seen| + f, Ceiling(cfg)) + (Ceiling(cfg) - p.stagnant)
  }

  lemma {:induction false} Fewer(a: nat, b: nat, c: nat)
    requires a < b
    ensures Times(a, c) + c <= Times(b, c)
  {
    if a + 1 < b {
      Fewer(a, b - 1, c);
    }
  }

  /** A productive iteration has a mutation to spend or a signature to tick off. */
  lemma UnseenShrinks(p: Progress, b: Batch, universe: set<string>)
    requires CallKeys(b.calls) <= universe
    ensures |universe - (p.seen + CallKeys(b.calls))| <= |universe - p.seen|
    ensures NewInfo(p, b.calls, b.digest, b.mutated) && !b.mutated ==>
      |universe - (p.seen + CallKeys(b.calls))| < |universe - p.seen|
  {
    var left, left' := universe - p.seen, universe - (p.seen + CallKeys(b.calls));
    SubsetSize(left', left);
    if NewInfo(p, b.calls, b.digest, b.mutated) && !b.mutated {
      var k :| k in CallKeys(b.calls) && k !in p.seen;
      SubsetSize(left', left - {k});
    }
  }

  lemma SlackStep(cfg: Config, p: Progress, b: Batch, universe: set<string>, f: nat)
    requires cfg.enabled && p.stagnant < Ceiling(cfg) && !Neutral(b.calls)
    requires CallKeys(b.calls) <= universe && (b.mutated ==> 1 <= f)
    ensures var after := NoteIteration(cfg, p, b.calls, b.digest, b.mutated);
      Slack(cfg, after, universe, if b.mutated then f - 1 else f) < Slack(cfg, p, universe, f)
  {
    hide Ceiling, CallKeys;
    UnseenShrinks(p, b, universe);
    var after, f' := NoteIteration(cfg, p, b.calls, b.digest, b.mutated), if b.mutated then f - 1 else f;
    var budget, budget' := |universe - p.seen| + f, |universe - after.seen| + f';
    assert b.mutated ==> NewInfo(p, b.calls, b.digest, b.mutated);
    if budget' < budget {
      Fewer(budget', budget, Ceiling(cfg));
    } else {
      assert !NewInfo(p, b.calls, b.digest, b.mutated) && budget' == budget;
    }
  }

  lemma AtLeastOneLeft(cfg: Config, t: Turn)
    ensures Patience(cfg, t.window) >= 1
    ensures forall universe, f :: t.progress.stagnant < Ceiling(cfg) ==> Slack(cfg, t.progress, universe, f) >= 1
  {
  }

  lemma SlackIgnoresReflections(cfg: Config, p: Progress, universe: set<string>, f: nat)
    ensures Slack(cfg, NoteStagnationReflection(p), universe, f) == Slack(cfg, p, universe, f)
  {
  }

  lemma UnproductiveStep(cfg: Config, t: Turn, b: Batch, universe: set<string>, f: nat)
    requires cfg.enabled && t.progress.stagnant < Ceiling(cfg)
    requires CallKeys(b.calls) <= universe && (!Neutral(b.calls) && b.mutated ==> 1 <= f)
    ensures var noted := NoteBatch(cfg, t, b);
      var f' := if !Neutral(b.calls) && b.mutated then f - 1 else f;
      PhaseDecision(cfg, noted).action != Halt ==>
        var next := AfterPhase(cfg, noted).progress;
        && next.stagnant < Ceiling(cfg)
        && Slack(cfg, next, universe, f') + (if Neutral(b.calls) then 0 else 1) <= Slack(cfg, t.progress, universe, f)
  {
    hide PhaseDecision, AfterPhase, Slack;
    PhaseEffect(cfg, NoteBatch(cfg, t, b));
    SlackIgnoresReflections(
      cfg, NoteBatch(cfg, t, b).progress, universe, if !Neutral(b.calls) && b.mutated then f - 1 else f);
    if !Neutral(b.calls) {
      SlackStep(cfg, t.progress, b, universe, f);
    }
  }

  /** Stagnation always halts a turn whose batches draw on finitely many signatures: with S
      unseen signatures and F iterations that mutate a file, no later than the
      (S + F + 1) * ceiling-th non-neutral iteration, whatever the assistant text is and
      however many waiting iterations lie in between. */
  lemma {:induction false} UnproductiveTurnHalts(cfg: Config, t: Turn, batches: seq<Batch>, universe: set<string>,
      f: nat)
    requires cfg.enabled && t.progress.stagnant < Ceiling(cfg)
    requires forall b <- batches :: CallKeys(b.calls) <= universe
    requires Mutations(batches) <= f && NonNeutral(batches) >= Slack(cfg, t.progress, universe, f)
    ensures var n := RunTurn(cfg, t, batches).haltedAt;
      n.Some? && n.value <= |batches| && NonNeutral(batches[..n.value]) <= Slack(cfg, t.progress, universe, f)
    decreases |batches|
  {
    hide PhaseDecision, AfterPhase, NoteBatch, Slack;
    AtLeastOneLeft(cfg, t);
    var b, rest := batches[0], batches[1..];
    var noted := NoteBatch(cfg, t, b);
    UnproductiveStep(cfg, t, b, universe, f);
    if PhaseDecision(cfg, noted).action == Halt {
      assert batches[..1] == [b];
      assert NonNeutral([b][1..]) == 0;
    } else {
      var next := AfterPhase(cfg, noted);
      var f' := if !Neutral(b.calls) && b.mutated then f - 1 else f;
      UnproductiveTurnHalts(cfg, next, rest, universe, f');
      var n := RunTurn(cfg, next, rest).haltedAt.value;
      assert batches[..n + 1] == [b] + rest[..n];
      assert batches[..n + 1][1..] == rest[..n];
    }
  }

  /** Without mutations, a fresh turn over S signatures halts by the (S + 1) * ceiling-th
      non-neutral iteration. */
  lemma FreshUnproductiveTurnHalts(cfg: Config, w: OutcomeWindow, batches: seq<Batch>, universe: set<string>)
    requires cfg.enabled
    requires forall b <- batches :: CallKeys(b.calls) <= universe && !b.mutated
    requires NonNeutral(batches) >= (|universe| + 1) * Ceiling(cfg)
    ensures var n := RunTurn(cfg, Turn(w, FRESH_PROGRESS), batches).haltedAt;
      n.Some? && n.value <= |batches| && NonNeutral(batches[..n.value]) <= (|universe| + 1) * Ceiling(cfg)
  {
    NoMutations(batches);
    assert universe - {} == universe;
    TimesIsProduct(|universe| + 1, Ceiling(cfg));
    UnproductiveTurnHalts(cfg, Turn(w, FRESH_PROGRESS), batches, universe, 0);
  }

  lemma {:induction false} NoMutations(batches: seq<Batch>)
    requires forall b <- batches :: !b.mutated
    ensures Mutations(batches) == 0
  {
    if batches != [] {
      NoMutations(batches[1..]);
    }
  }

  // ---------------------------------------------------------------- reflection budget

  /** Reflections a detector may still spend in this turn. */
  function Left(cfg: Config, spent: int): nat
  {
    Max(0, cfg.maxReflections - spent)
  }

  /** A phase that warns spends one reflection of the budget of the detector that warned. */
  lemma BudgetStep(cfg: Config, t: Turn, b: Batch)
    requires cfg.enabled
    ensures var noted := NoteBatch(cfg, t, b);
      var d, after := PhaseDecision(cfg, noted), AfterPhase(cfg, noted);
      d.action != Halt ==>
        && Left(cfg, after.window.reflections) + (if d.action == Allow || ForStagnation(d) then 0 else 1)
          <= Left(cfg, t.window.reflections)
        && Left(cfg, after.progress.reflections) + (if d.action != Allow && ForStagnation(d) then 1 else 0)
          <= Left(cfg, t.progress.reflections)
  {
    hide PhaseDecision, Strictest;
    OutcomesKeepBudget(cfg, t.window, b.outcomes);
    WindowCases(cfg, NoteBatch(cfg, t, b).window);
    PhaseCases(cfg, NoteBatch(cfg, t, b));
  }

  /** Whatever the turn does, it injects at most maxReflections failure reflections and at most
      maxReflections stagnation reflections before it ends or halts. */
  lemma {:induction false} ReflectionsBounded(cfg: Config, t: Turn, batches: seq<Batch>)
    requires cfg.enabled
    ensures RunTurn(cfg, t, batches).failureReflections <= Left(cfg, t.window.reflections)
    ensures RunTurn(cfg, t, batches).stagnationReflections <= Left(cfg, t.progress.reflections)
    decreases |batches|
  {
    hide PhaseDecision, AfterPhase, NoteBatch, ForStagnation, Left;
    if batches != [] {
      var noted := NoteBatch(cfg, t, batches[0]);
      BudgetStep(cfg, t, batches[0]);
      ReflectionsBounded(cfg, AfterPhase(cfg, noted), batches[1..]);
    }
  }

  lemma {:induction false} OutcomesKeepBudget(cfg: Config, w: OutcomeWindow, outcomes: seq<bool>)
    ensures NoteOutcomes(cfg, w, outcomes).reflections == w.reflections
    ensures NoteOutcomes(cfg, w, outcomes).forcedStops == w.forcedStops
    decreases outcomes
  {
    if outcomes != [] {
      OutcomesKeepBudget(cfg, NoteOutcome(cfg, w, outcomes[0]), outcomes[1..]);
    }
  }
}
