/** When the guardrail interrupts a turn and when it does not, told by the outcomes and the calls
    alone: the verdicts are functions of the last outcomes and of the unproductive iterations,
    a turn with few failures is never interrupted for failing, and a stagnant one is halted at
    exactly the iteration the thresholds and the budget name. */
module TurnVerdicts {
  import opened PyLists
  import opened GuardrailDecisions
  import opened GuardrailHistory
  import opened FailurePolicy

  // ---------------------------------------------------------------- the failure verdict

  lemma {:induction false} FailuresCounted(recent: seq<bool>)
    ensures FailureCount(recent) == multiset(recent)[true]
  {
    if recent != [] {
      FailuresCounted(recent[1..]);
      assert recent == [recent[0]] + recent[1..];
    }
  }

  /** The last n of the outcomes. */
  function Latest(outcomes: seq<bool>, n: nat): seq<bool>
  {
    outcomes[Max(0, |outcomes| - n)..]
  }

  /** The window is the last `windowSize` outcomes; the totals count all of them. */
  lemma {:induction false} WindowIsLatest(cfg: Config, w: OutcomeWindow, outcomes: seq<bool>)
    requires 1 <= cfg.windowSize && |w.recent| <= cfg.windowSize
    ensures NoteOutcomes(cfg, w, outcomes) == w.(
      recent := Latest(w.recent + outcomes, cfg.windowSize),
      totalCalls := w.totalCalls + |outcomes|,
      totalFailures := w.totalFailures + multiset(outcomes)[true])
    decreases outcomes
  {
    hide Latest, NoteOutcome;
    if outcomes == [] {
      assert w.recent + outcomes == w.recent;
      AllOfIt(w.recent, cfg.windowSize);
    } else {
      var o, rest := outcomes[0], outcomes[1..];
      OneMore(cfg, w, o);
      WindowIsLatest(cfg, NoteOutcome(cfg, w, o), rest);
      LatestOfLatest(w.recent + [o], rest, cfg.windowSize);
      assert w.recent + [o] + rest == w.recent + outcomes;
      CountCons(outcomes);
    }
  }

  lemma CountCons(outcomes: seq<bool>)
    requires outcomes != []
    ensures multiset(outcomes)[true] == (if outcomes[0] then 1 else 0) + multiset(outcomes[1..])[true]
  {
    assert outcomes == [outcomes[0]] + outcomes[1..];
  }

  lemma AllOfIt(recent: seq<bool>, n: nat)
    requires |recent| <= n
    ensures Latest(recent, n) == recent
  {
  }

  lemma OneMore(cfg: Config, w: OutcomeWindow, o: bool)
    requires 1 <= cfg.windowSize
    ensures NoteOutcome(cfg, w, o) == w.(
      recent := Latest(w.recent + [o], cfg.windowSize),
      totalCalls := w.totalCalls + 1,
      totalFailures := w.totalFailures + if o then 1 else 0)
    ensures |Latest(w.recent + [o], cfg.windowSize)| <= cfg.windowSize
  {
  }

  lemma LatestOfLatest(a: seq<bool>, b: seq<bool>, n: nat)
    ensures Latest(Latest(a, n) + b, n) == Latest(a + b, n)
  {
  }

  /** The failure verdict as a function of four numbers. The rolling window is the reason given
      when both detectors fire. */
  function FailureVerdict(cfg: Config, recentFailures: nat, calls: int, failures: int, spent: bool): Decision
  {
    if recentFailures >= cfg.windowFailureThreshold then
      if spent then Decision(Halt, FailureWindowExhausted, "", "", recentFailures)
      else Decision(Warn, FailureWindow, "", "", recentFailures)
    else if calls >= cfg.cumulativeMinCalls && failures as real >= calls as real * cfg.cumulativeFailureRatio then
      if spent then Decision(Halt, CumulativeRateExhausted, "", "", failures)
      else Decision(Warn, CumulativeRate, "", "", failures)
    else ALLOW
  }

  lemma VerdictOn(cfg: Config, w: OutcomeWindow)
    requires cfg.enabled
    ensures EvaluateWindow(cfg, w) == FailureVerdict(cfg, multiset(w.recent)[true], w.totalCalls, w.totalFailures,
      w.forcedStops > 0 || w.reflections >= cfg.maxReflections)
  {
    FailuresCounted(w.recent);
    hide Strictest, FailureCount;
    var a := if WindowFires(cfg, w)
      then Intervention(cfg, w, FailureWindow, FailureWindowExhausted, FailureCount(w.recent)) else ALLOW;
    var b := if RateFires(cfg, w)
      then Intervention(cfg, w, CumulativeRate, CumulativeRateExhausted, w.totalFailures) else ALLOW;
    assert EvaluateWindow(cfg, w) == Strictest([a, b]);
    StrictestOfTwo(a, b);
  }

  /** The verdict on a series of outcomes depends on how many of the last `windowSize` failed,
      on how many failed since the last reflection, and on the budget left. */
  lemma VerdictOnOutcomes(cfg: Config, w: OutcomeWindow, outcomes: seq<bool>)
    requires cfg.enabled && 1 <= cfg.windowSize && |w.recent| <= cfg.windowSize
    ensures EvaluateWindow(cfg, NoteOutcomes(cfg, w, outcomes)) == FailureVerdict(cfg,
      multiset(Latest(w.recent + outcomes, cfg.windowSize))[true],
      w.totalCalls + |outcomes|, w.totalFailures + multiset(outcomes)[true],
      w.forcedStops > 0 || w.reflections >= cfg.maxReflections)
  {
    hide *;
    WindowIsLatest(cfg, w, outcomes);
    VerdictOn(cfg, NoteOutcomes(cfg, w, outcomes));
  }

  /** A turn that is not stagnant is judged by its failures alone. */
  lemma UnlessStagnant(cfg: Config, t: Turn)
    requires cfg.enabled && t.progress.stagnant < cfg.stagnationWarn
    ensures PhaseDecision(cfg, t) == FailureVerdict(cfg,
      multiset(t.window.recent)[true], t.window.totalCalls, t.window.totalFailures,
      t.window.forcedStops > 0 || t.window.reflections >= cfg.maxReflections)
  {
    hide EvaluateWindow, Strictest;
    VerdictOn(cfg, t.window);
    StrictestOfTwo(EvaluateWindow(cfg, t.window), EvaluateStagnation(cfg, t.progress));
  }

  /** A reflection keeps the last half window, at least one outcome, and forgets the totals; a
      forced stop leaves nothing but halts. */
  lemma ReflectionKeepsHalf(cfg: Config, w: OutcomeWindow)
    ensures NoteReflection(cfg, w) ==
      OutcomeWindow(Latest(w.recent, Max(1, cfg.windowSize / 2)), 0, 0, w.reflections + 1, w.forcedStops)
    ensures 0 <= w.forcedStops && cfg.enabled ==> EvaluateWindow(cfg, NoteForcedStop(w)).action in {Allow, Halt}
  {
    if cfg.enabled {
      VerdictOn(cfg, NoteForcedStop(w));
    }
  }

  // ---------------------------------------------------------------- turns with few failures

  function FailedCalls(batches: seq<Batch>): nat
  {
    if batches == [] then 0 else multiset(batches[0].outcomes)[true] + FailedCalls(batches[1..])
  }

  /** Even if all the failures still to come fell into one window, neither detector would fire. */
  ghost predicate FewFailures(cfg: Config, w: OutcomeWindow, failures: nat)
  {
    && |w.recent| <= cfg.windowSize && 0 <= w.totalCalls
    && multiset(w.recent)[true] + failures < cfg.windowFailureThreshold
    && (w.totalFailures + failures) as real < cfg.cumulativeMinCalls as real * cfg.cumulativeFailureRatio
  }

  lemma LatestFailures(a: seq<bool>, b: seq<bool>, n: nat)
    ensures multiset(Latest(a + b, n))[true] <= multiset(a)[true] + multiset(b)[true]
    ensures |Latest(a + b, n)| <= n
  {
    var dropped, kept := (a + b)[..Max(0, |a + b| - n)], Latest(a + b, n);
    assert a + b == dropped + kept;
    assert multiset(a)[true] + multiset(b)[true] == multiset(a + b)[true] == multiset(dropped + kept)[true];
    assert multiset(dropped + kept)[true] == multiset(dropped)[true] + multiset(kept)[true];
  }

  /** More calls only need more failures for the same ratio. */
  lemma TooFewForVerdict(cfg: Config, recentFailures: nat, calls: int, failures: int, spent: bool)
    requires recentFailures < cfg.windowFailureThreshold && 0.0 <= cfg.cumulativeFailureRatio
    requires failures as real < cfg.cumulativeMinCalls as real * cfg.cumulativeFailureRatio
    ensures FailureVerdict(cfg, recentFailures, calls, failures, spent) == ALLOW
  {
    if calls >= cfg.cumulativeMinCalls {
      assert cfg.cumulativeMinCalls as real * cfg.cumulativeFailureRatio <= calls as real * cfg.cumulativeFailureRatio;
    }
  }

  lemma FewFailuresAreAllowed(cfg: Config, w: OutcomeWindow, outcomes: seq<bool>, rest: nat)
    requires cfg.enabled && 1 <= cfg.windowSize && 0.0 <= cfg.cumulativeFailureRatio
    requires FewFailures(cfg, w, multiset(outcomes)[true] + rest)
    ensures EvaluateWindow(cfg, NoteOutcomes(cfg, w, outcomes)) == ALLOW
    ensures FewFailures(cfg, NoteOutcomes(cfg, w, outcomes), rest)
  {
    hide NoteOutcomes, Latest, EvaluateWindow, FailureVerdict;
    WindowIsLatest(cfg, w, outcomes);
    VerdictOnOutcomes(cfg, w, outcomes);
    LatestFailures(w.recent, outcomes, cfg.windowSize);
    var failures := w.totalFailures + multiset(outcomes)[true];
    assert failures as real <= (failures + rest) as real;
    TooFewForVerdict(cfg, multiset(Latest(w.recent + outcomes, cfg.windowSize))[true], w.totalCalls + |outcomes|,
      failures, w.forcedStops > 0 || w.reflections >= cfg.maxReflections);
  }

  lemma QuietWindow(cfg: Config, t: Turn)
    requires cfg.enabled && EvaluateWindow(cfg, t.window) == ALLOW
    ensures PhaseDecision(cfg, t) == EvaluateStagnation(cfg, t.progress)
    ensures PhaseDecision(cfg, t).action != Halt ==> AfterPhase(cfg, t) == t.(progress :=
      if EvaluateStagnation(cfg, t.progress).action == Warn then NoteStagnationReflection(t.progress) else t.progress)
  {
    StrictestOfTwo(EvaluateWindow(cfg, t.window), EvaluateStagnation(cfg, t.progress));
    hide Strictest, EvaluateWindow;
  }

  /** A turn with few failures, a run of successes for instance, is never reflected on and never
      halted for failing, however long it is. */
  lemma {:induction false} FewFailuresNeverIntervene(cfg: Config, t: Turn, batches: seq<Batch>)
    requires cfg.enabled && 1 <= cfg.windowSize && 0.0 <= cfg.cumulativeFailureRatio
    requires FewFailures(cfg, t.window, FailedCalls(batches))
    ensures var end := RunTurn(cfg, t, batches);
      end.failureReflections == 0 && end.haltedFor in {NoReason, StagnationExhausted}
    decreases |batches|
  {
    hide PhaseDecision, AfterPhase, NoteOutcomes, NoteIteration, FewFailures, EvaluateWindow;
    if batches != [] {
      FewFailuresAreAllowed(cfg, t.window, batches[0].outcomes, FailedCalls(batches[1..]));
      var noted := NoteBatch(cfg, t, batches[0]);
      QuietWindow(cfg, noted);
      if PhaseDecision(cfg, noted).action != Halt {
        FewFailuresNeverIntervene(cfg, AfterPhase(cfg, noted), batches[1..]);
      }
    }
  }

  lemma {:induction false} NoFailedCalls(batches: seq<Batch>)
    requires forall b <- batches :: true !in b.outcomes
    ensures FailedCalls(batches) == 0
  {
    if batches != [] {
      NoFailedCalls(batches[1..]);
    }
  }

  /** In particular a fresh turn whose calls all succeed. */
  lemma SuccessfulTurnIsLeftAlone(cfg: Config, p: Progress, batches: seq<Batch>)
    requires cfg.enabled && 1 <= cfg.windowSize && 1 <= cfg.windowFailureThreshold
    requires 1 <= cfg.cumulativeMinCalls && 0.0 < cfg.cumulativeFailureRatio
    requires forall b <- batches :: true !in b.outcomes
    ensures var end := RunTurn(cfg, Turn(FRESH_WINDOW, p), batches);
      end.failureReflections == 0 && end.haltedFor in {NoReason, StagnationExhausted}
  {
    NoFailedCalls(batches);
    FewFailuresNeverIntervene(cfg, Turn(FRESH_WINDOW, p), batches);
  }

  // ---------------------------------------------------------------- productive iterations

  /** The tracker after some iterations of a fresh turn. */
  function Iterated(cfg: Config, batches: seq<Batch>): Progress
  {
    if batches == [] then FRESH_PROGRESS
    else
      var b := batches[|batches| - 1];
      NoteIteration(cfg, Iterated(cfg, batches[..|batches| - 1]), b.calls, b.digest, b.mutated)
  }

  predicate IsWait(tool: string) { tool == "check_subagent" || tool == "list_subagents" }

  predicate OnlyWaits(b: Batch)
  {
    b.calls != [] && forall c <- b.calls :: IsWait(c.0)
  }

  /** Some iteration made a call with this key that is not a mere wait. */
  ghost predicate Made(batches: seq<Batch>, key: string)
  {
    exists i, c :: 0 <= i < |batches| && c in batches[i].calls && !IsWait(c.0) && Key(c.0, c.1) == key
  }

  /** The assistant text of the last iteration that had one and did not only wait. */
  function LastText(batches: seq<Batch>): string
  {
    if batches == [] then ""
    else
      var b := batches[|batches| - 1];
      if !OnlyWaits(b) && b.digest.Some? then b.digest.value else LastText(batches[..|batches| - 1])
  }

  lemma {:induction false} SeenIffMade(cfg: Config, batches: seq<Batch>, key: string)
    requires cfg.enabled
    ensures key in Iterated(cfg, batches).seen <==> Made(batches, key)
  {
    if batches != [] {
      var before, b := batches[..|batches| - 1], batches[|batches| - 1];
      SeenIffMade(cfg, before, key);
      assert forall i :: 0 <= i < |before| ==> before[i] == batches[i];
      if Made(batches, key) && !Made(before, key) {
        var i, c :| 0 <= i < |batches| && c in batches[i].calls && !IsWait(c.0) && Key(c.0, c.1) == key;
        assert key in CallKeys(b.calls);
      }
    }
  }

  lemma {:induction false} LastTextKept(cfg: Config, batches: seq<Batch>)
    requires cfg.enabled
    ensures Iterated(cfg, batches).lastDigest == LastText(batches)
  {
    if batches != [] {
      LastTextKept(cfg, batches[..|batches| - 1]);
    }
  }

  /** What counts as progress: a file mutation, or a call that no earlier iteration made,
      unless the assistant repeats its last text word for word. Waiting changes nothing. */
  lemma ProductiveIff(cfg: Config, batches: seq<Batch>, b: Batch)
    requires cfg.enabled
    ensures
      var news := exists c <- b.calls :: !IsWait(c.0) && !Made(batches, Key(c.0, c.1));
      Iterated(cfg, batches + [b]).stagnant ==
        if OnlyWaits(b) then Iterated(cfg, batches).stagnant
        else if b.mutated || (news && b.digest != Some(LastText(batches))) then 0
        else Iterated(cfg, batches).stagnant + 1
  {
    assert (batches + [b])[..|batches|] == batches;
    var p := Iterated(cfg, batches);
    forall c | c in b.calls ensures Key(c.0, c.1) in p.seen <==> Made(batches, Key(c.0, c.1)) {
      SeenIffMade(cfg, batches, Key(c.0, c.1));
    }
    LastTextKept(cfg, batches);
    assert Neutral(b.calls) <==> OnlyWaits(b);
    hide Iterated, Made, LastText;
    if c :| c in b.calls && c.0 !in WAIT_TOOLS && Key(c.0, c.1) !in p.seen {
      assert Key(c.0, c.1) in CallKeys(b.calls);
    }
  }

  // ---------------------------------------------------------------- stagnant turns

  /** The iteration at which an unproductive turn is halted: the first one at or past the
      warning threshold that either reaches the blocking threshold or finds the stagnation
      budget spent. */
  function StagnationPatience(cfg: Config, p: Progress): int
  {
    var first := Max(1, cfg.stagnationWarn - p.stagnant);
    Max(first, Min(cfg.stagnationBlock - p.stagnant, first + Max(0, cfg.maxReflections - p.reflections)))
  }

  predicate Unproductive(seen: set<string>, b: Batch)
  {
    !Neutral(b.calls) && !b.mutated && CallKeys(b.calls) <= seen
  }

  lemma UnproductiveStep(cfg: Config, p: Progress, b: Batch)
    requires cfg.enabled && Unproductive(p.seen, b)
    ensures var noted := NoteIteration(cfg, p, b.calls, b.digest, b.mutated);
      var d := EvaluateStagnation(cfg, noted);
      var after := if d.action == Warn then NoteStagnationReflection(noted) else noted;
      && noted.seen == p.seen && (d.action == Halt <==> StagnationPatience(cfg, p) == 1)
      && (d.action == Halt ==> d.reason == StagnationExhausted)
      && (d.action != Halt ==> StagnationPatience(cfg, after) == StagnationPatience(cfg, p) - 1)
  {
  }

  /** With few failures, a turn that only repeats calls already made is halted at exactly that
      iteration, for stagnation, and not before. */
  lemma {:induction false} StagnationAloneHaltsExactly(cfg: Config, t: Turn, batches: seq<Batch>)
    requires cfg.enabled && 1 <= cfg.windowSize && 0.0 <= cfg.cumulativeFailureRatio
    requires FewFailures(cfg, t.window, FailedCalls(batches))
    requires forall b <- batches :: Unproductive(t.progress.seen, b)
    ensures var end := RunTurn(cfg, t, batches);
      if |batches| >= StagnationPatience(cfg, t.progress)
      then end.haltedAt == Some(StagnationPatience(cfg, t.progress)) && end.haltedFor == StagnationExhausted
      else end.haltedAt == None && end.haltedFor == NoReason
    decreases |batches|
  {
    hide PhaseDecision, AfterPhase, NoteOutcomes, NoteIteration, FewFailures, EvaluateWindow, EvaluateStagnation,
      Unproductive;
    if batches == [] {
      assert StagnationPatience(cfg, t.progress) >= 1;
    } else {
      FewFailuresAreAllowed(cfg, t.window, batches[0].outcomes, FailedCalls(batches[1..]));
      UnproductiveStep(cfg, t.progress, batches[0]);
      var noted := NoteBatch(cfg, t, batches[0]);
      QuietWindow(cfg, noted);
      hide StagnationPatience;
      if PhaseDecision(cfg, noted).action != Halt {
        StagnationAloneHaltsExactly(cfg, AfterPhase(cfg, noted), batches[1..]);
      }
      PatienceIsPositive(cfg, AfterPhase(cfg, noted).progress);
    }
  }

  lemma PatienceIsPositive(cfg: Config, p: Progress)
    ensures StagnationPatience(cfg, p) >= 1
  {
  }

  /** A turn whose iterations all mutate a file or only wait is never stopped for stagnation. */
  lemma {:induction false} MutatingTurnNeverStagnates(cfg: Config, t: Turn, batches: seq<Batch>)
    requires cfg.enabled && t.progress.stagnant < cfg.stagnationWarn && 1 <= cfg.stagnationWarn
    requires forall b <- batches :: b.mutated || OnlyWaits(b)
    ensures var end := RunTurn(cfg, t, batches);
      end.stagnationReflections == 0 && end.haltedFor != StagnationExhausted
    decreases |batches|
  {
    hide NoteOutcomes, Strictest, EvaluateWindow;
    if batches != [] {
      var noted := NoteBatch(cfg, t, batches[0]);
      WindowCases(cfg, noted.window);
      StrictestOfTwo(EvaluateWindow(cfg, noted.window), EvaluateStagnation(cfg, noted.progress));
      PhaseEffect(cfg, noted);
      hide PhaseDecision, AfterPhase;
      if PhaseDecision(cfg, noted).action != Halt {
        MutatingTurnNeverStagnates(cfg, AfterPhase(cfg, noted), batches[1..]);
      }
    }
  }
}
