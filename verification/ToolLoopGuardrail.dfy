/** The guardrail engine with the mutable fields of the program, proved against the
    histories of GuardrailHistory.dfy and the policy of FailurePolicy.dfy. */
module ToolLoopGuardrail {
  import opened PyLists
  import opened GuardrailDecisions
  import opened GuardrailHistory
  import opened FailurePolicy
  import opened TurnVerdicts

  function Lookup(m: map<string, nat>, key: string): nat
  {
    if key in m then m[key] else 0
  }

  /** Append a blacklist entry unless present, trimming the list first when it is full. */
  function NoteMethod(methods: seq<string>, entry: string, cap: int): seq<string>
  {
    if entry in methods then methods
    else (if |methods| >= Max(1, cap) then TailSlice(methods, Max(1, cap) - 1) else methods) + [entry]
  }

  /** The list after some entries, starting from whatever list was installed. */
  function NoteMethods(start: seq<string>, entries: seq<string>, cap: int): seq<string>
  {
    if entries == [] then start
    else NoteMethod(NoteMethods(start, entries[..|entries| - 1], cap), entries[|entries| - 1], cap)
  }

  ghost predicate NoDuplicates(s: seq<string>)
  {
    forall i, j :: 0 <= i < j < |s| ==> s[i] != s[j]
  }

  lemma {:induction false} MethodsBounded(start: seq<string>, entries: seq<string>, cap: int)
    requires 2 <= cap
    ensures |NoteMethods(start, entries, cap)| <= Max(|start|, cap)
    ensures |NoteMethods(start, entries, cap)| <= cap || NoteMethods(start, entries, cap) == start
  {
    if entries != [] {
      MethodsBounded(start, entries[..|entries| - 1], cap);
    }
  }

  /** No entry is ever added twice, whatever list was installed. */
  lemma {:induction false} MethodsDistinct(start: seq<string>, entries: seq<string>, cap: int)
    requires NoDuplicates(start)
    ensures NoDuplicates(NoteMethods(start, entries, cap))
  {
    if entries != [] {
      MethodsDistinct(start, entries[..|entries| - 1], cap);
    }
  }

  lemma NoteOnLatest(s: seq<string>, e: string, cap: int)
    requires 2 <= cap && e !in s
    ensures NoteMethod(s[Max(0, |s| - cap)..], e, cap) == (s + [e])[Max(0, |s| + 1 - cap)..]
  {
  }

  lemma LastIsNew(start: seq<string>, before: seq<string>, e: string)
    requires NoDuplicates(start + (before + [e]))
    ensures start + (before + [e]) == start + before + [e]
    ensures e !in start + before && NoDuplicates(start + before)
  {
    var s, all := start + before, start + (before + [e]);
    assert all == s + [e];
    assert forall i :: 0 <= i < |s| ==> s[i] == all[i];
    assert all[|s|] == e;
  }

  lemma NoteLast(start: seq<string>, before: seq<string>, e: string, cap: int)
    ensures NoteMethods(start, before + [e], cap) == NoteMethod(NoteMethods(start, before, cap), e, cap)
  {
    assert (before + [e])[..|before|] == before;
  }

  /** From a cap of 2, the list holds the latest `cap` distinct entries, oldest first. */
  lemma {:induction false} LatestMethodsKept(start: seq<string>, entries: seq<string>, cap: int)
    requires 2 <= cap && |start| <= cap && NoDuplicates(start + entries)
    ensures NoteMethods(start, entries, cap) == (start + entries)[Max(0, |start + entries| - cap)..]
  {
    if entries == [] {
      assert start + entries == start;
    } else {
      var before, e := entries[..|entries| - 1], entries[|entries| - 1];
      assert entries == before + [e];
      hide NoteMethod, NoDuplicates, NoteMethods;
      LastIsNew(start, before, e);
      LatestMethodsKept(start, before, cap);
      NoteLast(start, before, e, cap);
      NoteOnLatest(start + before, e, cap);
    }
  }

  /** An entry already listed changes nothing, not even its place. */
  lemma ListedMethodIgnored(start: seq<string>, entries: seq<string>, e: string, cap: int)
    requires e in NoteMethods(start, entries, cap)
    ensures NoteMethods(start, entries + [e], cap) == NoteMethods(start, entries, cap)
  {
    assert (entries + [e])[..|entries|] == entries;
  }

  /** The blacklist entries that a series of results offers. */
  function EntriesOf(results: seq<Observation>): seq<string>
  {
    if results == [] then []
    else
      var last := results[|results| - 1];
      EntriesOf(results[..|results| - 1]) + if BreaksTool(last) && last.tool != "" then [last.entry] else []
  }

  lemma NoteOneEntry(start: seq<string>, results: seq<Observation>, o: Observation, cap: int)
    ensures NoteMethods(start, EntriesOf(results + [o]), cap) ==
      var before := NoteMethods(start, EntriesOf(results), cap);
      if BreaksTool(o) && o.tool != "" then NoteMethod(before, o.entry, cap) else before
  {
    assert (results + [o])[..|results|] == results;
    var entries := EntriesOf(results);
    assert (entries + [o.entry])[..|entries|] == entries;
    assert entries + [] == entries;
  }

  lemma NoEntries(start: seq<string>, cap: int)
    ensures NoteMethods(start, EntriesOf([]), cap) == start
  {
  }

  /** Series of entries add up, so what holds after any series holds after any series of batches. */
  lemma {:induction false} NoteMethodsConcat(start: seq<string>, a: seq<string>, b: seq<string>, cap: int)
    ensures NoteMethods(start, a + b, cap) == NoteMethods(NoteMethods(start, a, cap), b, cap)
  {
    if b == [] {
      assert a + b == a;
    } else {
      assert (a + b)[..|a + b| - 1] == a + b[..|b| - 1];
      NoteMethodsConcat(start, a, b[..|b| - 1], cap);
    }
  }

  lemma {:induction false} Unlisted(s: seq<string>) returns (e: string)
    ensures forall i :: 0 <= i < |s| ==> |s[i]| < |e|
  {
    if s == [] {
      e := "";
    } else {
      var shorter := Unlisted(s[..|s| - 1]);
      e := shorter + s[|s| - 1] + "x";
    }
  }

  /** From any installed list, the larger of its length and the configured cap bounds the list
      exactly when the cap is at least 2: with a cap of 1 the trimming slice `[-0:]` keeps the
      whole list, which grows for ever. */
  lemma BlacklistBoundedIff(start: seq<string>, cap: int)
    ensures (forall entries :: |NoteMethods(start, entries, cap)| <= Max(|start|, Max(1, cap))) <==> 2 <= cap
  {
    if 2 <= cap {
      forall entries ensures |NoteMethods(start, entries, cap)| <= Max(|start|, Max(1, cap)) {
        MethodsBounded(start, entries, cap);
      }
    } else {
      var a := Unlisted(start);
      var b := Unlisted(start + [a]);
      GrowsByTwo(start, a, b, cap);
      assert |NoteMethods(start, [a, b], cap)| == |start| + 2;
    }
  }

  lemma GrowsByTwo(start: seq<string>, a: string, b: string, cap: int)
    requires cap < 2 && a !in start && b !in start + [a]
    ensures NoteMethods(start, [a, b], cap) == start + [a, b]
  {
    assert [a, b][..1] == [a] && [a][..0] == [];
    assert NoteMethods(start, [a], cap) == NoteMethod(start, a, cap) == start + [a];
    assert NoteMethods(start, [a, b], cap) == NoteMethod(start + [a], b, cap) == start + [a] + [b];
  }

  /** Configured ceiling of a capped tool; 0 for every other tool. */
  function CapOf(cfg: Config, tool: string): int
  {
    if tool == "web_search" then cfg.maxWebSearches
    else if tool == "web_fetch" then cfg.maxWebFetches
    else if tool == "browser_navigate" then cfg.maxBrowserNavigations
    else if tool == "spawn" then cfg.maxDelegations
    else 0
  }

  /** One check: whether the call is admitted, and the counts afterwards. */
  function CapStep(cfg: Config, counts: map<string, nat>, tool: string): (bool, map<string, nat>)
  {
    var cap, count := CapOf(cfg, tool), Lookup(counts, tool);
    if cap <= 0 then (true, counts)
    else if count >= cap then (false, counts)
    else (true, counts[tool := count + 1])
  }

  /** How many calls of one tool a sequence of checks, of any tools, admits. */
  function AdmittedCalls(cfg: Config, counts: map<string, nat>, requests: seq<string>, tool: string): nat
    decreases requests
  {
    if requests == [] then 0
    else
      var step := CapStep(cfg, counts, requests[0]);
      (if requests[0] == tool && step.0 then 1 else 0) + AdmittedCalls(cfg, step.1, requests[1..], tool)
  }

  function RequestsOf(requests: seq<string>, tool: string): nat
  {
    if requests == [] then 0 else (if requests[0] == tool then 1 else 0) + RequestsOf(requests[1..], tool)
  }

  /** Among any sequence of checks, of a capped tool's calls exactly as many are admitted as were
      requested, up to what is left of its cap; a cap of 0 or less never refuses. */
  lemma {:induction false} CapIsHard(cfg: Config, counts: map<string, nat>, requests: seq<string>, tool: string)
    ensures AdmittedCalls(cfg, counts, requests, tool) ==
      var cap := CapOf(cfg, tool);
      if 0 < cap then Min(RequestsOf(requests, tool), Max(0, cap - Lookup(counts, tool)))
        else RequestsOf(requests, tool)
    decreases requests
  {
    if requests != [] {
      CapIsHard(cfg, CapStep(cfg, counts, requests[0]).1, requests[1..], tool);
      hide CapOf;
    }
  }

  /** The ceilings of a fresh turn, tool by tool; no other tool is ever refused. */
  lemma TurnCeilings(cfg: Config, requests: seq<string>, tool: string)
    ensures
      var admitted, requested := AdmittedCalls(cfg, map[], requests, tool), RequestsOf(requests, tool);
      && (tool == "web_search" && 0 < cfg.maxWebSearches ==> admitted == Min(requested, cfg.maxWebSearches))
      && (tool == "web_fetch" && 0 < cfg.maxWebFetches ==> admitted == Min(requested, cfg.maxWebFetches))
      && (tool == "browser_navigate" && 0 < cfg.maxBrowserNavigations ==>
            admitted == Min(requested, cfg.maxBrowserNavigations))
      && (tool == "spawn" && 0 < cfg.maxDelegations ==> admitted == Min(requested, cfg.maxDelegations))
      && (tool !in {"web_search", "web_fetch", "browser_navigate", "spawn"} ==> admitted == requested)
  {
    CapIsHard(cfg, map[], requests, tool);
  }

  // What each group of fields means after the history h.

  ghost predicate ExactMatches(counts: map<string, nat>, h: Trace)
  {
    forall key :: Lookup(counts, key) == ExactCount(h, key)
  }

  ghost predicate StreaksMatch(cfg: Config, streaks: map<string, nat>, blocked: set<string>, warned: set<string>,
      h: Trace)
  {
    && (forall tool :: tool != "" ==> Lookup(streaks, tool) == Streak(h, tool))
    && blocked == BlockedTools(cfg, h)
    && warned == WarnedTools(cfg, h)
  }

  ghost predicate RepeatsMatch(cfg: Config, lastKey: string, count: nat, tiers: set<int>, h: Trace)
  {
    lastKey == LastKey(h) && count == RepeatCount(h) && tiers == TiersPassed(cfg, count)
  }

  ghost predicate NoProgressMatches(cfg: Config, runs: map<string, (string, nat)>, h: Trace)
  {
    forall key :: NoProgressRun(cfg, h, key) == if key in runs then Some(runs[key]) else None
  }

  ghost predicate SignaturesMatch(cfg: Config, blocked: set<string>, warned: set<string>, h: Trace)
  {
    blocked == BlockedSigs(cfg, h) && warned == WarnedSigs(cfg, h)
  }

  class ToolCallGuardrail {
    const config: Config
    var recentFailures: seq<bool>
    var exactFailureCounts: map<string, nat>
    var toolStreaks: map<string, nat>
    var noProgress: map<string, (string, nat)>
    var warnedSignatures: set<string>
    var blockedSignatures: set<string>
    var blockedTools: set<string>
    var toolsWarned: set<string>
    var failedMethods: seq<string>
    var reflectionCount: int
    var forcedStopCount: int
    var turnCallCounts: map<string, nat>
    var totalCalls: int
    var totalFailures: int
    var seenSignatures: set<string>
    var stagnantIterations: nat
    var lastAssistantHash: string
    var stagnationReflections: int
    var lastCallSignature: string
    var repeatCallCount: nat
    var repeatCallsWarned: set<int>

    /** The observations since the last reset. */
    ghost var trace: Trace

    ghost predicate Valid()
      reads this
    {
      && ExactMatches(exactFailureCounts, trace)
      && StreaksMatch(config, toolStreaks, blockedTools, toolsWarned, trace)
      && RepeatsMatch(config, lastCallSignature, repeatCallCount, repeatCallsWarned, trace)
      && NoProgressMatches(config, noProgress, trace)
      && SignaturesMatch(config, blockedSignatures, warnedSignatures, trace)
    }

    ghost function Window(): OutcomeWindow
      reads this
    {
      OutcomeWindow(recentFailures, totalCalls, totalFailures, reflectionCount, forcedStopCount)
    }

    ghost function TurnProgress(): Progress
      reads this
    {
      Progress(seenSignatures, stagnantIterations, lastAssistantHash, stagnationReflections)
    }

    ghost function TurnState(): Turn
      reads this
    {
      Turn(Window(), TurnProgress())
    }

    constructor (config: Config)
      ensures Valid() && this.config == config && trace == Fresh
      ensures TurnState() == Turn(FRESH_WINDOW, FRESH_PROGRESS) && failedMethods == [] && turnCallCounts == map[]
    {
      this.config := config;
      recentFailures, totalCalls, totalFailures, reflectionCount, forcedStopCount := [], 0, 0, 0, 0;
      exactFailureCounts, toolStreaks, noProgress := map[], map[], map[];
      warnedSignatures, blockedSignatures, blockedTools, toolsWarned := {}, {}, {}, {};
      failedMethods, turnCallCounts := [], map[];
      seenSignatures, stagnantIterations, lastAssistantHash, stagnationReflections := {}, 0, "", 0;
      lastCallSignature, repeatCallCount, repeatCallsWarned := "", 0, {};
      trace := Fresh;
    }

    /** Clear the per-turn counters; the reflection and forced-stop budgets and the blacklist
        survive. */
    method ResetTurnLocal()
      modifies this
      ensures Valid() && trace == Fresh && turnCallCounts == map[]
      ensures Window() == FRESH_WINDOW.(reflections := old(reflectionCount), forcedStops := old(forcedStopCount))
      ensures TurnProgress() == FRESH_PROGRESS && failedMethods == old(failedMethods)
    {
      hide ExactMatches, StreaksMatch, RepeatsMatch, NoProgressMatches, SignaturesMatch;
      FreshMatches(config);
      ClearFailureCounters();
      ClearSignatureSets();
      ClearProgress();
      trace := Fresh;
    }

    /** Restore the budgets and the blacklist that a session carries from loop to loop. */
    method LoadPersisted(reflections: int, forcedStops: int, methods: seq<string>)
      modifies this`reflectionCount, this`forcedStopCount, this`failedMethods
      ensures old(Valid()) ==> Valid()
      ensures failedMethods == methods
      ensures Window() == old(Window()).(reflections := reflections, forcedStops := forcedStops)
    {
      hide ExactMatches, StreaksMatch, RepeatsMatch, NoProgressMatches, SignaturesMatch;
      reflectionCount, forcedStopCount := reflections, forcedStops;
      failedMethods := methods;
    }

    method ClearFailureCounters()
      modifies this`recentFailures, this`totalCalls, this`totalFailures,
        this`exactFailureCounts, this`toolStreaks, this`noProgress, this`turnCallCounts
      ensures recentFailures == [] && totalCalls == 0 && totalFailures == 0 && turnCallCounts == map[]
      ensures exactFailureCounts == map[] && toolStreaks == map[] && noProgress == map[]
    {
      recentFailures, totalCalls, totalFailures := [], 0, 0;
      exactFailureCounts, toolStreaks, noProgress, turnCallCounts := map[], map[], map[], map[];
    }

    method ClearSignatureSets()
      modifies this`warnedSignatures, this`blockedSignatures, this`blockedTools, this`toolsWarned
      ensures warnedSignatures == {} && blockedSignatures == {} && blockedTools == {} && toolsWarned == {}
    {
      warnedSignatures, blockedSignatures, blockedTools, toolsWarned := {}, {}, {}, {};
    }

    method ClearProgress()
      modifies this`seenSignatures, this`stagnantIterations, this`lastAssistantHash, this`stagnationReflections,
        this`lastCallSignature, this`repeatCallCount, this`repeatCallsWarned
      ensures TurnProgress() == FRESH_PROGRESS
      ensures lastCallSignature == "" && repeatCallCount == 0 && repeatCallsWarned == {}
    {
      seenSignatures, stagnantIterations, lastAssistantHash, stagnationReflections := {}, 0, "", 0;
      lastCallSignature, repeatCallCount, repeatCallsWarned := "", 0, {};
    }

    /** Full reset for a new user turn. */
    method ResetForTurn()
      modifies this
      ensures Valid() && trace == Fresh && failedMethods == [] && turnCallCounts == map[]
      ensures TurnState() == Turn(FRESH_WINDOW, FRESH_PROGRESS)
    {
      hide ExactMatches, StreaksMatch, RepeatsMatch, NoProgressMatches, SignaturesMatch;
      ResetTurnLocal();
      reflectionCount, forcedStopCount, failedMethods := 0, 0, [];
    }

    /** Ingest one tool observation: every dictionary keeps meaning what its history says, and
        the verdict is the one the history prescribes. */
    method Observe(o: Observation) returns (d: Decision)
      requires Valid()
      modifies this
      ensures Valid() && trace == if config.enabled then Seen(old(trace), o) else old(trace)
      ensures d == ObserveDecision(config, old(trace), o)
      ensures Window() == if config.enabled then NoteOutcome(config, old(Window()), o.failed) else old(Window())
      ensures failedMethods == if config.enabled && o.failed && !o.denied && o.tool != ""
        then NoteMethod(old(failedMethods), o.entry, config.failedMethodsCap) else old(failedMethods)
      ensures TurnProgress() == old(TurnProgress()) && turnCallCounts == old(turnCallCounts)
    {
      hide Valid, ObserveDecision, NoteMethod, NoteOutcome, ExactMatches, StreaksMatch, RepeatsMatch,
        NoProgressMatches, SignaturesMatch;
      if !config.enabled {
        DisabledAllows(config, trace, o);
        return ALLOW;
      }
      NoteWindow(o.failed);
      if o.failed && o.tool != "" && !o.denied {
        NoteFailedMethod(o.entry);
      }
      d := RunDetectors(o);
    }

    /** The per-call detectors, in the program's order. */
    method RunDetectors(o: Observation) returns (d: Decision)
      requires Valid() && config.enabled
      modifies this`exactFailureCounts, this`warnedSignatures, this`blockedSignatures, this`toolStreaks,
        this`blockedTools, this`toolsWarned, this`lastCallSignature, this`repeatCallCount, this`repeatCallsWarned,
        this`noProgress, this`trace
      ensures Valid() && trace == Seen(old(trace), o)
      ensures d == ObserveDecision(config, old(trace), o)
    {
      hide ExactDecision, StreakDecision, RepeatDecision, NoProgressDecision, Strictest,
        ExactMatches, StreaksMatch, RepeatsMatch, NoProgressMatches, SignaturesMatch;
      var exact := ObserveExactFailure(o);
      var streak := ObserveToolStreak(o);
      var repeated := ObserveRepeatCall(o);
      if o.failed {
        FailureKeepsNoProgress(config, noProgress, trace, o);
        d := Strictest([exact, streak, repeated]);
      } else {
        var stuck := ObserveNoProgress(o);
        d := Strictest([exact, streak, repeated, stuck]);
      }
      trace := Seen(trace, o);
    }

    method NoteWindow(failed: bool)
      modifies this`totalCalls, this`totalFailures, this`recentFailures
      ensures old(Valid()) ==> Valid()
      ensures Window() == NoteOutcome(config, old(Window()), failed)
    {
      hide ExactMatches, StreaksMatch, RepeatsMatch, NoProgressMatches, SignaturesMatch;
      totalCalls := totalCalls + 1;
      if failed {
        totalFailures := totalFailures + 1;
      }
      recentFailures := recentFailures + [failed];
      if |recentFailures| > config.windowSize {
        recentFailures := TailSlice(recentFailures, config.windowSize);
      }
    }

    method ObserveExactFailure(o: Observation) returns (d: Decision)
      requires ExactMatches(exactFailureCounts, trace)
        && SignaturesMatch(config, blockedSignatures, warnedSignatures, trace)
      modifies this`exactFailureCounts, this`warnedSignatures, this`blockedSignatures
      ensures d == ExactDecision(config, trace, o) && ExactMatches(exactFailureCounts, Seen(trace, o))
      ensures SignaturesMatch(config, blockedSignatures, warnedSignatures, if o.failed then Seen(trace, o) else trace)
    {
      if !HasKey(o) {
        return ALLOW;
      }
      var key := Key(o.tool, o.sig);
      if !o.failed {
        exactFailureCounts := map k | k in exactFailureCounts && !(o.tool + ":" <= k) :: exactFailureCounts[k];
        return ALLOW;
      }
      var count := Lookup(exactFailureCounts, key) + 1;
      exactFailureCounts := exactFailureCounts[key := count];
      if count >= config.exactFailureBlock {
        blockedSignatures := blockedSignatures + {key};
        return Decision(Block, ExactFailureBlock, o.tool, o.sig, count);
      }
      if count >= config.exactFailureWarn && key !in warnedSignatures {
        warnedSignatures := warnedSignatures + {key};
        return Decision(Warn, ExactFailure, o.tool, o.sig, count);
      }
      d := ALLOW;
    }

    method ObserveToolStreak(o: Observation) returns (d: Decision)
      requires StreaksMatch(config, toolStreaks, blockedTools, toolsWarned, trace)
      modifies this`toolStreaks, this`blockedTools, this`toolsWarned
      ensures d == StreakDecision(config, trace, o)
        && StreaksMatch(config, toolStreaks, blockedTools, toolsWarned, Seen(trace, o))
    {
      if o.tool == "" {
        return ALLOW;
      }
      if !BreaksTool(o) {
        toolStreaks := toolStreaks[o.tool := 0];
        return ALLOW;
      }
      var streak := Lookup(toolStreaks, o.tool) + 1;
      toolStreaks := toolStreaks[o.tool := streak];
      if streak >= config.toolStreakBlock {
        blockedTools := blockedTools + {o.tool};
        return Decision(Block, ToolStreakBlock, o.tool, "", streak);
      }
      if streak >= config.toolStreakWarn && o.tool !in toolsWarned {
        toolsWarned := toolsWarned + {o.tool};
        return Decision(Warn, ToolStreak, o.tool, "", streak);
      }
      d := ALLOW;
    }

    method ObserveRepeatCall(o: Observation) returns (d: Decision)
      requires RepeatsMatch(config, lastCallSignature, repeatCallCount, repeatCallsWarned, trace)
      modifies this`lastCallSignature, this`repeatCallCount, this`repeatCallsWarned
      ensures d == RepeatDecision(config, trace, o)
        && RepeatsMatch(config, lastCallSignature, repeatCallCount, repeatCallsWarned, Seen(trace, o))
    {
      if !HasKey(o) {
        return ALLOW;
      }
      var key := Key(o.tool, o.sig);
      if key != lastCallSignature {
        lastCallSignature, repeatCallCount, repeatCallsWarned := key, 1, {};
        return ALLOW;
      }
      CallRunStarted(trace);
      repeatCallCount := repeatCallCount + 1;
      var count := repeatCallCount;
      if count !in config.repeatTiers || count in repeatCallsWarned {
        return ALLOW;
      }
      repeatCallsWarned := repeatCallsWarned + {count};
      d := Decision(Warn, RepeatCall, o.tool, o.sig, count);
    }

    method ObserveNoProgress(o: Observation) returns (d: Decision)
      requires !o.failed && NoProgressMatches(config, noProgress, trace)
        && SignaturesMatch(config, blockedSignatures, warnedSignatures, trace)
      modifies this`noProgress, this`blockedSignatures, this`warnedSignatures
      ensures d == NoProgressDecision(config, trace, o)
      ensures NoProgressMatches(config, noProgress, Seen(trace, o))
        && SignaturesMatch(config, blockedSignatures, warnedSignatures, Seen(trace, o))
    {
      if o.tool !in config.idempotentTools || o.normSig == "" {
        return ALLOW;
      }
      var key := Key(o.tool, o.normSig);
      if key !in noProgress || noProgress[key].0 != o.resultSig {
        noProgress := noProgress[key := (o.resultSig, 1)];
        return ALLOW;
      }
      var count := noProgress[key].1 + 1;
      noProgress := noProgress[key := (o.resultSig, count)];
      if count >= config.noProgressBlock {
        blockedSignatures := blockedSignatures + {key};
        return Decision(Block, NoProgressBlock, o.tool, o.normSig, count);
      }
      if count >= config.noProgressWarn && key !in warnedSignatures {
        warnedSignatures := warnedSignatures + {key};
        return Decision(Warn, NoProgress, o.tool, o.normSig, count);
      }
      d := ALLOW;
    }

    method NoteFailedMethod(entry: string)
      modifies this`failedMethods
      ensures old(Valid()) ==> Valid()
      ensures failedMethods == NoteMethod(old(failedMethods), entry, config.failedMethodsCap)
    {
      hide ExactMatches, StreaksMatch, RepeatsMatch, NoProgressMatches, SignaturesMatch;
      if entry in failedMethods {
        return;
      }
      var cap := Max(1, config.failedMethodsCap);
      if |failedMethods| >= cap {
        failedMethods := TailSlice(failedMethods, cap - 1);
      }
      failedMethods := failedMethods + [entry];
    }

    /** A call is refused exactly when its tool or one of its signatures was blocked. */
    method IsCallBlocked(tool: string, args: Option<(string, string)>) returns (blocked: bool)
      requires Valid()
      ensures blocked == CallBlocked(config, trace, tool, args)
    {
      if tool in blockedTools {
        return true;
      }
      if args.None? {
        return false;
      }
      blocked := Key(tool, args.value.0) in blockedSignatures || Key(tool, args.value.1) in blockedSignatures;
    }

    /** Per-turn ceiling: the n-th admitted call of a capped tool has n <= cap, refused calls
        are not counted, and the ceiling holds even when the detectors are disabled. */
    method CheckLoopCap(tool: string) returns (d: Decision)
      modifies this`turnCallCounts
      ensures d.action == Block <==> 0 < CapOf(config, tool) <= Lookup(old(turnCallCounts), tool)
      ensures (d.action == Allow, turnCallCounts) == CapStep(config, old(turnCallCounts), tool)
      ensures d.action in {Allow, Block}
    {
      var cap := CapOf(config, tool);
      if cap <= 0 {
        return ALLOW;
      }
      var count := Lookup(turnCallCounts, tool);
      if count >= cap {
        return Decision(Block, LoopCap, tool, "", count);
      }
      turnCallCounts := turnCallCounts[tool := count + 1];
      d := ALLOW;
    }

    /** Feed one iteration's batch into the stagnation tracker. */
    method NoteToolIteration(calls: seq<(string, string)>, digest: Option<string>, mutated: bool)
      modifies this`seenSignatures, this`stagnantIterations, this`lastAssistantHash
      ensures TurnProgress() == NoteIteration(config, old(TurnProgress()), calls, digest, mutated)
      ensures old(Valid()) ==> Valid()
    {
      hide ExactMatches, StreaksMatch, RepeatsMatch, NoProgressMatches, SignaturesMatch;
      if !config.enabled {
        return;
      }
      if calls != [] && forall c <- calls :: c.0 in WAIT_TOOLS {
        return;
      }
      var newInfo := ScanSignatures(calls);
      newInfo := newInfo || mutated;
      if digest.Some? {
        if digest.value == lastAssistantHash {
          newInfo := mutated;
        }
        lastAssistantHash := digest.value;
      }
      stagnantIterations := if newInfo then 0 else stagnantIterations + 1;
    }

    /** Remember the batch's signatures; report whether one of them is new. */
    method ScanSignatures(calls: seq<(string, string)>) returns (anyNew: bool)
      modifies this`seenSignatures
      ensures seenSignatures == old(seenSignatures) + CallKeys(calls)
      ensures anyNew == !(CallKeys(calls) <= old(seenSignatures))
      ensures old(Valid()) ==> Valid()
    {
      hide ExactMatches, StreaksMatch, RepeatsMatch, NoProgressMatches, SignaturesMatch;
      anyNew := false;
      for i := 0 to |calls|
        invariant seenSignatures == old(seenSignatures) + CallKeys(calls[..i])
        invariant anyNew == !(CallKeys(calls[..i]) <= old(seenSignatures))
      {
        var (name, sig) := calls[i];
        assert calls[..i + 1] == calls[..i] + [calls[i]];
        if name in WAIT_TOOLS {
          assert CallKeys(calls[..i + 1]) == CallKeys(calls[..i]);
          continue;
        }
        assert CallKeys(calls[..i + 1]) == CallKeys(calls[..i]) + {Key(name, sig)};
        if Key(name, sig) !in seenSignatures {
          seenSignatures := seenSignatures + {Key(name, sig)};
          anyNew := true;
        }
      }
      assert calls[..|calls|] == calls;
    }

    /** The runner phase after a tool batch: act on the stricter of the two verdicts. */
    method CheckFailureLoop() returns (d: Decision)
      modifies this`recentFailures, this`totalCalls, this`totalFailures,
        this`reflectionCount, this`forcedStopCount, this`stagnationReflections
      ensures d == PhaseDecision(config, old(TurnState()))
      ensures config.enabled && stagnantIterations < config.stagnationWarn ==> d == FailureVerdict(config,
        multiset(old(recentFailures))[true], old(totalCalls), old(totalFailures),
        old(forcedStopCount) > 0 || old(reflectionCount) >= config.maxReflections)
      ensures TurnState() == AfterPhase(config, old(TurnState()))
      ensures old(Valid()) ==> Valid()
    {
      if config.enabled && stagnantIterations < config.stagnationWarn {
        UnlessStagnant(config, TurnState());
      }
      hide FailureVerdict, EvaluateWindow, EvaluateStagnation, Strictest;
      hide ExactMatches, StreaksMatch, RepeatsMatch, NoProgressMatches, SignaturesMatch;
      d := Strictest([EvaluateFailureWindow(), StagnationVerdict()]);
      if d.action == Allow {
        return;
      }
      if d.action == Halt {
        NoteForcedStop();
      } else if d.reason in {Stagnation, StagnationExhausted} {
        NoteStagnationReflection();
      } else {
        NoteReflection();
      }
    }

    method NoteReflection()
      modifies this`recentFailures, this`totalCalls, this`totalFailures, this`reflectionCount
      ensures Window() == FailurePolicy.NoteReflection(config, old(Window()))
      ensures old(Valid()) ==> Valid()
    {
      hide ExactMatches, StreaksMatch, RepeatsMatch, NoProgressMatches, SignaturesMatch;
      reflectionCount := reflectionCount + 1;
      if recentFailures != [] {
        recentFailures := TailSlice(recentFailures, Max(1, config.windowSize / 2));
      }
      totalCalls, totalFailures := 0, 0;
    }

    method NoteStagnationReflection()
      modifies this`stagnationReflections
      ensures TurnProgress() == FailurePolicy.NoteStagnationReflection(old(TurnProgress()))
      ensures old(Valid()) ==> Valid()
    {
      stagnationReflections := stagnationReflections + 1;
    }

    method NoteForcedStop()
      modifies this`forcedStopCount
      ensures Window() == FailurePolicy.NoteForcedStop(old(Window()))
      ensures old(Valid()) ==> Valid()
    {
      forcedStopCount := forcedStopCount + 1;
    }

    function EvaluateFailureWindow(): Decision
      reads this
    {
      EvaluateWindow(config, OutcomeWindow(recentFailures, totalCalls, totalFailures, reflectionCount, forcedStopCount))
    }

    function StagnationVerdict(): Decision
      reads this
    {
      EvaluateStagnation(config, Progress(seenSignatures, stagnantIterations, lastAssistantHash, stagnationReflections))
    }

    method ObserveAll(results: seq<Observation>)
      requires Valid() && config.enabled
      modifies this
      ensures Valid()
      ensures Window() == NoteOutcomes(config, old(Window()),
        seq(|results|, i requires 0 <= i < |results| => results[i].failed))
      ensures TurnProgress() == old(TurnProgress())
      ensures failedMethods == NoteMethods(old(failedMethods), EntriesOf(results), config.failedMethodsCap)
    {
      hide Valid, ObserveDecision, NoteOutcome, NoteMethod, NoteMethods, EntriesOf;
      ghost var outcomes := seq(|results|, i requires 0 <= i < |results| => results[i].failed);
      NoEntries(failedMethods, config.failedMethodsCap);
      assert results[..0] == [] && results[..|results|] == results && outcomes[..|results|] == outcomes;
      for i := 0 to |results|
        invariant Valid()
        invariant Window() == NoteOutcomes(config, old(Window()), outcomes[..i])
        invariant TurnProgress() == old(TurnProgress())
        invariant failedMethods == NoteMethods(old(failedMethods), EntriesOf(results[..i]), config.failedMethodsCap)
      {
        assert results[..i + 1] == results[..i] + [results[i]];
        assert outcomes[..i + 1] == outcomes[..i] + [results[i].failed];
        NoteOneEntry(old(failedMethods), results[..i], results[i], config.failedMethodsCap);
        NoteOneMore(config, old(Window()), outcomes[..i], results[i].failed);
        var verdict := Observe(results[i]);
      }
    }

    /** One iteration of the tool loop: observe every result, note the batch, check the loop.
        The engine's counters follow FailurePolicy.NoteBatch and AfterPhase, so the bounds
        proved for RunTurn are bounds on this engine. */
    method RunBatch(results: seq<Observation>, calls: seq<(string, string)>, digest: Option<string>, mutated: bool)
      returns (d: Decision)
      requires Valid() && config.enabled
      modifies this
      ensures Valid()
      ensures var noted := NoteBatch(config, old(TurnState()),
          Batch(seq(|results|, i requires 0 <= i < |results| => results[i].failed), calls, digest, mutated));
        d == PhaseDecision(config, noted) && TurnState() == AfterPhase(config, noted)
      ensures failedMethods == NoteMethods(old(failedMethods), EntriesOf(results), config.failedMethodsCap)
    {
      hide Valid, NoteOutcomes, NoteIteration, PhaseDecision, AfterPhase, NoteMethods, EntriesOf;
      ObserveAll(results);
      NoteToolIteration(calls, digest, mutated);
      d := CheckFailureLoop();
    }
  }

  lemma FreshMatches(cfg: Config)
    ensures ExactMatches(map[], Fresh) && StreaksMatch(cfg, map[], {}, {}, Fresh) && RepeatsMatch(cfg, "", 0, {}, Fresh)
    ensures NoProgressMatches(cfg, map[], Fresh) && SignaturesMatch(cfg, {}, {}, Fresh)
  {
  }

  lemma DisabledAllows(cfg: Config, h: Trace, o: Observation)
    requires !cfg.enabled
    ensures ObserveDecision(cfg, h, o) == ALLOW
  {
  }

  lemma FailureKeepsNoProgress(cfg: Config, runs: map<string, (string, nat)>, h: Trace, o: Observation)
    requires o.failed && NoProgressMatches(cfg, runs, h)
    ensures NoProgressMatches(cfg, runs, Seen(h, o))
  {
  }

  lemma {:induction false} CallRunStarted(h: Trace)
    ensures LastKey(h) != "" ==> RepeatCount(h) >= 1
    ensures LastKey(h) == "" ==> RepeatCount(h) == 0
  {
    if h.Seen? {
      CallRunStarted(h.before);
    }
  }

  lemma {:induction false} NoteOneMore(cfg: Config, w: OutcomeWindow, outcomes: seq<bool>, failed: bool)
    ensures NoteOutcomes(cfg, w, outcomes + [failed]) == NoteOutcome(cfg, NoteOutcomes(cfg, w, outcomes), failed)
    decreases outcomes
  {
    if outcomes == [] {
      assert [failed][1..] == [];
    } else {
      assert (outcomes + [failed])[1..] == outcomes[1..] + [failed];
      NoteOneMore(cfg, NoteOutcome(cfg, w, outcomes[0]), outcomes[1..], failed);
    }
  }
}
