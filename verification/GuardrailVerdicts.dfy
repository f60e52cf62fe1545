/** The per-call verdicts of the guardrail, told by the calls themselves: a run is the number
    of equal entries at the end of a list, and every warning, block and refusal is decided by
    the length of such a run or by a failure count. */
module GuardrailVerdicts {
  import opened PyLists
  import opened GuardrailDecisions
  import opened GuardrailHistory

  // ---------------------------------------------------------------- runs

  /** How many entries at the end of the list are equal to the last one. */
  function Run<T(==)>(s: seq<T>): nat
  {
    if |s| < 2 || s[|s| - 2] != s[|s| - 1] then Min(1, |s|) else Run(s[..|s| - 1]) + 1
  }

  lemma {:induction false} RunIsTrailing<T>(s: seq<T>)
    ensures var n := Run(s);
      && n <= |s| && (s != [] ==> 1 <= n)
      && (forall i :: |s| - n <= i < |s| ==> s[i] == s[|s| - 1])
      && (n < |s| ==> s[|s| - n - 1] != s[|s| - 1])
  {
    if |s| >= 2 && s[|s| - 2] == s[|s| - 1] {
      RunIsTrailing(s[..|s| - 1]);
    }
  }

  lemma RunGrows<T>(s: seq<T>, x: T)
    ensures Run(s + [x]) == if s != [] && s[|s| - 1] == x then Run(s) + 1 else 1
  {
    assert (s + [x])[..|s + [x]| - 1] == s;
  }

  /** The results of the idempotent calls with this normalised key. */
  function ResultsOf(cfg: Config, h: Trace, key: string): seq<string>
  {
    match h
    case Fresh => []
    case Seen(before, o) =>
      ResultsOf(cfg, before, key) + if Idempotent(cfg, o) && Key(o.tool, o.normSig) == key then [o.resultSig] else []
  }

  /** The engine's no-progress entry of a key is its last result and the run of it. */
  lemma {:induction false} NoProgressIsRun(cfg: Config, h: Trace, key: string)
    ensures var results := ResultsOf(cfg, h, key);
      NoProgressRun(cfg, h, key) == if results == [] then None else Some((results[|results| - 1], Run(results)))
  {
    if h.Seen? {
      NoProgressIsRun(cfg, h.before, key);
      RunGrows(ResultsOf(cfg, h.before, key), h.last.resultSig);
      assert ResultsOf(cfg, h.before, key) + [] == ResultsOf(cfg, h.before, key);
    }
  }

  /** The keys of the calls that have one. */
  function KeysOf(h: Trace): seq<string>
  {
    match h
    case Fresh => []
    case Seen(before, o) => KeysOf(before) + if HasKey(o) then [Key(o.tool, o.sig)] else []
  }

  lemma {:induction false} RepeatCountIsRun(h: Trace)
    ensures RepeatCount(h) == Run(KeysOf(h))
    ensures LastKey(h) == if KeysOf(h) == [] then "" else KeysOf(h)[|KeysOf(h)| - 1]
  {
    if h.Seen? {
      RepeatCountIsRun(h.before);
      RunGrows(KeysOf(h.before), Key(h.last.tool, h.last.sig));
      assert KeysOf(h.before) + [] == KeysOf(h.before);
      assert Key(h.last.tool, h.last.sig) != "";
    }
  }

  /** A reminder comes exactly when the run of equal calls reaches a configured length. */
  lemma RepeatRemindsIff(cfg: Config, h: Trace, o: Observation)
    ensures var run := Run(KeysOf(Seen(h, o)));
      RepeatDecision(cfg, h, o) ==
        if o.tool != "" && o.sig != "" && 2 <= run && run in cfg.repeatTiers
        then Decision(Warn, RepeatCall, o.tool, o.sig, run) else ALLOW
  {
    RepeatCountIsRun(Seen(h, o));
  }

  // ---------------------------------------------------------------- what was warned about

  /** A tool was warned exactly when one of its streaks lay between the two thresholds. */
  lemma {:induction false} WarnedToolIff(cfg: Config, h: Trace, tool: string)
    ensures tool in WarnedTools(cfg, h) <==>
      tool != "" && exists p :: IsPrefix(p, h) && Max(1, cfg.toolStreakWarn) <= Streak(p, tool) < cfg.toolStreakBlock
  {
    var warn, block := Max(1, cfg.toolStreakWarn), cfg.toolStreakBlock;
    match h {
      case Fresh =>
        assert forall p :: IsPrefix(p, h) ==> p == Fresh;
      case Seen(before, o) =>
        WarnedToolIff(cfg, before, tool);
        assert forall p :: IsPrefix(p, h) <==> p == h || IsPrefix(p, before);
        if tool in WarnedTools(cfg, before) {
          var p :| IsPrefix(p, before) && warn <= Streak(p, tool) < block;
          assert IsPrefix(p, h);
        } else if tool != "" {
          assert IsPrefix(h, h) && IsPrefix(before, before);
          assert !(warn <= Streak(before, tool) < block);
          if o.tool == tool && BreaksTool(o) {
            assert tool in WarnedTools(cfg, h) <==> warn <= Streak(h, tool) < block;
          } else {
            assert tool !in WarnedTools(cfg, h) && !(warn <= Streak(h, tool) < block);
          }
        }
    }
  }

  ghost predicate WarnsKey(cfg: Config, p: Trace, key: string)
  {
    p.Seen? &&
    (|| (FailsWith(p.last, key) && cfg.exactFailureWarn <= ExactCount(p, key) < cfg.exactFailureBlock)
     || (Key(p.last.tool, p.last.normSig) == key && Idempotent(cfg, p.last) && 2 <= Run(ResultsOf(cfg, p, key))
         && cfg.noProgressWarn <= Run(ResultsOf(cfg, p, key)) < cfg.noProgressBlock))
  }

  lemma RepeatsResultIff(cfg: Config, h: Trace)
    requires h.Seen?
    ensures var key := Key(h.last.tool, h.last.normSig);
      && (RepeatsResult(cfg, h) <==> Idempotent(cfg, h.last) && 2 <= Run(ResultsOf(cfg, h, key)))
      && NoProgressCount(cfg, h) == Run(ResultsOf(cfg, h, key))
  {
    var key := Key(h.last.tool, h.last.normSig);
    NoProgressIsRun(cfg, h, key);
    NoProgressIsRun(cfg, h.before, key);
    RunGrows(ResultsOf(cfg, h.before, key), h.last.resultSig);
    RunIsTrailing(ResultsOf(cfg, h.before, key));
    RunIsTrailing(ResultsOf(cfg, h, key));
  }

  lemma WarnedSigStep(cfg: Config, h: Trace, o: Observation, key: string)
    ensures key in WarnedSigs(cfg, Seen(h, o)) <==> key in WarnedSigs(cfg, h) || WarnsKey(cfg, Seen(h, o), key)
  {
    RepeatsResultIff(cfg, Seen(h, o));
  }

  /** A key was warned about exactly when, at some call with it, its failure count or its run of
      equal results lay between the two thresholds. */
  lemma {:induction false} WarnedSigIff(cfg: Config, h: Trace, key: string)
    ensures key in WarnedSigs(cfg, h) <==> exists p :: IsPrefix(p, h) && WarnsKey(cfg, p, key)
  {
    match h {
      case Fresh =>
        assert forall p :: IsPrefix(p, h) ==> p == Fresh;
      case Seen(before, o) =>
        WarnedSigIff(cfg, before, key);
        WarnedSigStep(cfg, before, o, key);
        assert forall p :: IsPrefix(p, h) <==> p == h || IsPrefix(p, before);
        if key in WarnedSigs(cfg, before) {
          var p :| IsPrefix(p, before) && WarnsKey(cfg, p, key);
          assert IsPrefix(p, h);
        } else if key in WarnedSigs(cfg, h) {
          assert IsPrefix(h, h) && WarnsKey(cfg, h, key);
        }
    }
  }

  // ---------------------------------------------------------------- refusals

  ghost predicate OverThreshold(cfg: Config, p: Trace, key: string)
  {
    p.Seen? &&
    (|| (FailsWith(p.last, key) && ExactCount(p, key) >= cfg.exactFailureBlock)
     || (Key(p.last.tool, p.last.normSig) == key && Idempotent(cfg, p.last) && 2 <= Run(ResultsOf(cfg, p, key))
         && Run(ResultsOf(cfg, p, key)) >= cfg.noProgressBlock))
  }

  lemma OverThresholdIff(cfg: Config, p: Trace, key: string)
    ensures OverThreshold(cfg, p, key) <==> BlocksKey(cfg, p, key)
  {
    if p.Seen? {
      RepeatsResultIff(cfg, p);
    }
  }

  lemma KeyRefusedIff(cfg: Config, h: Trace, key: string)
    ensures key in BlockedSigs(cfg, h) <==> exists p :: IsPrefix(p, h) && OverThreshold(cfg, p, key)
  {
    hide BlockedSigs, BlocksKey, OverThreshold, IsPrefix;
    BlockedSigIff(cfg, h, key);
    forall p ensures OverThreshold(cfg, p, key) <==> BlocksKey(cfg, p, key) {
      OverThresholdIff(cfg, p, key);
    }
  }

  /** A call is refused exactly when at some earlier point its tool had broken as often in a
      row as the threshold says, or one of its two keys had failed or returned the same result
      that often. */
  lemma CallRefusedIff(cfg: Config, h: Trace, tool: string, args: Option<(string, string)>)
    ensures CallBlocked(cfg, h, tool, args) <==>
      || (tool != "" && exists p :: IsPrefix(p, h) && Streak(p, tool) >= Max(1, cfg.toolStreakBlock))
      || (args.Some? && exists p :: IsPrefix(p, h) && OverThreshold(cfg, p, Key(tool, args.value.0)))
      || (args.Some? && exists p :: IsPrefix(p, h) && OverThreshold(cfg, p, Key(tool, args.value.1)))
  {
    hide BlockedSigs, BlockedTools, OverThreshold, IsPrefix;
    BlockedToolIff(cfg, h, tool);
    if args.Some? {
      KeyRefusedIff(cfg, h, Key(tool, args.value.0));
      KeyRefusedIff(cfg, h, Key(tool, args.value.1));
    }
  }

  // ---------------------------------------------------------------- the verdict on one call

  /** The first verdict that blocks, or else the first that warns. */
  function FirstOf(e: Decision, s: Decision, r: Decision, n: Decision): Decision
  {
    if e.action == Block then e else if s.action == Block then s else if n.action == Block then n
    else if e.action == Warn then e else if s.action == Warn then s else if r.action == Warn then r
    else n
  }

  function Stricter(a: Decision, b: Decision): Decision { if Rank(b.action) > Rank(a.action) then b else a }

  lemma StrictestStep(ds: seq<Decision>, before: seq<Decision>, d: Decision)
    requires ds != [] && ds[..|ds| - 1] == before && ds[|ds| - 1] == d
    ensures Strictest(ds) == Stricter(Strictest(before), d)
  {
  }

  lemma Fronts<T>(e: T, s: T, r: T, n: T)
    ensures [e][..0] == [] && [e, s][..1] == [e] && [e, s, r][..2] == [e, s] && [e, s, r, n][..3] == [e, s, r]
  {
  }

  lemma StrictestChain(e: Decision, s: Decision, r: Decision, n: Decision)
    ensures Strictest([e, s, r]) == Stricter(Stricter(Stricter(ALLOW, e), s), r)
    ensures Strictest([e, s, r, n]) == Stricter(Strictest([e, s, r]), n)
  {
    Fronts(e, s, r, n);
    assert Strictest([]) == ALLOW;
    hide Stricter, Strictest;
    StrictestStep([e], [], e);
    StrictestStep([e, s], [e], s);
    StrictestStep([e, s, r], [e, s], r);
    StrictestStep([e, s, r, n], [e, s, r], n);
  }

  lemma FirstIsStrictest(e: Decision, s: Decision, r: Decision, n: Decision)
    requires e.action == Allow ==> e == ALLOW
    requires n.action == Allow ==> n == ALLOW
    requires e.action != Halt && s.action != Halt && r.action in {Allow, Warn} && n.action != Halt
    ensures Stricter(Stricter(Stricter(Stricter(ALLOW, e), s), r), n) == FirstOf(e, s, r, n)
    ensures n == ALLOW ==> Stricter(Stricter(Stricter(ALLOW, e), s), r) == FirstOf(e, s, r, n)
  {
  }

  lemma FirstOfParts(cfg: Config, h: Trace, o: Observation)
    requires cfg.enabled
    ensures ObserveDecision(cfg, h, o) == FirstOf(ExactDecision(cfg, h, o), StreakDecision(cfg, h, o),
      RepeatDecision(cfg, h, o), NoProgressDecision(cfg, h, o))
    ensures NoProgressDecision(cfg, h, o).action == Allow ==> NoProgressDecision(cfg, h, o) == ALLOW
  {
    PartsNeverHalt(cfg, h, o);
    assert ExactDecision(cfg, h, o).action == Allow ==> ExactDecision(cfg, h, o) == ALLOW;
    assert NoProgressDecision(cfg, h, o).action == Allow ==> NoProgressDecision(cfg, h, o) == ALLOW;
    hide Strictest, Stricter, FirstOf, ExactDecision, StreakDecision, RepeatDecision, NoProgressDecision;
    StrictestChain(ExactDecision(cfg, h, o), StreakDecision(cfg, h, o), RepeatDecision(cfg, h, o),
      NoProgressDecision(cfg, h, o));
    FirstIsStrictest(ExactDecision(cfg, h, o), StreakDecision(cfg, h, o), RepeatDecision(cfg, h, o),
      NoProgressDecision(cfg, h, o));
  }

  /** What the engine answers to one call, in the order in which the detectors are preferred:
      blocks before warnings, and each warning given once. */
  lemma ObserveVerdict(cfg: Config, h: Trace, o: Observation)
    requires cfg.enabled
    ensures
      var key, loose, now := Key(o.tool, o.sig), Key(o.tool, o.normSig), Seen(h, o);
      var broken := o.tool != "" && o.failed && !o.denied;
      var failing := o.tool != "" && o.sig != "" && o.failed;
      var same := Run(ResultsOf(cfg, now, loose));
      var stuck := !o.failed && o.tool in cfg.idempotentTools && o.normSig != "" && 2 <= same;
      var repeats := Run(KeysOf(now));
      ObserveDecision(cfg, h, o) ==
        if failing && ExactCount(now, key) >= cfg.exactFailureBlock then
          Decision(Block, ExactFailureBlock, o.tool, o.sig, ExactCount(now, key))
        else if broken && Streak(now, o.tool) >= cfg.toolStreakBlock then
          Decision(Block, ToolStreakBlock, o.tool, "", Streak(now, o.tool))
        else if stuck && same >= cfg.noProgressBlock then
          Decision(Block, NoProgressBlock, o.tool, o.normSig, same)
        else if failing && ExactCount(now, key) >= cfg.exactFailureWarn && key !in WarnedSigs(cfg, h) then
          Decision(Warn, ExactFailure, o.tool, o.sig, ExactCount(now, key))
        else if broken && Streak(now, o.tool) >= cfg.toolStreakWarn && o.tool !in WarnedTools(cfg, h) then
          Decision(Warn, ToolStreak, o.tool, "", Streak(now, o.tool))
        else if o.tool != "" && o.sig != "" && 2 <= repeats && repeats in cfg.repeatTiers then
          Decision(Warn, RepeatCall, o.tool, o.sig, repeats)
        else if stuck && same >= cfg.noProgressWarn && loose !in WarnedSigs(cfg, h) then
          Decision(Warn, NoProgress, o.tool, o.normSig, same)
        else ALLOW
  {
    hide ObserveDecision, ExactCount, Streak, WarnedSigs, WarnedTools, Run, ResultsOf, KeysOf, RepeatDecision,
      NoProgressCount, RepeatsResult;
    FirstOfParts(cfg, h, o);
    RepeatsResultIff(cfg, Seen(h, o));
    RepeatRemindsIff(cfg, h, o);
  }
}
