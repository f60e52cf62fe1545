/** What the guardrail's per-call counters mean, as functions of the turn's observations.

    A Trace is the list of observations since the last reset, newest last. The engine
    never sees a trace: it keeps dictionaries and sets. ToolLoopGuardrail.dfy proves that
    those dictionaries always hold the values defined here. */
module GuardrailHistory {
  import opened PyLists
  import opened GuardrailDecisions

  /** One observed tool call. `sig` and `normSig` are the strict and the pagination-blind
      argument signatures ("" when the call has none), `entry` is its blacklist entry. */
  datatype Observation = Observation(
    tool: string, sig: string, normSig: string, resultSig: string,
    failed: bool, denied: bool, entry: string)

  datatype Trace = Fresh | Seen(before: Trace, last: Observation)

  ghost predicate IsPrefix(p: Trace, h: Trace)
  {
    p == h || (h.Seen? && IsPrefix(p, h.before))
  }

  function Key(tool: string, sig: string): string { tool + ":" + sig }

  predicate HasKey(o: Observation) { o.tool != "" && o.sig != "" }

  /** A guard refusal is a failure for the failure window, not for the tool's streak. */
  predicate BreaksTool(o: Observation) { o.failed && !o.denied }

  // ---------------------------------------------------------------- tool streaks

  function Streak(h: Trace, tool: string): nat
  {
    match h
    case Fresh => 0
    case Seen(before, o) =>
      if o.tool != tool then Streak(before, tool)
      else if BreaksTool(o) then Streak(before, tool) + 1
      else 0
  }

  function OfTool(h: Trace, tool: string): seq<Observation>
  {
    match h
    case Fresh => []
    case Seen(before, o) => OfTool(before, tool) + if o.tool == tool then [o] else []
  }

  /** A streak is the length of the longest all-broken suffix of the tool's own calls. */
  lemma {:induction false} StreakIsTrailingRun(h: Trace, tool: string)
    ensures var own, n := OfTool(h, tool), Streak(h, tool);
      && n <= |own|
      && (forall i :: |own| - n <= i < |own| ==> own[i].failed && !own[i].denied)
      && (n < |own| ==> !own[|own| - n - 1].failed || own[|own| - n - 1].denied)
  {
    if h.Seen? {
      StreakIsTrailingRun(h.before, tool);
    }
  }

  /** Tools the streak detector has blocked so far. */
  function BlockedTools(cfg: Config, h: Trace): set<string>
  {
    match h
    case Fresh => {}
    case Seen(before, o) =>
      BlockedTools(cfg, before) +
      if o.tool != "" && BreaksTool(o) && Streak(h, o.tool) >= cfg.toolStreakBlock then {o.tool} else {}
  }

  /** A tool is blocked exactly when one of its streaks in the turn reached the threshold (a
      threshold below one is reached by the first broken call). */
  lemma {:induction false} BlockedToolIff(cfg: Config, h: Trace, tool: string)
    ensures tool in BlockedTools(cfg, h) <==>
      tool != "" && exists p :: IsPrefix(p, h) && Streak(p, tool) >= Max(1, cfg.toolStreakBlock)
  {
    var block := Max(1, cfg.toolStreakBlock);
    match h {
      case Fresh =>
        assert forall p :: IsPrefix(p, h) ==> p == Fresh;
      case Seen(before, o) =>
        BlockedToolIff(cfg, before, tool);
        assert forall p :: IsPrefix(p, h) <==> p == h || IsPrefix(p, before);
        if tool in BlockedTools(cfg, before) {
          var p :| IsPrefix(p, before) && Streak(p, tool) >= block;
          assert IsPrefix(p, h);
        } else if tool != "" {
          assert IsPrefix(h, h) && IsPrefix(before, before);
          assert Streak(before, tool) < block;
          if o.tool == tool && BreaksTool(o) {
            assert tool in BlockedTools(cfg, h) <==> Streak(h, tool) >= block;
          } else {
            assert tool !in BlockedTools(cfg, h) && Streak(h, tool) < block;
          }
        }
    }
  }

  /** Tools that were warned: some streak passed the warning threshold below the block one. */
  function WarnedTools(cfg: Config, h: Trace): set<string>
  {
    match h
    case Fresh => {}
    case Seen(before, o) =>
      WarnedTools(cfg, before) +
      if o.tool != "" && BreaksTool(o) && cfg.toolStreakWarn <= Streak(h, o.tool) < cfg.toolStreakBlock
      then {o.tool} else {}
  }

  // ---------------------------------------------------------------- exact failures

  /** A success of the observation's tool, with a signature, forgets every key that starts
      with the tool's name and a colon. */
  predicate Clears(o: Observation, key: string)
  {
    HasKey(o) && !o.failed && o.tool + ":" <= key
  }

  predicate FailsWith(o: Observation, key: string)
  {
    HasKey(o) && o.failed && Key(o.tool, o.sig) == key
  }

  function ExactCount(h: Trace, key: string): nat
  {
    match h
    case Fresh => 0
    case Seen(before, o) =>
      if Clears(o, key) then 0
      else ExactCount(before, key) + if FailsWith(o, key) then 1 else 0
  }

  function Failures(os: seq<Observation>, key: string): nat
  {
    if os == [] then 0
    else Failures(os[..|os| - 1], key) + if FailsWith(os[|os| - 1], key) then 1 else 0
  }

  function Observations(h: Trace): seq<Observation>
  {
    match h
    case Fresh => []
    case Seen(before, o) => Observations(before) + [o]
  }

  /** The count is the number of failures with that key since the last clearing success. */
  lemma {:induction false} ExactCountSinceLastClear(h: Trace, key: string) returns (cut: nat)
    ensures var os := Observations(h);
      && cut <= |os|
      && (cut > 0 ==> Clears(os[cut - 1], key))
      && (forall i :: cut <= i < |os| ==> !Clears(os[i], key))
      && ExactCount(h, key) == Failures(os[cut..], key)
  {
    match h {
      case Fresh =>
        cut := 0;
      case Seen(before, o) =>
        if Clears(o, key) {
          cut := |Observations(h)|;
        } else {
          cut := ExactCountSinceLastClear(before, key);
          var os := Observations(before);
          assert Observations(h)[cut..] == os[cut..] + [o];
          assert (os[cut..] + [o])[..|os[cut..]|] == os[cut..];
        }
    }
  }

  /** The intended count: failures of exactly this tool and signature since that tool's
      own last success with a signature. */
  function PairCount(h: Trace, tool: string, sig: string): nat
  {
    match h
    case Fresh => 0
    case Seen(before, o) =>
      if o.tool == tool && HasKey(o) && !o.failed then 0
      else PairCount(before, tool, sig) + if o.tool == tool && HasKey(o) && o.failed && o.sig == sig then 1 else 0
  }

  ghost predicate Over(names: set<string>, h: Trace)
  {
    h.Seen? ==> h.last.tool in names && Over(names, h.before)
  }

  /** No tool name followed by a colon begins another tool name followed by a colon. */
  ghost predicate Unambiguous(names: set<string>)
  {
    forall a, b :: a in names && b in names && a != b ==> !(a + ":" <= b + ":")
  }

  ghost predicate CountsPairs(names: set<string>)
  {
    forall h, tool, sig :: Over(names, h) && tool in names && sig != "" ==>
      ExactCount(h, Key(tool, sig)) == PairCount(h, tool, sig)
  }

  lemma SharedStart(a: string, b: string, key: string)
    requires a + ":" <= key && b + ":" <= key
    ensures a + ":" <= b + ":" || b + ":" <= a + ":"
  {
    var x, y := a + ":", b + ":";
    if |x| <= |y| { assert x == y[..|x|]; } else { assert y == x[..|y|]; }
  }

  lemma KeyStart(tool: string, sig: string)
    ensures tool + ":" <= Key(tool, sig)
    ensures Key(tool, sig)[|tool| + 1..] == sig
  {
  }

  lemma {:induction false} CountsPairsFrom(names: set<string>, h: Trace, tool: string, sig: string)
    requires Unambiguous(names) && Over(names, h) && tool in names && sig != ""
    ensures ExactCount(h, Key(tool, sig)) == PairCount(h, tool, sig)
  {
    if h.Seen? {
      CountsPairsFrom(names, h.before, tool, sig);
      var o, key := h.last, Key(tool, sig);
      KeyStart(tool, sig);
      KeyStart(o.tool, o.sig);
      if o.tool + ":" <= key && o.tool != tool {
        SharedStart(o.tool, tool, key);
      }
      if Key(o.tool, o.sig) == key && o.tool == tool {
        assert o.sig == key[|tool| + 1..] == sig;
      }
    }
  }

  /** The colon-joined dictionary key counts (tool, signature) pairs for every history over
      a set of tool names if and only if the names are unambiguous. */
  lemma ExactCountsArePairCountsIff(names: set<string>)
    requires "" !in names
    ensures CountsPairs(names) <==> Unambiguous(names)
  {
    if Unambiguous(names) {
      forall h, tool, sig | Over(names, h) && tool in names && sig != ""
        ensures ExactCount(h, Key(tool, sig)) == PairCount(h, tool, sig)
      {
        CountsPairsFrom(names, h, tool, sig);
      }
    } else {
      var a, b :| a in names && b in names && a != b && a + ":" <= b + ":";
      var o := Observation(b, "x", "x", "", true, false, "");
      var h := Seen(Fresh, o);
      var key := Key(b, "x");
      KeyStart(b, "x");
      assert a + ":" <= key;
      var rest := key[|a| + 1..];
      assert Key(a, rest) == key;
      assert Over(names, h) && rest != "";
      assert FailsWith(o, key) && ExactCount(Fresh, key) == 0;
      assert ExactCount(h, Key(a, rest)) == 1;
      assert PairCount(h, a, rest) == 0;
    }
  }

  /** A failure of tool "a:b" with signature "c" is charged to tool "a" with signature "b:c". */
  lemma ColonCollision()
    ensures var h := Seen(Fresh, Observation("a:b", "c", "c", "", true, false, ""));
      ExactCount(h, Key("a", "b:c")) == 1 && PairCount(h, "a", "b:c") == 0
    ensures !CountsPairs({"a", "a:b"})
  {
    assert Key("a", "b:c") == Key("a:b", "c");
    assert ExactCount(Fresh, Key("a", "b:c")) == 0 && PairCount(Fresh, "a", "b:c") == 0;
    assert "a" + ":" <= "a:b" + ":";
    ExactCountsArePairCountsIff({"a", "a:b"});
  }

  // ---------------------------------------------------------------- no progress

  predicate Idempotent(cfg: Config, o: Observation)
  {
    !o.failed && o.tool in cfg.idempotentTools && o.normSig != ""
  }

  /** The last result seen under a normalised key and how often it came back in a row. */
  function NoProgressRun(cfg: Config, h: Trace, key: string): Option<(string, nat)>
  {
    match h
    case Fresh => None
    case Seen(before, o) =>
      var prev := NoProgressRun(cfg, before, key);
      if !Idempotent(cfg, o) || Key(o.tool, o.normSig) != key then prev
      else if prev.None? || prev.value.0 != o.resultSig then Some((o.resultSig, 1))
      else Some((o.resultSig, prev.value.1 + 1))
  }

  /** True when the last observation repeats the previous result of its normalised key. */
  predicate RepeatsResult(cfg: Config, h: Trace)
    requires h.Seen?
  {
    var prev := NoProgressRun(cfg, h.before, Key(h.last.tool, h.last.normSig));
    Idempotent(cfg, h.last) && prev.Some? && prev.value.0 == h.last.resultSig
  }

  function NoProgressCount(cfg: Config, h: Trace): nat
    requires h.Seen?
  {
    var run := NoProgressRun(cfg, h, Key(h.last.tool, h.last.normSig));
    if run.None? then 0 else run.value.1
  }

  // ---------------------------------------------------------------- blocked and warned signatures

  function BlockedSigs(cfg: Config, h: Trace): set<string>
  {
    match h
    case Fresh => {}
    case Seen(before, o) =>
      BlockedSigs(cfg, before)
      + (if HasKey(o) && o.failed && ExactCount(h, Key(o.tool, o.sig)) >= cfg.exactFailureBlock
         then {Key(o.tool, o.sig)} else {})
      + (if RepeatsResult(cfg, h) && NoProgressCount(cfg, h) >= cfg.noProgressBlock
         then {Key(o.tool, o.normSig)} else {})
  }

  function WarnedSigs(cfg: Config, h: Trace): set<string>
  {
    match h
    case Fresh => {}
    case Seen(before, o) =>
      WarnedSigs(cfg, before)
      + (if HasKey(o) && o.failed
            && cfg.exactFailureWarn <= ExactCount(h, Key(o.tool, o.sig)) < cfg.exactFailureBlock
         then {Key(o.tool, o.sig)} else {})
      + (if RepeatsResult(cfg, h) && cfg.noProgressWarn <= NoProgressCount(cfg, h) < cfg.noProgressBlock
         then {Key(o.tool, o.normSig)} else {})
  }

  predicate CallBlocked(cfg: Config, h: Trace, tool: string, args: Option<(string, string)>)
  {
    tool in BlockedTools(cfg, h) ||
    (args.Some? && (Key(tool, args.value.0) in BlockedSigs(cfg, h) || Key(tool, args.value.1) in BlockedSigs(cfg, h)))
  }

  /** A blocked call stays blocked, whatever is observed afterwards. */
  lemma {:induction false} BlockedStaysBlocked(cfg: Config, p: Trace, h: Trace, tool: string,
      args: Option<(string, string)>)
    requires IsPrefix(p, h) && CallBlocked(cfg, p, tool, args)
    ensures CallBlocked(cfg, h, tool, args)
  {
    if p != h {
      BlockedStaysBlocked(cfg, p, h.before, tool, args);
    }
  }

  /** A signature is blocked exactly when its failures or its identical results, counted at
      some observation of it, reached their threshold. */
  lemma {:induction false} BlockedSigIff(cfg: Config, h: Trace, key: string)
    ensures key in BlockedSigs(cfg, h) <==> exists p :: IsPrefix(p, h) && BlocksKey(cfg, p, key)
  {
    match h {
      case Fresh =>
        assert forall p :: IsPrefix(p, h) ==> p == Fresh;
      case Seen(before, o) =>
        BlockedSigIff(cfg, before, key);
        BlockedSigStep(cfg, before, o, key);
        assert forall p :: IsPrefix(p, h) <==> p == h || IsPrefix(p, before);
        if key in BlockedSigs(cfg, before) {
          var p :| IsPrefix(p, before) && BlocksKey(cfg, p, key);
          assert IsPrefix(p, h);
        } else if key in BlockedSigs(cfg, h) {
          assert IsPrefix(h, h) && BlocksKey(cfg, h, key);
        }
    }
  }

  lemma BlockedSigStep(cfg: Config, h: Trace, o: Observation, key: string)
    ensures key in BlockedSigs(cfg, Seen(h, o)) <==> key in BlockedSigs(cfg, h) || BlocksKey(cfg, Seen(h, o), key)
  {
  }

  ghost predicate BlocksKey(cfg: Config, p: Trace, key: string)
  {
    p.Seen? &&
    (|| (FailsWith(p.last, key) && ExactCount(p, key) >= cfg.exactFailureBlock)
     || (RepeatsResult(cfg, p) && Key(p.last.tool, p.last.normSig) == key
         && NoProgressCount(cfg, p) >= cfg.noProgressBlock))
  }

  // ---------------------------------------------------------------- repeated calls

  /** Key of the last call that has one; calls without a key do not interrupt a run. */
  function LastKey(h: Trace): string
  {
    match h
    case Fresh => ""
    case Seen(before, o) => if HasKey(o) then Key(o.tool, o.sig) else LastKey(before)
  }

  function RepeatCount(h: Trace): nat
  {
    match h
    case Fresh => 0
    case Seen(before, o) =>
      if !HasKey(o) then RepeatCount(before)
      else if Key(o.tool, o.sig) == LastKey(before) then RepeatCount(before) + 1
      else 1
  }

  /** Tiers already announced in the current run of identical calls. */
  function TiersPassed(cfg: Config, count: nat): set<int>
  {
    set c | c in cfg.repeatTiers && 2 <= c <= count
  }

  // ---------------------------------------------------------------- what one observation answers

  function ExactDecision(cfg: Config, h: Trace, o: Observation): Decision
  {
    var key := Key(o.tool, o.sig);
    var count := ExactCount(Seen(h, o), key);
    if !HasKey(o) || !o.failed then ALLOW
    else if count >= cfg.exactFailureBlock then Decision(Block, ExactFailureBlock, o.tool, o.sig, count)
    else if count >= cfg.exactFailureWarn && key !in WarnedSigs(cfg, h)
      then Decision(Warn, ExactFailure, o.tool, o.sig, count)
    else ALLOW
  }

  function StreakDecision(cfg: Config, h: Trace, o: Observation): Decision
  {
    var streak := Streak(Seen(h, o), o.tool);
    if o.tool == "" || !BreaksTool(o) then ALLOW
    else if streak >= cfg.toolStreakBlock then Decision(Block, ToolStreakBlock, o.tool, "", streak)
    else if streak >= cfg.toolStreakWarn && o.tool !in WarnedTools(cfg, h)
      then Decision(Warn, ToolStreak, o.tool, "", streak)
    else ALLOW
  }

  /** A reminder exactly when the run of identical calls reaches a tier. */
  function RepeatDecision(cfg: Config, h: Trace, o: Observation): Decision
  {
    var count := RepeatCount(Seen(h, o));
    if HasKey(o) && count >= 2 && count in cfg.repeatTiers then Decision(Warn, RepeatCall, o.tool, o.sig, count)
      else ALLOW
  }

  function NoProgressDecision(cfg: Config, h: Trace, o: Observation): Decision
  {
    var key := Key(o.tool, o.normSig);
    var count := NoProgressCount(cfg, Seen(h, o));
    if !RepeatsResult(cfg, Seen(h, o)) then ALLOW
    else if count >= cfg.noProgressBlock then Decision(Block, NoProgressBlock, o.tool, o.normSig, count)
    else if count >= cfg.noProgressWarn && key !in WarnedSigs(cfg, h)
      then Decision(Warn, NoProgress, o.tool, o.normSig, count)
    else ALLOW
  }

  function ObserveDecision(cfg: Config, h: Trace, o: Observation): Decision
  {
    if !cfg.enabled then ALLOW
    else if o.failed then
      Strictest([ExactDecision(cfg, h, o), StreakDecision(cfg, h, o), RepeatDecision(cfg, h, o)])
    else
      Strictest([ExactDecision(cfg, h, o), StreakDecision(cfg, h, o), RepeatDecision(cfg, h, o),
        NoProgressDecision(cfg, h, o)])
  }

  /** An observation never halts a turn, and it answers Block exactly when it puts its own
      tool, its own exact key or its own normalised key over a blocking threshold. After a
      Block the same call is refused. */
  lemma ObserveBlocksIff(cfg: Config, h: Trace, o: Observation)
    requires cfg.enabled
    ensures ObserveDecision(cfg, h, o).action != Halt
    ensures ObserveDecision(cfg, h, o).action == Block <==>
      || (o.tool != "" && BreaksTool(o) && Streak(Seen(h, o), o.tool) >= cfg.toolStreakBlock)
      || BlocksKey(cfg, Seen(h, o), Key(o.tool, o.sig))
      || BlocksKey(cfg, Seen(h, o), Key(o.tool, o.normSig))
    ensures ObserveDecision(cfg, h, o).action == Block ==>
      CallBlocked(cfg, Seen(h, o), o.tool, Some((o.sig, o.normSig)))
  {
    ObserveBlocksByPart(cfg, h, o);
    ExactBlocks(cfg, h, o);
    NoProgressBlocks(cfg, h, o);
    BlockedSigStep(cfg, h, o, Key(o.tool, o.sig));
    BlockedSigStep(cfg, h, o, Key(o.tool, o.normSig));
  }

  lemma ObserveBlocksByPart(cfg: Config, h: Trace, o: Observation)
    requires cfg.enabled
    ensures ObserveDecision(cfg, h, o).action != Halt
    ensures ObserveDecision(cfg, h, o).action == Block <==>
      || ExactDecision(cfg, h, o).action == Block
      || StreakDecision(cfg, h, o).action == Block
      || NoProgressDecision(cfg, h, o).action == Block
  {
    hide Strictest, ExactDecision, StreakDecision, RepeatDecision, NoProgressDecision;
    var e, s, r, n := ExactDecision(cfg, h, o), StreakDecision(cfg, h, o), RepeatDecision(cfg, h, o),
      NoProgressDecision(cfg, h, o);
    PartsNeverHalt(cfg, h, o);
    var ds := if o.failed then [e, s, r] else [e, s, r, n];
    assert ds[0] == e && ds[1] == s && ds[2] == r && (!o.failed ==> ds[3] == n);
    StrictestBlocks(ds);
  }

  lemma PartsNeverHalt(cfg: Config, h: Trace, o: Observation)
    ensures ExactDecision(cfg, h, o).action != Halt && StreakDecision(cfg, h, o).action != Halt
    ensures RepeatDecision(cfg, h, o).action in {Allow, Warn} && NoProgressDecision(cfg, h, o).action != Halt
    ensures o.failed ==> NoProgressDecision(cfg, h, o) == ALLOW
  {
  }

  lemma {:induction false} StrictestBlocks(ds: seq<Decision>)
    requires forall d <- ds :: d.action != Halt
    ensures Strictest(ds).action != Halt
    ensures Strictest(ds).action == Block <==> exists i :: 0 <= i < |ds| && ds[i].action == Block
  {
    if ds != [] {
      StrictestBlocks(ds[..|ds| - 1]);
    }
  }

  lemma ExactBlocks(cfg: Config, h: Trace, o: Observation)
    ensures ExactDecision(cfg, h, o).action == Block <==>
      FailsWith(o, Key(o.tool, o.sig)) && ExactCount(Seen(h, o), Key(o.tool, o.sig)) >= cfg.exactFailureBlock
  {
  }

  lemma NoProgressBlocks(cfg: Config, h: Trace, o: Observation)
    ensures NoProgressDecision(cfg, h, o).action == Block <==>
      RepeatsResult(cfg, Seen(h, o)) && NoProgressCount(cfg, Seen(h, o)) >= cfg.noProgressBlock
  {
  }

  /** A tool is warned about its streak at most once between resets. */
  lemma {:induction false} StreakWarnsOnce(cfg: Config, p: Trace, h: Trace, o: Observation, later: Observation)
    requires IsPrefix(Seen(p, o), h) && o.tool == later.tool
    requires StreakDecision(cfg, p, o).action == Warn
    ensures StreakDecision(cfg, h, later).action != Warn
  {
    WarnedToolsGrow(cfg, Seen(p, o), h);
  }

  lemma {:induction false} WarnedToolsGrow(cfg: Config, p: Trace, h: Trace)
    requires IsPrefix(p, h)
    ensures WarnedTools(cfg, p) <= WarnedTools(cfg, h)
  {
    if p != h {
      WarnedToolsGrow(cfg, p, h.before);
    }
  }
}
