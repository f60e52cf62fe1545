/** Accepting a final answer only when the turn's effects were verified, or saying that they were not. */
module CompletionGate {
  import opened PyLists
  import Shell = ShellClassify

  // ---------------------------------------------------------------- what a tool call means

  /** A tool call that returned: `argument` is the path or the command, `failed` the result's verdict. */
  datatype Call = Call(tool: string, argument: string, failed: bool)

  predicate MutatingTool(name: string) { name in ["write_file", "edit_file", "delete_file"] }

  predicate ShellTool(name: string) { name in ["exec", "shell", "run_command"] }

  /** Lower case, for the characters whose lower case is an ASCII letter: A to Z and the Kelvin
      sign. No other character can make an extension equal to one of the names below. */
  function LowerChar(c: char): char
  {
    if 'A' <= c <= 'Z' then ((c as int) + 32) as char else if c == '\U{212A}' then 'k' else c
  }

  /** Which characters become a given small letter: itself, its capital, and for k the Kelvin sign. */
  lemma LowerIff(c: char, small: char)
    requires 'a' <= small <= 'z'
    ensures LowerChar(c) == small <==>
      c == small || (c as int) + 32 == small as int || (small == 'k' && c == '\U{212A}')
  {
  }

  function Lower(s: string): string
  {
    seq(|s|, i requires 0 <= i < |s| => LowerChar(s[i]))
  }

  /** What follows the last dot of the path, with the dot, in lower case. */
  function Extension(path: string): string
  {
    if '.' !in path then "" else "." + Lower(AfterLastDot(path))
  }

  function AfterLastDot(path: string): (r: string)
    requires '.' in path
    ensures |r| < |path| && '.' !in r && path == path[..|path| - |r| - 1] + "." + r
  {
    if '.' in path[1..] then AfterLastDot(path[1..]) else path[1..]
  }

  predicate IsDocument(path: string)
  {
    Extension(path) in [".md", ".markdown", ".mdx", ".rst", ".txt", ".license", ".licence"]
  }

  predicate IsLastDot(path: string, k: nat)
  {
    k < |path| && path[k] == '.' && '.' !in path[k + 1..]
  }

  lemma LastDotIs(path: string, k: nat)
    requires '.' in path
    ensures IsLastDot(path, |path| - |AfterLastDot(path)| - 1)
    ensures IsLastDot(path, k) ==> path[k + 1..] == AfterLastDot(path)
  {
    var r := AfterLastDot(path);
    var base := path[..|path| - |r| - 1];
    hide AfterLastDot;
    DotSplits(path, base, r, k);
  }

  lemma DotSplits(path: string, base: string, r: string, k: nat)
    requires path == base + "." + r && '.' !in r
    ensures IsLastDot(path, |base|) && path[|base| + 1..] == r
    ensures IsLastDot(path, k) ==> k == |base|
  {
    if k < |base| {
      assert path[k + 1..][|base| - k - 1] == '.';
    } else if |base| < k < |path| {
      assert path[k] == r[k - |base| - 1];
    }
  }

  /** A document by what follows the last dot of its path, in any case. */
  lemma DocumentIff(path: string)
    ensures IsDocument(path) <==> exists k: nat ::
      IsLastDot(path, k) && Lower(path[k + 1..]) in ["md", "markdown", "mdx", "rst", "txt", "license", "licence"]
  {
    hide Lower;
    if '.' in path {
      DottedIn(Lower(AfterLastDot(path)));
      forall k: nat ensures IsLastDot(path, k) ==> path[k + 1..] == AfterLastDot(path) {
        LastDotIs(path, k);
      }
      LastDotIs(path, 0);
      hide IsLastDot;
    }
  }

  lemma DottedIn(name: string)
    ensures "." + name in [".md", ".markdown", ".mdx", ".rst", ".txt", ".license", ".licence"] <==>
      name in ["md", "markdown", "mdx", "rst", "txt", "license", "licence"]
  {
    assert ("." + name)[1..] == name;
    assert "." + "md" == ".md" && "." + "markdown" == ".markdown" && "." + "mdx" == ".mdx" && "." + "rst" == ".rst";
    assert "." + "txt" == ".txt" && "." + "license" == ".license" && "." + "licence" == ".licence";
    assert ".md"[1..] == "md" && ".markdown"[1..] == "markdown" && ".mdx"[1..] == "mdx" && ".rst"[1..] == "rst";
    assert ".txt"[1..] == "txt" && ".license"[1..] == "license" && ".licence"[1..] == "licence";
  }

  predicate IsMutation(c: Call)
  {
    MutatingTool(c.tool) && !c.failed
  }

  /** A successful change of something other than a document. */
  predicate NeedsTest(c: Call)
  {
    IsMutation(c) && !IsDocument(c.argument)
  }

  predicate Acts(c: Call)
  {
    ShellTool(c.tool) && Shell.Classify(c.argument) == Shell.Action
  }

  /** Confirms an earlier action. */
  predicate Confirms(c: Call)
  {
    c.tool == "run_code" || (ShellTool(c.tool) && Shell.Classify(c.argument) == Shell.Verify)
  }

  /** Counts as a test of earlier (or later) changes. */
  predicate Tests(c: Call)
  {
    Confirms(c) || (ShellTool(c.tool) && Shell.Classify(c.argument) == Shell.Neutral)
  }

  // ---------------------------------------------------------------- what a history means

  ghost predicate Mutated(cs: seq<Call>) { exists i :: 0 <= i < |cs| && NeedsTest(cs[i]) }

  ghost predicate Tested(cs: seq<Call>) { exists i :: 0 <= i < |cs| && Tests(cs[i]) }

  /** The last command that acted or confirmed was one that acted. */
  ghost predicate Pending(cs: seq<Call>)
  {
    exists i :: 0 <= i < |cs| && Acts(cs[i]) && forall j :: i < j < |cs| ==> !Confirms(cs[j])
  }

  lemma MutatedStep(cs: seq<Call>, c: Call)
    ensures Mutated(cs + [c]) <==> Mutated(cs) || NeedsTest(c)
  {
    hide NeedsTest;
    var next := cs + [c];
    assert next[|cs|] == c;
    if Mutated(cs) { var i :| 0 <= i < |cs| && NeedsTest(cs[i]); assert NeedsTest(next[i]); }
  }

  lemma TestedStep(cs: seq<Call>, c: Call)
    ensures Tested(cs + [c]) <==> Tested(cs) || Tests(c)
  {
    hide Tests;
    var next := cs + [c];
    assert next[|cs|] == c;
    if Tested(cs) { var i :| 0 <= i < |cs| && Tests(cs[i]); assert Tests(next[i]); }
  }

  lemma ActingIsNotConfirming(c: Call)
    ensures Acts(c) ==> !Confirms(c)
  {
    ShellIsNotCode(c.tool);
  }

  lemma PendingStep(cs: seq<Call>, c: Call)
    ensures Pending(cs + [c]) <==> Acts(c) || (Pending(cs) && !Confirms(c))
  {
    ActingIsNotConfirming(c);
    hide Acts, Confirms;
    var next := cs + [c];
    assert next[|cs|] == c;
    if Pending(cs) && !Confirms(c) {
      var i :| 0 <= i < |cs| && Acts(cs[i]) && forall j :: i < j < |cs| ==> !Confirms(cs[j]);
      assert Acts(next[i]);
    }
    if Pending(next) && !Acts(c) {
      var i :| 0 <= i < |next| && Acts(next[i]) && forall j :: i < j < |next| ==> !Confirms(next[j]);
      assert i < |cs| && Acts(cs[i]);
      assert forall j :: i < j < |cs| ==> cs[j] == next[j];
    }
  }

  lemma ShellIsNotCode(name: string)
    ensures ShellTool(name) ==> name != "run_code"
    ensures MutatingTool(name) ==> !ShellTool(name) && name != "run_code"
  {
    assert |"run_code"| == 8 && |"run_command"| == 11 && |"delete_file"| == 11;
    assert "run_command"[0] == 'r' && "delete_file"[0] == 'd';
  }

  // ---------------------------------------------------------------- the gate

  datatype Config = Config(enabled: bool, maxNudges: int, surfaces: set<string>, forMutations: bool, forEffects: bool)

  datatype Verdict = Allow | Nudge(reason: string) | Footer(reason: string)

  const UNTESTED := "file mutations without verification"
  const UNCONFIRMED := "pending side effects without verification"

  /** Neither requirement is met by the history as the two flags summarise it. */
  function Reason(cfg: Config, mutations: bool, done: bool, pending: bool): string
  {
    var m := if cfg.forMutations && mutations && !done then UNTESTED else "";
    var e := if cfg.forEffects && pending then UNCONFIRMED else "";
    if m == "" then e else if e == "" then m else m + "; " + e
  }

  predicate Unmet(cfg: Config, surface: string, mutations: bool, done: bool, pending: bool)
  {
    cfg.enabled && surface in cfg.surfaces
    && ((cfg.forMutations && mutations && !done) || (cfg.forEffects && pending))
  }

  function Evaluate(
    cfg: Config, surface: string, mutations: bool, done: bool, pending: bool, nudges: int, claims: bool): (v: Verdict)
    ensures v.Allow? <==> !Unmet(cfg, surface, mutations, done, pending)
    ensures v.Nudge? ==> nudges < cfg.maxNudges && claims
    ensures v.Footer? ==> nudges >= cfg.maxNudges || !claims
    ensures !v.Allow? ==> v.reason != ""
  {
    if !cfg.enabled || surface !in cfg.surfaces then Allow
    else
      var reason := Reason(cfg, mutations, done, pending);
      if reason == "" then Allow
      else if nudges < cfg.maxNudges && claims then Nudge(reason)
      else Footer(reason)
  }

  // ---------------------------------------------------------------- whole turns

  /** Why the model's answer ended: complete, cut off by the output limit, an error, or withheld
      by a content filter. */
  datatype Finish = Stop | Truncated | Erred | Filtered

  /** An attempt to finish; `steer` tells whether the user had sent an instruction by then. */
  datatype Attempt = Attempt(finish: Finish, steer: bool)

  /** What the model did in a turn: calls that returned, and attempts to finish it. */
  datatype Turn = Begun | Called(before: Turn, call: Call) | Finishing(before: Turn, attempt: Attempt)

  function Calls(t: Turn): seq<Call>
  {
    match t
    case Begun => []
    case Called(before, call) => Calls(before) + [call]
    case Finishing(before, _) => Calls(before)
  }

  datatype Reply = Continued | Failed | Withheld | Nudged | Steered | Completed(footer: bool)

  predicate EndsTurn(r: Reply)
  {
    r.Failed? || r.Withheld? || r.Completed?
  }

  const MAX_LENGTH_CONTINUES := 2
  const MAX_STEERS := 3

  /** The runner's per-turn counters: nudges given, steers obeyed, truncated answers seen. */
  datatype Tally = Tally(nudges: nat, steers: nat, truncations: nat)

  ghost predicate UnverifiedTurn(t: Turn, cfg: Config, surface: string)
  {
    Unmet(cfg, surface, Mutated(Calls(t)), Tested(Calls(t)), Pending(Calls(t)))
  }

  /** The order of the checks: output limit, error, content filter, gate, steering. */
  function Decide(a: Attempt, unverified: bool, n: Tally, maxNudges: int): Reply
  {
    if a.finish.Truncated? && n.truncations < MAX_LENGTH_CONTINUES then Continued
    else if a.finish.Erred? then Failed
    else if a.finish.Filtered? then Withheld
    else if unverified && n.nudges < maxNudges then Nudged
    else if a.steer && n.steers < MAX_STEERS then Steered
    else Completed(unverified)
  }

  function Count(n: Tally, a: Attempt, r: Reply): Tally
  {
    Tally(n.nudges + (if r.Nudged? then 1 else 0), n.steers + (if r.Steered? then 1 else 0),
          n.truncations + if a.finish.Truncated? then 1 else 0)
  }

  ghost function TallyOf(t: Turn, cfg: Config, surface: string): Tally
    decreases t, 0
  {
    match t
    case Begun => Tally(0, 0, 0)
    case Called(before, _) => TallyOf(before, cfg, surface)
    case Finishing(before, a) => Count(TallyOf(before, cfg, surface), a, ReplyTo(before, a, cfg, surface))
  }

  /** What an attempt to finish after `t` gets. */
  ghost function ReplyTo(t: Turn, a: Attempt, cfg: Config, surface: string): Reply
    decreases t, 1
  {
    Decide(a, UnverifiedTurn(t, cfg, surface), TallyOf(t, cfg, surface), cfg.maxNudges)
  }

  ghost function Attempts(t: Turn): nat
  {
    match t case Begun => 0 case Called(before, _) => Attempts(before) case Finishing(before, _) => Attempts(before) + 1
  }

  /** No attempt has ended the turn yet. */
  ghost predicate Open(t: Turn, cfg: Config, surface: string)
  {
    match t
    case Begun => true
    case Called(before, _) => Open(before, cfg, surface)
    case Finishing(before, a) => Open(before, cfg, surface) && !EndsTurn(ReplyTo(before, a, cfg, surface))
  }

  /** A turn gets at most maxNudges nudges, three steers and two continuations, and a turn that is
      still open has had exactly as many attempts to finish: nothing else can keep it alive. */
  lemma {:induction false} NudgesBounded(t: Turn, cfg: Config, surface: string)
    ensures var n := TallyOf(t, cfg, surface);
      && n.nudges <= Max(0, cfg.maxNudges) && n.steers <= MAX_STEERS
      && (Open(t, cfg, surface) ==>
            Attempts(t) == n.nudges + n.steers + Min(MAX_LENGTH_CONTINUES, n.truncations)
            && Attempts(t) <= Max(0, cfg.maxNudges) + MAX_STEERS + MAX_LENGTH_CONTINUES)
  {
    hide UnverifiedTurn;
    if !t.Begun? { NudgesBounded(t.before, cfg, surface); }
  }

  ghost predicate Gated(cfg: Config, surface: string)
  {
    cfg.enabled && surface in cfg.surfaces && cfg.forMutations && cfg.forEffects
  }

  /** What each attempt gets, case by case: an error or a filtered answer is never completed, only
      the first two truncated answers are continued, and the gate comes before steering. */
  lemma ReplyTable(t: Turn, a: Attempt, cfg: Config, surface: string)
    ensures
      var reply, n := ReplyTo(t, a, cfg, surface), TallyOf(t, cfg, surface);
      var unverified := UnverifiedTurn(t, cfg, surface);
      var answered := a.finish == Stop || (a.finish == Truncated && n.truncations >= 2);
      var nudged, steered := unverified && n.nudges < cfg.maxNudges, a.steer && n.steers < 3;
      && (reply == Continued <==> a.finish == Truncated && n.truncations < 2)
      && (reply == Failed <==> a.finish == Erred)
      && (reply == Withheld <==> a.finish == Filtered)
      && (reply == Nudged <==> answered && nudged)
      && (reply == Steered <==> answered && !nudged && steered)
      && (reply == Completed(unverified) <==> answered && !nudged && !steered)
      && reply != Completed(!unverified)
  {
    hide UnverifiedTurn, TallyOf;
  }

  /** A completed answer carries no outcome footer exactly when the surface is not gated or every
      requirement switched on is met: nothing but documents was changed or some command that counts
      as a test was run, and the last acting or confirming command did not act. */
  lemma CompletionMeansVerified(t: Turn, a: Attempt, cfg: Config, surface: string)
    requires ReplyTo(t, a, cfg, surface).Completed?
    ensures ReplyTo(t, a, cfg, surface) == Completed(false) <==>
      || !cfg.enabled || surface !in cfg.surfaces
      || ((cfg.forMutations ==> !Mutated(Calls(t)) || Tested(Calls(t))) && (cfg.forEffects ==> !Pending(Calls(t))))
    ensures ReplyTo(t, a, cfg, surface) == Completed(true) ==> TallyOf(t, cfg, surface).nudges == Max(0, cfg.maxNudges)
  {
    NudgesBounded(t, cfg, surface);
  }

  // ---------------------------------------------------------------- what acceptance does not mean

  /** The turn went on from `base`. */
  ghost predicate Extends(t: Turn, base: Turn)
  {
    t == base || (!t.Begun? && Extends(t.before, base))
  }

  lemma {:induction false} ExtendsCalls(t: Turn, base: Turn)
    requires Extends(t, base)
    ensures Calls(base) <= Calls(t)
  {
    if t != base { ExtendsCalls(t.before, base); }
  }

  /** An action stays pending, and no test is found, across calls none of which tests. */
  lemma {:induction false} UntestedSuffix(cs: seq<Call>, more: seq<Call>)
    requires !Tested(more)
    ensures Tested(cs + more) <==> Tested(cs)
    ensures Pending(cs) ==> Pending(cs + more)
  {
    if more == [] {
      assert cs + more == cs;
    } else {
      var front, last := more[..|more| - 1], more[|more| - 1];
      assert more == front + [last] && cs + more == (cs + front) + [last];
      hide Tested, Pending;
      TestedStep(front, last);
      hide Tests;
      UntestedSuffix(cs, front);
      TestedStep(cs + front, last);
      PendingStep(cs + front, last);
      ConfirmingTests(last);
    }
  }

  lemma {:induction false} PendingSuffix(cs: seq<Call>, more: seq<Call>)
    requires Pending(cs) && forall c <- more :: !Confirms(c)
    ensures Pending(cs + more)
  {
    hide Pending, Confirms;
    if more == [] {
      assert cs + more == cs;
    } else {
      var front, last := more[..|more| - 1], more[|more| - 1];
      assert more == front + [last] && cs + more == (cs + front) + [last];
      PendingSuffix(cs, front);
      PendingStep(cs + front, last);
    }
  }

  lemma ListedCommandActs(c: Call)
    requires c.tool in ["exec", "shell", "run_command"]
    requires var words := Shell.Bare(Shell.Tokens(Shell.Segment(c.argument)));
      && words != [] && words[0] != "service"
      && ((words[0], if |words| > 1 then words[1] else "") in Shell.ACTION_PREFIXES
          || (words[0], "") in Shell.ACTION_PREFIXES)
    ensures Acts(c)
  {
    hide Shell.ACTION_PREFIXES, Shell.VERIFY_PREFIXES, Shell.KNOWN_VERIFY_TOOLS, Shell.Bare, Shell.Tokens,
      Shell.Segment, Shell.Classify;
    Shell.KindByTables(c.argument);
  }

  lemma PendingAfter(pre: seq<Call>, c: Call, cs: seq<Call>)
    requires pre + [c] <= cs && Acts(c) && forall i :: |pre| < i < |cs| ==> !Confirms(cs[i])
    ensures Pending(cs)
  {
    assert cs[|pre|] == (pre + [c])[|pre|];
  }

  /** After a shell command of the action table, the gate lets no answer pass without an outcome
      footer until run_code or a command that verifies is called, however many other calls and
      attempts to finish come in between. */
  lemma ActionStaysPending(p: Turn, c: Call, t: Turn, a: Attempt, cfg: Config, surface: string)
    requires cfg.enabled && surface in cfg.surfaces && cfg.forEffects
    requires c.tool in ["exec", "shell", "run_command"]
    requires var words := Shell.Bare(Shell.Tokens(Shell.Segment(c.argument)));
      && words != [] && words[0] != "service"
      && ((words[0], if |words| > 1 then words[1] else "") in Shell.ACTION_PREFIXES
          || (words[0], "") in Shell.ACTION_PREFIXES)
    requires Extends(t, Called(p, c))
    requires forall i :: |Calls(p)| < i < |Calls(t)| ==> Calls(t)[i].tool != "run_code"
    requires forall i :: |Calls(p)| < i < |Calls(t)| && Calls(t)[i].tool in ["exec", "shell", "run_command"] ==>
      Shell.Classify(Calls(t)[i].argument) != Shell.Verify
    ensures Pending(Calls(t)) && ReplyTo(t, a, cfg, surface) != Completed(false)
  {
    hide *;
    ListedCommandActs(c);
    CalledCalls(p, c);
    ExtendsCalls(t, Called(p, c));
    forall i | |Calls(p)| < i < |Calls(t)| ensures !Confirms(Calls(t)[i]) {
      OtherwiseNotConfirming(Calls(t)[i]);
    }
    PendingAfter(Calls(p), c, Calls(t));
    PendingBlocks(t, a, cfg, surface);
  }

  lemma CalledCalls(p: Turn, c: Call)
    ensures Calls(Called(p, c)) == Calls(p) + [c]
  {
  }

  lemma OtherwiseNotConfirming(c: Call)
    requires c.tool != "run_code"
    requires c.tool in ["exec", "shell", "run_command"] ==> Shell.Classify(c.argument) != Shell.Verify
    ensures !Confirms(c)
  {
  }

  lemma PendingBlocks(t: Turn, a: Attempt, cfg: Config, surface: string)
    requires cfg.enabled && surface in cfg.surfaces && cfg.forEffects && Pending(Calls(t))
    ensures ReplyTo(t, a, cfg, surface) != Completed(false)
  {
    hide Pending, Mutated, Tested, TallyOf;
  }

  lemma ConfirmingTests(c: Call)
    ensures Confirms(c) ==> Tests(c)
  {
  }

  lemma ChangingIsNotRunning(c: Call)
    requires NeedsTest(c)
    ensures !Tests(c) && !Acts(c) && !Confirms(c)
  {
    ShellIsNotCode(c.tool);
  }

  /** A test that was run before a change satisfies the gate, if no action is pending. */
  lemma StaleTestSuffices(p: Turn, change: Call, cfg: Config, surface: string)
    requires NeedsTest(change) && Tested(Calls(p)) && !Pending(Calls(p))
    ensures ReplyTo(Called(p, change), Attempt(Stop, false), cfg, surface) == Completed(false)
  {
    hide Tested, Pending, NeedsTest;
    ChangingIsNotRunning(change);
    TestedStep(Calls(p), change);
    PendingStep(Calls(p), change);
  }

  lemma NeedingMutates(cs: seq<Call>, c: Call)
    requires NeedsTest(c) && c in cs
    ensures Mutated(cs)
  {
  }

  /** After a change, does every answer accepted without an outcome footer follow a test of it?
      Exactly if just before the change no test had been run in the turn or an action was
      pending: the two flags the runner keeps. */
  lemma TestAfterChangeIff(p: Turn, c: Call, cfg: Config, surface: string)
    requires Gated(cfg, surface) && NeedsTest(c)
    ensures (forall t, a :: Extends(t, Called(p, c)) && ReplyTo(t, a, cfg, surface) == Completed(false) ==>
               |Calls(p)| < |Calls(t)| && Tested(Calls(t)[|Calls(p)| + 1..]))
      <==> !Tested(Calls(p)) || Pending(Calls(p))
  {
    hide Tested, Pending, NeedsTest, UnverifiedTurn;
    if !Tested(Calls(p)) || Pending(Calls(p)) {
      forall t, a | Extends(t, Called(p, c)) && ReplyTo(t, a, cfg, surface) == Completed(false)
        ensures |Calls(p)| < |Calls(t)| && Tested(Calls(t)[|Calls(p)| + 1..])
      {
        AcceptedAfterChange(p, c, t, a, cfg, surface);
      }
    } else {
      StaleTestSuffices(p, c, cfg, surface);
      var t, a := Called(p, c), Attempt(Stop, false);
      assert Extends(t, Called(p, c)) && ReplyTo(t, a, cfg, surface) == Completed(false);
      assert Calls(t)[|Calls(p)| + 1..] == [];
      assert !Tested([]) by { NothingTested(); }
    }
  }

  lemma NothingTested()
    ensures !Tested([])
  {
  }

  lemma SplitBehind(pre: seq<Call>, c: Call, cs: seq<Call>)
    requires pre + [c] <= cs
    ensures |pre| < |cs| && c in cs && cs == (pre + [c]) + cs[|pre| + 1..]
  {
    assert cs[|pre|] == (pre + [c])[|pre|];
  }

  lemma AcceptedAfterChange(p: Turn, c: Call, t: Turn, a: Attempt, cfg: Config, surface: string)
    requires Gated(cfg, surface) && NeedsTest(c) && (!Tested(Calls(p)) || Pending(Calls(p)))
    requires Extends(t, Called(p, c)) && ReplyTo(t, a, cfg, surface) == Completed(false)
    ensures |Calls(p)| < |Calls(t)| && Tested(Calls(t)[|Calls(p)| + 1..])
  {
    var pre, cs := Calls(p), Calls(t);
    assert Calls(Called(p, c)) == pre + [c];
    hide *;
    ExtendsCalls(t, Called(p, c));
    CompletionMeansVerified(t, a, cfg, surface);
    SplitBehind(pre, c, cs);
    var more := cs[|pre| + 1..];
    if !Tested(more) {
      UntestedChange(pre, c, more);
    }
  }

  /** Without a test behind the change, the history is not one that gets accepted. */
  lemma UntestedChange(pre: seq<Call>, c: Call, more: seq<Call>)
    requires NeedsTest(c) && (!Tested(pre) || Pending(pre)) && !Tested(more)
    ensures Mutated((pre + [c]) + more)
    ensures !Tested((pre + [c]) + more) || Pending((pre + [c]) + more)
  {
    hide Tested, Pending, Mutated, NeedsTest;
    assert c in [c] && c in (pre + [c]) + more;
    NeedingMutates((pre + [c]) + more, c);
    ChangingIsNotRunning(c);
    TestedStep(pre, c);
    PendingStep(pre, c);
    UntestedSuffix(pre + [c], more);
  }

  /** Some command that counts as a test did not fail. */
  ghost predicate Passed(cs: seq<Call>)
  {
    exists i :: 0 <= i < |cs| && Tests(cs[i]) && !cs[i].failed
  }

  /** Does every answer accepted without an outcome footer after a change rest on a test that
      passed? Only if one had passed before: the gate never looks at a test's result. */
  lemma PassedTestIff(p: Turn, c: Call, cfg: Config, surface: string)
    requires Gated(cfg, surface) && NeedsTest(c)
    ensures (forall t, a :: Extends(t, Called(p, c)) && ReplyTo(t, a, cfg, surface) == Completed(false) ==>
               Passed(Calls(t)))
      <==> Passed(Calls(p))
  {
    hide Tested, Pending, NeedsTest, UnverifiedTurn;
    if Passed(Calls(p)) {
      forall t, a | Extends(t, Called(p, c)) && ReplyTo(t, a, cfg, surface) == Completed(false)
        ensures Passed(Calls(t))
      {
        ExtendsCalls(t, Called(p, c));
        var i :| 0 <= i < |Calls(p)| && Tests(Calls(p)[i]) && !Calls(p)[i].failed;
        assert Calls(p) <= Calls(Called(p, c)) <= Calls(t) && Calls(t)[i] == Calls(p)[i];
      }
    } else {
      var t := FailedTestSuffices(p, c, cfg, surface);
      var a := Attempt(Stop, false);
      assert Extends(t, Called(p, c)) && ReplyTo(t, a, cfg, surface) == Completed(false);
    }
  }

  /** A failing test, whatever went before, gets the change accepted. */
  lemma FailedTestSuffices(p: Turn, c: Call, cfg: Config, surface: string) returns (t: Turn)
    requires NeedsTest(c)
    ensures t == Called(Called(p, c), Call("run_code", "", true))
    ensures Extends(t, Called(p, c)) && ReplyTo(t, Attempt(Stop, false), cfg, surface) == Completed(false)
    ensures Passed(Calls(t)) ==> Passed(Calls(p))
  {
    var test := Call("run_code", "", true);
    t := Called(Called(p, c), test);
    var pre := Calls(p);
    assert Calls(Called(p, c)) == pre + [c] && Calls(t) == (pre + [c]) + [test];
    assert Extends(Called(p, c), Called(p, c));
    ShellIsNotCode(test.tool);
    assert Tests(test) && Confirms(test) && !Acts(test);
    ChangingIsNotRunning(c);
    hide Tested, Pending, NeedsTest, Tests, Acts, Confirms;
    TestedStep(pre + [c], test);
    PendingStep(pre + [c], test);
    if Passed(Calls(t)) {
      var i :| 0 <= i < |Calls(t)| && Tests(Calls(t)[i]) && !Calls(t)[i].failed;
      assert i < |pre| && pre[i] == Calls(t)[i];
    }
  }

  // ---------------------------------------------------------------- the runner's turn state

  /** The paths of the successful changes, in order. */
  function PathsOf(cs: seq<Call>): seq<string>
  {
    if cs == [] then []
    else
      var last := cs[|cs| - 1];
      PathsOf(cs[..|cs| - 1]) + if IsMutation(last) then [last.argument] else []
  }

  lemma PathsStep(cs: seq<Call>, c: Call)
    ensures PathsOf(cs + [c]) == PathsOf(cs) + if IsMutation(c) then [c.argument] else []
  {
    assert (cs + [c])[..|cs|] == cs;
  }

  /** Those not to documents, in order. */
  function NonDocs(paths: seq<string>): seq<string>
  {
    if paths == [] then []
    else
      var last := paths[|paths| - 1];
      NonDocs(paths[..|paths| - 1]) + if IsDocument(last) then [] else [last]
  }

  lemma {:induction false} NonDocsMean(cs: seq<Call>)
    ensures NonDocs(PathsOf(cs)) != [] <==> Mutated(cs)
  {
    if cs != [] {
      var front, last := cs[..|cs| - 1], cs[|cs| - 1];
      assert cs == front + [last];
      NonDocsMean(front);
      MutatedStep(front, last);
      PathsStep(front, last);
      var paths := PathsOf(front);
      assert (paths + [last.argument])[..|paths|] == paths;
      assert paths + [] == paths;
      hide Mutated, PathsOf, IsDocument, IsMutation;
    }
  }

  ghost predicate Matches(t: Turn, cfg: Config, surface: string,
                          files: seq<string>, done: bool, pending: bool, n: Tally)
  {
    && files == PathsOf(Calls(t))
    && (done <==> Tested(Calls(t)))
    && (pending <==> Pending(Calls(t)))
    && n == TallyOf(t, cfg, surface)
  }

  lemma MatchesStep(t: Turn, c: Call, cfg: Config, surface: string,
                    files: seq<string>, done: bool, pending: bool, n: Tally)
    requires Matches(t, cfg, surface, files, done, pending, n)
    ensures Matches(Called(t, c), cfg, surface, files + if IsMutation(c) then [c.argument] else [],
                    done || Tests(c), Acts(c) || (pending && !Confirms(c)), n)
  {
    hide PathsOf, Tested, Pending, Tests, Acts, Confirms, IsMutation;
    TestedStep(Calls(t), c);
    PendingStep(Calls(t), c);
    PathsStep(Calls(t), c);
  }

  lemma MatchesFinish(t: Turn, a: Attempt, cfg: Config, surface: string,
                      files: seq<string>, done: bool, pending: bool, n: Tally)
    requires Matches(t, cfg, surface, files, done, pending, n)
    ensures var reply := ReplyTo(t, a, cfg, surface);
      && Matches(Finishing(t, a), cfg, surface, files, done, pending, Count(n, a, reply))
      && reply == Decide(a, UnverifiedTurn(t, cfg, surface), n, cfg.maxNudges)
  {
    hide PathsOf, Tested, Pending, UnverifiedTurn;
  }

  function FooterText(reason: string): (r: string)
    ensures r != ""
  {
    "[Outcome Gate] Completion claimed without verification (" + reason + "). Treat residual risk as open."
  }

  /** The outcome footer names the requirements that are not met. */
  function OutcomeFooter(untested: bool, pending: bool): string
  {
    if !untested && !pending then ""
    else
      FooterText(if !untested then UNCONFIRMED else if !pending then UNTESTED else UNTESTED + "; " + UNCONFIRMED)
  }

  /** The outcome footer that a turn's history calls for. */
  ghost function FooterFor(t: Turn, cfg: Config, surface: string): string
  {
    var gated := cfg.enabled && surface in cfg.surfaces;
    OutcomeFooter(gated && cfg.forMutations && Mutated(Calls(t)) && !Tested(Calls(t)),
                  gated && cfg.forEffects && Pending(Calls(t)))
  }

  lemma VerdictFooter(cfg: Config, surface: string, mutations: bool, done: bool, pending: bool, nudges: int)
    ensures var v := Evaluate(cfg, surface, mutations, done, pending, nudges, true);
      var gated := cfg.enabled && surface in cfg.surfaces;
      v.Nudge? || (if v.Footer? then FooterText(v.reason) else "") ==
        OutcomeFooter(gated && cfg.forMutations && mutations && !done, gated && cfg.forEffects && pending)
  {
    assert UNTESTED != "" && UNCONFIRMED != "";
    hide UNTESTED, UNCONFIRMED, FooterText;
  }

  function TruncationWarning(): string { "> ⚠️ 回复因输出长度上限被截断，内容可能不完整。" }

  function ErrorText(): string { "Sorry, I encountered an error calling the AI model." }

  function FilterText(): string { "抱歉，模型的内容安全策略阻止了本次回复，请尝试换一种方式描述您的请求。" }

  /** The saved answer: the text, which says so if it was cut off for good, and behind a rule the
      footers, if there are any. */
  ghost predicate IsAnswer(text: string, truncated: bool, claim: string, outcome: string, saved: string)
  {
    var clean := if !truncated then text
      else if text == "" then TruncationWarning() else text + "\n\n" + TruncationWarning();
    saved ==
      if claim == "" && outcome == "" then clean
      else if claim == "" then clean + "\n\n---\n" + outcome
      else if outcome == "" then clean + "\n\n---\n" + claim
      else clean + "\n\n---\n" + (claim + "\n" + outcome)
  }

  method Compose(text: string, truncated: bool, claim: string, outcome: string) returns (saved: string)
    ensures IsAnswer(text, truncated, claim, outcome, saved)
  {
    saved := text;
    if truncated {
      saved := if text != "" then text + "\n\n" + TruncationWarning() else TruncationWarning();
    }
    assert claim == "" ==> claim + "" + outcome == outcome;
    assert outcome == "" ==> claim + "" + outcome == claim;
    var footers := claim + (if claim != "" && outcome != "" then "\n" else "") + outcome;
    if footers != "" {
      saved := saved + "\n\n---\n" + footers;
    }
  }

  class LoopState {
    const cfg: Config
    const surface: string
    var fileMutations: seq<string>
    var verificationDone: bool
    var sideEffectPending: bool
    var verifyNudges: nat
    var steerContinues: nat
    var lengthContinues: nat
    ghost var turn: Turn

    /** The flags and counters summarise the turn. */
    ghost predicate Valid()
      reads this
    {
      Matches(turn, cfg, surface, fileMutations, verificationDone, sideEffectPending,
              Tally(verifyNudges, steerContinues, lengthContinues))
    }

    constructor (cfg: Config, surface: string)
      ensures Valid() && turn == Begun && this.cfg == cfg && this.surface == surface
    {
      this.cfg, this.surface := cfg, surface;
      fileMutations, verificationDone, sideEffectPending := [], false, false;
      verifyNudges, steerContinues, lengthContinues := 0, 0, 0;
      turn := Begun;
    }

    method RecordFileMutation(call: Call)
      modifies this`fileMutations
      ensures fileMutations == old(fileMutations) +
        if call.tool in ["write_file", "edit_file", "delete_file"] && !call.failed then [call.argument] else []
    {
      if !MutatingTool(call.tool) {
        return;
      }
      if call.failed {
        return;
      }
      fileMutations := fileMutations + [call.argument];
    }

    method RecordVerificationCall(call: Call)
      modifies this`verificationDone, this`sideEffectPending
      ensures verificationDone <==> old(verificationDone) || Tests(call)
      ensures sideEffectPending <==> Acts(call) || (old(sideEffectPending) && !Confirms(call))
      ensures var shell, kind := call.tool in ["exec", "shell", "run_command"], Shell.Classify(call.argument);
        && (call.tool == "run_code" || (shell && kind == Shell.Verify) ==> verificationDone && !sideEffectPending)
        && (shell && kind == Shell.Action ==> verificationDone == old(verificationDone) && sideEffectPending)
        && (shell && kind == Shell.Neutral ==> verificationDone && sideEffectPending == old(sideEffectPending))
    {
      if !ShellTool(call.tool) && call.tool != "run_code" {
        return;
      }
      if call.tool == "run_code" {
        verificationDone, sideEffectPending := true, false;
        return;
      }
      var kind := Shell.ClassifyShellCommand(call.argument);
      if kind == Shell.Action {
        sideEffectPending := true;
      } else if kind == Shell.Verify {
        verificationDone, sideEffectPending := true, false;
      } else {
        verificationDone := true;
      }
    }

    /** The bookkeeping behind every tool result. */
    method RecordCall(call: Call)
      requires Valid()
      modifies this
      ensures Valid() && turn == Called(old(turn), call)
    {
      MatchesStep(turn, call, cfg, surface, fileMutations, verificationDone, sideEffectPending,
                  Tally(verifyNudges, steerContinues, lengthContinues));
      hide Matches, Tests, Acts, Confirms, IsMutation, Calls, TallyOf, ReplyTo, PathsOf, Tested, Pending;
      RecordFileMutation(call);
      RecordVerificationCall(call);
      turn := Called(turn, call);
    }

    /** The recorded changes that are not to documents. */
    method NonDocMutations() returns (out: seq<string>)
      ensures out == NonDocs(fileMutations)
    {
      hide IsDocument;
      out := [];
      for n := 0 to |fileMutations|
        invariant out == NonDocs(fileMutations[..n])
      {
        assert fileMutations[..n + 1][..n] == fileMutations[..n];
        if !IsDocument(fileMutations[n]) {
          out := out + [fileMutations[n]];
        }
      }
      assert fileMutations[..|fileMutations|] == fileMutations;
    }

    method OutcomeDecision() returns (v: Verdict)
      requires Valid()
      ensures v.Allow? <==> !UnverifiedTurn(turn, cfg, surface)
      ensures v.Nudge? ==> verifyNudges < cfg.maxNudges
      ensures v.Footer? ==> verifyNudges >= cfg.maxNudges
      ensures v.Nudge? || (if v.Footer? then FooterText(v.reason) else "") == FooterFor(turn, cfg, surface)
    {
      var nonDoc := NonDocMutations();
      NonDocsMean(Calls(turn));
      v := Evaluate(cfg, surface, nonDoc != [], verificationDone, sideEffectPending, verifyNudges, true);
      VerdictFooter(cfg, surface, nonDoc != [], verificationDone, sideEffectPending, verifyNudges);
    }

    /** An attempt to finish: continue a cut-off answer, give up on an error, or pass the gate.
        `claimFooter` is the footer of the separate check of the answer's wording, if any; the
        saved text is empty where the turn goes on without one. */
    method FinalResponse(text: string, claimFooter: string, a: Attempt) returns (reply: Reply, saved: string)
      requires Valid()
      modifies this
      ensures Valid() && turn == Finishing(old(turn), a)
      ensures reply == ReplyTo(old(turn), a, cfg, surface)
      ensures reply.Failed? ==> saved == if text == "" then ErrorText() else text
      ensures reply.Withheld? ==> saved == FilterText()
      ensures reply.Continued? || reply.Nudged? ==> saved == ""
      ensures reply.Steered? || reply.Completed? ==>
        IsAnswer(text, a.finish.Truncated?, claimFooter, FooterFor(old(turn), cfg, surface), saved)
    {
      hide UnverifiedTurn, Matches, ReplyTo, TruncationWarning, ErrorText, FilterText, FooterText, FooterFor,
        IsAnswer, Calls, TallyOf, Mutated, Tested, Pending, PathsOf, Unmet;
      MatchesFinish(turn, a, cfg, surface, fileMutations, verificationDone, sideEffectPending,
                    Tally(verifyNudges, steerContinues, lengthContinues));
      var v := OutcomeDecision();
      turn := Finishing(turn, a);
      if a.finish.Truncated? {
        lengthContinues := lengthContinues + 1;
        if lengthContinues <= MAX_LENGTH_CONTINUES {
          return Continued, "";
        }
      }
      if a.finish.Erred? {
        return Failed, if text == "" then ErrorText() else text;
      }
      if a.finish.Filtered? {
        return Withheld, FilterText();
      }
      if v.Nudge? {
        verifyNudges := verifyNudges + 1;
        return Nudged, "";
      }
      var outcome := if v.Footer? then FooterText(v.reason) else "";
      saved := Compose(text, a.finish.Truncated?, claimFooter, outcome);
      if a.steer && steerContinues < MAX_STEERS {
        steerContinues := steerContinues + 1;
        return Steered, saved;
      }
      reply := Completed(v.Footer?);
    }
  }
}
