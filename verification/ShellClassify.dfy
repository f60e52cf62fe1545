/** Telling commands that act from commands that verify, for the completion gate. */
module ShellClassify {
  import opened PyLists
  import opened PyStrings

  datatype Kind = Action | Verify | Neutral

  // ---------------------------------------------------------------- words of a command

  function Word(s: string): (w: string)
    ensures |w| <= |s|
    ensures s != "" && !IsSpace(s[0]) ==> |w| > 0
  {
    if s == "" || IsSpace(s[0]) then "" else [s[0]] + Word(s[1..])
  }

  /** Python's `split()`. */
  function Tokens(s: string): (ts: seq<string>)
    decreases |s|
  {
    var t := LStrip(s);
    if t == "" then []
    else
      LStripLies(s);
      [Word(t)] + Tokens(t[|Word(t)|..])
  }

  lemma FirstToken(s: string)
    requires LStrip(s) == s && s != ""
    ensures |Word(s)| > 0 && Tokens(s) == [Word(s)] + Tokens(s[|Word(s)|..])
  {
    LStripLies(s);
  }

  lemma IgnoresLead(s: string)
    ensures LStrip(LStrip(s)) == LStrip(s) && Tokens(LStrip(s)) == Tokens(s)
  {
    LStripLies(s);
  }

  predicate Blank(s: string)
  {
    forall i :: 0 <= i < |s| ==> IsSpace(s[i])
  }

  lemma {:induction false} LStripTrailed(s: string, trail: string)
    requires Blank(trail)
    ensures LStrip(s + trail) == if LStrip(s) == "" then "" else LStrip(s) + trail
  {
    if s == "" {
      assert s + trail == trail;
      LStripBlank(trail);
    } else if IsSpace(s[0]) {
      assert (s + trail)[1..] == s[1..] + trail;
      LStripTrailed(s[1..], trail);
    }
  }

  lemma {:induction false} LStripBlank(s: string)
    requires Blank(s)
    ensures LStrip(s) == ""
  {
    if s != "" { LStripBlank(s[1..]); }
  }

  lemma {:induction false} LStripLed(lead: string, s: string)
    requires Blank(lead)
    ensures LStrip(lead + s) == LStrip(s)
  {
    if lead != "" {
      assert (lead + s)[1..] == lead[1..] + s;
      LStripLed(lead[1..], s);
    } else {
      assert lead + s == s;
    }
  }

  lemma {:induction false} WordTrailed(s: string, trail: string)
    requires Blank(trail)
    ensures Word(s + trail) == Word(s)
  {
    if s != "" && !IsSpace(s[0]) {
      assert (s + trail)[1..] == s[1..] + trail;
      WordTrailed(s[1..], trail);
    } else {
      assert s == "" ==> s + trail == trail;
    }
  }

  /** Blanks behind a text do not change its words. */
  lemma {:induction false} TokensTrailed(s: string, trail: string)
    requires Blank(trail)
    ensures Tokens(s + trail) == Tokens(s)
    decreases |s|
  {
    var t := LStrip(s);
    LStripTrailed(s, trail);
    IgnoresLead(s);
    IgnoresLead(s + trail);
    if t != "" {
      hide LStrip, Word, Tokens, Blank;
      var n := |Word(t)|;
      WordTrailed(t, trail);
      FirstToken(t);
      FirstToken(t + trail);
      assert (t + trail)[n..] == t[n..] + trail;
      TokensTrailed(t[n..], trail);
    }
  }

  lemma TokensPadded(lead: string, s: string, trail: string)
    requires Blank(lead) && Blank(trail)
    ensures Tokens(lead + s + trail) == Tokens(s)
  {
    hide Tokens, LStrip, Blank;
    assert lead + s + trail == lead + (s + trail);
    LStripLed(lead, s + trail);
    IgnoresLead(lead + (s + trail));
    IgnoresLead(s + trail);
    TokensTrailed(s, trail);
  }

  // ---------------------------------------------------------------- the first segment

  /** A separator `;`, `|`, `||` or `&&` starts at i. */
  predicate SepAt(s: string, i: nat)
  {
    i < |s| && (s[i] == ';' || s[i] == '|' || IsAt(s, "&&", i))
  }

  lemma SepAtChars(s: string, i: nat)
    ensures SepAt(s, i) <==>
      i < |s| && (s[i] == ';' || s[i] == '|' || (s[i] == '&' && i + 1 < |s| && s[i + 1] == '&'))
  {
    if i + 2 <= |s| {
      assert s[i..i + 2] == [s[i], s[i + 1]];
    }
  }

  function FirstSep(s: string, from: nat): (k: nat)
    requires from <= |s|
    ensures from <= k <= |s| && (k == |s| || SepAt(s, k)) && forall i: nat :: from <= i < k ==> !SepAt(s, i)
    decreases |s| - from
  {
    if from == |s| || SepAt(s, from) then from else FirstSep(s, from + 1)
  }

  /** The command before its first separator. */
  function Segment(s: string): string
  {
    s[..FirstSep(s, 0)]
  }

  // ---------------------------------------------------------------- prefixes and tables

  predicate IsAssignment(t: string)
  {
    '=' in t && !(t != "" && t[0] == '-')
  }

  predicate IsWrapper(t: string)
  {
    t == "sudo" || t == "env" || t == "time" || t == "noglob"
  }

  function SkipAssignments(ts: seq<string>): (r: seq<string>)
    ensures |r| <= |ts|
  {
    if ts != [] && IsAssignment(ts[0]) then SkipAssignments(ts[1..]) else ts
  }

  function SkipWrappers(ts: seq<string>): (r: seq<string>)
    decreases |ts|
  {
    if ts != [] && IsWrapper(ts[0]) then SkipWrappers(SkipAssignments(ts[1..])) else ts
  }

  /** The words from the program's own name on. */
  function Bare(ts: seq<string>): seq<string>
  {
    SkipWrappers(SkipAssignments(ts))
  }

  /** First and second word of a command; an empty second word stands for any. */
  const ACTION_PREFIXES: set<(string, string)> := {
    ("systemctl", "restart"), ("systemctl", "start"), ("systemctl", "stop"), ("systemctl", "reload"),
    ("systemctl", "try-restart"), ("service", "restart"), ("service", "start"), ("service", "stop"),
    ("service", "reload"), ("launchctl", "kickstart"), ("launchctl", "load"), ("launchctl", "unload"),
    ("pip", "install"), ("pip3", "install"), ("npm", "install"), ("npm", "i"), ("npm", "add"),
    ("pnpm", "add"), ("pnpm", "install"), ("pnpm", "i"), ("yarn", "add"), ("yarn", "install"),
    ("bun", "add"), ("bun", "install"), ("brew", "install"), ("brew", "remove"), ("brew", "upgrade"),
    ("apt", "install"), ("apt-get", "install"), ("apt", "remove"), ("apt-get", "remove"),
    ("yum", "install"), ("dnf", "install"), ("git", "pull"), ("git", "push"), ("git", "checkout"),
    ("git", "merge"), ("git", "reset"), ("git", "rebase"), ("docker", "restart"), ("docker", "start"),
    ("docker", "stop"), ("docker", "rm"), ("docker", "kill"), ("pkill", ""), ("killall", ""), ("rm", ""),
    ("mv", ""), ("chmod", ""), ("chown", "")}

  const VERIFY_PREFIXES: set<(string, string)> := {
    ("systemctl", "is-active"), ("systemctl", "status"), ("systemctl", "is-enabled"), ("service", "status"),
    ("launchctl", "list"), ("launchctl", "print"), ("ps", ""), ("pgrep", ""), ("pidof", ""), ("ss", ""),
    ("netstat", ""), ("lsof", ""), ("curl", ""), ("wget", ""), ("journalctl", ""), ("docker", "ps"),
    ("docker", "logs"), ("docker", "inspect"), ("docker", "stats"), ("git", "log"), ("git", "status"),
    ("git", "diff"), ("git", "show"), ("pip", "show"), ("pip3", "show"), ("npm", "list"), ("npm", "ls"),
    ("npm", "info"), ("pnpm", "list"), ("pnpm", "ls"), ("cat", ""), ("head", ""), ("tail", ""), ("less", ""),
    ("ls", ""), ("find", ""), ("tree", ""), ("grep", ""), ("rg", ""), ("test", ""), ("pytest", ""),
    ("tox", ""), ("nox", ""), ("ruff", ""), ("flake8", ""), ("mypy", ""), ("pyright", ""), ("eslint", ""),
    ("tsc", ""), ("make", "test"), ("make", "check"), ("make", "verify"), ("make", "lint"),
    ("cargo", "test"), ("cargo", "check"), ("cargo", "clippy"), ("go", "test"), ("go", "vet")}

  const KNOWN_VERIFY_TOOLS: set<string> := {
    "pytest", "tox", "nox", "unittest", "ruff", "flake8", "mypy", "pyright", "pylint", "isort", "black",
    "eslint", "tsc", "prettier", "jest", "vitest", "mocha", "karma"}

  predicate Listed(table: set<(string, string)>, first: string, second: string)
  {
    (first, second) in table || (first, "") in table
  }

  /** The kind of a command given its words without prefixes. */
  function KindOf(ts: seq<string>): Kind
  {
    if ts == [] then Neutral
    else
      var first, second := ts[0], if |ts| > 1 then ts[1] else "";
      if first == "service" && |ts| >= 3 && ts[2] in ["restart", "start", "stop", "reload", "force-reload"] then Action
      else if first == "service" && |ts| >= 3 && ts[2] == "status" then Verify
      else if Listed(ACTION_PREFIXES, first, second) then Action
      else if Listed(VERIFY_PREFIXES, first, second) then Verify
      else if exists t <- ts :: t in KNOWN_VERIFY_TOOLS then Verify
      else Neutral
  }

  /** The classification: that of the first segment's words behind wrappers and assignments. */
  function Classify(command: string): Kind
  {
    KindOf(Bare(Tokens(Segment(command))))
  }

  /** The cut text is what lies, up to blanks, before position `h`. */
  ghost predicate CutAt(command: string, cmd: string, lo: nat, h: nat)
  {
    && lo + |cmd| <= h <= |command| && cmd == command[lo..lo + |cmd|]
    && BlankIn(command, 0, lo) && BlankIn(command, lo + |cmd|, h)
    && (h == |command| || SepAt(command, h))
  }

  /** Blanks around a part of a slice are blanks around it in the whole. */
  lemma BlanksInSlice(s: string, lo: nat, h: nat, a: nat, b: nat)
    requires lo <= h <= |s| && a <= b <= h - lo
    requires BlankIn(s[lo..h], 0, a) && BlankIn(s[lo..h], b, h - lo)
    ensures s[lo..h][a..b] == s[lo + a..lo + b]
    ensures BlankIn(s, lo, lo + a) && BlankIn(s, lo + b, h)
  {
    hide IsSpace;
    forall i | lo <= i < lo + a || lo + b <= i < h ensures IsSpace(s[i]) {
      assert s[lo..h][i - lo] == s[i];
    }
    SliceOfSlice(s, lo, h, a, b);
  }

  lemma BlanksJoin(s: string, a: nat, b: nat, c: nat)
    requires a <= b <= c <= |s| && BlankIn(s, a, b) && BlankIn(s, b, c)
    ensures BlankIn(s, a, c)
  {
  }

  lemma StripCut(command: string, lo: nat, h: nat)
    requires lo <= h <= |command| && BlankIn(command, 0, lo) && (h == |command| || SepAt(command, h))
    ensures CutAt(command, Strip(command[lo..h]), lo + StripStart(command[lo..h]), h)
  {
    hide SepAt, BlankIn, Strip, StripStart, RStrip;
    var mid := command[lo..h];
    var a := StripStart(mid);
    StripLies(mid);
    BlanksInSlice(command, lo, h, a, |RStrip(mid)|);
    BlanksJoin(command, 0, lo, lo + a);
  }

  /** No occurrence starts before h. */
  ghost predicate NoneBefore(command: string, sep: string, h: nat)
  {
    forall i: nat :: i < h ==> !IsAt(command, sep, i)
  }

  /** Cutting at the first occurrence of one more separator. */
  method Cut(command: string, cmd: string, sep: string, ghost lo: nat, ghost h: nat)
    returns (cmd': string, ghost lo': nat, ghost h': nat)
    requires CutAt(command, cmd, lo, h) && sep in ["&&", "||", ";", "|"]
    ensures CutAt(command, cmd', lo', h') && h' <= h
    ensures h == |command| || |sep| == 1 ==> NoneBefore(command, sep, h')
  {
    hide Strip, StripStart, IsSpace, BlankIn;
    var at := Find(cmd, sep);
    forall i: nat | i + |sep| <= h && IsAt(command, sep, i) ensures i >= lo && IsAt(cmd, sep, i - lo) {
      InsideCut(command, cmd, sep, lo, h, i);
    }
    match at
    case None =>
      cmd', lo', h' := cmd, lo, h;
    case Some(k) =>
      h' := lo + k;
      BoundaryAtOccurrence(command, cmd, sep, lo, h, k);
      assert cmd[..k] == command[lo..h'];
      cmd' := Strip(cmd[..k]);
      lo' := lo + StripStart(cmd[..k]);
      StripCut(command, lo, h');
  }

  lemma BoundaryAtOccurrence(command: string, cmd: string, sep: string, lo: nat, h: nat, k: nat)
    requires CutAt(command, cmd, lo, h) && sep in ["&&", "||", ";", "|"] && IsAt(cmd, sep, k)
    ensures SepAt(command, lo + k)
  {
    assert cmd[k] == cmd[k..k + |sep|][0] == sep[0];
    if |sep| == 2 {
      assert cmd[k + 1] == cmd[k..k + |sep|][1] == sep[1];
      assert command[lo + k + 1] == cmd[k + 1];
    }
    assert command[lo + k] == cmd[k];
    SepAtChars(command, lo + k);
  }

  /** An occurrence before the boundary lies inside the unblank part. */
  lemma InsideCut(command: string, cmd: string, sep: string, lo: nat, h: nat, i: nat)
    requires CutAt(command, cmd, lo, h) && sep in ["&&", "||", ";", "|"]
    requires i + |sep| <= h && IsAt(command, sep, i)
    ensures i >= lo && IsAt(cmd, sep, i - lo)
  {
    var n := |sep|;
    SepIsNotBlank(sep);
    assert command[i] == command[i..i + n][0] && command[i + n - 1] == command[i..i + n][n - 1];
    hide IsSpace;
    assert lo <= i && i + n <= lo + |cmd|;
    hide BlankIn;
    SliceOfSlice(command, lo, lo + |cmd|, i - lo, i - lo + n);
    assert lo + (i - lo) == i && lo + (i - lo + n) == i + n;
  }

  lemma SepIsNotBlank(sep: string)
    requires sep in ["&&", "||", ";", "|"]
    ensures 1 <= |sep| <= 2 && !IsSpace(sep[0]) && !IsSpace(sep[|sep| - 1])
  {
    assert sep[0] in ['&', '|', ';'] && sep[|sep| - 1] in ['&', '|', ';'];
  }

  method ClassifyShellCommand(command: string) returns (kind: Kind)
    ensures kind == Classify(command)
  {
    if command == "" {
      assert Tokens("") == [];
      return Neutral;
    }
    var cmd := Strip(command);
    ghost var lo, h: nat := StripStart(command), |command|;
    assert command[0..|command|] == command;
    StripCut(command, 0, |command|);
    cmd, lo, h := Cut(command, cmd, "&&", lo, h);
    cmd, lo, h := Cut(command, cmd, "||", lo, h);
    cmd, lo, h := Cut(command, cmd, ";", lo, h);
    cmd, lo, h := Cut(command, cmd, "|", lo, h);
    FullyCut(command, cmd, lo, h);
    var tokens := Split(cmd);
    while tokens != [] && IsAssignment(tokens[0])
      invariant Bare(tokens) == Bare(Tokens(cmd))
      decreases |tokens|
    {
      tokens := tokens[1..];
    }
    while tokens != [] && IsWrapper(tokens[0])
      invariant SkipWrappers(tokens) == Bare(Tokens(cmd))
      decreases |tokens|
    {
      tokens := tokens[1..];
      ghost var rest := tokens;
      while tokens != [] && IsAssignment(tokens[0])
        invariant |tokens| <= |rest|
        invariant SkipAssignments(tokens) == SkipAssignments(rest)
        decreases |tokens|
      {
        tokens := tokens[1..];
      }
    }
    kind := KindOf(tokens);
  }

  lemma NoTokens()
    ensures Tokens("") == []
  {
  }

  method Split(s: string) returns (ts: seq<string>)
    ensures ts == Tokens(s)
  {
    hide LStrip, Word, Tokens;
    ts := [];
    IgnoresLead(s);
    var rest := LStrip(s);
    while rest != ""
      invariant rest == LStrip(rest)
      invariant ts + Tokens(rest) == Tokens(s)
      decreases |rest|
    {
      FirstToken(rest);
      var w := Word(rest);
      ts := ts + [w];
      IgnoresLead(rest[|w|..]);
      rest := LStrip(rest[|w|..]);
    }
    assert Tokens(rest) == [] by { NoTokens(); }
  }

  lemma FullyCut(command: string, cmd: string, lo: nat, h: nat)
    requires CutAt(command, cmd, lo, h)
    requires NoneBefore(command, "&&", h) && NoneBefore(command, ";", h) && NoneBefore(command, "|", h)
    ensures Tokens(cmd) == Tokens(Segment(command))
  {
    forall i: nat | i < h ensures !SepAt(command, i) {
      assert command[i] == ';' ==> IsAt(command, ";", i);
      assert command[i] == '|' ==> IsAt(command, "|", i);
    }
    assert FirstSep(command, 0) == h;
    assert Segment(command) == command[..lo] + cmd + command[lo + |cmd|..h];
    TokensPadded(command[..lo], cmd, command[lo + |cmd|..h]);
  }

  // ---------------------------------------------------------------- what the classification ignores

  /** A word without separators; it may hold single ampersands, even at its end. */
  ghost predicate PlainWord(w: string)
  {
    w != "" && (forall i :: 0 <= i < |w| ==> !IsSpace(w[i])) && Segment(w) == w
  }

  lemma NoSepInside(s: string, i: nat)
    requires Segment(s) == s && i < |s|
    ensures s[i] != ';' && s[i] != '|' && (s[i] == '&' && i + 1 < |s| ==> s[i + 1] != '&')
  {
    assert FirstSep(s, 0) == |s|;
    SepAtChars(s, i);
  }

  lemma {:induction false} WordOfSpaced(w: string, rest: string)
    requires forall i :: 0 <= i < |w| ==> !IsSpace(w[i])
    requires rest != "" && IsSpace(rest[0])
    ensures Word(w + rest) == w
  {
    if w == "" {
      assert w + rest == rest;
    } else {
      assert (w + rest)[1..] == w[1..] + rest;
      WordOfSpaced(w[1..], rest);
    }
  }

  /** The words of a text, read from the front: `split()` in three laws. */
  lemma TokensAfterWord(w: string, gap: string, rest: string)
    requires w != "" && (forall i :: 0 <= i < |w| ==> !IsSpace(w[i])) && Blank(gap) && gap != ""
    ensures Tokens(w + gap + rest) == [w] + Tokens(rest)
    ensures Tokens(w) == [w] && Tokens(gap) == []
  {
    WordAlone(w, gap);
    var s := w + (gap + rest);
    assert w + gap + rest == s;
    WordOfSpaced(w, gap + rest);
    StartsNonBlank(s);
    FirstToken(s);
    hide Tokens, LStrip, Word, Blank;
    assert s[|w|..] == gap + rest;
    LStripLed(gap, rest);
    IgnoresLead(gap + rest);
    IgnoresLead(rest);
  }

  lemma WordAlone(w: string, gap: string)
    requires w != "" && (forall i :: 0 <= i < |w| ==> !IsSpace(w[i])) && Blank(gap)
    ensures Tokens(w) == [w] && Tokens(gap) == []
  {
    LStripBlank(gap);
    StartsNonBlank(w);
    WholeWord(w);
    assert w[|w|..] == "";
    NoTokens();
    FirstToken(w);
  }

  lemma {:induction false} WholeWord(w: string)
    requires forall i :: 0 <= i < |w| ==> !IsSpace(w[i])
    ensures Word(w) == w
  {
    if w != "" {
      WholeWord(w[1..]);
    }
  }

  lemma StartsNonBlank(s: string)
    requires s != "" && !IsSpace(s[0])
    ensures LStrip(s) == s
  {
  }

  lemma SegmentAfterWord(w: string, gap: string, rest: string)
    requires PlainWord(w) && Blank(gap) && gap != ""
    ensures Segment(w + gap + rest) == w + gap + Segment(rest)
  {
    var s, n := w + gap + rest, |w| + |gap|;
    hide Segment, IsAt, SepAt, PlainWord;
    forall i: nat | i < n ensures !SepAt(s, i) {
      SepAtChars(s, i);
      NotInPrefix(w, gap, rest, i);
    }
    forall i: nat ensures SepAt(s, n + i) <==> SepAt(rest, i) {
      SepAtChars(s, n + i);
      SepAtChars(rest, i);
    }
    SegmentShifts(s, n, rest);
  }

  /** Neither the word nor the gap holds a separator, nor do they make one. */
  lemma NotInPrefix(w: string, gap: string, rest: string, i: nat)
    requires PlainWord(w) && Blank(gap) && gap != "" && i < |w| + |gap|
    ensures var s := w + gap + rest;
      s[i] != ';' && s[i] != '|' && (s[i] == '&' && i + 1 < |s| ==> s[i + 1] != '&')
  {
    var s := w + gap + rest;
    if i < |w| {
      NoSepInside(w, i);
      assert s[i] == w[i];
      assert s[i + 1] == if i + 1 < |w| then w[i + 1] else gap[0];
    } else {
      assert s[i] == gap[i - |w|];
    }
  }

  lemma SegmentShifts(s: string, n: nat, rest: string)
    requires n <= |s| && s[n..] == rest
    requires forall i: nat :: i < n ==> !SepAt(s, i)
    requires forall i: nat :: SepAt(s, n + i) <==> SepAt(rest, i)
    ensures Segment(s) == s[..n] + Segment(rest)
  {
    var k := FirstSep(rest, 0);
    forall i: nat | i < n + k ensures !SepAt(s, i) {
      if i >= n { assert SepAt(s, n + (i - n)) == SepAt(rest, i - n); }
    }
    assert n + k < |s| ==> SepAt(s, n + k);
    assert FirstSep(s, 0) == n + k;
    assert s[..n + k] == s[..n] + rest[..k];
  }

  /** Wrappers and environment assignments in front do not change how a command is counted,
      as long as they hold no separator themselves. */
  lemma PrefixChangesNothing(w: string, gap: string, command: string)
    requires PlainWord(w) && Blank(gap) && gap != "" && (IsWrapper(w) || IsAssignment(w))
    ensures Classify(w + gap + command) == Classify(command)
  {
    SegmentAfterWord(w, gap, command);
    TokensAfterWord(w, gap, Segment(command));
    var ts := Tokens(Segment(command));
    assert ([w] + ts)[1..] == ts;
    assert Bare([w] + ts) == Bare(ts);
  }

  /** Only the first segment counts, for every command. */
  lemma OnlySegmentCounts(command: string)
    ensures Segment(Segment(command)) == Segment(command)
    ensures Classify(Segment(command)) == Classify(command)
  {
    var k := FirstSep(command, 0);
    var head := command[..k];
    forall i: nat | i < k ensures !SepAt(head, i) {
      SepAtChars(head, i);
      SepAtChars(command, i);
    }
    assert FirstSep(head, 0) == k;
    assert head[..k] == head;
  }

  /** A command stays the first segment when a chain is put behind it, blanks or not, exactly if
      it holds no separator and does not lend its last ampersand to the chain's; then the chain
      changes nothing. */
  lemma ChainIsIgnored(command: string, sep: string, rest: string)
    requires sep in ["&&", "||", ";", "|"]
    ensures Segment(command + sep + rest) == command <==>
      Segment(command) == command && !(sep == "&&" && command != "" && command[|command| - 1] == '&')
    ensures Segment(command + sep + rest) == command ==> Classify(command + sep + rest) == Classify(command)
  {
    var s, n := command + sep + rest, |command|;
    hide IsAt, Segment, SepAt;
    SepAtChars(s, n);
    assert s[n] == sep[0] && (sep == "&&" ==> s[n + 1] == '&');
    assert s[..n] == command;
    SegmentIs(s, n);
    SegmentIs(command, n);
    assert command[..n] == command;
    if n > 0 {
      SepAtChars(s, n - 1);
      SepAtChars(command, n - 1);
    }
    forall i: nat | i + 1 < n ensures SepAt(s, i) <==> SepAt(command, i) {
      SepAtChars(s, i);
      SepAtChars(command, i);
    }
    if Segment(s) == command { OnlySegmentCounts(s); }
  }

  /** When the segment is the first n characters. */
  lemma SegmentIs(s: string, n: nat)
    requires n <= |s| && (n == |s| || SepAt(s, n))
    ensures Segment(s) == s[..n] <==> forall i: nat :: i < n ==> !SepAt(s, i)
  {
    if forall i: nat :: i < n ==> !SepAt(s, i) {
      assert FirstSep(s, 0) == n;
    }
    assert |Segment(s)| == FirstSep(s, 0);
  }

  // ---------------------------------------------------------------- what the classification says

  /** An assignment that is no option, or one of the four wrappers. */
  predicate Skipped(t: string)
  {
    ('=' in t && t[0] != '-') || t in ["sudo", "env", "time", "noglob"]
  }

  lemma SkipOne(ts: seq<string>)
    requires ts != []
    ensures Bare(ts) == if Skipped(ts[0]) then Bare(ts[1..]) else ts
  {
  }

  /** What is skipped in front of a command are exactly the leading words of those two sorts, in
      any order. */
  lemma {:induction false} BareIs(ts: seq<string>) returns (k: nat)
    ensures k <= |ts| && Bare(ts) == ts[k..]
    ensures forall i :: 0 <= i < k ==> Skipped(ts[i])
    ensures k < |ts| ==> !Skipped(ts[k])
    decreases |ts|
  {
    k := 0;
    if ts != [] {
      SkipOne(ts);
      hide Bare;
      if Skipped(ts[0]) {
        hide Skipped;
        var n := BareIs(ts[1..]);
        k := n + 1;
        assert ts[k..] == ts[1..][n..];
        forall i | 0 <= i < k ensures Skipped(ts[i]) {
          assert i > 0 ==> ts[i] == ts[1..][i - 1];
        }
      }
    }
  }

  /** The kind of a command by its first two words: the action table goes first, then the
      verification table, then any word that names a verification tool. */
  lemma KindByTables(command: string)
    ensures
      var ts, kind := Bare(Tokens(Segment(command))), Classify(command);
      if ts == [] then kind == Neutral
      else
        var first, second := ts[0], if |ts| > 1 then ts[1] else "";
        var acts := (first, second) in ACTION_PREFIXES || (first, "") in ACTION_PREFIXES;
        var verifies := (first, second) in VERIFY_PREFIXES || (first, "") in VERIFY_PREFIXES
          || exists t <- ts :: t in KNOWN_VERIFY_TOOLS;
        var byTables := if acts then Action else if verifies then Verify else Neutral;
        var third := if |ts| > 2 then ts[2] else "";
        kind ==
          if first == "service" && third in ["restart", "start", "stop", "reload", "force-reload"] then Action
          else if first == "service" && third == "status" then Verify
          else byTables
  {
    hide ACTION_PREFIXES, VERIFY_PREFIXES, KNOWN_VERIFY_TOOLS;
  }

  /** The documented examples of commands that act; a service is also asked for its status. */
  lemma RestartsAct(unit: string)
    ensures KindOf(["systemctl", "restart", unit]) == Action && KindOf(["service", unit, "restart"]) == Action
    ensures KindOf(["pip", "install", unit]) == Action && KindOf(["npm", "i"]) == Action
    ensures KindOf(["git", "push", unit]) == Action && KindOf(["rm", "-rf", unit]) == Action
    ensures KindOf(["service", unit, "status"]) == Verify
  {
  }
}
