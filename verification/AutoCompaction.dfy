/** The summarising compaction: where the kept tail starts, and what replaces the rest. */
module AutoCompaction {
  import opened PyLists
  import opened Conversation

  // ---------------------------------------------------------------- the split point

  function FirstSplit(ms: seq<Message>, keepRecent: nat): nat
    requires |ms| >= 2 * keepRecent
  {
    |ms| - 2 * keepRecent
  }

  /** An id that some tool result after the split needs and no message after it declares. */
  ghost predicate Missing(ms: seq<Message>, split: nat, id: string)
  {
    && (exists j :: split <= j < |ms| && IsResult(ms[j]) && ms[j].callId == id)
    && (forall j :: split <= j < |ms| ==> !Declares(ms[j], id))
  }

  /** The backward search meets, at `i`, a missing id it has not met later. */
  ghost predicate Finds(ms: seq<Message>, split: nat, i: nat)
    requires i < split <= |ms|
  {
    exists id :: Missing(ms, split, id) && Declares(ms[i], id) && forall j :: i < j < split ==> !Declares(ms[j], id)
  }

  /** What the search promises: the earliest find among the 39 messages before the split,
      never the very first message. */
  ghost predicate Earliest(ms: seq<Message>, split: nat, e: Option<nat>)
    requires split <= |ms|
  {
    match e
    case None => forall i: nat :: Max(0, split - 40) < i < split ==> !Finds(ms, split, i)
    case Some(i) =>
      && Max(0, split - 40) < i < split && Finds(ms, split, i)
      && forall k: nat :: Max(0, split - 40) < k < i ==> !Finds(ms, split, k)
  }

  /** The tail is then opened at the nearest user message at most nine before the find. */
  ghost predicate Opens(ms: seq<Message>, e: nat, s: nat)
    requires e < |ms|
  {
    s <= e &&
    if exists u: nat :: Max(0, e - 10) < u <= e && ms[u].role.UserRole?
    then s > Max(0, e - 10) && ms[s].role.UserRole? && forall u :: s < u <= e ==> !ms[u].role.UserRole?
    else s == e
  }

  ghost predicate IsSplit(ms: seq<Message>, keepRecent: nat, s: nat)
    requires |ms| >= 2 * keepRecent
  {
    var first := FirstSplit(ms, keepRecent);
    exists e :: Earliest(ms, first, e) && (if e.None? then s == first else Opens(ms, e.value, s))
  }

  /** The ids needed and declared in the recent part, collected message by message. */
  method Collect(recent: seq<Message>) returns (needed: set<string>, declared: set<string>)
    ensures forall id :: id in needed <==>
      exists j :: 0 <= j < |recent| && IsResult(recent[j]) && recent[j].callId == id
    ensures forall id :: id in declared <==> exists j :: 0 <= j < |recent| && Declares(recent[j], id)
  {
    needed, declared := {}, {};
    for n := 0 to |recent|
      invariant forall id :: id in needed <==> exists j :: 0 <= j < n && IsResult(recent[j]) && recent[j].callId == id
    {
      if recent[n].role.ToolRole? && recent[n].callId != "" {
        needed := needed + {recent[n].callId};
      }
    }
    for n := 0 to |recent|
      invariant forall id :: id in declared <==> exists j :: 0 <= j < n && Declares(recent[j], id)
    {
      if recent[n].role.AssistantRole? {
        var ids := CallIds(recent[n]);
        declared := declared + ids;
      }
    }
  }

  /** After the messages above `i` were searched. */
  ghost predicate StillMissing(ms: seq<Message>, split: nat, i: int, missing: set<string>)
    requires -1 <= i < split <= |ms| || split == 0 == i + 1
  {
    forall id :: id in missing <==> Missing(ms, split, id) && forall j :: i < j < split ==> !Declares(ms[j], id)
  }

  lemma FindsWhenMeets(ms: seq<Message>, split: nat, i: nat, missing: set<string>, ids: set<string>)
    requires i < split <= |ms| && StillMissing(ms, split, i, missing)
    requires forall id :: id in ids <==> Declares(ms[i], id)
    ensures Finds(ms, split, i) <==> ids * missing != {}
    ensures StillMissing(ms, split, i - 1, missing - ids)
  {
    hide Missing, Declares;
    if Finds(ms, split, i) {
      var id :| Missing(ms, split, id) && Declares(ms[i], id) && forall j :: i < j < split ==> !Declares(ms[j], id);
      assert id in ids * missing;
    }
    if id :| id in ids * missing {
      assert Missing(ms, split, id) && Declares(ms[i], id);
    }
    forall id ensures id in missing - ids <==>
      Missing(ms, split, id) && forall j :: i - 1 < j < split ==> !Declares(ms[j], id) {
    }
  }

  /** With nothing missing any more there is nothing to find. */
  lemma NothingLeft(ms: seq<Message>, split: nat, i: int, k: nat)
    requires -1 <= i < split <= |ms| && StillMissing(ms, split, i, {}) && k <= i
    ensures !Finds(ms, split, k)
  {
  }

  /** The backward search for the assistants that declare the missing ids. */
  method FindEarliest(ms: seq<Message>, split: nat, wanted: set<string>) returns (e: Option<nat>)
    requires split <= |ms| && forall id :: id in wanted <==> Missing(ms, split, id)
    ensures Earliest(ms, split, e)
  {
    e := None;
    var missing := wanted;
    var lo := Max(0, split - 40);
    var i := split - 1;
    while i > lo && missing != {}
      invariant -1 <= i < split
      invariant StillMissing(ms, split, i, missing)
      invariant e.Some? ==> i < e.value < split && lo < e.value && Finds(ms, split, e.value)
      invariant forall k: nat :: i < k < split && k > lo && (e.None? || k < e.value) ==> !Finds(ms, split, k)
    {
      if ms[i].role.AssistantRole? {
        var ids := CallIds(ms[i]);
        FindsWhenMeets(ms, split, i, missing, ids);
        if ids * missing != {} {
          e := Some(i);
        }
        missing := missing - ids;
      } else {
        FindsWhenMeets(ms, split, i, missing, {});
        assert missing - {} == missing;
      }
      i := i - 1;
    }
    if missing == {} {
      forall k: nat | k <= i ensures !Finds(ms, split, k) {
        NothingLeft(ms, split, i, k);
      }
    }
  }

  method OpenAtUser(ms: seq<Message>, e: nat) returns (s: nat)
    requires e < |ms|
    ensures Opens(ms, e, s)
  {
    var i: int := e;
    while i > Max(0, e - 10)
      invariant Max(0, e - 10) <= i <= e || i == e
      invariant forall u :: i < u <= e ==> !ms[u].role.UserRole?
    {
      if ms[i].role.UserRole? {
        return i;
      }
      i := i - 1;
    }
    s := e;
  }

  method FindSplit(ms: seq<Message>, keepRecent: nat) returns (s: nat)
    requires |ms| >= 2 * keepRecent
    ensures s <= |ms| && IsSplit(ms, keepRecent, s)
  {
    var first := |ms| - 2 * keepRecent;
    var needed, declared := Collect(ms[first..]);
    var e: Option<nat> := None;
    e := FindEarliest(ms, first, needed - declared);
    s := first;
    if e.Some? {
      s := OpenAtUser(ms, e.value);
    }
  }

  // ---------------------------------------------------------------- what the kept tail is

  /** Tool results directly follow the assistant that declares their id; ids are declared once. */
  ghost predicate WellPaired(ms: seq<Message>)
  {
    && (forall j :: 0 <= j < |ms| && IsResult(ms[j]) ==>
      exists a :: 0 <= a < j && Declares(ms[a], ms[j].callId) && OnlyTools(ms, a, j))
    && (forall a, b, id :: 0 <= a < b < |ms| && Declares(ms[a], id) ==> !Declares(ms[b], id))
  }

  ghost predicate OnlyTools(ms: seq<Message>, a: int, j: nat)
    requires -1 <= a && j <= |ms|
  {
    forall k :: a < k < j ==> ms[k].role.ToolRole?
  }

  /** The assistant at `a` is before the split and one of its results is not. */
  ghost predicate Straddles(ms: seq<Message>, split: nat, a: nat)
  {
    a < split && exists j :: split <= j < |ms| && IsResult(ms[j]) && Declares(ms[a], ms[j].callId)
  }

  lemma DeclarerIsNear(ms: seq<Message>, a: nat, j: nat)
    requires WellPaired(ms) && a < |ms| && j < |ms| && IsResult(ms[j]) && Declares(ms[a], ms[j].callId)
    ensures a < j && OnlyTools(ms, a, j)
  {
    var b :| 0 <= b < j && Declares(ms[b], ms[j].callId) && OnlyTools(ms, b, j);
    assert a == b;
  }

  lemma OneStraddler(ms: seq<Message>, split: nat, a: nat, b: nat)
    requires WellPaired(ms) && split <= |ms| && Straddles(ms, split, a) && Straddles(ms, split, b)
    ensures a == b
  {
    var i :| split <= i < |ms| && IsResult(ms[i]) && Declares(ms[a], ms[i].callId);
    var j :| split <= j < |ms| && IsResult(ms[j]) && Declares(ms[b], ms[j].callId);
    DeclarerIsNear(ms, a, i);
    DeclarerIsNear(ms, b, j);
  }

  lemma FindsStraddler(ms: seq<Message>, split: nat, a: nat)
    requires WellPaired(ms) && a < split <= |ms|
    ensures Finds(ms, split, a) <==> Straddles(ms, split, a)
  {
    if Straddles(ms, split, a) {
      var j :| split <= j < |ms| && IsResult(ms[j]) && Declares(ms[a], ms[j].callId);
      assert Missing(ms, split, ms[j].callId);
    }
  }

  lemma OrphansAreStraddled(ms: seq<Message>, split: nat)
    requires WellPaired(ms) && split <= |ms|
    ensures NoOrphanFrom(ms, split) <==> forall a: nat :: !Straddles(ms, split, a)
  {
    if a: nat :| Straddles(ms, split, a) {
      var j :| split <= j < |ms| && IsResult(ms[j]) && Declares(ms[a], ms[j].callId);
      assert forall b :: split <= b < j ==> !Declares(ms[b], ms[j].callId);
    } else {
      forall j | split <= j < |ms| && IsResult(ms[j])
        ensures exists a :: split <= a < j && Declares(ms[a], ms[j].callId)
      {
        var a :| 0 <= a < j && Declares(ms[a], ms[j].callId) && OnlyTools(ms, a, j);
        assert a >= split by {
          if a < split { assert Straddles(ms, split, a); }
        }
      }
    }
  }

  lemma StraddledIsTool(ms: seq<Message>, s: nat, a: nat)
    requires WellPaired(ms) && s < |ms|
    ensures Straddles(ms, s, a) ==> ms[s].role.ToolRole?
  {
    if Straddles(ms, s, a) {
      var j :| s <= j < |ms| && IsResult(ms[j]) && Declares(ms[a], ms[j].callId);
      DeclarerIsNear(ms, a, j);
    }
  }

  /** A tail that does not begin with a tool message is closed. */
  lemma ClosedFromNonTool(ms: seq<Message>, s: nat)
    requires WellPaired(ms) && s < |ms| && !ms[s].role.ToolRole?
    ensures NoOrphanFrom(ms, s)
  {
    forall a: nat ensures Straddles(ms, s, a) ==> ms[s].role.ToolRole? {
      StraddledIsTool(ms, s, a);
    }
    OrphansAreStraddled(ms, s);
  }

  /** The search reaches the straddling assistant: it is one of the 39 messages before the
      tentative split and not the very first message. */
  ghost predicate InReach(split: nat, a: nat)
  {
    a >= 1 && split - a <= 39
  }

  /** The kept tail holds every result's assistant exactly when the search can reach the
      assistant whose results the tentative split separates from it. */
  lemma KeptIsPairedIff(ms: seq<Message>, keepRecent: nat, s: nat)
    requires WellPaired(ms) && |ms| >= 2 * keepRecent && IsSplit(ms, keepRecent, s)
    ensures NoOrphanFrom(ms, s) <==>
      forall a: nat :: Straddles(ms, FirstSplit(ms, keepRecent), a) ==> InReach(FirstSplit(ms, keepRecent), a)
  {
    hide WellPaired, Straddles, Finds, NoOrphanFrom;
    var first := FirstSplit(ms, keepRecent);
    var e :| Earliest(ms, first, e) && (if e.None? then s == first else Opens(ms, e.value, s));
    forall a: nat | a < first ensures Finds(ms, first, a) <==> Straddles(ms, first, a) {
      FindsStraddler(ms, first, a);
    }
    StraddlersAreEarlier(ms, first);
    match e
    case None => OrphansAreStraddled(ms, first);
    case Some(at) =>
      forall a: nat | Straddles(ms, first, a) ensures a == at {
        OneStraddler(ms, first, a, at);
      }
      FindIsAssistant(ms, first, at);
      ClosedFromNonTool(ms, s);
  }

  /** Where the kept tail starts: 2 * keepRecent messages from the end, unless an assistant within
      reach is separated from one of its results. Then it starts at the nearest user message at
      most nine before that assistant, never the very first message, or else at the assistant. */
  lemma SplitExactly(ms: seq<Message>, keepRecent: nat, s: nat)
    requires WellPaired(ms) && |ms| >= 2 * keepRecent && IsSplit(ms, keepRecent, s)
    ensures var first := |ms| - 2 * keepRecent;
      && ((forall a: nat :: Straddles(ms, first, a) ==> a == 0 || first - a > 39) ==> s == first)
      && (forall a: nat :: Straddles(ms, first, a) && 1 <= a && first - a <= 39 ==>
            && a - 9 <= s <= a < |ms| && (forall u :: s < u <= a ==> !ms[u].role.UserRole?)
            && if s == a && !ms[a].role.UserRole? then forall u :: 1 <= u && a - 9 <= u <= a ==> !ms[u].role.UserRole?
               else 1 <= s && ms[s].role.UserRole?)
  {
    hide WellPaired, Straddles, Finds;
    var first := FirstSplit(ms, keepRecent);
    var e :| Earliest(ms, first, e) && (if e.None? then s == first else Opens(ms, e.value, s));
    forall a: nat | a < first ensures Finds(ms, first, a) <==> Straddles(ms, first, a) {
      FindsStraddler(ms, first, a);
    }
    StraddlersAreEarlier(ms, first);
    if e.Some? {
      forall a: nat | Straddles(ms, first, a) ensures a == e.value {
        OneStraddler(ms, first, a, e.value);
      }
    }
  }

  lemma StraddlersAreEarlier(ms: seq<Message>, split: nat)
    ensures forall a: nat :: Straddles(ms, split, a) ==> a < split
  {
  }

  lemma FindIsAssistant(ms: seq<Message>, split: nat, i: nat)
    requires i < split <= |ms| && Finds(ms, split, i)
    ensures ms[i].role.AssistantRole?
  {
  }

  /** At least the requested messages are kept, at most 48 more, and something is always dropped. */
  lemma KeptSize(ms: seq<Message>, keepRecent: nat, s: nat)
    requires |ms| > 2 * keepRecent && IsSplit(ms, keepRecent, s)
    ensures 1 <= s && 2 * keepRecent <= |ms| - s <= 2 * keepRecent + 48
  {
  }

  /** The split point is determined by the messages. */
  lemma SplitIsUnique(ms: seq<Message>, keepRecent: nat, s: nat, t: nat)
    requires |ms| >= 2 * keepRecent && IsSplit(ms, keepRecent, s) && IsSplit(ms, keepRecent, t)
    ensures s == t
  {
    hide Finds;
    var first := FirstSplit(ms, keepRecent);
    var e :| Earliest(ms, first, e) && (if e.None? then s == first else Opens(ms, e.value, s));
    var f :| Earliest(ms, first, f) && (if f.None? then t == first else Opens(ms, f.value, t));
    assert e == f;
  }

  /** At most 39 results to a call and a first message that is not an assistant: always paired. */
  lemma ShortBatchesStayPaired(ms: seq<Message>, keepRecent: nat, s: nat)
    requires WellPaired(ms) && |ms| >= 2 * keepRecent && IsSplit(ms, keepRecent, s)
    requires ms != [] ==> !ms[0].role.AssistantRole?
    requires forall a, j :: 0 <= a < j < |ms| && IsResult(ms[j]) && Declares(ms[a], ms[j].callId) ==> j - a <= 39
    ensures NoOrphanFrom(ms, s)
  {
    KeptIsPairedIff(ms, keepRecent, s);
  }

  /** An assistant in front of everything is never found: its result is kept without it. */
  lemma FirstAssistantIsLost(id: string)
    requires id != ""
    ensures var ms := [Message(AssistantRole, [id], "", NoContent), Message(ToolRole, [], id, NoContent), UserText("")];
      WellPaired(ms) && forall s: nat :: IsSplit(ms, 1, s) ==> !NoOrphanFrom(ms, s)
  {
    var ms := [Message(AssistantRole, [id], "", NoContent), Message(ToolRole, [], id, NoContent), UserText("")];
    assert IsResult(ms[1]) && Declares(ms[0], ms[1].callId) && OnlyTools(ms, 0, 1);
    assert Straddles(ms, 1, 0) && !InReach(1, 0);
    forall s: nat | IsSplit(ms, 1, s) ensures !NoOrphanFrom(ms, s) {
      KeptIsPairedIff(ms, 1, s);
    }
  }

  function Id(n: nat): string { seq(n + 1, _ => 'x') }

  /** A user message, one assistant making forty calls, their results, and another user message. */
  function FortyCalls(): seq<Message>
  {
    [UserText(""), Message(AssistantRole, seq(40, n requires n >= 0 => Id(n)), "", NoContent)]
    + seq(40, n requires n >= 0 => Message(ToolRole, [], Id(n), NoContent)) + [UserText("")]
  }

  /** Forty results to one call can lose their assistant. */
  lemma FortyResultsAreLost()
    ensures WellPaired(FortyCalls()) && forall s: nat :: IsSplit(FortyCalls(), 1, s) ==> !NoOrphanFrom(FortyCalls(), s)
  {
    var ms := FortyCalls();
    forall j | 2 <= j < 42 ensures Declares(ms[1], ms[j].callId) && OnlyTools(ms, 1, j) {
      assert ms[1].calls[j - 2] == ms[j].callId;
    }
    assert WellPaired(ms);
    hide FortyCalls, WellPaired;
    assert IsResult(ms[41]) && Declares(ms[1], ms[41].callId);
    assert Straddles(ms, 41, 1) && !InReach(41, 1);
    forall s: nat | IsSplit(ms, 1, s) ensures !NoOrphanFrom(ms, s) {
      KeptIsPairedIff(ms, 1, s);
    }
  }

  // ---------------------------------------------------------------- the compacted conversation

  /** System messages, the summary, the plan if there is one, then the kept tail. */
  function Rebuilt(all: seq<Message>, s: nat, notice: string, plan: string): seq<Message>
    requires s <= |NonSystems(all)|
  {
    Systems(all) + ([UserText(notice)] + (if plan == "" then [] else [UserText(plan)])) + NonSystems(all)[s..]
  }

  const NOTICE_HEAD := "This session is being continued from a previous conversation "
    + "that ran out of context. The summary below covers the earlier portion.\n\n"
  const NOTICE_KEPT := "\n\nRecent messages are preserved verbatim.\n\n"
  const NOTICE_TAIL := "Continue the conversation from where it left off without asking further questions. "
    + "Resume directly \U{2014} do not acknowledge the summary, do not recap. "
    + "Pick up the last task as if the break never happened."

  /** The text that stands for the dropped messages. */
  function Notice(summary: string, taskContext: string): string
  {
    NOTICE_HEAD + summary + NOTICE_KEPT
    + (if taskContext == "" then "" else "\n\n" + taskContext + "\n\n") + NOTICE_TAIL
  }

  lemma NoticeStarts(summary: string, taskContext: string)
    ensures NOTICE_HEAD + summary + NOTICE_KEPT <= Notice(summary, taskContext)
    ensures taskContext != "" ==>
      NOTICE_HEAD + summary + NOTICE_KEPT + "\n\n" + taskContext <= Notice(summary, taskContext)
  {
    Starts(NOTICE_HEAD + summary + NOTICE_KEPT, "\n\n", taskContext, "\n\n", NOTICE_TAIL);
  }

  lemma Starts(a: string, b: string, c: string, d: string, e: string)
    ensures a <= a + "" + e
    ensures a <= a + (b + c + d) + e && a + b + c <= a + (b + c + d) + e
  {
    assert a + (b + c + d) + e == (a + b + c) + (d + e);
  }

  /** The parts of a sequence put together as AutoCompact does. */
  lemma PartsOf(system: seq<Message>, notice: string, plan: string, kept: seq<Message>, out: seq<Message>)
    requires out == (
      var short := system + [UserText(notice)] + kept;
      if plan == "" then short else short[..|system| + 1] + [UserText(plan)] + short[|system| + 1..])
    ensures out == system + ([UserText(notice)] + (if plan == "" then [] else [UserText(plan)])) + kept
    ensures |out| == |system| + (if plan == "" then 1 else 2) + |kept|
    ensures out[..|system|] == system && out[|system|] == UserText(notice)
    ensures plan != "" ==> out[|system| + 1] == UserText(plan)
    ensures out[|system| + (if plan == "" then 1 else 2)..] == kept
  {
  }

  /** `summary` is None when the model failed and the fallback had nothing to say either. With a
      summary, the system messages are followed by one user message that holds the summary and
      the task context, by the plan as a user message of its own, and by the kept tail. */
  method AutoCompact(all: seq<Message>, keepRecent: nat, summary: Option<string>, taskContext: string, plan: string)
    returns (out: seq<Message>, formatted: string)
    ensures |NonSystems(all)| <= 2 * keepRecent || summary.None? ==>
      out == Systems(all) + NonSystems(all) && formatted == ""
    ensures |NonSystems(all)| > 2 * keepRecent && summary.Some? ==>
      formatted == summary.value &&
      exists s :: 0 <= s <= |NonSystems(all)| && IsSplit(NonSystems(all), keepRecent, s)
        && out == Rebuilt(all, s, Notice(formatted, taskContext), plan)
    ensures |NonSystems(all)| > 2 * keepRecent && summary.Some? ==>
      var k, tail := |Systems(all)|, |Systems(all)| + if plan == "" then 1 else 2;
      && k < tail <= |out| && out[..k] == Systems(all)
      && out[k].role == UserRole && out[k].content.Text?
      && NOTICE_HEAD + summary.value + NOTICE_KEPT <= out[k].content.text
      && (taskContext != "" ==> NOTICE_HEAD + summary.value + NOTICE_KEPT + "\n\n" + taskContext <= out[k].content.text)
      && (plan != "" ==> out[k + 1].role == UserRole && out[k + 1].content == Text(plan))
      && exists s :: 0 <= s <= |NonSystems(all)| && IsSplit(NonSystems(all), keepRecent, s)
           && out[tail..] == NonSystems(all)[s..]
  {
    hide IsSplit, Systems, NonSystems;
    var system, ms := Systems(all), NonSystems(all);
    if |ms| <= keepRecent * 2 {
      return system + ms, "";
    }
    var s := FindSplit(ms, keepRecent);
    if summary.None? {
      return system + ms, "";
    }
    formatted := summary.value;
    var task := if taskContext == "" then "" else "\n\n" + taskContext + "\n\n";
    var notice := NOTICE_HEAD + formatted + NOTICE_KEPT + task + NOTICE_TAIL;
    out := system + [UserText(notice)] + ms[s..];
    if plan != "" {
      out := out[..|system| + 1] + [UserText(plan)] + out[|system| + 1..];
    }
    PartsOf(system, notice, plan, ms[s..], out);
    NoticeStarts(formatted, taskContext);
  }

  lemma PrefixWithoutTools(prefix: seq<Message>, ms: seq<Message>, s: nat)
    requires s <= |ms| && forall m :: m in prefix ==> !m.role.ToolRole? && !m.role.AssistantRole?
    ensures NoOrphanFrom(prefix + ms[s..], 0) <==> NoOrphanFrom(ms, s)
  {
    hide NoOrphanFrom;
    if NoOrphanFrom(prefix + ms[s..], 0) { ClosedWithoutPrefix(prefix, ms[s..]); }
    if NoOrphanFrom(ms[s..], 0) { ClosedBehindPrefix(prefix, ms[s..]); }
    ClosedSuffix(ms, s);
  }

  lemma ClosedSuffix(ms: seq<Message>, s: nat)
    requires s <= |ms|
    ensures NoOrphanFrom(ms[s..], 0) <==> NoOrphanFrom(ms, s)
  {
    if NoOrphanFrom(ms[s..], 0) {
      forall j | s <= j < |ms| && IsResult(ms[j]) ensures exists a :: s <= a < j && Declares(ms[a], ms[j].callId) {
        assert ms[s..][j - s] == ms[j];
        var b :| 0 <= b < j - s && Declares(ms[s..][b], ms[j].callId);
        assert Declares(ms[s + b], ms[j].callId);
      }
    }
    if NoOrphanFrom(ms, s) {
      forall i | 0 <= i < |ms[s..]| && IsResult(ms[s..][i])
        ensures exists b :: 0 <= b < i && Declares(ms[s..][b], ms[s..][i].callId)
      {
        var a :| s <= a < s + i && Declares(ms[a], ms[s + i].callId);
        assert ms[s..][a - s] == ms[a];
      }
    }
  }

  /** The system messages survive, first and in order; the tail is unchanged; no result is
      orphaned exactly when the separated assistant is in reach. */
  lemma CompactedConversation(all: seq<Message>, keepRecent: nat, s: nat, notice: string, plan: string)
    requires |NonSystems(all)| > 2 * keepRecent && s <= |NonSystems(all)|
    requires IsSplit(NonSystems(all), keepRecent, s) && WellPaired(NonSystems(all))
    ensures var ms, out := NonSystems(all), Rebuilt(all, s, notice, plan);
      && Systems(out) == Systems(all) <= out
      && |out| - |Systems(all)| <= 2 * keepRecent + 50
      && ms[|ms| - 2 * keepRecent..] == out[|out| - 2 * keepRecent..]
      && (NoOrphanFrom(out, 0) <==>
          forall a: nat :: Straddles(ms, FirstSplit(ms, keepRecent), a) ==> InReach(FirstSplit(ms, keepRecent), a))
  {
    hide WellPaired, IsSplit, NoOrphanFrom, Straddles, Systems, NonSystems;
    var ms, out := NonSystems(all), Rebuilt(all, s, notice, plan);
    var middle := [UserText(notice)] + (if plan == "" then [] else [UserText(plan)]);
    SplitRoles(all);
    KeptSize(ms, keepRecent, s);
    KeptIsPairedIff(ms, keepRecent, s);
    PrefixWithoutTools(Systems(all) + middle, ms, s);
    SystemsStayFirst(Systems(all), middle, ms[s..]);
  }
}
