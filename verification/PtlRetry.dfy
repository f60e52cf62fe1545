/** Dropping the oldest rounds when the compaction request itself is too long. */
module PtlRetry {
  import opened PyLists
  import opened PyStrings
  import opened Conversation

  /** A round starts at a user message with non-blank text. */
  predicate StartsRound(m: Message)
  {
    m.role.UserRole? && m.content.Text? && Strip(m.content.text) != ""
  }

  lemma {:induction false} StripsToNothing(s: string)
    ensures RStrip(s) == "" <==> forall i :: 0 <= i < |s| ==> IsSpace(s[i])
  {
    hide IsSpace;
    RStripLies(s);
    if RStrip(s) != "" {
      assert !IsSpace(s[|RStrip(s)| - 1]);
    }
  }

  /** Some character of the text is not blank. */
  lemma StartsRoundIff(m: Message)
    ensures StartsRound(m) <==>
      m.role == UserRole && m.content.Text? && exists i :: 0 <= i < |m.content.text| && !IsSpace(m.content.text[i])
  {
    if m.content.Text? {
      var text := m.content.text;
      hide IsSpace, RStrip, LStrip;
      StripsToNothing(text);
      StripLies(text);
      RStripLies(text);
      assert Strip(text) == "" <==> RStrip(text) == "" by { StripEmptyIff(text); }
    }
  }

  lemma StripEmptyIff(text: string)
    ensures Strip(text) == "" <==> RStrip(text) == ""
  {
    var r := RStrip(text);
    RStripLies(text);
    LStripLies(r);
    if r != "" {
      assert r[|r| - 1] == text[|r| - 1];
    }
  }

  type Groups = seq<seq<Message>>

  /** No round start inside. */
  ghost predicate IsRound(g: seq<Message>)
  {
    g != [] && forall j :: 1 <= j < |g| ==> !StartsRound(g[j])
  }

  ghost predicate Rounds(gs: Groups)
  {
    forall i :: 0 <= i < |gs| ==> IsRound(gs[i]) && (i > 0 ==> StartsRound(gs[i][0]))
  }

  /** Consecutive groups: none empty, a new one exactly at each round start (but the first). */
  ghost predicate IsGrouping(ms: seq<Message>, gs: Groups)
  {
    Flatten(gs) == ms && Rounds(gs)
  }

  method Group(ms: seq<Message>) returns (groups: Groups)
    ensures IsGrouping(ms, groups)
  {
    hide IsGrouping, StartsRound;
    groups := [];
    var current: seq<Message> := [];
    for n := 0 to |ms|
      invariant current == [] ==> n == 0 && groups == []
      invariant current != [] ==> IsGrouping(ms[..n], groups + [current])
    {
      var m := ms[n];
      assert ms[..n + 1] == ms[..n] + [m];
      if current != [] { Extended(ms[..n], groups, current, m); } else { FirstMessage(m); }
      ghost var grown := if StartsRound(m) && current != [] then (groups + [current]) + [[m]]
        else groups + [current + [m]];
      assert [] + [m] == [m];
      if StartsRound(m) && current != [] {
        groups := groups + [current];
        current := [];
      }
      current := current + [m];
      assert groups + [current] == grown;
    }
    assert ms[..|ms|] == ms;
    if current != [] {
      groups := groups + [current];
    } else {
      NoMessages();
    }
  }

  lemma FirstMessage(m: Message)
    ensures IsGrouping([m], [] + [[m]])
  {
    FlattenSnoc([], [m]);
  }

  lemma NoMessages()
    ensures IsGrouping([], [])
  {
  }

  /** One more message opens a group or joins the current one. */
  lemma Extended(ms: seq<Message>, groups: Groups, current: seq<Message>, m: Message)
    requires current != [] && IsGrouping(ms, groups + [current])
    ensures IsGrouping(ms + [m], if StartsRound(m) then (groups + [current]) + [[m]] else groups + [current + [m]])
  {
    hide Flatten, StartsRound;
    FlattenSnoc(groups, current);
    FlattenSnoc(groups, current + [m]);
    FlattenSnoc(groups + [current], [m]);
    var all := groups + [current];
    assert all[|groups|] == current;
    assert forall i :: 0 <= i < |groups| ==> all[i] == groups[i];
  }

  lemma RestOfRounds(gs: Groups, d: nat)
    requires Rounds(gs) && d <= |gs|
    ensures Rounds(gs[d..])
    ensures d > 0 && d < |gs| ==> StartsRound(gs[d][0])
  {
    hide StartsRound, IsRound;
  }

  /** A conversation has one grouping. */
  lemma {:induction false} GroupingIsUnique(ms: seq<Message>, x: Groups, y: Groups)
    requires IsGrouping(ms, x) && IsGrouping(ms, y)
    ensures x == y
    decreases |x|
  {
    hide StartsRound, IsRound;
    if x == [] || y == [] {
      NoGroups(x);
      NoGroups(y);
    } else {
      FirstNotShorter(ms, x, y);
      FirstNotShorter(ms, y, x);
      assert x[0] == ms[..|x[0]|] == y[0];
      RestOfRounds(x, 1);
      RestOfRounds(y, 1);
      hide Rounds;
      assert Flatten(x[1..]) == ms[|x[0]|..] == Flatten(y[1..]);
      GroupingIsUnique(ms[|x[0]|..], x[1..], y[1..]);
      assert x == [x[0]] + x[1..] && y == [y[0]] + y[1..];
    }
  }

  lemma NoGroups(gs: Groups)
    requires Rounds(gs)
    ensures Flatten(gs) == [] <==> gs == []
  {
    hide StartsRound;
    if gs != [] { assert IsRound(gs[0]); }
  }

  lemma FirstNotShorter(ms: seq<Message>, x: Groups, y: Groups)
    requires IsGrouping(ms, x) && IsGrouping(ms, y) && x != [] && y != []
    ensures |x[0]| >= |y[0]|
  {
    hide StartsRound;
    var n := |x[0]|;
    assert ms == x[0] + Flatten(x[1..]) && ms == y[0] + Flatten(y[1..]);
    assert forall j :: 0 <= j < |y[0]| ==> y[0][j] == ms[j];
    assert IsRound(x[0]) && IsRound(y[0]);
    if |x| == 1 {
      assert Flatten(x[1..]) == [];
    } else {
      assert IsRound(x[1]) && Flatten(x[1..]) == x[1] + Flatten(x[1..][1..]);
      assert ms[n] == x[1][0];
    }
  }

  function Drop(g: nat): nat
    requires g >= 2
  {
    Min(Max(1, g / 5), g - 1)
  }

  /** What the retry makes of a conversation with the given rounds. */
  function Truncated(gs: Groups): Option<seq<Message>>
  {
    if |gs| < 2 then None else Some(Flatten(gs[Drop(|gs|)..]))
  }

  method TruncateHead(ms: seq<Message>) returns (r: Option<seq<Message>>)
    ensures exists gs :: IsGrouping(ms, gs) && r == Truncated(gs)
  {
    var groups := Group(ms);
    if |groups| < 2 {
      return None;
    }
    var drop := Max(1, |groups| / 5);
    drop := Min(drop, |groups| - 1);
    var retained := Concatenate(groups[drop..]);
    RestIsGrouped(ms, groups, drop);
    if retained == [] {
      assert false;
    }
    if retained[0].role.AssistantRole? {
      assert false;
    }
    r := Some(retained);
  }

  method Concatenate(gs: Groups) returns (out: seq<Message>)
    ensures out == Flatten(gs)
  {
    out := [];
    for n := 0 to |gs|
      invariant out == Flatten(gs[..n])
    {
      assert gs[..n + 1] == gs[..n] + [gs[n]];
      FlattenSnoc(gs[..n], gs[n]);
      out := out + gs[n];
    }
    assert gs[..|gs|] == gs;
  }

  /** Re-grouping what is retained gives the remaining groups, and it starts a round. */
  lemma RestIsGrouped(ms: seq<Message>, gs: Groups, d: nat)
    requires IsGrouping(ms, gs) && 1 <= d < |gs|
    ensures IsGrouping(Flatten(gs[d..]), gs[d..])
    ensures var rest := Flatten(gs[d..]);
      rest != [] && StartsRound(rest[0]) && |rest| < |ms| && rest == ms[|ms| - |rest|..]
  {
    hide StartsRound;
    RestOfRounds(gs, d);
    assert IsRound(gs[0]) && IsRound(gs[d]);
    hide Rounds, IsRound;
    assert gs == gs[..d] + gs[d..];
    FlattenConcat(gs[..d], gs[d..]);
    assert Flatten(gs[d..]) == gs[d] + Flatten(gs[d..][1..]);
    assert Flatten(gs[..d]) == gs[0] + Flatten(gs[..d][1..]);
  }

  /** The newest round is at the end of whatever is retained. */
  lemma EndsWithNewest(gs: Groups, d: nat)
    requires d < |gs|
    ensures var rest, last := Flatten(gs[d..]), gs[|gs| - 1];
      |last| <= |rest| && rest[|rest| - |last|..] == last
  {
    var last := gs[|gs| - 1];
    assert gs[d..] == gs[d..][..|gs| - d - 1] + [last];
    FlattenSnoc(gs[d..][..|gs| - d - 1], last);
  }

  /** A successful truncation drops a fifth of the rounds, at least one; it leaves a proper,
      non-empty suffix that opens with a non-blank user message and still ends with the newest
      round. */
  lemma TruncationIsProper(ms: seq<Message>, gs: Groups)
    requires IsGrouping(ms, gs)
    ensures Truncated(gs).None? <==> |gs| < 2
    ensures Truncated(gs).Some? ==>
      var rest := Truncated(gs).value;
      rest == Flatten(gs[if |gs| < 10 then 1 else |gs| / 5..]) &&
      rest != [] && StartsRound(rest[0]) && |rest| < |ms| && rest == ms[|ms| - |rest|..]
      && |gs[|gs| - 1]| <= |rest| && rest[|rest| - |gs[|gs| - 1]|..] == gs[|gs| - 1]
      && IsGrouping(rest, gs[if |gs| < 10 then 1 else |gs| / 5..])
  {
    if |gs| >= 2 {
      hide StartsRound, Rounds, Flatten;
      RestIsGrouped(ms, gs, Drop(|gs|));
      EndsWithNewest(gs, Drop(|gs|));
    }
  }

  ghost predicate Retry(ms: seq<Message>, next: seq<Message>)
  {
    exists gs :: IsGrouping(ms, gs) && Truncated(gs) == Some(next)
  }

  lemma RetryStep(ms: seq<Message>, next: seq<Message>, gs: Groups)
    requires Retry(ms, next) && IsGrouping(ms, gs)
    ensures |gs| >= 2 && IsGrouping(next, gs[Drop(|gs|)..])
  {
    var g :| IsGrouping(ms, g) && Truncated(g) == Some(next);
    GroupingIsUnique(ms, g, gs);
    RestIsGrouped(ms, gs, Drop(|gs|));
  }

  /** Successive retries: each conversation is what truncation made of the one before. */
  ghost predicate Retries(chain: seq<seq<Message>>)
  {
    forall i :: 0 <= i < |chain| - 1 ==> Retry(chain[i], chain[i + 1])
  }

  /** A conversation of g rounds is truncated successfully at most g - 1 times, and if it is that
      often, only its newest round is left and the next attempt gives up. */
  lemma {:induction false} RetriesEnd(chain: seq<seq<Message>>, gs: Groups)
    requires chain != [] && Retries(chain) && IsGrouping(chain[0], gs)
    ensures |chain| == 1 || |chain| <= |gs|
    ensures gs != [] && |chain| == |gs| ==> IsGrouping(chain[|chain| - 1], [gs[|gs| - 1]])
    decreases |chain|
  {
    hide Retry, IsGrouping;
    if |chain| > 1 {
      RetryStep(chain[0], chain[1], gs);
      RetriesEnd(chain[1..], gs[Drop(|gs|)..]);
    } else if |gs| == 1 {
      assert gs == [gs[0]];
    }
  }
}
