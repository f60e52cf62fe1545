/** The first compaction level: the in-place pass that collapses oversized texts. */
module CollapsePass {
  import opened Conversation
  import opened Collapse

  datatype Limits = Limits(limit: nat, head: nat, tail: nat)

  function Short(text: string, l: Limits): string
  {
    Collapsed(text, l.limit, l.head, l.tail)
  }

  /** What becomes of a block; `body` is the printed form of its text field. */
  function ShortBlock(b: Block, l: Limits): Block
  {
    if b.Block? && (b.kind == "tool_result" || b.kind == "text") then b.(body := Short(b.body, l)) else b
  }

  function ShortBlocks(bs: seq<Block>, l: Limits): (r: seq<Block>)
    ensures |r| == |bs| && forall i :: 0 <= i < |bs| ==> r[i] == ShortBlock(bs[i], l)
  {
    seq(|bs|, i requires 0 <= i < |bs| => ShortBlock(bs[i], l))
  }

  /** What becomes of a message: nothing at all if it is a system message. */
  function ShortMessage(m: Message, l: Limits): Message
  {
    if m.role.SystemRole? then m
    else match m.content
      case Text(text) => m.(content := Text(Short(text, l)))
      case Blocks(bs) => m.(content := Blocks(ShortBlocks(bs, l)))
      case NoContent => m
  }

  /** In a message that is not a system message, texts and the texts of tool results and text blocks
      are collapsed; every other block, and everything else about the message, stays. */
  lemma OnlyTextsChange(m: Message, l: Limits)
    ensures var short := ShortMessage(m, l);
      && short.role == m.role && short.calls == m.calls && short.callId == m.callId
      && (m.role == SystemRole || m.content.NoContent? ==> short == m)
      && (m.role != SystemRole && m.content.Text? ==>
            short.content == Text(Collapsed(m.content.text, l.limit, l.head, l.tail)))
      && (short.content.Blocks? <==> m.content.Blocks?)
    ensures m.role != SystemRole && m.content.Blocks? ==>
      var before, after := m.content.blocks, ShortMessage(m, l).content.blocks;
      && |after| == |before|
      && forall i :: 0 <= i < |before| ==>
           if before[i].Block? && before[i].kind in ["tool_result", "text"]
           then after[i] == Block(before[i].kind, Collapsed(before[i].body, l.limit, l.head, l.tail))
           else after[i] == before[i]
  {
    hide Collapsed;
  }

  method CollapseBlocks(blocks: seq<Block>, l: Limits) returns (out: seq<Block>)
    ensures out == ShortBlocks(blocks, l)
  {
    hide Collapsed;
    out := blocks;
    for n := 0 to |blocks|
      invariant |out| == |blocks|
      invariant forall k :: 0 <= k < n ==> out[k] == ShortBlock(blocks[k], l)
      invariant forall k :: n <= k < |blocks| ==> out[k] == blocks[k]
    {
      var b := blocks[n];
      if b.Bare? || !(b.kind == "tool_result" || b.kind == "text") {
        continue;
      }
      if |b.body| <= l.limit {
        ShortIsSame(b.body, l);
        continue;
      }
      out := out[n := b.(body := Short(b.body, l))];
    }
  }

  lemma ShortIsSame(text: string, l: Limits)
    requires |text| <= l.limit
    ensures Short(text, l) == text
  {
  }

  /** Every message is rewritten in its place, in one pass. */
  method ApplyCollapse(messages: array<Message>, l: Limits)
    modifies messages
    ensures forall k :: 0 <= k < messages.Length ==> messages[k] == ShortMessage(old(messages[k]), l)
    ensures forall k :: 0 <= k < messages.Length ==>
      messages[k].(content := old(messages[k]).content) == old(messages[k])
      && (old(messages[k]).role.SystemRole? ==> messages[k] == old(messages[k]))
  {
    hide Short, ShortBlocks;
    for n := 0 to messages.Length
      invariant forall k :: 0 <= k < n ==> messages[k] == ShortMessage(old(messages[k]), l)
      invariant forall k :: n <= k < messages.Length ==> messages[k] == old(messages[k])
    {
      var m := messages[n];
      if m.role.SystemRole? {
        continue;
      }
      match m.content
      case Text(text) =>
        if |text| > l.limit {
          messages[n] := m.(content := Text(Short(text, l)));
        } else {
          ShortIsSame(text, l);
        }
      case Blocks(bs) =>
        var out := CollapseBlocks(bs, l);
        messages[n] := m.(content := Blocks(out));
      case NoContent =>
    }
  }

  /** Every text the pass looks at satisfies the property. */
  ghost predicate EachText(m: Message, p: string -> bool)
  {
    m.role.SystemRole? ||
    (match m.content
     case Text(text) => p(text)
     case Blocks(bs) => forall b :: b in bs && b.Block? && (b.kind == "tool_result" || b.kind == "text") ==> p(b.body)
     case NoContent => true)
  }

  /** When every text's length fits, the pass leaves each within the limit and a second pass
      changes nothing. */
  lemma PassBoundsAndSettles(m: Message, l: Limits)
    requires EachText(m, text => Fits(|text|, l.limit, l.head, l.tail))
    ensures EachText(ShortMessage(m, l), text => |text| <= l.limit)
    ensures ShortMessage(ShortMessage(m, l), l) == ShortMessage(m, l)
  {
    hide Collapsed, Fits;
    if !m.role.SystemRole? {
      match m.content
      case Text(text) => ShortIsBounded(text, l);
      case Blocks(bs) =>
        var once := ShortBlocks(bs, l);
        forall i | 0 <= i < |bs| ensures ShortBlock(once[i], l) == once[i]
          && (bs[i].Block? && (bs[i].kind == "tool_result" || bs[i].kind == "text") ==> |once[i].body| <= l.limit) {
          if bs[i].Block? && (bs[i].kind == "tool_result" || bs[i].kind == "text") {
            assert bs[i] in bs;
            ShortIsBounded(bs[i].body, l);
          }
        }
        assert ShortBlocks(once, l) == once;
      case NoContent =>
    }
  }

  lemma ShortIsBounded(text: string, l: Limits)
    requires Fits(|text|, l.limit, l.head, l.tail)
    ensures |Short(text, l)| <= l.limit && Short(Short(text, l), l) == Short(text, l)
  {
    CollapsedLength(text, l.limit, l.head, l.tail);
    CollapseTwice(text, l.limit, l.head, l.tail);
  }
}
