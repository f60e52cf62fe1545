/** The metadata block at the tail of a user message: attaching, stripping, replacing. */
module TurnMetadata {
  import opened PyLists
  import opened PyStrings

  const OPEN := "<turn_meta>"
  const CLOSE := "</turn_meta>"

  function Block(json: string): string
  {
    OPEN + json + CLOSE
  }

  predicate Contains(s: string, pat: string)
  {
    Find(s, pat).Some?
  }

  /** The last occurrence that starts at `from` or before. */
  function RFindFrom(s: string, pat: string, from: nat): (r: Option<nat>)
    ensures r.Some? ==> IsAt(s, pat, r.value) && forall i: nat :: r.value < i <= from ==> !IsAt(s, pat, i)
    ensures r.None? ==> forall i: nat :: i <= from ==> !IsAt(s, pat, i)
  {
    if IsAt(s, pat, from) then Some(from) else if from == 0 then None else RFindFrom(s, pat, from - 1)
  }

  function RFind(s: string, pat: string): (r: Option<nat>)
    ensures r.Some? ==> IsAt(s, pat, r.value) && forall i: nat :: r.value < i ==> !IsAt(s, pat, i)
    ensures r.None? ==> forall i: nat :: !IsAt(s, pat, i)
  {
    RFindFrom(s, pat, |s|)
  }

  /** The text before the last opening tag, right-stripped, and what stands between that tag and
      the next closing one; the text itself and nothing if there is no such pair. */
  function StripMeta(text: string): (string, Option<string>)
  {
    var at := RFind(text, OPEN);
    if at.None? then (text, None)
    else
      var close := FindFrom(text, CLOSE, at.value);
      if close.None? then (text, None)
      else (RStrip(text[..at.value]), Some(Between(text, at.value + |OPEN|, close.value)))
  }

  /** Python's s[a:b]. */
  function Between(s: string, a: nat, b: nat): string
  {
    if a <= b <= |s| then s[a..b] else ""
  }

  function Join(text: string, block: string): string
  {
    if text == "" then block else text + "\n\n" + block
  }

  /** Attaching to a text replaces the block it ends in, if any. */
  function Attach(text: string, json: string): string
  {
    Join(StripMeta(text).0, Block(json))
  }

  // ---------------------------------------------------------------- occurrences of the tags

  lemma IsAtChars(s: string, pat: string, i: nat)
    requires IsAt(s, pat, i)
    ensures forall j :: i <= j < i + |pat| ==> s[j] == pat[j - i]
  {
    forall j | i <= j < i + |pat| ensures s[j] == pat[j - i] {
      assert s[i..i + |pat|][j - i] == s[j];
    }
  }

  ghost predicate IsTag(tag: string) { tag == OPEN || tag == CLOSE }

  /** Both tags begin with a bracket and have no other one that opens. */
  lemma TagChars(tag: string)
    requires IsTag(tag)
    ensures |OPEN| == 11 && |CLOSE| == 12 && OPEN[1] == 't' && CLOSE[1] == '/'
    ensures forall k :: 0 <= k < |tag| ==> (tag[k] == '<' <==> k == 0)
  {
  }

  /** Behind p, brackets stand where the tags start, or in the json. */
  lemma BlockChars(p: string, json: string, j: nat)
    requires |p| <= j < |p + Block(json)|
    ensures var s, a, e := p + Block(json), |p| + 11, |p| + 11 + |json|;
      && s[j] == (if j < a then OPEN[j - |p|] else if j < e then json[j - a] else CLOSE[j - e])
      && (s[j] == '<' ==> j == |p| || a <= j < e || j == e)
  {
    TagChars(OPEN);
    TagChars(CLOSE);
  }

  lemma NoCrossing(s: string, tag: string, i: nat, e: nat)
    requires IsTag(tag) && IsAt(s, tag, i) && i < e < |s| && s[e] == '<'
    ensures i + |tag| <= e
  {
    TagChars(tag);
    IsAtChars(s, tag, i);
  }

  /** A tag that occurs in p + OPEN + json + CLOSE from that OPEN on is that OPEN, the final
      CLOSE, or lies within json. */
  lemma TagOccurrence(p: string, json: string, tag: string, i: nat)
    requires IsTag(tag) && IsAt(p + Block(json), tag, i) && i >= |p|
    ensures (i == |p| && tag == OPEN)
      || (i == |p| + 11 + |json| && tag == CLOSE)
      || (|p| + 11 <= i && i + |tag| <= |p| + 11 + |json| && IsAt(json, tag, i - |p| - 11))
  {
    TagChars(OPEN);
    TagChars(CLOSE);
    hide Block;
    var s, a, e := p + Block(json), |p| + 11, |p| + 11 + |json|;
    assert |s| == e + 12 by { BlockLength(json); }
    IsAtChars(s, tag, i);
    BlockChars(p, json, i);
    BlockChars(p, json, i + 1);
    BlockChars(p, json, e);
    assert s[i] == tag[0] && s[i + 1] == tag[1];
    if i < e { NoCrossing(s, tag, i, e); }
    if a <= i && i + |tag| <= e {
      InJson(p, json, i, i + |tag|);
    }
  }

  lemma BlockLength(json: string)
    ensures |Block(json)| == 23 + |json|
  {
  }

  lemma InJson(p: string, json: string, i: nat, j: nat)
    requires |p| + 11 <= i <= j <= |p| + 11 + |json|
    ensures |p + Block(json)| >= j
    ensures (p + Block(json))[i..j] == json[i - |p| - 11..j - |p| - 11]
  {
    BlockLength(json);
    var s, a := p + Block(json), |p| + 11;
    var inside, part := s[i..j], json[i - a..j - a];
    forall k | 0 <= k < j - i ensures inside[k] == part[k] {
      BlockChars(p, json, i + k);
      assert inside[k] == s[i + k] && part[k] == json[i + k - a];
    }
    hide Block;
    assert |inside| == |part|;
  }

  lemma TagsAreThere(p: string, json: string)
    ensures IsAt(p + Block(json), OPEN, |p|)
    ensures IsAt(p + Block(json), CLOSE, |p| + 11 + |json|)
  {
    var s := p + Block(json);
    assert s[|p|..|p| + 11] == OPEN;
    assert s[|p| + 11 + |json|..|p| + 11 + |json| + 12] == CLOSE;
  }

  lemma JsonTags(p: string, json: string, tag: string)
    requires Contains(json, tag)
    ensures exists i :: |p| + 11 <= i && i + |tag| <= |p| + 11 + |json| && IsAt(p + Block(json), tag, i)
  {
    var i := Find(json, tag).value;
    InJson(p, json, |p| + 11 + i, |p| + 11 + i + |tag|);
    assert IsAt(p + Block(json), tag, |p| + 11 + i);
  }

  /** The last opening tag is the block's own exactly if the json has none. */
  lemma LastOpen(p: string, json: string)
    ensures var at := RFind(p + Block(json), OPEN);
      at.Some? && (if Contains(json, OPEN) then json != "" && |p| < at.value <= |p| + 11 + |json| else at.value == |p|)
  {
    TagsAreThere(p, json);
    TagChars(OPEN);
    var at := RFind(p + Block(json), OPEN).value;
    if Contains(json, OPEN) { JsonTags(p, json, OPEN); }
    hide RFind, Block;
    TagOccurrence(p, json, OPEN, at);
  }

  /** From there the next closing tag is the final one exactly if the json has none. */
  lemma NextClose(p: string, json: string, at: nat)
    requires |p| <= at <= |p| + 11 + |json|
    ensures var close := FindFrom(p + Block(json), CLOSE, at);
      close.Some? && close.value <= |p| + 11 + |json|
      && (Contains(json, CLOSE) ==> json != "")
      && (at == |p| ==> (close.value == |p| + 11 + |json| <==> !Contains(json, CLOSE)))
  {
    TagsAreThere(p, json);
    TagChars(CLOSE);
    var close := FindFrom(p + Block(json), CLOSE, at).value;
    if Contains(json, CLOSE) { JsonTags(p, json, CLOSE); }
    hide FindFrom, Block;
    TagOccurrence(p, json, CLOSE, close);
  }

  /** What stripping finds behind any text that ends in a block. */
  lemma StripOfBlock(p: string, json: string)
    ensures var r := StripMeta(p + Block(json));
      && (r.1 == Some(json) <==> !Contains(json, OPEN) && !Contains(json, CLOSE))
      && (!Contains(json, OPEN) ==> r.0 == RStrip(p))
      && (Contains(json, OPEN) ==> |r.0| > |p|)
  {
    var s := p + Block(json);
    LastOpen(p, json);
    var at := RFind(s, OPEN).value;
    NextClose(p, json, at);
    var close := FindFrom(s, CLOSE, at).value;
    StripParts(s, at, close);
    hide *;
    PartsOfBlock(p, json, at, close, Contains(json, OPEN), Contains(json, CLOSE));
  }

  lemma PartsOfBlock(p: string, json: string, at: nat, close: nat, opens: bool, closes: bool)
    requires (opens || closes) ==> json != ""
    requires if opens then |p| < at <= |p| + 11 + |json| else at == |p|
    requires close <= |p| + 11 + |json| && (at == |p| ==> (close == |p| + 11 + |json| <==> !closes))
    ensures |p + Block(json)| == |p| + 23 + |json|
    ensures var s := p + Block(json);
      && (Between(s, at + 11, close) == json <==> !opens && !closes)
      && (!opens ==> RStrip(s[..at]) == RStrip(p))
      && (opens ==> |RStrip(s[..at])| > |p|)
  {
    var s := p + Block(json);
    BlockLength(json);
    BlockChars(p, json, |p|);
    TagChars(OPEN);
    assert s[..|p|] == p;
    InJson(p, json, |p| + 11, |p| + 11 + |json|);
    assert json[0..|json|] == json;
    if opens {
      BracketStays(s, at, |p|);
    }
  }

  lemma StripParts(s: string, at: nat, close: nat)
    requires RFind(s, OPEN) == Some(at) && FindFrom(s, CLOSE, at) == Some(close)
    ensures at + 11 <= |s| && close <= |s|
    ensures StripMeta(s) == (RStrip(s[..at]), Some(Between(s, at + 11, close)))
  {
  }

  lemma BracketStays(s: string, at: nat, n: nat)
    requires n < at <= |s| && s[n] == '<'
    ensures |RStrip(s[..at])| > n
  {
    RStripLies(s[..at]);
    assert s[..at][n] == '<';
  }

  /** What stripping looks at: the last opening tag and the first closing one from there. */
  lemma StripMetaIs(text: string, at: nat, close: nat)
    ensures
      var lastOpen := IsAt(text, "<turn_meta>", at) && forall i: nat :: i > at ==> !IsAt(text, "<turn_meta>", i);
      var nextClose := at <= close && IsAt(text, "</turn_meta>", close)
        && forall i: nat :: at <= i < close ==> !IsAt(text, "</turn_meta>", i);
      && (lastOpen && nextClose ==>
            at + 11 <= close && StripMeta(text) == (RStrip(text[..at]), Some(text[at + 11..close])))
      && (lastOpen && (forall i: nat :: at <= i ==> !IsAt(text, "</turn_meta>", i)) ==>
            StripMeta(text) == (text, None))
    ensures (forall i: nat :: !IsAt(text, "<turn_meta>", i)) ==> StripMeta(text) == (text, None)
  {
    TagChars(OPEN);
    TagChars(CLOSE);
    if IsAt(text, OPEN, at) && at <= close && IsAt(text, CLOSE, close) {
      IsAtChars(text, OPEN, at);
      IsAtChars(text, CLOSE, close);
      assert text[at] == '<' && text[at + 1] == 't' && text[close] == '<' && text[close + 1] == '/';
      assert close != at;
      NoCrossing(text, OPEN, at, close);
    }
  }

  /** The attached text: the user's part, a blank line, and the tagged json. */
  lemma AttachIs(text: string, json: string)
    ensures var clean := StripMeta(text).0;
      Attach(text, json) == (if clean == "" then "" else clean + "\n\n") + ("<turn_meta>" + json + "</turn_meta>")
  {
    hide StripMeta;
  }

  // ---------------------------------------------------------------- texts

  /** What precedes the block in an attached text. */
  function Lead(text: string): string
  {
    var cleaned := StripMeta(text).0;
    if cleaned == "" then "" else cleaned + "\n\n"
  }

  lemma AttachIsLeadAndBlock(text: string, json: string)
    ensures Attach(text, json) == Lead(text) + Block(json)
    ensures RStrip(Lead(text)) == RStrip(StripMeta(text).0)
  {
    hide StripMeta, RStrip;
    var cleaned := StripMeta(text).0;
    if cleaned == "" {
      assert "" + Block(json) == Block(json);
    } else {
      RStripBlank(cleaned, "\n\n");
    }
  }

  lemma {:induction false} RStripBlank(s: string, trail: string)
    requires forall c :: c in trail ==> IsSpace(c)
    ensures RStrip(s + trail) == RStrip(s)
  {
    if trail == "" {
      assert s + trail == s;
    } else {
      assert trail[|trail| - 1] in trail;
      assert (s + trail)[..|s + trail| - 1] == s + trail[..|trail| - 1];
      RStripBlank(s, trail[..|trail| - 1]);
    }
  }

  /** Whatever the user wrote, stripping an attached block returns its json exactly if the json
      contains neither tag. */
  lemma JsonRoundTripIff(text: string, json: string)
    ensures StripMeta(Attach(text, json)).1 == Some(json) <==> !Contains(json, OPEN) && !Contains(json, CLOSE)
  {
    AttachIsLeadAndBlock(text, json);
    StripOfBlock(Lead(text), json);
  }

  /** And it returns the text as it was before, right-stripped, exactly if the json does not
      contain the opening tag. */
  lemma TextRoundTripIff(text: string, json: string)
    ensures StripMeta(Attach(text, json)).0 == RStrip(StripMeta(text).0) <==> !Contains(json, OPEN)
    ensures Contains(json, OPEN) ==> |StripMeta(Attach(text, json)).0| > |RStrip(StripMeta(text).0)|
  {
    AttachIsLeadAndBlock(text, json);
    StripOfBlock(Lead(text), json);
  }

  /** The clean part comes back unchanged exactly if, besides, it does not end in a blank. */
  lemma CleanUnchangedIff(text: string, json: string)
    ensures var clean := StripMeta(text).0;
      StripMeta(Attach(text, json)).0 == clean <==> !Contains(json, OPEN) && RStrip(clean) == clean
  {
    AttachIsLeadAndBlock(text, json);
    StripOfBlock(Lead(text), json);
    hide StripMeta, Attach, RStrip, Contains;
  }

  /** So a text without the opening tag is preserved character for character exactly then. */
  lemma TextUnchangedIff(text: string, json: string)
    requires !Contains(text, OPEN)
    ensures StripMeta(Attach(text, json)).0 == text <==> !Contains(json, OPEN) && RStrip(text) == text
  {
    CleanText(text);
    CleanUnchangedIff(text, json);
  }

  /** Without an opening tag a text is its own clean part. */
  lemma CleanText(text: string)
    requires !Contains(text, OPEN)
    ensures StripMeta(text) == (text, None)
    ensures !Contains(RStrip(text), OPEN)
  {
    RStripLies(text);
    PrefixContains(text, RStrip(text), OPEN);
  }

  lemma PrefixContains(s: string, prefix: string, pat: string)
    requires prefix <= s
    ensures Contains(prefix, pat) ==> Contains(s, pat)
  {
    if Contains(prefix, pat) {
      var i := Find(prefix, pat).value;
      assert prefix[i..i + |pat|] == s[i..i + |pat|];
      assert IsAt(s, pat, i);
    }
  }

  /** Attaching again replaces the first block, exactly if the first json has no opening tag. */
  lemma AttachTwiceIff(text: string, first: string, second: string)
    ensures Attach(Attach(text, first), second) == Join(RStrip(StripMeta(text).0), Block(second))
      <==> !Contains(first, OPEN)
  {
    TextRoundTripIff(text, first);
    hide StripMeta, RStrip, Contains;
    var once := StripMeta(Attach(text, first)).0;
    var clean := RStrip(StripMeta(text).0);
    assert |once| > |clean| ==> |Join(once, Block(second))| > |Join(clean, Block(second))|;
  }

  lemma AttachTwiceToCleanText(text: string, first: string, second: string)
    requires !Contains(text, OPEN) && !Contains(first, OPEN)
    ensures Attach(Attach(text, first), second) == Attach(RStrip(text), second)
  {
    CleanText(text);
    CleanText(RStrip(text));
    AttachTwiceIff(text, first, second);
  }

  // ---------------------------------------------------------------- lists of content blocks

  datatype Item = TextItem(text: string) | OtherItem(id: nat)

  /** A text item holding both tags, wherever they are, is taken for an old block. */
  predicate IsOldBlock(b: Item)
  {
    b.TextItem? && Contains(b.text, OPEN) && Contains(b.text, CLOSE)
  }

  function Others(items: seq<Item>): seq<Item>
  {
    if items == [] then [] else (if IsOldBlock(items[0]) then [] else [items[0]]) + Others(items[1..])
  }

  method AttachToList(items: seq<Item>, json: string) returns (out: seq<Item>)
    ensures out == Others(items) + [TextItem(Block(json))]
  {
    hide IsOldBlock;
    out := [];
    for n := 0 to |items|
      invariant out + Others(items[n..]) == Others(items)
    {
      assert items[n..][1..] == items[n + 1..];
      if IsOldBlock(items[n]) {
        continue;
      }
      out := out + [items[n]];
    }
    out := out + [TextItem(Block(json))];
  }

  lemma {:induction false} OthersConcat(a: seq<Item>, b: seq<Item>)
    ensures Others(a + b) == Others(a) + Others(b)
  {
    hide IsOldBlock;
    if a == [] {
      assert a + b == b;
    } else {
      assert (a + b)[1..] == a[1..] + b;
      OthersConcat(a[1..], b);
    }
  }

  lemma {:induction false} OthersIdempotent(items: seq<Item>)
    ensures Others(Others(items)) == Others(items)
    ensures forall b :: b in Others(items) <==>
      b in items && !(b.TextItem? && Contains(b.text, "<turn_meta>") && Contains(b.text, "</turn_meta>"))
  {
    assert forall b :: IsOldBlock(b) <==> b.TextItem? && Contains(b.text, OPEN) && Contains(b.text, CLOSE);
    hide IsOldBlock, Contains;
    if items != [] {
      OthersIdempotent(items[1..]);
      assert Others(items) == (if IsOldBlock(items[0]) then [] else [items[0]]) + Others(items[1..]);
      OthersConcat(if IsOldBlock(items[0]) then [] else [items[0]], Others(items[1..]));
      assert [items[0]][1..] == [];
    }
  }

  /** Whatever the metadata, attaching twice to a list is attaching the second. */
  lemma AttachTwiceToList(items: seq<Item>, first: string, second: string)
    ensures var once := Others(items) + [TextItem(Block(first))];
      Others(once) + [TextItem(Block(second))] == Others(items) + [TextItem(Block(second))]
  {
    TagsAreThere("", first);
    assert "" + Block(first) == Block(first);
    OthersConcat(Others(items), [TextItem(Block(first))]);
    OthersIdempotent(items);
  }

  /** A user's text that mentions both tags is dropped from a list, even where the same text
      alone, ending in an opening tag, is recognised as holding no block and kept. */
  lemma QuotedTagsAreDropped(a: string)
    ensures var text := a + CLOSE + OPEN;
      Others([TextItem(text)]) == [] && StripMeta(text) == (text, None)
  {
    var text := a + CLOSE + OPEN;
    assert text[|a|..|a| + 12] == CLOSE && text[|a| + 12..|a| + 23] == OPEN;
    assert IsAt(text, CLOSE, |a|) && IsAt(text, OPEN, |a| + 12);
    assert [TextItem(text)][1..] == [];
    assert RFind(text, OPEN) == Some(|a| + 12);
    assert forall i: nat :: i >= |a| + 12 ==> !IsAt(text, CLOSE, i);
  }
}
