/** Chat messages as the context compactor sees them. */
module Conversation {

  datatype Role = SystemRole | UserRole | AssistantRole | ToolRole | OtherRole

  /** A list element of a message's content; Bare is anything but a dictionary. */
  datatype Block = Block(kind: string, body: string) | Bare

  datatype Content = Text(text: string) | Blocks(blocks: seq<Block>) | NoContent

  /** `calls` are the ids of an assistant's tool calls, `callId` the id a tool message answers;
      an empty id is as good as none. */
  datatype Message = Message(role: Role, calls: seq<string>, callId: string, content: Content)

  function UserText(text: string): Message
  {
    Message(UserRole, [], "", Text(text))
  }

  ghost predicate Declares(m: Message, id: string)
  {
    m.role == AssistantRole && id != "" && id in m.calls
  }

  /** The ids an assistant's calls declare. */
  method CallIds(m: Message) returns (ids: set<string>)
    ensures forall id :: id in ids <==> id != "" && id in m.calls
  {
    ids := {};
    for n := 0 to |m.calls|
      invariant forall id :: id in ids <==> id != "" && id in m.calls[..n]
    {
      assert m.calls[..n + 1] == m.calls[..n] + [m.calls[n]];
      if m.calls[n] != "" {
        ids := ids + {m.calls[n]};
      }
    }
  }

  predicate IsResult(m: Message)
  {
    m.role == ToolRole && m.callId != ""
  }

  /** Every tool result from `s` on has its declaring assistant before it and not before `s`. */
  ghost predicate NoOrphanFrom(ms: seq<Message>, s: nat)
  {
    forall j :: s <= j < |ms| && IsResult(ms[j]) ==> exists a :: s <= a < j && Declares(ms[a], ms[j].callId)
  }

  function Systems(ms: seq<Message>): seq<Message>
  {
    if ms == [] then [] else (if ms[0].role.SystemRole? then [ms[0]] else []) + Systems(ms[1..])
  }

  function NonSystems(ms: seq<Message>): seq<Message>
  {
    if ms == [] then [] else (if ms[0].role.SystemRole? then [] else [ms[0]]) + NonSystems(ms[1..])
  }

  lemma {:induction false} SystemsConcat(a: seq<Message>, b: seq<Message>)
    ensures Systems(a + b) == Systems(a) + Systems(b)
  {
    if a == [] {
      assert a + b == b;
    } else {
      var first := if a[0].role.SystemRole? then [a[0]] else [];
      SystemsConcat(a[1..], b);
      assert (a + b)[1..] == a[1..] + b;
      assert Systems(a + b) == first + (Systems(a[1..]) + Systems(b));
      assert Systems(a) == first + Systems(a[1..]);
      hide Systems;
      assert first + (Systems(a[1..]) + Systems(b)) == (first + Systems(a[1..])) + Systems(b);
    }
  }

  lemma {:induction false} AllSystems(ms: seq<Message>)
    requires forall m :: m in ms ==> m.role.SystemRole?
    ensures Systems(ms) == ms && NonSystems(ms) == []
  {
    if ms != [] { AllSystems(ms[1..]); }
  }

  lemma {:induction false} NoSystems(ms: seq<Message>)
    requires forall m :: m in ms ==> !m.role.SystemRole?
    ensures Systems(ms) == [] && NonSystems(ms) == ms
  {
    if ms != [] { NoSystems(ms[1..]); }
  }

  /** The split sends every message to exactly one side. */
  lemma {:induction false} SplitRoles(ms: seq<Message>)
    ensures forall m :: m in Systems(ms) ==> m.role.SystemRole?
    ensures forall m :: m in NonSystems(ms) ==> !m.role.SystemRole?
    ensures |Systems(ms)| + |NonSystems(ms)| == |ms|
  {
    if ms != [] { SplitRoles(ms[1..]); }
  }

  lemma {:induction false} SplitLosesNothing(ms: seq<Message>)
    ensures multiset(Systems(ms)) + multiset(NonSystems(ms)) == multiset(ms)
  {
    if ms != [] {
      var first, rest := ms[0], ms[1..];
      SplitLosesNothing(rest);
      assert ms == [first] + rest;
      assert Systems(ms) == (if first.role.SystemRole? then [first] else []) + Systems(rest);
      assert NonSystems(ms) == (if first.role.SystemRole? then [] else [first]) + NonSystems(rest);
      hide Systems, NonSystems;
    }
  }

  lemma {:induction false} NonSystemsConcat(a: seq<Message>, b: seq<Message>)
    ensures NonSystems(a + b) == NonSystems(a) + NonSystems(b)
  {
    if a == [] {
      assert a + b == b;
    } else {
      var first := if a[0].role.SystemRole? then [] else [a[0]];
      NonSystemsConcat(a[1..], b);
      assert (a + b)[1..] == a[1..] + b;
      assert NonSystems(a + b) == first + (NonSystems(a[1..]) + NonSystems(b));
      assert NonSystems(a) == first + NonSystems(a[1..]);
      hide NonSystems;
      assert first + (NonSystems(a[1..]) + NonSystems(b)) == (first + NonSystems(a[1..])) + NonSystems(b);
    }
  }

  /** Each further message goes to the end of its side: both sides are in the order of the whole. */
  lemma SplitOneMore(ms: seq<Message>, m: Message)
    ensures Systems(ms + [m]) == Systems(ms) + if m.role.SystemRole? then [m] else []
    ensures NonSystems(ms + [m]) == NonSystems(ms) + if m.role.SystemRole? then [] else [m]
  {
    assert [m][1..] == [];
    assert Systems([m]) == (if m.role.SystemRole? then [m] else []) + Systems([]);
    assert NonSystems([m]) == (if m.role.SystemRole? then [] else [m]) + NonSystems([]);
    hide Systems, NonSystems;
    SystemsConcat(ms, [m]);
    NonSystemsConcat(ms, [m]);
    NothingToSplit();
  }

  lemma NothingToSplit()
    ensures Systems([]) == [] && NonSystems([]) == []
  {
  }

  lemma SystemsStayFirst(system: seq<Message>, middle: seq<Message>, kept: seq<Message>)
    requires forall m :: m in system ==> m.role.SystemRole?
    requires forall m :: m in middle ==> !m.role.SystemRole?
    requires forall m :: m in kept ==> !m.role.SystemRole?
    ensures Systems(system + middle + kept) == system
  {
    hide Systems;
    SystemsConcat(system + middle, kept);
    SystemsConcat(system, middle);
    AllSystems(system);
    NoSystems(middle);
    NoSystems(kept);
  }

  lemma ClosedBehindPrefix(prefix: seq<Message>, ms: seq<Message>)
    requires forall m :: m in prefix ==> !m.role.ToolRole?
    requires NoOrphanFrom(ms, 0)
    ensures NoOrphanFrom(prefix + ms, 0)
  {
    var out, n := prefix + ms, |prefix|;
    forall i | 0 <= i < |out| && IsResult(out[i]) ensures exists b :: 0 <= b < i && Declares(out[b], out[i].callId) {
      assert i >= n && out[i] == ms[i - n];
      var a :| 0 <= a < i - n && Declares(ms[a], out[i].callId);
      assert out[n + a] == ms[a];
    }
  }

  lemma ClosedWithoutPrefix(prefix: seq<Message>, ms: seq<Message>)
    requires forall m :: m in prefix ==> !m.role.AssistantRole?
    requires NoOrphanFrom(prefix + ms, 0)
    ensures NoOrphanFrom(ms, 0)
  {
    var out, n := prefix + ms, |prefix|;
    assert forall a :: 0 <= a < n ==> out[a] in prefix;
    forall i | 0 <= i < |ms| && IsResult(ms[i]) ensures exists b :: 0 <= b < i && Declares(ms[b], ms[i].callId) {
      assert out[n + i] == ms[i];
      var a :| 0 <= a < n + i && Declares(out[a], ms[i].callId);
      assert Declares(ms[a - n], ms[i].callId);
    }
  }
}
