/** The last-resort compaction: keep the last few messages and drop what they orphan. */
module HistorySnip {
  import opened PyLists
  import opened Conversation

  /** A result whose call is declared by no earlier message. */
  ghost predicate Orphan(ms: seq<Message>, j: nat)
    requires j < |ms|
  {
    IsResult(ms[j]) && forall a :: 0 <= a < j ==> !Declares(ms[a], ms[j].callId)
  }

  /** What is left of the first n messages. */
  ghost function Cleaned(ms: seq<Message>, n: nat): seq<Message>
    requires n <= |ms|
  {
    if n == 0 then [] else Cleaned(ms, n - 1) + if Orphan(ms, n - 1) then [] else [ms[n - 1]]
  }

  /** Where each message left came from. */
  ghost function Kept(ms: seq<Message>, n: nat): seq<nat>
    requires n <= |ms|
  {
    if n == 0 then [] else Kept(ms, n - 1) + if Orphan(ms, n - 1) then [] else [n - 1]
  }

  lemma {:induction false} KeptMembers(ms: seq<Message>, n: nat, j: nat)
    requires n <= |ms|
    ensures j in Kept(ms, n) <==> j < n && !Orphan(ms, j)
  {
    if n > 0 {
      KeptMembers(ms, n - 1, j);
      hide Orphan;
    }
  }

  lemma {:induction false} KeptInOrder(ms: seq<Message>, n: nat)
    requires n <= |ms|
    ensures |Kept(ms, n)| <= n && forall p :: 0 <= p < |Kept(ms, n)| ==> Kept(ms, n)[p] < n
    ensures forall p, q :: 0 <= p < q < |Kept(ms, n)| ==> Kept(ms, n)[p] < Kept(ms, n)[q]
  {
    hide Orphan;
    if n > 0 { KeptInOrder(ms, n - 1); }
  }

  lemma {:induction false} KeptSelects(ms: seq<Message>, n: nat)
    requires n <= |ms|
    ensures |Cleaned(ms, n)| == |Kept(ms, n)|
    ensures forall p :: 0 <= p < |Kept(ms, n)| ==> Kept(ms, n)[p] < |ms| && Cleaned(ms, n)[p] == ms[Kept(ms, n)[p]]
  {
    hide Orphan;
    if n > 0 { KeptSelects(ms, n - 1); }
  }

  /** The message answers no call, or one that an assistant before it made. */
  ghost predicate Answered(ms: seq<Message>, j: nat)
    requires j < |ms|
  {
    || ms[j].role != ToolRole || ms[j].callId == ""
    || exists a :: 0 <= a < j && ms[a].role == AssistantRole && ms[j].callId in ms[a].calls
  }

  lemma OrphanIff(ms: seq<Message>, j: nat)
    requires j < |ms|
    ensures !Orphan(ms, j) <==> Answered(ms, j)
  {
    if ms[j].role == ToolRole && ms[j].callId != "" {
      forall a | 0 <= a < j
        ensures Declares(ms[a], ms[j].callId) <==> ms[a].role == AssistantRole && ms[j].callId in ms[a].calls {
      }
    }
  }

  /** The cleaned list is the subsequence of exactly those messages that answer no call, or a call
      of an assistant before them. */
  lemma CleanedExactly(ms: seq<Message>, n: nat)
    requires n <= |ms|
    ensures var kept := Kept(ms, n);
      && (forall p, q :: 0 <= p < q < |kept| ==> kept[p] < kept[q])
      && (forall j: nat :: j in kept <==> j < n && Answered(ms, j))
      && |Cleaned(ms, n)| == |kept| <= n
      && forall p :: 0 <= p < |kept| ==> kept[p] < |ms| && Cleaned(ms, n)[p] == ms[kept[p]]
  {
    hide Cleaned, Kept, Orphan, Answered;
    KeptInOrder(ms, n);
    KeptSelects(ms, n);
    forall j: nat | j < n ensures j in Kept(ms, n) <==> Answered(ms, j) {
      KeptMembers(ms, n, j);
      OrphanIff(ms, j);
    }
    forall j: nat | j in Kept(ms, n) ensures j < n {
      KeptMembers(ms, n, j);
    }
  }

  /** The cleaning pass over the snipped list, declaring ids as it goes. */
  method Clean(result: seq<Message>) returns (cleaned: seq<Message>)
    ensures cleaned == Cleaned(result, |result|)
  {
    var declared: set<string> := {};
    cleaned := [];
    for n := 0 to |result|
      invariant forall id :: id in declared <==> exists a :: 0 <= a < n && Declares(result[a], id)
      invariant cleaned == Cleaned(result, n)
    {
      var m := result[n];
      if m.role.AssistantRole? {
        var ids := CallIds(m);
        declared := declared + ids;
      } else if m.role.ToolRole? && m.callId != "" && m.callId !in declared {
        continue;
      }
      cleaned := cleaned + [m];
    }
  }

  ghost predicate DeclaredIn(ms: seq<Message>, id: string)
  {
    exists a :: 0 <= a < |ms| && Declares(ms[a], id)
  }

  lemma DeclaredStep(ms: seq<Message>, m: Message, id: string)
    ensures DeclaredIn(ms + [m], id) <==> DeclaredIn(ms, id) || Declares(m, id)
  {
    hide Declares;
    assert (ms + [m])[|ms|] == m;
    if DeclaredIn(ms, id) {
      var a :| 0 <= a < |ms| && Declares(ms[a], id);
      assert Declares((ms + [m])[a], id);
    }
  }

  /** Cleaning keeps every declaration. */
  lemma {:induction false} DeclarationsSurvive(ms: seq<Message>, n: nat, id: string)
    requires n <= |ms|
    ensures DeclaredIn(Cleaned(ms, n), id) <==> DeclaredIn(ms[..n], id)
  {
    if n > 0 {
      DeclarationsSurvive(ms, n - 1, id);
      assert ms[..n] == ms[..n - 1] + [ms[n - 1]];
      assert Orphan(ms, n - 1) ==> !Declares(ms[n - 1], id);
      assert Orphan(ms, n - 1) ==> Cleaned(ms, n) == Cleaned(ms, n - 1);
      hide Orphan, Declares, DeclaredIn;
      DeclaredStep(ms[..n - 1], ms[n - 1], id);
      DeclaredStep(Cleaned(ms, n - 1), ms[n - 1], id);
    } else {
      assert Cleaned(ms, n) == ms[..n];
    }
  }

  lemma ClosedStep(ms: seq<Message>, m: Message)
    requires NoOrphanFrom(ms, 0) && (IsResult(m) ==> DeclaredIn(ms, m.callId))
    ensures NoOrphanFrom(ms + [m], 0)
  {
    hide Declares;
    var out := ms + [m];
    forall j | 0 <= j < |out| && IsResult(out[j]) ensures exists a :: 0 <= a < j && Declares(out[a], out[j].callId) {
      if j < |ms| {
        var a :| 0 <= a < j && Declares(ms[a], ms[j].callId);
        assert Declares(out[a], out[j].callId);
      } else {
        var a :| 0 <= a < |ms| && Declares(ms[a], m.callId);
        assert Declares(out[a], out[j].callId);
      }
    }
  }

  /** No result of the cleaned list lacks its assistant. */
  lemma {:induction false} CleanedHasNoOrphan(ms: seq<Message>, n: nat)
    requires n <= |ms|
    ensures NoOrphanFrom(Cleaned(ms, n), 0)
  {
    if n > 0 {
      CleanedHasNoOrphan(ms, n - 1);
      NotOrphanIsDeclared(ms, n - 1);
      assert Orphan(ms, n - 1) ==> Cleaned(ms, n) == Cleaned(ms, n - 1);
      hide Orphan, Declares, DeclaredIn, NoOrphanFrom;
      if !Orphan(ms, n - 1) {
        DeclarationsSurvive(ms, n - 1, ms[n - 1].callId);
        ClosedStep(Cleaned(ms, n - 1), ms[n - 1]);
      }
    }
  }

  lemma NotOrphanIsDeclared(ms: seq<Message>, j: nat)
    requires j < |ms|
    ensures !Orphan(ms, j) && IsResult(ms[j]) ==> DeclaredIn(ms[..j], ms[j].callId)
  {
    hide Declares;
    if !Orphan(ms, j) && IsResult(ms[j]) {
      var a :| 0 <= a < j && Declares(ms[a], ms[j].callId);
      assert ms[..j][a] == ms[a];
    }
  }

  /** Messages that are neither results nor assistants come through in front unchanged. */
  lemma {:induction false} PrefixSurvives(prefix: seq<Message>, tail: seq<Message>, n: nat)
    requires forall m :: m in prefix ==> !m.role.AssistantRole? && !m.role.ToolRole?
    requires n <= |tail|
    ensures Cleaned(prefix + tail, |prefix| + n) == prefix + Cleaned(tail, n)
  {
    if n == 0 {
      AllOfPrefix(prefix, tail, |prefix|);
    } else {
      PrefixSurvives(prefix, tail, n - 1);
      OrphanShifts(prefix, tail, n - 1);
    }
  }

  lemma {:induction false} AllOfPrefix(prefix: seq<Message>, tail: seq<Message>, n: nat)
    requires forall m :: m in prefix ==> !m.role.ToolRole?
    requires n <= |prefix|
    ensures Cleaned(prefix + tail, n) == prefix[..n]
  {
    if n > 0 {
      AllOfPrefix(prefix, tail, n - 1);
      assert prefix[n - 1] in prefix;
    }
  }

  lemma OrphanShifts(prefix: seq<Message>, tail: seq<Message>, j: nat)
    requires forall m :: m in prefix ==> !m.role.AssistantRole?
    requires j < |tail|
    ensures Orphan(prefix + tail, |prefix| + j) <==> Orphan(tail, j)
  {
    var n, all := |prefix|, prefix + tail;
    assert forall a :: 0 <= a < n ==> all[a] in prefix;
    if Orphan(all, n + j) {
      forall a | 0 <= a < j ensures !Declares(tail[a], tail[j].callId) { assert all[n + a] == tail[a]; }
    }
  }

  /** The last `keep` non-system messages; everything when `keep` is 0, as the slice says. */
  function LastKept(all: seq<Message>, keep: nat): seq<Message>
  {
    TailSlice(NonSystems(all), keep)
  }

  ghost function CleanedTail(all: seq<Message>, keep: nat): seq<Message>
  {
    Cleaned(LastKept(all, keep), |LastKept(all, keep)|)
  }

  method Snip(all: seq<Message>, keep: nat, notice: string) returns (out: seq<Message>)
    ensures |NonSystems(all)| <= keep ==> out == Systems(all) + NonSystems(all)
    ensures |NonSystems(all)| > keep ==> out == Systems(all) + [UserText(notice)] + CleanedTail(all, keep)
  {
    var system, ms := Systems(all), NonSystems(all);
    if |ms| <= keep {
      return system + ms;
    }
    var snipped := TailSlice(ms, keep);
    out := Clean(system + [UserText(notice)] + snipped);
    SplitRoles(all);
    PrefixSurvives(system + [UserText(notice)], snipped, |snipped|);
  }

  /** With keep at least 1: all system messages in order, one notice, then the last `keep`
      messages without exactly those results whose call is not among them. */
  lemma SnipLeavesNoOrphan(all: seq<Message>, keep: nat, notice: string)
    requires 1 <= keep < |NonSystems(all)|
    ensures var out := Systems(all) + [UserText(notice)] + CleanedTail(all, keep);
      && Systems(out) == Systems(all) <= out
      && |out| <= |Systems(all)| + 1 + keep
      && NoOrphanFrom(out, 0)
      && NonSystems(all) == NonSystems(all)[..|NonSystems(all)| - keep] + LastKept(all, keep)
      && |LastKept(all, keep)| == keep
  {
    var tail := LastKept(all, keep);
    var rest := CleanedTail(all, keep);
    var front := Systems(all) + [UserText(notice)];
    SplitRoles(all);
    TailIsTail(NonSystems(all), keep);
    KeptInOrder(tail, |tail|);
    KeptSelects(tail, |tail|);
    CleanedHasNoOrphan(tail, |tail|);
    NoSystemsLeft(tail, |tail|);
    hide Systems, NonSystems, Cleaned, NoOrphanFrom, Kept, TailSlice;
    ClosedBehindPrefix(front, rest);
    SystemsStayFirst(Systems(all), [UserText(notice)], rest);
  }

  lemma TailIsTail(ms: seq<Message>, keep: nat)
    requires 1 <= keep < |ms|
    ensures ms == ms[..|ms| - keep] + TailSlice(ms, keep) && |TailSlice(ms, keep)| == keep
    ensures forall m :: m in TailSlice(ms, keep) ==> m in ms
  {
  }

  lemma {:induction false} NoSystemsLeft(ms: seq<Message>, n: nat)
    requires n <= |ms| && forall m :: m in ms ==> !m.role.SystemRole?
    ensures forall m :: m in Cleaned(ms, n) ==> !m.role.SystemRole?
  {
    if n > 0 { NoSystemsLeft(ms, n - 1); }
  }

  /** A `keep` of zero would announce that everything was removed and drop no message but orphans. */
  lemma ZeroKeepKeepsAll(all: seq<Message>)
    ensures LastKept(all, 0) == NonSystems(all)
  {
  }
}
