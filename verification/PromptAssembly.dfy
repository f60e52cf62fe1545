/** Choosing the system prompt's sections by priority under a token budget. */
module PromptAssembly {
  import opened PyStrings

  // ---------------------------------------------------------------- Python's stable sort

  /** Puts x behind every element whose key is not larger. */
  function Insert<T>(x: T, s: seq<T>, key: T -> int): seq<T>
  {
    if s == [] || key(s[0]) > key(x) then [x] + s else [s[0]] + Insert(x, s[1..], key)
  }

  function Sorted<T>(s: seq<T>, key: T -> int): seq<T>
  {
    if s == [] then [] else Insert(s[|s| - 1], Sorted(s[..|s| - 1], key), key)
  }

  ghost predicate InKeyOrder<T>(s: seq<T>, key: T -> int)
  {
    forall i, j :: 0 <= i < j < |s| ==> key(s[i]) <= key(s[j])
  }

  ghost predicate Pairwise<T(!new)>(s: seq<T>, before: (T, T) -> bool)
  {
    forall i, j :: 0 <= i < j < |s| ==> before(s[i], s[j])
  }

  lemma {:induction false} InsertAdds<T>(x: T, s: seq<T>, key: T -> int)
    ensures multiset(Insert(x, s, key)) == multiset(s) + multiset{x}
  {
    if s != [] {
      assert s == [s[0]] + s[1..];
      if key(s[0]) <= key(x) {
        InsertAdds(x, s[1..], key);
      }
    }
  }

  lemma InsertMembers<T>(x: T, s: seq<T>, key: T -> int)
    ensures forall y :: y in Insert(x, s, key) <==> y == x || y in s
  {
    InsertAdds(x, s, key);
    hide Insert;
    forall y ensures y in Insert(x, s, key) <==> y == x || y in s {
      assert y in Insert(x, s, key) <==> y in multiset(Insert(x, s, key));
    }
  }

  lemma {:induction false} MemberOfInsert<T>(x: T, s: seq<T>, key: T -> int, y: T)
    requires y in Insert(x, s, key)
    ensures y == x || y in s
  {
    InsertAdds(x, s, key);
    assert y in multiset(Insert(x, s, key));
  }

  lemma ConsInOrder<T>(first: T, rest: seq<T>, key: T -> int)
    requires InKeyOrder(rest, key) && forall y :: y in rest ==> key(first) <= key(y)
    ensures InKeyOrder([first] + rest, key)
  {
    assert forall j :: 0 <= j < |rest| ==> rest[j] in rest;
  }

  lemma FirstIsSmallest<T>(s: seq<T>, key: T -> int)
    requires InKeyOrder(s, key) && s != []
    ensures InKeyOrder(s[1..], key) && forall y :: y in s[1..] ==> key(s[0]) <= key(y)
  {
    forall y | y in s[1..] ensures key(s[0]) <= key(y) {
      var k :| 0 <= k < |s[1..]| && s[1..][k] == y;
      assert s[k + 1] == y;
    }
  }

  lemma {:induction false} InsertInOrder<T>(x: T, s: seq<T>, key: T -> int)
    requires InKeyOrder(s, key)
    ensures InKeyOrder(Insert(x, s, key), key)
  {
    if s == [] {
      assert [x] + s == [x];
    } else {
      FirstIsSmallest(s, key);
      if key(s[0]) <= key(x) {
        var rest := Insert(x, s[1..], key);
        assert Insert(x, s, key) == [s[0]] + rest;
        InsertInOrder(x, s[1..], key);
        forall y | y in rest ensures key(s[0]) <= key(y) {
          MemberOfInsert(x, s[1..], key, y);
        }
        hide Insert, InKeyOrder;
        ConsInOrder(s[0], rest, key);
      } else {
        assert Insert(x, s, key) == [x] + s;
        assert s == [s[0]] + s[1..];
        hide Insert, InKeyOrder;
        ConsInOrder(x, s, key);
      }
    }
  }

  lemma {:induction false} SortFacts<T>(s: seq<T>, key: T -> int)
    ensures multiset(Sorted(s, key)) == multiset(s) && InKeyOrder(Sorted(s, key), key)
    ensures forall y :: y in Sorted(s, key) <==> y in s
  {
    if s != [] {
      var front, last := s[..|s| - 1], s[|s| - 1];
      assert s == front + [last];
      SortFacts(front, key);
      InsertAdds(last, Sorted(front, key), key);
      InsertInOrder(last, Sorted(front, key), key);
      InsertMembers(last, Sorted(front, key), key);
    }
  }

  lemma {:induction false} InsertPairwise<T(!new)>(x: T, s: seq<T>, key: T -> int, before: (T, T) -> bool)
    requires Pairwise(s, before) && InKeyOrder(s, key)
    requires forall y :: y in s ==> if key(y) <= key(x) then before(y, x) else before(x, y)
    ensures Pairwise(Insert(x, s, key), before)
  {
    if s != [] && key(s[0]) <= key(x) {
      InsertPairwise(x, s[1..], key, before);
      InsertMembers(x, s[1..], key);
      var rest := Insert(x, s[1..], key);
      assert Insert(x, s, key) == [s[0]] + rest;
      hide Insert, InKeyOrder;
      assert forall y :: y in rest ==> before(s[0], y);
      assert forall j :: 0 <= j < |rest| ==> rest[j] in rest;
    }
  }

  /** The sort is stable: any relation that prefers smaller keys and, among equal keys, the
      earlier element holds throughout the result. */
  lemma {:induction false} SortPairwise<T(!new)>(s: seq<T>, key: T -> int, before: (T, T) -> bool)
    requires forall i, j :: 0 <= i < j < |s| ==>
      if key(s[i]) <= key(s[j]) then before(s[i], s[j]) else before(s[j], s[i])
    ensures Pairwise(Sorted(s, key), before)
  {
    if s != [] {
      var front, last := s[..|s| - 1], s[|s| - 1];
      SortPairwise(front, key, before);
      SortFacts(front, key);
      InsertPairwise(last, Sorted(front, key), key, before);
    }
  }

  // ---------------------------------------------------------------- sections and parts

  datatype Section = Section(content: string, name: string, priority: int)

  /** A kept section, by its place in the declaration, whole or cut down to a text. */
  datatype Part = Whole(index: nat) | Cut(index: nat, text: string)

  const NOTE := "\n\n[... section truncated to fit token budget ...]"

  function ContentOf(sections: seq<Section>, i: nat): string
  {
    if i < |sections| then sections[i].content else ""
  }

  function Tokens(sections: seq<Section>, order: seq<nat>, est: string -> nat): nat
  {
    if order == [] then 0
    else Tokens(sections, order[..|order| - 1], est) + est(ContentOf(sections, order[|order| - 1]))
  }

  function Indices(n: nat): (r: seq<nat>)
    ensures |r| == n && forall i :: 0 <= i < n ==> r[i] == i
  {
    seq(n, i requires i >= 0 => i)
  }

  function Priority(sections: seq<Section>): nat -> int
  {
    (i: nat) => if i < |sections| then sections[i].priority else 0
  }

  /** Declaration indices by priority, equal priorities in declaration order. */
  function Order(sections: seq<Section>): seq<nat>
  {
    Sorted(Indices(|sections|), Priority(sections))
  }

  ghost predicate ComesFirst(sections: seq<Section>, i: nat, j: nat)
  {
    Priority(sections)(i) < Priority(sections)(j) || (Priority(sections)(i) == Priority(sections)(j) && i < j)
  }

  lemma OrderMembers(sections: seq<Section>)
    ensures multiset(Order(sections)) == multiset(Indices(|sections|))
    ensures |Order(sections)| == |sections| && forall i: nat :: i in Order(sections) <==> i < |sections|
  {
    hide Sorted, InKeyOrder;
    var all := Indices(|sections|);
    SortFacts(all, Priority(sections));
    SameSize(Order(sections), all);
    forall i: nat | i < |sections| ensures i in all {
      assert all[i] == i;
    }
  }

  /** By priority, and in declaration order among equals. */
  lemma OrderIsStable(sections: seq<Section>)
    ensures forall p, q :: 0 <= p < q < |Order(sections)| ==>
      ComesFirst(sections, Order(sections)[p], Order(sections)[q])
  {
    hide Sorted;
    var before := (i: nat, j: nat) => ComesFirst(sections, i, j);
    SortPairwise(Indices(|sections|), Priority(sections), before);
    var order := Sorted(Indices(|sections|), Priority(sections));
    assert Pairwise(order, before);
    assert order == Order(sections);
    forall p, q | 0 <= p < q < |order| ensures ComesFirst(sections, order[p], order[q]) {
      assert before(order[p], order[q]);
    }
  }

  /** In terms of the declared numbers: the smaller number comes first. */
  lemma OrderedByNumber(sections: seq<Section>, p: nat, q: nat)
    requires p < q < |Order(sections)|
    ensures var i, j := Order(sections)[p], Order(sections)[q];
      && i < |sections| && j < |sections|
      && (sections[i].priority < sections[j].priority || (sections[i].priority == sections[j].priority && i < j))
  {
    OrderMembers(sections);
    OrderIsStable(sections);
    hide Order;
    assert Order(sections)[p] in Order(sections) && Order(sections)[q] in Order(sections);
  }

  lemma SameSize<T>(a: seq<T>, b: seq<T>)
    requires multiset(a) == multiset(b)
    ensures |a| == |b|
  {
    assert |multiset(a)| == |a| && |multiset(b)| == |b|;
  }

  // ---------------------------------------------------------------- cutting a section

  function Shrunk(content: string, available: nat, est: string -> nat, chars: nat): (r: nat)
    requires chars >= 1
    ensures 1 <= r <= chars
    decreases chars
  {
    if chars > 1 && est(Take(content, chars)) > available then Shrunk(content, available, est, chars * 4 / 5) else chars
  }

  method Shrink(content: string, available: nat, est: string -> nat) returns (text: string)
    requires available > 300
    ensures text == Take(content, Shrunk(content, available, est, available * 4))
  {
    var chars := available * 4;
    text := Take(content, chars);
    while chars > 1 && est(text) > available
      invariant chars >= 1 && text == Take(content, chars)
      invariant Shrunk(content, available, est, chars) == Shrunk(content, available, est, available * 4)
      decreases chars
    {
      chars := chars * 4 / 5;
      text := Take(content, chars);
    }
  }

  /** A single character never needs more than 300 tokens. */
  ghost predicate Modest(est: string -> nat)
  {
    forall s: string :: |s| <= 1 ==> est(s) <= 300
  }

  /** What is left fits, and the step before did not. */
  lemma {:induction false} ShrunkFits(content: string, available: nat, est: string -> nat, chars: nat)
    requires chars >= 1 && available > 300 && Modest(est)
    ensures var r := Shrunk(content, available, est, chars);
      est(Take(content, r)) <= available
      && (r == chars || exists more :: r < more <= chars && more * 4 / 5 == r && est(Take(content, more)) > available)
    decreases chars
  {
    if chars > 1 && est(Take(content, chars)) > available {
      ShrunkFits(content, available, est, chars * 4 / 5);
    }
  }

  // ---------------------------------------------------------------- the assembly

  /** Kept whole: exactly the first m in priority order, which fit while the next does not. */
  ghost predicate Greedy(sections: seq<Section>, budget: int, est: string -> nat, m: nat)
  {
    var order := Order(sections);
    m < |order|
    && (m == 0 || Tokens(sections, order[..m], est) <= budget)
    && budget < Tokens(sections, order[..m + 1], est)
  }

  /** The cut text of the section that did not fit; None if at most 300 tokens were left. */
  function CutText(content: string, available: int, est: string -> nat): (r: string)
    requires available > 300
  {
    var text := Take(content, Shrunk(content, available, est, available * 4));
    if |text| < |content| then text + NOTE else text
  }

  /** The cut text begins with the section's own text, and has the note exactly if that is not all
      of it. */
  lemma NotedIffShortened(content: string, available: int, est: string -> nat) returns (n: nat)
    requires available > 300
    ensures n <= |content|
    ensures CutText(content, available, est) == if n < |content| then content[..n] + NOTE else content
  {
    var text := Take(content, Shrunk(content, available, est, available * 4));
    hide NOTE;
    n := |text|;
    assert text == content[..n];
  }

  /** Sections by their place, the cut one by 999, for it is not among the declared ones. */
  function Key(p: Part): int
  {
    match p case Whole(i) => i case Cut(_, _) => 999
  }

  /** Among equal keys the cut section, kept last, stays behind. */
  ghost predicate Precedes(p: Part, q: Part)
  {
    Key(p) < Key(q) || (Key(p) == Key(q) && p.Whole? && q.Cut?)
  }

  ghost predicate IsAssembly(sections: seq<Section>, budget: int, est: string -> nat, m: nat, parts: seq<Part>)
    requires Greedy(sections, budget, est, m)
  {
    var order := Order(sections);
    var available := budget - Tokens(sections, order[..m], est);
    && (forall p, q :: 0 <= p < q < |parts| ==> Precedes(parts[p], parts[q]))
    && (forall i: nat :: Whole(i) in parts <==> i in order[..m])
    && (forall i: nat, text :: Cut(i, text) in parts <==>
          available > 300 && i == order[m] && text == CutText(ContentOf(sections, i), available, est))
  }

  method Assemble(sections: seq<Section>, budget: int, est: string -> nat) returns (parts: seq<Part>, m: nat)
    ensures Tokens(sections, Indices(|sections|), est) <= budget ==>
      parts == seq(|sections|, i requires i >= 0 => Whole(i))
    ensures sections == [] ==> parts == []
    ensures sections != [] && Tokens(sections, Indices(|sections|), est) > budget ==>
      Greedy(sections, budget, est, m) && IsAssembly(sections, budget, est, m, parts)
  {
    m := 0;
    var total := Total(sections, Indices(|sections|), est);
    if total <= budget {
      return seq(|sections|, i requires i >= 0 => Whole(i)), 0;
    }
    if sections == [] {
      return [], 0;
    }
    var kept;
    m, kept := Choose(sections, budget, est);
    parts := Sorted(kept, Key);
    Restored(sections, budget, est, m, kept);
  }

  /** The selection loop, when not everything fits. */
  method Choose(sections: seq<Section>, budget: int, est: string -> nat) returns (m: nat, kept: seq<Part>)
    requires sections != [] && Tokens(sections, Indices(|sections|), est) > budget
    ensures Greedy(sections, budget, est, m) && IsKept(sections, budget, est, m, kept)
  {
    var order := Order(sections);
    OrderMembers(sections);
    SameTokens(sections, order, Indices(|sections|), est);
    NoTokens(sections, est);
    hide Order, Indices, Tokens, Greedy, IsKept, CutText;
    kept, m := [], 0;
    var used := 0;
    assert order[..0] == [] && order[..|order|] == order;
    while m < |order|
      invariant m <= |order| && |kept| == m
      invariant forall j :: 0 <= j < m ==> kept[j] == Whole(order[j])
      invariant used == Tokens(sections, order[..m], est)
      invariant m == 0 || used <= budget
      invariant m == |order| ==> used == Tokens(sections, order, est)
    {
      assert order[m] in order;
      var section := sections[order[m]];
      var tokens := est(section.content);
      OneMoreSection(sections, order, m, est);
      if used + tokens > budget {
        var cut := CutPart(section.content, order[m], budget - used, est);
        StopsHere(sections, budget, est, m, kept, cut);
        kept := kept + cut;
        return;
      }
      kept := kept + [Whole(order[m])];
      used := used + tokens;
      m := m + 1;
      if m == |order| { assert order[..m] == order; }
    }
    assert false;
  }

  lemma StopsHere(sections: seq<Section>, budget: int, est: string -> nat, m: nat, kept: seq<Part>, cut: seq<Part>)
    requires var order := Order(sections);
      && m < |order| && |kept| == m && (forall j :: 0 <= j < m ==> kept[j] == Whole(order[j]))
      && (m == 0 || Tokens(sections, order[..m], est) <= budget) && Tokens(sections, order[..m + 1], est) > budget
      && var available := budget - Tokens(sections, order[..m], est);
         cut == if available > 300 then [Cut(order[m], CutText(ContentOf(sections, order[m]), available, est))] else []
    ensures Greedy(sections, budget, est, m) && IsKept(sections, budget, est, m, kept + cut)
  {
    hide Order, Tokens;
  }

  /** The section that did not fit, cut down if enough is left. */
  method CutPart(content: string, index: nat, available: int, est: string -> nat) returns (cut: seq<Part>)
    ensures cut == if available > 300 then [Cut(index, CutText(content, available, est))] else []
  {
    cut := [];
    if available > 300 {
      var text := Shrink(content, available, est);
      if |text| < |content| {
        text := text + NOTE;
      }
      cut := [Cut(index, text)];
    }
  }

  lemma NoTokens(sections: seq<Section>, est: string -> nat)
    ensures Tokens(sections, [], est) == 0
  {
  }

  lemma OneMoreSection(sections: seq<Section>, order: seq<nat>, m: nat, est: string -> nat)
    requires m < |order|
    ensures Tokens(sections, order[..m + 1], est) ==
      Tokens(sections, order[..m], est) + est(ContentOf(sections, order[m]))
  {
    assert order[..m + 1][..m] == order[..m];
  }

  method Total(sections: seq<Section>, order: seq<nat>, est: string -> nat) returns (total: nat)
    ensures total == Tokens(sections, order, est)
  {
    total := 0;
    for n := 0 to |order|
      invariant total == Tokens(sections, order[..n], est)
    {
      assert order[..n + 1][..n] == order[..n];
      total := total + est(ContentOf(sections, order[n]));
    }
    assert order[..|order|] == order;
  }

  /** The kept list: the first m in priority order, then perhaps the cut one. */
  ghost predicate IsKept(sections: seq<Section>, budget: int, est: string -> nat, m: nat, kept: seq<Part>)
  {
    var order := Order(sections);
    m < |order| && m <= |kept| <= m + 1 && (forall j :: 0 <= j < m ==> kept[j] == Whole(order[j]))
    && (var available := budget - Tokens(sections, order[..m], est);
        && (|kept| == m + 1 <==> available > 300)
        && (|kept| == m + 1 && available > 300 ==>
            kept[m] == Cut(order[m], CutText(ContentOf(sections, order[m]), available, est))))
  }

  lemma Restored(sections: seq<Section>, budget: int, est: string -> nat, m: nat, kept: seq<Part>)
    requires Greedy(sections, budget, est, m) && IsKept(sections, budget, est, m, kept)
    ensures IsAssembly(sections, budget, est, m, Sorted(kept, Key))
  {
    hide Tokens, CutText, Sorted;
    OrderMembers(sections);
    OrderIsStable(sections);
    var before := (p: Part, q: Part) => Precedes(p, q);
    SortPairwise(kept, Key, before);
    SortFacts(kept, Key);
    assert Pairwise(Sorted(kept, Key), before);
  }

  lemma {:induction false} TokensConcat(sections: seq<Section>, a: seq<nat>, b: seq<nat>, est: string -> nat)
    ensures Tokens(sections, a + b, est) == Tokens(sections, a, est) + Tokens(sections, b, est)
  {
    if b == [] {
      assert a + b == a;
    } else {
      assert (a + b)[..|a + b| - 1] == a + b[..|b| - 1];
      TokensConcat(sections, a, b[..|b| - 1], est);
    }
  }

  /** Any order of the same sections has the same total. */
  lemma {:induction false} SameTokens(sections: seq<Section>, a: seq<nat>, b: seq<nat>, est: string -> nat)
    requires multiset(a) == multiset(b)
    ensures Tokens(sections, a, est) == Tokens(sections, b, est)
    decreases |a|
  {
    SameSize(a, b);
    if a != [] {
      var front, x := a[..|a| - 1], a[|a| - 1];
      assert a == front + [x];
      assert x in multiset(b);
      var p :| 0 <= p < |b| && b[p] == x;
      var rest := b[..p] + b[p + 1..];
      Without(b, p);
      CancelOne(front, rest, x, a, b);
      SameTokens(sections, front, rest, est);
      TokensWithout(sections, b, p, est);
    }
  }

  lemma CancelOne<T>(front: seq<T>, rest: seq<T>, x: T, a: seq<T>, b: seq<T>)
    requires a == front + [x] && multiset(a) == multiset(b) && multiset(b) == multiset(rest) + multiset{x}
    ensures multiset(front) == multiset(rest)
  {
    assert multiset(front) == multiset(a) - multiset{x};
    assert multiset(rest) == multiset(b) - multiset{x};
  }

  lemma Without<T>(b: seq<T>, p: nat)
    requires p < |b|
    ensures multiset(b) == multiset(b[..p] + b[p + 1..]) + multiset{b[p]}
  {
    assert b == b[..p] + [b[p]] + b[p + 1..];
  }

  lemma TokensWithout(sections: seq<Section>, b: seq<nat>, p: nat, est: string -> nat)
    requires p < |b|
    ensures Tokens(sections, b, est) == Tokens(sections, b[..p] + b[p + 1..], est) + est(ContentOf(sections, b[p]))
  {
    assert b == b[..p + 1] + b[p + 1..];
    TokensConcat(sections, b[..p + 1], b[p + 1..], est);
    TokensConcat(sections, b[..p], b[p + 1..], est);
    OneMoreSection(sections, b, p, est);
  }

  // ---------------------------------------------------------------- what an assembly is

  lemma {:induction false} TokensGrow(sections: seq<Section>, order: seq<nat>, a: nat, b: nat, est: string -> nat)
    requires a <= b <= |order|
    ensures Tokens(sections, order[..a], est) <= Tokens(sections, order[..b], est)
  {
    if a < b {
      TokensGrow(sections, order, a, b - 1, est);
      OneMoreSection(sections, order, b - 1, est);
    }
  }

  /** How many sections are kept whole is determined: the longest prefix that fits. */
  lemma GreedyIsUnique(sections: seq<Section>, budget: int, est: string -> nat, m: nat, n: nat)
    requires Greedy(sections, budget, est, m) && Greedy(sections, budget, est, n)
    ensures m == n
  {
    hide Order, Tokens;
    if m < n { TokensGrow(sections, Order(sections), m + 1, n, est); }
    if n < m { TokensGrow(sections, Order(sections), n + 1, m, est); }
  }

  /** The parts are determined by what is kept: there is one list in this order. */
  lemma {:induction false} PartsAreUnique(x: seq<Part>, y: seq<Part>)
    requires forall p, q :: 0 <= p < q < |x| ==> Precedes(x[p], x[q])
    requires forall p, q :: 0 <= p < q < |y| ==> Precedes(y[p], y[q])
    requires forall p :: p in x <==> p in y
    ensures x == y
  {
    if x == [] {
      if y != [] { HasMember(y); }
    } else {
      assert x[0] in y && y != [];
      assert y[0] in x;
      var i :| 0 <= i < |y| && y[i] == x[0];
      var j :| 0 <= j < |x| && x[j] == y[0];
      assert i == 0 || j == 0;
      assert x[0] == y[0];
      forall p ensures p in x[1..] <==> p in y[1..] { InRest(x, p); InRest(y, p); }
      PartsAreUnique(x[1..], y[1..]);
      assert x == [x[0]] + x[1..] && y == [y[0]] + y[1..];
    }
  }

  lemma HasMember(y: seq<Part>)
    requires y != []
    ensures exists p :: p in y
  {
    assert y[0] in y;
  }

  lemma InRest(x: seq<Part>, p: Part)
    requires x != [] && forall i, j :: 0 <= i < j < |x| ==> Precedes(x[i], x[j])
    ensures p in x[1..] <==> p in x && p != x[0]
  {
    if p in x && p != x[0] {
      var k :| 0 <= k < |x| && x[k] == p;
      assert x[1..][k - 1] == p;
    }
    if p in x[1..] {
      var k :| 0 <= k < |x[1..]| && x[1..][k] == p;
      assert Precedes(x[0], x[k + 1]);
    }
  }

  /** Whole sections in declaration order; at most one cut section, which comes last exactly if
      no kept section is declared after the first thousand. */
  lemma ShapeOfAssembly(sections: seq<Section>, budget: int, est: string -> nat, m: nat, parts: seq<Part>)
    requires Greedy(sections, budget, est, m) && IsAssembly(sections, budget, est, m, parts)
    ensures forall p, q :: 0 <= p < q < |parts| && parts[p].Whole? && parts[q].Whole? ==>
      parts[p].index < parts[q].index
    ensures forall p, q :: 0 <= p < |parts| && 0 <= q < |parts| && parts[p].Cut? && parts[q].Cut? ==> p == q
    ensures forall p :: 0 <= p < |parts| && parts[p].Cut? ==>
      (p == |parts| - 1 <==> forall i :: i in Order(sections)[..m] ==> i <= 999)
  {
    hide Tokens, CutText, Order;
    forall p | 0 <= p < |parts| && parts[p].Cut?
      ensures p == |parts| - 1 <==> forall i :: i in Order(sections)[..m] ==> i <= 999
    {
      if p == |parts| - 1 {
        forall i | i in Order(sections)[..m] ensures i <= 999 {
          assert Whole(i) in parts;
          var q :| 0 <= q < |parts| && parts[q] == Whole(i);
          assert q < p ==> Precedes(parts[q], parts[p]);
        }
      } else {
        var next := parts[p + 1];
        assert Precedes(parts[p], next) && next in parts;
      }
    }
  }

  /** A cut section is at the end. */
  ghost predicate CutComesLast(parts: seq<Part>)
  {
    forall p :: 0 <= p < |parts| && parts[p].Cut? ==> p == |parts| - 1
  }

  /** Every assembly of so many sections, whatever their contents, priorities, budget and token
      estimate, ends in its cut section if it has one. */
  ghost predicate AlwaysCutLast(n: nat)
  {
    forall sections: seq<Section>, budget: int, est: string -> nat, m: nat, parts: seq<Part> ::
      |sections| == n && Greedy(sections, budget, est, m) && IsAssembly(sections, budget, est, m, parts)
      ==> CutComesLast(parts)
  }

  /** A long first section, an empty last one that is the most urgent, and empty ones between. */
  function LateUrgent(n: nat): seq<Section>
  {
    seq(n, i requires i >= 0 =>
      if i == 0 then Section(seq(400, _ => 'x'), "", 1) else Section("", "", if i == n - 1 then 0 else 2))
  }

  function Length(): string -> nat { s => |s| }

  /** Only one section precedes all others, and only one the rest. */
  lemma UrgentOrder(n: nat)
    requires n >= 2
    ensures |Order(LateUrgent(n))| == n && Order(LateUrgent(n))[0] == n - 1 && Order(LateUrgent(n))[1] == 0
  {
    var sections := LateUrgent(n);
    var order := Order(sections);
    OrderMembers(sections);
    OrderIsStable(sections);
    hide Order;
    assert n - 1 in order && 0 in order;
    var p: nat :| p < n && order[p] == n - 1;
    var q: nat :| q < n && order[q] == 0;
    assert p > 0 ==> ComesFirst(sections, order[0], n - 1);
    assert order[0] in order && order[1] in order;
    assert q > 1 ==> ComesFirst(sections, order[1], 0);
  }

  lemma LateIsGreedy(n: nat)
    requires n >= 2
    ensures Greedy(LateUrgent(n), 301, Length(), 1)
    ensures Order(LateUrgent(n))[..1] == [n - 1] && Order(LateUrgent(n))[1] == 0
    ensures Tokens(LateUrgent(n), [n - 1], Length()) == 0
  {
    var sections, est := LateUrgent(n), Length();
    var order := Order(sections);
    UrgentOrder(n);
    NoTokens(sections, est);
    assert ContentOf(sections, n - 1) == "" && |ContentOf(sections, 0)| == 400;
    hide Order, Tokens, LateUrgent;
    OneMoreSection(sections, order, 0, est);
    OneMoreSection(sections, order, 1, est);
    assert order[..0] == [] && order[..1] == [n - 1];
  }

  /** More than a thousand sections: the cut first section lands before the whole last one. */
  lemma CutCanComeFirst(n: nat)
    requires n >= 1001
    ensures exists text ::
      Greedy(LateUrgent(n), 301, Length(), 1)
      && IsAssembly(LateUrgent(n), 301, Length(), 1, [Cut(0, text), Whole(n - 1)])
  {
    var sections, est := LateUrgent(n), Length();
    LateIsGreedy(n);
    var text := CutText(ContentOf(sections, 0), 301, est);
    var parts := [Cut(0, text), Whole(n - 1)];
    hide Order, Tokens, LateUrgent, CutText, Greedy, ContentOf;
    assert forall p :: p in parts <==> p == Cut(0, text) || p == Whole(n - 1);
    assert Precedes(parts[0], parts[1]);
    assert IsAssembly(sections, 301, est, 1, parts);
  }

  /** The cut section is last in every assembly of n sections exactly if n is at most 1000. */
  lemma CutIsLastIff(n: nat)
    ensures AlwaysCutLast(n) <==> n <= 1000
  {
    if n <= 1000 {
      forall sections: seq<Section>, budget: int, est: string -> nat, m: nat, parts: seq<Part> |
        |sections| == n && Greedy(sections, budget, est, m) && IsAssembly(sections, budget, est, m, parts)
        ensures CutComesLast(parts)
      {
        OrderMembers(sections);
        ShapeOfAssembly(sections, budget, est, m, parts);
        hide Order, Greedy, IsAssembly;
        assert forall i :: i in Order(sections)[..m] ==> i in Order(sections);
      }
    } else {
      CutCanComeFirst(n);
      var text :| Greedy(LateUrgent(n), 301, Length(), 1)
        && IsAssembly(LateUrgent(n), 301, Length(), 1, [Cut(0, text), Whole(n - 1)]);
      var parts := [Cut(0, text), Whole(n - 1)];
      assert parts[0].Cut? && !CutComesLast(parts);
      assert |LateUrgent(n)| == n;
    }
  }

  // ---------------------------------------------------------------- what is never truncated

  /** The sections of a list that are at least as urgent as q. */
  function Urgent(sections: seq<Section>, order: seq<nat>, q: int): seq<nat>
  {
    if order == [] then []
    else
      var last := order[|order| - 1];
      Urgent(sections, order[..|order| - 1], q) + if Priority(sections)(last) <= q then [last] else []
  }

  lemma {:induction false} UrgentConcat(sections: seq<Section>, a: seq<nat>, b: seq<nat>, q: int)
    ensures Urgent(sections, a + b, q) == Urgent(sections, a, q) + Urgent(sections, b, q)
  {
    if b == [] {
      assert a + b == a;
    } else {
      assert (a + b)[..|a + b| - 1] == a + b[..|b| - 1];
      UrgentConcat(sections, a, b[..|b| - 1], q);
    }
  }

  lemma {:induction false} UrgentCount(sections: seq<Section>, order: seq<nat>, q: int, x: nat)
    ensures multiset(Urgent(sections, order, q))[x] ==
      if Priority(sections)(x) <= q then multiset(order)[x] else 0
  {
    if order != [] {
      var front, last := order[..|order| - 1], order[|order| - 1];
      assert order == front + [last];
      UrgentCount(sections, front, q, x);
    }
  }

  lemma SameUrgent(sections: seq<Section>, a: seq<nat>, b: seq<nat>, q: int)
    requires multiset(a) == multiset(b)
    ensures multiset(Urgent(sections, a, q)) == multiset(Urgent(sections, b, q))
  {
    forall x: nat ensures multiset(Urgent(sections, a, q))[x] == multiset(Urgent(sections, b, q))[x] {
      UrgentCount(sections, a, q, x);
      UrgentCount(sections, b, q, x);
    }
  }

  lemma {:induction false} AllUrgent(sections: seq<Section>, order: seq<nat>, q: int)
    requires forall i :: i in order ==> Priority(sections)(i) <= q
    ensures Urgent(sections, order, q) == order
  {
    if order != [] {
      AllUrgent(sections, order[..|order| - 1], q);
    }
  }

  lemma {:induction false} NoneUrgent(sections: seq<Section>, order: seq<nat>, q: int)
    requires forall i :: i in order ==> Priority(sections)(i) > q
    ensures Urgent(sections, order, q) == []
  {
    if order != [] {
      NoneUrgent(sections, order[..|order| - 1], q);
    }
  }

  /** Where the urgent ones end in a list in priority order. */
  lemma UrgentEnds(sections: seq<Section>, order: seq<nat>, q: int) returns (k: nat)
    requires InKeyOrder(order, Priority(sections))
    ensures k <= |order| && (forall i :: i in order[..k] ==> Priority(sections)(i) <= q)
    ensures forall i :: i in order[k..] ==> Priority(sections)(i) > q
  {
    hide Priority;
    k := 0;
    while k < |order| && Priority(sections)(order[k]) <= q
      invariant k <= |order|
      invariant forall p :: 0 <= p < k ==> Priority(sections)(order[p]) <= q
    {
      k := k + 1;
    }
    forall i | i in order[k..] ensures Priority(sections)(i) > q {
      var p :| 0 <= p < |order[k..]| && order[k..][p] == i;
      assert order[k + p] == i;
    }
  }

  lemma OrderAscends(sections: seq<Section>)
    ensures InKeyOrder(Order(sections), Priority(sections))
  {
    SortFacts(Indices(|sections|), Priority(sections));
  }

  /** In priority order the urgent sections come first. */
  lemma UrgentIsPrefix(sections: seq<Section>, order: seq<nat>, q: int) returns (k: nat)
    requires InKeyOrder(order, Priority(sections))
    ensures k <= |order| && Urgent(sections, order, q) == order[..k]
  {
    hide *;
    k := UrgentEnds(sections, order, q);
    AllUrgent(sections, order[..k], q);
    NoneUrgent(sections, order[k..], q);
    assert order == order[..k] + order[k..];
    UrgentConcat(sections, order[..k], order[k..], q);
  }

  /** The sections of priority q and more urgent ones are all kept whole exactly if there are none
      or their tokens together fit the budget: no priority by itself protects a section. */
  lemma UrgentKeptIff(sections: seq<Section>, budget: int, est: string -> nat, m: nat, q: int)
    requires Greedy(sections, budget, est, m)
    ensures var urgent := Urgent(sections, Indices(|sections|), q);
      (forall i :: i in urgent ==> i in Order(sections)[..m])
      <==> (urgent == [] || Tokens(sections, urgent, est) <= budget)
  {
    var order, urgent := Order(sections), Urgent(sections, Indices(|sections|), q);
    OrderMembers(sections);
    OrderAscends(sections);
    var k := UrgentIsPrefix(sections, order, q);
    SameUrgent(sections, order, Indices(|sections|), q);
    hide Urgent, Indices;
    PrefixKeptIff(sections, budget, est, m, k);
    hide *;
    SameSize(order[..k], urgent);
    SameTokens(sections, order[..k], urgent, est);
    SameMembers(order[..k], urgent);
  }

  lemma SameMembers(a: seq<nat>, b: seq<nat>)
    requires multiset(a) == multiset(b)
    ensures forall i :: i in a <==> i in b
  {
    forall i ensures i in a <==> i in b {
      assert i in a <==> i in multiset(a);
      assert i in b <==> i in multiset(b);
    }
  }

  /** The first k in priority order are all kept exactly if together they fit. */
  lemma PrefixKeptIff(sections: seq<Section>, budget: int, est: string -> nat, m: nat, k: nat)
    requires Greedy(sections, budget, est, m) && k <= |Order(sections)|
    ensures var order := Order(sections);
      (forall i :: i in order[..k] ==> i in order[..m]) <==> (k == 0 || Tokens(sections, order[..k], est) <= budget)
  {
    var order := Order(sections);
    OrderMembers(sections);
    OrderIsStable(sections);
    hide Order, Tokens, ComesFirst;
    if k <= m {
      TokensGrow(sections, order, k, m, est);
      assert order[..k] <= order[..m];
      assert forall p :: 0 <= p < k ==> order[..m][p] == order[p];
    } else {
      TokensGrow(sections, order, m + 1, k, est);
      NotRepeated(sections, order, m);
      assert order[..k][m] == order[m];
    }
  }

  lemma NotRepeated(sections: seq<Section>, order: seq<nat>, m: nat)
    requires m < |order| && forall p, q :: 0 <= p < q < |order| ==> ComesFirst(sections, order[p], order[q])
    ensures order[m] !in order[..m]
  {
    forall p | 0 <= p < m ensures order[..m][p] != order[m] {
      assert ComesFirst(sections, order[p], order[m]);
    }
  }

  /** What is kept, without the note behind a cut section, fits the budget. */
  lemma FitsBudget(sections: seq<Section>, budget: int, est: string -> nat, m: nat)
    requires Modest(est) && Greedy(sections, budget, est, m)
    ensures var order := Order(sections);
      var available := budget - Tokens(sections, order[..m], est);
      (m > 0 || budget >= 0 ==> available >= 0) && (available > 300 ==>
        var content := ContentOf(sections, order[m]);
        Tokens(sections, order[..m], est) + est(Take(content, Shrunk(content, available, est, available * 4))) <= budget
        && |Take(content, Shrunk(content, available, est, available * 4))| < |content|)
  {
    hide Order, Tokens;
    var order := Order(sections);
    var available := budget - Tokens(sections, order[..m], est);
    NoTokens(sections, est);
    assert order[..0] == [];
    if available > 300 {
      OneMoreSection(sections, order, m, est);
      ShrunkFits(ContentOf(sections, order[m]), available, est, available * 4);
    }
  }

  /** A section was cut exactly if more than 300 tokens were left for it. The cut text is the longest
      tried beginning of the section that fits what was left, always a proper one, and the note. */
  lemma CutIsNoted(sections: seq<Section>, budget: int, est: string -> nat, m: nat, parts: seq<Part>)
    requires Modest(est) && Greedy(sections, budget, est, m) && IsAssembly(sections, budget, est, m, parts)
    ensures var order := Order(sections);
      var content, available := ContentOf(sections, order[m]), budget - Tokens(sections, order[..m], est);
      && (available <= 300 ==> forall p <- parts :: p.Whole?)
      && (available > 300 ==> exists n: nat ::
            && 1 <= n < |content| && est(content[..n]) <= available
            && Cut(order[m], content[..n] + "\n\n[... section truncated to fit token budget ...]") in parts
            && (n == available * 4 ||
                exists more: nat :: more * 4 / 5 == n && est(Take(content, more)) > available))
  {
    hide Order, Tokens;
    var order := Order(sections);
    var content, available := ContentOf(sections, order[m]), budget - Tokens(sections, order[..m], est);
    if available > 300 {
      FitsBudget(sections, budget, est, m);
      var n := Shrunk(content, available, est, available * 4);
      ShrunkFits(content, available, est, available * 4);
      assert Take(content, n) == content[..n] && n < |content|;
      assert Cut(order[m], CutText(content, available, est)) in parts;
    }
  }
}
