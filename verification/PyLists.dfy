/** Python list idioms shared by the models: optional values, negative slices, flattening. */
module PyLists {

  datatype Option<+T> = None | Some(value: T)

  /** Python's `s[-n:]`. For n == 0 this is `s[0:]`, the whole list, and for a
      negative n it drops the first -n elements. */
  function TailSlice<T>(s: seq<T>, n: int): (r: seq<T>)
    ensures exists k :: 0 <= k <= |s| && r == s[k..]
    ensures 0 < n ==> |r| == if n < |s| then n else |s|
    ensures n == 0 ==> r == s
  {
    var k := if n > 0 then (if n < |s| then |s| - n else 0) else (if -n < |s| then -n else |s|);
    s[k..]
  }

  function Max(a: int, b: int): int { if a < b then b else a }

  function Min(a: int, b: int): int { if a < b then a else b }

  /** n * c as repeated addition, so that a step changes it by exactly c. */
  function Times(n: nat, c: nat): nat
  {
    if n == 0 then 0 else Times(n - 1, c) + c
  }

  lemma {:induction false} TimesIsProduct(n: nat, c: nat)
    ensures Times(n, c) == n * c
  {
    if n > 0 {
      TimesIsProduct(n - 1, c);
      assert n * c == (n - 1) * c + c;
    }
  }

  function Flatten<T>(groups: seq<seq<T>>): seq<T>
  {
    if groups == [] then [] else groups[0] + Flatten(groups[1..])
  }

  lemma {:induction false} FlattenConcat<T>(a: seq<seq<T>>, b: seq<seq<T>>)
    ensures Flatten(a + b) == Flatten(a) + Flatten(b)
  {
    if a == [] {
      assert a + b == b;
    } else {
      assert (a + b)[1..] == a[1..] + b;
      FlattenConcat(a[1..], b);
    }
  }

  lemma FlattenSnoc<T>(a: seq<seq<T>>, g: seq<T>)
    ensures Flatten(a + [g]) == Flatten(a) + g
  {
    FlattenConcat(a, [g]);
    assert [g][1..] == [];
  }

  lemma SubsetSize<T>(a: set<T>, b: set<T>)
    requires a <= b
    ensures |a| <= |b|
  {
    assert b == a + (b - a);
  }

  /** Two exchanges of a queue's front for its back make one. */
  lemma Rotate<T>(a: seq<T>, b: seq<T>, c: seq<T>, d: seq<T>, e: seq<T>, f: seq<T>, g: seq<T>)
    requires a + b == d + e && e + c == f + g
    ensures a + (b + c) == (d + f) + g
  {
    assert a + (b + c) == (a + b) + c == (d + e) + c == d + (e + c) == d + (f + g);
  }

  lemma SliceOfSlice<T>(s: seq<T>, lo: nat, h: nat, a: nat, b: nat)
    requires lo <= h <= |s| && a <= b <= h - lo
    ensures s[lo..h][a..b] == s[lo + a..lo + b]
  {
    var inner, direct := s[lo..h][a..b], s[lo + a..lo + b];
    assert |inner| == |direct|;
    forall k | 0 <= k < |inner| ensures inner[k] == direct[k] {
      assert inner[k] == s[lo..h][a + k] == s[lo + (a + k)];
    }
  }
}
