/** The in-process response cache: a bounded map in least-recently-used order. */
module ResponseCache {
  import opened PyLists

  type Key = string

  datatype Entry<V> = Entry(key: Key, body: V, hits: nat)

  datatype Op<V> = Get(key: Key) | Put(key: Key, body: V) | Drop(key: Key) | DropAll

  /** Every operation since the cache was created or cleared, the latest outermost. */
  datatype Log<V> = Start | Then(before: Log<V>, op: Op<V>)

  // ---------------------------------------------------------------- the ordered entries

  ghost function KeysOf<V>(s: seq<Entry<V>>): (keys: set<Key>)
    ensures |keys| <= |s|
  {
    if s == [] then {} else {s[0].key} + KeysOf(s[1..])
  }

  ghost predicate Distinct<V>(s: seq<Entry<V>>)
  {
    s == [] || (s[0].key !in KeysOf(s[1..]) && Distinct(s[1..]))
  }

  function Without<V>(s: seq<Entry<V>>, k: Key): (r: seq<Entry<V>>)
    ensures |r| <= |s|
    ensures forall e :: e in r ==> e in s
  {
    if s == [] then [] else if s[0].key == k then s[1..] else [s[0]] + Without(s[1..], k)
  }

  function Lookup<V>(s: seq<Entry<V>>, k: Key): (r: Option<Entry<V>>)
    ensures r.None? <==> k !in KeysOf(s)
    ensures r.Some? ==> r.value in s && r.value.key == k
  {
    if s == [] then None else if s[0].key == k then Some(s[0]) else Lookup(s[1..], k)
  }

  /** Keeps the most recently used entries. */
  function Evict<V>(s: seq<Entry<V>>, capacity: nat): seq<Entry<V>>
  {
    if |s| > capacity then s[|s| - capacity..] else s
  }

  function Step<V>(s: seq<Entry<V>>, op: Op<V>, capacity: nat): seq<Entry<V>>
  {
    match op
    case Get(k) =>
      (match Lookup(s, k)
       case None => s
       case Some(e) => Without(s, k) + [e.(hits := e.hits + 1)])
    case Put(k, body) => Evict(Without(s, k) + [Entry(k, body, 0)], capacity)
    case Drop(k) => Without(s, k)
    case DropAll => []
  }

  function After<V>(log: Log<V>, capacity: nat): seq<Entry<V>>
  {
    match log
    case Start => []
    case Then(before, op) => Step(After(before, capacity), op, capacity)
  }

  /** What a lookup after the log answers. */
  function Answer<V>(log: Log<V>, k: Key, capacity: nat): Option<V>
  {
    match Lookup(After(log, capacity), k) case None => None case Some(e) => Some(e.body)
  }

  lemma {:induction false} WithoutFacts<V>(s: seq<Entry<V>>, k: Key)
    requires Distinct(s)
    ensures Distinct(Without(s, k)) && KeysOf(Without(s, k)) == KeysOf(s) - {k}
    ensures k !in KeysOf(s) ==> Without(s, k) == s
    ensures k in KeysOf(s) ==> |Without(s, k)| == |s| - 1
  {
    if s != [] {
      var first, keys := s[0].key, KeysOf(s[1..]);
      assert KeysOf(s) == {first} + keys;
      if first == k {
        hide KeysOf;
        assert ({first} + keys) - {k} == keys;
      } else {
        WithoutFacts(s[1..], k);
        Consed(s[0], Without(s[1..], k));
        hide KeysOf, Distinct;
        assert ({first} + keys) - {k} == {first} + (keys - {k});
      }
    }
  }

  lemma Consed<V>(e: Entry<V>, s: seq<Entry<V>>)
    ensures KeysOf([e] + s) == {e.key} + KeysOf(s)
    ensures Distinct([e] + s) <==> Distinct(s) && e.key !in KeysOf(s)
  {
    assert ([e] + s)[1..] == s;
  }

  lemma {:induction false} Appended<V>(s: seq<Entry<V>>, e: Entry<V>)
    ensures KeysOf(s + [e]) == KeysOf(s) + {e.key}
    ensures Distinct(s + [e]) <==> Distinct(s) && e.key !in KeysOf(s)
  {
    if s == [] {
      assert s + [e] == [e] && [e][1..] == [];
    } else {
      Appended(s[1..], e);
      assert (s + [e])[1..] == s[1..] + [e];
    }
  }

  lemma {:induction false} SuffixIsDistinct<V>(s: seq<Entry<V>>, i: nat)
    requires Distinct(s) && i <= |s|
    ensures Distinct(s[i..])
  {
    if i > 0 {
      SuffixIsDistinct(s[1..], i - 1);
      assert s[1..][i - 1..] == s[i..];
    }
  }

  /** Writing or using an entry moves it to the recent end. */
  lemma MovedToEnd<V>(s: seq<Entry<V>>, e: Entry<V>)
    requires Distinct(s)
    ensures var all := Without(s, e.key) + [e];
      Distinct(all) && KeysOf(all) == KeysOf(s) + {e.key}
      && |all| == |s| + (if e.key in KeysOf(s) then 0 else 1)
  {
    hide Distinct, KeysOf, Without;
    WithoutFacts(s, e.key);
    Appended(Without(s, e.key), e);
  }

  lemma {:induction false} WithoutDrops<V>(s: seq<Entry<V>>, k: Key)
    requires Distinct(s)
    ensures forall e :: e in Without(s, k) ==> e.key != k
  {
    if s != [] {
      InKeys(s[1..]);
      if s[0].key != k { WithoutDrops(s[1..], k); }
    }
  }

  lemma {:induction false} InKeys<V>(s: seq<Entry<V>>)
    ensures forall e :: e in s ==> e.key in KeysOf(s)
  {
    if s != [] { InKeys(s[1..]); }
  }

  lemma StepKeeps<V>(s: seq<Entry<V>>, op: Op<V>, capacity: nat)
    requires Distinct(s) && |s| <= capacity
    ensures Distinct(Step(s, op, capacity)) && |Step(s, op, capacity)| <= capacity
  {
    hide Distinct, KeysOf, Without, Lookup;
    match op
    case DropAll =>
      assert s[|s|..] == [];
      SuffixIsDistinct(s, |s|);
    case Drop(k) => WithoutFacts(s, k);
    case Put(k, body) =>
      MovedToEnd(s, Entry(k, body, 0));
      var all := Without(s, k) + [Entry(k, body, 0)];
      if |all| > capacity { SuffixIsDistinct(all, |all| - capacity); }
    case Get(k) =>
      if Lookup(s, k).Some? {
        MovedToEnd(s, Lookup(s, k).value.(hits := Lookup(s, k).value.hits + 1));
      }
  }

  /** The cache never holds more than its capacity, nor a key twice. */
  lemma {:induction false} WithinCapacity<V>(log: Log<V>, capacity: nat)
    ensures |After(log, capacity)| <= capacity && Distinct(After(log, capacity))
  {
    if log.Then? {
      WithinCapacity(log.before, capacity);
      StepKeeps(After(log.before, capacity), log.op, capacity);
    }
  }

  // ---------------------------------------------------------------- a hit is the latest put

  /** The body of the latest put of the key since it was last dropped. */
  function LastPut<V>(log: Log<V>, k: Key): Option<V>
  {
    match log
    case Start => None
    case Then(before, Put(key, body)) => if key == k then Some(body) else LastPut(before, k)
    case Then(before, Drop(key)) => if key == k then None else LastPut(before, k)
    case Then(_, DropAll) => None
    case Then(before, Get(_)) => LastPut(before, k)
  }

  /** Lookups of the key since its latest put. */
  function GetsSincePut<V>(log: Log<V>, k: Key): nat
  {
    match log
    case Start => 0
    case Then(before, Put(key, _)) => if key == k then 0 else GetsSincePut(before, k)
    case Then(before, Get(key)) => GetsSincePut(before, k) + if key == k then 1 else 0
    case Then(before, _) => GetsSincePut(before, k)
  }

  /** Where an entry of the next state comes from. */
  lemma Origin<V>(s: seq<Entry<V>>, op: Op<V>, capacity: nat, e: Entry<V>)
    requires Distinct(s) && e in Step(s, op, capacity)
    ensures !op.DropAll?
    ensures e.key != op.key ==> e in s
    ensures e.key == op.key ==>
      (op.Put? && e == Entry(op.key, op.body, 0))
      || (op.Get? && exists was :: was in s && was.key == op.key && e == was.(hits := was.hits + 1))
  {
    hide Without, Distinct, KeysOf, Lookup;
    if !op.DropAll? {
      WithoutDrops(s, op.key);
      InKeys(s);
    }
  }

  /** Every entry holds the latest put of its key and counts each lookup made since. */
  lemma {:induction false} EntriesAreCurrent<V>(log: Log<V>, capacity: nat, e: Entry<V>)
    requires e in After(log, capacity)
    ensures LastPut(log, e.key) == Some(e.body) && e.hits == GetsSincePut(log, e.key)
  {
    hide Step, Distinct, KeysOf;
    if log.Then? {
      var s := After(log.before, capacity);
      WithinCapacity(log.before, capacity);
      Origin(s, log.op, capacity, e);
      if e.key != log.op.key {
        EntriesAreCurrent(log.before, capacity, e);
      } else if log.op.Get? {
        var was :| was in s && was.key == e.key && e == was.(hits := was.hits + 1);
        EntriesAreCurrent(log.before, capacity, was);
      }
    }
  }

  lemma HitIsLatestPut<V>(log: Log<V>, k: Key, capacity: nat)
    requires Answer(log, k, capacity).Some?
    ensures Answer(log, k, capacity) == LastPut(log, k)
  {
    EntriesAreCurrent(log, capacity, Lookup(After(log, capacity), k).value);
  }

  // ---------------------------------------------------------------- inclusion

  /** The second list is the first, or the first with one more entry somewhere. */
  ghost predicate Near<V>(a: seq<Entry<V>>, b: seq<Entry<V>>)
  {
    a == b || (b != [] && (a == b[1..] || (a != [] && a[0] == b[0] && Near(a[1..], b[1..]))))
  }

  lemma {:induction false} NearFacts<V>(a: seq<Entry<V>>, b: seq<Entry<V>>)
    requires Near(a, b)
    ensures |a| <= |b| <= |a| + 1 && (|a| == |b| ==> a == b)
    ensures forall e :: e in a ==> e in b
    ensures KeysOf(a) <= KeysOf(b)
  {
    if a != b && a != b[1..] {
      NearFacts(a[1..], b[1..]);
      assert a == [a[0]] + a[1..] && b == [b[0]] + b[1..];
    }
  }

  lemma {:induction false} NearAppend<V>(a: seq<Entry<V>>, b: seq<Entry<V>>, e: Entry<V>)
    requires Near(a, b)
    ensures Near(a + [e], b + [e])
  {
    if a != b {
      assert (b + [e])[1..] == b[1..] + [e];
      if a != b[1..] {
        assert (a + [e])[1..] == a[1..] + [e];
        NearAppend(a[1..], b[1..], e);
      }
    }
  }

  lemma {:induction false} NearExtra<V>(a: seq<Entry<V>>, e: Entry<V>)
    ensures Near(a, a + [e])
  {
    if a == [] {
      assert (a + [e])[1..] == a;
    } else {
      assert (a + [e])[1..] == a[1..] + [e];
      NearExtra(a[1..], e);
    }
  }

  /** Removing a key from both keeps them near. */
  lemma {:induction false} NearWithout<V>(a: seq<Entry<V>>, b: seq<Entry<V>>, k: Key)
    requires Near(a, b) && Distinct(a) && Distinct(b)
    ensures Near(Without(a, k), Without(b, k))
  {
    hide KeysOf;
    if a == b {
    } else if a == b[1..] {
      WithoutFacts(a, k);
      if b[0].key != k {
        assert Without(b, k)[1..] == Without(a, k);
      } else {
        OnlyFirst(b);
      }
    } else {
      NearWithout(a[1..], b[1..], k);
      hide Distinct;
      if a[0].key != k {
        assert Without(a, k)[1..] == Without(a[1..], k);
        assert Without(b, k)[1..] == Without(b[1..], k);
      }
    }
  }

  lemma OnlyFirst<V>(b: seq<Entry<V>>)
    requires Distinct(b) && b != []
    ensures Without(b[1..], b[0].key) == b[1..]
  {
    WithoutFacts(b[1..], b[0].key);
  }

  /** A key only the larger has was the extra one; a common key has the same entry in both. */
  lemma {:induction false} NearLookup<V>(a: seq<Entry<V>>, b: seq<Entry<V>>, k: Key)
    requires Near(a, b) && Distinct(a) && Distinct(b)
    ensures k in KeysOf(b) && k !in KeysOf(a) ==> Without(b, k) == a
    ensures k in KeysOf(a) ==> k in KeysOf(b) && Lookup(a, k) == Lookup(b, k)
  {
    if a != b {
      if a == b[1..] {
        ExtraFirst(b, k);
      } else {
        NearLookup(a[1..], b[1..], k);
        SameFirst(a, b, k);
      }
    }
  }

  lemma ExtraFirst<V>(b: seq<Entry<V>>, k: Key)
    requires b != [] && Distinct(b)
    ensures k in KeysOf(b) && k !in KeysOf(b[1..]) ==> Without(b, k) == b[1..]
    ensures k in KeysOf(b[1..]) ==> k in KeysOf(b) && Lookup(b[1..], k) == Lookup(b, k)
  {
  }

  lemma SameFirst<V>(a: seq<Entry<V>>, b: seq<Entry<V>>, k: Key)
    requires a != [] && b != [] && a[0] == b[0]
    requires k in KeysOf(b[1..]) && k !in KeysOf(a[1..]) ==> Without(b[1..], k) == a[1..]
    requires k in KeysOf(a[1..]) ==> k in KeysOf(b[1..]) && Lookup(a[1..], k) == Lookup(b[1..], k)
    ensures k in KeysOf(b) && k !in KeysOf(a) ==> Without(b, k) == a
    ensures k in KeysOf(a) ==> k in KeysOf(b) && Lookup(a, k) == Lookup(b, k)
  {
    assert a == [a[0]] + a[1..] && b == [b[0]] + b[1..];
  }

  lemma NearEvict<V>(a: seq<Entry<V>>, b: seq<Entry<V>>, capacity: nat)
    requires Near(a, b) && |a| <= capacity + 1
    ensures Near(Evict(a, capacity), Evict(b, capacity + 1))
  {
    NearFacts(a, b);
    if |a| == capacity + 1 {
      assert Evict(a, capacity) == a[1..];
      if |b| == capacity + 2 {
        assert Evict(b, capacity + 1) == b[1..];
        if a == b[1..] { assert Near(a[1..], a); }
      }
    }
  }

  lemma StepKeepsNear<V>(a: seq<Entry<V>>, b: seq<Entry<V>>, op: Op<V>, capacity: nat)
    requires Near(a, b) && Distinct(a) && Distinct(b) && |a| <= capacity
    ensures Near(Step(a, op, capacity), Step(b, op, capacity + 1))
  {
    hide Near, Distinct, Without, KeysOf, Evict, Lookup;
    match op
    case DropAll => NearSame<V>([]);
    case Drop(k) => NearWithout(a, b, k);
    case Put(k, body) =>
      NearWithout(a, b, k);
      NearLookup(a, b, k);
      WithoutFacts(a, k);
      NearAppend(Without(a, k), Without(b, k), Entry(k, body, 0));
      NearEvict(Without(a, k) + [Entry(k, body, 0)], Without(b, k) + [Entry(k, body, 0)], capacity);
    case Get(k) =>
      NearWithout(a, b, k);
      NearLookup(a, b, k);
      NearFacts(a, b);
      if Lookup(b, k).Some? {
        var e := Lookup(b, k).value.(hits := Lookup(b, k).value.hits + 1);
        if Lookup(a, k).Some? {
          NearAppend(Without(a, k), Without(b, k), e);
        } else {
          NearExtra(a, e);
        }
      }
  }

  /** One more slot of capacity adds at most one entry and never changes or loses another. */
  lemma {:induction false} OneMoreSlot<V>(log: Log<V>, capacity: nat)
    ensures Near(After(log, capacity), After(log, capacity + 1))
  {
    hide Near, Step, Distinct;
    if log.Then? {
      OneMoreSlot(log.before, capacity);
      WithinCapacity(log.before, capacity);
      WithinCapacity(log.before, capacity + 1);
      StepKeepsNear(After(log.before, capacity), After(log.before, capacity + 1), log.op, capacity);
    } else {
      NearSame<V>([]);
    }
  }

  lemma NearSame<V>(a: seq<Entry<V>>)
    ensures Near(a, a)
  {
  }

  /** Inclusion: whatever the trace, a smaller cache's contents are in every larger one's, and
      every lookup that hits the smaller one gets the same answer from the larger one. */
  lemma {:induction false} Inclusion<V>(log: Log<V>, small: nat, large: nat)
    requires small <= large
    ensures forall e :: e in After(log, small) ==> e in After(log, large)
    ensures forall k :: Answer(log, k, small).Some? ==> Answer(log, k, large) == Answer(log, k, small)
    decreases large - small
  {
    hide Near, After, Answer, KeysOf;
    if small < large {
      Inclusion(log, small, large - 1);
      OneMoreSlot(log, large - 1);
      NearFacts(After(log, large - 1), After(log, large));
    }
    forall k | Answer(log, k, small).Some?
      ensures Answer(log, k, large) == Answer(log, k, small)
    {
      SameAnswer(log, k, small, large);
    }
  }

  lemma SameAnswer<V>(log: Log<V>, k: Key, small: nat, large: nat)
    requires Answer(log, k, small).Some?
    requires forall e :: e in After(log, small) ==> e in After(log, large)
    ensures Answer(log, k, large) == Answer(log, k, small)
  {
    hide After, KeysOf, Lookup;
    HitIsLatestPut(log, k, small);
    InKeys(After(log, large));
    HitIsLatestPut(log, k, large);
  }

  /** How many lookups of the log hit, and how many missed. */
  function Hits<V>(log: Log<V>, capacity: nat): nat
  {
    match log
    case Start => 0
    case Then(before, op) => Hits(before, capacity) + if op.Get? && Answer(before, op.key, capacity).Some? then 1 else 0
  }

  function Gets<V>(log: Log<V>): nat
  {
    match log case Start => 0 case Then(before, op) => Gets(before) + if op.Get? then 1 else 0
  }

  function Puts<V>(log: Log<V>): nat
  {
    match log case Start => 0 case Then(before, op) => Puts(before) + if op.Put? then 1 else 0
  }

  /** Hits never fall as the capacity grows. */
  lemma {:induction false} HitsGrow<V>(log: Log<V>, small: nat, large: nat)
    requires small <= large
    ensures Hits(log, small) <= Hits(log, large)
  {
    hide Answer;
    if log.Then? {
      HitsGrow(log.before, small, large);
      Inclusion(log.before, small, large);
    }
  }

  // ---------------------------------------------------------------- what is certain to survive

  function UsedKey<V>(op: Op<V>): Option<Key>
  {
    match op case Get(k) => Some(k) case Put(k, _) => Some(k) case _ => None
  }

  /** The other keys put, or looked up while they had a value, since the key's own latest use. */
  ghost function Since<V>(log: Log<V>, k: Key): set<Key>
  {
    match log
    case Start => {}
    case Then(before, op) =>
      if UsedKey(op) == Some(k) then {}
      else if UsedKey(op).Some? && LastPut(log, op.key).Some? then Since(before, k) + {op.key}
      else Since(before, k)
  }

  /** The key was put, not dropped since, and between any two consecutive uses (and since the
      last one) fewer than `capacity` other keys were used. */
  ghost predicate Retained<V>(log: Log<V>, k: Key, capacity: nat)
  {
    match log
    case Start => false
    case Then(_, DropAll) => false
    case Then(before, Put(key, _)) => key == k || (Retained(before, k, capacity) && |Since(log, k)| < capacity)
    case Then(before, Get(key)) => Retained(before, k, capacity) && (key == k || |Since(log, k)| < capacity)
    case Then(before, Drop(key)) => Retained(before, k, capacity) && key != k
  }

  /** Keys of the entries used more recently than k's. */
  ghost function Behind<V>(s: seq<Entry<V>>, k: Key): set<Key>
  {
    if s == [] then {} else if s[0].key == k then KeysOf(s[1..]) else Behind(s[1..], k)
  }

  lemma {:induction false} BehindAppended<V>(s: seq<Entry<V>>, e: Entry<V>, k: Key)
    requires e.key != k
    ensures Behind(s + [e], k) <= Behind(s, k) + {e.key}
  {
    if s == [] {
      assert (s + [e])[1..] == [];
    } else {
      assert (s + [e])[1..] == s[1..] + [e];
      if s[0].key == k { Appended(s[1..], e); } else { BehindAppended(s[1..], e, k); }
    }
  }

  lemma {:induction false} BehindOwn<V>(s: seq<Entry<V>>, e: Entry<V>)
    requires e.key !in KeysOf(s)
    ensures Behind(s + [e], e.key) == {}
  {
    if s == [] {
      assert (s + [e])[1..] == [];
    } else {
      assert (s + [e])[1..] == s[1..] + [e];
      BehindOwn(s[1..], e);
    }
  }

  lemma {:induction false} BehindWithout<V>(s: seq<Entry<V>>, gone: Key, k: Key)
    requires Distinct(s) && gone != k
    ensures Behind(Without(s, gone), k) <= Behind(s, k)
  {
    if s != [] {
      WithoutFacts(s[1..], gone);
      if s[0].key != gone {
        assert Without(s, gone)[1..] == Without(s[1..], gone);
        BehindWithout(s[1..], gone, k);
      } else {
        BehindShrinks(s, k);
      }
    }
  }

  lemma BehindShrinks<V>(s: seq<Entry<V>>, k: Key)
    requires s != [] && s[0].key != k
    ensures Behind(s[1..], k) == Behind(s, k)
  {
  }

  lemma {:induction false} KeyCount<V>(s: seq<Entry<V>>)
    requires Distinct(s)
    ensures |KeysOf(s)| == |s|
  {
    if s != [] { KeyCount(s[1..]); }
  }

  /** A key with few enough keys behind it outlives the eviction. */
  lemma SurvivesEviction<V>(s: seq<Entry<V>>, k: Key, capacity: nat)
    requires Distinct(s) && k in KeysOf(s) && |s| <= capacity + 1 && |Behind(s, k)| < capacity
    ensures k in KeysOf(Evict(s, capacity)) && Behind(Evict(s, capacity), k) == Behind(s, k)
  {
    if |s| == capacity + 1 {
      assert Evict(s, capacity) == s[1..];
      KeyCount(s[1..]);
    }
  }

  ghost predicate SafelyIn<V>(s: seq<Entry<V>>, k: Key, since: set<Key>)
  {
    k in KeysOf(s) && Behind(s, k) <= since
  }

  lemma OwnUse<V>(s: seq<Entry<V>>, e: Entry<V>, capacity: nat)
    requires Distinct(s) && |s| <= capacity && capacity >= 1
    ensures SafelyIn(Evict(Without(s, e.key) + [e], capacity), e.key, {})
  {
    hide Distinct, KeysOf, Behind, Without, Evict;
    WithoutFacts(s, e.key);
    BehindOwn(Without(s, e.key), e);
    MovedToEnd(s, e);
    SurvivesEviction(Without(s, e.key) + [e], e.key, capacity);
  }

  lemma OtherUse<V>(s: seq<Entry<V>>, e: Entry<V>, k: Key, since: set<Key>, capacity: nat)
    requires Distinct(s) && |s| <= capacity && e.key != k && SafelyIn(s, k, since)
    requires |since + {e.key}| < capacity
    ensures SafelyIn(Evict(Without(s, e.key) + [e], capacity), k, since + {e.key})
  {
    hide Distinct, KeysOf, Behind, Without, Evict;
    var all := Without(s, e.key) + [e];
    BehindWithout(s, e.key, k);
    BehindAppended(Without(s, e.key), e, k);
    MovedToEnd(s, e);
    SubsetSize(Behind(all, k), since + {e.key});
    SurvivesEviction(all, k, capacity);
  }

  lemma UseFits<V>(s: seq<Entry<V>>, e: Entry<V>, capacity: nat)
    requires Distinct(s) && |s| <= capacity && e.key in KeysOf(s)
    ensures Evict(Without(s, e.key) + [e], capacity) == Without(s, e.key) + [e]
  {
    WithoutFacts(s, e.key);
  }

  lemma SurvivesStep<V>(before: Log<V>, op: Op<V>, k: Key, capacity: nat)
    requires capacity >= 1 && Retained(Then(before, op), k, capacity)
    requires Retained(before, k, capacity) ==> SafelyIn(After(before, capacity), k, Since(before, k))
    ensures SafelyIn(After(Then(before, op), capacity), k, Since(Then(before, op), k))
  {
    var s := After(before, capacity);
    WithinCapacity(before, capacity);
    hide Distinct, KeysOf, Behind, Without, Evict, SafelyIn, Lookup, LastPut;
    match op
    case Put(key, body) =>
      if key == k { OwnUse(s, Entry(k, body, 0), capacity); }
      else {
        assert LastPut(Then(before, op), key).Some? by { LastPutOfPut(before, op); }
        OtherUse(s, Entry(key, body, 0), k, Since(before, k), capacity);
      }
    case Drop(key) => DropOther(s, key, k, Since(before, k));
    case Get(key) =>
      SafelyPresent(s, k, Since(before, k));
      if Lookup(s, key).Some? {
        var was := Lookup(s, key).value;
        var e := was.(hits := was.hits + 1);
        EntriesAreCurrent(before, capacity, was);
        assert LastPut(Then(before, op), key) == LastPut(before, key) by { LastPutOfPut(before, op); }
        UseFits(s, e, capacity);
        if key == k { OwnUse(s, e, capacity); }
        else { OtherUse(s, e, k, Since(before, k), capacity); }
      } else {
        MoreSince(s, k, Since(before, k), Since(Then(before, op), k));
      }
    case DropAll =>
  }

  lemma LastPutOfPut<V>(before: Log<V>, op: Op<V>)
    ensures op.Put? ==> LastPut(Then(before, op), op.key) == Some(op.body)
    ensures op.Get? ==> LastPut(Then(before, op), op.key) == LastPut(before, op.key)
  {
  }

  lemma SafelyPresent<V>(s: seq<Entry<V>>, k: Key, since: set<Key>)
    requires SafelyIn(s, k, since)
    ensures k in KeysOf(s)
  {
  }

  lemma MoreSince<V>(s: seq<Entry<V>>, k: Key, since: set<Key>, more: set<Key>)
    requires SafelyIn(s, k, since) && since <= more
    ensures SafelyIn(s, k, more)
  {
  }

  lemma DropOther<V>(s: seq<Entry<V>>, gone: Key, k: Key, since: set<Key>)
    requires Distinct(s) && gone != k && SafelyIn(s, k, since)
    ensures SafelyIn(Without(s, gone), k, since)
  {
    BehindWithout(s, gone, k);
    WithoutFacts(s, gone);
  }

  /** The recency guarantee: a key whose reuse distances stay below the capacity is never lost. */
  lemma {:induction false} RecentlyUsedSurvives<V>(log: Log<V>, k: Key, capacity: nat)
    requires capacity >= 1 && Retained(log, k, capacity)
    ensures Answer(log, k, capacity).Some?
    ensures SafelyIn(After(log, capacity), k, Since(log, k))
  {
    hide SafelyIn, Since, Step, Lookup, KeysOf;
    if Retained(log.before, k, capacity) {
      RecentlyUsedSurvives(log.before, k, capacity);
    }
    SurvivesStep(log.before, log.op, k, capacity);
    SafelyPresent(After(log, capacity), k, Since(log, k));
  }

  ghost function PutKeys<V>(log: Log<V>): set<Key>
  {
    match log case Start => {} case Then(before, op) => PutKeys(before) + if op.Put? then {op.key} else {}
  }

  lemma {:induction false} SincePutKeys<V>(log: Log<V>, k: Key)
    ensures Since(log, k) <= PutKeys(log) - {k}
    ensures LastPut(log, k).Some? ==> k in PutKeys(log)
  {
    if log.Then? {
      SincePutKeys(log.before, k);
      if UsedKey(log.op).Some? { SincePutKeys(log.before, log.op.key); }
    }
  }

  lemma {:induction false} FewKeysRetained<V>(log: Log<V>, k: Key, capacity: nat)
    requires |PutKeys(log)| <= capacity && LastPut(log, k).Some?
    ensures Retained(log, k, capacity)
  {
    hide Since;
    SincePutKeys(log, k);
    SubsetSize(Since(log, k) + {k}, PutKeys(log));
    SubsetSize(PutKeys(log.before), PutKeys(log));
    if !(log.op.Put? && log.op.key == k) {
      FewKeysRetained(log.before, k, capacity);
    }
  }

  /** A cache no smaller than the number of keys ever put is an exact map. */
  lemma BigEnoughIsExact<V>(log: Log<V>, k: Key, capacity: nat)
    requires capacity >= 1 && |PutKeys(log)| <= capacity
    ensures Answer(log, k, capacity) == LastPut(log, k)
  {
    hide Answer, Retained, PutKeys;
    if LastPut(log, k).Some? {
      FewKeysRetained(log, k, capacity);
      RecentlyUsedSurvives(log, k, capacity);
    }
    if Answer(log, k, capacity).Some? {
      HitIsLatestPut(log, k, capacity);
    }
  }

  lemma LatestStays<V>(s: seq<Entry<V>>, e: Entry<V>, capacity: nat)
    requires capacity >= 1
    ensures Evict(s + [e], capacity) != [] && Evict(s + [e], capacity)[|Evict(s + [e], capacity)| - 1] == e
  {
  }

  // ---------------------------------------------------------------- the program's cache

  class LLMResponseCache<V> {
    const capacity: nat
    var entries: seq<Entry<V>>
    var hits: nat
    var misses: nat
    var writes: nat
    ghost var log: Log<V>

    /** The entries and the counters are functions of the operations since the last `clear`. */
    ghost predicate Valid()
      reads this
    {
      && capacity >= 1
      && entries == After(log, capacity)
      && hits == Hits(log, capacity)
      && misses == Gets(log) - Hits(log, capacity)
      && writes == Puts(log)
    }

    constructor (capacity: nat)
      requires capacity >= 1
      ensures Valid() && log == Start && this.capacity == capacity
    {
      this.capacity := capacity;
      entries, hits, misses, writes, log := [], 0, 0, 0, Start;
    }

    /** A capacity below one is refused with an error. */
    static method Make(capacity: int) returns (r: Option<LLMResponseCache<V>>)
      ensures r.None? <==> capacity < 1
      ensures r.Some? ==> fresh(r.value) && r.value.Valid() && r.value.log == Start && r.value.capacity == capacity
    {
      if capacity < 1 {
        return None;
      }
      var c := new LLMResponseCache(capacity);
      r := Some(c);
    }

    method GetEntry(key: Key) returns (r: Option<Entry<V>>)
      requires Valid()
      modifies this
      ensures Valid() && log == Then(old(log), Get(key))
      ensures r.Some? ==> entries != [] && r.value == entries[|entries| - 1] && r.value.key == key
      ensures (match r case None => None case Some(e) => Some(e.body)) == Answer(old(log), key, capacity)
      ensures hits == old(hits) + (if r.Some? then 1 else 0) && misses == old(misses) + (if r.Some? then 0 else 1)
      ensures writes == old(writes)
    {
      var found := Lookup(entries, key);
      log := Then(log, Get(key));
      match found
      case None =>
        misses := misses + 1;
        r := None;
      case Some(e) =>
        var used := e.(hits := e.hits + 1);
        entries := Without(entries, key) + [used];
        hits := hits + 1;
        r := Some(used);
    }

    method PutBody(key: Key, body: V)
      requires Valid()
      modifies this
      ensures Valid() && log == Then(old(log), Put(key, body))
      ensures entries != [] && entries[|entries| - 1] == Entry(key, body, 0)
      ensures hits == old(hits) && misses == old(misses) && writes == old(writes) + 1
    {
      hide Distinct, KeysOf, Without, Evict, Answer;
      LatestStays(Without(entries, key), Entry(key, body, 0), capacity);
      entries := Without(entries, key) + [Entry(key, body, 0)];
      writes := writes + 1;
      Trim();
      log := Then(log, Put(key, body));
    }

    /** The eviction loop: the least recently used entry goes until the capacity is met. */
    method Trim()
      modifies this`entries
      ensures entries == Evict(old(entries), capacity)
    {
      ghost var all := entries;
      while |entries| > capacity
        invariant |entries| <= |all| && entries == all[|all| - |entries|..]
        invariant |entries| >= capacity || entries == all
      {
        entries := entries[1..];
      }
    }

    method Invalidate(key: Option<Key>)
      requires Valid()
      modifies this`entries, this`log
      ensures Valid() && log == Then(old(log), if key.None? then DropAll else Drop(key.value))
    {
      if key.None? {
        entries := [];
        log := Then(log, DropAll);
      } else {
        entries := Without(entries, key.value);
        log := Then(log, Drop(key.value));
      }
    }

    method Clear()
      requires Valid()
      modifies this
      ensures Valid() && log == Start && entries == [] && hits == misses == writes == 0
    {
      Invalidate(None);
      hits, misses, writes, log := 0, 0, 0, Start;
    }
  }
}
