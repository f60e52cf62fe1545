/** The per-session queue: FIFO partitions served in round-robin order. */
module PartitionedQueues {
  import opened PyLists

  // ---------------------------------------------------------------- partitions and the cursor

  /** Partitions in creation order (they are never removed) and the round-robin cursor. */
  datatype Partitions<T> = Partitions(keys: seq<string>, queues: map<string, seq<T>>, cursor: nat)

  ghost predicate WellFormed<T>(st: Partitions<T>)
  {
    && (forall i, j :: 0 <= i < j < |st.keys| ==> st.keys[i] != st.keys[j])
    && (forall k :: k in st.keys <==> k in st.queues)
    && (st.cursor == 0 || st.cursor < |st.keys|)
  }

  function Contents<T>(st: Partitions<T>, key: string): seq<T>
  {
    if key in st.queues then st.queues[key] else []
  }

  function Wrap(a: nat, n: nat): (r: nat)
    requires n > 0
    ensures r < n
    ensures a < n ==> r == a
    ensures n <= a < 2 * n ==> r == a - n
  {
    a % n
  }

  /** The i-th key after the cursor, wrapping around. */
  function KeyAt<T>(st: Partitions<T>, i: nat): string
    requires i < |st.keys|
  {
    st.keys[Wrap(Wrap(st.cursor, |st.keys|) + i, |st.keys|)]
  }

  function Put<T>(st: Partitions<T>, key: string, item: T): Partitions<T>
  {
    st.(keys := if key in st.queues then st.keys else st.keys + [key],
        queues := st.queues[key := Contents(st, key) + [item]])
  }

  /** The scan of `get` stops at the first non-empty partition after the cursor. */
  predicate Stops<T>(st: Partitions<T>, i: nat)
  {
    i < |st.keys| && Contents(st, KeyAt(st, i)) != [] && forall j :: 0 <= j < i ==> Contents(st, KeyAt(st, j)) == []
  }

  function Take<T>(st: Partitions<T>, i: nat): Partitions<T>
    requires Stops(st, i) && KeyAt(st, i) in st.queues
  {
    var key := KeyAt(st, i);
    st.(queues := st.queues[key := st.queues[key][1..]],
        cursor := Wrap(Wrap(st.cursor, |st.keys|) + i + 1, |st.keys|))
  }

  lemma TakeIsWellFormed<T>(st: Partitions<T>, i: nat)
    requires WellFormed(st) && Stops(st, i)
    ensures KeyAt(st, i) in st.queues && WellFormed(Take(st, i))
  {
    assert KeyAt(st, i) in st.keys;
  }

  lemma PutIsWellFormed<T>(st: Partitions<T>, key: string, item: T)
    requires WellFormed(st)
    ensures WellFormed(Put(st, key, item))
  {
    if key !in st.queues {
      assert key !in st.keys;
    }
  }

  // ---------------------------------------------------------------- fairness

  function IndexOf(keys: seq<string>, key: string): (i: nat)
    requires key in keys
    ensures i < |keys| && keys[i] == key
  {
    if keys[0] == key then 0 else 1 + IndexOf(keys[1..], key)
  }

  /** How many partitions the cursor passes before it reaches the key. */
  function Distance<T>(st: Partitions<T>, key: string): (d: nat)
    requires key in st.keys && (st.cursor == 0 || st.cursor < |st.keys|)
    ensures d < |st.keys|
  {
    var i := IndexOf(st.keys, key);
    if i >= st.cursor then i - st.cursor else i + |st.keys| - st.cursor
  }

  lemma KeyAtDistance<T>(st: Partitions<T>, key: string, i: nat)
    requires WellFormed(st) && key in st.keys && i < |st.keys|
    ensures KeyAt(st, i) == key <==> i == Distance(st, key)
  {
    hide Wrap, IndexOf;
    var n := |st.keys|;
    var at, own := Wrap(st.cursor + i, n), IndexOf(st.keys, key);
    assert Wrap(st.cursor, n) == st.cursor;
    assert st.keys[at] == st.keys[own] <==> at == own;
  }

  lemma CursorAfterTake<T>(st: Partitions<T>, i: nat, key: string)
    requires Stops(st, i) && KeyAt(st, i) in st.queues
    requires key in st.keys && (st.cursor == 0 || st.cursor < |st.keys|)
    requires i < Distance(st, key)
    ensures Take(st, i).keys == st.keys && Take(st, i).cursor < |st.keys|
    ensures Distance(Take(st, i), key) == Distance(st, key) - i - 1
  {
    hide Wrap, IndexOf, KeyAt, Stops;
    assert Wrap(st.cursor, |st.keys|) == st.cursor;
  }

  /** A get either serves the waiting partition or brings the cursor closer to it. */
  lemma TakeApproaches<T>(st: Partitions<T>, i: nat, key: string)
    requires WellFormed(st) && Stops(st, i) && KeyAt(st, i) in st.queues
    requires key in st.keys && Contents(st, key) != []
    ensures i <= Distance(st, key)
    ensures KeyAt(st, i) != key ==>
      Take(st, i).keys == st.keys && Take(st, i).cursor < |st.keys|
      && Distance(Take(st, i), key) == Distance(st, key) - i - 1
    ensures KeyAt(st, i) == key <==> i == Distance(st, key)
  {
    hide Wrap, IndexOf, KeyAt, Distance, Contents, Take;
    var d := Distance(st, key);
    KeyAtDistance(st, key, d);
    KeyAtDistance(st, key, i);
    if i < d {
      CursorAfterTake(st, i, key);
    }
  }

  /** A put moves a partition away from the cursor by at most one, and only by adding one. */
  lemma PutKeepsDistance<T>(st: Partitions<T>, other: string, item: T, key: string)
    requires WellFormed(st) && key in st.keys
    ensures var after := Put(st, other, item);
      key in after.keys && WellFormed(after)
      && Distance(after, key) <= Distance(st, key) + (if other in st.queues then 0 else 1)
  {
    PutIsWellFormed(st, other, item);
    var after := Put(st, other, item);
    assert after.keys[IndexOf(st.keys, key)] == key;
  }

  datatype Op<T> = PutOp(key: string, item: T) | GetOp(stop: nat)

  ghost predicate Possible<T>(st: Partitions<T>, op: Op<T>)
  {
    op.PutOp? || (Stops(st, op.stop) && KeyAt(st, op.stop) in st.queues)
  }

  ghost function Perform<T>(st: Partitions<T>, op: Op<T>): Partitions<T>
    requires Possible(st, op)
  {
    match op
    case PutOp(key, item) => Put(st, key, item)
    case GetOp(stop) => Take(st, stop)
  }

  ghost predicate PossibleRun<T>(st: Partitions<T>, ops: seq<Op<T>>)
    decreases ops
  {
    ops == [] || (Possible(st, ops[0]) && PossibleRun(Perform(st, ops[0]), ops[1..]))
  }

  function Gets<T>(ops: seq<Op<T>>): nat
  {
    if ops == [] then 0 else (if ops[0].GetOp? then 1 else 0) + Gets(ops[1..])
  }

  /** Partitions created during the run. */
  ghost function Added<T>(st: Partitions<T>, ops: seq<Op<T>>): nat
    requires PossibleRun(st, ops)
    decreases ops
  {
    if ops == [] then 0
    else (if ops[0].PutOp? && ops[0].key !in st.queues then 1 else 0) + Added(Perform(st, ops[0]), ops[1..])
  }

  ghost predicate Serves<T>(st: Partitions<T>, ops: seq<Op<T>>, key: string)
    requires PossibleRun(st, ops)
    decreases ops
  {
    ops != [] &&
    ((ops[0].GetOp? && KeyAt(st, ops[0].stop) == key) || Serves(Perform(st, ops[0]), ops[1..], key))
  }

  lemma {:induction false} ServedInTime<T>(st: Partitions<T>, ops: seq<Op<T>>, key: string)
    requires WellFormed(st) && PossibleRun(st, ops)
    requires key in st.keys && Contents(st, key) != []
    requires Gets(ops) > Distance(st, key) + Added(st, ops)
    ensures Serves(st, ops, key)
    decreases ops
  {
    var op, next, rest := ops[0], Perform(st, ops[0]), ops[1..];
    match op {
      case PutOp(other, item) =>
        PutKeepsDistance(st, other, item, key);
        ServedInTime(next, rest, key);
      case GetOp(stop) =>
        TakeApproaches(st, stop, key);
        TakeIsWellFormed(st, stop);
        if KeyAt(st, stop) != key {
          ServedInTime(next, rest, key);
        }
    }
  }

  /** Fairness: a non-empty partition is served within as many gets as there are partitions,
      plus one for every partition created meanwhile, whatever the other partitions receive. */
  lemma Fair<T>(st: Partitions<T>, ops: seq<Op<T>>, key: string)
    requires WellFormed(st) && PossibleRun(st, ops)
    requires key in st.keys && Contents(st, key) != []
    requires Gets(ops) >= |st.keys| + Added(st, ops)
    ensures Serves(st, ops, key)
  {
    ServedInTime(st, ops, key);
  }

  // ---------------------------------------------------------------- FIFO partitions

  function InputOf<T>(op: Op<T>, key: string): seq<T>
  {
    if op.PutOp? && op.key == key then [op.item] else []
  }

  ghost function OutputOf<T>(st: Partitions<T>, op: Op<T>, key: string): seq<T>
    requires Possible(st, op)
  {
    if op.GetOp? && KeyAt(st, op.stop) == key then [st.queues[key][0]] else []
  }

  function Inputs<T>(ops: seq<Op<T>>, key: string): seq<T>
  {
    if ops == [] then [] else InputOf(ops[0], key) + Inputs(ops[1..], key)
  }

  ghost function Outputs<T>(st: Partitions<T>, ops: seq<Op<T>>, key: string): seq<T>
    requires PossibleRun(st, ops)
    decreases ops
  {
    if ops == [] then [] else OutputOf(st, ops[0], key) + Outputs(Perform(st, ops[0]), ops[1..], key)
  }

  ghost function Finally<T>(st: Partitions<T>, ops: seq<Op<T>>): Partitions<T>
    requires PossibleRun(st, ops)
    decreases ops
  {
    if ops == [] then st else Finally(Perform(st, ops[0]), ops[1..])
  }

  lemma StepIsFifo<T>(st: Partitions<T>, op: Op<T>, key: string)
    requires Possible(st, op)
    ensures Contents(st, key) + InputOf(op, key) == OutputOf(st, op, key) + Contents(Perform(st, op), key)
  {
  }

  /** Each partition is FIFO over every run: contents then inputs are outputs then contents. */
  lemma {:induction false} PartitionIsFifo<T>(st: Partitions<T>, ops: seq<Op<T>>, key: string)
    requires PossibleRun(st, ops)
    ensures Contents(st, key) + Inputs(ops, key) == Outputs(st, ops, key) + Contents(Finally(st, ops), key)
    decreases ops
  {
    if ops != [] {
      hide Perform, Possible, Contents, InputOf, OutputOf;
      var op, next, rest := ops[0], Perform(st, ops[0]), ops[1..];
      PartitionIsFifo(next, rest, key);
      StepIsFifo(st, op, key);
      Rotate(Contents(st, key), InputOf(op, key), Inputs(rest, key),
             OutputOf(st, op, key), Contents(next, key), Outputs(next, rest, key), Contents(Finally(next, rest), key));
    }
  }

  // ---------------------------------------------------------------- order across partitions

  function Empty<T>(): Partitions<T>
  {
    Partitions([], map[], 0)
  }

  /** Everything put, and everything served, in the order of time. */
  function Arrivals<T>(ops: seq<Op<T>>): seq<(string, T)>
  {
    if ops == [] then [] else (if ops[0].PutOp? then [(ops[0].key, ops[0].item)] else []) + Arrivals(ops[1..])
  }

  ghost function Handed<T>(st: Partitions<T>, op: Op<T>): seq<(string, T)>
    requires Possible(st, op)
  {
    if op.PutOp? then [] else [(KeyAt(st, op.stop), st.queues[KeyAt(st, op.stop)][0])]
  }

  ghost function Served<T>(st: Partitions<T>, ops: seq<Op<T>>): seq<(string, T)>
    requires PossibleRun(st, ops)
    decreases ops
  {
    if ops == [] then [] else Handed(st, ops[0]) + Served(Perform(st, ops[0]), ops[1..])
  }

  ghost predicate PutsInto<T>(ops: seq<Op<T>>, keys: set<string>)
  {
    forall op :: op in ops && op.PutOp? ==> op.key in keys
  }

  /** Every run of a new queue over these keys hands out the items oldest first. */
  ghost predicate OldestFirst<T(!new)>(keys: set<string>)
  {
    forall ops: seq<Op<T>> :: PutsInto(ops, keys) && PossibleRun(Empty(), ops) ==> Served(Empty(), ops) <= Arrivals(ops)
  }

  function Tagged<T>(key: string, items: seq<T>): (r: seq<(string, T)>)
    ensures |r| == |items| && forall i :: 0 <= i < |r| ==> r[i] == (key, items[i])
  {
    seq(|items|, i requires 0 <= i < |items| => (key, items[i]))
  }

  lemma TaggedConcat<T>(key: string, a: seq<T>, b: seq<T>)
    ensures Tagged(key, a + b) == Tagged(key, a) + Tagged(key, b)
  {
  }

  lemma {:induction false} OneKeyArrivals<T>(ops: seq<Op<T>>, key: string)
    requires PutsInto(ops, {key})
    ensures Arrivals(ops) == Tagged(key, Inputs(ops, key))
  {
    if ops != [] {
      assert ops[0] in ops;
      OneKeyArrived(ops[0], key);
      PutsIntoRest(ops, {key});
      hide PutsInto, Tagged, InputOf;
      OneKeyArrivals(ops[1..], key);
      TaggedConcat(key, InputOf(ops[0], key), Inputs(ops[1..], key));
    }
  }

  lemma OneKeyArrived<T>(op: Op<T>, key: string)
    requires op.PutOp? ==> op.key == key
    ensures (if op.PutOp? then [(op.key, op.item)] else []) == Tagged(key, InputOf(op, key))
  {
  }

  lemma PutsIntoRest<T>(ops: seq<Op<T>>, keys: set<string>)
    requires PutsInto(ops, keys) && ops != []
    ensures PutsInto(ops[1..], keys)
  {
  }

  lemma OneKeyHanded<T>(st: Partitions<T>, op: Op<T>, key: string)
    requires Possible(st, op) && (forall k :: k in st.queues ==> k == key) && (op.PutOp? ==> op.key == key)
    ensures forall k :: k in Perform(st, op).queues ==> k == key
    ensures Handed(st, op) == Tagged(key, OutputOf(st, op, key))
  {
  }

  lemma {:induction false} OneKeyServed<T>(st: Partitions<T>, ops: seq<Op<T>>, key: string)
    requires PossibleRun(st, ops) && (forall k :: k in st.queues ==> k == key) && PutsInto(ops, {key})
    ensures Served(st, ops) == Tagged(key, Outputs(st, ops, key))
    decreases ops
  {
    if ops != [] {
      hide Perform, Possible, Handed, Tagged, OutputOf;
      assert ops[0] in ops;
      OneKeyHanded(st, ops[0], key);
      OneKeyServed(Perform(st, ops[0]), ops[1..], key);
      TaggedConcat(key, OutputOf(st, ops[0], key), Outputs(Perform(st, ops[0]), ops[1..], key));
    } else {
      assert Tagged<T>(key, []) == [];
    }
  }

  /** With one key, what is served is a prefix of what arrived. */
  lemma OneKeyInOrder<T>(ops: seq<Op<T>>, key: string)
    requires PossibleRun(Empty(), ops) && PutsInto(ops, {key})
    ensures Served(Empty(), ops) <= Arrivals(ops)
  {
    hide PossibleRun, Served, Arrivals, Inputs, Outputs, PutsInto;
    OneKeyArrivals(ops, key);
    OneKeyServed(Empty(), ops, key);
    PartitionIsFifo(Empty(), ops, key);
    var rest := Contents(Finally(Empty(), ops), key);
    assert Contents<T>(Empty(), key) + Inputs(ops, key) == Inputs(ops, key);
    TaggedConcat(key, Outputs(Empty(), ops, key), rest);
  }

  /** Two items of one session, then one of another: the second get overtakes the older item. */
  lemma Overtakes<T>(a: string, b: string, first: T, second: T, third: T)
    requires a != b
    ensures var ops := [PutOp(a, first), PutOp(a, second), PutOp(b, third), GetOp(0), GetOp(0)];
      && PossibleRun(Empty(), ops)
      && Arrivals(ops) == [(a, first), (a, second), (b, third)]
      && Served(Empty(), ops) == [(a, first), (b, third)]
  {
    var s1 := Partitions([a], map[a := [first]], 0);
    var s2 := Partitions([a], map[a := [first, second]], 0);
    var s3 := Partitions([a, b], map[a := [first, second], b := [third]], 0);
    var s4 := Partitions([a, b], map[a := [second], b := [third]], 1);
    var s5 := Partitions([a, b], map[a := [second], b := []], 0);
    ThreePuts(a, b, first, second, third);
    TwoGets(a, b, first, second, third);
    hide Handed, Perform, Possible;
    assert PossibleRun(s5, []) && Served(s5, []) == [];
    RunCons(s4, GetOp(0), s5, []);
    RunCons(s3, GetOp(0), s4, [GetOp(0)] + []);
    RunCons(s2, PutOp(b, third), s3, [GetOp(0)] + ([GetOp(0)] + []));
    RunCons(s1, PutOp(a, second), s2, [PutOp(b, third)] + ([GetOp(0)] + ([GetOp(0)] + [])));
    RunCons(Empty(), PutOp(a, first), s1, [PutOp(a, second)] + ([PutOp(b, third)] + ([GetOp(0)] + ([GetOp(0)] + []))));
    hide PossibleRun, Served, Arrivals;
    assert [PutOp(a, first)] + ([PutOp(a, second)] + ([PutOp(b, third)] + ([GetOp(0)] + ([GetOp(0)] + []))))
      == [PutOp(a, first), PutOp(a, second), PutOp(b, third), GetOp(0), GetOp(0)];
  }

  lemma ThreePuts<T>(a: string, b: string, first: T, second: T, third: T)
    requires a != b
    ensures Puts(Empty(), a, first, Partitions([a], map[a := [first]], 0))
    ensures Puts(Partitions([a], map[a := [first]], 0), a, second, Partitions([a], map[a := [first, second]], 0))
    ensures Puts(Partitions([a], map[a := [first, second]], 0), b, third,
                 Partitions([a, b], map[a := [first, second], b := [third]], 0))
  {
    assert [] + [first] == [first] && [first] + [second] == [first, second] && [] + [third] == [third];
    assert [] + [a] == [a] && [a] + [b] == [a, b];
  }

  ghost predicate Puts<T>(st: Partitions<T>, key: string, item: T, next: Partitions<T>)
  {
    Possible(st, PutOp(key, item)) && Perform(st, PutOp(key, item)) == next && Handed(st, PutOp(key, item)) == []
  }

  lemma TwoGets<T>(a: string, b: string, first: T, second: T, third: T)
    requires a != b
    ensures TakesFirst(Partitions([a, b], map[a := [first, second], b := [third]], 0), a, first,
                  Partitions([a, b], map[a := [second], b := [third]], 1))
    ensures TakesFirst(Partitions([a, b], map[a := [second], b := [third]], 1), b, third,
                  Partitions([a, b], map[a := [second], b := []], 0))
  {
    assert [first, second][1..] == [second] && [third][1..] == [];
    FirstTake(Partitions([a, b], map[a := [first, second], b := [third]], 0),
              Partitions([a, b], map[a := [second], b := [third]], 1), a);
    FirstTake(Partitions([a, b], map[a := [second], b := [third]], 1),
              Partitions([a, b], map[a := [second], b := []], 0), b);
  }

  ghost predicate TakesFirst<T>(st: Partitions<T>, key: string, item: T, next: Partitions<T>)
  {
    Possible(st, GetOp(0)) && Perform(st, GetOp(0)) == next && Handed(st, GetOp(0)) == [(key, item)]
  }

  /** A get that finds the partition at the cursor non-empty. */
  lemma FirstTake<T>(st: Partitions<T>, next: Partitions<T>, key: string)
    requires st.cursor < |st.keys| && st.keys[st.cursor] == key && key in st.queues && st.queues[key] != []
    requires next == st.(queues := st.queues[key := st.queues[key][1..]],
                         cursor := if st.cursor + 1 < |st.keys| then st.cursor + 1 else 0)
    ensures Possible(st, GetOp(0)) && Perform(st, GetOp(0)) == next
    ensures Handed(st, GetOp(0)) == [(key, st.queues[key][0])]
  {
    hide Wrap;
    assert Wrap(st.cursor, |st.keys|) == st.cursor;
    assert KeyAt(st, 0) == key;
    assert Stops(st, 0);
  }

  lemma RunCons<T>(st: Partitions<T>, op: Op<T>, next: Partitions<T>, rest: seq<Op<T>>)
    requires Possible(st, op) && Perform(st, op) == next && PossibleRun(next, rest)
    ensures PossibleRun(st, [op] + rest)
    ensures Served(st, [op] + rest) == Handed(st, op) + Served(next, rest)
    ensures Arrivals([op] + rest) == (if op.PutOp? then [(op.key, op.item)] else []) + Arrivals(rest)
  {
    hide Perform, Possible, Handed;
    assert ([op] + rest)[1..] == rest;
  }

  /** The queue hands out the oldest item over all partitions, in every run over these session
      keys, exactly when there is at most one of them. */
  lemma OldestFirstIff<T(!new)>(keys: set<string>, item: T)
    ensures OldestFirst<T>(keys) <==> |keys| <= 1
  {
    if |keys| <= 1 {
      var key := if keys == {} then "" else AnyOf(keys);
      AtMostOne(keys, key);
      forall ops: seq<Op<T>> | PutsInto(ops, keys) && PossibleRun(Empty(), ops)
        ensures Served(Empty(), ops) <= Arrivals(ops)
      {
        OneKeyInOrder(ops, key);
      }
    } else {
      var a := AnyOf(keys);
      assert |keys - {a}| == |keys| - 1;
      var b := AnyOf(keys - {a});
      Overtakes(a, b, item, item, item);
      var ops := [PutOp(a, item), PutOp(a, item), PutOp(b, item), GetOp(0), GetOp(0)];
      assert PutsInto(ops, keys) && PossibleRun(Empty(), ops);
      assert Served(Empty(), ops)[1] != Arrivals(ops)[1];
    }
  }

  ghost function AnyOf(keys: set<string>): (k: string)
    requires keys != {}
    ensures k in keys
  {
    var k :| k in keys; k
  }

  lemma AtMostOne(keys: set<string>, key: string)
    requires |keys| <= 1 && (keys != {} ==> key in keys)
    ensures keys <= {key}
  {
    if k :| k in keys && k != key {
      assert {k, key} <= keys;
      SubsetSize({k, key}, keys);
    }
  }

  // ---------------------------------------------------------------- the program's queue

  /** Sum of the partition lengths over the first n keys. */
  function TotalOf<T>(st: Partitions<T>, n: nat): nat
    requires n <= |st.keys|
  {
    if n == 0 then 0 else TotalOf(st, n - 1) + |Contents(st, st.keys[n - 1])|
  }

  lemma {:induction false} TotalAfter<T>(st: Partitions<T>, after: Partitions<T>, key: string, at: nat, n: nat)
    requires WellFormed(st) && at < |st.keys| && st.keys[at] == key
    requires after.keys == st.keys && after.queues.Keys == st.queues.Keys
    requires forall k :: k in st.queues && k != key ==> after.queues[k] == st.queues[k]
    requires n <= |st.keys|
    ensures TotalOf(after, n) == TotalOf(st, n) + (if at < n then |Contents(after, key)| - |Contents(st, key)| else 0)
  {
    if n > 0 {
      TotalAfter(st, after, key, at, n - 1);
      assert st.keys[n - 1] == key <==> n - 1 == at;
      assert st.keys[n - 1] in st.keys;
    }
  }

  lemma {:induction false} TotalWithNew<T>(st: Partitions<T>, after: Partitions<T>, key: string, n: nat)
    requires WellFormed(st) && key !in st.queues && after.keys == st.keys + [key]
    requires forall k :: k in st.queues ==> k in after.queues && after.queues[k] == st.queues[k]
    requires n <= |st.keys|
    ensures TotalOf(after, n) == TotalOf(st, n)
  {
    if n > 0 {
      TotalWithNew(st, after, key, n - 1);
      assert st.keys[n - 1] in st.keys;
    }
  }

  lemma {:induction false} AllEmptyTotal<T>(st: Partitions<T>, n: nat)
    requires n <= |st.keys|
    ensures TotalOf(st, n) == 0 <==> forall i :: 0 <= i < n ==> Contents(st, st.keys[i]) == []
  {
    if n > 0 {
      AllEmptyTotal(st, n - 1);
    }
  }

  lemma PutTotal<T>(st: Partitions<T>, key: string, item: T)
    requires WellFormed(st)
    ensures TotalOf(Put(st, key, item), |Put(st, key, item).keys|) == TotalOf(st, |st.keys|) + 1
  {
    hide IndexOf;
    var after := Put(st, key, item);
    if key in st.queues {
      assert key in st.keys;
      TotalAfter(st, after, key, IndexOf(st.keys, key), |st.keys|);
    } else {
      TotalWithNew(st, after, key, |st.keys|);
    }
  }

  lemma TakeTotal<T>(st: Partitions<T>, i: nat)
    requires WellFormed(st) && Stops(st, i) && KeyAt(st, i) in st.queues
    ensures TotalOf(Take(st, i), |st.keys|) == TotalOf(st, |st.keys|) - 1
  {
    hide IndexOf, KeyAt, Wrap;
    var key := KeyAt(st, i);
    assert key in st.keys;
    TotalAfter(st, Take(st, i), key, IndexOf(st.keys, key), |st.keys|);
  }

  /** Scanning all offsets visits every key. */
  lemma ScanCovers<T>(st: Partitions<T>)
    requires WellFormed(st) && forall i :: 0 <= i < |st.keys| ==> Contents(st, KeyAt(st, i)) == []
    ensures TotalOf(st, |st.keys|) == 0
  {
    forall i | 0 <= i < |st.keys| ensures Contents(st, st.keys[i]) == [] {
      assert st.keys[i] in st.keys;
      var d := Distance(st, st.keys[i]);
      KeyAtDistance(st, st.keys[i], d);
    }
    AllEmptyTotal(st, |st.keys|);
  }

  class PartitionedQueue<T> {
    const maxsize: int
    var keys: seq<string>
    var partitions: map<string, seq<T>>
    var globalEvent: bool
    var total: int
    var rrIndex: nat
    var waiters: set<nat>

    ghost function View(): Partitions<T>
      reads this
    {
      Partitions(keys, partitions, rrIndex)
    }

    ghost predicate WithinLimit()
      reads this`partitions
    {
      0 < maxsize ==> forall k <- partitions :: |partitions[k]| <= maxsize
    }

    /** At every suspension point no partition is larger than `maxsize` (0 or less is no limit),
        the counter is the sum of the partition lengths, the event tells whether it is positive,
        and nobody waits while it is. */
    ghost predicate Valid()
      reads this
    {
      && WellFormed(View())
      && WithinLimit()
      && total == TotalOf(View(), |keys|)
      && globalEvent == (total > 0)
      && (waiters != {} ==> total == 0)
    }

    constructor (maxsize: int)
      ensures Valid() && keys == [] && waiters == {} && this.maxsize == maxsize
    {
      this.maxsize := maxsize;
      keys, partitions, globalEvent, total, rrIndex, waiters := [], map[], false, 0, 0, {};
    }

    /** `put_nowait`, and the awaited `put` once its partition has room: a missing partition is
        created, a full one refuses (or keeps its producer suspended). */
    method PutNoWait(key: string, item: T) returns (ok: bool)
      requires Valid()
      modifies this
      ensures Valid()
      ensures ok <==> maxsize <= 0 || |old(Contents(View(), key))| < maxsize
      ensures View() == if ok then Put(old(View()), key, item) else old(View())
      ensures waiters == if ok then {} else old(waiters)
    {
      hide WithinLimit, WellFormed;
      if key in partitions && 0 < maxsize <= |partitions[key]| {
        return false;
      }
      Append(key, item);
      total := total + 1;
      globalEvent, waiters := true, {};
      ok := true;
    }

    /** The insertion itself, with the sum it changes by one. */
    method Append(key: string, item: T)
      requires WellFormed(View()) && WithinLimit()
      requires maxsize <= 0 || |Contents(View(), key)| < maxsize
      modifies this`keys, this`partitions
      ensures WithinLimit() && WellFormed(View()) && View() == Put(old(View()), key, item)
      ensures TotalOf(View(), |keys|) == old(TotalOf(View(), |keys|)) + 1
    {
      ghost var before := View();
      PutIsWellFormed(before, key, item);
      PutTotal(before, key, item);
      hide TotalOf, WellFormed;
      if key in partitions {
        partitions := partitions[key := partitions[key] + [item]];
      } else {
        keys := keys + [key];
        partitions := partitions[key := [item]];
      }
      assert View() == Put(before, key, item) by { assert [] + [item] == [item]; }
    }

    /** One attempt of `get`: serve the first non-empty partition after the cursor, or suspend
        on the cleared event when there is none. */
    method GetAttempt(consumer: nat) returns (r: Option<(string, T)>)
      requires Valid()
      modifies this
      ensures Valid()
      ensures r.None? <==> old(total) == 0
      ensures r.None? ==> View() == old(View()) && waiters == old(waiters) + {consumer}
      ensures r.Some? ==> waiters == old(waiters) && exists i: nat ::
        && Possible(old(View()), GetOp(i))
        && r.value == (KeyAt(old(View()), i), old(Contents(View(), KeyAt(View(), i)))[0])
        && View() == Perform(old(View()), GetOp(i))
    {
      if total == 0 {
        globalEvent, waiters := false, waiters + {consumer};
        return None;
      }
      ghost var before := View();
      var start, i := Scan();
      var k := keys[Wrap(start + i, |keys|)];
      r := Some((k, partitions[k][0]));
      Serve(i, start, k);
      hide WellFormed, TotalOf, KeyAt, Stops;
      assert Possible(before, GetOp(i));
    }

    /** The scan for the first non-empty partition; a positive counter guarantees one. */
    method Scan() returns (start: nat, i: nat)
      requires WellFormed(View()) && 0 < total == TotalOf(View(), |keys|)
      ensures Stops(View(), i) && KeyAt(View(), i) in partitions && start == Wrap(rrIndex, |keys|)
    {
      var n := |keys|;
      start := Wrap(rrIndex, n);
      i := 0;
      while i < n
        invariant i <= n
        invariant forall j :: 0 <= j < i ==> Contents(View(), KeyAt(View(), j)) == []
      {
        var k := keys[Wrap(start + i, n)];
        assert k == KeyAt(View(), i) && k in keys;
        if partitions[k] != [] {
          return;
        }
        i := i + 1;
      }
      hide KeyAt, Wrap;
      ScanCovers(View());
      assert false;
    }

    /** Takes the item out and moves the cursor behind its partition. */
    method Remove(i: nat, start: nat, k: string)
      requires WellFormed(View()) && Stops(View(), i) && start == Wrap(rrIndex, |keys|)
      requires k == KeyAt(View(), i) && k in partitions && partitions[k] != []
      modifies this`partitions, this`rrIndex
      ensures View() == Take(old(View()), i)
    {
      hide WellFormed, KeyAt, Stops, Wrap;
      partitions := partitions[k := partitions[k][1..]];
      rrIndex := Wrap(start + i + 1, |keys|);
    }

    method Serve(i: nat, start: nat, k: string)
      requires Valid() && Stops(View(), i) && start == Wrap(rrIndex, |keys|)
      requires k == KeyAt(View(), i) && k in partitions && partitions[k] != []
      modifies this`partitions, this`total, this`rrIndex, this`globalEvent
      ensures Valid() && KeyAt(old(View()), i) in old(partitions) && View() == Take(old(View()), i)
    {
      ghost var before := View();
      hide WellFormed, TotalOf, KeyAt, Stops, Wrap, Contents;
      TakeIsWellFormed(before, i);
      TakeTotal(before, i);
      Remove(i, start, k);
      total := total - 1;
      if total == 0 {
        globalEvent := false;
      }
    }
  }
}
