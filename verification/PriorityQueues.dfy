/** The three-class priority queue refines a single list of pending arrivals. */
module PriorityQueues {
  import opened PyLists

  datatype Priority = System | Heartbeat | User

  datatype Policy = BlockPut | DropOldest | Reject

  const IN_ORDER: seq<Priority> := [System, Heartbeat, User]

  function Urgency(p: Priority): nat
  {
    match p
    case System => 0
    case Heartbeat => 1
    case User => 2
  }

  // ---------------------------------------------------------------- the simple object

  /** Pending items in order of arrival, each with its class. */
  type Arrivals<T> = seq<(Priority, T)>

  function Of<T>(pending: Arrivals<T>, p: Priority): seq<T>
  {
    if pending == [] then []
    else (if pending[0].0 == p then [pending[0].1] else []) + Of(pending[1..], p)
  }

  function RemoveAt<T>(pending: Arrivals<T>, i: nat): Arrivals<T>
    requires i < |pending|
  {
    pending[..i] + pending[i + 1..]
  }

  predicate IsOldest<T>(pending: Arrivals<T>, p: Priority, i: nat)
  {
    i < |pending| && pending[i].0 == p && forall j :: 0 <= j < i ==> pending[j].0 != p
  }

  /** The oldest entry of the most urgent class that has one. */
  ghost predicate IsNext<T>(pending: Arrivals<T>, i: nat)
  {
    && i < |pending|
    && (forall j :: 0 <= j < |pending| ==> Urgency(pending[i].0) <= Urgency(pending[j].0))
    && (forall j :: 0 <= j < i ==> pending[j].0 != pending[i].0)
  }

  lemma {:induction false} OfConcat<T>(a: Arrivals<T>, b: Arrivals<T>, p: Priority)
    ensures Of(a + b, p) == Of(a, p) + Of(b, p)
  {
    hide Of;
    if a == [] {
      assert a + b == b;
      OfNothing<T>(p);
    } else {
      OfConcat(a[1..], b, p);
      assert (a + b)[1..] == a[1..] + b;
      OfUnfold(a, p);
      OfUnfold(a + b, p);
    }
  }

  lemma OfUnfold<T>(pending: Arrivals<T>, p: Priority)
    requires pending != []
    ensures Of(pending, p) == (if pending[0].0 == p then [pending[0].1] else []) + Of(pending[1..], p)
  {
  }

  lemma OfOne<T>(p: Priority, x: T, q: Priority)
    ensures Of([(p, x)], q) == if p == q then [x] else []
  {
    assert [(p, x)][1..] == [];
  }

  lemma OfNothing<T>(p: Priority)
    ensures Of<T>([], p) == []
  {
  }

  function Tagged<T>(p: Priority, items: seq<T>): Arrivals<T>
  {
    if items == [] then [] else [(p, items[0])] + Tagged(p, items[1..])
  }

  lemma TaggedCons<T>(p: Priority, x: T, items: seq<T>)
    ensures Tagged(p, [x] + items) == [(p, x)] + Tagged(p, items)
    ensures [] + items == items
  {
    assert ([x] + items)[1..] == items;
  }

  /** The three class lists together hold exactly the pending items, each under its class. */
  lemma {:induction false} ClassesHoldPending<T>(pending: Arrivals<T>)
    ensures multiset(Tagged(System, Of(pending, System))) + multiset(Tagged(Heartbeat, Of(pending, Heartbeat)))
      + multiset(Tagged(User, Of(pending, User))) == multiset(pending)
  {
    if pending != [] {
      var p, x, rest := pending[0].0, pending[0].1, pending[1..];
      assert pending == [(p, x)] + rest;
      ClassesHoldPending(rest);
      OfUnfold(pending, System);
      OfUnfold(pending, Heartbeat);
      OfUnfold(pending, User);
      TaggedCons(System, x, Of(rest, System));
      TaggedCons(Heartbeat, x, Of(rest, Heartbeat));
      TaggedCons(User, x, Of(rest, User));
      hide Of, Tagged;
    }
  }

  /** The class lists' lengths add up. */
  lemma {:induction false} ClassesPartition<T>(pending: Arrivals<T>)
    ensures |Of(pending, System)| + |Of(pending, Heartbeat)| + |Of(pending, User)| == |pending|
  {
    if pending != [] {
      ClassesPartition(pending[1..]);
    }
  }

  lemma {:induction false} NoneOf<T>(pending: Arrivals<T>, p: Priority)
    ensures Of(pending, p) == [] <==> forall j :: 0 <= j < |pending| ==> pending[j].0 != p
  {
    if pending != [] {
      NoneOf(pending[1..], p);
      assert forall j :: 1 <= j < |pending| ==> pending[j] == pending[1..][j - 1];
    }
  }

  /** Taking the oldest entry of a class pops that class's list and no other. */
  lemma OldestPops<T>(pending: Arrivals<T>, p: Priority, i: nat, q: Priority)
    requires IsOldest(pending, p, i)
    ensures Of(pending, p) != [] && Of(pending, p)[0] == pending[i].1
    ensures Of(RemoveAt(pending, i), q) == if q == p then Of(pending, p)[1..] else Of(pending, q)
  {
    hide Of;
    var a, x, b := pending[..i], pending[i], pending[i + 1..];
    assert pending == a + ([x] + b);
    NoneOf(a, p);
    OfSplit(a, x, b, p);
    OfSplit(a, x, b, q);
  }

  lemma OfSplit<T>(a: Arrivals<T>, x: (Priority, T), b: Arrivals<T>, p: Priority)
    ensures Of(a + ([x] + b), p) == Of(a, p) + ((if x.0 == p then [x.1] else []) + Of(b, p))
    ensures Of(a + b, p) == Of(a, p) + Of(b, p)
  {
    hide Of;
    OfConcat(a, [x] + b, p);
    OfConcat([x], b, p);
    OfConcat(a, b, p);
    OfOne(x.0, x.1, p);
  }

  lemma OldestExists<T>(pending: Arrivals<T>, p: Priority) returns (i: nat)
    requires Of(pending, p) != []
    ensures IsOldest(pending, p, i)
  {
    NoneOf(pending, p);
    i := 0;
    while pending[i].0 != p
      invariant i < |pending| && forall j :: 0 <= j < i ==> pending[j].0 != p
      decreases |pending| - i
    {
      i := i + 1;
      assert i < |pending|;
    }
  }

  // ---------------------------------------------------------------- runs of the simple object

  datatype Op<T> =
    | Accept(p: Priority, x: T)
    | Displace(p: Priority, x: T, oldest: nat)
    | Serve(next: nat)

  /** Accept appends, Displace replaces the oldest entry of a full class, Serve hands out the
      next entry. */
  ghost predicate Possible<T>(pending: Arrivals<T>, op: Op<T>)
  {
    match op
    case Accept(_, _) => true
    case Displace(p, _, i) => IsOldest(pending, p, i)
    case Serve(i) => IsNext(pending, i)
  }

  ghost function Perform<T>(pending: Arrivals<T>, op: Op<T>): Arrivals<T>
    requires Possible(pending, op)
  {
    match op
    case Accept(p, x) => pending + [(p, x)]
    case Displace(p, x, i) => RemoveAt(pending, i) + [(p, x)]
    case Serve(i) => RemoveAt(pending, i)
  }

  ghost predicate PossibleRun<T>(pending: Arrivals<T>, ops: seq<Op<T>>)
    decreases ops
  {
    ops == [] || (Possible(pending, ops[0]) && PossibleRun(Perform(pending, ops[0]), ops[1..]))
  }

  ghost function PerformAll<T>(pending: Arrivals<T>, ops: seq<Op<T>>): Arrivals<T>
    requires PossibleRun(pending, ops)
    decreases ops
  {
    if ops == [] then pending else PerformAll(Perform(pending, ops[0]), ops[1..])
  }

  function InputOf<T>(op: Op<T>): Arrivals<T>
  {
    if op.Serve? then [] else [(op.p, op.x)]
  }

  /** Everything accepted during a run. */
  function Inputs<T>(ops: seq<Op<T>>): Arrivals<T>
  {
    if ops == [] then []
    else InputOf(ops[0]) + Inputs(ops[1..])
  }

  /** Everything that left the queue during a run, delivered or displaced, in order. */
  ghost function Outputs<T>(pending: Arrivals<T>, ops: seq<Op<T>>): Arrivals<T>
    requires PossibleRun(pending, ops)
    decreases ops
  {
    if ops == [] then [] else OutputOf(pending, ops[0]) + Outputs(Perform(pending, ops[0]), ops[1..])
  }

  /** Every class is FIFO over every run: what was pending, followed by what was accepted, is
      what left, followed by what is pending now. So nothing is lost, duplicated or overtaken
      within its class; the only way out besides delivery is displacement from the front. */
  lemma {:induction false} ClassIsFifo<T>(pending: Arrivals<T>, ops: seq<Op<T>>, p: Priority)
    requires PossibleRun(pending, ops)
    ensures Of(pending, p) + Of(Inputs(ops), p) == Of(Outputs(pending, ops), p) + Of(PerformAll(pending, ops), p)
    decreases ops
  {
    if ops != [] {
      hide Of, Perform, Possible;
      var op, next, rest := ops[0], Perform(pending, ops[0]), ops[1..];
      ClassIsFifo(next, rest, p);
      StepIsFifo(pending, op, p);
      OfConcat(InputOf(op), Inputs(rest), p);
      OfConcat(OutputOf(pending, op), Outputs(next, rest), p);
      Rotate(Of(pending, p), Of(InputOf(op), p), Of(Inputs(rest), p),
             Of(OutputOf(pending, op), p), Of(next, p), Of(Outputs(next, rest), p), Of(PerformAll(next, rest), p));
    }
  }

  ghost function OutputOf<T>(pending: Arrivals<T>, op: Op<T>): Arrivals<T>
    requires Possible(pending, op)
  {
    match op
    case Accept(_, _) => []
    case Displace(_, _, i) => [pending[i]]
    case Serve(i) => [pending[i]]
  }

  lemma StepIsFifo<T>(pending: Arrivals<T>, op: Op<T>, p: Priority)
    requires Possible(pending, op)
    ensures Of(pending, p) + Of(InputOf(op), p)
      == Of(OutputOf(pending, op), p) + Of(Perform(pending, op), p)
  {
    hide Of;
    OfNothing<T>(p);
    match op {
      case Accept(q, x) =>
        OfConcat(pending, [(q, x)], p);
      case Displace(q, x, i) =>
        OldestPops(pending, q, i, p);
        OfConcat(RemoveAt(pending, i), [(q, x)], p);
        OfOne(pending[i].0, pending[i].1, p);
        OfOne(q, x, p);
        Restack(Of(pending, p), Of([(q, x)], p));
      case Serve(i) =>
        OldestPops(pending, pending[i].0, i, p);
        OfOne(pending[i].0, pending[i].1, p);
    }
  }

  lemma OfAppended<T>(pending: Arrivals<T>, p: Priority, item: T)
    ensures forall q :: Of(pending + [(p, item)], q) == if p == q then Of(pending, q) + [item] else Of(pending, q)
  {
    hide Of;
    forall q ensures Of(pending + [(p, item)], q) == if p == q then Of(pending, q) + [item] else Of(pending, q) {
      OfConcat(pending, [(p, item)], q);
      OfOne(p, item, q);
      OfNothing<T>(q);
    }
  }

  lemma Restack<T>(s: seq<T>, x: seq<T>)
    ensures s != [] ==> s + x == [s[0]] + (s[1..] + x)
    ensures s + x == [] + (s + x)
  {
  }

  // ---------------------------------------------------------------- the program's queue

  class PriorityQueue<T> {
    const maxsize: int
    var queues: map<Priority, seq<T>>
    var event: bool
    var total: int
    /** Consumers suspended on the event. */
    var waiters: set<nat>

    ghost var pending: Arrivals<T>

    /** At every suspension point: the class queues split the pending list and none is larger than
        `maxsize`, the counter is the length of the list, the event tells whether it is empty, and
        nobody waits while it is not. A `maxsize` of 0 or less is no limit. */
    ghost predicate Valid()
      reads this
    {
      && (forall p :: p in queues && queues[p] == Of(pending, p))
      && (forall p :: 0 < maxsize ==> |Of(pending, p)| <= maxsize)
      && total == |pending|
      && event == (pending != [])
      && (waiters != {} ==> pending == [])
    }

    constructor (maxsize: int)
      ensures Valid() && pending == [] && waiters == {} && this.maxsize == maxsize
    {
      this.maxsize := maxsize;
      queues := map[System := [], Heartbeat := [], User := []];
      event, total, waiters, pending := false, 0, {}, [];
      new;
      forall p ensures p in queues && queues[p] == Of(pending, p) {
        match p
        case System =>
        case Heartbeat =>
        case User =>
      }
    }

    predicate Full(p: Priority)
      reads this
      requires p in queues
    {
      0 < maxsize <= |queues[p]|
    }

    /** Setting the event wakes every waiter. */
    method Signal()
      modifies this`event, this`waiters
      ensures event == (total > 0)
      ensures waiters == if total > 0 then {} else old(waiters)
    {
      if total > 0 {
        event, waiters := true, {};
      } else {
        event := false;
      }
    }

    /** `put_nowait`, and the awaited `put` once its class has room: false means QueueFull, or
        that the awaiting producer stays suspended. */
    method PutNoWait(item: T, p: Priority) returns (ok: bool)
      requires Valid()
      modifies this
      ensures Valid() && (ok <==> maxsize <= 0 || |Of(old(pending), p)| < maxsize)
      ensures ok ==> pending == old(pending) + [(p, item)] == Perform(old(pending), Accept(p, item))
      ensures !ok ==> pending == old(pending) && waiters == old(waiters)
    {
      if Full(p) {
        return false;
      }
      Append(item, p);
      ok := true;
    }

    method Append(item: T, p: Priority)
      requires Valid() && (maxsize <= 0 || |Of(pending, p)| < maxsize)
      modifies this
      ensures Valid() && pending == old(pending) + [(p, item)] && waiters == {}
    {
      OfAppended(pending, p, item);
      hide Of;
      queues := queues[p := queues[p] + [item]];
      total := total + 1;
      pending := pending + [(p, item)];
      Signal();
    }

    /** `put_with_backpressure`: never waits; a full class either loses its oldest item to the
        new one or refuses it. */
    method PutWithBackpressure(item: T, p: Priority, policy: Policy) returns (ok: bool)
      requires Valid()
      modifies this
      ensures Valid() && (ok <==> maxsize <= 0 || |Of(old(pending), p)| < maxsize || policy == DropOldest)
      ensures maxsize <= 0 || |Of(old(pending), p)| < maxsize ==>
        pending == old(pending) + [(p, item)] == Perform(old(pending), Accept(p, item))
      ensures 0 < maxsize <= |Of(old(pending), p)| && policy == DropOldest ==> exists i: nat ::
        && i < |old(pending)| && old(pending)[i].0 == p && (forall j :: 0 <= j < i ==> old(pending)[j].0 != p)
        && pending == old(pending)[..i] + old(pending)[i + 1..] + [(p, item)]
        && Possible(old(pending), Displace(p, item, i)) && pending == Perform(old(pending), Displace(p, item, i))
      ensures !ok ==> pending == old(pending) && waiters == old(waiters)
    {
      if !Full(p) {
        Append(item, p);
        return true;
      }
      if policy == DropOldest {
        ghost var i := OldestExists(pending, p);
        DropFront(p, i);
        Append(item, p);
        return true;
      }
      ok := false;
    }

    /** Pop the front of a class. No suspension point separates this from what follows it. */
    method DropFront(p: Priority, ghost i: nat)
      requires Valid() && IsOldest(pending, p, i)
      modifies this`queues, this`total, this`pending, this`event
      ensures pending == RemoveAt(old(pending), i) && total == old(total) - 1
      ensures Valid() && |Of(pending, p)| < |Of(old(pending), p)|
    {
      hide Of;
      OldestPops(pending, p, i, p);
      forall q ensures Of(RemoveAt(pending, i), q) == if q == p then Of(pending, p)[1..] else Of(pending, q) {
        OldestPops(pending, p, i, q);
      }
      queues := queues[p := queues[p][1..]];
      total := total - 1;
      pending := RemoveAt(pending, i);
      event := total > 0;
    }

    /** Hand out the front of the most urgent class. */
    method TakeNext(p: Priority, ghost i: nat) returns (item: T)
      requires Valid() && IsOldest(pending, p, i) && IsNext(pending, i)
      modifies this`queues, this`total, this`pending, this`event
      ensures Valid() && item == old(pending)[i].1 && pending == Perform(old(pending), Serve(i))
      ensures pending == old(pending)[..i] + old(pending)[i + 1..]
      ensures old(pending)[i].0 == Heartbeat ==> forall e <- old(pending) :: e.0 != System
      ensures old(pending)[i].0 == User ==> forall e <- old(pending) :: e.0 == User
      ensures forall j :: 0 <= j < i ==> old(pending)[j].0 != old(pending)[i].0
    {
      NextIsMostUrgent(pending, i);
      OldestPops(pending, p, i, p);
      hide IsNext, Of;
      item := queues[p][0];
      DropFront(p, i);
    }

    /** One attempt of `get`: either it hands out the oldest item of the most urgent non-empty
        class, or the queue is empty and the consumer suspends on the cleared event. The
        fall-through after the scan cannot be reached. */
    method GetAttempt(consumer: nat) returns (r: Option<T>)
      requires Valid()
      modifies this
      ensures Valid()
      ensures r.None? <==> old(pending) == []
      ensures r.None? ==> pending == [] && waiters == old(waiters) + {consumer}
      ensures r.Some? ==> waiters == old(waiters) && exists i: nat ::
        && i < |old(pending)| && r.value == old(pending)[i].1
        && pending == old(pending)[..i] + old(pending)[i + 1..]
        && (old(pending)[i].0 == Heartbeat ==> forall e <- old(pending) :: e.0 != System)
        && (old(pending)[i].0 == User ==> forall e <- old(pending) :: e.0 == User)
        && (forall j :: 0 <= j < i ==> old(pending)[j].0 != old(pending)[i].0)
        && Possible(old(pending), Serve(i)) && pending == Perform(old(pending), Serve(i))
    {
      if total == 0 {
        event, waiters := false, waiters + {consumer};
        return None;
      }
      hide Of, IsNext, IsOldest;
      var p, i := FirstNonEmpty();
      var item := TakeNext(p, i);
      r := Some(item);
    }

    /** The scan over the classes, most urgent first; a positive counter guarantees an item. */
    method FirstNonEmpty() returns (p: Priority, ghost i: nat)
      requires Valid() && total > 0
      ensures IsOldest(pending, p, i) && IsNext(pending, i)
    {
      hide Of, IsNext, IsOldest;
      assert IN_ORDER[0] == System && IN_ORDER[1] == Heartbeat && IN_ORDER[2] == User;
      for k := 0 to 3
        invariant forall j :: 0 <= j < k ==> Of(pending, IN_ORDER[j]) == []
      {
        p := IN_ORDER[k];
        if queues[p] != [] {
          i := OldestExists(pending, p);
          OldestOfFirstIsNext(pending, k, i);
          return;
        }
      }
      ClassesPartition(pending);
      assert false;
    }
  }

  lemma NextIsMostUrgent<T>(pending: Arrivals<T>, i: nat)
    requires IsNext(pending, i)
    ensures pending[i].0 == Heartbeat ==> forall e <- pending :: e.0 != System
    ensures pending[i].0 == User ==> forall e <- pending :: e.0 == User
    ensures forall j :: 0 <= j < i ==> pending[j].0 != pending[i].0
  {
  }

  /** If no class before the k-th has an item, the oldest item of the k-th is next. */
  lemma OldestOfFirstIsNext<T>(pending: Arrivals<T>, k: nat, i: nat)
    requires k < 3 && forall j :: 0 <= j < k ==> Of(pending, IN_ORDER[j]) == []
    requires IsOldest(pending, IN_ORDER[k], i)
    ensures IsNext(pending, i)
  {
    NoneOf(pending, System);
    NoneOf(pending, Heartbeat);
    assert IN_ORDER[0] == System && IN_ORDER[1] == Heartbeat && IN_ORDER[2] == User;
  }
}
