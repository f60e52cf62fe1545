/** Planning and executing the tool calls of one assistant message. */
module ToolBatches {
  import opened PyLists

  // ---------------------------------------------------------------- planning

  type Batch = seq<nat>

  function Range(a: nat, b: nat): (r: seq<nat>)
    requires a <= b
    ensures |r| == b - a && forall i :: 0 <= i < |r| ==> r[i] == a + i
  {
    seq(b - a, i requires 0 <= i => a + i)
  }

  ghost predicate AllSafe(safe: seq<bool>, b: Batch)
  {
    forall i :: i in b ==> i < |safe| && safe[i]
  }

  /** Non-empty, and parallel only if every call in it is safe. */
  ghost predicate IsBatch(safe: seq<bool>, b: Batch)
  {
    b != [] && (|b| > 1 ==> AllSafe(safe, b))
  }

  /** The batches run through the items in order, and no two neighbours could have been one. */
  ghost predicate IsPlan(safe: seq<bool>, items: seq<nat>, plan: seq<Batch>)
  {
    && Flatten(plan) == items
    && (forall k :: 0 <= k < |plan| ==> IsBatch(safe, plan[k]))
    && (forall k :: 0 <= k < |plan| - 1 ==> !(AllSafe(safe, plan[k]) && AllSafe(safe, plan[k + 1])))
  }

  ghost predicate EndsAt(b: Batch, i: nat)
  {
    b != [] && b[|b| - 1] == i
  }

  /** `safe[i]` says whether call i may run beside others. */
  method PlanToolBatches(safe: seq<bool>) returns (batches: seq<Batch>)
    ensures IsPlan(safe, Range(0, |safe|), batches)
  {
    batches := [];
    for i := 0 to |safe|
      invariant IsPlan(safe, Range(0, i), batches)
      invariant i > 0 ==> batches != [] && EndsAt(batches[|batches| - 1], i - 1)
      invariant i > 0 && safe[i - 1] ==> AllSafe(safe, batches[|batches| - 1])
    {
      assert Range(0, i + 1) == Range(0, i) + [i];
      if safe[i] && batches != [] {
        var last := batches[|batches| - 1];
        if |last| >= 1 && safe[last[|last| - 1]] {
          Joined(safe, Range(0, i), batches, i);
          batches := batches[..|batches| - 1] + [last + [i]];
          continue;
        }
      }
      Opened(safe, Range(0, i), batches, i);
      batches := batches + [[i]];
    }
  }

  lemma Joined(safe: seq<bool>, items: seq<nat>, plan: seq<Batch>, i: nat)
    requires IsPlan(safe, items, plan) && plan != [] && i < |safe| && safe[i]
    requires AllSafe(safe, plan[|plan| - 1])
    ensures IsPlan(safe, items + [i], plan[..|plan| - 1] + [plan[|plan| - 1] + [i]])
    ensures AllSafe(safe, plan[|plan| - 1] + [i])
  {
    var front, last := plan[..|plan| - 1], plan[|plan| - 1];
    assert plan == front + [last];
    FlattenSnoc(front, last);
    FlattenSnoc(front, last + [i]);
    var next := front + [last + [i]];
    assert AllSafe(safe, last + [i]);
    forall k | 0 <= k < |next| - 1 ensures !(AllSafe(safe, next[k]) && AllSafe(safe, next[k + 1])) {
      assert !(AllSafe(safe, plan[k]) && AllSafe(safe, plan[k + 1]));
    }
  }

  lemma Opened(safe: seq<bool>, items: seq<nat>, plan: seq<Batch>, i: nat)
    requires IsPlan(safe, items, plan) && i < |safe|
    requires plan != [] && safe[i] ==> !AllSafe(safe, plan[|plan| - 1])
    ensures IsPlan(safe, items + [i], plan + [[i]])
    ensures safe[i] ==> AllSafe(safe, [i])
  {
    FlattenSnoc(plan, [i]);
    assert i in [i];
  }

  /** The order, the safety of parallel batches and their maximality determine the plan. */
  lemma {:induction false} PlanIsUnique(safe: seq<bool>, items: seq<nat>, x: seq<Batch>, y: seq<Batch>)
    requires IsPlan(safe, items, x) && IsPlan(safe, items, y)
    ensures x == y
    decreases |x|
  {
    if x == [] || y == [] {
      NoBatches(safe, items, x);
      NoBatches(safe, items, y);
    } else {
      FirstNotShorter(safe, items, x, y);
      FirstNotShorter(safe, items, y, x);
      var n := |x[0]|;
      assert x[0] == items[..n] == y[0];
      RestIsPlan(safe, items, x);
      RestIsPlan(safe, items, y);
      PlanIsUnique(safe, items[n..], x[1..], y[1..]);
      assert x == [x[0]] + x[1..] && y == [y[0]] + y[1..];
    }
  }

  lemma NoBatches(safe: seq<bool>, items: seq<nat>, x: seq<Batch>)
    requires IsPlan(safe, items, x)
    ensures items == [] <==> x == []
  {
    if x != [] { assert IsBatch(safe, x[0]); }
  }

  lemma RestIsPlan(safe: seq<bool>, items: seq<nat>, x: seq<Batch>)
    requires IsPlan(safe, items, x) && x != []
    ensures |x[0]| <= |items| && items[..|x[0]|] == x[0]
    ensures IsPlan(safe, items[|x[0]|..], x[1..])
  {
    hide AllSafe, IsBatch;
    assert items == x[0] + Flatten(x[1..]);
    forall k | 0 <= k < |x[1..]| - 1 ensures !(AllSafe(safe, x[1..][k]) && AllSafe(safe, x[1..][k + 1])) {
      assert !(AllSafe(safe, x[k + 1]) && AllSafe(safe, x[k + 2]));
    }
  }

  lemma FirstNotShorter(safe: seq<bool>, items: seq<nat>, x: seq<Batch>, y: seq<Batch>)
    requires IsPlan(safe, items, x) && IsPlan(safe, items, y) && x != [] && y != []
    ensures |x[0]| >= |y[0]|
  {
    hide AllSafe;
    var n := |x[0]|;
    RestIsPlan(safe, items, x);
    RestIsPlan(safe, items, y);
    assert IsBatch(safe, x[0]) && IsBatch(safe, y[0]);
    if |x| > 1 {
      assert !(AllSafe(safe, x[0]) && AllSafe(safe, x[1])) && IsBatch(safe, x[1]);
      RestIsPlan(safe, items[n..], x[1..]);
      SplitOfSafe(safe, items, x[0], x[1], y[0]);
    }
  }

  /** A longer safe batch starting at the same call would make the next two neighbours safe. */
  lemma SplitOfSafe(safe: seq<bool>, items: seq<nat>, first: Batch, second: Batch, longer: Batch)
    requires first + second <= items && longer <= items
    requires IsBatch(safe, first) && IsBatch(safe, second) && IsBatch(safe, longer)
    ensures |longer| > |first| ==> AllSafe(safe, first) && AllSafe(safe, second)
  {
    if |longer| > |first| {
      assert AllSafe(safe, longer);
      forall i | i in first ensures i < |safe| && safe[i] {
        var k :| 0 <= k < |first| && first[k] == i;
        assert longer[k] == items[k] == first[k];
        assert i in longer;
      }
      assert longer[|first|] == items[|first|] == (first + second)[|first|] == second[0];
      SafeStart(safe, second, longer);
    }
  }

  /** A batch that shares its first call with a safe one is safe. */
  lemma SafeStart(safe: seq<bool>, b: Batch, longer: Batch)
    requires IsBatch(safe, b) && AllSafe(safe, longer) && b[0] in longer
    ensures AllSafe(safe, b)
  {
    if |b| == 1 {
      forall i | i in b ensures i < |safe| && safe[i] {
        assert i == b[0];
      }
    }
  }

  // ---------------------------------------------------------------- execution

  /** How one call ends: with a result, with an error, or cancelled. */
  datatype Outcome<R> = Value(result: R) | Raised(error: string) | Cancelled

  /** The results, one per call; an error inside a parallel batch is stored like a result. */
  datatype Run<R> = Finished(slots: seq<Outcome<R>>) | Stopped(how: Outcome<R>)

  /** A call is in a batch of its own exactly if neither neighbour can join it. */
  predicate Alone(safe: seq<bool>, i: nat)
    requires i < |safe|
  {
    !safe[i] || !((i > 0 && safe[i - 1]) || (i + 1 < |safe| && safe[i + 1]))
  }

  /** What ends the whole execution: any failure of a lone call, a cancellation elsewhere. */
  predicate Fatal<R>(safe: seq<bool>, outcomes: seq<Outcome<R>>, i: nat)
    requires i < |safe| == |outcomes|
  {
    if Alone(safe, i) then !outcomes[i].Value? else outcomes[i].Cancelled?
  }

  /** The execution survives a result always, an error only of a safe call with a safe neighbour, a
      cancellation never. */
  lemma SurvivedIff<R>(safe: seq<bool>, outcomes: seq<Outcome<R>>, i: nat)
    requires i < |safe| == |outcomes|
    ensures !Fatal(safe, outcomes, i) <==>
      || outcomes[i].Value?
      || (outcomes[i].Raised? && safe[i] && ((i > 0 && safe[i - 1]) || (i + 1 < |safe| && safe[i + 1])))
  {
  }

  /** The batch boundary behind call i. */
  predicate Boundary(safe: seq<bool>, k: nat)
    requires k <= |safe|
  {
    k == 0 || k == |safe| || !safe[k - 1] || !safe[k]
  }

  lemma {:induction false} BatchesAreRuns(safe: seq<bool>, a: nat, plan: seq<Batch>)
    requires a <= |safe| && IsPlan(safe, Range(a, |safe|), plan) && Boundary(safe, a)
    ensures plan != [] ==>
      var b := a + |plan[0]|;
      && a < b <= |safe| && plan[0] == Range(a, b) && Boundary(safe, b)
      && IsPlan(safe, Range(b, |safe|), plan[1..])
      && (forall i :: a <= i < b ==> (Alone(safe, i) <==> b == a + 1))
      && (forall k :: a < k < b ==> !Boundary(safe, k))
  {
    if plan != [] {
      RestIsPlan(safe, Range(a, |safe|), plan);
      var b := a + |plan[0]|;
      assert IsBatch(safe, plan[0]);
      assert Range(a, |safe|)[|plan[0]|..] == Range(b, |safe|);
      assert plan[0] == Range(a, b);
      BoundaryBehind(safe, a, b, plan);
      if |plan[0]| > 1 {
        forall i: nat | a <= i < b ensures safe[i] {
          assert plan[0][i - a] == i;
          assert i in plan[0];
        }
      }
    }
  }

  lemma BoundaryBehind(safe: seq<bool>, a: nat, b: nat, plan: seq<Batch>)
    requires a < b <= |safe| && plan != [] && plan[0] == Range(a, b)
    requires IsPlan(safe, Range(a, |safe|), plan) && IsPlan(safe, Range(b, |safe|), plan[1..])
    ensures Boundary(safe, b)
  {
    if b < |safe| {
      assert Range(b, |safe|)[0] == b;
      NoBatches(safe, Range(b, |safe|), plan[1..]);
      RestIsPlan(safe, Range(b, |safe|), plan[1..]);
      var second := plan[1];
      assert |plan| >= 2 && second[0] == b && plan[0][b - 1 - a] == b - 1;
      assert IsBatch(safe, second) && IsBatch(safe, plan[0]);
      assert !(AllSafe(safe, plan[0]) && AllSafe(safe, plan[1]));
    }
  }

  /** Where the run stops for the failure of call f: behind f's batch. */
  ghost predicate StopsAfter(safe: seq<bool>, f: nat, k: nat)
    requires f < |safe|
  {
    f < k <= |safe| && Boundary(safe, k) && forall j :: f < j < k ==> !Boundary(safe, j)
  }

  /** Runs the batches in order. `started` records every call made, in the order of the starts;
      `outcomes` is what each call comes to if it is made. */
  method ExecuteToolCalls<R>(safe: seq<bool>, outcomes: seq<Outcome<R>>)
    returns (r: Run<R>, started: seq<nat>)
    requires |safe| == |outcomes|
    ensures r.Finished? <==> forall i :: 0 <= i < |safe| ==> !Fatal(safe, outcomes, i)
    ensures r.Finished? ==> started == Range(0, |safe|) && r.slots == outcomes
    ensures r.Stopped? ==> exists f: nat, k: nat ::
      f < |safe| && Fatal(safe, outcomes, f) && (forall i: nat :: i < f ==> !Fatal(safe, outcomes, i))
      && r.how == outcomes[f] && StopsAfter(safe, f, k) && started == Range(0, k)
  {
    var batches := PlanToolBatches(safe);
    var out: seq<Option<Outcome<R>>> := seq(|safe|, _ => None);
    started := [];
    hide IsPlan;
    assert IsPlan(safe, Range(0, |safe|), batches[0..]) by { assert batches[0..] == batches; }
    ghost var done: nat := 0;
    for n := 0 to |batches|
      invariant done <= |safe| && Boundary(safe, done)
      invariant IsPlan(safe, Range(done, |safe|), batches[n..])
      invariant started == Range(0, done) && |out| == |safe|
      invariant forall i :: 0 <= i < done ==> out[i] == Some(outcomes[i]) && !Fatal(safe, outcomes, i)
    {
      var batch := batches[n];
      BatchesAreRuns(safe, done, batches[n..]);
      assert batches[n..][0] == batch && batches[n..][1..] == batches[n + 1..];
      ghost var next := done + |batch|;
      if |batch| == 1 {
        var i := batch[0];
        started := started + [i];
        assert started == Range(0, next);
        assert i == done && Alone(safe, i);
        if !outcomes[i].Value? {
          assert Fatal(safe, outcomes, i) && StopsAfter(safe, i, next);
          return Stopped(outcomes[i]), started;
        }
        out := out[i := Some(outcomes[i])];
      } else {
        started := started + batch;
        assert started == Range(0, next);
        for j := 0 to |batch|
          invariant |out| == |safe|
          invariant forall i :: 0 <= i < done + j ==> out[i] == Some(outcomes[i]) && !Fatal(safe, outcomes, i)
        {
          var i := batch[j];
          assert i == done + j && !Alone(safe, i);
          if outcomes[i].Cancelled? {
            assert Fatal(safe, outcomes, i);
            assert StopsAfter(safe, i, next);
            return Stopped(outcomes[i]), started;
          }
          out := out[i := Some(outcomes[i])];
        }
      }
      done := next;
    }
    NoBatches(safe, Range(done, |safe|), []);
    assert done == |safe|;
    r := Finished(seq(|out|, i requires 0 <= i < |out| && out[i].Some? => out[i].value));
  }
}
