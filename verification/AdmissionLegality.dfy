/** Why the two illegal steps of the turn admission are illegal.

    Main result: a step is illegal exactly when some continuation of it lets two tasks of one
    session past its lock. */
module AdmissionLegality {
  import opened PyLists
  import opened AdmissionSafety
  import opened TurnAdmission

  lemma Bounded(ids: set<nat>) returns (n: nat)
    ensures forall i <- ids :: i < n
  {
    n := 0;
    var rest := ids;
    while rest != {}
      invariant rest <= ids
      invariant forall i :: i in ids && i !in rest ==> i < n
      decreases rest
    {
      var i :| i in rest;
      rest := rest - {i};
      n := Max(n, i + 1);
    }
  }

  /** A task of the session that no state component mentions yet. */
  lemma NewTask(st: State, session: string) returns (u: Task)
    ensures u.session == session && u !in st.phase && !Owns(st, u)
  {
    var ids := (set t | t in st.phase :: t.id) + (set s | s in st.owners :: st.owners[s].id);
    var n := Bounded(ids);
    u := Task(n, session);
    assert u in st.phase ==> u.id in ids;
    assert Owns(st, u) ==> u.id in ids;
  }

  /** With a free lock object for its session, a new task gets past the lock at once. */
  lemma NewTaskPasses(max: nat, st: State, u: Task)
    requires u !in st.phase && !Owns(st, u)
    requires LockOf(st, u.session) !in st.locked && !LockHasWaiters(st, LockOf(st, u.session))
    ensures Runs(max, st, [Enter(u)]) && AllLegal(max, st, [Enter(u)])
    ensures Admitted(After(max, st, [Enter(u)]), u)
    ensures forall t :: t != u && Admitted(st, t) ==> Admitted(After(max, st, [Enter(u)]), t)
  {
    assert [Enter(u)][1..] == [];
  }

  lemma OwnLockIsNew(max: nat, st: State)
    requires Inv(max, st)
    ensures st.nextLock !in st.locked && !LockHasWaiters(st, st.nextLock)
  {
    forall t | t in st.phase ensures st.phase[t] != WaitsForLock(st.nextLock) {
      assert TaskOk(st, t);
    }
  }

  /** Dropping the lock object of a session in use lets two tasks in. */
  lemma IllegalCleanupBreaks(max: nat, st: State, session: string) returns (es: seq<Event>)
    requires Inv(max, st) && !Quiet(st, session)
    ensures var cleaned := Step(max, st, Cleanup(session));
      Runs(max, cleaned, es) && AllLegal(max, cleaned, es) && !Exclusive(After(max, cleaned, es))
  {
    hide Step, Runs, AllLegal, After;
    var t :| t in st.phase && t.session == session && !st.phase[t].ReplyWaits? && !st.phase[t].ReplyRuns?;
    assert TaskOk(st, t);
    if st.phase[t].WaitsForLock? {
      if st.phase[t].lock !in st.locked {
        es := CleanupUnderWaiter(max, st, t);
      } else {
        var h :| h in st.phase && HoldsLock(st.phase[h]) && st.phase[h].lock == st.phase[t].lock;
        assert TaskOk(st, h);
        es := CleanupUnderHolder(max, st, h);
      }
    } else {
      es := CleanupUnderHolder(max, st, t);
    }
  }

  /** The waiter gets the old lock object while a newcomer gets a new one. */
  lemma CleanupUnderWaiter(max: nat, st: State, t: Task) returns (es: seq<Event>)
    requires Inv(max, st) && t in st.phase && st.phase[t].WaitsForLock? && st.phase[t].lock !in st.locked
    ensures var cleaned := Step(max, st, Cleanup(t.session));
      Runs(max, cleaned, es) && AllLegal(max, cleaned, es) && !Exclusive(After(max, cleaned, es))
  {
    var cleaned := Step(max, st, Cleanup(t.session));
    OwnLockIsNew(max, st);
    assert TaskOk(st, t);
    var granted := Step(max, cleaned, LockGranted(t));
    assert forall v :: v in granted.phase && v != t ==> granted.phase[v] == st.phase[v];
    var u := NewTask(granted, t.session);
    NewTaskPasses(max, granted, u);
    es := [LockGranted(t)] + [Enter(u)];
    RunsCons(max, cleaned, LockGranted(t), [Enter(u)]);
    TwoAdmitted(After(max, granted, [Enter(u)]), t, u);
  }

  /** The holder keeps the old lock object while a newcomer gets a new one. */
  lemma CleanupUnderHolder(max: nat, st: State, h: Task) returns (es: seq<Event>)
    requires Inv(max, st) && h in st.phase && HoldsLock(st.phase[h])
    ensures var cleaned := Step(max, st, Cleanup(h.session));
      Runs(max, cleaned, es) && AllLegal(max, cleaned, es) && !Exclusive(After(max, cleaned, es))
  {
    var cleaned := Step(max, st, Cleanup(h.session));
    OwnLockIsNew(max, st);
    var u := NewTask(st, h.session);
    NewTaskPasses(max, cleaned, u);
    es := [Enter(u)];
    TwoAdmitted(After(max, cleaned, es), h, u);
  }

  lemma TwoAdmitted(st: State, t: Task, u: Task)
    requires Admitted(st, t) && Admitted(st, u) && t.session == u.session && t != u
    ensures !Exclusive(st)
  {
  }

  /** Entering on a leftover owner entry bypasses a lock that others can still take. */
  lemma IllegalEnterBreaks(max: nat, st: State, t: Task) returns (es: seq<Event>)
    requires Inv(max, st) && t !in st.phase && Owns(st, t)
    ensures var entered := Step(max, st, Enter(t));
      Runs(max, entered, es) && AllLegal(max, entered, es) && !Exclusive(After(max, entered, es))
  {
    var entered := Step(max, st, Enter(t));
    var lock := LockOf(st, t.session);
    OwnLockIsNew(max, st);
    NobodyHolds(max, st, t.session, t);
    if w :| w in st.phase && st.phase[w] == WaitsForLock(lock) {
      assert TaskOk(st, w);
      es := [LockGranted(w)];
      assert es[1..] == [];
      var granted := Step(max, entered, LockGranted(w));
      assert Admitted(granted, t) && Admitted(granted, w) && granted == After(max, entered, es);
      TwoAdmitted(granted, t, w);
    } else {
      var u := NewTask(entered, t.session);
      assert !LockHasWaiters(entered, lock);
      NewTaskPasses(max, entered, u);
      es := [Enter(u)];
      TwoAdmitted(After(max, entered, es), t, u);
    }
  }

  lemma NobodyHolds(max: nat, st: State, session: string, t: Task)
    requires Inv(max, st) && t !in st.phase && t.session == session && Owns(st, t)
    ensures LockOf(st, session) !in st.locked
  {
    OwnLockIsNew(max, st);
    assert forall h :: h in st.phase && HoldsLock(st.phase[h]) ==> TaskOk(st, h);
  }

  ghost predicate SafeFrom(max: nat, st: State)
  {
    forall es :: Runs(max, st, es) && AllLegal(max, st, es) ==> Exclusive(After(max, st, es))
  }

  /** The legality condition is exact: a step of a safe state is legal if and only if every
      legal continuation of it keeps at most one task per session past the lock. */
  lemma LegalIffSafe(max: nat, st: State, e: Event)
    requires Inv(max, st) && Enabled(max, st, e)
    ensures Legal(st, e) <==> SafeFrom(max, Step(max, st, e))
  {
    hide Step, Enabled;
    if Legal(st, e) {
      StepKeepsInv(max, st, e);
      forall es | Runs(max, Step(max, st, e), es) && AllLegal(max, Step(max, st, e), es)
        ensures Exclusive(After(max, Step(max, st, e), es))
      {
        LegalRunsAreSafe(max, Step(max, st, e), es);
      }
    } else if e.Cleanup? {
      var es := IllegalCleanupBreaks(max, st, e.session);
      assert Runs(max, Step(max, st, e), es);
    } else {
      var es := IllegalEnterBreaks(max, st, e.task);
      assert Runs(max, Step(max, st, e), es);
    }
  }

  /** The leftover entry is reachable by legal steps: with one permit taken by another
      session, a task cancelled at the gate keeps its owner entry, and its next entry is the
      illegal step that LegalIffSafe describes. */
  lemma CancelledAtGateKeepsOwner(a: Task, b: Task)
    requires a.session == "x" && b.session == "y"
    ensures var es := [Enter(a), Enter(b), Cancel(b)];
      && Runs(1, Init(1), es) && AllLegal(1, Init(1), es)
      && Enabled(1, After(1, Init(1), es), Enter(b)) && !Legal(After(1, Init(1), es), Enter(b))
  {
    var s1 := State(map["x" := 0], {0}, 1, map["x" := a], 0, map[a := InTurn(0, 0)]);
    var s2 := State(map["x" := 0, "y" := 1], {0, 1}, 2, map["x" := a, "y" := b], 0,
      map[a := InTurn(0, 0), b := WaitsForGate(1)]);
    FirstEnters(a);
    SecondQueues(a, b);
    ThreeSteps(1, Init(1), s1, s2, [Enter(a), Enter(b), Cancel(b)]);
  }

  lemma FirstEnters(a: Task)
    requires a.session == "x"
    ensures Step(1, Init(1), Enter(a)) == State(map["x" := 0], {0}, 1, map["x" := a], 0, map[a := InTurn(0, 0)])
  {
  }

  lemma SecondQueues(a: Task, b: Task)
    requires a.session == "x" && b.session == "y"
    ensures Step(1, State(map["x" := 0], {0}, 1, map["x" := a], 0, map[a := InTurn(0, 0)]), Enter(b)) ==
      State(map["x" := 0, "y" := 1], {0, 1}, 2, map["x" := a, "y" := b], 0,
        map[a := InTurn(0, 0), b := WaitsForGate(1)])
  {
  }

  lemma ThreeSteps(max: nat, st: State, s1: State, s2: State, es: seq<Event>)
    requires |es| == 3
    requires Enabled(max, st, es[0]) && Legal(st, es[0]) && s1 == Step(max, st, es[0])
    requires Enabled(max, s1, es[1]) && Legal(s1, es[1]) && s2 == Step(max, s1, es[1])
    requires Enabled(max, s2, es[2]) && Legal(s2, es[2])
    ensures Runs(max, st, es) && AllLegal(max, st, es) && After(max, st, es) == Step(max, s2, es[2])
  {
    hide Step, Enabled, Legal, Runs, AllLegal, After;
    NoSteps(max, Step(max, s2, es[2]));
    RunsCons(max, s2, es[2], []);
    RunsCons(max, s1, es[1], [es[2]] + []);
    RunsCons(max, st, es[0], [es[1]] + ([es[2]] + []));
    assert es == [es[0]] + ([es[1]] + ([es[2]] + []));
  }

  lemma NoSteps(max: nat, st: State)
    ensures Runs(max, st, []) && AllLegal(max, st, []) && After(max, st, []) == st
  {
  }
}
