/** Who gets in, told by the tasks alone: what a request finds depends only on what the other
    tasks are doing, not on how the lock table, the lock flags or the permits record it. */
module AdmissionOutcome {
  import opened PyLists
  import opened TurnAdmission

  /** No task of the session holds its lock or queues for it. */
  predicate Unclaimed(phase: map<Task, Phase>, session: string)
  {
    forall u <- phase :: u.session == session ==> !RefersToLock(phase[u])
  }

  /** There is no gate, or fewer than `max` tasks hold it and nobody queues for it. */
  predicate Room(max: nat, phase: map<Task, Phase>)
  {
    max == 0 || (|GateHolders(phase)| < max && forall u <- phase :: !phase[u].WaitsForGate? && !phase[u].ReplyWaits?)
  }

  lemma LockFreeIff(max: nat, st: State, session: string)
    requires Inv(max, st)
    ensures LockOf(st, session) !in st.locked && !LockHasWaiters(st, LockOf(st, session)) <==>
      Unclaimed(st.phase, session)
  {
    hide GateOk, OwnersOk;
    var lock := LockOf(st, session);
    assert forall u :: u in st.phase ==> TaskOk(st, u);
    if lock in st.locked {
      var h :| h in st.phase && HoldsLock(st.phase[h]) && st.phase[h].lock == lock;
      assert h.session == session;
    }
    if u :| u in st.phase && st.phase[u] == WaitsForLock(lock) {
      assert u.session == session;
    }
  }

  /** A permit is left exactly when fewer than `max` tasks hold the gate. */
  lemma PermitsLeftIff(max: nat, st: State)
    requires Inv(max, st)
    ensures 0 < max ==> (st.permits > 0 <==> |GateHolders(st.phase)| < max)
    ensures GateIsFree(max, st) <==> Room(max, st.phase)
  {
  }

  /** A new request: it queues behind its own session if that is claimed, runs at once if
      there is room on the gate, and queues for the gate otherwise. */
  lemma EnterOutcome(max: nat, st: State, t: Task)
    requires Inv(max, st) && t !in st.phase && !Owns(st, t)
    ensures var after := Step(max, st, Enter(t));
      && t.session in after.locks
      && (t.session in st.locks ==> after.locks == st.locks)
      && after.phase == st.phase[t :=
           if !Unclaimed(st.phase, t.session) then WaitsForLock(after.locks[t.session])
           else if Room(max, st.phase) then InTurn(after.locks[t.session], 0)
           else WaitsForGate(after.locks[t.session])]
  {
    hide Inv, Unclaimed, Room, LockHasWaiters, GateIsFree;
    LockFreeIff(max, st, t.session);
    PermitsLeftIff(max, st);
    var lock := LockOf(st, t.session);
    var known := st.(locks := st.locks[t.session := lock], nextLock := Max(st.nextLock, lock + 1));
    SameGate(max, st, known);
  }

  lemma SameGate(max: nat, st: State, known: State)
    requires known.permits == st.permits && known.phase == st.phase
    ensures GateIsFree(max, known) <==> GateIsFree(max, st)
  {
  }

  /** A queued task that is handed its session lock finds the gate like a new request, and a
      reply looks at the gate only. */
  lemma GateOutcome(max: nat, st: State, t: Task)
    requires Inv(max, st)
    ensures Enabled(max, st, LockGranted(t)) ==>
      Step(max, st, LockGranted(t)).phase == st.phase[t :=
        if Room(max, st.phase) then InTurn(st.phase[t].lock, 0) else WaitsForGate(st.phase[t].lock)]
    ensures Enabled(max, st, ReplyEnters(t)) ==>
      Step(max, st, ReplyEnters(t)).phase == st.phase[t := if Room(max, st.phase) then ReplyRuns else ReplyWaits]
  {
    hide Inv, Room, GateIsFree;
    PermitsLeftIff(max, st);
  }

  /** Who can be resumed: a task queued for its session when no other task of the session is
      past the lock, and one queued for the gate when fewer than `max` tasks hold it. */
  lemma ResumableIff(max: nat, st: State, t: Task)
    requires Inv(max, st) && t in st.phase
    ensures Enabled(max, st, LockGranted(t)) <==>
      st.phase[t].WaitsForLock? && forall u <- st.phase :: u.session == t.session ==> !HoldsLock(st.phase[u])
    ensures Enabled(max, st, GateGranted(t)) <==> st.phase[t].WaitsForGate? && |GateHolders(st.phase)| < max
    ensures Enabled(max, st, ReplyGranted(t)) <==> st.phase[t].ReplyWaits? && |GateHolders(st.phase)| < max
  {
    assert forall u :: u in st.phase ==> TaskOk(st, u);
    if st.phase[t].WaitsForLock? && st.phase[t].lock in st.locked {
      var h :| h in st.phase && HoldsLock(st.phase[h]) && st.phase[h].lock == st.phase[t].lock;
      assert h.session == t.session;
    }
  }

  /** An owner re-enters without suspending, and leaving undoes the entry, in every state. */
  lemma OwnerReentry(max: nat, st: State, t: Task)
    requires Owns(st, t) && Enabled(max, st, Enter(t))
    ensures var entered := Step(max, st, Enter(t));
      && t in entered.phase && (entered.phase[t].InTurn? || entered.phase[t].InBypass?)
      && Enabled(max, entered, Leave(t)) && Step(max, entered, Leave(t)) == st
  {
    var left := Step(max, Step(max, st, Enter(t)), Leave(t));
    assert left.phase == st.phase;
  }
}
