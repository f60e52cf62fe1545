/** Safety of the turn admission: every legal step keeps the invariant, so every run in which no
    step is illegal keeps at most one task per session inside the admitted region and at most
    `max` tasks on the gate. */
module AdmissionSafety {
  import opened PyLists
  import opened TurnAdmission

  /** The owner map serialises holders: a session has one owner and every holder is it. */
  lemma InvIsExclusive(max: nat, st: State)
    requires Inv(max, st)
    ensures Exclusive(st)
    ensures 0 < max ==> |GateHolders(st.phase)| <= max
  {
  }

  lemma GateHoldersAdd(phase: map<Task, Phase>, t: Task, p: Phase)
    requires p.InTurn? || p.ReplyRuns?
    ensures GateHolders(phase[t := p]) == GateHolders(phase) + {t}
  {
  }

  lemma GateHoldersDrop(phase: map<Task, Phase>, t: Task)
    ensures GateHolders(phase - {t}) == GateHolders(phase) - {t}
  {
  }

  lemma GateHoldersOther(phase: map<Task, Phase>, t: Task, p: Phase)
    requires !p.InTurn? && !p.ReplyRuns?
    ensures GateHolders(phase[t := p]) == GateHolders(phase) - {t}
  {
  }

  /** Locks stay held when their holders do. */
  lemma KeepHolders(st: State, after: State)
    requires LocksOk(st) && after.locked <= st.locked
    requires forall t :: t in st.phase && HoldsLock(st.phase[t]) && st.phase[t].lock in after.locked ==>
      t in after.phase && HoldsLock(after.phase[t]) && after.phase[t].lock == st.phase[t].lock
    ensures LocksOk(after)
  {
    forall l | l in after.locked
      ensures exists u :: u in after.phase && HoldsLock(after.phase[u]) && after.phase[u].lock == l
    {
      var u :| u in st.phase && HoldsLock(st.phase[u]) && st.phase[u].lock == l;
      assert u in after.phase;
    }
  }

  lemma PassLockGate(max: nat, st: State, t: Task, lock: nat)
    requires GateOk(max, st) && (t !in st.phase || st.phase[t].WaitsForLock?)
    ensures GateOk(max, PassLock(max, st, t, lock))
  {
    GateHoldersAdd(st.phase, t, InTurn(lock, 0));
    GateHoldersOther(st.phase, t, WaitsForGate(lock));
    assert t !in GateHolders(st.phase);
    assert GateHolders(st.phase) - {t} == GateHolders(st.phase);
  }

  lemma PassLockTasks(max: nat, st: State, t: Task, lock: nat)
    requires TasksOk(st) && LockTableOk(st)
    requires t.session in st.locks && st.locks[t.session] == lock && lock !in st.locked
    ensures TasksOk(PassLock(max, st, t, lock))
  {
    var after := PassLock(max, st, t, lock);
    forall u | u in after.phase ensures TaskOk(after, u) {
      if u != t {
        assert TaskOk(st, u);
      }
    }
  }

  lemma PassLockHolders(max: nat, st: State, t: Task, lock: nat)
    requires LocksOk(st) && (t !in st.phase || !HoldsLock(st.phase[t]))
    ensures LocksOk(PassLock(max, st, t, lock))
  {
    var after := PassLock(max, st, t, lock);
    forall l | l in after.locked
      ensures exists u :: u in after.phase && HoldsLock(after.phase[u]) && after.phase[u].lock == l
    {
      if l == lock {
        assert t in after.phase && HoldsLock(after.phase[t]);
      } else {
        var u :| u in st.phase && HoldsLock(st.phase[u]) && st.phase[u].lock == l;
        assert u in after.phase && after.phase[u] == st.phase[u];
      }
    }
  }

  /** Taking a free session lock. */
  lemma PassLockKeepsInv(max: nat, st: State, t: Task, lock: nat)
    requires Inv(max, st)
    requires t !in st.phase || st.phase[t].WaitsForLock?
    requires t.session in st.locks && st.locks[t.session] == lock && lock !in st.locked
    ensures Inv(max, PassLock(max, st, t, lock))
  {
    PassLockGate(max, st, t, lock);
    PassLockTasks(max, st, t, lock);
    PassLockHolders(max, st, t, lock);
  }

  lemma OthersOk(st: State, after: State, t: Task)
    requires TasksOk(st) && (t in after.phase ==> TaskOk(after, t))
    requires forall u :: u in after.phase && u != t ==> u in st.phase && after.phase[u] == st.phase[u]
    requires forall u :: u in st.phase && u != t && RefersToLock(st.phase[u]) ==>
      u.session in after.locks && after.locks[u.session] == st.locks[u.session]
    requires forall u :: u in st.phase && u != t && HoldsLock(st.phase[u]) ==>
      st.phase[u].lock in after.locked && Owns(after, u)
    ensures TasksOk(after)
  {
    forall u | u in after.phase ensures TaskOk(after, u) {
      if u != t {
        assert TaskOk(st, u);
      }
    }
  }

  lemma EnterKeepsInv(max: nat, st: State, t: Task)
    requires Inv(max, st) && Enabled(max, st, Enter(t)) && Legal(st, Enter(t))
    ensures Inv(max, Step(max, st, Enter(t)))
  {
    hide Inv;
    var after := Step(max, st, Enter(t));
    if Owns(st, t) {
      NestKeepsInv(max, st, t);
    } else {
      var lock := LockOf(st, t.session);
      var known := st.(locks := st.locks[t.session := lock], nextLock := Max(st.nextLock, lock + 1));
      KnownKeepsInv(max, st, t.session);
      if lock !in st.locked && !LockHasWaiters(st, lock) {
        assert after == PassLock(max, known, t, lock);
        PassLockKeepsInv(max, known, t, lock);
      } else {
        assert after == known.(phase := known.phase[t := WaitsForLock(lock)]);
        QueueKeepsInv(max, known, t, WaitsForLock(lock));
      }
    }
  }

  /** An idle task starts to wait. */
  lemma QueueKeepsInv(max: nat, st: State, t: Task, p: Phase)
    requires Inv(max, st) && t !in st.phase
    requires (p.WaitsForLock? && t.session in st.locks && st.locks[t.session] == p.lock) || (p.ReplyWaits? && 0 < max)
    ensures Inv(max, st.(phase := st.phase[t := p]))
  {
    hide LocksOk, GateOk;
    var after := st.(phase := st.phase[t := p]);
    QueueKeepsGate(max, st, t, p);
    KeepHolders(st, after);
    forall u | u in after.phase ensures TaskOk(after, u) {
      if u != t {
        assert TaskOk(st, u);
      }
    }
  }

  lemma QueueKeepsGate(max: nat, st: State, t: Task, p: Phase)
    requires GateOk(max, st) && t !in st.phase
    requires p.WaitsForLock? || (p.ReplyWaits? && 0 < max)
    ensures GateOk(max, st.(phase := st.phase[t := p]))
  {
    GateHoldersOther(st.phase, t, p);
    assert t !in GateHolders(st.phase);
    assert GateHolders(st.phase[t := p]) == GateHolders(st.phase);
  }

  lemma TakePermitKeepsGate(max: nat, st: State, t: Task, p: Phase)
    requires GateOk(max, st) && (max == 0 || st.permits > 0) && t !in GateHolders(st.phase)
    requires p.InTurn? || p.ReplyRuns?
    ensures GateOk(max, TakePermit(max, st).(phase := st.phase[t := p]))
  {
    GateHoldersAdd(st.phase, t, p);
  }

  lemma KnownKeepsInv(max: nat, st: State, session: string)
    requires Inv(max, st)
    ensures var lock := LockOf(st, session);
      Inv(max, st.(locks := st.locks[session := lock], nextLock := Max(st.nextLock, lock + 1)))
  {
    var lock := LockOf(st, session);
    var known := st.(locks := st.locks[session := lock], nextLock := Max(st.nextLock, lock + 1));
    forall u | u in known.phase ensures TaskOk(known, u) {
      assert TaskOk(st, u);
    }
    KeepHolders(st, known);
  }

  lemma NestKeepsInv(max: nat, st: State, t: Task)
    requires Inv(max, st) && t in st.phase && Enabled(max, st, Enter(t))
    ensures Inv(max, Step(max, st, Enter(t)))
  {
    assert TaskOk(st, t);
    RedepthKeepsInv(max, st, t, st.phase[t].depth + 1);
  }

  lemma LeaveKeepsInv(max: nat, st: State, t: Task)
    requires Inv(max, st) && Enabled(max, st, Leave(t))
    ensures Inv(max, Step(max, st, Leave(t)))
  {
    var after := Step(max, st, Leave(t));
    assert TaskOk(st, t);
    if st.phase[t].depth > 0 {
      RedepthKeepsInv(max, st, t, st.phase[t].depth - 1);
    } else {
      ReleaseKeepsTasks(st, after, t);
      GateHoldersDrop(st.phase, t);
      assert t in GateHolders(st.phase);
    }
  }

  /** The nesting depth of a turn is irrelevant to the invariant. */
  lemma RedepthKeepsInv(max: nat, st: State, t: Task, depth: nat)
    requires Inv(max, st) && t in st.phase && st.phase[t].InTurn?
    ensures Inv(max, st.(phase := st.phase[t := InTurn(st.phase[t].lock, depth)]))
  {
    assert TaskOk(st, t);
    hide LocksOk, TasksOk;
    var after := st.(phase := st.phase[t := InTurn(st.phase[t].lock, depth)]);
    GateHoldersAdd(st.phase, t, InTurn(st.phase[t].lock, depth));
    assert GateHolders(after.phase) == GateHolders(st.phase);
    KeepHolders(st, after);
    OthersOk(st, after, t);
  }

  /** A holder of the session lock gives it up: no other task depends on it. */
  lemma ReleaseKeepsTasks(st: State, after: State, t: Task)
    requires TasksOk(st) && LockTableOk(st) && LocksOk(st)
    requires t in st.phase && HoldsLock(st.phase[t])
    requires after.phase == st.phase - {t} && after.locks == st.locks && after.locked == st.locked - {st.phase[t].lock}
    requires after.owners == st.owners || after.owners == st.owners - {t.session}
    ensures TasksOk(after) && LocksOk(after)
  {
    assert TaskOk(st, t);
    forall u | u in after.phase ensures TaskOk(after, u) {
      assert TaskOk(st, u);
    }
    KeepHolders(st, after);
  }

  lemma CancelKeepsInv(max: nat, st: State, t: Task)
    requires Inv(max, st) && Enabled(max, st, Cancel(t))
    ensures Inv(max, Step(max, st, Cancel(t)))
  {
    var after := Step(max, st, Cancel(t));
    GateHoldersDrop(st.phase, t);
    assert t !in GateHolders(st.phase);
    assert GateHolders(after.phase) == GateHolders(st.phase);
    if st.phase[t].WaitsForGate? {
      ReleaseKeepsTasks(st, after, t);
    } else {
      KeepHolders(st, after);
      OthersOk(st, after, t);
    }
  }

  lemma GateGrantedKeepsInv(max: nat, st: State, t: Task)
    requires Inv(max, st) && Enabled(max, st, GateGranted(t))
    ensures Inv(max, Step(max, st, GateGranted(t)))
  {
    var after := Step(max, st, GateGranted(t));
    assert TaskOk(st, t);
    TakePermitKeepsGate(max, st, t, InTurn(st.phase[t].lock, 0));
    KeepHolders(st, after);
    OthersOk(st, after, t);
  }

  lemma ReplyRunsKeepsInv(max: nat, st: State, t: Task)
    requires Inv(max, st) && (max == 0 || st.permits > 0)
    requires t !in st.phase || st.phase[t].ReplyWaits?
    ensures Inv(max, TakePermit(max, st).(phase := st.phase[t := ReplyRuns]))
  {
    var after := TakePermit(max, st).(phase := st.phase[t := ReplyRuns]);
    TakePermitKeepsGate(max, st, t, ReplyRuns);
    KeepHolders(st, after);
    OthersOk(st, after, t);
  }

  lemma ReplyLeavesKeepsInv(max: nat, st: State, t: Task)
    requires Inv(max, st) && t in st.phase && st.phase[t].ReplyRuns?
    ensures Inv(max, Step(max, st, ReplyLeaves(t)))
  {
    var after := Step(max, st, ReplyLeaves(t));
    GateHoldersDrop(st.phase, t);
    assert t in GateHolders(st.phase);
    KeepHolders(st, after);
    OthersOk(st, after, t);
  }

  lemma CleanupKeepsInv(max: nat, st: State, session: string)
    requires Inv(max, st) && Legal(st, Cleanup(session))
    ensures Inv(max, Step(max, st, Cleanup(session)))
  {
    var after := Step(max, st, Cleanup(session));
    forall u | u in after.phase ensures TaskOk(after, u) {
      assert TaskOk(st, u);
    }
    KeepHolders(st, after);
  }

  /** Every legal step keeps the invariant. */
  lemma StepKeepsInv(max: nat, st: State, e: Event)
    requires Inv(max, st) && Enabled(max, st, e) && Legal(st, e)
    ensures Inv(max, Step(max, st, e))
  {
    hide Step, Inv;
    match e {
      case Enter(t) => EnterKeepsInv(max, st, t);
      case LockGranted(t) => LockGrantedKeepsInv(max, st, t);
      case GateGranted(t) => GateGrantedKeepsInv(max, st, t);
      case Leave(t) => LeaveKeepsInv(max, st, t);
      case Cancel(t) => CancelKeepsInv(max, st, t);
      case Cleanup(session) => CleanupKeepsInv(max, st, session);
      case ReplyGranted(t) => ReplyGrantedKeepsInv(max, st, t);
      case ReplyLeaves(t) => ReplyLeavesKeepsInv(max, st, t);
      case ReplyEnters(t) => ReplyEntersKeepsInv(max, st, t);
    }
  }

  lemma ReplyGrantedKeepsInv(max: nat, st: State, t: Task)
    requires Inv(max, st) && Enabled(max, st, ReplyGranted(t))
    ensures Inv(max, Step(max, st, ReplyGranted(t)))
  {
    hide Inv;
    ReplyRunsKeepsInv(max, st, t);
  }

  lemma ReplyEntersKeepsInv(max: nat, st: State, t: Task)
    requires Inv(max, st) && t !in st.phase
    ensures Inv(max, Step(max, st, ReplyEnters(t)))
  {
    hide Inv;
    if GateIsFree(max, st) {
      ReplyRunsKeepsInv(max, st, t);
    } else {
      QueueKeepsInv(max, st, t, ReplyWaits);
    }
  }

  lemma LockGrantedKeepsInv(max: nat, st: State, t: Task)
    requires Inv(max, st) && Enabled(max, st, LockGranted(t))
    ensures Inv(max, Step(max, st, LockGranted(t)))
  {
    assert TaskOk(st, t);
    PassLockKeepsInv(max, st, t, st.phase[t].lock);
  }

  /** Admission safety over whole runs: whatever tasks do in whatever order, as long as no
      step is illegal, a session never has two tasks past its lock and at most `max` tasks
      hold the gate. */
  lemma {:induction false} LegalRunsAreSafe(max: nat, st: State, es: seq<Event>)
    requires Inv(max, st) && Runs(max, st, es) && AllLegal(max, st, es)
    ensures Inv(max, After(max, st, es))
    ensures Exclusive(After(max, st, es))
    ensures 0 < max ==> |GateHolders(After(max, st, es).phase)| <= max
    decreases es
  {
    hide Step;
    if es == [] {
      InvIsExclusive(max, st);
    } else {
      StepKeepsInv(max, st, es[0]);
      LegalRunsAreSafe(max, Step(max, st, es[0]), es[1..]);
    }
  }

  lemma InitIsSafe(max: nat)
    ensures Inv(max, Init(max))
  {
    assert GateHolders(map[]) == {};
  }
}
