/** The admission fields of the agent loop, changed in place. Each method is the code between
    two suspension points and performs exactly one step of the TurnAdmission protocol. */
module AdmissionControl {
  import opened PyLists
  import opened AdmissionOutcome
  import opened AdmissionSafety
  import opened TurnAdmission

  class AgentLoop {
    /** Permits of the concurrency gate; 0 when there is no gate. */
    const max: nat
    /** `_session_locks`; lock objects are numbered in order of creation. */
    var sessionLocks: map<string, nat>
    var lockedLocks: set<nat>
    var nextLock: nat
    var sessionLockOwners: map<string, Task>
    var gateValue: int
    /** Where each non-idle task is suspended or running. */
    var phase: map<Task, Phase>

    ghost function View(): State
      reads this
    {
      State(sessionLocks, lockedLocks, nextLock, sessionLockOwners, gateValue, phase)
    }

    ghost predicate Safe()
      reads this
    {
      Inv(max, View())
    }

    constructor (max: nat)
      ensures this.max == max && View() == Init(max) && Safe()
    {
      this.max := max;
      sessionLocks, lockedLocks, nextLock := map[], {}, 0;
      sessionLockOwners, gateValue, phase := map[], max, map[];
      new;
      InitIsSafe(max);
    }

    /** `_holds_session_lock` */
    predicate HoldsSessionLock(t: Task)
      reads this
    {
      t.session in sessionLockOwners && sessionLockOwners[t.session] == t
    }

    /** `_get_session_lock`: setdefault on the lock dictionary. */
    method GetSessionLock(session: string) returns (lock: nat)
      modifies this`sessionLocks, this`nextLock
      ensures lock == LockOf(old(View()), session)
      ensures View() ==
        old(View()).(locks := old(sessionLocks)[session := lock], nextLock := Max(old(nextLock), lock + 1))
    {
      if session in sessionLocks {
        lock := sessionLocks[session];
        assert sessionLocks[session := lock] == sessionLocks;
      } else {
        lock := nextLock;
        sessionLocks := sessionLocks[session := lock];
      }
      nextLock := Max(nextLock, lock + 1);
    }

    /** Between acquiring the lock and entering the body: record the owner, try the gate. */
    method PastSessionLock(t: Task, lock: nat)
      modifies this`lockedLocks, this`sessionLockOwners, this`gateValue, this`phase
      ensures View() == PassLock(max, old(View()), t, lock)
      ensures var waiting := exists u <- old(phase) :: old(phase)[u].WaitsForGate? || old(phase)[u].ReplyWaits?;
        phase == old(phase)[t :=
          if max == 0 || (old(gateValue) > 0 && !waiting) then InTurn(lock, 0) else WaitsForGate(lock)]
    {
      lockedLocks := lockedLocks + {lock};
      sessionLockOwners := sessionLockOwners[t.session := t];
      if max == 0 {
        phase := phase[t := InTurn(lock, 0)];
      } else if gateValue > 0 && !(exists u <- phase :: phase[u].WaitsForGate? || phase[u].ReplyWaits?) {
        gateValue := gateValue - 1;
        phase := phase[t := InTurn(lock, 0)];
      } else {
        phase := phase[t := WaitsForGate(lock)];
      }
    }

    /** `_turn_admission` up to the first suspension or the body. */
    method EnterTurn(t: Task)
      requires Enabled(max, View(), Enter(t))
      modifies this
      ensures View() == Step(max, old(View()), Enter(t))
      ensures old(Safe() && Legal(View(), Enter(t))) ==> Safe()
      ensures old(Safe() && t !in phase && !HoldsSessionLock(t)) ==>
        && t.session in sessionLocks
        && phase == old(phase)[t :=
             if old(!Unclaimed(phase, t.session)) then WaitsForLock(sessionLocks[t.session])
             else if old(Room(max, phase)) then InTurn(sessionLocks[t.session], 0)
             else WaitsForGate(sessionLocks[t.session])]
    {
      hide Inv, Legal, PassLock, Unclaimed, Room;
      ghost var before := View();
      if HoldsSessionLock(t) {
        phase := phase[t :=
          if t !in phase then InBypass(0)
          else if phase[t].InTurn? then InTurn(phase[t].lock, phase[t].depth + 1)
          else InBypass(phase[t].depth + 1)];
      } else {
        var lock := GetSessionLock(t.session);
        if lock in lockedLocks || exists u <- phase :: phase[u] == WaitsForLock(lock) {
          phase := phase[t := WaitsForLock(lock)];
        } else {
          PastSessionLock(t, lock);
        }
      }
      KeptSafe(max, before, Enter(t));
      if Inv(max, before) && t !in before.phase && !Owns(before, t) {
        EnterOutcome(max, before, t);
      }
    }

    /** A queued task is resumed with the session lock. */
    method ResumeWithLock(t: Task)
      requires Enabled(max, View(), LockGranted(t))
      modifies this
      ensures View() == Step(max, old(View()), LockGranted(t))
      ensures old(Safe()) ==> Safe()
      ensures old(Safe()) ==> phase == old(phase)[t :=
        if old(Room(max, phase)) then InTurn(old(phase)[t].lock, 0) else WaitsForGate(old(phase)[t].lock)]
    {
      hide Inv, Room;
      ghost var before := View();
      PastSessionLock(t, phase[t].lock);
      KeptSafe(max, before, LockGranted(t));
      if Inv(max, before) {
        GateOutcome(max, before, t);
      }
    }

    /** A task queued on the gate is resumed with a permit. */
    method ResumeWithGate(t: Task)
      requires Enabled(max, View(), GateGranted(t))
      modifies this
      ensures View() == Step(max, old(View()), GateGranted(t))
      ensures old(Safe()) ==> Safe()
    {
      hide Inv;
      ghost var before := View();
      if max > 0 {
        gateValue := gateValue - 1;
      }
      phase := phase[t := InTurn(phase[t].lock, 0)];
      KeptSafe(max, before, GateGranted(t));
    }

    /** The turn body ends, normally or not: the owner entry goes first, then the exit stack
        unwinds the gate and the lock. A nested frame just returns. */
    method LeaveTurn(t: Task)
      requires Enabled(max, View(), Leave(t))
      modifies this
      ensures View() == Step(max, old(View()), Leave(t))
      ensures old(Safe()) ==> Safe()
    {
      hide Inv;
      ghost var before := View();
      var p := phase[t];
      if p.depth > 0 {
        phase := phase[t := if p.InTurn? then InTurn(p.lock, p.depth - 1) else InBypass(p.depth - 1)];
      } else {
        if p.InTurn? {
          sessionLockOwners := sessionLockOwners - {t.session};
          if max > 0 {
            gateValue := gateValue + 1;
          }
          lockedLocks := lockedLocks - {p.lock};
        }
        phase := phase - {t};
      }
      KeptSafe(max, before, Leave(t));
    }

    /** Cancellation while suspended on the lock or the gate. */
    method CancelWait(t: Task)
      requires Enabled(max, View(), Cancel(t))
      modifies this
      ensures View() == Step(max, old(View()), Cancel(t))
      ensures old(Safe()) ==> Safe()
    {
      hide Inv;
      ghost var before := View();
      if phase[t].WaitsForGate? {
        lockedLocks := lockedLocks - {phase[t].lock};
      }
      phase := phase - {t};
      KeptSafe(max, before, Cancel(t));
    }

    /** `_dispatch_unlocked`: a reply takes only the gate. */
    method EnterReply(t: Task)
      requires t !in phase
      modifies this
      ensures View() == Step(max, old(View()), ReplyEnters(t))
      ensures old(Safe()) ==> Safe()
      ensures old(Safe()) ==> phase == old(phase)[t := if old(Room(max, phase)) then ReplyRuns else ReplyWaits]
    {
      hide Inv, Room;
      ghost var before := View();
      if max == 0 {
        phase := phase[t := ReplyRuns];
      } else if gateValue > 0 && !(exists u <- phase :: phase[u].WaitsForGate? || phase[u].ReplyWaits?) {
        gateValue := gateValue - 1;
        phase := phase[t := ReplyRuns];
      } else {
        phase := phase[t := ReplyWaits];
      }
      KeptSafe(max, before, ReplyEnters(t));
      if Inv(max, before) {
        GateOutcome(max, before, t);
      }
    }

    method ResumeReply(t: Task)
      requires Enabled(max, View(), ReplyGranted(t))
      modifies this
      ensures View() == Step(max, old(View()), ReplyGranted(t))
      ensures old(Safe()) ==> Safe()
    {
      hide Inv;
      ghost var before := View();
      if max > 0 {
        gateValue := gateValue - 1;
      }
      phase := phase[t := ReplyRuns];
      KeptSafe(max, before, ReplyGranted(t));
    }

    method LeaveReply(t: Task)
      requires Enabled(max, View(), ReplyLeaves(t))
      modifies this
      ensures View() == Step(max, old(View()), ReplyLeaves(t))
      ensures old(Safe()) ==> Safe()
    {
      hide Inv;
      ghost var before := View();
      if max > 0 {
        gateValue := gateValue + 1;
      }
      phase := phase - {t};
      KeptSafe(max, before, ReplyLeaves(t));
    }

    /** `_cleanup_session_state` drops the session's lock object. */
    method CleanupSession(session: string)
      modifies this
      ensures View() == Step(max, old(View()), Cleanup(session))
      ensures old(Safe() && Quiet(View(), session)) ==> Safe()
    {
      hide Inv;
      ghost var before := View();
      sessionLocks := sessionLocks - {session};
      KeptSafe(max, before, Cleanup(session));
    }
  }

  lemma KeptSafe(max: nat, st: State, e: Event)
    requires Enabled(max, st, e)
    ensures Inv(max, st) && Legal(st, e) ==> Inv(max, Step(max, st, e))
  {
    hide Inv, Legal, Enabled, Step;
    if Inv(max, st) && Legal(st, e) {
      StepKeepsInv(max, st, e);
    }
  }
}
