/** Progress of the turn admission: re-entry never waits, no safe state is stuck, and whatever
    was admitted drains, in any order of grants and exits. */
module AdmissionProgress {
  import opened AdmissionSafety
  import opened TurnAdmission

  /** A task inside its turn re-enters without suspending, and leaving undoes the entry. */
  lemma ReentryNeverWaits(max: nat, st: State, t: Task)
    requires Inv(max, st) && t in st.phase && st.phase[t].InTurn?
    ensures Enabled(max, st, Enter(t)) && Legal(st, Enter(t))
    ensures Step(max, st, Enter(t)) == st.(phase := st.phase[t := InTurn(st.phase[t].lock, st.phase[t].depth + 1)])
    ensures Enabled(max, Step(max, st, Enter(t)), Leave(t))
    ensures Step(max, Step(max, st, Enter(t)), Leave(t)) == st
  {
    assert TaskOk(st, t);
    assert st.phase[t := InTurn(st.phase[t].lock, st.phase[t].depth + 1)][t := st.phase[t]] == st.phase;
  }

  /** A grant or the end of a body: no new request and no cancellation. */
  predicate Forward(e: Event)
  {
    e.LockGranted? || e.GateGranted? || e.Leave? || e.ReplyGranted? || e.ReplyLeaves?
  }

  /** No reachable state is stuck: while a task is not idle, some grant or exit is enabled. */
  lemma SomeStepForward(max: nat, st: State) returns (e: Event)
    requires Inv(max, st) && st.phase != map[]
    ensures Forward(e) && Enabled(max, st, e) && Legal(st, e)
  {
    var t :| t in st.phase;
    assert TaskOk(st, t);
    if u :| u in st.phase && st.phase[u].InTurn? {
      return Leave(u);
    }
    if u :| u in st.phase && st.phase[u].ReplyRuns? {
      return ReplyLeaves(u);
    }
    assert GateHolders(st.phase) == {};
    if u :| u in st.phase && st.phase[u].WaitsForGate? {
      return GateGranted(u);
    }
    if u :| u in st.phase && st.phase[u].ReplyWaits? {
      return ReplyGranted(u);
    }
    e := LockGranted(t);
  }

  function LockWaiters(phase: map<Task, Phase>): set<Task> { set t | t in phase && phase[t].WaitsForLock? }

  function GateWaiters(phase: map<Task, Phase>): set<Task>
  {
    set t | t in phase && (phase[t].WaitsForGate? || phase[t].ReplyWaits?)
  }

  /** Steps each task still needs, not counting the frames nested inside its turn. */
  function Work(phase: map<Task, Phase>): nat
  {
    3 * |LockWaiters(phase)| + 2 * |GateWaiters(phase)| + |GateHolders(phase)|
  }

  function Weight(p: Phase): nat
  {
    if p.WaitsForLock? then 3
    else if p.WaitsForGate? || p.ReplyWaits? then 2
    else if p.InTurn? || p.ReplyRuns? then 1
    else 0
  }

  lemma SizeWithout<T>(a: set<T>, b: set<T>, x: T)
    requires a == b - {x}
    ensures |a| == if x in b then |b| - 1 else |b|
  {
    if x !in b {
      assert a == b;
    }
  }

  lemma WorkSplit(phase: map<Task, Phase>, t: Task)
    requires t in phase
    ensures Work(phase) == Work(phase - {t}) + Weight(phase[t])
  {
    hide LockWaiters, GateWaiters, GateHolders;
    WaitersWithout(phase, t);
    SizeWithout(LockWaiters(phase - {t}), LockWaiters(phase), t);
    SizeWithout(GateWaiters(phase - {t}), GateWaiters(phase), t);
    SizeWithout(GateHolders(phase - {t}), GateHolders(phase), t);
  }

  lemma WaitersWithout(phase: map<Task, Phase>, t: Task)
    requires t in phase
    ensures LockWaiters(phase - {t}) == LockWaiters(phase) - {t}
    ensures GateWaiters(phase - {t}) == GateWaiters(phase) - {t}
    ensures GateHolders(phase - {t}) == GateHolders(phase) - {t}
    ensures t in LockWaiters(phase) <==> phase[t].WaitsForLock?
    ensures t in GateWaiters(phase) <==> phase[t].WaitsForGate? || phase[t].ReplyWaits?
    ensures t in GateHolders(phase) <==> phase[t].InTurn? || phase[t].ReplyRuns?
  {
  }

  lemma WorkMoved(phase: map<Task, Phase>, t: Task, p: Phase)
    requires t in phase
    ensures Work(phase[t := p]) == Work(phase) - Weight(phase[t]) + Weight(p)
  {
    hide Work;
    WorkSplit(phase, t);
    WorkSplit(phase[t := p], t);
    assert phase[t := p] - {t} == phase - {t};
  }

  /** The frames nested inside the turns. */
  function Frames(phase: map<Task, Phase>): set<(Task, nat)>
  {
    set t, i: nat | t in phase && phase[t].InTurn? && i < phase[t].depth :: (t, i)
  }

  /** All that is still to be done: grants, exits and nested exits. */
  function Load(phase: map<Task, Phase>): nat
  {
    Work(phase) + |Frames(phase)|
  }

  lemma FramesMoved(phase: map<Task, Phase>, after: map<Task, Phase>, t: Task)
    requires t in phase && after - {t} == phase - {t}
    requires phase[t].InTurn? && phase[t].depth > 0 ==>
      t in after && after[t].InTurn? && after[t].depth == phase[t].depth - 1
    requires !(phase[t].InTurn? && phase[t].depth > 0) && t in after && after[t].InTurn? ==> after[t].depth == 0
    ensures |Frames(after)| == |Frames(phase)| - if phase[t].InTurn? && phase[t].depth > 0 then 1 else 0
  {
    assert forall u :: u != t ==> (u in after <==> u in after - {t}) && (u in phase <==> u in phase - {t});
    assert forall u :: u != t && u in phase ==> u in after && after[u] == (after - {t})[u] == phase[u];
    assert forall u :: u != t && u in after ==> u in phase;
    if phase[t].InTurn? && phase[t].depth > 0 {
      assert Frames(after) == Frames(phase) - {(t, phase[t].depth - 1)};
    } else {
      assert Frames(after) == Frames(phase);
    }
  }

  /** A forward step is legal and always leaves less to be done. */
  lemma ForwardWorks(max: nat, st: State, e: Event)
    requires Inv(max, st) && Forward(e) && Enabled(max, st, e)
    ensures Legal(st, e) && Inv(max, Step(max, st, e))
    ensures Load(Step(max, st, e).phase) < Load(st.phase)
  {
    hide Work, Frames, Inv;
    StepKeepsInv(max, st, e);
    NoBypass(max, st);
    var t, after := e.task, Step(max, st, e);
    if t in after.phase {
      assert after.phase == st.phase[t := after.phase[t]];
      WorkMoved(st.phase, t, after.phase[t]);
      assert st.phase[t := after.phase[t]] - {t} == st.phase - {t};
    } else {
      assert after.phase == st.phase - {t};
      WorkSplit(st.phase, t);
    }
    FramesMoved(st.phase, after.phase, t);
  }

  lemma NoBypass(max: nat, st: State)
    requires Inv(max, st)
    ensures forall t :: t in st.phase ==> !st.phase[t].InBypass?
  {
    forall t | t in st.phase ensures !st.phase[t].InBypass? { assert TaskOk(st, t); }
  }

  /** Every task idle, every session lock free, every permit back. */
  predicate Idle(max: nat, st: State)
  {
    st.phase == map[] && st.locked == {} && (0 < max ==> st.permits == max)
  }

  lemma NothingLeftIsIdle(max: nat, st: State)
    requires Inv(max, st) && st.phase == map[]
    ensures Idle(max, st)
  {
    assert GateHolders(map[]) == {};
  }

  /** The system drains by itself, in whatever order grants and exits come: from a safe state
      no run of them is longer than what there is to do, and one that cannot be continued has
      brought every task to rest. */
  lemma {:induction false} ForwardRunsDrain(max: nat, st: State, es: seq<Event>)
    requires Inv(max, st) && Runs(max, st, es) && forall e <- es :: Forward(e)
    ensures AllLegal(max, st, es) && |es| + Load(After(max, st, es).phase) <= Load(st.phase)
    ensures (forall e :: Forward(e) ==> !Enabled(max, After(max, st, es), e)) ==> Idle(max, After(max, st, es))
    decreases es
  {
    hide Step, Load, Inv, Enabled, Legal;
    if es == [] {
      if st.phase == map[] {
        NothingLeftIsIdle(max, st);
      } else {
        var e := SomeStepForward(max, st);
      }
    } else {
      ForwardWorks(max, st, es[0]);
      ForwardRunsDrain(max, Step(max, st, es[0]), es[1..]);
    }
  }

  /** And such a run exists from every safe state. */
  lemma {:induction false} Drains(max: nat, st: State) returns (es: seq<Event>)
    requires Inv(max, st)
    ensures Runs(max, st, es) && AllLegal(max, st, es) && forall e <- es :: Forward(e)
    ensures Idle(max, After(max, st, es))
    decreases Load(st.phase)
  {
    hide Step, Enabled, Legal, Load, Inv;
    if st.phase == map[] {
      es := [];
      NothingLeftIsIdle(max, st);
    } else {
      var e := SomeStepForward(max, st);
      ForwardWorks(max, st, e);
      var rest := Drains(max, Step(max, st, e));
      es := [e] + rest;
      RunsCons(max, st, e, rest);
    }
  }
}
