/** Turn admission as a protocol: per-session lock, owner map for re-entrancy, global gate.

    An event is one stretch of code between two suspension points of the event loop, so a
    run is an arbitrary interleaving of tasks. A lock dictionary maps a session to a lock
    object; a waiter keeps the object it queued on even if the dictionary entry is dropped.

    This module is the protocol and its invariant; AdmissionSafety, AdmissionProgress,
    AdmissionLegality and OwnerEntries prove what it guarantees. */
module TurnAdmission {
  import opened PyLists

  /** A task nests only under its own session, so the session is part of its identity. */
  datatype Task = Task(id: nat, session: string)

  /** What a task that is not idle is doing. `lock` is the lock object it refers to. */
  datatype Phase =
    | WaitsForLock(lock: nat)
    | WaitsForGate(lock: nat)
    | InTurn(lock: nat, depth: nat)
    | InBypass(depth: nat)
    | ReplyWaits
    | ReplyRuns

  datatype State = State(
    locks: map<string, nat>,
    locked: set<nat>,
    nextLock: nat,
    owners: map<string, Task>,
    permits: int,
    phase: map<Task, Phase>)

  datatype Event =
    | Enter(task: Task)
    | LockGranted(task: Task)
    | GateGranted(task: Task)
    | Leave(task: Task)
    | Cancel(task: Task)
    | ReplyEnters(task: Task)
    | ReplyGranted(task: Task)
    | ReplyLeaves(task: Task)
    | Cleanup(session: string)

  /** No session is known and every permit is free; max == 0 means there is no gate. */
  function Init(max: nat): State
  {
    State(map[], {}, 0, map[], max, map[])
  }

  // ---------------------------------------------------------------- steps

  predicate Owns(st: State, t: Task)
  {
    t.session in st.owners && st.owners[t.session] == t
  }

  /** The lock object `setdefault` hands out for a session. */
  function LockOf(st: State, session: string): nat
  {
    if session in st.locks then st.locks[session] else st.nextLock
  }

  predicate LockHasWaiters(st: State, lock: nat)
  {
    exists t <- st.phase :: st.phase[t] == WaitsForLock(lock)
  }

  predicate GateHasWaiters(st: State)
  {
    exists t <- st.phase :: st.phase[t].WaitsForGate? || st.phase[t].ReplyWaits?
  }

  predicate GateIsFree(max: nat, st: State)
  {
    max == 0 || (st.permits > 0 && !GateHasWaiters(st))
  }

  function TakePermit(max: nat, st: State): State
  {
    if max == 0 then st else st.(permits := st.permits - 1)
  }

  function ReturnPermit(max: nat, st: State): State
  {
    if max == 0 then st else st.(permits := st.permits + 1)
  }

  /** The session lock is taken, the owner recorded, and the gate tried without suspending. */
  function PassLock(max: nat, st: State, t: Task, lock: nat): State
  {
    var taken := st.(locked := st.locked + {lock}, owners := st.owners[t.session := t]);
    if GateIsFree(max, st)
    then TakePermit(max, taken).(phase := st.phase[t := InTurn(lock, 0)])
    else taken.(phase := st.phase[t := WaitsForGate(lock)])
  }

  predicate Enabled(max: nat, st: State, e: Event)
  {
    match e
    case Enter(t) => t !in st.phase || ((st.phase[t].InTurn? || st.phase[t].InBypass?) && Owns(st, t))
    case LockGranted(t) => t in st.phase && st.phase[t].WaitsForLock? && st.phase[t].lock !in st.locked
    case GateGranted(t) => t in st.phase && st.phase[t].WaitsForGate? && st.permits > 0
    case Leave(t) => t in st.phase && (st.phase[t].InTurn? || st.phase[t].InBypass?)
    case Cancel(t) => t in st.phase &&
      (st.phase[t].WaitsForLock? || st.phase[t].WaitsForGate? || st.phase[t].ReplyWaits?)
    case ReplyEnters(t) => t !in st.phase
    case ReplyGranted(t) => t in st.phase && st.phase[t].ReplyWaits? && st.permits > 0
    case ReplyLeaves(t) => t in st.phase && st.phase[t].ReplyRuns?
    case Cleanup(_) => true
  }

  function Step(max: nat, st: State, e: Event): State
    requires Enabled(max, st, e)
  {
    match e
    case Enter(t) =>
      if Owns(st, t) then
        st.(phase := st.phase[t :=
          if t !in st.phase then InBypass(0)
          else if st.phase[t].InTurn? then InTurn(st.phase[t].lock, st.phase[t].depth + 1)
          else InBypass(st.phase[t].depth + 1)])
      else
        var lock := LockOf(st, t.session);
        var known := st.(locks := st.locks[t.session := lock], nextLock := Max(st.nextLock, lock + 1));
        if lock !in st.locked && !LockHasWaiters(st, lock) then PassLock(max, known, t, lock)
        else known.(phase := st.phase[t := WaitsForLock(lock)])
    case LockGranted(t) => PassLock(max, st, t, st.phase[t].lock)
    case GateGranted(t) => TakePermit(max, st).(phase := st.phase[t := InTurn(st.phase[t].lock, 0)])
    case Leave(t) =>
      if st.phase[t].InTurn? && st.phase[t].depth > 0 then
        st.(phase := st.phase[t := InTurn(st.phase[t].lock, st.phase[t].depth - 1)])
      else if st.phase[t].InTurn? then
        ReturnPermit(max, st).(
          owners := st.owners - {t.session}, locked := st.locked - {st.phase[t].lock}, phase := st.phase - {t})
      else if st.phase[t].depth > 0 then
        st.(phase := st.phase[t := InBypass(st.phase[t].depth - 1)])
      else
        st.(phase := st.phase - {t})
    case Cancel(t) =>
      // A task cancelled while it queues for the gate releases the lock but leaves its owner
      // entry behind: the entry is only removed once the turn body has been entered.
      var freed := if st.phase[t].WaitsForGate? then st.locked - {st.phase[t].lock} else st.locked;
      st.(locked := freed, phase := st.phase - {t})
    case ReplyEnters(t) =>
      if GateIsFree(max, st) then TakePermit(max, st).(phase := st.phase[t := ReplyRuns])
      else st.(phase := st.phase[t := ReplyWaits])
    case ReplyGranted(t) => TakePermit(max, st).(phase := st.phase[t := ReplyRuns])
    case ReplyLeaves(t) => ReturnPermit(max, st).(phase := st.phase - {t})
    case Cleanup(session) => st.(locks := st.locks - {session})
  }

  // ---------------------------------------------------------------- legality and runs

  predicate Quiet(st: State, session: string)
  {
    forall t <- st.phase :: t.session == session ==> st.phase[t].ReplyWaits? || st.phase[t].ReplyRuns?
  }

  /** The two steps that must not happen: an idle task entering on a leftover owner entry, and
      dropping the lock object of a session some task holds or waits for. */
  predicate Legal(st: State, e: Event)
  {
    match e
    case Enter(t) => t in st.phase || !Owns(st, t)
    case Cleanup(session) => Quiet(st, session)
    case _ => true
  }

  predicate Runs(max: nat, st: State, es: seq<Event>)
    decreases es
  {
    es == [] || (Enabled(max, st, es[0]) && Runs(max, Step(max, st, es[0]), es[1..]))
  }

  function After(max: nat, st: State, es: seq<Event>): State
    requires Runs(max, st, es)
    decreases es
  {
    if es == [] then st else After(max, Step(max, st, es[0]), es[1..])
  }

  predicate AllLegal(max: nat, st: State, es: seq<Event>)
    requires Runs(max, st, es)
    decreases es
  {
    es == [] || (Legal(st, es[0]) && AllLegal(max, Step(max, st, es[0]), es[1..]))
  }

  /** Past the session lock: inside the region in which a turn may touch its session. */
  predicate Admitted(st: State, t: Task)
  {
    t in st.phase && (st.phase[t].WaitsForGate? || st.phase[t].InTurn? || st.phase[t].InBypass?)
  }

  ghost predicate Exclusive(st: State)
  {
    forall t, u :: Admitted(st, t) && Admitted(st, u) && t.session == u.session ==> t == u
  }

  function GateHolders(phase: map<Task, Phase>): set<Task>
  {
    set t | t in phase && (phase[t].InTurn? || phase[t].ReplyRuns?)
  }

  // ---------------------------------------------------------------- the invariant

  predicate RefersToLock(p: Phase) { p.WaitsForLock? || p.WaitsForGate? || p.InTurn? }

  predicate HoldsLock(p: Phase) { p.WaitsForGate? || p.InTurn? }

  ghost predicate LockTableOk(st: State)
  {
    && (forall s <- st.locks :: st.locks[s] < st.nextLock)
    && (forall s, r :: s in st.locks && r in st.locks && st.locks[s] == st.locks[r] ==> s == r)
    && (forall l <- st.locked :: l < st.nextLock)
  }

  /** Every task works on its session's current lock object, and holders are its owners. */
  predicate TaskOk(st: State, t: Task)
    requires t in st.phase
  {
    && !st.phase[t].InBypass?
    && (RefersToLock(st.phase[t]) ==> t.session in st.locks && st.locks[t.session] == st.phase[t].lock)
    && (HoldsLock(st.phase[t]) ==> st.phase[t].lock in st.locked && Owns(st, t))
  }

  ghost predicate TasksOk(st: State)
  {
    forall t :: t in st.phase ==> TaskOk(st, t)
  }

  ghost predicate LocksOk(st: State)
  {
    forall l <- st.locked :: exists t :: t in st.phase && HoldsLock(st.phase[t]) && st.phase[t].lock == l
  }

  ghost predicate OwnersOk(st: State)
  {
    forall s <- st.owners :: st.owners[s].session == s
  }

  ghost predicate GateOk(max: nat, st: State)
  {
    && 0 <= st.permits
    && (0 < max ==> st.permits + |GateHolders(st.phase)| == max)
    && (max == 0 ==> forall t <- st.phase :: !st.phase[t].WaitsForGate? && !st.phase[t].ReplyWaits?)
  }

  ghost predicate Inv(max: nat, st: State)
  {
    LockTableOk(st) && TasksOk(st) && LocksOk(st) && OwnersOk(st) && GateOk(max, st)
  }

  lemma RunsCons(max: nat, st: State, e: Event, rest: seq<Event>)
    requires Enabled(max, st, e) && Legal(st, e)
    requires Runs(max, Step(max, st, e), rest) && AllLegal(max, Step(max, st, e), rest)
    ensures Runs(max, st, [e] + rest) && AllLegal(max, st, [e] + rest)
    ensures After(max, st, [e] + rest) == After(max, Step(max, st, e), rest)
  {
    assert ([e] + rest)[1..] == rest;
  }
}
