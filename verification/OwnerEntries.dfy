/** What the owner map of the turn admission is worth: when an owner entry means a held lock.

    Main result: over every run in which lock objects are dropped only for sessions not in use,
    each owner entry belongs to a task that holds its session's lock in every state exactly if
    no task is cancelled while it queues for the gate; then exclusion rests on nothing else. */
module OwnerEntries {
  import opened AdmissionSafety
  import opened TurnAdmission

  /** What the owner map is for: an entry's task is past its session lock and still holds it. */
  ghost predicate OwnersHeld(st: State)
  {
    forall s <- st.owners :: st.owners[s] in st.phase && HoldsLock(st.phase[st.owners[s]])
  }

  /** A task is cancelled while it queues for the gate. */
  predicate CancelsAtGate(st: State, e: Event)
  {
    e.Cancel? && e.task in st.phase && st.phase[e.task].WaitsForGate?
  }

  /** The entries stay accurate across every step but one kind, and as long as they are, no step
      other than a cleanup can be illegal. */
  lemma OwnersStayHeldIff(max: nat, st: State, e: Event)
    requires Inv(max, st) && OwnersHeld(st) && Enabled(max, st, e)
    ensures OwnersHeld(Step(max, st, e)) <==> !CancelsAtGate(st, e)
    ensures !e.Cleanup? ==> Legal(st, e)
  {
    if !e.Cleanup? {
      var t, after := e.task, Step(max, st, e);
      assert OwnersOk(st);
      hide Step, Inv, Enabled, OwnersOk;
      if CancelsAtGate(st, e) {
        EntryLeftBehind(max, st, e);
      } else {
        OthersUntouched(max, st, e);
        OwnEntry(max, st, e);
        HeldThroughout(st, after, t);
      }
    }
  }

  /** A step changes the phase and the entry of its own task only. */
  lemma OthersUntouched(max: nat, st: State, e: Event)
    requires Inv(max, st) && OwnersHeld(st) && Enabled(max, st, e) && !e.Cleanup?
    ensures var after := Step(max, st, e);
      && (forall u :: u != e.task && u in st.phase ==> u in after.phase && after.phase[u] == st.phase[u])
      && (forall s :: s in after.owners && s != e.task.session ==> s in st.owners && st.owners[s] == after.owners[s])
  {
    hide Inv, OwnersHeld;
  }

  /** The entry of the task's session, if there is one, names a holder. */
  ghost predicate OwnEntryHeld(st: State, t: Task)
  {
    t.session in st.owners ==>
      st.owners[t.session] in st.phase && HoldsLock(st.phase[st.owners[t.session]])
  }

  lemma OwnEntry(max: nat, st: State, e: Event)
    requires Inv(max, st) && OwnersHeld(st) && Enabled(max, st, e) && !e.Cleanup? && !CancelsAtGate(st, e)
    ensures OwnEntryHeld(Step(max, st, e), e.task)
  {
    assert OwnEntryHeld(st, e.task);
    if e.task in st.phase { assert TaskOk(st, e.task); }
    hide Inv, OwnersHeld;
    if e.Enter? {
      EntryAfterEnter(max, st, e.task);
    } else {
      EntryAfterOther(max, st, e);
    }
  }

  lemma EntryAfterEnter(max: nat, st: State, t: Task)
    requires Enabled(max, st, Enter(t)) && OwnEntryHeld(st, t) && (t in st.phase ==> TaskOk(st, t))
    ensures OwnEntryHeld(Step(max, st, Enter(t)), t)
  {
  }

  lemma EntryAfterOther(max: nat, st: State, e: Event)
    requires Enabled(max, st, e) && !e.Enter? && !e.Cleanup? && !CancelsAtGate(st, e)
    requires OwnEntryHeld(st, e.task) && (e.task in st.phase ==> TaskOk(st, e.task))
    ensures OwnEntryHeld(Step(max, st, e), e.task)
  {
  }

  /** A cancellation at the gate leaves the entry of a task that is gone. */
  lemma EntryLeftBehind(max: nat, st: State, e: Event)
    requires Inv(max, st) && Enabled(max, st, e) && CancelsAtGate(st, e)
    ensures var t, after := e.task, Step(max, st, e);
      t.session in after.owners && after.owners[t.session] == t && t !in after.phase
  {
    assert TaskOk(st, e.task);
  }

  lemma HeldThroughout(st: State, after: State, t: Task)
    requires OwnersHeld(st) && OwnersOk(st)
    requires forall u :: u != t && u in st.phase ==> u in after.phase && after.phase[u] == st.phase[u]
    requires forall s :: s in after.owners && s != t.session ==> s in st.owners && st.owners[s] == after.owners[s]
    requires OwnEntryHeld(after, t)
    ensures OwnersHeld(after)
  {
    forall s | s in after.owners ensures after.owners[s] in after.phase && HoldsLock(after.phase[after.owners[s]]) {
      if s != t.session { assert st.owners[s] != t; }
    }
  }

  /** No task is cancelled at the gate. */
  predicate NoGateCancels(max: nat, st: State, es: seq<Event>)
    requires Runs(max, st, es)
    decreases es
  {
    es == [] || (!CancelsAtGate(st, es[0]) && NoGateCancels(max, Step(max, st, es[0]), es[1..]))
  }

  /** Lock objects are dropped only for sessions nobody holds or waits for. */
  predicate QuietCleanups(max: nat, st: State, es: seq<Event>)
    requires Runs(max, st, es)
    decreases es
  {
    es == [] || ((es[0].Cleanup? ==> Quiet(st, es[0].session)) && QuietCleanups(max, Step(max, st, es[0]), es[1..]))
  }

  /** The entries are accurate in every state of the run. */
  ghost predicate AlwaysHeld(max: nat, st: State, es: seq<Event>)
    requires Runs(max, st, es)
    decreases es
  {
    OwnersHeld(st) && (es == [] || AlwaysHeld(max, Step(max, st, es[0]), es[1..]))
  }

  /** Over whole runs, and in terms of what the surroundings do: with quiet cleanups, every owner
      entry belongs to a holder in every state exactly if no task is cancelled at the gate, and
      then every step is legal, so a session has one task past its lock throughout. */
  lemma {:induction false} AlwaysHeldIff(max: nat, st: State, es: seq<Event>)
    requires Inv(max, st) && OwnersHeld(st) && Runs(max, st, es) && QuietCleanups(max, st, es)
    ensures AlwaysHeld(max, st, es) <==> NoGateCancels(max, st, es)
    ensures NoGateCancels(max, st, es) ==>
      AllLegal(max, st, es) && OwnersHeld(After(max, st, es)) && Exclusive(After(max, st, es))
    decreases es
  {
    hide Step, OwnersHeld, CancelsAtGate, Inv, Exclusive, Quiet, Enabled;
    if es == [] {
      InvIsExclusive(max, st);
    } else {
      var next := Step(max, st, es[0]);
      OwnersStayHeldIff(max, st, es[0]);
      StepKeepsInv(max, st, es[0]);
      if OwnersHeld(next) {
        AlwaysHeldIff(max, next, es[1..]);
      } else {
        NotAlwaysHeld(max, next, es[1..]);
      }
    }
  }

  lemma NotAlwaysHeld(max: nat, st: State, es: seq<Event>)
    requires Runs(max, st, es) && !OwnersHeld(st)
    ensures !AlwaysHeld(max, st, es)
  {
  }

  /** In particular from the start. */
  lemma FromTheStart(max: nat, es: seq<Event>)
    requires Runs(max, Init(max), es) && QuietCleanups(max, Init(max), es)
    ensures AlwaysHeld(max, Init(max), es) <==> NoGateCancels(max, Init(max), es)
    ensures NoGateCancels(max, Init(max), es) ==>
      AllLegal(max, Init(max), es) && Exclusive(After(max, Init(max), es))
  {
    InitIsSafe(max);
    AlwaysHeldIff(max, Init(max), es);
  }
}
