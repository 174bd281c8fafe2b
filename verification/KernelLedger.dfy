/** Books kept on the calls of a run: what a semaphore's value, a task's wakeups and a sleeper's wait
    amount to, counted on the list of calls alone. */
module KernelLedger {
  import opened Params
  import opened KernelSpec
  import opened KernelInv
  import opened KernelSteps
  import opened KernelEffects
  import opened KernelRuns

  // ----- what the calls that destroy semaphores or end a task have in common

  /** A slot keeps its id, value and history; it may be freed and lose its owner and its first waiter. */
  ghost predicate SlotKept(x: Sem, y: Sem) {
    && y == x.(free := y.free, creator := y.creator, queue := y.queue, served := y.served)
    && (x.free ==> y.free) && (y.creator == x.creator || y.creator == -1)
    && (y.queue == x.queue || (x.queue != [] && y.queue == x.queue[1..]))
  }

  /** The task was woken by what it waited for: the first of a queue that was shortened, or a waiter of the
      task that ended. */
  ghost predicate Released(s: KState, t: Tid, s': KState) {
    && s'.task[t].why == NotBlocked && Awake(s', t)
    && match s.task[t].why
       case NotBlocked => false
       case OnBlock => false
       case OnTask(b) => b == s.current && s'.task[b].pid == -1
       case OnSem(k) =>
         s.sems[k].queue != [] && s.sems[k].queue[0] == t && s'.sems[k].queue == s.sems[k].queue[1..] &&
         s'.sems[k].creator == -1
  }

  /** The task is inside the drain loop on slot `k`. */
  predicate DrainsAt(s: KState, t: Tid, k: Sid) {
    s.task[t].cont != User && s.task[t].cont.k == k
  }

  /** In user code, or in the drain loop on slot `k` already. */
  predicate MayTurnTo(s: KState, k: Sid) {
    s.task[s.current].cont == User || s.task[s.current].cont.k == k
  }

  /** A semaphore the caller was draining, or took from its owner, is free or still drained by the caller. */
  ghost predicate DrainKept(s: KState, s': KState, k: Sid) {
    !s'.sems[k].free && s'.sems[k].creator == -1 && (s.sems[k].creator != -1 || DrainsAt(s, s.current, k)) ==>
      DrainsAt(s', s.current, k)
  }

  ghost predicate Cleared(s: KState, s': KState) {
    && s'.semId == s.semId && s'.pidGlobal == s.pidGlobal
    && (forall k: Sid :: SlotKept(s.sems[k], s'.sems[k]) && DrainKept(s, s', k))
    && (forall t: Tid :: t != s.current ==>
          s'.task[t].pid == s.task[t].pid && s'.task[t].cont == s.task[t].cont)
    && (s'.task[s.current].pid == s.task[s.current].pid || s'.task[s.current].pid == -1)
    && (forall t: Tid ::
          s'.task[t].pending == s.task[t].pending && s'.task[t].delivered == s.task[t].delivered &&
          s'.task[t].completed == s.task[t].completed)
    && (forall t: Tid :: s'.task[t].why == s.task[t].why || Released(s, t, s'))
    && (s'.task[s.current].pid == -1 ==> forall t: Tid :: s.task[t].why == OnTask(s.current) ==> Released(s, t, s'))
  }

  lemma WokeTasks(s: KState, t: Tid, s': KState)
    requires Woke(s, t, s')
    ensures forall u: Tid ::
              s'.task[u] == s.task[u].(state := s'.task[u].state, why := if u == t then NotBlocked else s.task[u].why)
  {
    forall u: Tid
      ensures s'.task[u] == s.task[u].(state := s'.task[u].state, why := if u == t then NotBlocked else s.task[u].why)
    {
      assert u != t ==> Unmoved(s, s', u);
    }
  }

  /** What the lemmas below need of a state in the middle of a call. */
  ghost predicate Calling(s: KState) {
    Waits(s) && Alive(s, s.current) && s.task[s.current].why == NotBlocked
  }

  lemma InvCalling(s: KState)
    requires Inv(s)
    ensures Calling(s)
  {
    RunsAwake(s);
  }

  lemma FirstInQueue(s: KState, k: Sid)
    requires Waits(s) && s.sems[k].queue != []
    ensures s.task[s.sems[k].queue[0]].why == OnSem(k)
  {
    assert s.sems[k].queue[0] in s.sems[k].queue;
  }

  lemma DrainCleared(s: KState, k: Sid, c: Cont, s': KState)
    requires Calling(s) && DrainDoes(s, k, c, s') && MayTurnTo(s, k) && c != User && c.k == k
    ensures Cleared(s, s') && s'.task[s.current].pid == s.task[s.current].pid && s'.task[s.current].cont == c
  {
    FirstInQueue(s, k);
    hide Waits, Awake;
    WokeTasks(SetTask(s, s.current, s.task[s.current].(cont := c)), s.sems[k].queue[0], s');
  }

  lemma EndCleared(s: KState, s': KState)
    requires Calling(s) && EndDoes(s, s') && s.task[s.current].cont == User
    ensures Cleared(s, s') && s'.task[s.current].pid == -1 && s'.task[s.current].cont == s.task[s.current].cont
  {
    hide Waits, Awake;
  }

  lemma RetireCleared(s: KState, k: Sid, s': KState)
    requires Calling(s) && RetireDoes(s, k, s') && MayTurnTo(s, k)
    ensures Cleared(s, s') && s'.task[s.current] == s.task[s.current].(cont := User)
    ensures Calling(s') && s'.current == s.current
  {
  }

  lemma SweepCalling(s: KState, i: nat, j: nat, m: KState)
    requires Calling(s) && Swept(s, i, j, m)
    ensures Calling(m) && m.current == s.current && m.task == s.task
  {
  }

  /** A sweep, or a freed slot, before the rest of the call. */
  lemma SweepCleared(s: KState, i: nat, j: nat, m: KState, s': KState)
    requires Swept(s, i, j, m) && Cleared(m, s')
    ensures Cleared(s, s')
  {
    forall k: Sid ensures SlotKept(s.sems[k], s'.sems[k]) && DrainKept(s, s', k) {
      assert SlotKept(m.sems[k], s'.sems[k]) && DrainKept(m, s', k);
    }
    assert forall t: Tid :: s'.task[t].why == m.task[t].why || Released(m, t, s');
    assert forall t: Tid :: Released(m, t, s') ==> Released(s, t, s');
  }

  lemma RetireThen(s: KState, k: Sid, m: KState, s': KState)
    requires RetireDoes(s, k, m) && s.sems[k].queue == [] && Cleared(m, s') && s.task[s.current].pid >= 0
    requires MayTurnTo(s, k)
    ensures Cleared(s, s')
  {
    forall j: Sid ensures SlotKept(s.sems[j], s'.sems[j]) && DrainKept(s, s', j) {
      assert SlotKept(m.sems[j], s'.sems[j]) && DrainKept(m, s', j);
    }
    hide SlotKept, DrainKept, Awake;
    forall t: Tid | Released(m, t, s') ensures Released(s, t, s') {
      RetiredReleased(s, k, m, t, s');
    }
    assert forall t: Tid :: s'.task[t].why == m.task[t].why || Released(m, t, s');
    hide Released;
  }

  lemma RetiredReleased(s: KState, k: Sid, m: KState, t: Tid, s': KState)
    requires RetireDoes(s, k, m) && Released(m, t, s')
    ensures Released(s, t, s')
  {
    hide Awake;
  }

  /** exit from slot `i` on: where it stopped, and what it has cleared until there. */
  lemma ExitCleared(s: KState, i: nat, s': KState) returns (j: nat)
    requires Calling(s) && ExitDoes(s, i, s') && s.task[s.current].cont == User
    ensures Cleared(s, s') && i <= j <= NUM_SEMS && (j == NUM_SEMS <==> s'.task[s.current].pid == -1)
    ensures j < NUM_SEMS ==> s'.task[s.current].cont == Exiting(j) && Owns(s, j) && s.sems[j].queue != []
    ensures j == NUM_SEMS ==> s'.task[s.current].cont == s.task[s.current].cont
    ensures forall k: Sid :: i <= k < j && Owns(s, k) ==> s'.sems[k].free
  {
    hide Calling, Cleared, Swept, Owns, EndDoes, DrainDoes;
    var m: KState;
    j, m :| i <= j <= NUM_SEMS && Swept(s, i, j, m) &&
      if j < NUM_SEMS then Owns(m, j) && DrainDoes(m, j, Exiting(j), s') else EndDoes(m, s');
    SweepCalling(s, i, j, m);
    CallingAlive(m);
    if j < NUM_SEMS {
      DrainCleared(m, j, Exiting(j), s');
      DrainedQueue(m, j, Exiting(j), s');
    } else {
      EndCleared(m, s');
    }
    SweepCleared(s, i, j, m, s');
    SweptFree(s, i, j, m, s');
  }

  lemma CallingAlive(s: KState)
    requires Calling(s)
    ensures s.task[s.current].pid >= 0
  {
  }

  lemma DrainedQueue(s: KState, k: Sid, c: Cont, s': KState)
    requires DrainDoes(s, k, c, s')
    ensures s.sems[k].queue != []
  {
  }

  lemma SweptFree(s: KState, i: nat, j: nat, m: KState, s': KState)
    requires Swept(s, i, j, m) && Cleared(m, s')
    ensures forall k: Sid :: i <= k < j && Owns(s, k) ==> s'.sems[k].free
    ensures forall k: Sid :: j <= k ==> (Owns(m, k) <==> Owns(s, k)) && m.sems[k] == s.sems[k]
  {
    forall k: Sid | i <= k < j && Owns(s, k) ensures s'.sems[k].free {
      assert m.sems[k].free && SlotKept(m.sems[k], s'.sems[k]);
    }
  }

  lemma DestroyCleared(s: KState, k: Sid, s': KState)
    requires Calling(s) && DestroyFrom(s, k, s') && MayTurnTo(s, k)
    ensures Cleared(s, s') && s'.task[s.current].pid == s.task[s.current].pid
    ensures s'.task[s.current].cont == if s.sems[k].queue == [] then User else Destroying(k)
  {
    hide Calling, Cleared, RetireDoes, DrainDoes;
    if s.sems[k].queue == [] {
      RetireCleared(s, k, s');
    } else {
      DrainCleared(s, k, Destroying(k), s');
    }
  }

  predicate Destroys(c: Call) {
    c.CSemDestroy? || c == CExit || c == CResume
  }

  lemma SelfCleared(s: KState)
    requires Calling(s)
    ensures Cleared(s, s)
  {
  }

  lemma StepCleared(s: KState, c: Call, s': KState)
    requires Calling(s) && Effect(s, c, s') && Destroys(c) && Enabled(s, c)
    ensures Cleared(s, s')
  {
    hide Calling, Cleared, RetireDoes, DrainDoes, DestroyFrom, ExitDoes, Names, Owns;
    SelfCleared(s);
    CallingAlive(s);
    match c
    case CSemDestroy(id) =>
      if k: Sid :| Names(s, id, k) && Owns(s, k) {
        DestroyCleared(s, k, s');
      }
    case CExit =>
      var _ := ExitCleared(s, 0, s');
    case CResume =>
      ResumeCleared(s, s');
    case _ =>
  }

  lemma ResumeCleared(s: KState, s': KState)
    requires Calling(s) && ResumeDoes(s, s')
    ensures Cleared(s, s')
  {
    hide Calling, Cleared, RetireDoes, DrainDoes, DestroyFrom, ExitDoes;
    SelfCleared(s);
    CallingAlive(s);
    match s.task[s.current].cont
    case User =>
    case Destroying(k) => DestroyCleared(s, k, s');
    case Exiting(k) =>
      if s.sems[k].queue != [] {
        DrainCleared(s, k, Exiting(k), s');
      } else {
        var m :| RetireDoes(s, k, m) && ExitDoes(m, k + 1, s');
        RetireCleared(s, k, m);
        var _ := ExitCleared(m, k + 1, s');
        RetireThen(s, k, m, s');
      }
  }

  // ----- one call and one task

  /** The call is an unblock by the task's parent that names it. */
  predicate Named(s: KState, c: Call, t: Tid) {
    c == CUnblock(s.task[t].pid) && s.task[t].pare == s.current
  }

  function One(b: bool): int { if b then 1 else 0 }

  /** The wakeups of a task that are still to come: those pending, less the one it sleeps for. */
  function Balance(s: KState, t: Tid): int {
    s.task[t].pending - One(s.task[t].why == OnBlock)
  }

  /** The event the task sleeps for: an unblock that names it, the end of the thread it waits for, or its
      turn at the head of the semaphore's queue when a signal or the destroying call takes one off. */
  ghost predicate Due(s: KState, c: Call, s': KState, t: Tid) {
    match s.task[t].why
    case NotBlocked => false
    case OnBlock => Named(s, c, t)
    case OnTask(b) => b == s.current && s'.task[b].pid == -1
    case OnSem(k) =>
      && s.sems[k].queue != [] && s.sems[k].queue[0] == t && s'.sems[k].queue == s.sems[k].queue[1..]
      && (c == CSemSignal(s.sems[k].id) || Destroys(c))
  }

  /** A blocked task goes on sleeping for the same reason until its event comes, and then it is awake. */
  ghost predicate SleepsOn(s: KState, c: Call, s': KState, t: Tid) {
    s.task[t].why != NotBlocked ==>
      if Due(s, c, s', t) then s'.task[t].why == NotBlocked && Awake(s', t) else s'.task[t].why == s.task[t].why
  }

  /** What a call enters for one task. */
  ghost predicate Entered(s: KState, c: Call, s': KState, t: Tid) {
    && Balance(s', t) == Balance(s, t) + One(Named(s, c, t)) - One(c == CBlock && s.current == t)
    && SleepsOn(s, c, s', t)
  }

  /** Nothing entered: the task is as it was but for the processor, and the call not about it. */
  lemma NothingEntered(s: KState, c: Call, s': KState, t: Tid)
    requires s'.task[t].why == s.task[t].why && s'.task[t].pending == s.task[t].pending
    requires !Named(s, c, t) && !(c == CBlock && s.current == t) && !Due(s, c, s', t)
    ensures Entered(s, c, s', t)
  {
  }

  lemma ParentNames(s: KState, t: Tid)
    requires Inv(s) && Alive(s, t)
    ensures forall pid :: IsChild(s, t, pid) <==> Named(s, CUnblock(pid), t)
  {
    hide Queues, Pids, Waits, Sems, Conts, Wakeups, Quanta;
    if Orphanable(t) {
      assert HasParent(s, t);
    }
  }

  lemma EnteredBlock(s: KState, s': KState, t: Tid)
    requires Calling(s) && BlockDoes(s, s')
    ensures Entered(s, CBlock, s', t) && s'.task[t].pid == s.task[t].pid
  {
    hide Waits, Asleep, Awake;
    assert t != s.current ==> Unmoved(s, s', t);
    if t == s.current && s.task[t].pending <= 0 {
      assert s'.task[t].why == OnBlock;
    }
  }

  lemma EnteredUnblock(s: KState, pid: int, s': KState, t: Tid)
    requires Inv(s) && UnblockDoes(s, pid, s') && Alive(s, t) && !WaitsElsewhere(s, pid)
    ensures Entered(s, CUnblock(pid), s', t) && s'.task[t].pid == s.task[t].pid
  {
    hide Inv, Awake, IsChild, WaitsElsewhere;
    ParentNames(s, t);
    BlockedWhy(s, t);
    RunsAwake(s);
    BlockedHere(s, pid, t);
    var p, p' := s.task[t], s'.task[t];
    if IsChild(s, t, pid) {
      ChildEntered(s, pid, s', t);
    } else {
      assert Unmoved(s, s', t);
      NothingEntered(s, CUnblock(pid), s', t);
    }
  }

  lemma BlockedHere(s: KState, pid: int, t: Tid)
    requires !WaitsElsewhere(s, pid)
    ensures IsChild(s, t, pid) && s.task[t].state == Blocked ==> s.task[t].why == OnBlock
  {
  }

  lemma ChildEntered(s: KState, pid: int, s': KState, t: Tid)
    requires UnblockDoes(s, pid, s') && IsChild(s, t, pid) && Named(s, CUnblock(pid), t)
    requires s.task[t].state == Blocked <==> s.task[t].why == OnBlock
    requires s.task[t].why == NotBlocked || s.task[t].why == OnBlock
    ensures Entered(s, CUnblock(pid), s', t) && s'.task[t].pid == s.task[t].pid
  {
    hide IsChild, Awake;
  }

  lemma BlockedWhy(s: KState, t: Tid)
    requires Inv(s)
    ensures s.task[t].state == Blocked <==> s.task[t].why != NotBlocked
  {
    hide Queues, Pids, Tree, Sems, Conts, Wakeups, Quanta;
  }

  lemma EnteredWait(s: KState, pid: int, s': KState, t: Tid)
    requires Calling(s) && WaitDoes(s, pid, s')
    ensures Entered(s, CWait(pid), s', t) && s'.task[t].pid == s.task[t].pid
  {
    hide Waits, Asleep, Awake;
    if bt: Tid :| s.task[bt].pid == pid {
      assert WaitOn(s, bt, s');
    }
  }

  lemma EnteredSemWait(s: KState, id: int, s': KState, t: Tid)
    requires Calling(s) && SemWaitDoes(s, id, s')
    ensures Entered(s, CSemWait(id), s', t) && s'.task[t].pid == s.task[t].pid
  {
    hide Waits, Asleep, Awake, Names;
    if k: Sid :| Names(s, id, k) {
      assert WaitAt(s, k, s');
      assert t != s.current && s.sems[k].value <= 0 ==> Unmoved(s, s', t);
    }
  }

  lemma EnteredSignal(s: KState, id: int, s': KState, t: Tid)
    requires Calling(s) && SignalDoes(s, id, s')
    ensures Entered(s, CSemSignal(id), s', t) && s'.task[t].pid == s.task[t].pid
  {
    hide Asleep, Awake;
    if k: Sid :| Names(s, id, k) {
      assert SignalAt(s, k, s');
      if s.sems[k].value < 0 {
        SignalTurn(s, k, s', t);
      } else {
        hide Waits;
        NotShorter(s, s', t);
      }
    } else {
      hide Waits;
      NotShorter(s, s', t);
    }
  }

  /** A queue that did not change was not shortened. */
  lemma NotShorter(s: KState, s': KState, t: Tid)
    requires forall k: Sid :: s'.sems[k].queue == s.sems[k].queue
    ensures s.task[t].why.OnSem? ==>
              var q := s.sems[s.task[t].why.k].queue; q != [] ==> s'.sems[s.task[t].why.k].queue != q[1..]
  {
  }

  lemma SignalTurn(s: KState, k: Sid, s': KState, t: Tid)
    requires Calling(s) && SignalAt(s, k, s') && s.sems[k].value < 0
    ensures Entered(s, CSemSignal(s.sems[k].id), s', t) && s'.task[t].pid == s.task[t].pid
  {
    FirstInQueue(s, k);
    WokeTasks(s, s.sems[k].queue[0], s');
    hide Waits, Awake;
    if t != s.sems[k].queue[0] {
      if s.task[t].why.OnSem? {
        var j := s.task[t].why.k;
        assert j != k ==> s'.sems[j] == s.sems[j];
      }
    }
  }

  lemma EnteredPlain(s: KState, c: Call, s': KState, t: Tid)
    requires Inv(s) && Enabled(s, c) && Guard(s, c) && Effect(s, c, s') && !Destroys(c) && Alive(s, t)
    ensures Entered(s, c, s', t) && s'.task[t].pid == s.task[t].pid
  {
    InvCalling(s);
    FirstIsDead(s);
    CallingAlive(s);
    hide Inv, Calling, BlockDoes, UnblockDoes, WaitDoes, CreateDoes, SemWaitDoes, SignalDoes, TickDoes, WaitsElsewhere,
         Entered;
    match c
    case CBlock => EnteredBlock(s, s', t);
    case CUnblock(pid) => EnteredUnblock(s, pid, s', t);
    case CWait(pid) => EnteredWait(s, pid, s', t);
    case CSemWait(id) => EnteredSemWait(s, id, s', t);
    case CSemSignal(id) => EnteredSignal(s, id, s', t);
    case _ => EnteredQuiet(s, c, s', t);
  }

  lemma FirstIsDead(s: KState)
    requires Inv(s)
    ensures s.freeq != [] ==> s.task[s.freeq[0]].pid == -1 && s.freeq[0] != s.current
  {
    hide Tree, Waits, Sems, Conts, Wakeups, Quanta;
    if s.freeq != [] {
      FreeFirst(s);
    }
  }

  lemma EnteredQuiet(s: KState, c: Call, s': KState, t: Tid)
    requires Effect(s, c, s') && (c == CTick || c.CFork? || c.CThread? || c.CSemCreate?) && Alive(s, t)
    requires s.freeq != [] ==> s.task[s.freeq[0]].pid == -1
    requires Alive(s, s.current)
    ensures Entered(s, c, s', t) && s'.task[t].pid == s.task[t].pid
  {
    assert c == CTick ==> Unmoved(s, s', t) && Unmoved(s, s', s.current);
    if c.CSemCreate? {
      CreateQueues(s, c.v, s');
    }
  }

  lemma CreateQueues(s: KState, v: int, s': KState)
    requires CreateDoes(s, v, s')
    ensures s'.task == s.task && s'.pidGlobal == s.pidGlobal
  {
    var i := FindFree(s.sems);
    hide FindFree;
    if i < NUM_SEMS {
      var k: Sid := i;
      assert s.sems[k].free;
    }
  }

  /** A task that still waits on a semaphore has not been taken off its queue. */
  lemma StillQueued(s: KState, s': KState, t: Tid, k: Sid)
    requires Waits(s) && Waits(s') && s'.task[t].why == OnSem(k)
    ensures s.sems[k].queue != [] && s.sems[k].queue[0] == t ==> s'.sems[k].queue != s.sems[k].queue[1..]
  {
    var q := s.sems[k].queue;
    assert t in s'.sems[k].queue;
    assert Nodup(q);
  }

  lemma EnteredDestroy(s: KState, c: Call, s': KState, t: Tid)
    requires Calling(s) && Waits(s') && Cleared(s, s') && Destroys(c)
    ensures Entered(s, c, s', t)
  {
    if s'.task[t].why.OnSem? {
      StillQueued(s, s', t, s'.task[t].why.k);
    }
    hide Waits, Awake;
    assert s'.task[t].why == s.task[t].why || Released(s, t, s');
  }

  /** Every call enters for every live task what it owes, and moves pids as its kind says. */
  lemma StepEntered(s: KState, c: Call, t: Tid)
    requires Inv(s) && Enabled(s, c) && Guard(s, c) && Alive(s, t)
    ensures Step(s, c) != Fault && Entered(s, c, Step(s, c).s, t)
  {
    StepEffect(s, c);
    StepIff(s, c);
    var s' := Step(s, c).s;
    hide Effect, Step, Guard, Entered, Enabled;
    if Destroys(c) {
      InvCalling(s);
      InvWaits(s');
      hide Inv, Calling, Waits;
      StepCleared(s, c, s');
      EnteredDestroy(s, c, s', t);
    } else {
      EnteredPlain(s, c, s', t);
    }
  }

  lemma InvWaits(s: KState)
    requires Inv(s)
    ensures Waits(s)
  {
  }

  // ----- pids

  /** A spawning call gives the first free PCB a new pid; an exit may take the current task's; no other
      pid changes. */
  ghost predicate PidsMoved(s: KState, c: Call, s': KState) {
    if Spawns(s, c) then
      && s'.pidGlobal == s.pidGlobal + 1
      && forall t: Tid :: s'.task[t].pid == if t == s.freeq[0] then s.pidGlobal else s.task[t].pid
    else
      && s'.pidGlobal == s.pidGlobal && (forall t: Tid :: t != s.current ==> s'.task[t].pid == s.task[t].pid)
      && (s'.task[s.current].pid == s.task[s.current].pid
          || (s'.task[s.current].pid == -1 && (c == CExit || c == CResume)))
  }

  lemma PlainPids(s: KState, c: Call, s': KState)
    requires Effect(s, c, s') && !Destroys(c)
    ensures PidsMoved(s, c, s')
  {
    hide Asleep, Awake, IsChild, Names, SignalAt, WaitAt;
    match c
    case CTick => assert forall t: Tid :: Unmoved(s, s', t) ==> s'.task[t].pid == s.task[t].pid;
    case CBlock => assert forall t: Tid :: Unmoved(s, s', t) ==> s'.task[t].pid == s.task[t].pid;
    case CUnblock(pid) => assert forall t: Tid :: Unmoved(s, s', t) ==> s'.task[t].pid == s.task[t].pid;
    case CWait(pid) => WaitPids(s, pid, s');
    case CSemCreate(v) => CreateQueues(s, v, s');
    case CSemWait(id) => SemWaitPids(s, id, s');
    case CSemSignal(id) => SignalPids(s, id, s');
    case _ =>
  }

  lemma WaitPids(s: KState, pid: int, s': KState)
    requires WaitDoes(s, pid, s')
    ensures SamePid(s, s') && s'.pidGlobal == s.pidGlobal
  {
    if bt: Tid :| s.task[bt].pid == pid {
      assert WaitOn(s, bt, s');
    }
  }

  lemma SemWaitPids(s: KState, id: int, s': KState)
    requires SemWaitDoes(s, id, s')
    ensures SamePid(s, s') && s'.pidGlobal == s.pidGlobal
  {
    if k: Sid :| Names(s, id, k) {
      assert WaitAt(s, k, s');
      assert forall t: Tid :: Unmoved(s, s', t) ==> s'.task[t].pid == s.task[t].pid;
    }
  }

  lemma SignalPids(s: KState, id: int, s': KState)
    requires SignalDoes(s, id, s')
    ensures SamePid(s, s') && s'.pidGlobal == s.pidGlobal
  {
    if k: Sid :| Names(s, id, k) {
      assert SignalAt(s, k, s');
      if s.sems[k].value < 0 {
        WokeTasks(s, s.sems[k].queue[0], s');
      }
    }
  }

  lemma DestroyPids(s: KState, c: Call, s': KState)
    requires Calling(s) && Effect(s, c, s') && Destroys(c) && Enabled(s, c)
    ensures Cleared(s, s') && (c.CSemDestroy? ==> s'.task[s.current].pid == s.task[s.current].pid)
  {
    hide Calling, Cleared, DestroyFrom, Names, Owns, ExitDoes, ResumeDoes;
    StepCleared(s, c, s');
    if c.CSemDestroy? {
      if k: Sid :| Names(s, c.id, k) && Owns(s, k) {
        DestroyCleared(s, k, s');
      }
    }
  }

  lemma PidsAfter(s: KState, c: Call)
    requires Inv(s) && Enabled(s, c) && Guard(s, c)
    ensures Step(s, c) != Fault && PidsMoved(s, c, Step(s, c).s)
  {
    hide Effect, Step, Guard, Inv, Calling, Cleared, PidsMoved, Enabled;
    StepEffect(s, c);
    InvCalling(s);
    var s' := Step(s, c).s;
    if Destroys(c) {
      DestroyPids(s, c, s');
      ClearedPids(s, c, s');
    } else {
      PlainPids(s, c, s');
    }
  }

  lemma ClearedPids(s: KState, c: Call, s': KState)
    requires Cleared(s, s') && Destroys(c) && (c.CSemDestroy? ==> s'.task[s.current].pid == s.task[s.current].pid)
    ensures PidsMoved(s, c, s')
  {
    hide Released;
  }

  // ----- one call and one semaphore

  /** A queue that stayed, lost its first task, or gained one at its end. */
  ghost predicate Queued(q: seq<Tid>, q': seq<Tid>) {
    q' == q || (q != [] && q' == q[1..]) || (q' != [] && q' == q + [q'[|q'| - 1]])
  }

  /** What a call books on the semaphore in slot `k`: a wait takes one off its value, a signal adds one,
      and a slot comes into use only by a creation, under the next id and with the value asked for. */
  ghost predicate Booked(s: KState, c: Call, s': KState, k: Sid) {
    var x, y := s.sems[k], s'.sems[k];
    && s.semId <= s'.semId
    && (!y.free ==>
          if x.free then c == CSemCreate(y.value) && y.id == s.semId < s'.semId
          else
            && y.id == x.id && Queued(x.queue, y.queue)
            && y.value == x.value + One(c == CSemSignal(x.id)) - One(c == CSemWait(x.id)))
  }

  lemma BookedSame(s: KState, c: Call, s': KState, k: Sid)
    requires s'.sems[k] == s.sems[k] && s'.semId >= s.semId
    requires s.sems[k].free || (c != CSemSignal(s.sems[k].id) && c != CSemWait(s.sems[k].id))
    ensures Booked(s, c, s', k)
  {
  }

  lemma NamesIt(s: KState, k: Sid)
    requires Inv(s)
    ensures !s.sems[k].free ==> Names(s, s.sems[k].id, k)
    ensures forall id, j: Sid :: Names(s, id, j) && !s.sems[k].free && s.sems[k].id == id ==> k == j
  {
    hide Queues, Pids, Tree, Waits, Conts, Wakeups, Quanta, Healthy;
  }

  lemma BookedWait(s: KState, id: int, s': KState, k: Sid)
    requires Inv(s) && SemWaitDoes(s, id, s')
    ensures Booked(s, CSemWait(id), s', k)
  {
    hide Inv, Names, WaitAt, Booked;
    NamesIt(s, k);
    if j: Sid :| Names(s, id, j) {
      assert WaitAt(s, j, s');
      BookedWaitAt(s, id, j, s', k);
    } else {
      BookedSame(s, CSemWait(id), s', k);
    }
  }

  lemma BookedWaitAt(s: KState, id: int, j: Sid, s': KState, k: Sid)
    requires WaitAt(s, j, s') && Names(s, id, j) && (!s.sems[k].free && s.sems[k].id == id ==> k == j)
    requires !s.sems[k].free ==> Names(s, s.sems[k].id, k)
    ensures Booked(s, CSemWait(id), s', k)
  {
    hide Asleep;
    if j != k {
      assert s'.sems[k] == s.sems[k];
    }
  }

  lemma BookedSignal(s: KState, id: int, s': KState, k: Sid)
    requires Inv(s) && SignalDoes(s, id, s')
    ensures Booked(s, CSemSignal(id), s', k)
  {
    hide Inv, Names, SignalAt, Booked;
    NamesIt(s, k);
    if j: Sid :| Names(s, id, j) {
      assert SignalAt(s, j, s');
      BookedSignalAt(s, id, j, s', k);
    } else {
      BookedSame(s, CSemSignal(id), s', k);
    }
  }

  lemma BookedSignalAt(s: KState, id: int, j: Sid, s': KState, k: Sid)
    requires SignalAt(s, j, s') && Names(s, id, j) && (!s.sems[k].free && s.sems[k].id == id ==> k == j)
    requires !s.sems[k].free ==> Names(s, s.sems[k].id, k)
    ensures Booked(s, CSemSignal(id), s', k)
  {
    hide Awake;
    if j != k {
      assert s'.sems[k] == s.sems[k];
    }
  }

  lemma BookedCreate(s: KState, v: int, s': KState, k: Sid)
    requires CreateDoes(s, v, s')
    ensures Booked(s, CSemCreate(v), s', k)
  {
    var i := FindFree(s.sems);
    hide FindFree;
    if i < NUM_SEMS {
      var j: Sid := i;
      assert s.sems[j].free;
    }
  }

  lemma BookedPlain(s: KState, c: Call, s': KState, k: Sid)
    requires Inv(s) && Effect(s, c, s') && !Destroys(c)
    ensures Booked(s, c, s', k)
  {
    hide Inv, Booked, CreateDoes, SemWaitDoes, SignalDoes, Asleep, Awake, IsChild;
    match c
    case CSemCreate(v) => BookedCreate(s, v, s', k);
    case CSemWait(id) => BookedWait(s, id, s', k);
    case CSemSignal(id) => BookedSignal(s, id, s', k);
    case CWait(pid) =>
      WaitSems(s, pid, s');
      BookedSame(s, c, s', k);
    case _ => BookedSame(s, c, s', k);
  }

  lemma WaitSems(s: KState, pid: int, s': KState)
    requires WaitDoes(s, pid, s')
    ensures SameSems(s, s')
  {
    if bt: Tid :| s.task[bt].pid == pid {
      assert WaitOn(s, bt, s');
    }
  }

  lemma StepBooked(s: KState, c: Call, k: Sid)
    requires Inv(s) && Enabled(s, c) && Guard(s, c)
    ensures Step(s, c) != Fault && Booked(s, c, Step(s, c).s, k)
  {
    StepEffect(s, c);
    var s' := Step(s, c).s;
    hide Effect, Step, Guard, Enabled, Calling;
    if Destroys(c) {
      InvCalling(s);
      hide Inv;
      StepCleared(s, c, s');
      ClearedBooked(s, c, s', k);
    } else {
      BookedPlain(s, c, s', k);
    }
  }

  lemma ClearedBooked(s: KState, c: Call, s': KState, k: Sid)
    requires Cleared(s, s') && Destroys(c)
    ensures Booked(s, c, s', k)
  {
    assert SlotKept(s.sems[k], s'.sems[k]);
  }
}
