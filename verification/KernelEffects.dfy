/** What each call does, told by the states before and after it: whose counters, lists and reasons to
    wait change, who sleeps afterwards and who was woken. */
module KernelEffects {
  import opened Params
  import opened KernelSpec
  import opened KernelInv
  import opened KernelSteps

  /** Nothing of the task changed but, perhaps, that it gained or lost the processor. */
  ghost predicate Unmoved(s: KState, s': KState, t: Tid) {
    s'.task[t] == s.task[t].(state := s'.task[t].state)
  }

  ghost predicate SamePool(s: KState, s': KState) {
    s'.freeq == s.freeq && s'.pidGlobal == s.pidGlobal
  }

  ghost predicate SameSems(s: KState, s': KState) {
    s'.sems == s.sems && s'.semId == s.semId
  }

  /** The processor was handed over: the current task has its whole quantum before it. */
  ghost predicate NewQuantum(s: KState) {
    s.tick == s.task[s.current].quantum
  }

  ghost predicate Asleep(s: KState, t: Tid) {
    s.task[t].state == Blocked && t in s.blockedq && t !in s.readyq && t != s.current
  }

  ghost predicate Awake(s: KState, t: Tid) {
    if t == s.current then s.task[t].state == Run else s.task[t].state == Ready && t in s.readyq
  }

  // ----- the effects

  /** With a wakeup pending the caller uses it up and goes on; without one it sleeps. */
  ghost predicate BlockDoes(s: KState, s': KState) {
    && SamePool(s, s') && SameSems(s, s') && (forall t: Tid :: t != s.current ==> Unmoved(s, s', t))
    && var p := s.task[s.current];
    if p.pending > 0 then
      s' == SetTask(s, s.current, p.(pending := p.pending - 1, completed := p.completed + 1))
    else
      s'.task[s.current] == p.(state := Blocked, why := OnBlock) && Asleep(s', s.current) && NewQuantum(s')
  }

  /** The child of that pid is woken if it is blocked, and else has one wakeup more. */
  ghost predicate UnblockDoes(s: KState, pid: int, s': KState) {
    && SamePool(s, s') && SameSems(s, s') && NewQuantum(s')
    && forall t: Tid ::
         var p, p' := s.task[t], s'.task[t];
         if !IsChild(s, t, pid) then Unmoved(s, s', t)
         else if p.state == Blocked then
           p' == p.(state := p'.state, why := NotBlocked, delivered := p.delivered + 1, completed := p.completed + 1)
           && Awake(s', t)
         else p' == p.(state := p'.state, pending := p.pending + 1, delivered := p.delivered + 1)
  }

  /** The caller sleeps at the end of the waiting list of `bt`. */
  ghost predicate WaitOn(s: KState, bt: Tid, s': KState) {
    && SamePool(s, s') && SameSems(s, s') && Asleep(s', s.current) && NewQuantum(s')
    && forall t: Tid ::
         var p, p' := s.task[t], s'.task[t];
         p' == p.(state := p'.state, why := if t == s.current then OnTask(bt) else p.why,
                  waitList := if t == bt then p.waitList + [s.current] else p.waitList)
  }

  ghost predicate WaitDoes(s: KState, pid: int, s': KState) {
    && (forall bt: Tid | s.task[bt].pid == pid :: WaitOn(s, bt, s'))
    && ((forall bt: Tid :: s.task[bt].pid != pid) ==> s' == s)
  }

  /** Slot `k` is the semaphore of that id. */
  ghost predicate Names(s: KState, id: int, k: Sid) {
    USER_SEM_IDS <= id && s.sems[k].id == id && !s.sems[k].free
  }

  ghost predicate OtherSems(s: KState, k: Sid, s': KState) {
    s'.semId == s.semId && forall j: Sid :: j != k ==> s'.sems[j] == s.sems[j]
  }

  /** The lowest free slot gets a fresh id, the initial value and nobody waiting. */
  ghost predicate CreateDoes(s: KState, v: int, s': KState) {
    && (forall k: Sid | s.sems[k].free && (forall j: Sid :: j < k ==> !s.sems[j].free) ::
          s' == SetSem(s, k, Sem(s.semId, v, false, s.task[s.current].pid, [], v, 0, 0, [], 0)).(semId := s.semId + 1))
    && ((forall k: Sid :: !s.sems[k].free) ==> s' == s)
  }

  /** A wait takes one off the value; the caller goes on if there was one to take, and else sleeps at
      the end of the semaphore's queue. */
  ghost predicate WaitAt(s: KState, k: Sid, s': KState) {
    && SamePool(s, s') && OtherSems(s, k, s') && (forall t: Tid :: t != s.current ==> Unmoved(s, s', t))
    && var x, p := s.sems[k].(value := s.sems[k].value - 1, waits := s.sems[k].waits + 1), s.task[s.current];
    if s.sems[k].value > 0 then s' == SetSem(s, k, x)
    else
      && s'.sems[k] == x.(queue := x.queue + [s.current], arrived := x.arrived + [s.current])
      && s'.task[s.current] == p.(state := Blocked, why := OnSem(k)) && Asleep(s', s.current) && NewQuantum(s')
  }

  ghost predicate SemWaitDoes(s: KState, id: int, s': KState) {
    && (forall k: Sid | Names(s, id, k) :: WaitAt(s, k, s'))
    && ((forall k: Sid :: !Names(s, id, k)) ==> s' == s)
  }

  /** Only task `t` was woken. */
  ghost predicate Woke(s: KState, t: Tid, s': KState) {
    && SamePool(s, s') && (forall u: Tid :: u != t ==> Unmoved(s, s', u))
    && s'.task[t] == s.task[t].(state := s'.task[t].state, why := NotBlocked) && Awake(s', t) && NewQuantum(s')
  }

  /** A signal adds one to the value, and wakes the first waiter if that leaves one owed. */
  ghost predicate SignalAt(s: KState, k: Sid, s': KState) {
    && OtherSems(s, k, s')
    && var x := s.sems[k].(value := s.sems[k].value + 1, signals := s.sems[k].signals + 1);
    if s.sems[k].value >= 0 then s' == SetSem(s, k, x)
    else
      && x.queue != [] && Woke(s, x.queue[0], s')
      && s'.sems[k] == x.(queue := x.queue[1..], served := x.served + 1)
  }

  ghost predicate SignalDoes(s: KState, id: int, s': KState) {
    && (forall k: Sid | Names(s, id, k) :: SignalAt(s, k, s'))
    && ((forall k: Sid :: !Names(s, id, k)) ==> s' == s)
  }

  /** Slot `k` is free; the caller is back in user code. */
  ghost predicate RetireDoes(s: KState, k: Sid, s': KState) {
    s' == SetSem(SetTask(s, s.current, s.task[s.current].(cont := User)), k, s.sems[k].(free := true))
  }

  /** The first waiter is woken, and the caller will go on from `c`. */
  ghost predicate DrainDoes(s: KState, k: Sid, c: Cont, s': KState) {
    && s.sems[k].queue != [] && OtherSems(s, k, s') && s.sems[k].queue[0] != s.current
    && Woke(SetTask(s, s.current, s.task[s.current].(cont := c)), s.sems[k].queue[0], s')
    && Awake(s', s.current)
    && s'.sems[k] == s.sems[k].(creator := -1, queue := s.sems[k].queue[1..], served := s.sems[k].served + 1)
  }

  /** The current task created the semaphore in slot `k`. */
  ghost predicate Owns(s: KState, k: Sid) {
    !s.sems[k].free && s.sems[k].creator == s.task[s.current].pid
  }

  ghost predicate DestroyFrom(s: KState, k: Sid, s': KState) {
    if s.sems[k].queue == [] then RetireDoes(s, k, s') else DrainDoes(s, k, Destroying(k), s')
  }

  ghost predicate DestroyDoes(s: KState, id: int, s': KState) {
    && (forall k: Sid | Names(s, id, k) && Owns(s, k) :: DestroyFrom(s, k, s'))
    && ((forall k: Sid :: !(Names(s, id, k) && Owns(s, k))) ==> s' == s)
  }

  /** The current task is gone: its PCB is the last free one, its children are idle's, and exactly the
      tasks that waited for it are awake, in the order they came. */
  ghost predicate EndDoes(s: KState, s': KState) {
    var cur := s.current;
    && SameSems(s, s') && s'.pidGlobal == s.pidGlobal && s'.freeq == s.freeq + [cur]
    && s'.task[cur] == s.task[cur].(pid := -1, pare := NO_PARENT, fills := [], waitList := [], state := Free)
    && (forall t: Tid :: t != cur ==>
          var p, ct := s.task[t], s.task[cur];
          s'.task[t] == p.(state := s'.task[t].state, why := if p.why == OnTask(cur) then NotBlocked else p.why,
                           pare := if t in ct.fills then IDLE else p.pare,
                           fills := (if t == ct.pare then Without(p.fills, cur) else p.fills)
                                    + (if t == IDLE then ct.fills else [])))
    && (forall t: Tid :: s.task[t].why == OnTask(cur) ==> Awake(s', t))
    && Rotated(s, s', s.task[cur].waitList) && NewQuantum(s')
  }

  /** The semaphores of the current task in the slots from `i` up to `j`, on which nobody waits, are free. */
  ghost predicate Swept(s: KState, i: nat, j: nat, m: KState) {
    && m == s.(sems := m.sems)
    && forall k: Sid ::
         if i <= k < j && Owns(s, k) then s.sems[k].queue == [] && m.sems[k] == s.sems[k].(free := true)
         else m.sems[k] == s.sems[k]
  }

  /** exit from slot `i` on: it ends, or stops at its first semaphore somebody waits on. */
  ghost predicate ExitDoes(s: KState, i: nat, s': KState) {
    exists j: nat, m: KState :: i <= j <= NUM_SEMS && Swept(s, i, j, m) &&
      if j < NUM_SEMS then Owns(m, j) && DrainDoes(m, j, Exiting(j), s') else EndDoes(m, s')
  }

  ghost predicate ResumeDoes(s: KState, s': KState) {
    match s.task[s.current].cont
    case User => s' == s
    case Destroying(k) => DestroyFrom(s, k, s')
    case Exiting(k) =>
      if s.sems[k].queue != [] then DrainDoes(s, k, Exiting(k), s')
      else exists m :: RetireDoes(s, k, m) && ExitDoes(m, k + 1, s')
  }

  ghost predicate TickDoes(s: KState, s': KState) {
    && SamePool(s, s') && SameSems(s, s') && (forall t: Tid :: Unmoved(s, s', t))
    && if s.tick > 1 then s' == s.(tick := s.tick - 1) else NewQuantum(s')
  }

  /** fork or create_thread found a PCB and everything else it needed. */
  predicate Spawns(s: KState, c: Call) {
    s.freeq != [] && (c == CFork(true) || c == CThread(true))
  }

  /** The first free PCB is a copy of the caller's under a new pid, the caller's youngest child, with
      nothing pending, a whole quantum and nobody waiting for it, at the back of the ready queue. */
  ghost predicate SpawnDoes(s: KState, s': KState) {
    && s.freeq != [] && SameSems(s, s') && s'.pidGlobal == s.pidGlobal + 1 && s'.freeq == s.freeq[1..]
    && var f, cur := s.freeq[0], s.current;
    && f != cur && s'.current == cur && s'.tick == s.tick && s'.readyq == s.readyq + [f]
    && s'.task[f] == s.task[cur].(pid := s.pidGlobal, pare := cur, fills := [], waitList := [], pending := 0,
                                  quantum := DEFAULT_QUANTUM_TICKS, delivered := 0, completed := 0,
                                  state := Ready, why := NotBlocked)
    && s'.task[cur] == s.task[cur].(fills := s.task[cur].fills + [f])
    && (forall t: Tid :: t != f && t != cur ==> s'.task[t] == s.task[t])
  }

  ghost predicate Effect(s: KState, c: Call, s': KState) {
    match c
    case CTick => TickDoes(s, s')
    case CFork(_) => if Spawns(s, c) then SpawnDoes(s, s') else s' == s
    case CThread(_) => if Spawns(s, c) then SpawnDoes(s, s') else s' == s
    case CExit => ExitDoes(s, 0, s')
    case CBlock => BlockDoes(s, s')
    case CUnblock(pid) => UnblockDoes(s, pid, s')
    case CWait(pid) => WaitDoes(s, pid, s')
    case CSemCreate(v) => CreateDoes(s, v, s')
    case CSemWait(id) => SemWaitDoes(s, id, s')
    case CSemSignal(id) => SignalDoes(s, id, s')
    case CSemDestroy(id) => DestroyDoes(s, id, s')
    case CResume => ResumeDoes(s, s')
  }

  // ----- what a dispatch adds

  lemma DispatchedRest(s: KState, s': KState)
    requires Dispatched(s, s')
    ensures SamePool(s, s') && SameSems(s, s') && NewQuantum(s')
    ensures forall t: Tid :: s'.task[t] == s.task[t].(state := s'.task[t].state)
  {
  }

  lemma AsleepBy(s: KState, t: Tid)
    requires Inv(s) && s.task[t].why != NotBlocked
    ensures Asleep(s, t)
  {
    hide Pids, Tree, Sems, Conts, Wakeups, Quanta;
  }

  lemma AwakeBy(s: KState, t: Tid)
    requires Inv(s) && s.task[t].why == NotBlocked && Alive(s, t) && t != IDLE
    ensures Awake(s, t)
  {
    hide Tree, Sems, Conts, Wakeups, Quanta;
  }

  lemma RunsAwake(s: KState)
    requires Inv(s)
    ensures s.task[s.current].why == NotBlocked && Alive(s, s.current)
  {
    hide Pids, Tree, Sems, Conts, Wakeups, Quanta;
  }

  // ----- block and unblock

  lemma BlockEffect(s: KState)
    requires Inv(s) && s.current != IDLE && s.task[s.current].cont == User
    ensures BlockDoes(s, Block(s))
  {
    hide Queues, Pids, Tree, Waits, Sems, Conts, Wakeups, Quanta, SchedNext, UpdateState, Dispatched;
    CurrentFacts(s);
    if s.task[s.current].pending <= 0 {
      var s1 := UpdateState(s, s.current, ToBlocked(OnBlock));
      SleepEffect(s, OnBlock);
      BlockedSteady(s, s1);
      SchedKeeps(s1);
      DispatchedRest(s1, SchedNext(s1));
      AsleepBy(SchedNext(s1), s.current);
    }
  }

  lemma UnblockEffect(s: KState, pid: int)
    requires Inv(s) && s.current != IDLE && s.task[s.current].cont == User && !WaitsElsewhere(s, pid)
    ensures UnblockDoes(s, pid, Unblock(s, pid))
  {
    hide Queues, Pids, Tree, Waits, Sems, Conts, Wakeups, Quanta, SchedNext, UpdateState, UnblockOne, UnblockAll,
         Dispatched, IsChild;
    if c: Tid :| IsChild(s, c, pid) {
      OneChild(s, c, pid);
      var s1 := UnblockOne(s, c);
      forall d: Tid | IsChild(s, d, pid) ensures d == c {
        SoleChild(s, c, d, pid);
      }
      UnblockOneEffect(s, c);
      if s.task[c].state != Blocked {
        PendedSteady(s, s1, c);
      } else {
        UnblockedSteady(s, s1, c);
      }
      SchedKeeps(s1);
      DispatchedRest(s1, SchedNext(s1));
      if s.task[c].state == Blocked {
        AwakeBy(SchedNext(s1), c);
      }
    } else {
      NoChild(s, pid);
      SchedKeeps(s);
      DispatchedRest(s, SchedNext(s));
    }
  }

  lemma SoleChild(s: KState, c: Tid, d: Tid, pid: int)
    requires Inv(s) && IsChild(s, c, pid) && IsChild(s, d, pid)
    ensures c == d
  {
    hide Inv;
    PidOfOne(s, c, d);
  }

  lemma NoChild(s: KState, pid: int)
    requires forall c: Tid :: !IsChild(s, c, pid)
    ensures UnblockAll(s, s.task[s.current].fills, pid) == s
  {
    forall d | d in s.task[s.current].fills ensures s.task[d].pid != pid {
      assert !IsChild(s, d, pid);
    }
    UnblockAllNone(s, s.task[s.current].fills, pid);
  }

  lemma UnblockOneEffect(s: KState, c: Tid)
    requires Inv(s) && s.task[c].pid > 0 && c != s.current
    requires s.task[c].state == Blocked ==> s.task[c].why == OnBlock
    ensures var s1, p := UnblockOne(s, c), s.task[c];
            && SamePool(s, s1) && SameSems(s, s1) && (forall t: Tid :: t != c ==> s1.task[t] == s.task[t])
            && s1.task[c] ==
               if p.state == Blocked
               then p.(state := Ready, why := NotBlocked, delivered := p.delivered + 1, completed := p.completed + 1)
               else p.(pending := p.pending + 1, delivered := p.delivered + 1)
  {
    hide Pids, Tree, Waits, Sems, Conts, Wakeups, Quanta, UpdateState;
    if s.task[c].state == Blocked {
      var p := s.task[c];
      WakeEffect(SetTask(s, c, p.(delivered := p.delivered + 1, completed := p.completed + 1)), c);
    }
  }

  // ----- waiting for a thread

  /** At most one task has a pid that is not that of the free PCBs. */
  lemma OnePid(s: KState, t: Tid, u: Tid)
    requires Inv(s) && s.task[t].pid == s.task[u].pid >= 0
    ensures t == u
  {
    hide Queues, Tree, Waits, Sems, Conts, Wakeups, Quanta;
    assert Alive(s, t) && Alive(s, u);
  }

  lemma WaitEffect(s: KState, pid: int)
    requires Inv(s) && s.current != IDLE && s.task[s.current].cont == User && (pid != -1 || s.freeq == [])
    ensures WaitDoes(s, pid, WaitThread(s, pid))
  {
    hide Queues, Pids, Tree, Waits, Sems, Conts, Wakeups, Quanta, SchedNext, UpdateState, Dispatched, WaitOn;
    AliveUnlessFree(s);
    FreeQueueEmpty(s);
    var i := FindPid(s.task, pid);
    if i < NR_TASKS {
      var bt: Tid := i;
      WaitOnEffect(s, bt);
      forall u: Tid | s.task[u].pid == pid ensures u == bt {
        OnePid(s, u, bt);
      }
    }
  }

  lemma WaitOnEffect(s: KState, bt: Tid)
    requires Inv(s) && s.current != IDLE && s.task[s.current].cont == User && s.task[bt].state != Free
    ensures var s0 := SetTask(s, bt, s.task[bt].(waitList := s.task[bt].waitList + [s.current]));
            WaitOn(s, bt, SchedNext(UpdateState(s0, s.current, ToBlocked(OnTask(bt)))))
  {
    hide Queues, Pids, Tree, Waits, Sems, Conts, Wakeups, Quanta, SchedNext, UpdateState, Dispatched;
    CurrentFacts(s);
    var s0 := SetTask(s, bt, s.task[bt].(waitList := s.task[bt].waitList + [s.current]));
    var s1 := UpdateState(s0, s.current, ToBlocked(OnTask(bt)));
    SleepEffect(s0, OnTask(bt));
    WaitingSteady(s, s0, s1, bt);
    SchedKeeps(s1);
    DispatchedRest(s1, SchedNext(s1));
    AsleepBy(SchedNext(s1), s.current);
  }

  // ----- semaphores

  /** The search by id finds the one semaphore of that id. */
  lemma FindsNamed(s: KState, id: int)
    requires Inv(s)
    ensures SemFound(s, id) <==> exists k: Sid :: Names(s, id, k)
    ensures forall k: Sid :: Names(s, id, k) ==> FindSem(s.sems, id) == k
  {
    hide Queues, Pids, Tree, Waits, Conts, Wakeups, Quanta, Healthy, FindSem;
    if SemFound(s, id) {
      var k: Sid := FindSem(s.sems, id);
      assert Names(s, id, k);
    }
  }

  lemma CreateEffect(s: KState, v: int)
    ensures CreateDoes(s, v, SemCreate(s, v))
  {
    hide FindFree;
    var i := FindFree(s.sems);
    assert i < NUM_SEMS ==> s.sems[i].free;
  }

  lemma SemWaitEffect(s: KState, id: int)
    requires Inv(s) && s.current != IDLE && s.task[s.current].cont == User
    ensures SemWaitDoes(s, id, SemWait(s, id))
  {
    hide Queues, Pids, Tree, Waits, Sems, Conts, Wakeups, Quanta, SchedNext, UpdateState, Dispatched, WaitAt, Names,
         FindSem;
    FindsNamed(s, id);
    if SemFound(s, id) {
      var k: Sid := FindSem(s.sems, id);
      WaitAtEffect(s, id, k);
    }
  }

  lemma WaitAtEffect(s: KState, id: int, k: Sid)
    requires Inv(s) && s.current != IDLE && s.task[s.current].cont == User && SemFound(s, id)
    requires k == FindSem(s.sems, id)
    ensures WaitAt(s, k, SemWait(s, id))
  {
    hide Queues, Pids, Tree, Waits, Sems, Conts, Wakeups, Quanta, SchedNext, UpdateState, Dispatched, FindSem;
    if s.sems[k].value <= 0 {
      CurrentFacts(s);
      var x := s.sems[k].(value := s.sems[k].value - 1, waits := s.sems[k].waits + 1,
                          queue := s.sems[k].queue + [s.current], arrived := s.sems[k].arrived + [s.current]);
      var s0 := SetSem(s, k, x);
      var s1 := UpdateState(s0, s.current, ToBlocked(OnSem(k)));
      SleepEffect(s0, OnSem(k));
      QueuedSteady(s, s0, s1, k);
      SchedKeeps(s1);
      DispatchedRest(s1, SchedNext(s1));
      AsleepBy(SchedNext(s1), s.current);
    }
  }

  lemma SignalEffect(s: KState, id: int)
    requires Inv(s) && s.current != IDLE && s.task[s.current].cont == User && !SignalFaults(s, id)
    ensures SemSignal(s, id) != Fault && SignalDoes(s, id, SemSignal(s, id).s)
  {
    hide Queues, Pids, Tree, Waits, Sems, Conts, Wakeups, Quanta, SchedNext, UpdateState, Dispatched, SignalAt, Names,
         FindSem;
    FindsNamed(s, id);
    SemSignalIff(s, id);
    if SemFound(s, id) {
      var k: Sid := FindSem(s.sems, id);
      SignalAtEffect(s, id, k);
    }
  }

  lemma SignalAtEffect(s: KState, id: int, k: Sid)
    requires Inv(s) && s.current != IDLE && s.task[s.current].cont == User && SemFound(s, id)
    requires k == FindSem(s.sems, id) && !SignalFaults(s, id)
    ensures SemSignal(s, id) != Fault && SignalAt(s, k, SemSignal(s, id).s)
  {
    hide Queues, Pids, Tree, Waits, Sems, Conts, Wakeups, Quanta, SchedNext, UpdateState, Dispatched, FindSem;
    if s.sems[k].value < 0 {
      var x := s.sems[k].(value := s.sems[k].value + 1, signals := s.sems[k].signals + 1);
      SignalledHealthy(s, k);
      WokenByPop(s, s, k, x);
    }
  }

  /** Taking the first waiter of semaphore `k` off and dispatching: who is awake afterwards. */
  lemma WokenByPop(s: KState, sc: KState, k: Sid, x: Sem)
    requires Inv(s) && sc == SetTask(s, s.current, s.task[s.current].(cont := sc.task[s.current].cont))
    requires !s.sems[k].free && s.sems[k].queue != [] && s.current != IDLE
    requires x == s.sems[k].(value := x.value, signals := x.signals, creator := x.creator)
    requires x.creator != -1 ==> Healthy(x.(queue := x.queue[1..], served := x.served + 1))
    requires Conts(Pop(sc, k, x)) || (x.creator == s.sems[k].creator && sc == s)
    ensures x.queue[0] != s.current
    ensures var s' := SchedNext(Pop(sc, k, x));
            && Woke(sc, x.queue[0], s') && OtherSems(s, k, s') && Awake(s', s.current)
            && s'.sems[k] == x.(queue := x.queue[1..], served := x.served + 1)
  {
    hide Queues, Pids, Tree, Waits, Sems, Conts, Wakeups, Quanta, SchedNext, UpdateState, Dispatched;
    var t, s1 := x.queue[0], Pop(sc, k, x);
    CurrentFacts(s);
    PopBlocked(s, k);
    SetContCore(s, sc.task[s.current].cont);
    PopCore(sc, SetSem(sc, k, x.(queue := x.queue[1..], served := x.served + 1)), s1, k, t);
    PopPool(sc, k, x);
    if x.creator == s.sems[k].creator && sc == s {
      PopConts(s, s1, k, t);
    }
    AliveBlocked(s, t);
    SchedKeeps(s1);
    var s' := SchedNext(s1);
    DispatchedRest(s1, s');
    AwakeBy(s', t);
    AwakeBy(s', s.current);
  }

  lemma PopPool(s: KState, k: Sid, x: Sem)
    requires Core(s) && x.queue != [] && s.task[x.queue[0]].state == Blocked
    ensures SamePool(s, Pop(s, k, x)) && Pop(s, k, x).semId == s.semId
  {
    hide Queues, Pids, Tree, Waits, Sems, Wakeups, Quanta, UpdateState, SameQueues;
    var s0 := SetSem(s, k, x.(queue := x.queue[1..], served := x.served + 1));
    SetSemSame(s, s0, k);
    QueuesFrame(s, s0);
    BlockedAlive(s, x.queue[0]);
    WakeEffect(s0, x.queue[0]);
  }

  lemma AliveBlocked(s: KState, t: Tid)
    requires Inv(s) && s.task[t].state == Blocked
    ensures Alive(s, t) && t != IDLE && t != s.current
  {
    hide Tree, Waits, Sems, Conts, Wakeups, Quanta;
    BlockedAlive(s, t);
  }

  // ----- destroying semaphores, and exit

  lemma DrainEffect(s: KState, k: Sid, c: Cont)
    requires Inv(s) && MayDrain(s, k) && s.sems[k].queue != []
    requires c == Destroying(k) || (c == Exiting(k) && s.current != INIT)
    ensures DrainDoes(s, k, c, DrainOne(s, k, c))
  {
    hide Queues, Pids, Tree, Waits, Sems, Conts, Wakeups, Quanta, SchedNext, UpdateState, Dispatched;
    var sc, x := SetCont(s, c), s.sems[k].(creator := -1);
    var t := x.queue[0];
    CurrentFacts(s);
    PopBlocked(s, k);
    SetContCore(s, c);
    PopCore(sc, SetSem(sc, k, x.(queue := x.queue[1..], served := x.served + 1)), Pop(sc, k, x), k, t);
    DrainConts(s, Pop(sc, k, x), k, c, t);
    hide MayDrain;
    WokenByPop(s, sc, k, x);
  }

  lemma DestroyFromEffect(s: KState, k: Sid)
    requires Inv(s) && MayDrain(s, k)
    ensures DestroyFrom(s, k, DrainFrom(s, k))
  {
    hide Inv, DrainOne, MayDrain, DrainDoes;
    if s.sems[k].queue != [] {
      DrainEffect(s, k, Destroying(k));
    }
  }

  lemma DestroyEffect(s: KState, id: int)
    requires Inv(s) && s.current != IDLE && s.task[s.current].cont == User
    ensures DestroyDoes(s, id, SemDestroy(s, id))
  {
    hide Inv, DrainFrom, DestroyFrom, FindSem, Names;
    FindsNamed(s, id);
    if SemFound(s, id) {
      var k: Sid := FindSem(s.sems, id);
      if Owns(s, k) {
        OwnerMayDrain(s, k);
        DestroyFromEffect(s, k);
      }
    }
  }

  /** The loop of exit over its waiting list, as a change of every task. */
  ghost predicate WaitersFreed(s: KState, s': KState) {
    && SamePool(s, s') && SameSems(s, s')
    && forall t: Tid ::
         s'.task[t] == s.task[t].(state := s'.task[t].state,
                                  why := if s.task[t].why == OnTask(s.current) then NotBlocked else s.task[t].why,
                                  waitList := if t == s.current then [] else s.task[t].waitList)
  }

  lemma {:induction false} WaitersEffect(s: KState)
    requires Leaving(s)
    ensures WaitersFreed(s, DrainWaiters(s, s.current))
    decreases |s.task[s.current].waitList|
  {
    hide Queues, Pids, Tree, Sems, Conts, Wakeups, Quanta, UpdateState;
    var ws := s.task[s.current].waitList;
    if ws != [] {
      var w := ws[0];
      var s0 := UpdateState(s, w, ToReady);
      var s1 := SetTask(s0, s.current, s0.task[s.current].(waitList := ws[1..]));
      FirstWaiter(s, w);
      WaiterWoken(s, w);
      hide Waits;
      DrainTurn(s, s0, s1, w);
      WaitersEffect(s1);
    } else {
      assert forall t: Tid :: s.task[t].why != OnTask(s.current);
    }
  }

  lemma WaiterWoken(s: KState, w: Tid)
    requires Leaving(s) && s.task[w].state == Blocked
    ensures Woken(s, UpdateState(s, w, ToReady), w)
  {
    hide Tree, Waits, Sems, Conts, Wakeups, Quanta;
    BlockedAlive(s, w);
    WakeEffect(s, w);
  }

  lemma EndEffect(s: KState)
    requires Inv(s) && s.task[s.current].cont == User && !Undetachable(s)
    ensures ExitTail(s) != Fault && EndDoes(s, ExitTail(s).s)
  {
    hide Queues, Pids, Tree, Waits, Sems, Conts, Wakeups, Quanta, SchedNext, UpdateState, Detach, DrainWaiters,
         Dispatched, Leaving, DetachedPcb;
    ExitTailIff(s);
    ExitingFacts(s);
    ExitSteps(s);
    DetachEffect(s);
    var s0 := Detach(s);
    DetachedLeaving(s, s0);
    WaitersEffect(s0);
    DrainWaitersEffect(s0);
    var s1 := DrainWaiters(s0, s.current);
    var s2 := UpdateState(s1, s.current, ToFree);
    GoneFreed(s1);
    SchedKeeps(s2);
    DispatchedRest(s2, SchedNext(s2));
    EndTasks(s, s0, s1, s2, SchedNext(s2));
  }

  lemma GoneFreed(s: KState)
    requires Leaving(s)
    ensures FreedCurrent(s, UpdateState(s, s.current, ToFree)) && s.task[s.current].why == NotBlocked
    ensures s.task[s.current].pid == -1
  {
    hide Queues, Pids, Tree, Sems, Conts, Wakeups, Quanta;
  }

  lemma EndTasks(s: KState, s0: KState, s1: KState, s2: KState, s': KState)
    requires Inv(s) && Detached(s, s0) && WaitersFreed(s0, s1) && s1.current == s.current && FreedCurrent(s1, s2)
    requires s1.task[s.current].why == NotBlocked && Inv(s')
    requires SamePool(s2, s') && SameSems(s2, s')
    requires forall t: Tid :: s'.task[t] == s2.task[t].(state := s'.task[t].state)
    requires Rotated(s, s', s.task[s.current].waitList) && NewQuantum(s')
    ensures EndDoes(s, s')
  {
    hide Inv, Rotated;
    forall t: Tid | s.task[t].why == OnTask(s.current) ensures Awake(s', t) {
      WaiterAlive(s, t);
      AwakeBy(s', t);
    }
    FreeStays(s', s.current);
  }

  lemma FreeStays(s: KState, t: Tid)
    requires Inv(s) && s.task[t].pid < 0
    ensures s.task[t].state == Free
  {
    hide Inv;
    AliveUnlessFree(s);
  }

  lemma WaiterAlive(s: KState, t: Tid)
    requires Inv(s) && s.task[t].why != NotBlocked
    ensures Alive(s, t) && t != IDLE && t != s.current
  {
    hide Inv;
    AsleepBy(s, t);
    AliveBlocked(s, t);
  }

  lemma OwnsInTurn(s: KState, i: Sid)
    requires Inv(s) && s.task[s.current].pid > 0
    ensures var k := FindSem(s.sems, s.sems[i].id);
            && k < NUM_SEMS
            && ((s.sems[i].creator == s.task[s.current].pid && Owns(s, k)) <==> Owns(s, i))
            && (Owns(s, i) ==> k == i)
  {
    hide Queues, Pids, Tree, Waits, Conts, Wakeups, Quanta, Healthy;
  }

  lemma SweptNone(s: KState, i: nat)
    ensures Swept(s, i, i, s)
  {
  }

  /** One more slot that is not the caller's, or that nobody waits on. */
  lemma SweptMore(s: KState, s1: KState, i: nat, j: nat, m: KState)
    requires i < NUM_SEMS && Swept(s, i, i + 1, s1) && Swept(s1, i + 1, j, m) && i + 1 <= j
    ensures Swept(s, i, j, m)
  {
  }

  /** exit from slot `i` on, as one sweep and what follows it. */
  lemma {:induction false} ExitEffect(s: KState, i: nat)
    requires Inv(s) && i <= NUM_SEMS && s.task[s.current].cont == User && s.current != IDLE && s.current != INIT
    ensures ExitFrom(s, i) != Fault && ExitDoes(s, i, ExitFrom(s, i).s)
    decreases NUM_SEMS - i
  {
    hide Inv, ExitTail, DrainOne, Retire, MayDrain, Swept, EndDoes, DrainDoes, FindSem;
    if i == NUM_SEMS {
      EndEffect(s);
      SweptNone(s, i);
    } else {
      CurrentFacts(s);
      OwnsInTurn(s, i);
      if !Owns(s, i) {
        SweptSkip(s, i);
        ExitEffect(s, i + 1);
        ExitMore(s, s, i, ExitFrom(s, i).s);
      } else {
        OwnerMayDrain(s, i);
        if s.sems[i].queue == [] {
          RetireKeeps(s, i);
          SweptRetire(s, i);
          ExitEffect(Retire(s, i), i + 1);
          ExitMore(s, Retire(s, i), i, ExitFrom(s, i).s);
        } else {
          DrainEffect(s, i, Exiting(i));
          SweptNone(s, i);
        }
      }
    }
  }

  lemma SweptSkip(s: KState, i: Sid)
    requires !Owns(s, i)
    ensures Swept(s, i, i + 1, s)
  {
  }

  lemma SweptRetire(s: KState, i: Sid)
    requires Owns(s, i) && s.sems[i].queue == [] && s.task[s.current].cont == User
    ensures Swept(s, i, i + 1, Retire(s, i)) && RetireDoes(s, i, Retire(s, i))
  {
    assert s.task[s.current := s.task[s.current].(cont := User)] == s.task;
  }

  lemma ExitMore(s: KState, s1: KState, i: nat, s': KState)
    requires i < NUM_SEMS && Swept(s, i, i + 1, s1) && ExitDoes(s1, i + 1, s')
    ensures ExitDoes(s, i, s')
  {
    hide Swept, EndDoes, DrainDoes, Owns;
    var j: nat, m: KState :| i + 1 <= j <= NUM_SEMS && Swept(s1, i + 1, j, m) &&
      if j < NUM_SEMS then Owns(m, j) && DrainDoes(m, j, Exiting(j), s') else EndDoes(m, s');
    SweptMore(s, s1, i, j, m);
  }

  lemma ResumeEffect(s: KState)
    requires Inv(s) && s.task[s.current].cont != User
    ensures Resume(s) != Fault && ResumeDoes(s, Resume(s).s)
  {
    hide Inv, DrainFrom, DrainOne, Retire, ExitFrom, MayDrain, DrainDoes, DestroyFrom, ExitDoes;
    ContMayDrain(s);
    match s.task[s.current].cont
    case User =>
    case Destroying(k) => DestroyFromEffect(s, k);
    case Exiting(k) =>
      if s.sems[k].queue == [] {
        RetireKeeps(s, k);
        NotIdleInDrain(s);
        ExitEffect(Retire(s, k), k + 1);
        RetireEffect(s, k);
      } else {
        DrainEffect(s, k, Exiting(k));
      }
  }

  lemma RetireEffect(s: KState, k: Sid)
    ensures RetireDoes(s, k, Retire(s, k))
  {
  }

  lemma NotIdleInDrain(s: KState)
    requires Inv(s) && s.task[s.current].cont != User
    ensures s.current != IDLE
  {
    hide Queues, Pids, Tree, Waits, Sems, Wakeups, Quanta;
  }

  // ----- the clock, fork and create_thread

  lemma TickEffect(s: KState)
    requires Inv(s)
    ensures TickDoes(s, Tick(s))
  {
    hide Queues, Pids, Tree, Waits, Sems, Conts, Wakeups, Quanta, SchedNext, Dispatched;
    var s1 := if s.tick > 0 then s.(tick := s.tick - 1) else s;
    if s1.tick <= 0 {
      TickQueues(s, s1);
      DispatchEffect(s1);
      DispatchedRest(s1, SchedNext(s1));
    }
  }

  lemma TickQueues(s: KState, s1: KState)
    requires Inv(s) && s1 == s.(tick := s1.tick)
    ensures Queues(s1) && Pids(s1) && Waits(s1)
  {
    hide Tree, Sems, Conts, Wakeups, Quanta;
  }

  lemma SpawnsEffect(s: KState, c: Call)
    requires Inv(s) && Enabled(s, c) && Spawns(s, c)
    ensures Step(s, c) != Fault && SpawnDoes(s, Step(s, c).s)
  {
    hide Inv, Spawned, Spawn, SpawnDoes;
    if c.CFork? {
      ForkKeeps(s);
    } else {
      ThreadSpawns(s);
    }
    SpawnedDoes(s, Step(s, c).s);
  }

  lemma SpawnedDoes(s: KState, s': KState)
    requires s.freeq != [] && Spawned(s, s', s.freeq[0])
    ensures SpawnDoes(s, s')
  {
  }

  lemma ThreadSpawns(s: KState)
    requires Inv(s) && s.freeq != []
    ensures Spawned(s, CreateThread(s, true), s.freeq[0])
  {
    hide Queues, Pids, Tree, Waits, Sems, Conts, Wakeups, Quanta, Spawn, Spawned;
    FreeFirst(s);
    SpawnEffect(s, s.freeq[0]);
  }

  // ----- every call

  /** Every guarded call does exactly what its effect says. */
  lemma StepEffect(s: KState, c: Call)
    requires Inv(s) && Enabled(s, c) && Guard(s, c)
    ensures Step(s, c) != Fault && Effect(s, c, Step(s, c).s)
  {
    if c != CTick {
      CallerBusy(s, c);
    }
    StepIff(s, c);
    hide Inv, Tick, Fork, CreateThread, ExitFrom, Block, Unblock, WaitThread, SemCreate, SemWait, SemSignal, SemDestroy,
         Resume, SignalFaults, WaitsElsewhere, BlockDoes, UnblockDoes, WaitDoes, CreateDoes, SemWaitDoes, SignalDoes,
         DestroyDoes, ExitDoes, ResumeDoes, TickDoes, SpawnDoes;
    match c
    case CTick => TickEffect(s);
    case CFork(memOk) => ForkEffect(s, c);
    case CThread(argsOk) => ForkEffect(s, c);
    case CExit => ExitEffect(s, 0);
    case CBlock => BlockEffect(s);
    case CUnblock(pid) => UnblockEffect(s, pid);
    case CWait(pid) => WaitEffect(s, pid);
    case CSemCreate(v) => CreateEffect(s, v);
    case CSemWait(id) => SemWaitEffect(s, id);
    case CSemSignal(id) => SignalEffect(s, id);
    case CSemDestroy(id) => DestroyEffect(s, id);
    case CResume => ResumeEffect(s);
  }

  lemma ForkEffect(s: KState, c: Call)
    requires Inv(s) && Enabled(s, c) && Guard(s, c) && (c.CFork? || c.CThread?)
    ensures Step(s, c) != Fault
    ensures if Spawns(s, c) then SpawnDoes(s, Step(s, c).s) else Step(s, c).s == s
  {
    hide Inv, SpawnDoes, Spawn;
    if Spawns(s, c) {
      SpawnsEffect(s, c);
    }
  }

  lemma CallerBusy(s: KState, c: Call)
    requires Inv(s) && Enabled(s, c) && c != CTick
    ensures s.current != IDLE && (c != CResume ==> s.task[s.current].cont == User)
  {
    hide Queues, Pids, Tree, Waits, Sems, Wakeups, Quanta;
  }
}
