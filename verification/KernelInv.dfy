/** What holds of the kernel between calls. */
module KernelInv {
  import opened Params
  import opened KernelSpec

  predicate Alive(s: KState, t: Tid) {
    s.task[t].pid >= 0
  }

  /** Each PCB is on the one queue its state names; the idle task is on none, and only the current
      task can be in state Run. */
  ghost predicate Queues(s: KState) {
    && Nodup(s.freeq) && Nodup(s.readyq) && Nodup(s.blockedq)
    && (forall t: Tid :: t in s.freeq <==> s.task[t].state == Free)
    && (forall t: Tid :: t in s.readyq <==> s.task[t].state == Ready && t != IDLE)
    && (forall t: Tid :: t in s.blockedq <==> s.task[t].state == Blocked)
    && (forall t: Tid :: s.task[t].state == Run ==> t == s.current)
    && s.task[IDLE].state in {Run, Ready}
    && s.task[s.current].state != Ready
  }

  ghost predicate Pids(s: KState) {
    && s.task[IDLE].pid == 0 && s.task[INIT].pid == 1 && 1 < s.pidGlobal
    && (forall t: Tid :: s.task[t].state == Free ==> s.task[t].pid == -1)
    && (forall t: Tid :: s.task[t].pid < 0 ==> s.task[t].pid == -1)
    && (forall t: Tid :: s.task[t].pid < 0 && s.task[t].state != Free ==> t == s.current && s.task[t].state == Run)
    && (forall t: Tid :: s.task[t].pid < s.pidGlobal)
    && (forall t: Tid, u: Tid :: t != u && Alive(s, t) && Alive(s, u) ==> s.task[t].pid != s.task[u].pid)
  }

  predicate Orphanable(t: Tid) { t != IDLE && t != INIT }

  /** Every live task but idle and task1 is on exactly its parent's list, and parents are older. */
  ghost predicate Tree(s: KState) {
    && (forall t: Tid :: Nodup(s.task[t].fills))
    && (forall t: Tid :: Alive(s, t) && Orphanable(t) ==> HasParent(s, t))
    && (forall t: Tid, c: Tid :: Alive(s, t) && c in s.task[t].fills ==>
          Alive(s, c) && Orphanable(c) && s.task[c].pare == t)
    && s.task[IDLE].pare == NO_PARENT && s.task[INIT].pare == NO_PARENT
  }

  ghost predicate HasParent(s: KState, t: Tid) {
    var p := s.task[t].pare;
    && 0 <= p < NR_TASKS
    && s.task[p].pid >= 0 && s.task[p].pid < s.task[t].pid
    && t in s.task[p].fills
  }

  /** The reason a task is blocked is the one list, of a task or of a semaphore, that holds it. */
  ghost predicate Waits(s: KState) {
    && (forall t: Tid :: s.task[t].why == NotBlocked <==> s.task[t].state != Blocked)
    && (forall t: Tid :: Nodup(s.task[t].waitList))
    && (forall t: Tid, w: Tid :: w in s.task[t].waitList <==> s.task[w].why == OnTask(t))
    && (forall t: Tid :: s.task[t].state == Free ==> s.task[t].waitList == [])
    && (forall k: Sid :: Nodup(s.sems[k].queue))
    && (forall k: Sid, w: Tid :: w in s.sems[k].queue <==> s.task[w].why == OnSem(k))
  }

  function Max0(x: int): nat { if x > 0 then x else 0 }

  /** A semaphore nobody is destroying: its value is initial + signals - waits, and exactly the
      waiters it owes are queued. */
  predicate Healthy(x: Sem) {
    && x.value == x.initial + x.signals - x.waits && 0 <= x.initial
    && |x.queue| == Max0(-x.value)
  }

  ghost predicate Sems(s: KState) {
    && USER_SEM_IDS <= s.semId
    && (forall k: Sid :: s.sems[k].free ==> s.sems[k].queue == [])
    && (forall k: Sid :: !s.sems[k].free && s.sems[k].creator != -1 ==> Healthy(s.sems[k]))
    && (forall k: Sid ::
          s.sems[k].served <= |s.sems[k].arrived| && s.sems[k].queue == s.sems[k].arrived[s.sems[k].served..])
    && (forall k: Sid :: s.sems[k].id == 0 || USER_SEM_IDS <= s.sems[k].id < s.semId)
    && (forall k: Sid :: s.sems[k].id == 0 ==> s.sems[k].free && s.sems[k].creator == 0)
    && (forall k: Sid, l: Sid :: k != l && s.sems[k].id == s.sems[l].id ==> s.sems[k].id == 0)
  }

  /** A task stopped in a drain loop holds a semaphore nobody else can take over. */
  ghost predicate Conts(s: KState) {
    && s.task[IDLE].cont == User
    && (forall t: Tid :: s.task[t].cont != User ==>
          && Alive(s, t) && s.task[t].state in {Run, Ready}
          && var x := s.sems[s.task[t].cont.k]; !x.free && x.creator == -1)
    && (forall t: Tid, u: Tid :: t != u && s.task[t].cont != User && s.task[u].cont != User ==>
          s.task[t].cont.k != s.task[u].cont.k)
    && !s.task[INIT].cont.Exiting?
  }

  /** No wakeup is lost: each unblock a task was sent is a block call it completed or is pending. */
  ghost predicate Wakeups(s: KState) {
    && (forall t: Tid :: Alive(s, t) ==> s.task[t].delivered == s.task[t].completed + s.task[t].pending)
    && (forall t: Tid :: Alive(s, t) ==> 0 <= s.task[t].pending)
    && (forall t: Tid :: s.task[t].why == OnBlock ==> s.task[t].pending == 0)
  }

  ghost predicate Quanta(s: KState) {
    && (forall t: Tid :: Alive(s, t) ==> s.task[t].quantum == if t == IDLE then 0 else DEFAULT_QUANTUM_TICKS)
    && 0 <= s.tick <= DEFAULT_QUANTUM_TICKS
  }

  /** The invariant while a call is under way: the current task may already have left the processor. */
  ghost predicate Steady(s: KState) {
    Core(s) && Conts(s)
  }

  ghost predicate Core(s: KState) {
    Queues(s) && Pids(s) && Tree(s) && Waits(s) && Sems(s) && Wakeups(s) && Quanta(s)
  }

  /** The invariant between calls. */
  ghost predicate Inv(s: KState) {
    Steady(s) && s.task[s.current].state == Run && Alive(s, s.current)
  }

  /** The state init_sched, init_idle and init_task1 leave. */
  ghost predicate Booted(s: KState) {
    && (forall t: Tid :: s.task[t] == if t == IDLE then NO_TASK.(pid := 0, state := Ready)
                                      else if t == INIT then NO_TASK.(pid := 1, state := Run,
                                          quantum := DEFAULT_QUANTUM_TICKS)
                                      else NO_TASK)
    && (forall k: Sid :: s.sems[k] == NO_SEM)
    && s.current == INIT && s.readyq == [] && s.blockedq == [] && s.pidGlobal == 1000
    && s.semId == USER_SEM_IDS && s.tick == DEFAULT_QUANTUM_TICKS
    && Nodup(s.freeq) && forall t: Tid :: t in s.freeq <==> t >= 2
  }

  lemma BootIsBooted()
    ensures Booted(Boot())
  {
    var s := Boot();
    forall t: Tid | t >= 2 ensures t in s.freeq {
      assert s.freeq[t - 2] == t;
    }
  }

  lemma BootInv()
    ensures Inv(Boot())
  {
    BootIsBooted();
    var s := Boot();
    BootedQueues(s);
    BootedTrees(s);
    BootedRest(s);
  }

  lemma BootedQueues(s: KState)
    requires Booted(s)
    ensures Queues(s) && Pids(s)
  {
  }

  lemma BootedTrees(s: KState)
    requires Booted(s)
    ensures Tree(s) && Waits(s)
  {
  }

  lemma BootedRest(s: KState)
    requires Booted(s)
    ensures Sems(s) && Conts(s) && Wakeups(s) && Quanta(s)
  {
  }

  // ----- each part of the invariant reads only some of the state

  ghost predicate SameTree(s: KState, s': KState) {
    forall t: Tid :: s'.task[t].pid == s.task[t].pid && s'.task[t].fills == s.task[t].fills &&
        s'.task[t].pare == s.task[t].pare
  }

  lemma TreeFrame(s: KState, s': KState)
    requires Tree(s) && SameTree(s, s')
    ensures Tree(s')
  {
  }

  ghost predicate SameWaits(s: KState, s': KState) {
    && (forall t: Tid ::
          && s'.task[t].why == s.task[t].why && s'.task[t].waitList == s.task[t].waitList
          && (s'.task[t].state == Blocked <==> s.task[t].state == Blocked)
          && (s'.task[t].state == Free <==> s.task[t].state == Free))
    && (forall k: Sid :: s'.sems[k].queue == s.sems[k].queue)
  }

  lemma WaitsFrame(s: KState, s': KState)
    requires Waits(s) && SameWaits(s, s')
    ensures Waits(s')
  {
  }

  ghost predicate SameConts(s: KState, s': KState) {
    && (forall t: Tid :: s'.task[t].cont == s.task[t].cont)
    && (forall t: Tid :: s.task[t].cont != User ==> (Alive(s, t) ==> Alive(s', t)) && s'.task[t].state in {Run, Ready})
    && (forall k: Sid :: !s.sems[k].free && s.sems[k].creator == -1 ==> !s'.sems[k].free && s'.sems[k].creator == -1)
  }

  lemma ContsFrame(s: KState, s': KState)
    requires Conts(s) && SameConts(s, s')
    ensures Conts(s')
  {
  }

  ghost predicate SameWakeups(s: KState, s': KState) {
    forall t: Tid ::
      && s'.task[t].delivered == s.task[t].delivered && s'.task[t].completed == s.task[t].completed
      && s'.task[t].pending == s.task[t].pending
      && (s'.task[t].why == OnBlock ==> s.task[t].why == OnBlock)
      && (Alive(s', t) ==> Alive(s, t))
  }

  lemma WakeupsFrame(s: KState, s': KState)
    requires Wakeups(s) && SameWakeups(s, s')
    ensures Wakeups(s')
  {
  }

  ghost predicate SamePid(s: KState, s': KState) {
    forall t: Tid :: s'.task[t].pid == s.task[t].pid
  }

  ghost predicate SamePids(s: KState, s': KState) {
    && (forall t: Tid :: s'.task[t].pid == s.task[t].pid && s'.task[t].quantum == s.task[t].quantum)
    && s'.pidGlobal == s.pidGlobal
  }

  lemma SemsFrame(s: KState, s': KState)
    requires Sems(s) && s'.sems == s.sems && s'.semId == s.semId
    ensures Sems(s')
  {
  }

  lemma QuantaFrame(s: KState, s': KState)
    requires Quanta(s) && SamePids(s, s')
    requires s'.tick == s.tick || 0 <= s'.tick <= DEFAULT_QUANTUM_TICKS
    ensures Quanta(s')
  {
  }

  /** A free PCB stays free and a live task stays live; only a running task can be neither. */
  ghost predicate SameFree(s: KState, s': KState) {
    && s'.current == s.current
    && (forall t: Tid :: s'.task[t].state == Free <==> s.task[t].state == Free)
    && (forall t: Tid :: s.task[t].state == Run ==> s'.task[t].state == Run || Alive(s, t))
  }

  lemma PidsFrame(s: KState, s': KState)
    requires Pids(s) && SamePids(s, s') && SameFree(s, s')
    ensures Pids(s')
  {
  }

  lemma PidsFrameAll(s: KState, s': KState)
    requires Pids(s) && SamePids(s, s')
    requires forall t: Tid :: s.task[t].pid < 0 <==> s'.task[t].state == Free
    ensures Pids(s')
  {
  }

  ghost predicate SameQueues(s: KState, s': KState) {
    && s'.freeq == s.freeq && s'.readyq == s.readyq && s'.blockedq == s.blockedq
    && s'.current == s.current && (forall t: Tid :: s'.task[t].state == s.task[t].state)
  }

  lemma QueuesFrame(s: KState, s': KState)
    requires Queues(s) && SameQueues(s, s')
    ensures Queues(s')
  {
  }

  lemma AliveUnlessFree(s: KState)
    requires Inv(s)
    ensures forall t: Tid :: s.task[t].pid < 0 <==> s.task[t].state == Free
  {
    hide Tree, Waits, Sems, Conts, Wakeups, Quanta;
  }

  lemma CurrentFacts(s: KState)
    requires Inv(s)
    ensures s.task[s.current].why == NotBlocked
    ensures s.current != IDLE ==> s.task[s.current].pid > 0
    ensures s.current !in s.freeq && s.current !in s.readyq && s.current !in s.blockedq
  {
    hide Tree, Sems, Conts, Wakeups, Quanta;
    assert Alive(s, IDLE);
  }
}
