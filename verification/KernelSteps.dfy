/** Every call keeps the invariant, under its guard. */
module KernelSteps {
  import opened Params
  import opened KernelSpec
  import opened KernelInv

  // ----- moving one task between queues

  lemma WithoutFirst(q: seq<Tid>)
    requires Nodup(q) && q != []
    ensures Without(q, q[0]) == q[1..]
  {
    assert q[0] !in q[1..];
  }

  lemma NodupAppend(q: seq<Tid>, t: Tid)
    requires Nodup(q) && t !in q
    ensures Nodup(q + [t])
  {
  }

  /** update_process_state_rr on a running task: it is on no queue. */
  lemma LeaveProcessor(s: KState, t: Tid, dest: Dest)
    requires s.task[t].state == Run && Alive(s, t) && dest.ToReady? && s.task[t].why == NotBlocked
    ensures UpdateState(s, t, dest)
            == SetTask(s, t, s.task[t].(state := Ready)).(readyq := if s.task[t].pid != 0
                then s.readyq + [t] else s.readyq)
  {
  }

  /** update_process_state_rr on the chosen task: it leaves the ready queue for the processor. */
  lemma TakeProcessor(s: KState, t: Tid)
    requires Alive(s, t) && s.task[t].why == NotBlocked && s.task[t].state in {Ready, Run}
    requires if s.task[t].pid == 0 then true
             else s.task[t].state == Ready && Nodup(s.readyq) && s.readyq != [] && t == s.readyq[0]
                  && t !in s.freeq && t !in s.blockedq
    ensures UpdateState(s, t, ToNull)
            == SetTask(s, t, s.task[t].(state := Run)).(readyq := if s.task[t].pid == 0
                then s.readyq else s.readyq[1..])
  {
    if s.task[t].pid != 0 {
      WithoutFirst(s.readyq);
    }
  }

  // ----- dispatch

  /** sched_next_rr takes the first ready task, or idle, and puts a running task at the back. */
  ghost predicate Dispatched(s: KState, s': KState) {
    var nt, cur := Next(s), s.current;
    var ran := s.task[cur].state == Run;
    && s'.current == nt && s'.tick == s.task[nt].quantum
    && s'.readyq == (if s.readyq == [] then [] else s.readyq[1..]) + (if ran && cur != IDLE then [cur] else [])
    && s'.freeq == s.freeq && s'.blockedq == s.blockedq && s'.sems == s.sems
    && s'.pidGlobal == s.pidGlobal && s'.semId == s.semId
    && (forall t: Tid :: s'.task[t] == s.task[t].(state := if t == nt then Run
                                                           else if t == cur && ran then Ready
                                                           else s.task[t].state))
  }

  lemma NextFacts(s: KState)
    requires Queues(s) && Pids(s) && Waits(s)
    requires s.task[s.current].state == Run ==> Alive(s, s.current)
    ensures var nt, cur := Next(s), s.current;
            && Alive(s, nt) && s.task[nt].why == NotBlocked
            && (nt == IDLE <==> s.readyq == []) && (s.task[nt].pid == 0 <==> nt == IDLE)
            && (nt != IDLE ==> s.task[nt].state == Ready && nt !in s.freeq && nt !in s.blockedq && nt != cur)
            && s.task[nt].state in {Ready, Run}
            && (s.task[cur].state == Run ==> s.task[cur].why == NotBlocked && cur !in s.readyq)
            && (s.task[cur].pid == 0 <==> cur == IDLE)
            && (cur != nt ==> s.task[cur].pid != s.task[nt].pid)
  {
    assert Alive(s, IDLE);
    if s.readyq != [] {
      assert Next(s) in s.readyq;
    }
    if s.task[s.current].pid == 0 {
      assert Alive(s, s.current);
    }
    if s.current != Next(s) && Alive(s, s.current) {
      assert Alive(s, Next(s));
    }
  }

  lemma DispatchEffect(s: KState)
    requires Queues(s) && Pids(s) && Waits(s)
    requires s.task[s.current].state == Run ==> Alive(s, s.current)
    ensures Dispatched(s, SchedNext(s))
  {
    NextFacts(s);
    QueuesNodup(s);
    hide Queues, Pids, Waits, Nodup, Dispatched, SchedNext, Next;
    if s.task[s.current].state == Run {
      DispatchFromRun(s);
    } else {
      DispatchFromElse(s);
    }
  }

  lemma DispatchFromElse(s: KState)
    requires var nt, cur := Next(s), s.current;
             && Alive(s, nt) && s.task[nt].why == NotBlocked && Nodup(s.readyq)
             && (nt == IDLE <==> s.readyq == []) && (s.task[nt].pid == 0 <==> nt == IDLE)
             && (nt != IDLE ==> s.task[nt].state == Ready && nt !in s.freeq && nt !in s.blockedq)
             && s.task[nt].state in {Ready, Run} && s.task[cur].state != Run
             && (cur != nt ==> s.task[cur].pid != s.task[nt].pid)
    ensures Dispatched(s, SchedNext(s))
  {
    TakeProcessor(s, Next(s));
    hide UpdateState, Nodup;
  }

  lemma QueuesNodup(s: KState)
    requires Queues(s)
    ensures Nodup(s.freeq) && Nodup(s.readyq) && Nodup(s.blockedq)
  {
  }

  lemma DispatchFromRun(s: KState)
    requires var nt, cur := Next(s), s.current;
             && Alive(s, nt) && s.task[nt].why == NotBlocked && Nodup(s.readyq)
             && (nt == IDLE <==> s.readyq == []) && (s.task[nt].pid == 0 <==> nt == IDLE)
             && (nt != IDLE ==> s.task[nt].state == Ready && nt !in s.freeq && nt !in s.blockedq && nt != cur)
             && s.task[nt].state in {Ready, Run}
             && s.task[cur].state == Run && Alive(s, cur) && s.task[cur].why == NotBlocked && cur !in s.readyq
             && (s.task[cur].pid == 0 <==> cur == IDLE)
             && (cur != nt ==> s.task[cur].pid != s.task[nt].pid)
    ensures Dispatched(s, SchedNext(s))
  {
    var nt, cur := Next(s), s.current;
    LeaveProcessor(s, cur, ToReady);
    var s1 := UpdateState(s, cur, ToReady);
    NodupAppend(s.readyq, cur);
    hide UpdateState, Nodup;
    TakeProcessor(s1, nt);
    if nt != IDLE {
      assert (s.readyq + [cur])[1..] == s.readyq[1..] + [cur];
    }
  }

  lemma DispatchedQueues(s: KState, s': KState)
    requires Queues(s) && Dispatched(s, s')
    ensures Queues(s') && s'.task[s'.current].state == Run
  {
    var nt, cur := Next(s), s.current;
    if s.readyq != [] {
      assert s.readyq == [nt] + s.readyq[1..];
      assert nt in s.readyq && nt !in s.readyq[1..];
      assert Nodup(s.readyq[1..]);
    }
  }

  lemma DispatchedFrames(s: KState, s': KState)
    requires Tree(s) && Waits(s) && Sems(s) && Conts(s) && Wakeups(s) && Dispatched(s, s')
    requires Queues(s) && Queues(s')
    ensures Tree(s') && Waits(s') && Sems(s') && Conts(s') && Wakeups(s')
  {
    assert s.readyq != [] ==> Next(s) in s.readyq;
    hide Tree, Waits, Sems, Wakeups;
    TreeFrame(s, s');
    WaitsFrame(s, s');
    SemsFrame(s, s');
    ContsFrame(s, s');
    WakeupsFrame(s, s');
  }

  lemma DispatchedPids(s: KState, s': KState)
    requires Pids(s) && Quanta(s) && Dispatched(s, s') && Queues(s)
    requires s.task[s.current].state == Run ==> Alive(s, s.current)
    ensures Pids(s') && Quanta(s') && Alive(s', s'.current)
  {
    assert s.readyq != [] ==> Next(s) in s.readyq;
    PidsFrameAll(s, s');
    QuantaFrame(s, s');
  }

  /** Whatever left the processor, after sched_next_rr the invariant holds in full. */
  lemma SchedKeeps(s: KState)
    requires Steady(s) && (s.task[s.current].state == Run ==> Alive(s, s.current))
    ensures Inv(SchedNext(s)) && Dispatched(s, SchedNext(s))
  {
    DispatchEffect(s);
    hide Queues, Pids, Tree, Waits, Sems, Conts, Wakeups, Quanta, Dispatched, SchedNext;
    var s' := SchedNext(s);
    DispatchedQueues(s, s');
    DispatchedFrames(s, s');
    DispatchedPids(s, s');
  }

  // ----- how a call turns the ready queue

  /** A call that dispatched: behind the ready tasks came those it woke; the first of all of them runs,
      the others move up one place, and the old current task goes last if it can still run. */
  ghost predicate Rotated(s: KState, s': KState, woken: seq<Tid>) {
    var m := s.readyq + woken;
    && s'.current == (if m == [] then IDLE else m[0])
    && s'.readyq == (if m == [] then [] else m[1..])
                    + (if s'.task[s.current].state == Ready && s.current != IDLE then [s.current] else [])
  }

  /** A call that did not dispatch: the same task runs, and new ready tasks only queue up behind. */
  ghost predicate Stayed(s: KState, s': KState, added: seq<Tid>) {
    s'.current == s.current && s'.readyq == s.readyq + added && s'.tick <= s.tick
  }

  lemma Rotate(s: KState, s1: KState, woken: seq<Tid>)
    requires Queues(s1) && Dispatched(s1, SchedNext(s1))
    requires s1.current == s.current && s1.readyq == s.readyq + woken
    ensures Rotated(s, SchedNext(s1), woken)
  {
    hide SchedNext;
    if s1.readyq != [] {
      assert s1.readyq[0] in s1.readyq;
    }
  }

  predicate SemFound(s: KState, id: int) {
    USER_SEM_IDS <= id && FindSem(s.sems, id) < NUM_SEMS && !s.sems[FindSem(s.sems, id)].free
  }

  /** Whether a call, made from `s`, hands the processor over. */
  predicate Dispatches(s: KState, c: Call) {
    match c
    case CTick => s.tick <= 1
    case CFork(_) => false
    case CThread(_) => false
    case CExit => true
    case CBlock => s.task[s.current].pending <= 0
    case CUnblock(_) => true
    case CWait(pid) => FindPid(s.task, pid) < NR_TASKS
    case CSemCreate(_) => false
    case CSemWait(id) => SemFound(s, id) && s.sems[FindSem(s.sems, id)].value <= 0
    case CSemSignal(id) => SemFound(s, id) && s.sems[FindSem(s.sems, id)].value < 0
    case CSemDestroy(id) =>
      SemFound(s, id) && s.task[s.current].pid == s.sems[FindSem(s.sems, id)].creator
      && s.sems[FindSem(s.sems, id)].queue != []
    case CResume =>
      var cont := s.task[s.current].cont;
      cont.Exiting? || (cont.Destroying? && s.sems[cont.k].queue != [])
  }

  /** What a call does to the ready queue. */
  ghost predicate Turned(s: KState, c: Call, s': KState) {
    exists w :: if Dispatches(s, c) then Rotated(s, s', w) else Stayed(s, s', w)
  }

  lemma TurnedBy(s: KState, c: Call, s': KState, w: seq<Tid>)
    requires if Dispatches(s, c) then Rotated(s, s', w) else Stayed(s, s', w)
    ensures Turned(s, c, s')
  {
  }

  lemma TurnedNot(s: KState, c: Call, s': KState)
    requires !Dispatches(s, c) && s'.current == s.current && s'.readyq == s.readyq && s'.tick <= s.tick
    ensures Turned(s, c, s')
  {
    assert s.readyq + [] == s.readyq;
    assert Stayed(s, s', []);
  }

  lemma TurnedPlain(s: KState, c: Call, s1: KState)
    requires Dispatches(s, c) && Queues(s1) && Dispatched(s1, SchedNext(s1))
    requires s1.current == s.current && s1.readyq == s.readyq
    ensures Turned(s, c, SchedNext(s1))
  {
    assert s.readyq + [] == s.readyq;
    Rotate(s, s1, []);
  }

  lemma TurnedWaking(s: KState, c: Call, s1: KState, woken: seq<Tid>)
    requires Dispatches(s, c) && Queues(s1) && Dispatched(s1, SchedNext(s1))
    requires s1.current == s.current && s1.readyq == s.readyq + woken
    ensures Turned(s, c, SchedNext(s1))
  {
    Rotate(s, s1, woken);
  }

  // ----- relations between the states of a step, and what each keeps

  /** Tasks changed in state, reason to wait and waiting list only; the semaphores may have changed
      their queues and values, not their ownership. */
  ghost predicate Moved(s: KState, s': KState) {
    && (forall t: Tid ::
          s'.task[t] == s.task[t].(state := s'.task[t].state, why := s'.task[t].why, waitList := s'.task[t].waitList))
    && SameFree(s, s') && s'.pidGlobal == s.pidGlobal && s'.tick == s.tick
  }

  lemma MovedTree(s: KState, s': KState)
    requires Tree(s) && Moved(s, s')
    ensures Tree(s')
  {
    hide Tree, SameFree;
    TreeFrame(s, s');
  }

  lemma MovedPids(s: KState, s': KState)
    requires Pids(s) && Quanta(s) && Moved(s, s')
    ensures Pids(s') && Quanta(s')
  {
    hide Pids, Quanta, SameFree;
    PidsFrame(s, s');
    QuantaFrame(s, s');
  }

  /** Only the block and unblock counters of tasks changed. */
  ghost predicate Counted(s: KState, s': KState) {
    && (forall t: Tid :: s'.task[t] == s.task[t].(pending := s'.task[t].pending, delivered := s'.task[t].delivered,
                                                  completed := s'.task[t].completed))
    && s' == s.(task := s'.task)
  }

  lemma CountedKeeps(s: KState, s': KState)
    requires Steady(s) && Counted(s, s') && Wakeups(s')
    ensures Steady(s')
  {
    hide Queues, Pids, Tree, Waits, Sems, Conts, Wakeups, Quanta;
    CountedSame(s, s');
    QueuesFrame(s, s');
    TreeFrame(s, s');
    WaitsFrame(s, s');
    SemsFrame(s, s');
    CountedConts(s, s');
    PidsFrame(s, s');
    QuantaFrame(s, s');
  }

  lemma CountedSame(s: KState, s': KState)
    requires Counted(s, s')
    ensures SameQueues(s, s') && SameTree(s, s') && SameWaits(s, s') && SamePids(s, s') && SameFree(s, s')
    ensures s'.sems == s.sems && s'.semId == s.semId && s'.tick == s.tick
  {
  }

  lemma CountedConts(s: KState, s': KState)
    requires Conts(s) && Counted(s, s')
    ensures Conts(s')
  {
  }

  // ----- the current task falls asleep

  ghost predicate Slept(s: KState, s': KState, why: Why) {
    s' == SetTask(s, s.current, s.task[s.current].(state := Blocked, why := why)).(blockedq := s.blockedq + [s.current])
  }

  lemma SleepEffect(s: KState, why: Why)
    requires s.task[s.current].state == Run && s.task[s.current].pid > 0
    ensures Slept(s, UpdateState(s, s.current, ToBlocked(why)), why)
  {
  }

  lemma SleptQueues(s: KState, s': KState, why: Why)
    requires Queues(s) && Slept(s, s', why) && s.task[s.current].state == Run && s.current != IDLE
    ensures Queues(s')
  {
  }

  lemma SleptMoved(s: KState, s': KState, why: Why)
    requires Slept(s, s', why) && s.task[s.current].state == Run && Alive(s, s.current)
    ensures Moved(s, s')
  {
  }

  lemma BlockKeeps(s: KState)
    requires Inv(s) && s.current != IDLE && s.task[s.current].cont == User
    ensures Inv(Block(s))
    ensures Turned(s, CBlock, Block(s))
  {
    hide Turned, Dispatched;
    hide Queues, Pids, Tree, Waits, Sems, Conts, Quanta, SchedNext, UpdateState;
    CurrentFacts(s);
    var ct := s.task[s.current];
    if ct.pending <= 0 {
      var s1 := UpdateState(s, s.current, ToBlocked(OnBlock));
      SleepEffect(s, OnBlock);
      BlockedSteady(s, s1);
      SchedKeeps(s1);
      TurnedPlain(s, CBlock, s1);
    } else {
      TurnedNot(s, CBlock, Block(s));
      CountedKeeps(s, Block(s));
    }
  }

  lemma BlockedSteady(s: KState, s1: KState)
    requires Inv(s) && s.current != IDLE && s.task[s.current].cont == User && s.task[s.current].pending <= 0
    requires Slept(s, s1, OnBlock)
    ensures Steady(s1) && s1.task[s1.current].state != Run
  {
    hide Queues, Pids, Tree, Waits, Sems, Conts, Wakeups, Quanta, Moved;
    SleptQueues(s, s1, OnBlock);
    SleptMoved(s, s1, OnBlock);
    MovedTree(s, s1);
    MovedPids(s, s1);
    BlockedConts(s, s1);
    BlockedWaits(s, s1);
    SemsFrame(s, s1);
  }

  lemma BlockedConts(s: KState, s1: KState)
    requires Conts(s) && Slept(s, s1, OnBlock) && s.task[s.current].cont == User
    ensures Conts(s1)
  {
  }

  lemma BlockedWaits(s: KState, s1: KState)
    requires Waits(s) && Wakeups(s) && Slept(s, s1, OnBlock) && s.task[s.current].state == Run && Alive(s, s.current)
    requires s.task[s.current].pending <= 0
    ensures Waits(s1) && Wakeups(s1)
  {
  }

  // ----- semaphores: create, wait, signal

  /** Only semaphores changed, and none its queue. */
  ghost predicate SemsOnly(s: KState, s': KState) {
    && s' == s.(sems := s'.sems, semId := s'.semId)
    && (forall k: Sid :: s'.sems[k].queue == s.sems[k].queue)
    && (forall k: Sid :: !s.sems[k].free && s.sems[k].creator == -1 ==> !s'.sems[k].free && s'.sems[k].creator == -1)
  }

  lemma SemsOnlyKeeps(s: KState, s': KState)
    requires Inv(s) && SemsOnly(s, s') && Sems(s')
    ensures Inv(s')
  {
    hide Queues, Pids, Tree, Waits, Sems, Conts, Wakeups, Quanta;
    SemsOnlySame(s, s');
    QueuesFrame(s, s');
    TreeFrame(s, s');
    WaitsFrame(s, s');
    SemsOnlyConts(s, s');
    WakeupsFrame(s, s');
    PidsFrame(s, s');
    QuantaFrame(s, s');
  }

  lemma SemsOnlySame(s: KState, s': KState)
    requires SemsOnly(s, s')
    ensures SameQueues(s, s') && SameTree(s, s') && SameWaits(s, s') && SamePids(s, s') && SameFree(s, s')
    ensures SameWakeups(s, s') && s'.tick == s.tick && s'.task == s.task && s'.current == s.current
  {
  }

  lemma SemsOnlyConts(s: KState, s': KState)
    requires Conts(s) && SemsOnly(s, s')
    ensures Conts(s')
  {
  }

  lemma SemCreateSems(s: KState, v: int)
    requires Sems(s) && s.task[s.current].pid >= 0 && FindFree(s.sems) < NUM_SEMS
    ensures 0 <= v ==> Sems(SemCreate(s, v))
    ensures SemsOnly(s, SemCreate(s, v))
  {
    var k: Sid := FindFree(s.sems);
    assert s.sems[k].free;
  }

  lemma NegativeSem(s: KState, v: int)
    requires s.task[s.current].pid >= 0 && FindFree(s.sems) < NUM_SEMS && v < 0
    ensures !Sems(SemCreate(s, v))
  {
    var k: Sid := FindFree(s.sems);
    var x := SemCreate(s, v).sems[k];
    assert !x.free && x.creator != -1 && !Healthy(x);
  }

  /** semCreate keeps the invariant exactly for the initial values that are not negative. */
  lemma SemCreateIff(s: KState, v: int)
    requires Inv(s)
    ensures Inv(SemCreate(s, v)) <==> 0 <= v || FindFree(s.sems) == NUM_SEMS
    ensures Turned(s, CSemCreate(v), SemCreate(s, v))
  {
    SemCreateQueues(s, v);
    TurnedNot(s, CSemCreate(v), SemCreate(s, v));
    hide Queues, Pids, Tree, Waits, Sems, Conts, Wakeups, Quanta, SemCreate, SemsOnly, Turned;
    if FindFree(s.sems) == NUM_SEMS {
      SemCreateFull(s, v);
    } else {
      if 0 <= v {
        SemCreateSems(s, v);
        SemsOnlyKeeps(s, SemCreate(s, v));
      } else {
        NegativeSem(s, v);
      }
    }
  }

  lemma SemCreateQueues(s: KState, v: int)
    ensures SemCreate(s, v).current == s.current && SemCreate(s, v).readyq == s.readyq && SemCreate(s, v).tick == s.tick
  {
  }

  lemma SemCreateFull(s: KState, v: int)
    requires FindFree(s.sems) == NUM_SEMS
    ensures SemCreate(s, v) == s
  {
  }

  lemma SemWaitKeeps(s: KState, id: int)
    requires Inv(s) && s.current != IDLE && s.task[s.current].cont == User
    ensures Inv(SemWait(s, id))
    ensures Turned(s, CSemWait(id), SemWait(s, id))
  {
    hide Turned, Dispatched;
    hide Queues, Pids, Tree, Waits, Sems, Conts, Wakeups, Quanta, SchedNext, UpdateState;
    if SemFound(s, id) {
      var k: Sid := FindSem(s.sems, id);
      if s.sems[k].value > 0 {
        PaidWaitSems(s, SemWait(s, id), k);
        SemsOnlyKeeps(s, SemWait(s, id));
        TurnedNot(s, CSemWait(id), SemWait(s, id));
      } else {
        CurrentFacts(s);
        var x := s.sems[k].(value := s.sems[k].value - 1, waits := s.sems[k].waits + 1,
                            queue := s.sems[k].queue + [s.current], arrived := s.sems[k].arrived + [s.current]);
        var s0 := SetSem(s, k, x);
        var s1 := UpdateState(s0, s.current, ToBlocked(OnSem(k)));
        SleepEffect(s0, OnSem(k));
        QueuedSteady(s, s0, s1, k);
        SchedKeeps(s1);
        TurnedPlain(s, CSemWait(id), s1);
      }
    } else {
      TurnedNot(s, CSemWait(id), SemWait(s, id));
    }
  }

  lemma PaidWaitSems(s: KState, s': KState, k: Sid)
    requires Sems(s) && !s.sems[k].free && s.sems[k].value > 0
    requires s' == SetSem(s, k, s.sems[k].(value := s.sems[k].value - 1, waits := s.sems[k].waits + 1))
    ensures Sems(s') && SemsOnly(s, s')
  {
  }

  ghost predicate Enqueued(s: KState, s0: KState, k: Sid) {
    s0 == SetSem(s, k, s.sems[k].(value := s.sems[k].value - 1, waits := s.sems[k].waits + 1,
                                  queue := s.sems[k].queue + [s.current], arrived := s.sems[k].arrived + [s.current]))
  }

  lemma QueuedSteady(s: KState, s0: KState, s1: KState, k: Sid)
    requires Inv(s) && s.current != IDLE && s.task[s.current].cont == User
    requires !s.sems[k].free && s.sems[k].value <= 0 && Enqueued(s, s0, k) && Slept(s0, s1, OnSem(k))
    ensures Steady(s1) && s1.task[s1.current].state != Run
  {
    hide Queues, Pids, Tree, Waits, Sems, Conts, Wakeups, Quanta, Moved, SameQueues;
    QueuedSame(s, s0, s1, k);
    QueuesFrame(s, s0);
    SleptQueues(s0, s1, OnSem(k));
    MovedTree(s, s1);
    MovedPids(s, s1);
    QueuedConts(s, s0, s1, k);
    QueuedWaits(s, s0, s1, k);
    QueuedSems(s, s0, s1, k);
    WakeupsFrame(s, s1);
  }

  lemma QueuedSame(s: KState, s0: KState, s1: KState, k: Sid)
    requires Enqueued(s, s0, k) && Slept(s0, s1, OnSem(k)) && s.task[s.current].state == Run && Alive(s, s.current)
    ensures SameQueues(s, s0) && Moved(s, s1) && SameWakeups(s, s1)
  {
  }

  lemma QueuedConts(s: KState, s0: KState, s1: KState, k: Sid)
    requires Conts(s) && Enqueued(s, s0, k) && Slept(s0, s1, OnSem(k)) && s.task[s.current].cont == User
    ensures Conts(s1)
  {
  }

  lemma QueuedWaits(s: KState, s0: KState, s1: KState, k: Sid)
    requires Waits(s) && Enqueued(s, s0, k) && Slept(s0, s1, OnSem(k)) && s.task[s.current].state == Run
    ensures Waits(s1)
  {
  }

  lemma QueuedSems(s: KState, s0: KState, s1: KState, k: Sid)
    requires Sems(s) && Enqueued(s, s0, k) && Slept(s0, s1, OnSem(k))
    requires !s.sems[k].free && s.sems[k].value <= 0
    ensures Sems(s1)
  {
    var x, y := s.sems[k], s1.sems[k];
    assert y.queue == y.arrived[y.served..];
  }

  // ----- waking a blocked task

  ghost predicate Woken(s: KState, s': KState, t: Tid) {
    s' == SetTask(s, t, s.task[t].(state := Ready, why := NotBlocked))
          .(blockedq := Without(s.blockedq, t), readyq := s.readyq + [t])
  }

  lemma WakeEffect(s: KState, t: Tid)
    requires Queues(s) && s.task[t].state == Blocked && s.task[t].pid > 0
    ensures Woken(s, UpdateState(s, t, ToReady), t)
  {
    assert Without(s.freeq, t) == s.freeq && Without(s.readyq, t) == s.readyq;
  }

  lemma WokenQueues(s: KState, s': KState, t: Tid)
    requires Queues(s) && Woken(s, s', t) && s.task[t].state == Blocked && t != s.current
    ensures Queues(s')
  {
  }

  lemma WokenMoved(s: KState, s': KState, t: Tid)
    requires Woken(s, s', t) && s.task[t].state == Blocked && Alive(s, t)
    ensures Moved(s, s') && SameWakeups(s, s')
  {
  }

  lemma BlockedAlive(s: KState, t: Tid)
    requires Queues(s) && Pids(s) && s.task[t].state == Blocked
    ensures s.task[t].pid > 0 && t != IDLE
  {
    assert Alive(s, IDLE);
    assert Alive(s, t);
  }

  /** The semaphore `y` is `x` without its first waiter, whatever became of its value. */
  ghost predicate Shortened(x: Sem, y: Sem) {
    && x.queue != [] && y.queue == x.queue[1..] && y.arrived == x.arrived && y.served == x.served + 1
    && y.id == x.id && y.free == x.free
  }

  lemma PopCore(s: KState, s0: KState, s1: KState, k: Sid, t: Tid)
    requires Core(s) && s0 == SetSem(s, k, s0.sems[k]) && Shortened(s.sems[k], s0.sems[k]) && t == s.sems[k].queue[0]
    requires !s.sems[k].free && (s0.sems[k].creator != -1 ==> Healthy(s0.sems[k])) && t != s.current
    requires s1 == UpdateState(s0, t, ToReady)
    ensures Core(s1) && Moved(s, s1) && s1.sems == s0.sems && s.task[t].state == Blocked
    ensures s1.task == s.task[t := s.task[t].(state := Ready, why := NotBlocked)]
    ensures s1.readyq == s.readyq + [t]
  {
    hide Queues, Pids, Tree, Waits, Sems, Wakeups, Quanta, Moved, SameQueues, UpdateState;
    PopBlocked(s, k);
    BlockedAlive(s, t);
    SetSemSame(s, s0, k);
    QueuesFrame(s, s0);
    WakeEffect(s0, t);
    WokenQueues(s0, s1, t);
    WokenMoved(s0, s1, t);
    PopMoved(s, s0, s1, k);
    MovedTree(s, s1);
    MovedPids(s, s1);
    PopWaits(s, s0, s1, k);
    PopSems(s, s0, s1, k);
    WakeupsFrame(s, s1);
  }

  lemma PopBlocked(s: KState, k: Sid)
    requires Waits(s) && s.sems[k].queue != []
    ensures s.task[s.sems[k].queue[0]].state == Blocked
  {
    assert s.sems[k].queue[0] in s.sems[k].queue;
  }

  lemma SetSemSame(s: KState, s0: KState, k: Sid)
    requires s0 == SetSem(s, k, s0.sems[k])
    ensures SameQueues(s, s0)
  {
  }

  lemma PopMoved(s: KState, s0: KState, s1: KState, k: Sid)
    requires s0 == SetSem(s, k, s0.sems[k]) && Moved(s0, s1) && SameWakeups(s0, s1)
    ensures Moved(s, s1) && SameWakeups(s, s1)
  {
    hide Sized;
  }

  lemma PopWaits(s: KState, s0: KState, s1: KState, k: Sid)
    requires Waits(s) && s0 == SetSem(s, k, s0.sems[k]) && Shortened(s.sems[k], s0.sems[k])
    requires Woken(s0, s1, s.sems[k].queue[0])
    ensures Waits(s1)
  {
    var q := s.sems[k].queue;
    assert q == [q[0]] + q[1..];
    assert q[0] in q && q[0] !in q[1..];
    assert Nodup(q[1..]);
  }

  lemma PopSems(s: KState, s0: KState, s1: KState, k: Sid)
    requires Sems(s) && s0 == SetSem(s, k, s0.sems[k]) && Shortened(s.sems[k], s0.sems[k]) && !s.sems[k].free
    requires s0.sems[k].creator != -1 ==> Healthy(s0.sems[k])
    requires s1.sems == s0.sems && s1.semId == s.semId
    ensures Sems(s1)
  {
    var x, y := s.sems[k], s0.sems[k];
    assert y.queue == y.arrived[y.served..];
  }

  /** semSignal follows a pointer into an empty ring exactly when it must wake somebody and nobody
      waits; otherwise it keeps the invariant. */
  predicate SignalFaults(s: KState, id: int) {
    SemFound(s, id) && s.sems[FindSem(s.sems, id)].value < 0 && s.sems[FindSem(s.sems, id)].queue == []
  }

  lemma SemSignalIff(s: KState, id: int)
    requires Inv(s) && s.current != IDLE && s.task[s.current].cont == User
    ensures SemSignal(s, id) == Fault <==> SignalFaults(s, id)
    ensures !SignalFaults(s, id) ==> Inv(SemSignal(s, id).s)
    ensures !SignalFaults(s, id) ==> Turned(s, CSemSignal(id), SemSignal(s, id).s)
  {
    hide Turned, Dispatched;
    hide Queues, Pids, Tree, Waits, Sems, Conts, Wakeups, Quanta, SchedNext, UpdateState;
    if SemFound(s, id) && !SignalFaults(s, id) {
      var k: Sid := FindSem(s.sems, id);
      var x := s.sems[k].(value := s.sems[k].value + 1, signals := s.sems[k].signals + 1);
      if s.sems[k].value >= 0 {
        PaidSignalSems(s, SemSignal(s, id).s, k);
        SemsOnlyKeeps(s, SemSignal(s, id).s);
        TurnedNot(s, CSemSignal(id), SemSignal(s, id).s);
      } else {
        var t := x.queue[0];
        var s0 := SetSem(s, k, x.(queue := x.queue[1..], served := x.served + 1));
        CurrentFacts(s);
        SignalledHealthy(s, k);
        PopBlocked(s, k);
        PopCore(s, s0, Pop(s, k, x), k, t);
        PopConts(s, Pop(s, k, x), k, t);
        SchedKeeps(Pop(s, k, x));
        TurnedWaking(s, CSemSignal(id), Pop(s, k, x), [t]);
      }
    } else if !SignalFaults(s, id) {
      TurnedNot(s, CSemSignal(id), SemSignal(s, id).s);
    }
  }

  lemma PaidSignalSems(s: KState, s': KState, k: Sid)
    requires Sems(s) && !s.sems[k].free && s.sems[k].value >= 0
    requires s' == SetSem(s, k, s.sems[k].(value := s.sems[k].value + 1, signals := s.sems[k].signals + 1))
    ensures Sems(s') && SemsOnly(s, s')
  {
  }

  lemma SignalledHealthy(s: KState, k: Sid)
    requires Sems(s) && !s.sems[k].free && s.sems[k].value < 0 && s.sems[k].queue != []
    ensures var x := s.sems[k];
            x.creator != -1 ==> Healthy(x.(value := x.value + 1, signals := x.signals + 1, queue := x.queue[1..],
                served := x.served + 1))
  {
  }

  lemma PopConts(s: KState, s1: KState, k: Sid, t: Tid)
    requires Conts(s) && s1.task == s.task[t := s.task[t].(state := Ready, why := NotBlocked)] &&
             s.task[t].state == Blocked
    requires forall l: Sid :: s1.sems[l].free == s.sems[l].free && s1.sems[l].creator == s.sems[l].creator
    ensures Conts(s1)
  {
  }

  /** Only a semaphore that is being destroyed can make a signal fault. */
  lemma HealthySignalsNeverFault(s: KState, id: int)
    requires Inv(s) && SignalFaults(s, id)
    ensures s.sems[FindSem(s.sems, id)].creator == -1
  {
    hide Queues, Pids, Tree, Waits, Conts, Wakeups, Quanta;
  }

  // ----- destroying semaphores

  lemma SetContCore(s: KState, c: Cont)
    requires Core(s)
    ensures Core(SetCont(s, c))
  {
    hide Queues, Pids, Tree, Waits, Sems, Wakeups, Quanta;
    var s' := SetCont(s, c);
    SetContSame(s, c);
    QueuesFrame(s, s');
    TreeFrame(s, s');
    WaitsFrame(s, s');
    SemsFrame(s, s');
    WakeupsFrame(s, s');
    PidsFrame(s, s');
    QuantaFrame(s, s');
  }

  lemma SetContSame(s: KState, c: Cont)
    ensures var s' := SetCont(s, c);
            SameQueues(s, s') && SameTree(s, s') && SameWaits(s, s') && SamePids(s, s') && SameFree(s, s') &&
                SameWakeups(s, s')
  {
  }

  /** The current task may drain semaphore `k`: it is doing so already, or nobody is. */
  ghost predicate MayDrain(s: KState, k: Sid) {
    && s.current != IDLE && !s.sems[k].free
    && (if s.task[s.current].cont == User then s.sems[k].creator != -1 else s.task[s.current].cont.k == k)
  }

  lemma UpdateKeepsConts(s: KState, t: Tid, dest: Dest)
    ensures forall u: Tid :: UpdateState(s, t, dest).task[u].cont == s.task[u].cont
  {
  }

  lemma DrainKeepsConts(s: KState, k: Sid, c: Cont)
    requires s.sems[k].queue != []
    ensures DrainOne(s, k, c).task[s.current].cont == c
  {
    hide UpdateState;
    var x := s.sems[k].(creator := -1);
    var sc := SetCont(s, c);
    var s0 := SetSem(sc, k, x.(queue := x.queue[1..], served := x.served + 1));
    UpdateKeepsConts(s0, x.queue[0], ToReady);
    var s1 := Pop(sc, k, x);
    UpdateKeepsConts(s1, s1.current, ToReady);
    UpdateKeepsConts(s1, Next(s1), ToNull);
    var s2 := if s1.task[s1.current].state == Run then UpdateState(s1, s1.current, ToReady) else s1;
    UpdateKeepsConts(s2, Next(s1), ToNull);
  }

  lemma DrainOneKeeps(s: KState, k: Sid, c: Cont)
    requires Inv(s) && MayDrain(s, k) && s.sems[k].queue != []
    requires c == Destroying(k) || (c == Exiting(k) && s.current != INIT)
    ensures Inv(DrainOne(s, k, c))
    ensures Rotated(s, DrainOne(s, k, c), [s.sems[k].queue[0]])
  {
    hide Rotated, Dispatched;
    hide Queues, Pids, Tree, Waits, Sems, Conts, Wakeups, Quanta, SchedNext, UpdateState;
    CurrentFacts(s);
    SetContCore(s, c);
    PopBlocked(s, k);
    var sc := SetCont(s, c);
    var x := s.sems[k].(creator := -1);
    var t := x.queue[0];
    var s0 := SetSem(sc, k, x.(queue := x.queue[1..], served := x.served + 1));
    PopCore(sc, s0, Pop(sc, k, x), k, t);
    DrainConts(s, Pop(sc, k, x), k, c, t);
    SchedKeeps(Pop(sc, k, x));
    Rotate(s, Pop(sc, k, x), [t]);
  }

  lemma DrainConts(s: KState, s1: KState, k: Sid, c: Cont, t: Tid)
    requires Conts(s) && MayDrain(s, k) && s.task[s.current].state == Run && Alive(s, s.current) &&
             s.task[t].state == Blocked
    requires c == Destroying(k) || (c == Exiting(k) && s.current != INIT)
    requires s1.task == s.task[s.current := s.task[s.current].(cont := c)][t := s.task[t].(state := Ready,
             why := NotBlocked)]
    requires s1.sems[k].creator == -1 && !s1.sems[k].free
    requires forall l: Sid :: l != k ==> s1.sems[l].free == s.sems[l].free && s1.sems[l].creator == s.sems[l].creator
    ensures Conts(s1)
  {
  }

  lemma RetireKeeps(s: KState, k: Sid)
    requires Inv(s) && MayDrain(s, k) && s.sems[k].queue == []
    ensures Inv(Retire(s, k)) && Retire(s, k).task[s.current].cont == User
    ensures Retire(s, k).current == s.current && Retire(s, k).readyq == s.readyq && Retire(s, k).tick == s.tick
  {
    hide Queues, Pids, Tree, Waits, Sems, Wakeups, Quanta;
    RetireConts(s, k);
    hide Conts, MayDrain;
    SetContCore(s, User);
    var sc := SetCont(s, User);
    var s' := Retire(s, k);
    RetireSems(sc, s', k);
    RetireSame(sc, s', k);
    QueuesFrame(sc, s');
    TreeFrame(sc, s');
    WaitsFrame(sc, s');
    WakeupsFrame(sc, s');
    PidsFrame(sc, s');
    QuantaFrame(sc, s');
  }

  lemma RetireSems(s: KState, s': KState, k: Sid)
    requires Sems(s) && s.sems[k].queue == [] && s' == SetSem(s, k, s.sems[k].(free := true)) && !s.sems[k].free
    ensures Sems(s')
  {
  }

  lemma RetireSame(s: KState, s': KState, k: Sid)
    requires s' == SetSem(s, k, s.sems[k].(free := true))
    ensures SameQueues(s, s') && SameTree(s, s') && SameWaits(s, s') && SamePids(s, s') && SameFree(s, s') &&
            SameWakeups(s, s')
    ensures s'.tick == s.tick
  {
  }

  lemma RetireConts(s: KState, k: Sid)
    requires Conts(s) && MayDrain(s, k)
    ensures Conts(Retire(s, k))
  {
  }

  lemma DrainFromKeeps(s: KState, k: Sid)
    requires Inv(s) && MayDrain(s, k)
    ensures Inv(DrainFrom(s, k))
    ensures if s.sems[k].queue != [] then Rotated(s, DrainFrom(s, k), [s.sems[k].queue[0]])
            else
              && DrainFrom(s, k).current == s.current && DrainFrom(s, k).readyq == s.readyq
              && DrainFrom(s, k).tick == s.tick
  {
    hide Inv, DrainOne, Retire, MayDrain, Rotated;
    if s.sems[k].queue == [] {
      RetireKeeps(s, k);
    } else {
      DrainOneKeeps(s, k, Destroying(k));
    }
  }

  lemma SemDestroyKeeps(s: KState, id: int)
    requires Inv(s) && s.current != IDLE && s.task[s.current].cont == User
    ensures Inv(SemDestroy(s, id))
    ensures Turned(s, CSemDestroy(id), SemDestroy(s, id))
  {
    hide Queues, Pids, Tree, Waits, Sems, Conts, Wakeups, Quanta, DrainFrom, Rotated, Turned;
    if SemFound(s, id) && s.task[s.current].pid == s.sems[FindSem(s.sems, id)].creator {
      var k: Sid := FindSem(s.sems, id);
      DrainFromKeeps(s, k);
      if s.sems[k].queue == [] {
        TurnedNot(s, CSemDestroy(id), SemDestroy(s, id));
      } else {
        TurnedBy(s, CSemDestroy(id), SemDestroy(s, id), [s.sems[k].queue[0]]);
      }
    } else {
      TurnedNot(s, CSemDestroy(id), SemDestroy(s, id));
    }
  }

  /** The yield inside semDestroy shows others a semaphore whose value no longer counts its queue;
      this happens exactly when somebody was waiting. */
  lemma DestroyMiscounts(s: KState, k: Sid)
    requires Inv(s) && MayDrain(s, k) && Healthy(s.sems[k])
    ensures var x := DrainFrom(s, k).sems[k];
            (!x.free && !Healthy(x)) <==> s.sems[k].queue != []
  {
    hide Queues, Pids, Tree, Waits, Sems, Conts, Wakeups, Quanta, SchedNext, UpdateState, Dispatched;
    if s.sems[k].queue != [] {
      DrainedSem(s, k, Destroying(k));
    }
  }

  lemma DrainedSem(s: KState, k: Sid, c: Cont)
    requires Inv(s) && MayDrain(s, k) && s.sems[k].queue != []
    ensures DrainOne(s, k, c).sems[k]
            == s.sems[k].(creator := -1, queue := s.sems[k].queue[1..], served := s.sems[k].served + 1)
  {
    hide Inv, MayDrain, UpdateState;
    var x := s.sems[k].(creator := -1);
    var sc := SetCont(s, c);
    UpdateKeepsLists(SetSem(sc, k, x.(queue := x.queue[1..], served := x.served + 1)), x.queue[0], ToReady);
    ListsKept(Pop(sc, k, x));
  }

  lemma FindsItself(s: KState, k: Sid)
    requires Inv(s) && !s.sems[k].free
    ensures FindSem(s.sems, s.sems[k].id) == k && s.sems[k].id >= USER_SEM_IDS
  {
    hide Queues, Pids, Tree, Waits, Conts, Wakeups, Quanta, Healthy;
  }

  /** A semaphore with one waiter, its owner inside semDestroy: the next signal faults. */
  lemma SignalDuringDestroyFaults(s: KState, k: Sid)
    requires Inv(s) && MayDrain(s, k) && Healthy(s.sems[k]) && |s.sems[k].queue| == 1
    ensures SemSignal(DrainOne(s, k, Destroying(k)), s.sems[k].id) == Fault
  {
    DrainedSem(s, k, Destroying(k));
    DrainOneKeeps(s, k, Destroying(k));
    assert !s.sems[k].free;
    hide Inv, DrainOne, MayDrain, FindSem;
    FindsItself(DrainOne(s, k, Destroying(k)), k);
  }

  // ----- waiting for a thread

  /** sys_wait_thread accepts the pid -1 of free PCBs: exactly then the invariant is lost. */
  lemma WaitThreadIff(s: KState, pid: int)
    requires Inv(s) && s.current != IDLE && s.task[s.current].cont == User
    ensures Inv(WaitThread(s, pid)) <==> pid != -1 || s.freeq == []
    ensures pid != -1 || s.freeq == [] ==> Turned(s, CWait(pid), WaitThread(s, pid))
  {
    hide Turned, Dispatched;
    hide Queues, Pids, Tree, Waits, Sems, Conts, Wakeups, Quanta, SchedNext, UpdateState;
    AliveUnlessFree(s);
    FreeQueueEmpty(s);
    var i := FindPid(s.task, pid);
    if i < NR_TASKS {
      var bt: Tid := i;
      CurrentFacts(s);
      var s0 := SetTask(s, bt, s.task[bt].(waitList := s.task[bt].waitList + [s.current]));
      var s1 := UpdateState(s0, s.current, ToBlocked(OnTask(bt)));
      SleepEffect(s0, OnTask(bt));
      if s.task[bt].state != Free {
        WaitingSteady(s, s0, s1, bt);
        SchedKeeps(s1);
        TurnedPlain(s, CWait(pid), s1);
      } else {
        WaitOnFree(s, s0, s1, bt);
      }
    } else {
      TurnedNot(s, CWait(pid), WaitThread(s, pid));
    }
  }

  lemma FreeQueueEmpty(s: KState)
    requires Inv(s)
    ensures s.freeq == [] <==> forall t: Tid :: s.task[t].state != Free
    ensures forall t: Tid :: s.task[t].state == Free <==> s.task[t].pid == -1
    ensures (exists t: Tid :: s.task[t].state == Free) ==> FindPid(s.task, -1) < NR_TASKS
  {
    hide Tree, Waits, Sems, Conts, Wakeups, Quanta;
    if s.freeq != [] {
      assert s.freeq[0] in s.freeq;
    }
  }

  lemma WaitingSteady(s: KState, s0: KState, s1: KState, bt: Tid)
    requires Inv(s) && s.current != IDLE && s.task[s.current].cont == User && s.task[bt].state != Free
    requires s0 == SetTask(s, bt, s.task[bt].(waitList := s.task[bt].waitList + [s.current]))
    requires Slept(s0, s1, OnTask(bt))
    ensures Steady(s1) && s1.task[s1.current].state != Run
  {
    hide Queues, Pids, Tree, Waits, Sems, Conts, Wakeups, Quanta, Moved, SameQueues;
    WaitingSame(s, s0, s1, bt);
    QueuesFrame(s, s0);
    SleptQueues(s0, s1, OnTask(bt));
    MovedTree(s, s1);
    MovedPids(s, s1);
    WaitingConts(s, s0, s1, bt);
    WaitingWaits(s, s0, s1, bt);
    SemsFrame(s, s1);
    WakeupsFrame(s, s1);
  }

  lemma WaitingSame(s: KState, s0: KState, s1: KState, bt: Tid)
    requires s0 == SetTask(s, bt, s.task[bt].(waitList := s.task[bt].waitList + [s.current]))
    requires Slept(s0, s1, OnTask(bt)) && s.task[s.current].state == Run && Alive(s, s.current)
    ensures SameQueues(s, s0) && Moved(s, s1) && SameWakeups(s, s1)
  {
  }

  lemma WaitingConts(s: KState, s0: KState, s1: KState, bt: Tid)
    requires Conts(s) && s.task[s.current].cont == User
    requires s0 == SetTask(s, bt, s.task[bt].(waitList := s.task[bt].waitList + [s.current]))
    requires Slept(s0, s1, OnTask(bt))
    ensures Conts(s1)
  {
  }

  lemma WaitingWaits(s: KState, s0: KState, s1: KState, bt: Tid)
    requires Waits(s) && s.task[s.current].state == Run && s.task[bt].state != Free
    requires s0 == SetTask(s, bt, s.task[bt].(waitList := s.task[bt].waitList + [s.current]))
    requires Slept(s0, s1, OnTask(bt))
    ensures Waits(s1)
  {
  }

  lemma WaitOnFree(s: KState, s0: KState, s1: KState, bt: Tid)
    requires Inv(s) && s.current != IDLE && s.task[bt].state == Free
    requires s0 == SetTask(s, bt, s.task[bt].(waitList := s.task[bt].waitList + [s.current]))
    requires Slept(s0, s1, OnTask(bt))
    ensures !Inv(SchedNext(s1))
  {
    hide Pids, Tree, Sems, Conts, Wakeups, Quanta;
    assert bt in s1.freeq;
    hide Waits;
    BrokenWaitsStay(s, s0, s1, bt);
  }

  /** sched_next_rr does not repair a waiting list on a free PCB. */
  lemma BrokenWaitsStay(s: KState, s0: KState, s1: KState, bt: Tid)
    requires s0 == SetTask(s, bt, s.task[bt].(waitList := s.task[bt].waitList + [s.current]))
    requires Slept(s0, s1, OnTask(bt)) && bt in s.freeq && s.current !in s.freeq && bt !in s.readyq && bt != IDLE
    requires s.task[bt].state == Free && bt != s.current
    ensures !Waits(SchedNext(s1))
  {
    ListsKept(s1);
    StateKept(s1, bt);
    assert s.current in s1.task[bt].waitList;
  }

  /** sched_next_rr moves no task off the free queue. */
  lemma StateKept(s: KState, t: Tid)
    requires t != s.current && t != Next(s)
    ensures SchedNext(s).task[t].state == s.task[t].state
  {
  }

  // ----- unblocking a child

  /** The children of the current task that sys_unblock(pid) finds. */
  ghost predicate IsChild(s: KState, c: Tid, pid: int) {
    c in s.task[s.current].fills && s.task[c].pid == pid
  }

  /** A child that is blocked on a semaphore or on a thread, not by sys_block. */
  ghost predicate WaitsElsewhere(s: KState, pid: int) {
    exists c: Tid :: IsChild(s, c, pid) && s.task[c].state == Blocked && s.task[c].why != OnBlock
  }

  lemma {:induction false} UnblockAllNone(s: KState, kids: seq<Tid>, pid: int)
    requires forall c :: c in kids ==> s.task[c].pid != pid
    ensures UnblockAll(s, kids, pid) == s
    decreases |kids|
  {
    if kids != [] {
      UnblockAllNone(s, kids[1..], pid);
    }
  }

  lemma {:induction false} UnblockAllOne(s: KState, kids: seq<Tid>, pid: int, c: Tid)
    requires c in kids && s.task[c].pid == pid && Nodup(kids)
    requires forall d :: d in kids && s.task[d].pid == pid ==> d == c
    ensures UnblockAll(s, kids, pid) == UnblockOne(s, c)
    decreases |kids|
  {
    var s1 := UnblockOne(s, c);
    assert forall t: Tid :: s1.task[t].pid == s.task[t].pid;
    hide UnblockOne;
    if kids[0] == c {
      assert c !in kids[1..];
      UnblockAllNone(s1, kids[1..], pid);
    } else {
      UnblockAllOne(s, kids[1..], pid, c);
    }
  }

  lemma OneChild(s: KState, c: Tid, pid: int)
    requires Inv(s) && IsChild(s, c, pid)
    ensures UnblockAll(s, s.task[s.current].fills, pid) == UnblockOne(s, c)
    ensures c != IDLE && c != s.current && s.task[c].pid > 0 && Alive(s, c)
  {
    hide Queues, Waits, Sems, Conts, Wakeups, Quanta, UnblockOne, UnblockAll;
    assert HasParent(s, c);
    forall d | d in s.task[s.current].fills && s.task[d].pid == pid ensures d == c {
      assert Alive(s, d) && Alive(s, c);
    }
    UnblockAllOne(s, s.task[s.current].fills, pid, c);
  }

  /** sys_unblock keeps the invariant exactly when the child it names is not waiting elsewhere. */
  lemma UnblockIff(s: KState, pid: int)
    requires Inv(s) && s.current != IDLE && s.task[s.current].cont == User
    ensures Inv(Unblock(s, pid)) <==> !WaitsElsewhere(s, pid)
    ensures !WaitsElsewhere(s, pid) ==> Turned(s, CUnblock(pid), Unblock(s, pid))
  {
    hide Turned, Dispatched;
    hide Queues, Pids, Tree, Waits, Sems, Conts, Wakeups, Quanta, SchedNext, UnblockOne, UnblockAll;
    if c: Tid :| IsChild(s, c, pid) {
      OneChild(s, c, pid);
      var s1 := UnblockOne(s, c);
      assert forall d: Tid :: IsChild(s, d, pid) ==> d == c by {
        forall d: Tid | IsChild(s, d, pid) ensures d == c { PidOfOne(s, c, d); }
      }
      if s.task[c].state != Blocked {
        PendedSteady(s, s1, c);
        SchedKeeps(s1);
        TurnedPlain(s, CUnblock(pid), s1);
      } else if s.task[c].why == OnBlock {
        UnblockedSteady(s, s1, c);
        SchedKeeps(s1);
        TurnedWaking(s, CUnblock(pid), s1, [c]);
      } else {
        StrayWake(s, s1, c);
      }
    } else {
      forall d | d in s.task[s.current].fills ensures s.task[d].pid != pid {
        assert !IsChild(s, d, pid);
      }
      UnblockAllNone(s, s.task[s.current].fills, pid);
      SchedKeeps(s);
      TurnedPlain(s, CUnblock(pid), s);
    }
  }

  lemma PidOfOne(s: KState, c: Tid, d: Tid)
    requires Inv(s) && c in s.task[s.current].fills && d in s.task[s.current].fills && s.task[c].pid == s.task[d].pid
    ensures c == d
  {
    hide Queues, Waits, Sems, Conts, Wakeups, Quanta;
    assert Alive(s, c) && Alive(s, d);
  }

  lemma PendedSteady(s: KState, s1: KState, c: Tid)
    requires Inv(s) && s.task[c].state != Blocked && s1 == UnblockOne(s, c)
    ensures Steady(s1) && Alive(s1, s1.current) && s1.readyq == s.readyq && s1.current == s.current
  {
    hide Queues, Pids, Tree, Sems, Conts, Quanta;
    assert s.task[c].why == NotBlocked;
    hide Waits;
    CountedKeeps(s, s1);
  }

  lemma UnblockedSteady(s: KState, s1: KState, c: Tid)
    requires Inv(s) && s.task[c].state == Blocked && s.task[c].why == OnBlock && s1 == UnblockOne(s, c)
    requires c != s.current && s.task[c].pid > 0
    ensures Steady(s1) && Alive(s1, s1.current) && s1.readyq == s.readyq + [c] && s1.current == s.current
  {
    hide Queues, Pids, Tree, Waits, Sems, Conts, Wakeups, Quanta, Moved, UpdateState;
    var p := s.task[c];
    var s0 := SetTask(s, c, p.(delivered := p.delivered + 1, completed := p.completed + 1));
    CountedOne(s, s0, c);
    CountedKeeps(s, s0);
    WakeEffect(s0, c);
    WokenQueues(s0, s1, c);
    WokenMoved(s0, s1, c);
    MovedTree(s0, s1);
    MovedPids(s0, s1);
    UnblockedWaits(s0, s1, c);
    SemsFrame(s0, s1);
    WakeupsFrame(s0, s1);
    UnblockedConts(s0, s1, c);
  }

  lemma CountedOne(s: KState, s0: KState, c: Tid)
    requires Wakeups(s) && s0 == SetTask(s, c,
             s.task[c].(delivered := s.task[c].delivered + 1, completed := s.task[c].completed + 1))
    ensures Wakeups(s0) && Counted(s, s0)
  {
  }

  lemma UnblockedWaits(s: KState, s1: KState, c: Tid)
    requires Waits(s) && Woken(s, s1, c) && s.task[c].why == OnBlock
    ensures Waits(s1)
  {
  }

  lemma UnblockedConts(s: KState, s1: KState, c: Tid)
    requires Conts(s) && Woken(s, s1, c) && s.task[c].state == Blocked
    ensures Conts(s1)
  {
  }

  /** A child woken from elsewhere stays on the list it waited on. */
  lemma StrayWake(s: KState, s1: KState, c: Tid)
    requires Inv(s) && s.task[c].state == Blocked && s.task[c].why != OnBlock && s1 == UnblockOne(s, c)
    requires c != s.current && s.task[c].pid > 0
    ensures !Inv(SchedNext(s1))
  {
    hide Queues, Pids, Tree, Sems, Conts, Wakeups, Quanta;
    StrayLists(s, s1, c);
    hide Waits;
    ListsKept(s1);
    StillStray(s1, SchedNext(s1), c, s.task[c].why);
  }

  /** `c` is on the list `why` names. */
  ghost predicate OnList(s: KState, c: Tid, why: Why) {
    (why.OnSem? && c in s.sems[why.k].queue) || (why.OnTask? && c in s.task[why.t].waitList)
  }

  lemma StrayLists(s: KState, s1: KState, c: Tid)
    requires Waits(s) && s.task[c].state == Blocked && s.task[c].why != OnBlock && s1 == UnblockOne(s, c)
    ensures OnList(s1, c, s.task[c].why) && s1.task[c].why == NotBlocked
  {
  }

  ghost predicate SameLists(s: KState, s': KState) {
    && s'.sems == s.sems
    && (forall t: Tid :: s'.task[t].waitList == s.task[t].waitList)
    && (forall t: Tid :: s'.task[t].why == s.task[t].why || s'.task[t].why == NotBlocked)
  }

  lemma UpdateKeepsLists(s: KState, t: Tid, dest: Dest)
    requires !dest.ToBlocked?
    ensures SameLists(s, UpdateState(s, t, dest))
  {
  }

  lemma UpdatePid(s: KState, t: Tid, dest: Dest)
    ensures SamePid(s, UpdateState(s, t, dest))
  {
  }

  /** sched_next_rr changes no list of waiters and never makes a task wait. */
  lemma ListsKept(s: KState)
    ensures SameLists(s, SchedNext(s))
  {
    hide UpdateState;
    UpdateKeepsLists(s, s.current, ToReady);
    var s1 := if s.task[s.current].state == Run then UpdateState(s, s.current, ToReady) else s;
    UpdateKeepsLists(s1, Next(s), ToNull);
  }

  lemma StillStray(s1: KState, s': KState, c: Tid, why: Why)
    requires OnList(s1, c, why) && s1.task[c].why == NotBlocked
    requires s'.sems == s1.sems && (forall t: Tid :: s'.task[t].waitList == s1.task[t].waitList)
    requires s'.task[c].why == NotBlocked
    ensures !Waits(s')
  {
  }

  // ----- fork and create_thread

  function Child(s: KState): Pcb {
    s.task[s.current].(pid := s.pidGlobal, pare := s.current, fills := [], waitList := [], pending := 0,
                       quantum := DEFAULT_QUANTUM_TICKS, delivered := 0, completed := 0, state := Ready,
                           why := NotBlocked)
  }

  /** A new task took the first free PCB: a copy of the current one under a new pid, its youngest
      child, at the back of the ready queue. */
  ghost predicate Spawned(s: KState, s': KState, f: Tid) {
    && s.freeq != [] && f == s.freeq[0] && f != s.current
    && s' == s.(task := s.task[f := Child(s)][s.current := s.task[s.current].(fills := s.task[s.current].fills + [f])],
                freeq := s.freeq[1..], readyq := s.readyq + [f], pidGlobal := s.pidGlobal + 1)
  }

  lemma FreeFirst(s: KState)
    requires Queues(s) && Pids(s) && s.freeq != []
    ensures var f := s.freeq[0];
            && s.task[f].state == Free && s.task[f].pid == -1 && f != IDLE && f != INIT
            && (s.task[s.current].state == Run ==> f != s.current)
            && Without(s.freeq, f) == s.freeq[1..] && f !in s.freeq[1..] && Nodup(s.freeq[1..])
    ensures 0 < s.pidGlobal
  {
    assert s.freeq[0] in s.freeq;
    WithoutFirst(s.freeq);
  }

  lemma SpawnEffect(s: KState, f: Tid)
    requires s.freeq != [] && f == s.freeq[0] && f != s.current && 0 < s.pidGlobal && s.task[s.current].state == Run
    requires Without(s.freeq, f) == s.freeq[1..]
    ensures Spawned(s, Spawn(SetTask(s.(freeq := Without(s.freeq, f)), f, s.task[s.current]), f), f)
  {
    var s1 := SetTask(s.(freeq := Without(s.freeq, f)), f, s.task[s.current]);
    var s' := Spawn(s1, f);
    assert s'.task == s.task[f := Child(s)][s.current := s.task[s.current].(fills := s.task[s.current].fills + [f])];
  }

  lemma SpawnedKeeps(s: KState, s': KState, f: Tid)
    requires Inv(s) && s.current != IDLE && s.task[s.current].cont == User && Spawned(s, s', f)
    ensures Inv(s')
  {
    hide Queues, Pids, Tree, Waits, Sems, Conts, Wakeups, Quanta;
    FreeFirst(s);
    CurrentFacts(s);
    SpawnedQueues(s, s', f);
    SpawnedPids(s, s', f);
    SpawnedTree(s, s', f);
    SpawnedWaits(s, s', f);
    SpawnedRest(s, s', f);
    SemsFrame(s, s');
  }

  lemma SpawnedQueues(s: KState, s': KState, f: Tid)
    requires Queues(s) && Spawned(s, s', f) && s.task[f].state == Free && f != IDLE
    ensures Queues(s')
  {
    assert s.freeq == [f] + s.freeq[1..];
    assert f in s.freeq && f !in s.freeq[1..] && Nodup(s.freeq[1..]);
  }

  lemma SpawnedPids(s: KState, s': KState, f: Tid)
    requires Pids(s) && Quanta(s) && Spawned(s, s', f) && s.task[f].state == Free && f != IDLE && f != INIT
    requires Alive(s, s.current)
    ensures Pids(s') && Quanta(s')
  {
    forall t: Tid, u: Tid | t != u && Alive(s', t) && Alive(s', u) ensures s'.task[t].pid != s'.task[u].pid {
      assert t != f ==> Alive(s, t) && s'.task[t].pid == s.task[t].pid;
      assert u != f ==> Alive(s, u) && s'.task[u].pid == s.task[u].pid;
    }
  }

  lemma SpawnedParent(s: KState, s': KState, f: Tid, t: Tid)
    requires Tree(s) && Pids(s) && Spawned(s, s', f) && s.task[f].pid == -1 && f != IDLE && f != INIT
    requires Alive(s, s.current) && Alive(s', t) && Orphanable(t)
    ensures HasParent(s', t)
  {
    if t != f {
      assert Alive(s, t) && HasParent(s, t);
      assert s.task[t].pare != f;
    }
  }

  lemma SpawnedChild(s: KState, s': KState, f: Tid, t: Tid, c: Tid)
    requires Tree(s) && Pids(s) && Spawned(s, s', f) && s.task[f].pid == -1 && f != IDLE && f != INIT
    requires Alive(s, s.current) && Alive(s', t) && c in s'.task[t].fills
    ensures Alive(s', c) && Orphanable(c) && s'.task[c].pare == t
  {
    hide HasParent;
    assert c != f ==> t != f && Alive(s, t) && c in s.task[t].fills;
  }

  lemma SpawnedLists(s: KState, s': KState, f: Tid, t: Tid)
    requires Tree(s) && Spawned(s, s', f) && s.task[f].pid == -1 && f != IDLE && f != INIT && Alive(s, s.current)
    ensures Nodup(s'.task[t].fills)
    ensures s'.task[IDLE].pare == NO_PARENT && s'.task[INIT].pare == NO_PARENT
  {
    hide HasParent;
    assert f !in s.task[s.current].fills;
  }

  lemma SpawnedTree(s: KState, s': KState, f: Tid)
    requires Tree(s) && Pids(s) && Spawned(s, s', f) && s.task[f].pid == -1 && f != IDLE && f != INIT
    requires Alive(s, s.current)
    ensures Tree(s')
  {
    SpawnedLists(s, s', f, IDLE);
    forall t: Tid ensures Nodup(s'.task[t].fills) && (Alive(s', t) && Orphanable(t) ==> HasParent(s', t)) {
      SpawnedLists(s, s', f, t);
      if Alive(s', t) && Orphanable(t) {
        SpawnedParent(s, s', f, t);
      }
    }
    forall t: Tid, c: Tid | Alive(s', t) && c in s'.task[t].fills
      ensures Alive(s', c) && Orphanable(c) && s'.task[c].pare == t
    {
      SpawnedChild(s, s', f, t, c);
    }
    hide HasParent, Pids, Spawned, Nodup, Alive, Orphanable;
  }

  lemma SpawnedWaits(s: KState, s': KState, f: Tid)
    requires Waits(s) && Spawned(s, s', f) && s.task[f].state == Free && s.task[s.current].state == Run
    ensures Waits(s')
  {
  }

  lemma SpawnedRest(s: KState, s': KState, f: Tid)
    requires Conts(s) && Wakeups(s) && Spawned(s, s', f) && s.task[s.current].cont == User && s.task[f].pid == -1
    requires f != IDLE && f != INIT
    ensures Conts(s') && Wakeups(s')
  {
  }

  lemma ForkKeeps(s: KState)
    requires Inv(s) && s.current != IDLE && s.task[s.current].cont == User && s.freeq != []
    ensures Spawned(s, Fork(s, true), s.freeq[0])
    ensures Inv(Fork(s, true)) && Turned(s, CFork(true), Fork(s, true))
  {
    hide Queues, Pids, Tree, Waits, Sems, Conts, Wakeups, Quanta, Spawn, Turned;
    FreeFirst(s);
    SpawnEffect(s, s.freeq[0]);
    SpawnedKeeps(s, Fork(s, true), s.freeq[0]);
    TurnedBy(s, CFork(true), Fork(s, true), [s.freeq[0]]);
  }

  /** fork keeps the invariant exactly when it found memory, or failed for want of a PCB. */
  lemma ForkIff(s: KState, memOk: bool)
    requires Inv(s) && s.current != IDLE && s.task[s.current].cont == User
    ensures Inv(Fork(s, memOk)) <==> memOk || s.freeq == []
    ensures memOk && s.freeq != [] ==> Spawned(s, Fork(s, memOk), s.freeq[0])
    ensures memOk || s.freeq == [] ==> Turned(s, CFork(memOk), Fork(s, memOk))
  {
    hide Inv, Spawn, Turned, Spawned;
    if s.freeq == [] {
      TurnedNot(s, CFork(memOk), Fork(s, memOk));
    } else if memOk {
      ForkKeeps(s);
    } else {
      FreeFirstOf(s);
      FailedFork(s);
    }
  }

  /** The repaired failure of fork: the first free PCB moved to the back of its queue. */
  ghost predicate Refused(s: KState, s': KState) {
    && s.freeq != []
    && var p := s.task[s.current].(pid := -1, waitList := [], state := Free, why := NotBlocked);
    s' == s.(task := s.task[s.freeq[0] := p], freeq := s.freeq[1..] + [s.freeq[0]])
  }

  lemma RefuseEffect(s: KState)
    requires s.freeq != [] && Without(s.freeq, s.freeq[0]) == s.freeq[1..]
    ensures Refused(s, RefuseFork(s))
  {
  }

  lemma RefuseKeeps(s: KState)
    requires Inv(s) && s.current != IDLE && s.task[s.current].cont == User && s.freeq != []
    ensures Inv(RefuseFork(s)) && Refused(s, RefuseFork(s)) && RefuseFork(s).current == s.current
    ensures SamePid(s, RefuseFork(s))
  {
    FreeFirst(s);
    RefuseEffect(s);
    hide Queues, Pids, Tree, Waits, Sems, Conts, Wakeups, Quanta, RefuseFork, Without;
    var s' := RefuseFork(s);
    RefusedQueues(s, s');
    RefusedTree(s, s');
    RefusedPids(s, s');
    RefusedWaits(s, s');
    RefusedRest(s, s');
    SemsFrame(s, s');
  }

  lemma RefusedQueues(s: KState, s': KState)
    requires Queues(s) && Refused(s, s') && s.task[s.freeq[0]].state == Free && s.task[s.current].state == Run
    ensures Queues(s')
  {
    var f := s.freeq[0];
    assert s.freeq == [f] + s.freeq[1..];
    assert forall t :: t in s'.freeq <==> t in s.freeq;
  }

  lemma RefusedPids(s: KState, s': KState)
    requires Pids(s) && Refused(s, s') && s.task[s.freeq[0]].pid == -1 && s.freeq[0] != s.current
    requires s.freeq[0] != IDLE && s.freeq[0] != INIT
    ensures Pids(s')
  {
  }

  lemma RefusedParent(s: KState, s': KState, t: Tid)
    requires Tree(s) && Refused(s, s') && s.task[s.freeq[0]].pid == -1 && Alive(s', t) && Orphanable(t)
    ensures HasParent(s', t)
  {
    assert HasParent(s, t) && s.task[t].pare != s.freeq[0];
  }

  lemma RefusedTree(s: KState, s': KState)
    requires Tree(s) && Refused(s, s') && s.task[s.freeq[0]].pid == -1
    requires s.freeq[0] != IDLE && s.freeq[0] != INIT
    ensures Tree(s')
  {
    forall t: Tid | Alive(s', t) && Orphanable(t) ensures HasParent(s', t) {
      RefusedParent(s, s', t);
    }
    hide HasParent;
  }

  lemma RefusedWaits(s: KState, s': KState)
    requires Waits(s) && Refused(s, s') && s.task[s.freeq[0]].state == Free && s.freeq[0] != s.current
    ensures Waits(s')
  {
  }

  lemma RefusedRest(s: KState, s': KState)
    requires Conts(s) && Wakeups(s) && Quanta(s) && Refused(s, s') && s.task[s.current].cont == User
    requires s.task[s.freeq[0]].pid == -1 && s.freeq[0] != IDLE && s.freeq[0] != INIT
    ensures Conts(s') && Wakeups(s') && Quanta(s')
  {
  }

  lemma FreeFirstOf(s: KState)
    requires Inv(s) && s.freeq != []
    ensures s.task[s.freeq[0]].state == Free
  {
    hide Queues, Pids, Tree, Waits, Sems, Conts, Wakeups, Quanta;
    FreeFirst(s);
  }

  /** The failed fork puts a PCB back that still carries its parent's pid and state. */
  lemma FailedFork(s: KState)
    requires Inv(s) && s.freeq != [] && s.task[s.freeq[0]].state == Free
    ensures !Inv(Fork(s, false))
  {
    hide Pids, Tree, Waits, Sems, Conts, Wakeups, Quanta;
    var f := s.freeq[0];
    assert Fork(s, false).task[f].state == Run && f != s.current;
  }

  lemma CreateThreadKeeps(s: KState, argsOk: bool)
    requires Inv(s) && s.current != IDLE && s.task[s.current].cont == User
    ensures Inv(CreateThread(s, argsOk))
    ensures Turned(s, CThread(argsOk), CreateThread(s, argsOk))
  {
    hide Turned;
    if s.freeq == [] || !argsOk {
      TurnedNot(s, CThread(argsOk), CreateThread(s, argsOk));
    }
    hide Queues, Pids, Tree, Waits, Sems, Conts, Wakeups, Quanta, Spawn;
    if s.freeq != [] && argsOk {
      FreeFirst(s);
      SpawnEffect(s, s.freeq[0]);
      SpawnedKeeps(s, CreateThread(s, argsOk), s.freeq[0]);
      TurnedBy(s, CThread(argsOk), CreateThread(s, argsOk), [s.freeq[0]]);
    }
  }

  // ----- exit

  /** The PCB of `t` after the current task left the tree. */
  function DetachedPcb(s: KState, t: Tid): Pcb {
    var p, ct := s.task[t], s.task[s.current];
    if t == s.current then p.(pid := -1, pare := NO_PARENT, fills := [])
    else p.(pare := if t in ct.fills then IDLE else p.pare,
            fills := (if t == ct.pare then Without(p.fills, s.current) else p.fills)
                     + (if t == IDLE then ct.fills else []))
  }

  ghost predicate Detached(s: KState, s': KState) {
    s' == s.(task := s'.task) && forall t: Tid :: s'.task[t] == DetachedPcb(s, t)
  }

  lemma DetachEffect(s: KState)
    requires 0 <= s.task[s.current].pare < NR_TASKS && s.task[s.current].pare != s.current && s.current != IDLE
    requires s.current !in s.task[s.current].fills
    ensures Detached(s, Detach(s))
  {
    var ct := s.task[s.current];
    var s1 := SetTask(s, s.current, ct.(pid := -1, pare := NO_PARENT));
    var father := s1.task[ct.pare];
    var s2 := SetTask(s1, ct.pare, father.(fills := Without(father.fills, s.current)));
    var s3 := s2.(task := Adopt(s2.task, ct.fills));
    assert forall t: Tid :: s3.task[t] == if t in ct.fills then s2.task[t].(pare := IDLE) else s2.task[t];
    hide Adopt, Without;
  }

  lemma ExitingFacts(s: KState)
    requires Inv(s) && s.current != IDLE && s.current != INIT
    ensures HasParent(s, s.current)
    ensures s.current !in s.task[s.current].fills && s.task[s.current].pare != s.current
  {
    hide Queues, Waits, Sems, Conts, Wakeups, Quanta;
    var cur := s.current;
    assert HasParent(s, cur);
    assert s.task[cur].pare != cur;
  }

  lemma DetachedTree(s: KState, s': KState)
    requires Tree(s) && Pids(s) && Detached(s, s') && Alive(s, s.current) && s.current != IDLE && s.current != INIT
    ensures Tree(s')
  {
    var cur := s.current;
    var kids := s.task[cur].fills;
    forall t: Tid ensures Nodup(s'.task[t].fills) {
      DetachedFills(s, s', t);
    }
    forall t: Tid | Alive(s', t) && Orphanable(t) ensures HasParent(s', t) {
      assert Alive(s, t) && HasParent(s, t);
      DetachedParent(s, s', t);
    }
    forall t: Tid, c: Tid | Alive(s', t) && c in s'.task[t].fills
      ensures Alive(s', c) && Orphanable(c) && s'.task[c].pare == t
    {
      DetachedChild(s, s', t, c);
    }
  }

  lemma DetachedFills(s: KState, s': KState, t: Tid)
    requires Tree(s) && Pids(s) && Detached(s, s') && Alive(s, s.current) && s.current != IDLE && s.current != INIT
    ensures Nodup(s'.task[t].fills)
  {
    var kids := s.task[s.current].fills;
    if t == IDLE {
      var mine := if t == s.task[s.current].pare then Without(s.task[t].fills, s.current) else s.task[t].fills;
      assert Alive(s, IDLE);
      assert forall c: Tid :: c in kids ==> s.task[c].pare == s.current;
      assert forall c: Tid :: c in mine ==> s.task[c].pare == IDLE;
      assert Nodup(mine) && Nodup(kids);
      NodupConcat(mine, kids);
    }
  }

  lemma NodupConcat(p: seq<Tid>, q: seq<Tid>)
    requires Nodup(p) && Nodup(q) && forall x :: x in p ==> x !in q
    ensures Nodup(p + q)
  {
    forall i, j | 0 <= i < j < |p + q| ensures (p + q)[i] != (p + q)[j] {
      if i < |p| <= j {
        assert (p + q)[i] in p && (p + q)[j] == q[j - |p|];
      }
    }
  }

  lemma DetachedParent(s: KState, s': KState, t: Tid)
    requires Tree(s) && Pids(s) && Detached(s, s') && Alive(s, s.current) && s.current != IDLE && s.current != INIT
    requires t != s.current && Alive(s, t) && Orphanable(t) && HasParent(s, t)
    ensures HasParent(s', t)
  {
    var cur := s.current;
    if t in s.task[cur].fills {
      assert Alive(s, IDLE) && s.task[t].pid > s.task[cur].pid;
    } else {
      assert s.task[t].pare != cur;
    }
  }

  lemma DetachedChild(s: KState, s': KState, t: Tid, c: Tid)
    requires Tree(s) && Pids(s) && Detached(s, s') && Alive(s, s.current) && s.current != IDLE && s.current != INIT
    requires Alive(s', t) && c in s'.task[t].fills
    ensures Alive(s', c) && Orphanable(c) && s'.task[c].pare == t
  {
    var cur := s.current;
    assert Alive(s, t) && t != cur;
    if c in s.task[t].fills {
      assert Alive(s, c) && s.task[c].pare == t;
      assert c != cur && c !in s.task[cur].fills;
    } else {
      assert t == IDLE && c in s.task[cur].fills;
      assert Alive(s, c) && s.task[c].pare == cur;
      assert HasParent(s, c);
    }
  }

  /** The state between Detach and the end of exit: the current task has no pid but still runs. */
  ghost predicate Leaving(s: KState) {
    Steady(s) && s.task[s.current].state == Run && s.task[s.current].pid == -1 && s.current != IDLE
  }

  lemma DetachedLeaving(s: KState, s': KState)
    requires Inv(s) && s.current != IDLE && s.current != INIT && s.task[s.current].cont == User && Detached(s, s')
    ensures Leaving(s')
  {
    hide Queues, Pids, Tree, Waits, Sems, Conts, Wakeups, Quanta;
    DetachedTree(s, s');
    DetachedPids(s, s');
    DetachedSame(s, s');
    QueuesFrame(s, s');
    WaitsFrame(s, s');
    SemsFrame(s, s');
    WakeupsFrame(s, s');
    DetachedConts(s, s');
  }

  lemma DetachedSame(s: KState, s': KState)
    requires Detached(s, s')
    ensures SameQueues(s, s') && SameWaits(s, s') && SameWakeups(s, s')
    ensures s'.sems == s.sems && s'.semId == s.semId
  {
  }

  lemma DetachedPids(s: KState, s': KState)
    requires Pids(s) && Quanta(s) && Detached(s, s') && s.task[s.current].state == Run && s.current != IDLE &&
             s.current != INIT
    ensures Pids(s') && Quanta(s')
  {
    forall t: Tid, u: Tid | t != u && Alive(s', t) && Alive(s', u) ensures s'.task[t].pid != s'.task[u].pid {
      assert Alive(s, t) && Alive(s, u);
    }
    forall t: Tid | Alive(s', t) ensures s'.task[t].quantum == if t == IDLE then 0 else DEFAULT_QUANTUM_TICKS {
      assert Alive(s, t);
    }
  }

  lemma DetachedConts(s: KState, s': KState)
    requires Conts(s) && Detached(s, s') && s.task[s.current].cont == User
    ensures Conts(s')
  {
  }

  /** One turn of the loop over the waiting tasks. */
  lemma DrainTurn(s: KState, s0: KState, s1: KState, w: Tid)
    requires Leaving(s) && s.task[s.current].waitList != [] && w == s.task[s.current].waitList[0]
    requires s0 == UpdateState(s, w, ToReady)
    requires s1 == SetTask(s0, s.current, s0.task[s.current].(waitList := s.task[s.current].waitList[1..]))
    ensures Leaving(s1) && s1.current == s.current && s1.task[s.current].waitList == s.task[s.current].waitList[1..]
    ensures s1.readyq == s.readyq + [w] && s1.freeq == s.freeq && s1.tick == s.tick
    ensures s.task[w].why == OnTask(s.current)
  {
    hide Queues, Pids, Tree, Waits, Sems, Conts, Wakeups, Quanta, Moved, UpdateState, SameQueues, SameWakeups;
    FirstWaiter(s, w);
    BlockedAlive(s, w);
    WakeEffect(s, w);
    WokenQueues(s, s0, w);
    TurnSame(s, s0, s1, w);
    QueuesFrame(s0, s1);
    MovedTree(s, s1);
    MovedPids(s, s1);
    TurnWaits(s, s0, s1, w);
    SemsFrame(s, s1);
    WakeupsFrame(s, s1);
    TurnConts(s, s0, s1, w);
  }

  lemma FirstWaiter(s: KState, w: Tid)
    requires Waits(s) && s.task[s.current].waitList != [] && w == s.task[s.current].waitList[0] &&
             s.task[s.current].state == Run
    ensures s.task[w].state == Blocked && w != s.current && s.task[w].why == OnTask(s.current)
  {
    assert w in s.task[s.current].waitList;
  }

  lemma TurnSame(s: KState, s0: KState, s1: KState, w: Tid)
    requires Woken(s, s0, w) && w != s.current && s.task[w].state == Blocked && s.task[w].pid > 0
    requires s1 == SetTask(s0, s.current, s0.task[s.current].(waitList := s1.task[s.current].waitList))
    requires s.task[s.current].state == Run
    ensures SameQueues(s0, s1) && Moved(s, s1) && SameWakeups(s, s1) && s1.sems == s.sems && s1.semId == s.semId
  {
  }

  lemma TurnWaits(s: KState, s0: KState, s1: KState, w: Tid)
    requires Waits(s) && Woken(s, s0, w) && s.task[w].why == OnTask(s.current)
    requires s.task[s.current].waitList != [] && w == s.task[s.current].waitList[0] && w != s.current
    requires s1 == SetTask(s0, s.current, s0.task[s.current].(waitList := s.task[s.current].waitList[1..]))
    requires s.task[s.current].state == Run
    ensures Waits(s1)
  {
    var q := s.task[s.current].waitList;
    assert q == [q[0]] + q[1..];
    assert q[0] in q && q[0] !in q[1..];
    assert Nodup(q[1..]);
  }

  lemma TurnConts(s: KState, s0: KState, s1: KState, w: Tid)
    requires Conts(s) && Woken(s, s0, w) && s.task[w].state == Blocked && w != s.current
    requires s1 == SetTask(s0, s.current, s0.task[s.current].(waitList := s1.task[s.current].waitList))
    ensures Conts(s1)
  {
  }

  /** Exit wakes the waiting tasks in the order they came, and nobody else. */
  lemma {:induction false} DrainWaitersEffect(s: KState)
    requires Leaving(s)
    ensures var s' := DrainWaiters(s, s.current);
            && Leaving(s') && s'.current == s.current && s'.task[s.current].waitList == []
            && s'.readyq == s.readyq + s.task[s.current].waitList && s'.freeq == s.freeq && s'.tick == s.tick
    decreases |s.task[s.current].waitList|
  {
    hide Leaving, UpdateState;
    var ws := s.task[s.current].waitList;
    if ws != [] {
      var s0 := UpdateState(s, ws[0], ToReady);
      var s1 := SetTask(s0, s.current, s0.task[s.current].(waitList := ws[1..]));
      DrainTurn(s, s0, s1, ws[0]);
      DrainWaitersEffect(s1);
      assert s.readyq + [ws[0]] + ws[1..] == s.readyq + ws;
    }
  }

  /** The PCB of the exiting task goes to the back of the free queue. */
  lemma FreedSteady(s: KState, s': KState)
    requires Leaving(s) && s.task[s.current].waitList == [] && s.task[s.current].cont == User
    requires s' == UpdateState(s, s.current, ToFree)
    ensures Steady(s') && s'.task[s'.current].state != Run && s'.current == s.current
    ensures s'.readyq == s.readyq
  {
    hide Queues, Pids, Tree, Waits, Sems, Conts, Wakeups, Quanta;
    RunNotBlocked(s);
    FreedQueues(s, s');
    FreedPids(s, s');
    FreedTree(s, s');
    FreedWaits(s, s');
    SemsFrame(s, s');
    FreedRest(s, s');
  }

  lemma RunNotBlocked(s: KState)
    requires Waits(s) && s.task[s.current].state == Run
    ensures s.task[s.current].why == NotBlocked
  {
  }

  ghost predicate FreedCurrent(s: KState, s': KState) {
    s' == SetTask(s, s.current, s.task[s.current].(state := Free, why := NotBlocked)).(freeq := s.freeq + [s.current])
  }

  lemma FreedQueues(s: KState, s': KState)
    requires Queues(s) && FreedCurrent(s, s') && s.task[s.current].state == Run && s.current != IDLE
    ensures Queues(s')
  {
  }

  lemma FreedPids(s: KState, s': KState)
    requires Pids(s) && Quanta(s) && FreedCurrent(s, s') && s.task[s.current].pid == -1
    ensures Pids(s') && Quanta(s')
  {
    forall t: Tid, u: Tid | t != u && Alive(s', t) && Alive(s', u) ensures s'.task[t].pid != s'.task[u].pid {
      assert Alive(s, t) && Alive(s, u);
    }
    QuantaFrame(s, s');
  }

  lemma FreedTree(s: KState, s': KState)
    requires Tree(s) && FreedCurrent(s, s')
    ensures Tree(s')
  {
    hide Tree;
    TreeFrame(s, s');
  }

  lemma FreedWaits(s: KState, s': KState)
    requires Waits(s) && FreedCurrent(s, s') && s.task[s.current].state == Run && s.task[s.current].waitList == []
    ensures Waits(s')
  {
  }

  lemma FreedRest(s: KState, s': KState)
    requires Conts(s) && Wakeups(s) && FreedCurrent(s, s') && s.task[s.current].cont == User
    ensures Conts(s') && Wakeups(s')
  {
    hide Wakeups;
    WakeupsFrame(s, s');
  }

  predicate Undetachable(s: KState) { s.current == IDLE || s.current == INIT }

  /** The end of exit faults exactly for idle and task1; otherwise it keeps the invariant, hands the
      children to idle and readies the waiting tasks in order. */
  lemma ExitTailIff(s: KState)
    requires Inv(s) && s.task[s.current].cont == User
    ensures ExitTail(s) == Fault <==> Undetachable(s)
    ensures !Undetachable(s) ==> Inv(ExitTail(s).s) && Rotated(s, ExitTail(s).s, s.task[s.current].waitList)
  {
    hide Queues, Pids, Waits, Sems, Conts, Wakeups, Quanta, SchedNext, UpdateState, Detach, DrainWaiters, Leaving;
    if !Undetachable(s) {
      ExitingFacts(s);
      hide Tree;
      ExitSteps(s);
    }
  }

  lemma ExitSteps(s: KState)
    requires Inv(s) && s.task[s.current].cont == User && !Undetachable(s)
    requires HasParent(s, s.current)
    requires s.current !in s.task[s.current].fills && s.task[s.current].pare != s.current
    ensures var s1 := DrainWaiters(Detach(s), s.current);
            var s2 := UpdateState(s1, s.current, ToFree);
            && Steady(s2) && s2.task[s2.current].state != Run && s2.current == s.current
            && s2.readyq == s.readyq + s.task[s.current].waitList
            && Inv(SchedNext(s2)) && Rotated(s, SchedNext(s2), s.task[s.current].waitList)
  {
    hide Queues, Pids, Tree, Waits, Sems, Conts, Wakeups, Quanta, SchedNext, UpdateState, Detach, DrainWaiters,
         Dispatched;
    DetachEffect(s);
    var s0 := Detach(s);
    DetachedLeaving(s, s0);
    hide Leaving;
    DrainWaitersEffect(s0);
    var s1 := DrainWaiters(s0, s.current);
    LeavingUser(s1);
    FreedSteady(s1, UpdateState(s1, s.current, ToFree));
    SchedKeeps(UpdateState(s1, s.current, ToFree));
    Rotate(s, UpdateState(s1, s.current, ToFree), s.task[s.current].waitList);
  }

  lemma LeavingUser(s: KState)
    requires Leaving(s)
    ensures s.task[s.current].cont == User
  {
    hide Queues, Pids, Tree, Waits, Sems, Wakeups, Quanta;
  }

  ghost predicate SomeRotation(s: KState, s': KState) {
    exists w :: Rotated(s, s', w)
  }

  lemma RotationBy(s: KState, s': KState, w: seq<Tid>)
    requires Rotated(s, s', w)
    ensures SomeRotation(s, s')
  {
  }

  lemma RotationAfterRetire(s: KState, k: Sid, s': KState)
    requires SomeRotation(Retire(s, k), s')
    ensures SomeRotation(s, s')
  {
    var w :| Rotated(Retire(s, k), s', w);
    assert Rotated(s, s', w);
  }

  /** exit from semaphore `i` on: it yields inside a drain loop or gets to its end. */
  lemma {:induction false} ExitFromIff(s: KState, i: nat)
    requires Inv(s) && i <= NUM_SEMS && s.task[s.current].cont == User && s.current != IDLE
    ensures ExitFrom(s, i) != Fault && Inv(ExitFrom(s, i).s) <==> s.current != INIT
    ensures s.current != INIT ==> SomeRotation(s, ExitFrom(s, i).s)
    decreases NUM_SEMS - i
  {
    hide Inv, ExitTail, DrainOne, Retire, MayDrain, Rotated, SomeRotation;
    if i == NUM_SEMS {
      ExitTailIff(s);
      if s.current != INIT {
        RotationBy(s, ExitTail(s).s, s.task[s.current].waitList);
      }
    } else if s.sems[i].creator != s.task[s.current].pid {
      ExitFromIff(s, i + 1);
    } else {
      var k := FindSem(s.sems, s.sems[i].id);
      if s.sems[k].free || s.sems[k].creator != s.task[s.current].pid {
        ExitFromIff(s, i + 1);
      } else {
        OwnerMayDrain(s, k);
        if s.sems[k].queue == [] {
          RetireKeeps(s, k);
          ExitFromIff(Retire(s, k), i + 1);
          if s.current != INIT {
            RotationAfterRetire(s, k, ExitFrom(s, i).s);
          }
        } else if s.current != INIT {
          DrainOneKeeps(s, k, Exiting(k));
          RotationBy(s, DrainOne(s, k, Exiting(k)), [s.sems[k].queue[0]]);
        } else {
          InitCannotExit(s, k);
        }
      }
    }
  }

  lemma OwnerMayDrain(s: KState, k: Sid)
    requires Inv(s) && !s.sems[k].free && s.sems[k].creator == s.task[s.current].pid && s.current != IDLE
    requires s.task[s.current].cont == User
    ensures MayDrain(s, k)
  {
  }

  /** task1 inside exit is already outside the invariant: its exit is bound to fault. */
  lemma InitCannotExit(s: KState, k: Sid)
    requires s.current == INIT && s.sems[k].queue != [] && Inv(s) && MayDrain(s, k)
    ensures !Inv(DrainOne(s, k, Exiting(k)))
  {
    hide Queues, Pids, Tree, Waits, Sems, Wakeups, Quanta;
    DrainKeepsConts(s, k, Exiting(k));
  }

  lemma ResumeKeeps(s: KState)
    requires Inv(s) && s.task[s.current].cont != User
    ensures Resume(s) != Fault && Inv(Resume(s).s)
    ensures Turned(s, CResume, Resume(s).s)
  {
    hide Queues, Pids, Tree, Waits, Sems, Conts, Wakeups, Quanta, DrainFrom, DrainOne, Retire, ExitFrom, Rotated,
         SomeRotation, Turned;
    ContMayDrain(s);
    match s.task[s.current].cont
    case User =>
    case Destroying(k) =>
      DrainFromKeeps(s, k);
      if s.sems[k].queue == [] {
        TurnedNot(s, CResume, Resume(s).s);
      } else {
        TurnedBy(s, CResume, Resume(s).s, [s.sems[k].queue[0]]);
      }
    case Exiting(k) =>
      if s.sems[k].queue == [] {
        RetireKeeps(s, k);
        ExitFromIff(Retire(s, k), k + 1);
        RotationAfterRetire(s, k, Resume(s).s);
        TurnedSome(s, CResume, Resume(s).s);
      } else {
        DrainOneKeeps(s, k, Exiting(k));
        TurnedBy(s, CResume, Resume(s).s, [s.sems[k].queue[0]]);
      }
  }

  lemma TurnedSome(s: KState, c: Call, s': KState)
    requires Dispatches(s, c) && SomeRotation(s, s')
    ensures Turned(s, c, s')
  {
  }

  lemma ContMayDrain(s: KState)
    requires Inv(s) && s.task[s.current].cont != User
    ensures MayDrain(s, s.task[s.current].cont.k)
    ensures s.task[s.current].cont.Exiting? ==> s.current != INIT
  {
  }

  lemma TickKeeps(s: KState)
    requires Inv(s)
    ensures Inv(Tick(s))
    ensures Turned(s, CTick, Tick(s)) && (s.tick > 1 ==> Tick(s).tick == s.tick - 1)
  {
    hide Turned, Dispatched;
    hide Queues, Pids, Tree, Waits, Sems, Conts, Wakeups, SchedNext;
    var s1 := if s.tick > 0 then s.(tick := s.tick - 1) else s;
    TickSame(s, s1);
    QueuesFrame(s, s1);
    TreeFrame(s, s1);
    WaitsFrame(s, s1);
    SemsFrame(s, s1);
    ContsFrame(s, s1);
    WakeupsFrame(s, s1);
    PidsFrame(s, s1);
    if s1.tick <= 0 {
      SchedKeeps(s1);
      TurnedPlain(s, CTick, s1);
    } else {
      TurnedNot(s, CTick, s1);
    }
  }

  lemma TickSame(s: KState, s1: KState)
    requires s1 == s.(tick := s1.tick) && Conts(s)
    ensures SameQueues(s, s1) && SameTree(s, s1) && SameWaits(s, s1) && SamePids(s, s1) && SameFree(s, s1)
    ensures SameWakeups(s, s1) && SameConts(s, s1)
  {
  }

  // ----- every call

  /** What the caller must see to before each call. */
  ghost predicate Guard(s: KState, c: Call) {
    match c
    case CTick => true
    case CFork(memOk) => memOk || s.freeq == []
    case CThread(_) => true
    case CExit => s.current != INIT
    case CBlock => true
    case CUnblock(pid) => !WaitsElsewhere(s, pid)
    case CWait(pid) => pid != -1 || s.freeq == []
    case CSemCreate(v) => 0 <= v || FindFree(s.sems) == NUM_SEMS
    case CSemWait(_) => true
    case CSemSignal(id) => !SignalFaults(s, id)
    case CSemDestroy(_) => true
    case CResume => true
  }

  /** A call from a good state leads to a good state exactly when its guard holds; and the ready queue
      then only turns. */
  lemma StepIff(s: KState, c: Call)
    requires Inv(s) && Enabled(s, c)
    ensures (Step(s, c) != Fault && Inv(Step(s, c).s)) <==> Guard(s, c)
    ensures Guard(s, c) ==> Turned(s, c, Step(s, c).s)
    ensures c == CTick && !Dispatches(s, c) ==> Step(s, c).s.tick == s.tick - 1
  {
    hide Inv, Tick, Fork, CreateThread, ExitFrom, Block, Unblock, WaitThread, SemCreate, SemWait, SemSignal,
         SemDestroy, Resume, SignalFaults, WaitsElsewhere, Turned, SomeRotation;
    match c
    case CTick => TickKeeps(s);
    case CFork(memOk) => ForkIff(s, memOk);
    case CThread(argsOk) => CreateThreadKeeps(s, argsOk);
    case CExit =>
      ExitFromIff(s, 0);
      if s.current != INIT {
        TurnedSome(s, CExit, ExitFrom(s, 0).s);
      }
    case CBlock => BlockKeeps(s);
    case CUnblock(pid) => UnblockIff(s, pid);
    case CWait(pid) => WaitThreadIff(s, pid);
    case CSemCreate(v) => SemCreateIff(s, v);
    case CSemWait(id) => SemWaitKeeps(s, id);
    case CSemSignal(id) => SemSignalIff(s, id);
    case CSemDestroy(id) => SemDestroyKeeps(s, id);
    case CResume => ResumeKeeps(s);
  }
}
