/** Who owns the semaphores: the creator of every semaphore in use is a live task, and a task that ends
    leaves none behind. */
module KernelOwners {
  import opened Params
  import opened KernelSpec
  import opened KernelInv
  import opened KernelSteps
  import opened KernelEffects
  import opened KernelRuns
  import opened KernelLedger

  /** The creator of a semaphore in use is a live task, unless the semaphore is being destroyed. */
  ghost predicate Owned(s: KState, k: Sid) {
    !s.sems[k].free && s.sems[k].creator != -1 ==> exists t: Tid :: Alive(s, t) && s.task[t].pid == s.sems[k].creator
  }

  /** A semaphore without an owner is being drained by some task. */
  ghost predicate Drained(s: KState, k: Sid) {
    !s.sems[k].free && s.sems[k].creator == -1 ==> exists t: Tid :: DrainsAt(s, t, k)
  }

  /** A task inside exit has freed what it owned in the slots below the one it is at. */
  ghost predicate Passed(s: KState, t: Tid) {
    s.task[t].cont.Exiting? ==>
      forall k: Sid :: k < s.task[t].cont.k && !s.sems[k].free ==> s.sems[k].creator != s.task[t].pid
  }

  ghost predicate Owners(s: KState) {
    (forall k: Sid :: Owned(s, k) && Drained(s, k)) && forall t: Tid :: Passed(s, t)
  }

  /** If the current task is gone, no semaphore in use is its own. */
  ghost predicate LeftNothing(s: KState, s': KState) {
    s'.task[s.current].pid == -1 ==> forall k: Sid :: !s'.sems[k].free ==> s'.sems[k].creator != s.task[s.current].pid
  }

  // ----- calls that create, signal and wait

  /** A slot in use has the creator it had, or was created by the current task just now. */
  ghost predicate SlotOwner(s: KState, s': KState, k: Sid) {
    !s'.sems[k].free ==>
      if s.sems[k].free then s'.sems[k].creator == s.task[s.current].pid && s.task[s.current].cont == User
      else s'.sems[k].creator == s.sems[k].creator
  }

  lemma PlainSlot(s: KState, c: Call, s': KState, k: Sid)
    requires Effect(s, c, s') && !Destroys(c) && Enabled(s, c)
    ensures SlotOwner(s, s', k)
  {
    hide Asleep, Awake, IsChild, CreateDoes, SemWaitDoes, SignalDoes;
    match c
    case CSemCreate(v) => CreateSlot(s, v, s', k);
    case CSemWait(id) => SemWaitSlot(s, id, s', k);
    case CSemSignal(id) => SignalSlot(s, id, s', k);
    case CWait(pid) => WaitSems(s, pid, s');
    case _ =>
  }

  lemma CreateSlot(s: KState, v: int, s': KState, k: Sid)
    requires CreateDoes(s, v, s') && s.task[s.current].cont == User
    ensures SlotOwner(s, s', k)
  {
    var i := FindFree(s.sems);
    hide FindFree;
    if i < NUM_SEMS {
      var j: Sid := i;
      assert s.sems[j].free;
    }
  }

  lemma SemWaitSlot(s: KState, id: int, s': KState, k: Sid)
    requires SemWaitDoes(s, id, s')
    ensures SlotOwner(s, s', k)
  {
    hide Asleep;
    if j: Sid :| Names(s, id, j) {
      assert WaitAt(s, j, s');
      assert j != k ==> s'.sems[k] == s.sems[k];
    }
  }

  lemma SignalSlot(s: KState, id: int, s': KState, k: Sid)
    requires SignalDoes(s, id, s')
    ensures SlotOwner(s, s', k)
  {
    hide Awake;
    if j: Sid :| Names(s, id, j) {
      assert SignalAt(s, j, s');
      assert j != k ==> s'.sems[k] == s.sems[k];
    }
  }

  /** Where a task stands in the kernel changes in no other call than those that destroy. */
  lemma PlainCont(s: KState, c: Call, s': KState, t: Tid)
    requires Effect(s, c, s') && !Destroys(c)
    ensures s'.task[t].cont == if Spawns(s, c) && t == s.freeq[0] then s.task[s.current].cont else s.task[t].cont
  {
    hide Asleep, Awake, CreateDoes, SemWaitDoes, SignalDoes, WaitDoes;
    match c
    case CTick => assert Unmoved(s, s', t);
    case CBlock => assert t != s.current ==> Unmoved(s, s', t);
    case CUnblock(pid) => assert !IsChild(s, t, pid) ==> Unmoved(s, s', t);
    case CWait(pid) => WaitCont(s, pid, s', t);
    case CSemCreate(v) => CreateQueues(s, v, s');
    case CSemWait(id) => SemWaitCont(s, id, s', t);
    case CSemSignal(id) => SignalCont(s, id, s', t);
    case _ =>
  }

  lemma WaitCont(s: KState, pid: int, s': KState, t: Tid)
    requires WaitDoes(s, pid, s')
    ensures s'.task[t].cont == s.task[t].cont
  {
    if bt: Tid :| s.task[bt].pid == pid {
      assert WaitOn(s, bt, s');
    }
  }

  lemma SemWaitCont(s: KState, id: int, s': KState, t: Tid)
    requires SemWaitDoes(s, id, s')
    ensures s'.task[t].cont == s.task[t].cont
  {
    if k: Sid :| Names(s, id, k) {
      assert WaitAt(s, k, s');
      assert t != s.current && s.sems[k].value <= 0 ==> Unmoved(s, s', t);
    }
  }

  lemma SignalCont(s: KState, id: int, s': KState, t: Tid)
    requires SignalDoes(s, id, s')
    ensures s'.task[t].cont == s.task[t].cont
  {
    if k: Sid :| Names(s, id, k) {
      assert SignalAt(s, k, s');
      if s.sems[k].value < 0 {
        WokeTasks(s, s.sems[k].queue[0], s');
      }
    }
  }

  lemma PlainOwners(s: KState, c: Call, s': KState)
    requires Inv(s) && Owners(s) && Effect(s, c, s') && !Destroys(c) && Enabled(s, c) && PidsMoved(s, c, s')
    ensures Owners(s') && LeftNothing(s, s')
  {
    hide Effect, Inv, Enabled, Passed, Owned, Drained, PidsMoved;
    forall k: Sid ensures Owned(s', k) && Drained(s', k) {
      PlainKept(s, c, s', k);
    }
    forall t: Tid ensures Passed(s', t) {
      PlainCont(s, c, s', t);
      PlainPassed(s, c, s', t);
    }
    PlainStays(s, c, s');
  }

  lemma PlainStays(s: KState, c: Call, s': KState)
    requires Inv(s) && !Destroys(c) && PidsMoved(s, c, s')
    ensures LeftNothing(s, s')
  {
    hide Inv;
    RunsAwake(s);
    FirstIsDead(s);
  }

  lemma PlainKept(s: KState, c: Call, s': KState, k: Sid)
    requires Inv(s) && Effect(s, c, s') && !Destroys(c) && Enabled(s, c) && PidsMoved(s, c, s')
    requires Owned(s, k) && Drained(s, k)
    ensures Owned(s', k) && Drained(s', k)
  {
    hide Effect, Inv, Enabled, Owned, Drained, PidsMoved;
    RunsAwake(s);
    FirstIsDead(s);
    PlainSlot(s, c, s', k);
    PlainDrained(s, c, s', k);
    PlainOwned(s, c, s', k);
  }

  lemma PlainDrained(s: KState, c: Call, s': KState, k: Sid)
    requires Inv(s) && Drained(s, k) && SlotOwner(s, s', k) && Effect(s, c, s') && !Destroys(c) && Enabled(s, c)
    ensures Drained(s', k)
  {
    RunsAwake(s);
    FirstIsDead(s);
    if !s'.sems[k].free && s'.sems[k].creator == -1 {
      hide Effect;
      var t: Tid :| DrainsAt(s, t, k);
      DrainerAlive(s, t, k);
      hide Inv;
      PlainCont(s, c, s', t);
      assert DrainsAt(s', t, k);
    }
  }

  lemma DrainerAlive(s: KState, t: Tid, k: Sid)
    requires Inv(s) && DrainsAt(s, t, k)
    ensures Alive(s, t)
  {
    hide Queues, Pids, Tree, Waits, Sems, Wakeups, Quanta;
  }

  lemma PlainOwned(s: KState, c: Call, s': KState, k: Sid)
    requires Owned(s, k) && SlotOwner(s, s', k) && PidsMoved(s, c, s') && !Destroys(c) && Alive(s, s.current)
    requires s.freeq != [] ==> s.task[s.freeq[0]].pid == -1
    ensures Owned(s', k)
  {
    if !s'.sems[k].free && s'.sems[k].creator != -1 {
      var t: Tid :| Alive(s, t) && s.task[t].pid == s'.sems[k].creator;
      assert Alive(s', t) && s'.task[t].pid == s'.sems[k].creator;
    }
  }

  lemma PlainPassed(s: KState, c: Call, s': KState, t: Tid)
    requires Inv(s) && Passed(s, t) && Effect(s, c, s') && !Destroys(c) && Enabled(s, c) && PidsMoved(s, c, s')
    requires s'.task[t].cont == if Spawns(s, c) && t == s.freeq[0] then s.task[s.current].cont else s.task[t].cont
    ensures Passed(s', t)
  {
    if s'.task[t].cont.Exiting? {
      ExitingAlive(s, c, t);
      RunsAwake(s);
      FirstIsDead(s);
      forall k: Sid | k < s'.task[t].cont.k && !s'.sems[k].free ensures s'.sems[k].creator != s'.task[t].pid {
        PlainSlot(s, c, s', k);
        if s.sems[k].free && s.task[t].pid == s.task[s.current].pid {
          OnePid(s, t, s.current);
        }
      }
    }
  }

  lemma ExitingAlive(s: KState, c: Call, t: Tid)
    requires Inv(s) && Enabled(s, c) && !Destroys(c)
    ensures s.task[t].cont.Exiting? ==> Alive(s, t)
    ensures c != CTick ==> s.task[s.current].cont == User
  {
    hide Queues, Pids, Tree, Waits, Sems, Wakeups, Quanta;
  }

  // ----- calls that destroy

  /** The current task owns no slot below `i`. */
  ghost predicate NoneBelow(s: KState, i: nat) {
    forall k: Sid :: k < i ==> !Owns(s, k)
  }

  /** After exit from slot `i` on, with nothing of its own below: nothing below where it stopped, or at all. */
  lemma ExitOwners(s: KState, i: nat, s': KState)
    requires Calling(s) && ExitDoes(s, i, s') && NoneBelow(s, i) && s.task[s.current].cont == User
    ensures Cleared(s, s') && LeftNothing(s, s') && PassedAfter(s, s')
  {
    hide Calling, Cleared, ExitDoes;
    CallingAlive(s);
    var j := ExitCleared(s, i, s');
    forall k: Sid | k < j && !s'.sems[k].free ensures s'.sems[k].creator != s.task[s.current].pid {
      KeptCreator(s, s', k);
      assert k < i ==> !Owns(s, k);
    }
  }

  lemma KeptCreator(s: KState, s': KState, k: Sid)
    requires Cleared(s, s') && !s'.sems[k].free
    ensures !s.sems[k].free && (s'.sems[k].creator == s.sems[k].creator || s'.sems[k].creator == -1)
  {
    assert SlotKept(s.sems[k], s'.sems[k]);
  }

  /** Where the current task stands after the call, in terms of the pid it had. */
  ghost predicate PassedAfter(s: KState, s': KState) {
    s'.task[s.current].cont.Exiting? ==>
      forall k: Sid :: k < s'.task[s.current].cont.k && !s'.sems[k].free ==>
        s'.sems[k].creator != s.task[s.current].pid
  }

  lemma DrainOwners(s: KState, k: Sid, c: Cont, s': KState)
    requires Calling(s) && DrainDoes(s, k, c, s') && MayTurnTo(s, k) && c != User && c.k == k
    requires c.Exiting? ==> NoneBelow(s, k)
    ensures LeftNothing(s, s') && PassedAfter(s, s')
  {
    CallingAlive(s);
    DrainCleared(s, k, c, s');
    hide Calling, DrainDoes, Cleared;
    forall j: Sid | c.Exiting? && j < c.k && !s'.sems[j].free ensures s'.sems[j].creator != s.task[s.current].pid {
      KeptCreator(s, s', j);
      assert !Owns(s, j);
    }
  }

  lemma DestroyOwners(s: KState, k: Sid, s': KState)
    requires Calling(s) && DestroyFrom(s, k, s') && MayTurnTo(s, k)
    ensures LeftNothing(s, s') && PassedAfter(s, s')
  {
    CallingAlive(s);
    DestroyCleared(s, k, s');
    hide Calling, DestroyFrom, Cleared;
  }

  lemma PassedNone(s: KState)
    requires Passed(s, s.current) && s.task[s.current].cont.Exiting?
    ensures NoneBelow(s, s.task[s.current].cont.k)
  {
  }

  lemma ResumeOwners(s: KState, s': KState)
    requires Calling(s) && Passed(s, s.current) && ResumeDoes(s, s') && s.task[s.current].cont != User
    ensures LeftNothing(s, s') && PassedAfter(s, s')
  {
    hide Calling, DrainDoes, RetireDoes, ExitDoes, DestroyFrom, Passed, NoneBelow, LeftNothing, PassedAfter;
    match s.task[s.current].cont
    case User =>
    case Destroying(k) => DestroyOwners(s, k, s');
    case Exiting(k) =>
      PassedNone(s);
      if s.sems[k].queue != [] {
        DrainOwners(s, k, Exiting(k), s');
      } else {
        var m :| RetireDoes(s, k, m) && ExitDoes(m, k + 1, s');
        ExitsOn(s, k, m, s');
      }
  }

  lemma ExitsOn(s: KState, k: Sid, m: KState, s': KState)
    requires Calling(s) && NoneBelow(s, k) && RetireDoes(s, k, m) && ExitDoes(m, k + 1, s') && MayTurnTo(s, k)
    ensures LeftNothing(s, s') && PassedAfter(s, s')
  {
    hide Calling, RetireDoes, ExitDoes, NoneBelow, LeftNothing, PassedAfter, Cleared;
    RetireCleared(s, k, m);
    RetiredNone(s, k, m);
    ExitOwners(m, k + 1, s');
    SamePidAfter(s, m, s');
  }

  lemma RetiredNone(s: KState, k: Sid, m: KState)
    requires RetireDoes(s, k, m) && NoneBelow(s, k)
    ensures NoneBelow(m, k + 1)
  {
    forall j: Sid | j < k + 1 ensures !Owns(m, j) {
      assert j < k ==> !Owns(s, j);
    }
  }

  lemma SamePidAfter(s: KState, m: KState, s': KState)
    requires m.current == s.current && m.task[s.current].pid == s.task[s.current].pid
    requires LeftNothing(m, s') && PassedAfter(m, s')
    ensures LeftNothing(s, s') && PassedAfter(s, s')
  {
  }

  lemma CallOwners(s: KState, c: Call, s': KState)
    requires Inv(s) && Owners(s) && Effect(s, c, s') && Destroys(c) && Enabled(s, c)
    ensures LeftNothing(s, s') && PassedAfter(s, s')
  {
    InvCalling(s);
    CallingAlive(s);
    assert Passed(s, s.current);
    hide Inv, Calling, DestroyFrom, ExitDoes, ResumeDoes, Passed, LeftNothing, PassedAfter;
    match c
    case CSemDestroy(id) =>
      if k: Sid :| Names(s, id, k) && Owns(s, k) {
        DestroyOwners(s, k, s');
      } else {
        UnchangedOwners(s);
      }
    case CExit => ExitOwners(s, 0, s');
    case CResume => ResumeOwners(s, s');
    case _ =>
  }

  lemma UnchangedOwners(s: KState)
    requires Calling(s) && s.task[s.current].cont == User
    ensures LeftNothing(s, s) && PassedAfter(s, s)
  {
  }

  lemma DestroyingOwners(s: KState, s': KState)
    requires Owners(s) && Cleared(s, s') && LeftNothing(s, s') && PassedAfter(s, s') && Calling(s) && Conts(s')
    ensures Owners(s')
  {
    CallingAlive(s);
    hide Calling;
    forall k: Sid ensures Owned(s', k) && Drained(s', k) {
      ClearedOwned(s, s', k);
      ClearedDrained(s, s', k);
    }
    forall t: Tid ensures Passed(s', t) {
      ClearedPassed(s, s', t);
    }
  }

  lemma ClearedOwned(s: KState, s': KState, k: Sid)
    requires Owned(s, k) && Cleared(s, s') && LeftNothing(s, s')
    ensures Owned(s', k)
  {
    if !s'.sems[k].free && s'.sems[k].creator != -1 {
      KeptCreator(s, s', k);
      hide Released;
      var t: Tid :| Alive(s, t) && s.task[t].pid == s'.sems[k].creator;
      assert Alive(s', t) && s'.task[t].pid == s.task[t].pid;
    }
  }

  lemma ClearedDrained(s: KState, s': KState, k: Sid)
    requires Drained(s, k) && Cleared(s, s')
    ensures Drained(s', k)
  {
    if !s'.sems[k].free && s'.sems[k].creator == -1 {
      KeptCreator(s, s', k);
      assert DrainKept(s, s', k);
      hide Released;
      if s.sems[k].creator == -1 {
        var t: Tid :| DrainsAt(s, t, k);
        assert t != s.current ==> DrainsAt(s', t, k);
      }
    }
  }

  lemma ClearedPassed(s: KState, s': KState, t: Tid)
    requires Passed(s, t) && Cleared(s, s') && PassedAfter(s, s') && Conts(s') && s.task[s.current].pid >= 0
    ensures Passed(s', t)
  {
    if s'.task[t].cont.Exiting? {
      assert Alive(s', t);
      hide Conts, Released;
      forall k: Sid | k < s'.task[t].cont.k && !s'.sems[k].free ensures s'.sems[k].creator != s'.task[t].pid {
        KeptCreator(s, s', k);
      }
    }
  }

  // ----- every call, and runs

  /** Every guarded call keeps the owners, and one that ends a task has freed all its semaphores. */
  lemma StepOwners(s: KState, c: Call)
    requires Inv(s) && Owners(s) && Enabled(s, c) && Guard(s, c)
    ensures Step(s, c) != Fault && Owners(Step(s, c).s) && LeftNothing(s, Step(s, c).s)
  {
    StepEffect(s, c);
    StepIff(s, c);
    PidsAfter(s, c);
    var s' := Step(s, c).s;
    hide Effect, Step, Guard, Owners, Enabled, LeftNothing, PidsMoved, Destroys;
    if Destroys(c) {
      InvCalling(s);
      InvConts(s');
      hide Inv, Calling, Cleared;
      CallOwners(s, c, s');
      StepCleared(s, c, s');
      DestroyingOwners(s, s');
    } else {
      PlainOwners(s, c, s');
    }
  }

  lemma InvConts(s: KState)
    requires Inv(s)
    ensures Conts(s)
  {
  }

  lemma BootOwners()
    ensures Owners(Boot())
  {
    BootIsBooted();
  }

  lemma {:induction false} RunOwners(s: KState, cs: seq<Call>)
    requires Inv(s) && Owners(s) && Legal(s, cs)
    ensures Owners(End(s, cs))
    decreases |cs|
  {
    hide Inv, Step, Guard, Owners, LeftNothing;
    if cs != [] {
      StepOwners(s, cs[0]);
      StepIff(s, cs[0]);
      RunOwners(Step(s, cs[0]).s, cs[1..]);
    }
  }

  /** In every state a guarded run reaches, a semaphore in use has a live creator or is being destroyed by
      a task in its drain loop. */
  lemma ReachableOwners(cs: seq<Call>, k: Sid)
    requires Legal(Boot(), cs)
    ensures Owned(End(Boot(), cs), k) && Drained(End(Boot(), cs), k)
  {
    hide Inv, Boot, Legal, End, Owned, Drained, Passed;
    BootInv();
    BootOwners();
    RunOwners(Boot(), cs);
  }
}
