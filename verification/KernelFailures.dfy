/** Runs from boot, every call within its guard, that end where the next call does harm: two threads
    and one semaphore are enough. */
module KernelFailures {
  import opened Params
  import opened KernelSpec
  import opened KernelInv
  import opened KernelSteps
  import opened KernelRuns

  const CHILD: Tid := 2

  /** task1 and its first thread take turns: `cur` runs, `other` is ready, `x` is the first slot. */
  ghost predicate Turns(s: KState, cur: Tid, other: Tid, x: Sem) {
    && {cur, other} == {INIT, CHILD} && s.current == cur && s.readyq == [other]
    && s.task[INIT].pid == 1 && s.task[INIT].fills == [CHILD] && s.task[CHILD].pid == 1000 && s.task[CHILD].fills == []
    && s.task[cur].state == Run && s.task[other].state == Ready
    && s.task[cur].cont == s.task[other].cont == User
    && s.sems[0] == x && s.semId == if x.free then USER_SEM_IDS else USER_SEM_IDS + 1
  }

  /** The semaphore the thread creates with value 0. */
  const SEM := Sem(USER_SEM_IDS, 0, false, 1000, [], 0, 0, 0, [], 0)

  lemma Started()
    ensures Turns(CreateThread(Boot(), true), INIT, CHILD, NO_SEM)
  {
    hide Without, UpdateState;
    var s := Boot();
    assert s.freeq[0] == CHILD;
    var f := s.task[INIT];
    var s1 := SetTask(s.(freeq := Without(s.freeq, CHILD)), CHILD, f);
    var child := f.(pid := 1000, pare := INIT, fills := [], waitList := [], pending := 0,
                    quantum := DEFAULT_QUANTUM_TICKS, delivered := 0, completed := 0);
    var s2 := SetTask(SetTask(s1, CHILD, child).(pidGlobal := 1001), INIT, f.(fills := [CHILD]));
    assert [] + [CHILD] == [CHILD];
    assert CreateThread(s, true) == UpdateState(s2, CHILD, ToReady);
    Readied(s2);
  }

  /** The child joins the ready queue; it is on no other, as its state is its parent's. */
  lemma Readied(s: KState)
    requires s.task[CHILD].state == Run && s.task[CHILD].pid == 1000 && s.readyq == []
    ensures UpdateState(s, CHILD, ToReady) ==
            SetTask(s, CHILD, s.task[CHILD].(state := Ready, why := NotBlocked)).(readyq := [CHILD])
  {
  }

  lemma HandOver(s: KState, cur: Tid, other: Tid, x: Sem)
    requires Turns(s, cur, other, x)
    ensures Turns(Unblock(s, 0), other, cur, x) && !WaitsElsewhere(s, 0)
  {
    hide SchedNext, UnblockAll;
    UnblockAllNone(s, s.task[cur].fills, 0);
    TurnTaken(s, cur, other, x);
  }

  lemma TurnTaken(s: KState, cur: Tid, other: Tid, x: Sem)
    requires Turns(s, cur, other, x)
    ensures Turns(SchedNext(s), other, cur, x)
  {
    assert Next(s) == other && s.task[cur].pid > 0;
    var s1 := UpdateState(s, cur, ToReady);
    assert s1.readyq == [other, cur] && s1.task[other] == s.task[other];
    hide Without;
    OneLeft(other, cur);
  }

  lemma OneLeft(t: Tid, u: Tid)
    requires t != u
    ensures Without([t, u], t) == [u]
  {
    assert [t, u][1..] == [u];
  }

  lemma Created(s: KState)
    requires Turns(s, CHILD, INIT, NO_SEM)
    ensures Turns(SemCreate(s, 0), CHILD, INIT, SEM)
  {
  }

  /** The running task waits on the semaphore: it sleeps there and the other one runs. */
  lemma Waited(s: KState, cur: Tid, other: Tid)
    requires Turns(s, cur, other, SEM)
    ensures var s' := SemWait(s, USER_SEM_IDS);
            && s'.current == other && s'.readyq == [] && s'.sems[0].queue == [cur] && s'.sems[0].value == -1
            && s'.sems[0] == SEM.(value := -1, waits := 1, queue := [cur], arrived := [cur])
            && s'.task[cur].state == Blocked && s'.task[cur].why == OnSem(0)
            && s'.task[other].state == Run && s'.task[INIT].pid == 1 && s'.task[CHILD].pid == 1000
            && s'.task[INIT].fills == [CHILD] && s'.task[INIT].cont == s'.task[CHILD].cont == User
  {
    hide SchedNext, Without;
    assert FindSem(s.sems, USER_SEM_IDS) == 0 && [] + [cur] == [cur];
    var x := SEM.(value := -1, waits := 1, queue := [cur], arrived := [cur]);
    var s1 := UpdateState(SetSem(s, 0, x), cur, ToBlocked(OnSem(0)));
    assert SemWait(s, USER_SEM_IDS) == SchedNext(s1);
    HandsOver(s1, cur, other);
  }

  /** A dispatch away from a task that sleeps. */
  lemma HandsOver(s: KState, cur: Tid, other: Tid)
    requires cur != other && s.current == cur && s.task[cur].state == Blocked && s.task[cur].pid > 0
    requires s.readyq == [other] && s.task[other].state == Ready && s.task[other].pid > 0
    requires s.task[other].pid != s.task[cur].pid
    ensures var s' := SchedNext(s);
            && s'.current == other && s'.readyq == [] && s'.sems == s.sems && s'.task[cur] == s.task[cur]
            && s'.task[other] == s.task[other].(state := Run, why := NotBlocked)
  {
    assert Without([other], other) == [];
  }

  lemma Before(s: KState, c: Call, cs: seq<Call>)
    requires Enabled(s, c) && Guard(s, c) && Step(s, c) != Fault && Legal(Step(s, c).s, cs)
    ensures Legal(s, [c] + cs) && End(s, [c] + cs) == End(Step(s, c).s, cs)
  {
    hide Step, Guard;
    assert ([c] + cs)[1..] == cs;
  }

  /** task1 starts a thread and lets it run; the thread creates a semaphore. */
  ghost function Opening(): KState {
    SemCreate(Unblock(CreateThread(Boot(), true), 0), 0)
  }

  const OPENING := [CThread(true), CUnblock(0), CSemCreate(0)]

  lemma Opened(cs: seq<Call>)
    ensures Turns(Opening(), CHILD, INIT, SEM)
    ensures Legal(Opening(), cs) ==>
              Legal(Boot(), OPENING + cs) && End(Boot(), OPENING + cs) == End(Opening(), cs)
  {
    hide Turns, CreateThread, Unblock, SemCreate, Boot, Legal, End, WaitsElsewhere;
    var s1 := CreateThread(Boot(), true);
    Started();
    var s2 := Unblock(s1, 0);
    HandOver(s1, INIT, CHILD, NO_SEM);
    var s := SemCreate(s2, 0);
    Created(s2);
    if Legal(s, cs) {
      EnabledTurn(s2, CHILD, INIT, NO_SEM);
      Before(s2, CSemCreate(0), cs);
      EnabledTurn(s1, INIT, CHILD, NO_SEM);
      Before(s1, CUnblock(0), [CSemCreate(0)] + cs);
      EnabledBoot();
      Before(Boot(), CThread(true), [CUnblock(0)] + ([CSemCreate(0)] + cs));
      assert [CThread(true)] + ([CUnblock(0)] + ([CSemCreate(0)] + cs))
          == OPENING + cs;
    }
  }

  lemma EnabledTurn(s: KState, cur: Tid, other: Tid, x: Sem)
    requires Turns(s, cur, other, x)
    ensures s.current != IDLE && s.task[s.current].cont == User
  {
  }

  lemma EnabledBoot()
    ensures Boot().current != IDLE && Boot().task[Boot().current].cont == User
  {
  }

  lemma EndHere(s: KState)
    ensures Legal(s, []) && End(s, []) == s
  {
  }

  /** A run after which sys_unblock is called for a child that waits on a semaphore. */
  lemma UnblockFailureReachable()
    ensures var cs := OPENING + [CSemWait(USER_SEM_IDS)];
            && Legal(Boot(), cs)
            && var s := End(Boot(), cs);
            Enabled(s, CUnblock(1000)) && Inv(s) && WaitsElsewhere(s, 1000) && !Inv(Unblock(s, 1000))
  {
    hide Turns, SemWait, Unblock, Legal, End, Inv, WaitsElsewhere, Boot, Opening;
    var s, c := Opening(), CSemWait(USER_SEM_IDS);
    Opened([c]);
    EnabledTurn(s, CHILD, INIT, SEM);
    var s' := SemWait(s, USER_SEM_IDS);
    Waited(s, CHILD, INIT);
    EndHere(s');
    Before(s, c, []);
    assert [c] + [] == [c];
    ReachableInv(OPENING + [c]);
    ChildWaits(s');
    UnblockIff(s', 1000);
  }

  lemma ChildWaits(s: KState)
    requires s.current == INIT && s.task[INIT].fills == [CHILD] && s.task[CHILD].pid == 1000
    requires s.task[CHILD].state == Blocked && s.task[CHILD].why == OnSem(0)
    ensures WaitsElsewhere(s, 1000)
  {
    assert IsChild(s, CHILD, 1000);
  }

  /** A run after which a signal follows a pointer no list holds: task1 waits on the thread's semaphore,
      the thread destroys it, and the drain loop hands over to task1, which signals. */
  lemma SignalFaultReachable()
    ensures var cs := OPENING + [CUnblock(0), CSemWait(USER_SEM_IDS), CSemDestroy(USER_SEM_IDS)];
            && Legal(Boot(), cs)
            && var s := End(Boot(), cs);
            Enabled(s, CSemSignal(USER_SEM_IDS)) && Inv(s) && Step(s, CSemSignal(USER_SEM_IDS)) == Fault
  {
    hide Turns, SemWait, SemDestroy, SemSignal, Unblock, Legal, End, Inv, WaitsElsewhere, Boot, Opening;
    var s, w, d := Opening(), CSemWait(USER_SEM_IDS), CSemDestroy(USER_SEM_IDS);
    Opened([CUnblock(0), w, d]);
    EnabledTurn(s, CHILD, INIT, SEM);
    var s1 := Unblock(s, 0);
    HandOver(s, CHILD, INIT, SEM);
    EnabledTurn(s1, INIT, CHILD, SEM);
    var s2 := SemWait(s1, USER_SEM_IDS);
    Waited(s1, INIT, CHILD);
    var s3 := SemDestroy(s2, USER_SEM_IDS);
    Drained(s2);
    EndHere(s3);
    Before(s2, d, []);
    Before(s1, w, [d] + []);
    Before(s, CUnblock(0), [w] + ([d] + []));
    assert [CUnblock(0)] + ([w] + ([d] + [])) == [CUnblock(0), w, d];
    ReachableInv(OPENING + [CUnblock(0), w, d]);
  }

  /** The thread's semDestroy on its semaphore with task1 as the one waiter. */
  lemma Drained(s: KState)
    requires s.current == CHILD && s.readyq == [] && s.task[CHILD].cont == User && s.task[CHILD].pid == 1000
    requires s.sems[0] == SEM.(value := -1, waits := 1, queue := [INIT], arrived := [INIT])
    requires s.task[INIT].state == Blocked && s.task[INIT].pid == 1 && s.task[INIT].cont == User
    requires s.task[CHILD].state == Run
    ensures var s' := SemDestroy(s, USER_SEM_IDS);
            s'.current == INIT && s'.task[INIT].cont == User && SemSignal(s', USER_SEM_IDS) == Fault
  {
    assert FindSem(s.sems, USER_SEM_IDS) == 0;
    var s' := SemDestroy(s, USER_SEM_IDS);
    assert s'.sems[0] == s.sems[0].(creator := -1, queue := [], served := 1);
    assert FindSem(s'.sems, USER_SEM_IDS) == 0;
  }
}
