/** sched.c and the task and semaphore calls of sys.c over the kernel's own tables: arrays of PCBs and
    of semaphores updated in place, and the queues. Each method does to the tables exactly what the
    machine of KernelSpec says. */
module Sched {
  import opened Params
  import opened KernelSpec
  import opened KernelInv
  import opened KernelSteps

  class Kernel {
    const task: array<Pcb>
    const semaphores: array<Sem>
    var freequeue: seq<Tid>
    var readyqueue: seq<Tid>
    var blocked: seq<Tid>
    var current: Tid
    var pidGlobal: int
    var semIDglobal: int
    var tickCounter: int

    ghost predicate Valid() {
      task.Length == NR_TASKS && semaphores.Length == NUM_SEMS
    }

    constructor ()
      ensures Valid() && Booted(S()) && fresh(task) && fresh(semaphores)
    {
      task := new Pcb[NR_TASKS](_ => NO_TASK);
      semaphores := new Sem[NUM_SEMS](_ => NO_SEM);
      freequeue, readyqueue, blocked := [], [], [];
      current, pidGlobal, semIDglobal, tickCounter := INIT, 1000, USER_SEM_IDS, 0;
      new;
      hide Booted;
      InitSched();
      InitIdle();
      InitTask1();
    }

    ghost predicate Blank()
      requires Valid()
      reads this, task, semaphores
    {
      && (forall k: Sid :: semaphores[k] == NO_SEM) && readyqueue == [] && blocked == []
      && current == INIT && pidGlobal == 1000 && semIDglobal == USER_SEM_IDS
    }

    /** Every PCB goes to the free queue, in order. */
    method InitSched()
      requires Valid() && Blank() && freequeue == [] && forall t: Tid :: task[t] == NO_TASK
      modifies this, task
      ensures Blank() && freequeue == Ascending(NR_TASKS) && forall t: Tid :: task[t] == NO_TASK
    {
      var i: nat := 0;
      while i < NR_TASKS
        invariant i <= NR_TASKS && Blank() && freequeue == Ascending(i)
        invariant forall t: Tid :: task[t] == NO_TASK
      {
        UpdateProcessStateRr(i, ToFree);
        assert forall t: Tid :: task[t] == S().task[t];
        i := i + 1;
      }
    }

    method InitIdle()
      requires Valid() && Blank() && freequeue == Ascending(NR_TASKS) && forall t: Tid :: task[t] == NO_TASK
      modifies this, task
      ensures Blank() && freequeue == Without(Ascending(NR_TASKS), IDLE)
      ensures forall t: Tid :: task[t] == if t == IDLE then NO_TASK.(pid := 0, state := Ready) else NO_TASK
    {
      ListDel(IDLE);
      SetPcb(IDLE, task[IDLE].(pid := 0, pending := 0, state := Ready, fills := [], waitList := [], quantum := 0));
      assert forall t: Tid :: task[t] == S().task[t];
    }

    method InitTask1()
      requires Valid() && Blank() && freequeue == Without(Ascending(NR_TASKS), IDLE)
      requires forall t: Tid :: task[t] == if t == IDLE then NO_TASK.(pid := 0, state := Ready) else NO_TASK
      modifies this, task
      ensures Booted(S())
    {
      AscendingFacts(NR_TASKS);
      SetPcb(INIT, task[INIT].(pid := 1, pending := 0));
      UpdateProcessStateRr(INIT, ToNull);
      SetPcb(INIT, task[INIT].(fills := [], waitList := [], quantum := DEFAULT_QUANTUM_TICKS));
      tickCounter := task[INIT].quantum;
      assert forall t: Tid :: task[t] == S().task[t];
    }

    /** The tables as a state of the machine. */
    ghost function S(): KState
      requires Valid()
      reads this, task, semaphores
    {
      Machine(task[..], freequeue, readyqueue, blocked, semaphores[..], current, pidGlobal, semIDglobal, tickCounter)
    }

    method SetPcb(t: Tid, p: Pcb)
      requires Valid()
      modifies task
      ensures S() == SetTask(old(S()), t, p)
    {
      task[t] := p;
      assert task[..] == old(task[..])[t := p];
    }

    method SetSemaphore(k: Sid, x: Sem)
      requires Valid()
      modifies semaphores
      ensures S() == SetSem(old(S()), k, x)
    {
      semaphores[k] := x;
      assert semaphores[..] == old(semaphores[..])[k := x];
    }

    /** list_del on the queue link of a PCB. */
    method ListDel(t: Tid)
      requires Valid()
      modifies this
      ensures S() == Unlink(old(S()), t)
    {
      freequeue, readyqueue, blocked := Without(freequeue, t), Without(readyqueue, t), Without(blocked, t);
    }

    method UpdateProcessStateRr(t: Tid, dest: Dest)
      requires Valid()
      modifies this, task
      ensures S() == UpdateState(old(S()), t, dest)
    {
      if task[t].pid < 0 {
        SetPcb(t, task[t].(state := Free, why := NotBlocked));
        freequeue := freequeue + [t];
        return;
      }
      if task[t].pid > 0 && task[t].state != Run {
        ListDel(t);
      }
      match dest {
        case ToNull =>
          SetPcb(t, task[t].(state := Run, why := NotBlocked));
        case ToReady =>
          SetPcb(t, task[t].(state := Ready, why := NotBlocked));
          if task[t].pid != 0 {
            readyqueue := readyqueue + [t];
          }
        case ToFree =>
          SetPcb(t, task[t].(state := Free, why := NotBlocked));
          if task[t].pid != 0 {
            freequeue := freequeue + [t];
          }
        case ToBlocked(why) =>
          SetPcb(t, task[t].(state := Blocked, why := why));
          if task[t].pid != 0 {
            blocked := blocked + [t];
          }
      }
    }

    method SchedNextRr()
      requires Valid()
      modifies this, task
      ensures S() == SchedNext(old(S()))
    {
      hide UpdateState;
      var nt := IDLE;
      if readyqueue != [] {
        nt := readyqueue[0];
      }
      if task[current].state == Run {
        UpdateKeepsCurrent(S(), current, ToReady);
        UpdateProcessStateRr(current, ToReady);
      }
      UpdateKeepsCurrent(S(), nt, ToNull);
      UpdateProcessStateRr(nt, ToNull);
      tickCounter := task[nt].quantum;
      if task[current].pid != task[nt].pid {
        current := nt;
      }
    }

    method ClockRoutine()
      requires Valid()
      modifies this, task
      ensures S() == Tick(old(S()))
    {
      hide SchedNext;
      if tickCounter > 0 {
        tickCounter := tickCounter - 1;
      }
      if tickCounter <= 0 {
        SchedNextRr();
      }
    }

    // ----- tasks

    /** `memOk` says whether the memory sufficed, `repaired` whether the PCB is freed if it did not. */
    method SysFork(memOk: bool, repaired: bool) returns (r: int)
      requires Valid()
      modifies this, task
      ensures S() == if repaired && !memOk && old(freequeue) != [] then RefuseFork(old(S())) else Fork(old(S()), memOk)
      ensures r == if old(freequeue) == [] || !memOk then -ENOMEM else old(pidGlobal)
    {
      hide UpdateState;
      if freequeue == [] {
        return -ENOMEM;
      }
      var fill := freequeue[0];
      freequeue := Without(freequeue, fill);
      SetPcb(fill, task[current]);
      if !memOk {
        if repaired {
          SetPcb(fill, task[fill].(pid := -1, waitList := []));
          assert task[..] == old(task[..])[fill := old(task[current]).(pid := -1, waitList := [])];
          UpdateProcessStateRr(fill, ToFree);
        } else {
          freequeue := freequeue + [fill];
        }
        return -ENOMEM;
      }
      r := Start(fill);
    }

    /** What fork and create_thread do to a PCB that holds a copy of the parent's. */
    method Start(fill: Tid) returns (r: int)
      requires Valid()
      modifies this, task
      ensures S() == Spawn(old(S()), fill) && r == old(pidGlobal)
    {
      hide UpdateState;
      r := pidGlobal;
      SetPcb(fill, task[fill].(pid := pidGlobal, pare := current, fills := [], waitList := [], pending := 0,
                               quantum := DEFAULT_QUANTUM_TICKS, delivered := 0, completed := 0));
      pidGlobal := pidGlobal + 1;
      SetPcb(current, task[current].(fills := task[current].fills + [fill]));
      UpdateProcessStateRr(fill, ToReady);
    }

    method SysCreateThread(argsOk: bool) returns (r: int)
      requires Valid()
      modifies this, task
      ensures S() == CreateThread(old(S()), argsOk)
      ensures r == if old(freequeue) == [] then -ENOMEM else if !argsOk then -EFAULT else old(pidGlobal)
    {
      if freequeue == [] {
        return -ENOMEM;
      } else if !argsOk {
        return -EFAULT;
      }
      var fill := freequeue[0];
      freequeue := Without(freequeue, fill);
      SetPcb(fill, task[current]);
      r := Start(fill);
    }

    method SysBlock()
      requires Valid()
      modifies this, task
      ensures S() == Block(old(S()))
    {
      hide UpdateState, SchedNext;
      var ct := task[current];
      if ct.pending <= 0 {
        UpdateProcessStateRr(current, ToBlocked(OnBlock));
        SchedNextRr();
      } else {
        SetPcb(current, ct.(pending := ct.pending - 1, completed := ct.completed + 1));
      }
    }

    /** The result is 0 exactly if some child has this pid. */
    method SysUnblock(pid: int) returns (ret: int)
      requires Valid()
      modifies this, task
      ensures S() == Unblock(old(S()), pid)
      ensures ret == if Knows(old(S()), old(task[current].fills), pid) then 0 else -1
    {
      hide UpdateState, SchedNext, Knows, UnblockOne;
      ret := -1;
      var kids, i := task[current].fills, 0;
      ghost var s := S();
      assert kids[0..] == kids;
      KnowsMore(s, kids, 0, pid);
      while i < |kids|
        invariant i <= |kids| && SamePid(s, S())
        invariant ret == if Knows(s, kids[..i], pid) then 0 else -1
        invariant UnblockAll(S(), kids[i..], pid) == UnblockAll(s, kids, pid)
      {
        var fill := kids[i];
        assert kids[i..][0] == fill && kids[i..][1..] == kids[i + 1..];
        KnowsMore(s, kids, i, pid);
        if task[fill].pid == pid {
          UnblockChild(fill);
          ret := 0;
        }
        i := i + 1;
      }
      assert kids[..i] == kids;
      SchedNextRr();
    }

    /** A blocked child is woken; any other gets a wakeup to come. */
    method UnblockChild(fill: Tid)
      requires Valid()
      modifies this, task
      ensures S() == UnblockOne(old(S()), fill) && SamePid(old(S()), S())
    {
      hide UpdateState;
      var p := task[fill];
      if p.state == Blocked {
        SetPcb(fill, p.(delivered := p.delivered + 1,
                        completed := if p.why == OnBlock then p.completed + 1 else p.completed));
        UpdatePid(S(), fill, ToReady);
        UpdateProcessStateRr(fill, ToReady);
      } else {
        SetPcb(fill, p.(pending := p.pending + 1, delivered := p.delivered + 1));
      }
    }

    method SysWaitThread(pid: int) returns (r: int)
      requires Valid()
      modifies this, task
      ensures S() == WaitThread(old(S()), pid)
      ensures var bt := FindPid(old(S()).task, pid); r == if bt == NR_TASKS then -EINVAL else S().task[bt].pid
    {
      hide UpdateState, SchedNext;
      var bt := 0;
      while bt < NR_TASKS && task[bt].pid != pid
        invariant 0 <= bt <= NR_TASKS && forall j :: 0 <= j < bt ==> task[j].pid != pid
      {
        bt := bt + 1;
      }
      FindPidIs(task[..], pid, bt);
      if bt == NR_TASKS {
        return -EINVAL;
      }
      SetPcb(bt, task[bt].(waitList := task[bt].waitList + [current]));
      UpdateProcessStateRr(current, ToBlocked(OnTask(bt)));
      SchedNextRr();
      r := task[bt].pid;
    }

    /** The part of exit that takes the current task out of the process tree. */
    method LeaveTree()
      requires Valid() && 0 <= task[current].pare < NR_TASKS
      modifies task
      ensures S() == Detach(old(S()))
    {
      var ct := current;
      var father, kids := task[ct].pare, task[ct].fills;
      SetPcb(ct, task[ct].(pid := -1, pare := NO_PARENT));
      SetPcb(father, task[father].(fills := Without(task[father].fills, ct)));
      ghost var before := S();
      var i := 0;
      assert kids[0..] == kids;
      while i < |kids|
        invariant i <= |kids| && S() == before.(task := S().task)
        invariant Adopt(S().task, kids[i..]) == Adopt(before.task, kids)
      {
        assert kids[i..][0] == kids[i] && kids[i..][1..] == kids[i + 1..];
        SetPcb(kids[i], task[kids[i]].(pare := IDLE));
        i := i + 1;
      }
      SetPcb(IDLE, task[IDLE].(fills := task[IDLE].fills + kids));
      SetPcb(ct, task[ct].(fills := []));
    }

    /** The loop of exit over the tasks that wait for this one. */
    method WakeWaiters()
      requires Valid()
      modifies this, task
      ensures S() == DrainWaiters(old(S()), old(current)) && current == old(current)
    {
      hide UpdateState;
      var ct := current;
      while task[ct].waitList != []
        invariant current == ct && DrainWaiters(S(), ct) == DrainWaiters(old(S()), ct)
        decreases |task[ct].waitList|
      {
        var ws := task[ct].waitList;
        UpdateKeepsCurrent(S(), ws[0], ToReady);
        UpdateProcessStateRr(ws[0], ToReady);
        SetPcb(ct, task[ct].(waitList := ws[1..]));
      }
    }

    /** The end of exit, once its semaphores are gone. */
    method FinishExit()
      requires Valid() && ExitTail(S()) != Fault
      modifies this, task
      ensures S() == ExitTail(old(S())).s
    {
      hide UpdateState, SchedNext, Detach, DrainWaiters;
      DetachKeepsCurrent(S());
      LeaveTree();
      WakeWaiters();
      UpdateProcessStateRr(current, ToFree);
      SchedNextRr();
    }

    // ----- semaphores

    method SysSemCreate(initialValue: int) returns (r: int)
      requires Valid()
      modifies this, semaphores
      ensures S() == SemCreate(old(S()), initialValue)
      ensures r == if FindFree(old(S()).sems) == NUM_SEMS then -1 else old(semIDglobal)
    {
      var i := 0;
      while i < NUM_SEMS && !semaphores[i].free
        invariant 0 <= i <= NUM_SEMS && forall j :: 0 <= j < i ==> !semaphores[j].free
      {
        i := i + 1;
      }
      FindFreeIs(semaphores[..], i);
      if i == NUM_SEMS {
        return -1;
      }
      SetSemaphore(i, Sem(semIDglobal, initialValue, false, task[current].pid, [], initialValue, 0, 0, [], 0));
      semIDglobal := semIDglobal + 1;
      r := semIDglobal - 1;
    }

    /** The scan for a semaphore by its id. */
    method Scan(semid: int) returns (i: nat)
      requires Valid()
      ensures i == FindSem(semaphores[..], semid)
    {
      i := 0;
      while i < NUM_SEMS && semaphores[i].id != semid
        invariant i <= NUM_SEMS && forall j :: 0 <= j < i ==> semaphores[j].id != semid
      {
        i := i + 1;
      }
      FindSemIs(semaphores[..], semid, i);
    }

    method SysSemWait(semid: int) returns (r: int)
      requires Valid()
      modifies this, task, semaphores
      ensures S() == SemWait(old(S()), semid)
      ensures r == if semid < USER_SEM_IDS then -EINVAL
                   else if FindSem(old(S()).sems, semid) == NUM_SEMS then -1
                   else if !SemFound(old(S()), semid) then -EINVAL
                   else S().sems[FindSem(old(S()).sems, semid)].creator
    {
      hide UpdateState, SchedNext;
      if semid < USER_SEM_IDS {
        return -EINVAL;
      }
      var i := Scan(semid);
      if i == NUM_SEMS {
        return -1;
      }
      if semaphores[i].free {
        return -EINVAL;
      }
      SetSemaphore(i, semaphores[i].(value := semaphores[i].value - 1, waits := semaphores[i].waits + 1));
      if semaphores[i].value < 0 {
        SetSemaphore(i, semaphores[i].(queue := semaphores[i].queue + [current],
            arrived := semaphores[i].arrived + [current]));
        assert S().sems == old(S()).sems[i := semaphores[i]];
        UpdateProcessStateRr(current, ToBlocked(OnSem(i)));
        SchedNextRr();
      }
      r := semaphores[i].creator;
    }

    /** list_first and list_del on the ring of waiters, and the wakeup. */
    method PopFirst(k: Sid)
      requires Valid() && semaphores[k].queue != []
      modifies this, task, semaphores
      ensures S() == Pop(old(S()), k, old(semaphores[k]))
    {
      hide UpdateState;
      var x := semaphores[k];
      SetSemaphore(k, x.(queue := x.queue[1..], served := x.served + 1));
      UpdateProcessStateRr(x.queue[0], ToReady);
    }

    method SysSemSignal(semid: int) returns (r: int)
      requires Valid() && SemSignal(S(), semid) != Fault
      modifies this, task, semaphores
      ensures S() == SemSignal(old(S()), semid).s
      ensures r == if semid < USER_SEM_IDS || FindSem(old(S()).sems, semid) == NUM_SEMS then -1
                   else if !SemFound(old(S()), semid) then -EINVAL
                   else S().sems[FindSem(old(S()).sems, semid)].value
    {
      hide SchedNext, Pop;
      if semid < USER_SEM_IDS {
        return -1;
      }
      var i := Scan(semid);
      if i == NUM_SEMS {
        return -1;
      }
      if semaphores[i].free {
        return -EINVAL;
      }
      SetSemaphore(i, semaphores[i].(value := semaphores[i].value + 1, signals := semaphores[i].signals + 1));
      if semaphores[i].value <= 0 {
        PopSame(old(S()), S(), i);
        PopFirst(i);
        SchedNextRr();
      }
      r := semaphores[i].value;
    }

    /** The drain loop of semDestroy from its test on, up to the yield in its body or to the end. */
    method DrainLoop(k: Sid, c: Cont) returns (done: bool)
      requires Valid()
      modifies this, task, semaphores
      ensures done <==> old(semaphores[k]).queue == []
      ensures S() == if done then Retire(old(S()), k) else DrainOne(old(S()), k, c)
    {
      hide SchedNext, Pop;
      if semaphores[k].queue != [] {
        SetPcb(current, task[current].(cont := c));
        SetSemaphore(k, semaphores[k].(creator := -1));
        PopSame(SetCont(old(S()), c), S(), k);
        PopFirst(k);
        SchedNextRr();
        return false;
      }
      SetPcb(current, task[current].(cont := User));
      SetSemaphore(k, semaphores[k].(free := true));
      done := true;
    }

    method SysSemDestroy(semid: int) returns (r: int)
      requires Valid()
      modifies this, task, semaphores
      ensures S() == SemDestroy(old(S()), semid)
      ensures var k := FindSem(old(S()).sems, semid);
              r == if semid < USER_SEM_IDS ||
                  (k < NUM_SEMS && (old(semaphores[k]).free || old(semaphores[k]).creator != old(task[current]).pid))
                   then -EINVAL else -1
    {
      hide DrainOne, Retire;
      if semid < USER_SEM_IDS {
        return -EINVAL;
      }
      var i := Scan(semid);
      if i < NUM_SEMS {
        if semaphores[i].free {
          return -EINVAL;
        }
        if task[current].pid != semaphores[i].creator {
          return -EINVAL;
        }
        var done := DrainLoop(i, Destroying(i));
      }
      r := -1;
    }

    /** sys_exit from semaphore `from` on. It comes back early when a drain loop yields. */
    method ExitLoop(from: nat)
      requires Valid() && from <= NUM_SEMS && ExitFrom(S(), from) != Fault
      modifies this, task, semaphores
      ensures S() == ExitFrom(old(S()), from).s
    {
      hide DrainOne, Retire, ExitTail;
      var i := from;
      while i < NUM_SEMS
        invariant i <= NUM_SEMS && ExitFrom(S(), i) == ExitFrom(old(S()), from)
      {
        if semaphores[i].creator == task[current].pid {
          var k := Scan(semaphores[i].id);
          assert S().sems[i].id == S().sems[i].id;
          if !semaphores[k].free && semaphores[k].creator == task[current].pid {
            var done := DrainLoop(k, Exiting(k));
            if !done {
              return;
            }
          }
        }
        i := i + 1;
      }
      FinishExit();
    }

    method SysExit()
      requires Valid() && ExitFrom(S(), 0) != Fault
      modifies this, task, semaphores
      ensures S() == ExitFrom(old(S()), 0).s
    {
      ExitLoop(0);
    }

    /** A task that was dispatched inside a drain loop goes on where it yielded. */
    method ResumeDrain()
      requires Valid() && Resume(S()) != Fault
      modifies this, task, semaphores
      ensures S() == Resume(old(S())).s
    {
      hide DrainOne, Retire, ExitFrom;
      match task[current].cont {
        case User =>
        case Destroying(k) =>
          var _ := DrainLoop(k, Destroying(k));
        case Exiting(k) =>
          var done := DrainLoop(k, Exiting(k));
          if done {
            ExitLoop(k + 1);
          }
      }
    }
  }

  lemma DetachKeepsCurrent(s: KState)
    requires 0 <= s.task[s.current].pare < NR_TASKS
    ensures Detach(s).current == s.current
  {
  }

  /** Pop on the semaphore already stored is Pop on the value about to be stored. */
  lemma PopSame(s: KState, s1: KState, k: Sid)
    requires s1.sems[k].queue != [] && s1 == SetSem(s, k, s1.sems[k])
    ensures Pop(s1, k, s1.sems[k]) == Pop(s, k, s1.sems[k])
  {
    var x := s1.sems[k];
    var y := x.(queue := x.queue[1..], served := x.served + 1);
    assert SetSem(s1, k, y) == SetSem(s, k, y);
  }

  lemma FindFreeIs(sems: seq<Sem>, i: nat)
    requires i <= |sems| && (i < |sems| ==> sems[i].free) && forall j :: 0 <= j < i ==> !sems[j].free
    ensures FindFree(sems) == i
  {
  }

  lemma FindSemIs(sems: seq<Sem>, id: int, i: nat)
    requires i <= |sems| && (i < |sems| ==> sems[i].id == id) && forall j :: 0 <= j < i ==> sems[j].id != id
    ensures FindSem(sems, id) == i
  {
  }

  lemma {:induction false} FindPidIs(task: seq<Pcb>, pid: int, i: nat)
    requires i <= |task| && (i < |task| ==> task[i].pid == pid) && forall j :: 0 <= j < i ==> task[j].pid != pid
    ensures FindPid(task, pid) == i
  {
  }

  /** Some of the tasks has this pid. */
  ghost predicate Knows(s: KState, kids: seq<Tid>, pid: int) {
    exists i :: 0 <= i < |kids| && s.task[kids[i]].pid == pid
  }

  lemma KnowsMore(s: KState, kids: seq<Tid>, i: nat, pid: int)
    requires i <= |kids|
    ensures i == 0 ==> !Knows(s, kids[..i], pid)
    ensures i < |kids| ==> (Knows(s, kids[..i + 1], pid) <==> Knows(s, kids[..i], pid) || s.task[kids[i]].pid == pid)
  {
    if i < |kids| {
      assert kids[..i + 1][i] == kids[i];
      assert forall j :: 0 <= j < i ==> kids[..i + 1][j] == kids[..i][j];
    }
  }

  lemma UpdateKeepsCurrent(s: KState, t: Tid, dest: Dest)
    ensures UpdateState(s, t, dest).current == s.current
  {
  }

  function Ascending(n: nat): seq<Tid>
    requires n <= NR_TASKS
  {
    if n == 0 then [] else Ascending(n - 1) + [n - 1]
  }

  lemma {:induction false} AscendingFacts(n: nat)
    requires n <= NR_TASKS
    ensures Nodup(Ascending(n)) && forall t: Tid :: t in Ascending(n) <==> t < n
  {
    if n > 0 {
      AscendingFacts(n - 1);
      var last: Tid := n - 1;
      NodupAppend(Ascending(n - 1), last);
    }
  }
}
