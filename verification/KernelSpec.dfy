/** The kernel of sched.c and sys.c as a state machine: one function a system call, each atomic up to
    the point where sched_next_rr hands the processor over. Queues are the sequences that the rings of
    list.c stand for; `current := nt` stands for the context switch. */
module KernelSpec {
  import opened Params

  const NUM_SEMS := 100
  const DEFAULT_QUANTUM_TICKS := 10
  const USER_SEM_IDS := 100000

  type Tid = t: nat | t < NR_TASKS
  type Sid = k: nat | k < NUM_SEMS

  const IDLE: Tid := 0   // idle_task: the first PCB taken from the free queue
  const INIT: Tid := 1   // task1
  const NO_PARENT := -1

  datatype State = Run | Free | Ready | Blocked

  /** Why a task is blocked. The code keeps only ST_BLOCKED; the reason is the list it waits on. */
  datatype Why = NotBlocked | OnBlock | OnSem(k: Sid) | OnTask(t: Tid)

  /** Where a task stands in the kernel when it is not running: back in user code, or in the middle of
      the drain loop of semDestroy, called directly or from exit. */
  datatype Cont = User | Destroying(k: Sid) | Exiting(k: Sid)

  /** struct task_struct, with two histories: unblocks addressed to the task, block calls completed. */
  datatype Pcb = Pcb(pid: int, state: State, quantum: int, pending: int, pare: int,
                     fills: seq<Tid>, waitList: seq<Tid>, why: Why, cont: Cont,
                     delivered: nat, completed: nat)

  /** struct semaphore, with its history since creation: initial value, signals, waits, and the tasks
      that ever queued, of which the first `served` were taken off again. */
  datatype Sem = Sem(id: int, value: int, free: bool, creator: int, queue: seq<Tid>,
                     initial: int, signals: nat, waits: nat, arrived: seq<Tid>, served: nat)

  datatype Machine = Machine(task: seq<Pcb>, freeq: seq<Tid>, readyq: seq<Tid>, blockedq: seq<Tid>,
                             sems: seq<Sem>, current: Tid, pidGlobal: int, semId: int, tick: int)

  ghost predicate Sized(s: Machine) { |s.task| == NR_TASKS && |s.sems| == NUM_SEMS }

  const NO_TASK := Pcb(-1, Free, 0, 0, NO_PARENT, [], [], NotBlocked, User, 0, 0)
  const NO_SEM := Sem(0, 0, true, 0, [], 0, 0, 0, [], 0)

  type KState = s: Machine | Sized(s)
    ghost witness Machine(seq(NR_TASKS, _ => NO_TASK), [], [], [], seq(NUM_SEMS, _ => NO_SEM), IDLE, 0, 0, 0)

  /** A call that would follow a pointer no ring holds ends in a fault. */
  datatype Outcome = Fault | Done(s: KState)

  // ----- queues

  ghost predicate Nodup(q: seq<Tid>) {
    forall i, j :: 0 <= i < j < |q| ==> q[i] != q[j]
  }

  /** list_del: the queue without `t`. */
  function Without(q: seq<Tid>, t: Tid): (r: seq<Tid>)
    ensures forall x :: x in r <==> x in q && x != t
    ensures Nodup(q) ==> Nodup(r)
    ensures t !in q ==> r == q
  {
    if q == [] then []
    else
      assert q == [q[0]] + q[1..];
      assert Nodup(q) ==> Nodup(q[1..]) && q[0] !in q[1..];
      var r := Without(q[1..], t);
      assert Nodup(r) && q[0] !in r ==> Nodup([q[0]] + r);
      if q[0] == t then r else [q[0]] + r
  }

  datatype Dest = ToNull | ToReady | ToFree | ToBlocked(why: Why)

  function SetTask(s: KState, t: Tid, p: Pcb): KState {
    s.(task := s.task[t := p])
  }

  function SetSem(s: KState, k: Sid, x: Sem): KState {
    s.(sems := s.sems[k := x])
  }

  function Unlink(s: KState, t: Tid): KState {
    s.(freeq := Without(s.freeq, t), readyq := Without(s.readyq, t), blockedq := Without(s.blockedq, t))
  }

  /** update_process_state_rr. */
  function UpdateState(s: KState, t: Tid, dest: Dest): KState {
    var p := s.task[t];
    if p.pid < 0 then
      SetTask(s, t, p.(state := Free, why := NotBlocked)).(freeq := s.freeq + [t])
    else
      var s1 := if p.pid > 0 && p.state != Run then Unlink(s, t) else s;
      match dest
      case ToNull =>
        SetTask(s1, t, p.(state := Run, why := NotBlocked))
      case ToReady =>
        var s2 := SetTask(s1, t, p.(state := Ready, why := NotBlocked));
        if p.pid != 0 then s2.(readyq := s1.readyq + [t]) else s2
      case ToFree =>
        var s2 := SetTask(s1, t, p.(state := Free, why := NotBlocked));
        if p.pid != 0 then s2.(freeq := s1.freeq + [t]) else s2
      case ToBlocked(why) =>
        var s2 := SetTask(s1, t, p.(state := Blocked, why := why));
        if p.pid != 0 then s2.(blockedq := s1.blockedq + [t]) else s2
  }

  /** The task sched_next_rr picks. */
  function Next(s: KState): Tid {
    if s.readyq == [] then IDLE else s.readyq[0]
  }

  /** sched_next_rr. */
  function SchedNext(s: KState): KState {
    var nt := Next(s);
    var s1 := if s.task[s.current].state == Run then UpdateState(s, s.current, ToReady) else s;
    var s2 := UpdateState(s1, nt, ToNull);
    var s3 := s2.(tick := s2.task[nt].quantum);
    if s3.task[s.current].pid != s3.task[nt].pid then s3.(current := nt) else s3
  }

  // ----- searches

  /** The first PCB with this pid, free PCBs included; NR_TASKS when there is none. */
  function FindPid(task: seq<Pcb>, pid: int): (i: nat)
    ensures i <= |task|
    ensures i < |task| ==> task[i].pid == pid
    ensures forall j :: 0 <= j < i ==> task[j].pid != pid
  {
    if task == [] || task[0].pid == pid then 0 else 1 + FindPid(task[1..], pid)
  }

  function FindSem(sems: seq<Sem>, id: int): (i: nat)
    ensures i <= |sems|
    ensures i < |sems| ==> sems[i].id == id
    ensures forall j :: 0 <= j < i ==> sems[j].id != id
  {
    if sems == [] || sems[0].id == id then 0 else 1 + FindSem(sems[1..], id)
  }

  function FindFree(sems: seq<Sem>): (i: nat)
    ensures i <= |sems|
    ensures i < |sems| ==> sems[i].free
    ensures forall j :: 0 <= j < i ==> !sems[j].free
  {
    if sems == [] || sems[0].free then 0 else 1 + FindFree(sems[1..])
  }

  // ----- tasks

  /** sys_fork without the memory, which is `Frames`: `memOk` says whether the frames sufficed. */
  function Fork(s: KState, memOk: bool): KState {
    if s.freeq == [] then s
    else
      var f, cur := s.freeq[0], s.task[s.current];
      var s1 := SetTask(s.(freeq := Without(s.freeq, f)), f, cur);
      if !memOk then s1.(freeq := s1.freeq + [f])
      else Spawn(s1, f)
  }

  /** fork without memory, repaired: the PCB goes back as a free one, with no pid and no list of waiters. */
  function RefuseFork(s: KState): KState
    requires s.freeq != []
  {
    var f, cur := s.freeq[0], s.task[s.current];
    UpdateState(SetTask(s.(freeq := Without(s.freeq, f)), f, cur.(pid := -1, waitList := [])), f, ToFree)
  }

  /** The part fork and create_thread share, once the parent's PCB is copied into `f`. */
  function Spawn(s: KState, f: Tid): KState {
    var child := s.task[f].(pid := s.pidGlobal, pare := s.current, fills := [], waitList := [],
                            pending := 0, quantum := DEFAULT_QUANTUM_TICKS,
                            delivered := 0, completed := 0);
    var s1 := SetTask(s, f, child).(pidGlobal := s.pidGlobal + 1);
    var cur := s1.task[s.current];
    UpdateState(SetTask(s1, s.current, cur.(fills := cur.fills + [f])), f, ToReady)
  }

  /** sys_create_thread; `argsOk` is the outcome of its access_ok tests. */
  function CreateThread(s: KState, argsOk: bool): KState {
    if s.freeq == [] || !argsOk then s
    else
      var f := s.freeq[0];
      Spawn(SetTask(s.(freeq := Without(s.freeq, f)), f, s.task[s.current]), f)
  }

  function Adopt(task: seq<Pcb>, kids: seq<Tid>): (r: seq<Pcb>)
    requires |task| == NR_TASKS
    ensures |r| == NR_TASKS
    ensures forall t: Tid :: r[t] == if t in kids then task[t].(pare := IDLE) else task[t]
    decreases |kids|
  {
    if kids == [] then task
    else Adopt(task[kids[0] := task[kids[0]].(pare := IDLE)], kids[1..])
  }

  /** The exiting task leaves the tree: off its parent's list, its children to the idle task. */
  function Detach(s: KState): KState
    requires 0 <= s.task[s.current].pare < NR_TASKS
  {
    var ct := s.task[s.current];
    var s1 := SetTask(s, s.current, ct.(pid := -1, pare := NO_PARENT));
    var father := s1.task[ct.pare];
    var s2 := SetTask(s1, ct.pare, father.(fills := Without(father.fills, s.current)));
    var s3 := s2.(task := Adopt(s2.task, ct.fills));
    var s4 := SetTask(s3, IDLE, s3.task[IDLE].(fills := s3.task[IDLE].fills + ct.fills));
    SetTask(s4, s.current, s4.task[s.current].(fills := []))
  }

  /** The loop of sys_exit over the waiting tasks: each becomes ready and leaves the list. */
  function DrainWaiters(s: KState, t: Tid): KState
    decreases |s.task[t].waitList|
  {
    var ws := s.task[t].waitList;
    if ws == [] then s
    else
      var s1 := UpdateState(s, ws[0], ToReady);
      DrainWaiters(SetTask(s1, t, s1.task[t].(waitList := ws[1..])), t)
  }

  /** sys_exit once its semaphores are gone. The PCB of task1 was never linked to a parent. */
  function ExitTail(s: KState): Outcome {
    if !(0 <= s.task[s.current].pare < NR_TASKS) then Fault
    else
      var s1 := DrainWaiters(Detach(s), s.current);
      Done(SchedNext(UpdateState(s1, s.current, ToFree)))
  }

  function Block(s: KState): KState {
    var ct := s.task[s.current];
    if ct.pending <= 0 then SchedNext(UpdateState(s, s.current, ToBlocked(OnBlock)))
    else SetTask(s, s.current, ct.(pending := ct.pending - 1, completed := ct.completed + 1))
  }

  /** One child found by sys_unblock. */
  function UnblockOne(s: KState, t: Tid): KState {
    var p := s.task[t];
    if p.state == Blocked then
      UpdateState(SetTask(s, t, p.(delivered := p.delivered + 1,
                                   completed := if p.why == OnBlock then p.completed + 1 else p.completed)),
                  t, ToReady)
    else SetTask(s, t, p.(pending := p.pending + 1, delivered := p.delivered + 1))
  }

  function UnblockAll(s: KState, kids: seq<Tid>, pid: int): KState
    decreases |kids|
  {
    if kids == [] then s
    else if s.task[kids[0]].pid == pid then UnblockAll(UnblockOne(s, kids[0]), kids[1..], pid)
    else UnblockAll(s, kids[1..], pid)
  }

  function Unblock(s: KState, pid: int): KState {
    SchedNext(UnblockAll(s, s.task[s.current].fills, pid))
  }

  function WaitThread(s: KState, pid: int): KState {
    var bt := FindPid(s.task, pid);
    if bt == NR_TASKS then s
    else
      var s1 := SetTask(s, bt, s.task[bt].(waitList := s.task[bt].waitList + [s.current]));
      SchedNext(UpdateState(s1, s.current, ToBlocked(OnTask(bt))))
  }

  // ----- semaphores

  function SemCreate(s: KState, v: int): KState {
    var k := FindFree(s.sems);
    if k == NUM_SEMS then s
    else SetSem(s, k, Sem(s.semId, v, false, s.task[s.current].pid, [], v, 0, 0, [], 0))
         .(semId := s.semId + 1)
  }

  function SemWait(s: KState, id: int): KState {
    var k := FindSem(s.sems, id);
    if id < USER_SEM_IDS || k == NUM_SEMS || s.sems[k].free then s
    else
      var x := s.sems[k].(value := s.sems[k].value - 1, waits := s.sems[k].waits + 1);
      if x.value < 0 then
        var s1 := SetSem(s, k, x.(queue := x.queue + [s.current], arrived := x.arrived + [s.current]));
        SchedNext(UpdateState(s1, s.current, ToBlocked(OnSem(k))))
      else SetSem(s, k, x)
  }

  /** Takes the first waiter off semaphore `k` and makes it ready. */
  function Pop(s: KState, k: Sid, x: Sem): KState
    requires x.queue != []
  {
    UpdateState(SetSem(s, k, x.(queue := x.queue[1..], served := x.served + 1)), x.queue[0], ToReady)
  }

  function SemSignal(s: KState, id: int): Outcome {
    var k := FindSem(s.sems, id);
    if id < USER_SEM_IDS || k == NUM_SEMS || s.sems[k].free then Done(s)
    else
      var x := s.sems[k].(value := s.sems[k].value + 1, signals := s.sems[k].signals + 1);
      if x.value > 0 then Done(SetSem(s, k, x))
      else if x.queue == [] then Fault
      else Done(SchedNext(Pop(s, k, x)))
  }

  function SetCont(s: KState, c: Cont): KState {
    SetTask(s, s.current, s.task[s.current].(cont := c))
  }

  /** One turn of the drain loop of semDestroy on a waiter: it ends in a yield, and the caller will go
      on from `c`. The value of the semaphore is not adjusted. */
  function DrainOne(s: KState, k: Sid, c: Cont): KState
    requires s.sems[k].queue != []
  {
    SchedNext(Pop(SetCont(s, c), k, s.sems[k].(creator := -1)))
  }

  /** The drain loop finds no waiter: the slot is free again. */
  function Retire(s: KState, k: Sid): KState {
    SetSem(SetCont(s, User), k, s.sems[k].(free := true))
  }

  /** The drain loop of semDestroy from its test on, up to a yield or to the end of the call. */
  function DrainFrom(s: KState, k: Sid): KState {
    if s.sems[k].queue == [] then Retire(s, k) else DrainOne(s, k, Destroying(k))
  }

  function SemDestroy(s: KState, id: int): KState {
    var k := FindSem(s.sems, id);
    if id < USER_SEM_IDS || k == NUM_SEMS || s.sems[k].free then s
    else if s.task[s.current].pid != s.sems[k].creator then s
    else DrainFrom(s, k)
  }

  /** sys_exit from semaphore `i` on: destroys those the task created, each drain yielding. */
  function ExitFrom(s: KState, i: nat): Outcome
    requires i <= NUM_SEMS
    decreases NUM_SEMS - i
  {
    if i == NUM_SEMS then ExitTail(s)
    else if s.sems[i].creator != s.task[s.current].pid then ExitFrom(s, i + 1)
    else
      var k := FindSem(s.sems, s.sems[i].id);
      if s.sems[k].free || s.sems[k].creator != s.task[s.current].pid then ExitFrom(s, i + 1)
      else if s.sems[k].queue == [] then ExitFrom(Retire(s, k), i + 1)
      else Done(DrainOne(s, k, Exiting(k)))
  }

  /** A task dispatched in the middle of a drain loop goes on with it. */
  function Resume(s: KState): Outcome {
    match s.task[s.current].cont
    case User => Done(s)
    case Destroying(k) => Done(DrainFrom(s, k))
    case Exiting(k) =>
      if s.sems[k].queue == [] then ExitFrom(Retire(s, k), k + 1) else Done(DrainOne(s, k, Exiting(k)))
  }

  // ----- the clock

  /** clock_routine: a used-up quantum ends in a dispatch. */
  function Tick(s: KState): KState {
    var s1 := if s.tick > 0 then s.(tick := s.tick - 1) else s;
    if s1.tick <= 0 then SchedNext(s1) else s1
  }

  // ----- runs

  datatype Call = CTick | CFork(memOk: bool) | CThread(argsOk: bool) | CExit | CBlock | CUnblock(pid: int)
                | CWait(pid: int) | CSemCreate(v: int) | CSemWait(id: int) | CSemSignal(id: int)
                | CSemDestroy(id: int) | CResume

  /** What can happen next: the idle task makes no calls, and a task inside a drain loop resumes it. */
  predicate Enabled(s: KState, c: Call) {
    && (c == CResume <==> s.task[s.current].cont != User)
    && (c != CTick && c != CResume ==> s.current != IDLE)
  }

  function Step(s: KState, c: Call): Outcome {
    match c
    case CTick => Done(Tick(s))
    case CFork(ok) => Done(Fork(s, ok))
    case CThread(ok) => Done(CreateThread(s, ok))
    case CExit => ExitFrom(s, 0)
    case CBlock => Done(Block(s))
    case CUnblock(pid) => Done(Unblock(s, pid))
    case CWait(pid) => Done(WaitThread(s, pid))
    case CSemCreate(v) => Done(SemCreate(s, v))
    case CSemWait(id) => Done(SemWait(s, id))
    case CSemSignal(id) => SemSignal(s, id)
    case CSemDestroy(id) => Done(SemDestroy(s, id))
    case CResume => Resume(s)
  }

  // ----- boot

  /** init_sched, init_idle and init_task1. */
  function Boot(): KState {
    var idle := NO_TASK.(pid := 0, state := Ready);
    var init := NO_TASK.(pid := 1, state := Run, quantum := DEFAULT_QUANTUM_TICKS);
    Machine(seq(NR_TASKS, i => if i == IDLE then idle else if i == INIT then init else NO_TASK),
            seq(NR_TASKS - 2, i requires 0 <= i < NR_TASKS - 2 => i + 2), [], [],
            seq(NUM_SEMS, _ => NO_SEM), INIT, 1000, USER_SEM_IDS, DEFAULT_QUANTUM_TICKS)
  }
}
