/** Scheduler and memory in one step: what a call does to the PCBs and queues and, at the same time, to
    frames and directories. */
module Joint {
  import opened Params
  import opened KernelSpec
  import opened KernelInv
  import opened KernelSteps
  import opened KernelEffects
  import opened KernelLedger
  import KernelRuns
  import FM = FrameModel
  import FR = FrameRuns
  import FS = ForkSteps
  import FB = FrameLoops

  // ----- which PCBs a call gives a pid or takes one from

  /** The call ended the current task. */
  predicate Ends(s: KState, c: Call) {
    Step(s, c) != Fault && s.task[s.current].pid >= 0 && Step(s, c).s.task[s.current].pid < 0
  }

  /** A guarded call makes exactly the first free PCB live when it spawns, and exactly the current task
      free when it ends; otherwise the live tasks stay the same. */
  lemma LiveAfter(s: KState, c: Call, t: Tid)
    requires Inv(s) && Enabled(s, c) && Guard(s, c) && Step(s, c) != Fault
    ensures Alive(Step(s, c).s, t) <==>
              (Alive(s, t) || (Spawns(s, c) && t == s.freeq[0])) && !(Ends(s, c) && t == s.current)
    ensures Ends(s, c) ==> s.current != IDLE && !Spawns(s, c)
  {
    hide Inv, Step, Guard, Enabled;
    PidsAfter(s, c);
    FirstIsDead(s);
    RunsAwake(s);
    NewPidLive(s);
    if c != CTick {
      CallerBusy(s, c);
    }
  }

  lemma NewPidLive(s: KState)
    requires Inv(s)
    ensures 0 < s.pidGlobal
  {
    hide Queues, Tree, Waits, Sems, Conts, Wakeups, Quanta;
  }

  // ----- both halves together

  /** A PCB is live exactly when it uses a directory. */
  ghost predicate Agree(s: KState, v: FM.View)
    requires FM.Shaped(v)
  {
    forall t: Tid :: Alive(s, t) <==> v.users[t] != -1
  }

  ghost predicate JointInv(s: KState, v: FM.View) {
    Inv(s) && FR.Ready(v) && Agree(s, v)
  }

  /** A call of the kernel's, with the contents fork leaves; a fork refused for want of a directory or of
      frames; or a dyn_mem of the current task. */
  datatype JointCall = Kernel(c: Call, data: seq<FM.Page>) | RefusedFork | DynMem(pages: int)

  /** What the call asks of the memory: nothing unless it spawns, ends the task or is dyn_mem. */
  datatype Demand = Nothing | Demand(call: FR.MemCall)

  ghost function DemandOf(s: KState, v: FM.View, j: JointCall): Demand
    requires j.RefusedFork? ==> s.freeq != []
  {
    match j
    case DynMem(n) => Demand(FR.DynMem(s.current, n))
    case RefusedFork =>
      if FR.FreeDir(v.refs) < NR_TASKS then Demand(FR.Fork(s.current, s.freeq[0], v.data)) else Nothing
    case Kernel(c, data) =>
      if Spawns(s, c) then
        Demand(if c.CFork? then FR.Fork(s.current, s.freeq[0], data) else FR.Thread(s.current, s.freeq[0]))
      else if Ends(s, c) then Demand(FR.Exit(s.current))
      else Nothing
  }

  /** A directory is free, and there are frames enough for a fork of task `t`. */
  ghost predicate Fits(v: FM.View, t: nat) {
    && FM.Shaped(v) && FR.Sized(v, t) && FR.FreeDir(v.refs) < NR_TASKS
    && NUM_PAG_DATA + FS.ForkHeap(v, t, FR.FreeDir(v.refs)) <= FR.FreeCount(v.phys)
    && 0 <= FS.ForkHeap(v, t, FR.FreeDir(v.refs))
  }

  /** `data` is what a fork of task `t` leaves in the frames. */
  ghost predicate Copied(v: FM.View, t: nat, data: seq<FM.Page>)
    requires Fits(v, t)
  {
    FS.PagesCopied(v, v.users[t], FR.Grab(v.phys, NUM_PAG_DATA + FS.ForkHeap(v, t, FR.FreeDir(v.refs))), data)
  }

  /** The kernel's guard; and fork is refused exactly if the memory cannot serve it. */
  ghost predicate May(s: KState, v: FM.View, j: JointCall)
    requires JointInv(s, v)
  {
    match j
    case DynMem(n) => s.current != IDLE && s.task[s.current].cont == User
    case RefusedFork => s.current != IDLE && s.task[s.current].cont == User && s.freeq != [] && !Fits(v, s.current)
    case Kernel(c, data) =>
      && Enabled(s, c) && Guard(s, c)
      && (c.CFork? && Spawns(s, c) ==> Fits(v, s.current) && Copied(v, s.current, data))
  }

  ghost function NextKernel(s: KState, j: JointCall): KState
    requires j.Kernel? ==> Step(s, j.c) != Fault
    requires j.RefusedFork? ==> s.freeq != []
  {
    match j
    case Kernel(c, data) => Step(s, c).s
    case RefusedFork => RefuseFork(s)
    case DynMem(n) => s
  }

  /** The memory has what the call asks for. */
  ghost predicate Served(s: KState, v: FM.View, j: JointCall) {
    && FM.Shaped(v) && (j.Kernel? ==> Step(s, j.c) != Fault) && (j.RefusedFork? ==> s.freeq != [])
    && (DemandOf(s, v, j).Demand? ==> FR.Possible(v, DemandOf(s, v, j).call) && FR.Sized(v, DemandOf(s, v, j).call.t))
  }

  ghost function NextMemory(s: KState, v: FM.View, j: JointCall): FM.View
    requires Served(s, v, j)
  {
    match DemandOf(s, v, j)
    case Nothing => v
    case Demand(call) => FR.After(v, call, true)
  }

  lemma UserTask(s: KState, v: FM.View, t: Tid)
    requires JointInv(s, v) && t != IDLE
    ensures Alive(s, t) <==> 2 <= v.users[t] < NR_TASKS
    ensures Alive(s, t) ==> FR.Sized(v, t)
    ensures !Alive(s, t) <==> v.users[t] == -1
  {
    hide Inv, FM.Tables, FM.Owned;
    if Alive(s, t) {
      FR.SoundSized(v, t);
    }
  }

  lemma DynMemPossible(s: KState, v: FM.View, n: int)
    requires JointInv(s, v) && s.current != IDLE
    ensures FR.Possible(v, FR.DynMem(s.current, n)) && FR.Sized(v, s.current)
  {
    UserTask(s, v, s.current);
    hide FR.Ready, Steady;
  }

  lemma SpawnPossible(s: KState, v: FM.View)
    requires JointInv(s, v) && s.current != IDLE && s.freeq != []
    ensures FR.Possible(v, FR.Thread(s.current, s.freeq[0])) && FR.Sized(v, s.current)
    ensures FR.FreeDir(v.refs) < NR_TASKS ==>
              forall data :: |data| == TOTAL_PAGES ==> FR.Possible(v, FR.Fork(s.current, s.freeq[0], data))
  {
    FirstIsFree(s);
    UserTask(s, v, s.current);
    UserTask(s, v, s.freeq[0]);
    hide Inv, FR.Ready, FR.FreeDir;
  }

  lemma FirstIsFree(s: KState)
    requires Inv(s) && s.freeq != []
    ensures s.freeq[0] != IDLE && !Alive(s, s.freeq[0]) && s.freeq[0] != s.current
  {
    FreeFirst(s);
    hide Steady;
  }

  lemma ExitPossible(s: KState, v: FM.View, c: Call)
    requires JointInv(s, v) && Enabled(s, c) && Guard(s, c) && Step(s, c) != Fault && Ends(s, c)
    ensures FR.Possible(v, FR.Exit(s.current)) && FR.Sized(v, s.current) && !Spawns(s, c)
  {
    LiveAfter(s, c, s.current);
    UserTask(s, v, s.current);
    hide Steady, FR.Ready, Step, Enabled, Guard, Ends;
  }

  /** The memory can always do what the kernel asks of it. */
  lemma DemandServed(s: KState, v: FM.View, j: JointCall)
    requires JointInv(s, v) && May(s, v, j)
    ensures Served(s, v, j)
  {
    assert FM.Shaped(v);
    hide JointInv, Step, Guard, Enabled, FR.Sized, FR.Possible, FM.Shaped, FR.FreeDir, Fits, Copied, Spawns, Ends;
    match j
    case DynMem(n) => DynMemPossible(s, v, n);
    case RefusedFork =>
      SpawnPossible(s, v);
      DataSized(v);
    case Kernel(c, data) => KernelServed(s, v, c, data);
  }

  lemma KernelServed(s: KState, v: FM.View, c: Call, data: seq<FM.Page>)
    requires JointInv(s, v) && May(s, v, Kernel(c, data)) && FM.Shaped(v)
    ensures Served(s, v, Kernel(c, data))
  {
    hide JointInv, Step, Guard, Enabled, FR.Sized, FR.Possible, FM.Shaped, FR.FreeDir, Fits, Copied, Spawns, Ends;
    JointStepIff(s, v, c);
    if Spawns(s, c) {
      SpawnsOnly(s, c);
      NotIdle(s, v, c);
      SpawnPossible(s, v);
      if c.CFork? {
        CopiedSized(v, s.current, data);
      }
    } else if Ends(s, c) {
      ExitPossible(s, v, c);
    }
  }

  lemma NotIdle(s: KState, v: FM.View, c: Call)
    requires JointInv(s, v) && Enabled(s, c) && c != CTick
    ensures s.current != IDLE
  {
    CallerBusy(s, c);
  }

  lemma DataSized(v: FM.View)
    requires FM.Shaped(v)
    ensures |v.data| == TOTAL_PAGES
  {
  }

  lemma CopiedSized(v: FM.View, t: nat, data: seq<FM.Page>)
    requires Fits(v, t) && Copied(v, t, data)
    ensures |data| == TOTAL_PAGES && FR.FreeDir(v.refs) < NR_TASKS
  {
  }

  lemma SpawnsOnly(s: KState, c: Call)
    requires Spawns(s, c)
    ensures s.freeq != [] && c != CTick && (c.CFork? || c.CThread?)
  {
  }

  lemma JointStepIff(s: KState, v: FM.View, c: Call)
    requires JointInv(s, v) && Enabled(s, c) && Guard(s, c)
    ensures Step(s, c) != Fault && Inv(Step(s, c).s)
  {
    hide Inv, FR.Ready, Step, Guard, Enabled;
    StepIff(s, c);
  }

  /** What a demand does to the directories: fork and create_thread give the new task one, exit takes
      the caller's away. */
  lemma DemandUsers(v: FM.View, call: FR.MemCall)
    requires FM.Shaped(v) && FR.Possible(v, call) && FR.Sized(v, call.t)
    ensures var v' := FR.After(v, call, true);
            match call
            case DynMem(t, n) => v'.users == v.users
            case Fork(t, f, data) =>
              v'.users == if FR.Enough(v, call) then v.users[f := FR.FreeDir(v.refs)] else v.users
            case Thread(t, f) => v'.users == v.users[f := v.users[t]]
            case Exit(t) => v'.users == v.users[t := -1]
  {
    hide FR.Grab, FR.FreeCount;
  }

  /** A joint step keeps both invariants, and the live tasks are still the users of directories. */
  lemma JointKeeps(s: KState, v: FM.View, j: JointCall)
    requires JointInv(s, v) && May(s, v, j)
    ensures Served(s, v, j) && JointInv(NextKernel(s, j), NextMemory(s, v, j))
  {
    DemandServed(s, v, j);
    JointKernel(s, v, j);
    JointMemory(s, v, j);
    JointAgree(s, v, j);
    hide Inv, FR.Ready, Agree, NextKernel, NextMemory, Served;
  }

  lemma JointKernel(s: KState, v: FM.View, j: JointCall)
    requires JointInv(s, v) && May(s, v, j) && Served(s, v, j)
    ensures Inv(NextKernel(s, j))
  {
    match j
    case Kernel(c, data) => JointStepIff(s, v, c);
    case RefusedFork => RefuseKeeps(s);
    case DynMem(n) =>
  }

  lemma JointMemory(s: KState, v: FM.View, j: JointCall)
    requires JointInv(s, v) && Served(s, v, j)
    ensures FR.Ready(NextMemory(s, v, j))
  {
    hide Inv, FR.Ready, FR.After, FR.Possible, DemandOf;
    if DemandOf(s, v, j).Demand? {
      FR.RepairedKeeps(v, DemandOf(s, v, j).call);
    }
  }

  lemma JointAgree(s: KState, v: FM.View, j: JointCall)
    requires JointInv(s, v) && May(s, v, j) && Served(s, v, j) && FM.Shaped(NextMemory(s, v, j))
    ensures Agree(NextKernel(s, j), NextMemory(s, v, j))
  {
    forall t: Tid ensures Alive(NextKernel(s, j), t) <==> NextMemory(s, v, j).users[t] != -1 {
      AgreeAt(s, v, j, t);
    }
    hide JointInv, May, NextKernel, NextMemory, Served;
  }

  lemma AgreeAt(s: KState, v: FM.View, j: JointCall, t: Tid)
    requires JointInv(s, v) && May(s, v, j) && Served(s, v, j) && FM.Shaped(NextMemory(s, v, j))
    ensures Alive(NextKernel(s, j), t) <==> NextMemory(s, v, j).users[t] != -1
  {
    match j
    case DynMem(n) =>
      DemandUsers(v, DemandOf(s, v, j).call);
      hide Inv, FR.Ready, FR.After;
    case RefusedFork => AgreeRefused(s, v, t);
    case Kernel(c, data) => AgreeKernel(s, v, c, data, t);
  }

  lemma AgreeRefused(s: KState, v: FM.View, t: Tid)
    requires JointInv(s, v) && May(s, v, RefusedFork) && Served(s, v, RefusedFork)
    requires FM.Shaped(NextMemory(s, v, RefusedFork))
    ensures Alive(RefuseFork(s), t) <==> NextMemory(s, v, RefusedFork).users[t] != -1
  {
    RefuseKeeps(s);
    NotServed(s, v);
    var d := DemandOf(s, v, RefusedFork);
    if d.Demand? {
      DemandUsers(v, d.call);
    }
    hide Inv, FR.Ready, FR.After, FR.Enough, RefuseFork, Refused;
  }

  lemma NotServed(s: KState, v: FM.View)
    requires JointInv(s, v) && May(s, v, RefusedFork) && Served(s, v, RefusedFork)
    ensures var d := DemandOf(s, v, RefusedFork); d.Demand? ==> !FR.Enough(v, d.call)
  {
    UserTask(s, v, s.current);
    hide Inv, FR.Ready, FR.FreeCount, FR.FreeDir;
  }

  lemma AgreeKernel(s: KState, v: FM.View, c: Call, data: seq<FM.Page>, t: Tid)
    requires var j := Kernel(c, data);
             JointInv(s, v) && May(s, v, j) && Served(s, v, j) && FM.Shaped(NextMemory(s, v, j))
    ensures Alive(Step(s, c).s, t) <==> NextMemory(s, v, Kernel(c, data)).users[t] != -1
  {
    hide Inv, FR.Ready, FR.After, FR.Possible, Step, Guard, Enabled, Ends, Spawns;
    LiveAfter(s, c, t);
    if Spawns(s, c) {
      SpawnsOnly(s, c);
      NotIdle(s, v, c);
      UserTask(s, v, s.current);
      DemandUsers(v, DemandOf(s, v, Kernel(c, data)).call);
      FirstIsFree(s);
      if c.CFork? {
        ForkGivesDir(s, v, c, data);
      }
    } else if Ends(s, c) {
      DemandUsers(v, DemandOf(s, v, Kernel(c, data)).call);
    }
  }

  lemma ForkGivesDir(s: KState, v: FM.View, c: Call, data: seq<FM.Page>)
    requires JointInv(s, v) && May(s, v, Kernel(c, data)) && Spawns(s, c) && c.CFork?
    requires FR.Possible(v, FR.Fork(s.current, s.freeq[0], data))
    ensures FR.FreeDir(v.refs) < NR_TASKS && FR.Enough(v, FR.Fork(s.current, s.freeq[0], data))
  {
    hide Inv, FR.Ready, Agree, Guard, Enabled, FR.FreeCount, FR.FreeDir, Copied;
  }

  // ----- runs

  ghost predicate Legal(s: KState, v: FM.View, js: seq<JointCall>)
    requires JointInv(s, v)
    decreases |js|
  {
    js != [] ==>
      && May(s, v, js[0])
      && (JointKeeps(s, v, js[0]); Legal(NextKernel(s, js[0]), NextMemory(s, v, js[0]), js[1..]))
  }

  ghost function End(s: KState, v: FM.View, js: seq<JointCall>): (r: (KState, FM.View))
    requires JointInv(s, v) && Legal(s, v, js)
    ensures JointInv(r.0, r.1)
    decreases |js|
  {
    if js == [] then (s, v)
    else
      JointKeeps(s, v, js[0]);
      End(NextKernel(s, js[0]), NextMemory(s, v, js[0]), js[1..])
  }

  /** fork on the tables of the memory, with the child's own counter, is the memory's half of a joint step:
      of a fork if it succeeds, and else of a refused one. */
  lemma ForkIsJoint(s: KState, v: FM.View, tlb: map<nat, nat>, ok: bool, tlb': map<nat, nat>, v': FM.View)
    requires JointInv(s, v) && s.current != IDLE && s.task[s.current].cont == User && s.freeq != []
    requires FR.FreeDir(v.refs) < NR_TASKS && FB.ForkResult(tlb, v, s.current, s.freeq[0], true, ok, tlb', v')
    ensures var j := if ok then Kernel(CFork(true), v'.data) else RefusedFork;
            May(s, v, j) && Served(s, v, j) && v' == NextMemory(s, v, j)
  {
    hide JointInv, Fits, Copied, Step, FR.After, FR.Possible, FR.Enough, FR.FreeDir, FM.Shaped;
    ForkMayJoin(s, v, tlb, ok, tlb', v');
    DemandServed(s, v, if ok then Kernel(CFork(true), v'.data) else RefusedFork);
  }

  lemma ForkMayJoin(s: KState, v: FM.View, tlb: map<nat, nat>, ok: bool, tlb': map<nat, nat>, v': FM.View)
    requires JointInv(s, v) && s.current != IDLE && s.task[s.current].cont == User && s.freeq != []
    requires FR.FreeDir(v.refs) < NR_TASKS && FB.ForkResult(tlb, v, s.current, s.freeq[0], true, ok, tlb', v')
    ensures May(s, v, if ok then Kernel(CFork(true), v'.data) else RefusedFork)
  {
    hide JointInv, Fits, Copied, FR.After, FR.Possible, FR.Enough, FR.FreeDir, FM.Shaped, FB.ForkResult;
    ForkFits(s, v, tlb, ok, tlb', v');
  }

  lemma ForkFits(s: KState, v: FM.View, tlb: map<nat, nat>, ok: bool, tlb': map<nat, nat>, v': FM.View)
    requires JointInv(s, v) && s.current != IDLE && s.task[s.current].cont == User && s.freeq != []
    requires FR.FreeDir(v.refs) < NR_TASKS && FB.ForkResult(tlb, v, s.current, s.freeq[0], true, ok, tlb', v')
    ensures Fits(v, s.current) == ok && (ok ==> Copied(v, s.current, v'.data))
  {
    hide Inv, FR.FreeDir, FR.FreeCount, FR.Grab, FS.PagesCopied, FR.After, FM.Sound;
    OwnHeapPassedOn(s, v);
  }

  lemma OwnHeapPassedOn(s: KState, v: FM.View)
    requires JointInv(s, v) && s.current != IDLE && FR.FreeDir(v.refs) < NR_TASKS
    ensures FR.Sized(v, s.current) && 0 <= FS.ForkHeap(v, s.current, FR.FreeDir(v.refs)) == v.zones[v.myHeap[s.current]]
  {
    UserTask(s, v, s.current);
    FR.FreeDirIsUsers(v);
    FB.SoundRefs(v, s.current);
    hide Inv, FM.Tables, FM.Owned, FR.FreeDir;
  }

  lemma BootAgrees(data: seq<FM.Page>)
    requires |data| == TOTAL_PAGES
    ensures JointInv(Boot(), FB.Booted(data))
  {
    BootInv();
    BootIsBooted();
    FB.BootReady(data);
    hide Inv, FR.Ready, Boot, FB.UsedUpTo, FB.Task1Table, FB.KernelTable;
  }

  /** In every state a guarded run of the whole system can reach: one task runs and every PCB is in one
      place; the used user frames are the eight of the code plus 20 and the heap for each directory in
      use; each directory counts exactly the live tasks that run in it; and a fork then finds a
      directory unless only one PCB is left. */
  lemma SystemSafety(data: seq<FM.Page>, js: seq<JointCall>)
    requires |data| == TOTAL_PAGES
    ensures JointInv(Boot(), FB.Booted(data))
    ensures Legal(Boot(), FB.Booted(data), js) ==>
              var (s, v) := End(Boot(), FB.Booted(data), js);
              && (forall t: Tid :: s.task[t].state == Run <==> t == s.current)
              && (forall t: Tid :: s.task[t].state != Free <==> v.users[t] != -1)
              && |FM.UsedFrames(v)| == NUM_PAG_CODE + FM.PagesBelow(v, NR_TASKS)
              && (forall d :: 2 <= d < NR_TASKS ==> v.refs[d] == FM.Count(v.users, d))
              && (|s.freeq| >= 2 ==> FR.FreeDir(v.refs) < NR_TASKS)
  {
    BootAgrees(data);
    if Legal(Boot(), FB.Booted(data), js) {
      var (s, v) := End(Boot(), FB.Booted(data), js);
      hide Boot, FB.Booted, Legal, End, JointInv;
      StateSafety(s, v);
    }
  }

  lemma StateSafety(s: KState, v: FM.View)
    requires JointInv(s, v)
    ensures forall t: Tid :: s.task[t].state == Run <==> t == s.current
    ensures forall t: Tid :: s.task[t].state != Free <==> v.users[t] != -1
    ensures |FM.UsedFrames(v)| == NUM_PAG_CODE + FM.PagesBelow(v, NR_TASKS)
    ensures forall d :: 2 <= d < NR_TASKS ==> v.refs[d] == FM.Count(v.users, d)
    ensures |s.freeq| >= 2 ==> FR.FreeDir(v.refs) < NR_TASKS
  {
    KernelRuns.QueuesPartition(s);
    AliveUnlessFree(s);
    FM.FramesConserved(v);
    ExactCounts(v);
    if |s.freeq| >= 2 {
      TwoFree(s, v);
    }
    hide Inv, FR.Ready, FM.UsedFrames, FM.PagesBelow, FM.Count, FR.FreeDir;
  }

  lemma ExactCounts(v: FM.View)
    requires FR.Ready(v)
    ensures forall d :: 2 <= d < NR_TASKS ==> v.refs[d] == FM.Count(v.users, d)
  {
    hide FM.Tables, FM.Owned;
    var owner: map<int, (int, int)> :| FM.Good(v, owner);
  }

  lemma TwoFree(s: KState, v: FM.View)
    requires JointInv(s, v) && |s.freeq| >= 2
    ensures FR.FreeDir(v.refs) < NR_TASKS
  {
    var f, g := s.freeq[0], s.freeq[1];
    AliveUnlessFree(s);
    assert f in s.freeq && g in s.freeq;
    assert f != g && f != IDLE && g != IDLE;
    assert v.users[f] == -1 && v.users[g] == -1;
    hide Inv;
    FR.DirectoryLeft(v, if f < g then f else g, if f < g then g else f);
  }
}
