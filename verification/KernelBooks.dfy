/** Whole runs, counted on their list of calls: a semaphore's value is its initial value and signals less
    its waits, a task's wakeups are the unblocks addressed to it less its blocks, and a task that waits
    for a thread sleeps until that thread ends. */
module KernelBooks {
  import opened Params
  import opened KernelSpec
  import opened KernelInv
  import opened KernelSteps
  import opened KernelEffects
  import opened KernelRuns
  import opened KernelLedger

  /** How often a call occurs in a run. */
  function Times(cs: seq<Call>, c: Call): nat {
    if cs == [] then 0 else (if cs[0] == c then 1 else 0) + Times(cs[1..], c)
  }

  // ----- pids are never used again

  /** A pid that was given out and is not a task's any more never is again. */
  lemma {:induction false} PidGoneForGood(s: KState, cs: seq<Call>, t: Tid, pid: int)
    requires Inv(s) && Legal(s, cs) && 0 <= pid < s.pidGlobal && s.task[t].pid != pid
    ensures End(s, cs).task[t].pid != pid
    decreases |cs|
  {
    hide Inv, Step, Guard;
    if cs != [] {
      StepIff(s, cs[0]);
      PidsAfter(s, cs[0]);
      PidGoneForGood(Step(s, cs[0]).s, cs[1..], t, pid);
    }
  }

  lemma PidInRange(s: KState, t: Tid)
    requires Inv(s)
    ensures s.task[t].pid < s.pidGlobal
  {
    hide Queues, Tree, Waits, Sems, Conts, Wakeups, Quanta;
  }

  /** A task with its pid at the end of a run had it all along. */
  lemma SameTask(s: KState, cs: seq<Call>, t: Tid)
    requires Inv(s) && Legal(s, cs) && cs != [] && Alive(s, t) && End(s, cs).task[t].pid == s.task[t].pid
    ensures Inv(Step(s, cs[0]).s) && Step(s, cs[0]).s.task[t].pid == s.task[t].pid
    ensures End(s, cs) == End(Step(s, cs[0]).s, cs[1..])
  {
    hide Inv, Step, Guard;
    StepIff(s, cs[0]);
    PidInRange(s, t);
    PidsAfter(s, cs[0]);
    var s1 := Step(s, cs[0]).s;
    if s1.task[t].pid != s.task[t].pid {
      PidGoneForGood(s1, cs[1..], t, s.task[t].pid);
    }
  }

  // ----- the quantum

  /** A call that does not dispatch leaves the quantum alone, unless it is the clock's. */
  lemma QuietTick(s: KState, c: Call)
    requires Inv(s) && Enabled(s, c) && Guard(s, c) && !Dispatches(s, c)
    ensures Step(s, c) != Fault && Inv(Step(s, c).s)
    ensures Step(s, c).s.current == s.current
    ensures Step(s, c).s.tick == if c == CTick then s.tick - 1 else s.tick
  {
    hide Inv, Step, Guard, Dispatches, Enabled;
    StepIff(s, c);
    var s' := Step(s, c).s;
    var w :| if Dispatches(s, c) then Rotated(s, s', w) else Stayed(s, s', w);
    if c != CTick {
      QuietCall(s, c);
    }
  }

  lemma QuietCall(s: KState, c: Call)
    requires !Dispatches(s, c) && c != CTick && Step(s, c) != Fault && Enabled(s, c)
    ensures Step(s, c).s.tick == s.tick
  {
    hide SchedNext, UpdateState, FindSem, FindPid, FindFree, Spawn;
    match c
    case CFork(ok) => SpawnTick(s, c);
    case CThread(ok) => SpawnTick(s, c);
    case _ =>
  }

  lemma SpawnTick(s: KState, c: Call)
    requires c.CFork? || c.CThread?
    ensures Step(s, c) != Fault && Step(s, c).s.tick == s.tick
  {
    hide Without;
  }

  /** A run that dispatches by the clock at most. */
  ghost predicate Unyielding(s: KState, cs: seq<Call>)
    requires Legal(s, cs)
    decreases |cs|
  {
    cs != [] ==> (cs[0] == CTick || !Dispatches(s, cs[0])) && Unyielding(Step(s, cs[0]).s, cs[1..])
  }

  /** Whoever does not yield keeps the processor for the whole quantum. */
  lemma {:induction false} FullQuantum(s: KState, cs: seq<Call>)
    requires Inv(s) && Legal(s, cs) && Unyielding(s, cs) && Ticks(cs) < s.tick
    ensures End(s, cs).current == s.current && End(s, cs).tick == s.tick - Ticks(cs)
    decreases |cs|
  {
    hide Inv, Step, Guard, Enabled;
    if cs != [] {
      QuietTick(s, cs[0]);
      FullQuantum(Step(s, cs[0]).s, cs[1..]);
    }
  }

  // ----- wakeups

  /** The unblocks in a run that its parent addressed to task `t`. */
  ghost function Unblocks(s: KState, cs: seq<Call>, t: Tid): nat
    requires Legal(s, cs)
    decreases |cs|
  {
    if cs == [] then 0 else (if Named(s, cs[0], t) then 1 else 0) + Unblocks(Step(s, cs[0]).s, cs[1..], t)
  }

  /** The block calls of task `t` in a run. */
  ghost function Blocks(s: KState, cs: seq<Call>, t: Tid): nat
    requires Legal(s, cs)
    decreases |cs|
  {
    if cs == [] then 0
    else (if cs[0] == CBlock && s.current == t then 1 else 0) + Blocks(Step(s, cs[0]).s, cs[1..], t)
  }

  /** Over any stretch of its life, the wakeups a task has to come change by the unblocks it was sent less
      the blocks it made: none is lost and none counted twice. */
  lemma {:induction false} WakeupsOverRun(s: KState, cs: seq<Call>, t: Tid)
    requires Inv(s) && Legal(s, cs) && Alive(s, t) && End(s, cs).task[t].pid == s.task[t].pid
    ensures Balance(End(s, cs), t) == Balance(s, t) + Unblocks(s, cs, t) - Blocks(s, cs, t)
    decreases |cs|
  {
    hide Inv, Step, Guard, Balance, SleepsOn, Named;
    if cs != [] {
      SameTask(s, cs, t);
      StepEntered(s, cs[0], t);
      WakeupsOverRun(Step(s, cs[0]).s, cs[1..], t);
    }
  }

  /** A task that has just got its pid has no wakeups to come. */
  lemma NewBalance(s: KState, c: Call, t: Tid)
    requires Inv(s) && Enabled(s, c) && Guard(s, c) && Step(s, c) != Fault
    requires Step(s, c).s.task[t].pid != s.task[t].pid && Alive(Step(s, c).s, t)
    ensures Balance(Step(s, c).s, t) == 0
  {
    hide Inv, Step, Guard, Enabled, Effect, SpawnDoes;
    PidsAfter(s, c);
    assert Spawns(s, c) && t == s.freeq[0];
    SpawnsEffect(s, c);
    RunsAwake(s);
    SpawnedBalance(s, Step(s, c).s, t);
  }

  lemma SpawnedBalance(s: KState, s': KState, t: Tid)
    requires SpawnDoes(s, s') && t == s.freeq[0]
    ensures Balance(s', t) == 0
  {
  }

  /** Where in a run the life of a task began: at its start, or with the call that spawned it. */
  lemma {:induction false} Born(s: KState, cs: seq<Call>, t: Tid) returns (i: nat)
    requires Inv(s) && Legal(s, cs) && Alive(End(s, cs), t)
    requires s.task[t].pid == End(s, cs).task[t].pid ==> Balance(s, t) == 0
    ensures i <= |cs| && Legal(s, cs[..i])
    ensures var b := End(s, cs[..i]);
            && Inv(b) && b.task[t].pid == End(s, cs).task[t].pid && Balance(b, t) == 0
            && Legal(b, cs[i..]) && End(b, cs[i..]) == End(s, cs)
    decreases |cs|
  {
    hide Inv, Step, Guard, Balance;
    if s.task[t].pid == End(s, cs).task[t].pid {
      i := 0;
      assert cs[..0] == [] && cs[0..] == cs;
    } else {
      StepIff(s, cs[0]);
      var s1 := Step(s, cs[0]).s;
      if s1.task[t].pid == End(s, cs).task[t].pid {
        NewBalance(s, cs[0], t);
      }
      var j := Born(s1, cs[1..], t);
      i := j + 1;
      Shift(cs, j);
    }
  }

  lemma Shift(cs: seq<Call>, j: nat)
    requires cs != [] && j <= |cs[1..]|
    ensures cs[..j + 1][1..] == cs[1..][..j] && cs[..j + 1][0] == cs[0] && cs[j + 1..] == cs[1..][j..]
  {
  }

  lemma BootBalance(t: Tid)
    ensures Balance(Boot(), t) == 0
  {
    BootIsBooted();
  }

  /** In every run from boot, from the moment `i` a task was born: the unblocks addressed to it by its
      parent are the blocks it made and that have returned, and the wakeups still pending. A task that
      sleeps in block has none pending. */
  lemma NoLostWakeup(cs: seq<Call>, t: Tid) returns (i: nat)
    requires Legal(Boot(), cs) && Alive(End(Boot(), cs), t)
    ensures i <= |cs| && Legal(Boot(), cs[..i]) && Legal(End(Boot(), cs[..i]), cs[i..])
    ensures var b, e := End(Boot(), cs[..i]), End(Boot(), cs);
            && b.task[t].pid == e.task[t].pid && 0 <= e.task[t].pending
            && Unblocks(b, cs[i..], t)
               == Blocks(b, cs[i..], t) - One(e.task[t].why == OnBlock) + e.task[t].pending
            && (e.task[t].why == OnBlock ==> e.task[t].pending == 0)
  {
    hide Inv, Boot, Legal, End, Unblocks, Blocks;
    BootInv();
    BootBalance(t);
    i := Born(Boot(), cs, t);
    WakeupsOverRun(End(Boot(), cs[..i]), cs[i..], t);
    ReachableInv(cs);
    PendingFacts(End(Boot(), cs), t);
  }

  lemma PendingFacts(s: KState, t: Tid)
    requires Inv(s) && Alive(s, t)
    ensures 0 <= s.task[t].pending && (s.task[t].why == OnBlock ==> s.task[t].pending == 0)
  {
    hide Queues, Pids, Tree, Waits, Sems, Conts, Quanta;
  }

  // ----- waiting for a thread

  /** As long as thread `b` lives, the task that waits for it sleeps: nothing dispatches it. */
  lemma {:induction false} SleepsWhileAlive(s: KState, cs: seq<Call>, w: Tid, b: Tid)
    requires Inv(s) && Legal(s, cs) && s.task[w].why == OnTask(b)
    requires Alive(s, b) && End(s, cs).task[b].pid == s.task[b].pid
    ensures var e := End(s, cs); e.task[w].why == OnTask(b) && Asleep(e, w) && e.current != w
    decreases |cs|
  {
    hide Inv, Step, Guard;
    if cs != [] {
      SameTask(s, cs, b);
      StillWaits(s, cs[0], w, b);
      SleepsWhileAlive(Step(s, cs[0]).s, cs[1..], w, b);
    } else {
      AsleepBy(s, w);
    }
  }

  lemma StillWaits(s: KState, c: Call, w: Tid, b: Tid)
    requires Inv(s) && Enabled(s, c) && Guard(s, c) && s.task[w].why == OnTask(b) && Alive(s, b)
    ensures Step(s, c) != Fault
    ensures var s' := Step(s, c).s;
            if s'.task[b].pid == s.task[b].pid then s'.task[w].why == OnTask(b)
            else s'.task[w].why == NotBlocked && Awake(s', w)
  {
    WaiterAlive(s, w);
    StepEntered(s, c, w);
    PidsAfter(s, c);
    FirstIsDead(s);
    hide Inv, Step, Guard, Enabled;
  }

  /** The call that ends the thread wakes everybody who waits for it. */
  lemma EndWakes(s: KState, cs: seq<Call>, w: Tid, b: Tid) returns (i: nat)
    requires Inv(s) && Legal(s, cs) && s.task[w].why == OnTask(b)
    requires Alive(s, b) && End(s, cs).task[b].pid != s.task[b].pid
    ensures i < |cs| && Legal(s, cs[..i]) && Legal(s, cs[..i + 1])
    ensures var before, after := End(s, cs[..i]), End(s, cs[..i + 1]);
            && before.task[b].pid == s.task[b].pid && Asleep(before, w)
            && after.task[b].pid != s.task[b].pid && Awake(after, w)
    decreases |cs|
  {
    hide Inv, Step, Guard;
    StepIff(s, cs[0]);
    StillWaits(s, cs[0], w, b);
    AsleepBy(s, w);
    var s1 := Step(s, cs[0]).s;
    if s1.task[b].pid != s.task[b].pid {
      i := 0;
      assert cs[..0] == [] && cs[..1][1..] == [];
    } else {
      var j := EndWakes(s1, cs[1..], w, b);
      i := j + 1;
      Shift(cs, j);
      Shift(cs, j + 1);
    }
  }

  // ----- semaphores

  /** A slot that is not, or no longer, the semaphore of an id that was given out never is again. */
  lemma {:induction false} IdGoneForGood(s: KState, cs: seq<Call>, k: Sid, id: int)
    requires Inv(s) && Legal(s, cs) && id < s.semId && (s.sems[k].free || s.sems[k].id != id)
    ensures End(s, cs).sems[k].free || End(s, cs).sems[k].id != id
    decreases |cs|
  {
    hide Inv, Step, Guard;
    if cs != [] {
      StepIff(s, cs[0]);
      StepBooked(s, cs[0], k);
      IdGoneForGood(Step(s, cs[0]).s, cs[1..], k, id);
    }
  }

  lemma IdInRange(s: KState, k: Sid)
    requires Inv(s) && !s.sems[k].free
    ensures USER_SEM_IDS <= s.sems[k].id < s.semId
  {
    hide Queues, Pids, Tree, Waits, Conts, Wakeups, Quanta, Healthy;
  }

  /** Over any stretch of its life, a semaphore's value changes by the signals less the waits on it. */
  lemma {:induction false} ValueOverRun(s: KState, cs: seq<Call>, k: Sid)
    requires Inv(s) && Legal(s, cs) && !s.sems[k].free
    requires !End(s, cs).sems[k].free && End(s, cs).sems[k].id == s.sems[k].id
    ensures var id := s.sems[k].id;
            End(s, cs).sems[k].value == s.sems[k].value + Times(cs, CSemSignal(id)) - Times(cs, CSemWait(id))
    decreases |cs|
  {
    hide Inv, Step, Guard;
    if cs != [] {
      StepIff(s, cs[0]);
      StepBooked(s, cs[0], k);
      IdInRange(s, k);
      var s1 := Step(s, cs[0]).s;
      if s1.sems[k].free || s1.sems[k].id != s.sems[k].id {
        IdGoneForGood(s1, cs[1..], k, s.sems[k].id);
        assert false;
      }
      ValueOverRun(s1, cs[1..], k);
    }
  }

  /** First come, first served: over any stretch of its life a semaphore's queue loses tasks only at its
      front, so that what is left of it still stands before all that came later. */
  lemma {:induction false} FirstComeFirstServed(s: KState, cs: seq<Call>, k: Sid) returns (d: nat)
    requires Inv(s) && Legal(s, cs) && !s.sems[k].free
    requires !End(s, cs).sems[k].free && End(s, cs).sems[k].id == s.sems[k].id
    ensures d <= |s.sems[k].queue|
    ensures var q, e := s.sems[k].queue, End(s, cs).sems[k].queue; |q| - d <= |e| && e[..|q| - d] == q[d..]
    decreases |cs|
  {
    hide Inv, Step, Guard;
    d := 0;
    if cs != [] {
      StepIff(s, cs[0]);
      StepBooked(s, cs[0], k);
      IdInRange(s, k);
      var s1 := Step(s, cs[0]).s;
      if s1.sems[k].free || s1.sems[k].id != s.sems[k].id {
        IdGoneForGood(s1, cs[1..], k, s.sems[k].id);
        assert false;
      }
      d := FirstComeFirstServed(s1, cs[1..], k);
      d := ServedOn(s.sems[k].queue, s1.sems[k].queue, End(s, cs).sems[k].queue, d);
    }
  }

  lemma ServedOn(q: seq<Tid>, q1: seq<Tid>, e: seq<Tid>, d: nat) returns (d': nat)
    requires Queued(q, q1) && d <= |q1| && |q1| - d <= |e| && e[..|q1| - d] == q1[d..]
    ensures d' <= |q| && |q| - d' <= |e| && e[..|q| - d'] == q[d'..]
  {
    if q1 == q {
      d' := d;
    } else if q != [] && q1 == q[1..] {
      d' := d + 1;
      assert q[d'..] == q1[d..];
    } else {
      d' := if d <= |q| then d else |q|;
      assert |q| - d' <= |q1| - d || d' == |q|;
      assert e[..|q| - d'] == e[..|q1| - d][..|q| - d'] || d' == |q|;
    }
  }

  /** The call of a run that created the semaphore now in slot `k`. */
  lemma {:induction false} Created(s: KState, cs: seq<Call>, k: Sid) returns (i: nat)
    requires Inv(s) && Legal(s, cs) && !End(s, cs).sems[k].free
    requires s.sems[k].free || s.sems[k].id != End(s, cs).sems[k].id
    ensures i < |cs| && cs[i].CSemCreate? && Legal(s, cs[..i]) && Legal(s, cs[..i + 1])
    ensures var x, a, e := End(s, cs[..i + 1]).sems[k], End(s, cs[..i + 1]), End(s, cs);
            && Inv(a) && !x.free && x.value == cs[i].v && x.id == e.sems[k].id == End(s, cs[..i]).semId
            && Legal(a, cs[i + 1..]) && End(a, cs[i + 1..]) == e
    decreases |cs|
  {
    hide Inv, Step, Guard;
    StepIff(s, cs[0]);
    StepBooked(s, cs[0], k);
    var s1 := Step(s, cs[0]).s;
    if !s1.sems[k].free && s1.sems[k].id == End(s, cs).sems[k].id {
      i := 0;
      assert cs[..0] == [] && cs[..1][1..] == [] && cs[..1][0] == cs[0];
    } else {
      var j := Created(s1, cs[1..], k);
      i := j + 1;
      Shift(cs, j);
      Shift(cs, j + 1);
    }
  }

  /** In every run from boot: call `i` created the semaphore now in slot `k`, and its value is the initial
      value given there and the signals since, less the waits since. While nobody destroys it, as many
      tasks are queued as waits are owed, so that no more waits have returned than that allows. */
  lemma SemaphoreSafety(cs: seq<Call>, k: Sid) returns (i: nat)
    requires Legal(Boot(), cs) && !End(Boot(), cs).sems[k].free
    ensures i < |cs| && cs[i].CSemCreate?
    ensures var x := End(Boot(), cs).sems[k];
            var signals, waits := Times(cs[i + 1..], CSemSignal(x.id)), Times(cs[i + 1..], CSemWait(x.id));
            && Legal(Boot(), cs[..i]) && x.id == End(Boot(), cs[..i]).semId
            && x.value == cs[i].v + signals - waits
            && (x.creator != -1 ==>
                  && waits - |x.queue| <= cs[i].v + signals
                  && (x.queue != [] ==> waits - |x.queue| == cs[i].v + signals))
  {
    hide Inv, Boot, Legal, End, Times;
    BootInv();
    BootFree(k);
    i := Created(Boot(), cs, k);
    ValueOverRun(End(Boot(), cs[..i + 1]), cs[i + 1..], k);
    ReachableInv(cs);
    OwedQueue(End(Boot(), cs), k);
  }

  lemma BootFree(k: Sid)
    ensures Boot().sems[k].free
  {
  }

  lemma OwedQueue(s: KState, k: Sid)
    requires Inv(s) && !s.sems[k].free
    ensures s.sems[k].creator != -1 ==> |s.sems[k].queue| == Max0(-s.sems[k].value)
  {
    hide Queues, Pids, Tree, Waits, Conts, Wakeups, Quanta;
  }
}
