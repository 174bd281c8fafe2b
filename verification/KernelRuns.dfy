/** What follows for whole runs of the kernel from boot. */
module KernelRuns {
  import opened Params
  import opened KernelSpec
  import opened KernelInv
  import opened KernelSteps

  /** A run in which every call is possible and its guard is met. */
  ghost predicate Legal(s: KState, cs: seq<Call>)
    decreases |cs|
  {
    cs != [] ==>
      && Enabled(s, cs[0]) && Guard(s, cs[0]) && Step(s, cs[0]) != Fault
      && Legal(Step(s, cs[0]).s, cs[1..])
  }

  ghost function End(s: KState, cs: seq<Call>): KState
    requires Legal(s, cs)
    decreases |cs|
  {
    if cs == [] then s else End(Step(s, cs[0]).s, cs[1..])
  }

  lemma {:induction false} RunKeeps(s: KState, cs: seq<Call>)
    requires Inv(s) && Legal(s, cs)
    ensures Inv(End(s, cs))
    decreases |cs|
  {
    hide Inv, Step, Guard;
    if cs != [] {
      StepIff(s, cs[0]);
      RunKeeps(Step(s, cs[0]).s, cs[1..]);
    }
  }

  /** Every state a guarded run from boot can reach satisfies the invariant. */
  lemma ReachableInv(cs: seq<Call>)
    requires Legal(Boot(), cs)
    ensures Inv(End(Boot(), cs))
  {
    hide Inv, Boot;
    BootInv();
    RunKeeps(Boot(), cs);
  }

  // ----- the queues partition the PCBs

  function Line(n: nat): seq<Tid>
    requires n <= NR_TASKS
    ensures |Line(n)| == n && forall t: Tid :: t in Line(n) <==> t < n
    ensures Nodup(Line(n))
  {
    if n == 0 then []
    else
      var r, last: Tid := Line(n - 1), n - 1;
      assert last !in r;
      NodupAppend(r, last);
      r + [last]
  }

  lemma {:induction false} FitsIn(p: seq<Tid>, q: seq<Tid>)
    requires Nodup(p) && forall t :: t in p ==> t in q
    ensures |p| <= |q|
    decreases |p|
  {
    if p != [] {
      var t := p[0];
      assert t in p && t !in p[1..] && Nodup(p[1..]);
      FitsIn(p[1..], Without(q, t));
      WithoutLength(q, t);
    }
  }

  lemma {:induction false} WithoutLength(q: seq<Tid>, t: Tid)
    requires t in q
    ensures |Without(q, t)| < |q|
    decreases |q|
  {
    if t in q[1..] {
      WithoutLength(q[1..], t);
    } else {
      assert q[0] == t;
    }
  }

  /** The PCBs that are on no queue: idle, and the current task. */
  function OffQueue(s: KState): seq<Tid> {
    if s.current == IDLE then [IDLE] else [IDLE, s.current]
  }

  /** Each PCB is in exactly one place, and exactly one task runs: the current one. */
  lemma QueuesPartition(s: KState)
    requires Inv(s)
    ensures forall t: Tid :: s.task[t].state == Run <==> t == s.current
    ensures |s.freeq| + |s.readyq| + |s.blockedq| + |OffQueue(s)| == NR_TASKS
    ensures var all := s.freeq + s.readyq + s.blockedq + OffQueue(s); Nodup(all) && forall t: Tid :: t in all
  {
    hide Pids, Tree, Waits, Sems, Conts, Wakeups, Quanta;
    hide Line;
    var a := s.freeq + s.readyq;
    NodupConcat(s.freeq, s.readyq);
    var b := a + s.blockedq;
    NodupConcat(a, s.blockedq);
    NodupConcat(b, OffQueue(s));
    FitsIn(b + OffQueue(s), Line(NR_TASKS));
    FitsIn(Line(NR_TASKS), b + OffQueue(s));
  }

  // ----- semaphores

  lemma SemaphoreIdsDistinct(s: KState, k: Sid, l: Sid)
    requires Inv(s) && k != l && !s.sems[k].free && !s.sems[l].free
    ensures s.sems[k].id != s.sems[l].id && USER_SEM_IDS <= s.sems[k].id
  {
    hide Queues, Pids, Tree, Waits, Conts, Wakeups, Quanta;
  }

  // ----- the process tree

  /** The ancestor of a live task that has no parent. */
  ghost function Root(s: KState, t: Tid): (r: Tid)
    requires Inv(s) && Alive(s, t)
    ensures r == IDLE || r == INIT
    decreases s.task[t].pid
  {
    if t == IDLE || t == INIT then t
    else
      TreeStep(s, t);
      Root(s, s.task[t].pare)
  }

  lemma TreeStep(s: KState, t: Tid)
    requires Inv(s) && Alive(s, t) && Orphanable(t)
    ensures HasParent(s, t) && Alive(s, s.task[t].pare)
    ensures forall p: Tid :: Alive(s, p) && t in s.task[p].fills ==> p == s.task[t].pare
  {
    hide Queues, Pids, Waits, Sems, Conts, Wakeups, Quanta;
  }

  // ----- round robin

  ghost function DispatchCount(s: KState, cs: seq<Call>): nat
    requires Legal(s, cs)
    decreases |cs|
  {
    if cs == [] then 0
    else (if Dispatches(s, cs[0]) then 1 else 0) + DispatchCount(Step(s, cs[0]).s, cs[1..])
  }

  function Ticks(cs: seq<Call>): nat {
    if cs == [] then 0 else (if cs[0] == CTick then 1 else 0) + Ticks(cs[1..])
  }

  /** One call moves a ready task up by one place if it dispatches, to the processor if the task was
      first, and leaves its place otherwise. */
  lemma StepMovesUp(s: KState, c: Call, k: nat)
    requires Inv(s) && Enabled(s, c) && Guard(s, c) && Step(s, c) != Fault && k < |s.readyq|
    ensures var s' := Step(s, c).s;
            if !Dispatches(s, c) then k < |s'.readyq| && s'.readyq[k] == s.readyq[k]
            else if k == 0 then s'.current == s.readyq[0]
            else k - 1 < |s'.readyq| && s'.readyq[k - 1] == s.readyq[k]
  {
    hide Inv, Step, Guard, Dispatches;
    StepIff(s, c);
    var s' := Step(s, c).s;
    var w :| if Dispatches(s, c) then Rotated(s, s', w) else Stayed(s, s', w);
    if Dispatches(s, c) {
      var m := s.readyq + w;
      assert m[0] == s.readyq[0];
      assert k > 0 ==> m[1..][k - 1] == s.readyq[k];
    }
  }

  lemma {:induction false} StillQueued(s: KState, cs: seq<Call>, k: nat)
    requires Inv(s) && Legal(s, cs) && k < |s.readyq| && DispatchCount(s, cs) <= k
    ensures var d := DispatchCount(s, cs);
            k - d < |End(s, cs).readyq| && End(s, cs).readyq[k - d] == s.readyq[k]
    decreases |cs|
  {
    hide Inv, Step, Guard, Dispatches;
    if cs != [] {
      StepIff(s, cs[0]);
      StepMovesUp(s, cs[0], k);
      StillQueued(Step(s, cs[0]).s, cs[1..], if Dispatches(s, cs[0]) then k - 1 else k);
    }
  }

  /** Whatever calls come between, the task at index `k` of the ready queue runs right after the
      (k + 1)-th dispatch, and waits in the queue, moving up, until then. */
  lemma {:induction false} RoundRobin(s: KState, cs: seq<Call>, k: nat) returns (j: nat)
    requires Inv(s) && Legal(s, cs) && k < |s.readyq| && k < DispatchCount(s, cs)
    ensures j <= |cs| && Legal(s, cs[..j])
    ensures DispatchCount(s, cs[..j]) == k + 1 && End(s, cs[..j]).current == s.readyq[k]
    decreases |cs|
  {
    hide Inv, Step, Guard, Dispatches;
    StepIff(s, cs[0]);
    StepMovesUp(s, cs[0], k);
    var s1 := Step(s, cs[0]).s;
    var d := Dispatches(s, cs[0]);
    if d && k == 0 {
      j := 1;
      assert cs[..1][1..] == [];
    } else {
      var i := RoundRobin(s1, cs[1..], if d then k - 1 else k);
      j := i + 1;
      assert cs[..j][1..] == cs[1..][..i];
    }
  }

  /** A run without dispatches is short in clock ticks. */
  lemma {:induction false} TicksForceDispatch(s: KState, cs: seq<Call>)
    requires Inv(s) && Legal(s, cs)
    ensures Ticks(cs) <= (if s.tick > 1 then s.tick - 1 else 0) + DEFAULT_QUANTUM_TICKS * DispatchCount(s, cs)
    decreases |cs|
  {
    hide Inv, Step, Guard;
    if cs != [] {
      StepIff(s, cs[0]);
      var s1 := Step(s, cs[0]).s;
      TickRange(s1);
      assert !Dispatches(s, cs[0]) ==> s1.tick <= s.tick by {
        var w :| if Dispatches(s, cs[0]) then Rotated(s, s1, w) else Stayed(s, s1, w);
      }
      TicksForceDispatch(s1, cs[1..]);
    }
  }

  lemma TickRange(s: KState)
    requires Inv(s)
    ensures 0 <= s.tick <= DEFAULT_QUANTUM_TICKS
  {
    hide Queues, Pids, Tree, Waits, Sems, Conts, Wakeups;
  }

  /** Bounded waiting in time: among any ten clock ticks for each task ahead of it and itself, a ready
      task gets the processor. */
  lemma BoundedWaiting(s: KState, cs: seq<Call>, k: nat) returns (j: nat)
    requires Inv(s) && Legal(s, cs) && k < |s.readyq| && DEFAULT_QUANTUM_TICKS * (k + 1) <= Ticks(cs)
    ensures j <= |cs| && Legal(s, cs[..j]) && End(s, cs[..j]).current == s.readyq[k]
  {
    hide Inv, Step, Guard, Dispatches, Legal, End, DispatchCount;
    TickRange(s);
    TicksForceDispatch(s, cs);
    j := RoundRobin(s, cs, k);
  }
}
