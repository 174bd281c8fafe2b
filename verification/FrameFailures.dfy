/** A run from boot, as the code is written, that ends in an unsound state: task 1 forks and grows its
    heap by one page. */
module FrameFailures {
  import opened Params
  import opened FrameModel
  import opened FrameSteps
  import opened ForkSteps
  import opened FrameRuns
  import opened FrameLoops

  /** `call`, as the code is written, leads from `v` to `v'`. */
  ghost predicate Leads(v: View, call: MemCall, v': View) {
    Shaped(v) && Possible(v, call) && Sized(v, call.t) && Shaped(v') && v' == After(v, call, false)
  }

  ghost predicate Guarded(v: View, call: MemCall) {
    Shaped(v) && Possible(v, call) && Sized(v, call.t) && Guard(v, call)
  }

  /** Page `p` lies below the break of task `t`, but the task's table does not map it. */
  ghost predicate BreakBeyond(v: View, t: nat, p: nat) {
    Shaped(v) && Sized(v, t) && p < TOTAL_PAGES && p * PAGE < DynMemResult(v, t, 0) && v.pt[v.users[t]][p] == Absent
  }

  /** After any fork within its guard, the first growth of the parent's heap that finds its frames
      leaves an unsound state. */
  lemma GrowthAfterFork(v: View, call: MemCall, v1: View, n: nat)
    requires Guarded(v, call) && Sound(v) && call.Fork? && Leads(v, call, v1)
    requires 0 < n <= FreeCount(v1.phys)
    ensures Sound(v1) && Possible(v1, DynMem(call.t, n)) && Sized(v1, call.t)
    ensures var v2 := After(v1, DynMem(call.t, n), false);
            Leads(v1, DynMem(call.t, n), v2) && !Sound(v2)
  {
    hide Sound, SoleCounter, Grab, FreeCount, FreeDir, Harmless, Fresh;
    StepIff(v, call);
    ForkOfForkable(v, call, false);
    ForkSharesCounter(v, ForkOf(v, call, false));
    StepIff(v1, DynMem(call.t, n));
  }

  /** The child of a parent without heap: its counter is its parent's, its first heap page absent. */
  lemma ChildOfNone(v: View, k: Child)
    requires Shaped(v) && Forkable(v, k) && !k.own && ForkHeap(v, k.t, k.c) == 0 && v.zones[k.c] == 0
    ensures var v' := Forked(v, k);
            && Shaped(v') && v'.users[k.f] == k.c && v'.myHeap[k.f] == v.myHeap[k.t] && v'.zones == v.zones
            && (forall t :: 0 <= t < NR_TASKS && t != k.f ==> v'.users[t] == v.users[t] && v'.myHeap[t] == v.myHeap[t])
            && v'.pt[k.c][HEAP] == v.pt[k.c][HEAP] && v'.phys == Mark(v.phys, k.fs, true)
  {
    hide WindowClosed, Fresh, Mark;
  }

  /** Growth leaves other directories' tables alone. */
  lemma GrownAlone(v: View, t: nat, n: nat)
    requires Shaped(v) && Sized(v, t) && 0 < n <= FreeCount(v.phys)
    ensures var v' := AfterDynMem(v, t, n);
            && v'.users == v.users && v'.myHeap == v.myHeap
            && v'.zones == v.zones[v.myHeap[t] := v.zones[v.myHeap[t]] + n]
            && (forall d :: 0 <= d < NR_TASKS && d != v.users[t] ==> v'.pt[d] == v.pt[d])
  {
    hide Grab, FreeCount, Mark, MapRange;
  }

  /** What task 1's first fork, into PCB 2, finds. */
  lemma BootForks(data: seq<Page>)
    requires |data| == TOTAL_PAGES
    ensures var v, call := Booted(data), Fork(1, 2, data);
            && Guarded(v, call) && FreeCount(v.phys) == 356 && Enough(v, call)
            && FreeDir(v.refs) == 3 && ForkHeap(v, 1, 3) == 0 && v.zones[3] == 0
            && v.users[1] == 2 && v.pt[3][HEAP] == Absent && v.myHeap[1] == 2 && v.zones[2] == 0
  {
    BootShaped(data);
    var v := Booted(data);
    FourthFree(v.refs);
    assert v.pt[3] == KernelTable() && KernelTable()[HEAP] == Absent;
    hide UsedUpTo, Task1Table, FreeCount, FreeDir;
    FreeUpTo(28);
  }

  lemma FourthFree(refs: seq<int>)
    requires |refs| == NR_TASKS && refs[0] > 0 && refs[1] > 0 && refs[2] > 0 && refs[3] <= 0
    ensures FreeDir(refs) == 3
  {
    assert refs[1..][0] == refs[1] && refs[1..][1..][0] == refs[2] && refs[1..][1..][1..][0] == refs[3];
  }

  /** From boot: task 1 forks within its guard and grows its heap by a page. The child's break now takes
      in a page its table does not map. */
  lemma SharedCounterReachable(data: seq<Page>) returns (v1: View, v2: View)
    requires |data| == TOTAL_PAGES
    ensures Ready(Booted(data)) && Guarded(Booted(data), Fork(1, 2, data))
    ensures Leads(Booted(data), Fork(1, 2, data), v1) && Sound(v1)
    ensures Leads(v1, DynMem(1, 1), v2) && !Sound(v2)
    ensures BreakBeyond(v2, 2, HEAP)
  {
    var v, call := Booted(data), Fork(1, 2, data);
    BootReady(data);
    BootForks(data);
    hide Booted, Sound, OwnCounters, Grab, FreeCount, FreeDir, Guard, Forked, AfterDynMem, Harmless, BreakBeyond;
    v1 := FirstFork(v, call);
    GrowthAfterFork(v, call, v1, 1);
    v2 := After(v1, DynMem(1, 1), false);
    SiblingBeyond(v1, v2);
  }

  lemma SiblingBeyond(v1: View, v2: View)
    requires Leads(v1, DynMem(1, 1), v2) && FreeCount(v1.phys) == 336 && v1.users[2] == 3 && v1.users[1] == 2
    requires v1.myHeap[1] == v1.myHeap[2] == 2 && v1.zones[2] == 0 && v1.pt[3][HEAP] == Absent
    ensures BreakBeyond(v2, 2, HEAP)
  {
    hide Possible, FreeCount, AfterDynMem;
    GrownAlone(v1, 1, 1);
  }

  lemma FirstFork(v: View, call: MemCall) returns (v1: View)
    requires Guarded(v, call) && call.Fork? && call.t == 1 && call.f == 2 && Ready(v) && FreeCount(v.phys) == 356
    requires Enough(v, call) && FreeDir(v.refs) == 3 && ForkHeap(v, 1, 3) == 0 && v.zones[3] == 0
    requires v.users[1] == 2 && v.pt[3][HEAP] == Absent && v.myHeap[1] == 2 && v.zones[2] == 0
    ensures Leads(v, call, v1) && FreeCount(v1.phys) == 336 && v1.users[2] == 3 && v1.users[1] == 2
    ensures v1.myHeap[1] == v1.myHeap[2] == 2 && v1.zones[2] == 0 && v1.pt[3][HEAP] == Absent
  {
    hide Sound, OwnCounters, Grab, FreeCount, FreeDir, Guard, Forked, Harmless, Mark, Fresh;
    ForkOfForkable(v, call, false);
    v1 := After(v, call, false);
    ChildOfNone(v, ForkOf(v, call, false));
    GrabAppend(v.phys, NUM_PAG_DATA);
  }
}
