/** alloc_frame's choice of frames, each call as one function of the state, and whole runs of them. */
module FrameRuns {
  import opened Params
  import opened FrameModel
  import opened FrameSteps
  import opened ForkSteps

  // ----- which frames alloc_frame hands out

  /** The lowest free frame among every second one from `from` on, or -1. */
  function LowestFree(phys: seq<bool>, from: nat): (r: int)
    requires |phys| == TOTAL_PAGES
    ensures r == -1 <==> Available(phys, from) == 0
    ensures r != -1 ==> from <= r < TOTAL_PAGES && (r - from) % 2 == 0 && !phys[r]
    ensures forall g :: from <= g < (if r == -1 then TOTAL_PAGES else r) && (g - from) % 2 == 0 ==> phys[g]
    decreases |phys|, TOTAL_PAGES - from
  {
    if from >= TOTAL_PAGES then -1 else if !phys[from] then from else LowestFree(phys, from + 2)
  }

  lemma {:induction false} TakeOne(phys: seq<bool>, from: nat, f: nat)
    requires |phys| == TOTAL_PAGES && from <= f < TOTAL_PAGES && (f - from) % 2 == 0 && !phys[f]
    ensures Available(phys[f := true], from) == Available(phys, from) - 1
    decreases TOTAL_PAGES - from
  {
    if f != from {
      TakeOne(phys, from + 2, f);
    } else {
      TakeBelow(phys, from + 2, f);
    }
  }

  lemma {:induction false} TakeBelow(phys: seq<bool>, from: nat, f: nat)
    requires |phys| == TOTAL_PAGES && f < from && f < TOTAL_PAGES
    ensures Available(phys[f := true], from) == Available(phys, from)
    decreases if from >= TOTAL_PAGES then 0 else TOTAL_PAGES - from
  {
    if from < TOTAL_PAGES {
      TakeBelow(phys, from + 2, f);
    }
  }

  /** A frame in alloc_frame's reach that is free. */
  predicate Takeable(phys: seq<bool>, f: int)
    requires |phys| == TOTAL_PAGES
  {
    NUM_PAG_KERNEL <= f < TOTAL_PAGES && f % 2 == 0 && !phys[f]
  }

  /** How many frames alloc_frame can still hand out, and the one it hands out next. */
  function FreeCount(phys: seq<bool>): nat
    requires |phys| == TOTAL_PAGES
  {
    Available(phys, NUM_PAG_KERNEL)
  }

  function Lowest(phys: seq<bool>): (r: int)
    requires |phys| == TOTAL_PAGES
    ensures r == -1 <==> FreeCount(phys) == 0
    ensures r != -1 ==> Takeable(phys, r)
    ensures forall g :: Takeable(phys, g) ==> 0 <= r <= g
  {
    var r := LowestFree(phys, NUM_PAG_KERNEL);
    assert forall g: nat :: Takeable(phys, g) ==> (g - NUM_PAG_KERNEL) % 2 == 0;
    r
  }

  lemma TakeLowest(phys: seq<bool>)
    requires |phys| == TOTAL_PAGES && FreeCount(phys) > 0
    ensures Takeable(phys, Lowest(phys)) && FreeCount(phys[Lowest(phys) := true]) == FreeCount(phys) - 1
  {
    TakeOne(phys, NUM_PAG_KERNEL, Lowest(phys));
  }

  /** The frames `n` calls of alloc_frame return, one after the other. */
  function Grab(phys: seq<bool>, n: nat): (fs: seq<nat>)
    requires |phys| == TOTAL_PAGES && n <= FreeCount(phys)
    ensures |fs| == n
    decreases |phys|, n
  {
    if n == 0 then []
    else
      var f := Lowest(phys);
      TakeLowest(phys);
      [f] + Grab(phys[f := true], n - 1)
  }

  /** They are free, in alloc_frame's reach and pairwise different. */
  lemma {:induction false} GrabDistinct(phys: seq<bool>, n: nat)
    requires |phys| == TOTAL_PAGES && n <= FreeCount(phys)
    ensures forall i, j :: 0 <= i < j < n ==> Grab(phys, n)[i] != Grab(phys, n)[j]
    ensures forall i :: 0 <= i < n ==> Takeable(phys, Grab(phys, n)[i])
    decreases n
  {
    if n > 0 {
      var f := Lowest(phys);
      TakeLowest(phys);
      GrabDistinct(phys[f := true], n - 1);
      GrabFirst(phys, f, Grab(phys[f := true], n - 1), Grab(phys, n));
    }
  }

  lemma GrabFirst(phys: seq<bool>, f: nat, rest: seq<nat>, fs: seq<nat>)
    requires |phys| == TOTAL_PAGES && Takeable(phys, f) && fs == [f] + rest
    requires forall i, j :: 0 <= i < j < |rest| ==> rest[i] != rest[j]
    requires forall i :: 0 <= i < |rest| ==> Takeable(phys[f := true], rest[i])
    ensures forall i, j :: 0 <= i < j < |fs| ==> fs[i] != fs[j]
    ensures forall i :: 0 <= i < |fs| ==> Takeable(phys, fs[i])
  {
  }

  lemma GrabCons(phys: seq<bool>, n: nat)
    requires |phys| == TOTAL_PAGES && 0 < n <= FreeCount(phys)
    ensures var f := Lowest(phys);
            && 0 <= f < TOTAL_PAGES && FreeCount(phys[f := true]) == FreeCount(phys) - 1
            && Grab(phys, n) == [f] + Grab(phys[f := true], n - 1)
  {
    TakeLowest(phys);
  }

  /** Grabbing one frame more appends what alloc_frame finds after the others were taken. */
  lemma {:induction false} GrabAppend(phys: seq<bool>, n: nat)
    requires |phys| == TOTAL_PAGES && n <= FreeCount(phys)
    ensures FreeCount(Mark(phys, Grab(phys, n), true)) == FreeCount(phys) - n
    ensures n < FreeCount(phys) ==>
              Grab(phys, n + 1) == Grab(phys, n) + [Lowest(Mark(phys, Grab(phys, n), true))]
    decreases n
  {
    hide FreeCount, Lowest, Mark;
    if n == 0 {
      GrabNone(phys);
      if 0 < FreeCount(phys) {
        GrabCons(phys, 1);
      }
    } else {
      var f := Lowest(phys);
      GrabCons(phys, n);
      GrabAppend(phys[f := true], n - 1);
      MarkFirst(phys, f, Grab(phys[f := true], n - 1));
      hide Grab;
      if n < FreeCount(phys) {
        GrabCons(phys, n + 1);
        ConsAppend(f, Grab(phys[f := true], n - 1), Lowest(Mark(phys, Grab(phys, n), true)));
      }
    }
  }

  lemma GrabNone(phys: seq<bool>)
    requires |phys| == TOTAL_PAGES
    ensures Mark(phys, Grab(phys, 0), true) == phys
  {
    assert Grab(phys, 0) == [];
  }

  lemma ConsAppend(f: nat, rest: seq<nat>, g: int)
    ensures [f] + (rest + [g]) == ([f] + rest) + [g]
  {
  }

  lemma MarkFirst(phys: seq<bool>, f: nat, rest: seq<nat>)
    requires |phys| == TOTAL_PAGES && f < TOTAL_PAGES
    ensures Mark(phys, [f] + rest, true) == Mark(phys[f := true], rest, true)
  {
    assert forall g :: g in [f] + rest <==> g == f || g in rest;
    assert Mark(phys, [f] + rest, true) == Mark(phys[f := true], rest, true);
  }

  /** alloc_frame never hands out a code frame: boot has used them up for good. */
  lemma GrabFresh(v: View, n: nat)
    requires Shaped(v) && Sound(v) && n <= FreeCount(v.phys)
    ensures Fresh(v, Grab(v.phys, n))
  {
    hide Sound;
    var owner := OwnerOf(v);
    CodeUsed(v, owner);
    GrabDistinct(v.phys, n);
    hide Good, Grab, FreeCount;
    var fs := Grab(v.phys, n);
    forall i | 0 <= i < n ensures UserFrame(fs[i]) {
      assert Takeable(v.phys, fs[i]);
      CodeCases(fs[i]);
    }
  }

  // ----- the calls

  datatype MemCall =
    | DynMem(t: nat, pages: int)
    | Fork(t: nat, f: nat, data: seq<Page>)
    | Thread(t: nat, f: nat)
    | Exit(t: nat)

  /** The directory allocate_DIR finds, or NR_TASKS if none is free. */
  function FreeDir(refs: seq<int>): (c: nat)
    ensures c <= |refs|
    ensures c < |refs| ==> refs[c] <= 0
    ensures forall i :: 0 <= i < c ==> refs[i] > 0
  {
    if refs == [] || refs[0] <= 0 then 0 else 1 + FreeDir(refs[1..])
  }

  /** A user task makes the call, into a free PCB where it needs one, and fork finds a directory. */
  ghost predicate Possible(v: View, call: MemCall)
    requires Shaped(v)
  {
    && 1 <= call.t < NR_TASKS && v.users[call.t] >= 2
    && (call.Fork? || call.Thread? ==> 1 <= call.f < NR_TASKS && v.users[call.f] == -1)
    && (call.Fork? ==> FreeDir(v.refs) < NR_TASKS && |call.data| == TOTAL_PAGES)
  }

  ghost predicate Enough(v: View, call: MemCall)
    requires Shaped(v) && Possible(v, call) && call.Fork?
  {
    FreeCount(v.phys) >= NUM_PAG_DATA + ForkHeap(v, call.t, FreeDir(v.refs))
  }

  /** Sizes that make the functions below defined; part of what soundness gives. */
  ghost predicate Sized(v: View, t: nat)
    requires Shaped(v)
  {
    t < NR_TASKS && 0 <= v.users[t] < NR_TASKS && 0 <= v.zones[v.myHeap[t]] <= TOTAL_PAGES - HEAP
  }

  lemma SoundSized(v: View, t: nat)
    requires Shaped(v) && Sound(v) && 1 <= t < NR_TASKS && v.users[t] >= 2
    ensures Sized(v, t) && v.users[t] < NR_TASKS && Live(v, v.users[t])
    ensures v.myHeap[FirstUser(v.users, v.users[t])] == v.myHeap[t]
    ensures forall fs :: Fresh(v, fs) ==> NUM_PAG_DATA + v.zones[v.myHeap[t]] + |fs| <= FRAMES
  {
    hide Sound;
    var owner := OwnerOf(v);
    LiveOfTask(v, t);
    assert LiveTable(v.pt[v.users[t]], HeapOf(v, v.users[t]));
    forall fs | Fresh(v, fs) ensures NUM_PAG_DATA + v.zones[v.myHeap[t]] + |fs| <= FRAMES {
      HeapFits(v, owner, v.users[t], fs);
    }
  }

  /** The calls of dyn_mem that change nothing: the query, and those that end in one of the two errors. */
  ghost predicate Idle(v: View, t: nat, n: int)
    requires Shaped(v) && Sized(v, t)
  {
    n == 0 || n > FreeCount(v.phys) || (n < 0 && -n > v.zones[v.myHeap[t]])
  }

  /** What dyn_mem does to the state. */
  ghost function AfterDynMem(v: View, t: nat, n: int): View
    requires Shaped(v) && Sized(v, t)
  {
    var d, z := v.users[t], v.myHeap[t];
    if n > 0 && n <= FreeCount(v.phys) then Grown(v, d, z, Grab(v.phys, n))
    else if n < 0 && -n <= v.zones[z] then Shrunk(v, d, z, -n)
    else v
  }

  /** What dyn_mem returns: the old break, the lowered break, or an error. */
  ghost function DynMemResult(v: View, t: nat, n: int): int
    requires Shaped(v) && Sized(v, t)
  {
    var h := v.zones[v.myHeap[t]];
    if n >= 0 then if n <= FreeCount(v.phys) then (HEAP + h) * PAGE else -ENOMEM
    else if h < -n then -EINVAL else (HEAP + h + n) * PAGE
  }

  ghost function ForkOf(v: View, call: MemCall, own: bool): Child
    requires Shaped(v) && Possible(v, call) && call.Fork? && Sized(v, call.t) && Enough(v, call)
  {
    var c := FreeDir(v.refs);
    Child(call.t, call.f, c, Grab(v.phys, NUM_PAG_DATA + ForkHeap(v, call.t, c)), call.data, own)
  }

  /** Each call as written (`own` false), and with fork repaired: the child counts its own heap, and a
      fork that is short of frames gives its directory back too. */
  ghost function After(v: View, call: MemCall, own: bool): View
    requires Shaped(v) && Possible(v, call) && Sized(v, call.t)
  {
    match call
    case DynMem(t, n) => AfterDynMem(v, t, n)
    case Fork(t, f, data) =>
      if Enough(v, call) then Forked(v, ForkOf(v, call, own))
      else if own then ForkRefused(v, t, f, FreeDir(v.refs))
      else ForkShort(v, t, f, FreeDir(v.refs))
    case Thread(t, f) => Threaded(v, t, f)
    case Exit(t) => Exited(v, t)
  }

  /** When the code as written keeps the state sound. */
  ghost predicate Guard(v: View, call: MemCall)
    requires Shaped(v) && Possible(v, call) && Sized(v, call.t)
  {
    match call
    case DynMem(t, n) => Idle(v, t, n) || (Live(v, v.users[t]) && SoleCounter(v, v.users[t]))
    case Fork(t, f, data) => Enough(v, call) && Harmless(v, FreeDir(v.refs), false)
    case Thread(t, f) => true
    case Exit(t) => true
  }

  /** A free directory is never that of boot or of the idle task. */
  lemma FreeDirIsUsers(v: View)
    requires Shaped(v) && Sound(v) && FreeDir(v.refs) < NR_TASKS
    ensures 2 <= FreeDir(v.refs) && v.refs[FreeDir(v.refs)] == 0
  {
    hide Sound;
    var owner := OwnerOf(v);
    hide Tables, Owned;
    assert v.users[0] == 1;
    CountPositive(v.users, 1);
  }

  /** With every directory in use, different tasks use the first `n` of the user directories. */
  lemma {:induction false} UsersOf(v: View, n: nat) returns (a: set<int>)
    requires Shaped(v) && n <= NR_TASKS - 2 && forall d :: 2 <= d < NR_TASKS ==> Live(v, d)
    ensures |a| == n && forall t :: t in a ==> 0 <= t < NR_TASKS && 2 <= v.users[t] < n + 2
  {
    a := {};
    if n > 0 {
      a := UsersOf(v, n - 1);
      assert Live(v, n + 1);
      a := a + {FirstUser(v.users, n + 1)};
    }
  }

  /** fork can only fail to find a directory for the last free PCB. */
  lemma DirectoryLeft(v: View, f: nat, g: nat)
    requires Shaped(v) && Sound(v) && 1 <= f < g < NR_TASKS && v.users[f] == v.users[g] == -1
    ensures FreeDir(v.refs) < NR_TASKS
  {
    hide Sound;
    var owner := OwnerOf(v);
    hide Tables, Owned;
    if FreeDir(v.refs) == NR_TASKS {
      forall d | 2 <= d < NR_TASKS ensures Live(v, d) {
        LiveByRefs(v, d);
      }
      var a := UsersOf(v, NR_TASKS - 2);
      hide Live, FreeDir;
      SevenSlots(a, f, g);
    }
  }

  lemma {:induction false} AtMostRange(a: set<int>, lo: int, n: nat)
    requires forall t :: t in a ==> lo <= t < lo + n
    ensures |a| <= n
  {
    if n == 0 {
      assert forall t: int :: t !in a;
      assert a == {};
    } else {
      AtMostRange(a - {lo + n - 1}, lo, n - 1);
    }
  }

  lemma SevenSlots(a: set<int>, f: nat, g: nat)
    requires 1 <= f < g < NR_TASKS && forall t :: t in a ==> 1 <= t < NR_TASKS && t != f && t != g
    ensures |a| <= 7
  {
    assert |a + {f}| == |a| + 1;
    assert |a + {f} + {g}| == |a| + 2;
    AtMostRange(a + {f} + {g}, 1, 9);
  }

  lemma DynMemIff(v: View, t: nat, n: int)
    requires Shaped(v) && Sound(v) && 1 <= t < NR_TASKS && v.users[t] >= 2
    ensures Sized(v, t) && Live(v, v.users[t]) && Shaped(AfterDynMem(v, t, n))
    ensures Sound(AfterDynMem(v, t, n)) <==> Idle(v, t, n) || SoleCounter(v, v.users[t])
  {
    SoundSized(v, t);
    hide Sound, SoleCounter, Grab;
    var d, z := v.users[t], v.myHeap[t];
    if 0 < n <= FreeCount(v.phys) {
      GrabFresh(v, n);
      assert Grab(v.phys, n) != [];
      GrowIff(v, d, Grab(v.phys, n));
    } else if n < 0 && -n <= v.zones[z] {
      ShrinkIff(v, d, -n);
    }
  }

  lemma ForkOfForkable(v: View, call: MemCall, own: bool)
    requires Shaped(v) && Sound(v) && call.Fork? && Possible(v, call) && Sized(v, call.t) && Enough(v, call)
    ensures Forkable(v, ForkOf(v, call, own)) && ForkOf(v, call, own).own == own
    ensures ForkOf(v, call, own).c == FreeDir(v.refs)
  {
    FreeDirIsUsers(v);
    hide Sound, FreeDir, Grab, FreeCount, Fresh;
    ForkableByGrab(v, ForkOf(v, call, own));
  }

  lemma ForkableByGrab(v: View, k: Child)
    requires Shaped(v) && Sound(v) && MayFork(v, k) && 0 <= v.users[k.t] < NR_TASKS
    requires var n := NUM_PAG_DATA + ForkHeap(v, k.t, k.c);
             NUM_PAG_DATA <= n <= FreeCount(v.phys) && k.fs == Grab(v.phys, n) && |k.data| == TOTAL_PAGES
    ensures Forkable(v, k)
  {
    GrabFresh(v, |k.fs|);
    hide Sound, Grab, FreeCount, Fresh;
  }

  lemma ForkStepIff(v: View, call: MemCall)
    requires Shaped(v) && Sound(v) && call.Fork? && Possible(v, call)
    ensures Sized(v, call.t) && Shaped(After(v, call, false))
    ensures Sound(After(v, call, false)) <==> Guard(v, call)
  {
    SoundSized(v, call.t);
    FreeDirIsUsers(v);
    hide Sound, Harmless, Forked, FreeDir, Grab, FreeCount;
    if Enough(v, call) {
      ForkOfForkable(v, call, false);
      hide Shaped, Forkable, ForkOf;
      ForkIff(v, ForkOf(v, call, false));
    } else {
      ShortForkLeaks(v, call.t, call.f, FreeDir(v.refs));
    }
  }

  /** The code as written keeps every frame owned once and every count exact precisely under the guard. */
  lemma StepIff(v: View, call: MemCall)
    requires Shaped(v) && Sound(v) && Possible(v, call)
    ensures Sized(v, call.t) && Shaped(After(v, call, false))
    ensures Sound(After(v, call, false)) <==> Guard(v, call)
  {
    SoundSized(v, call.t);
    hide Sound, SoleCounter, Grab, Harmless, Forked, AfterDynMem;
    match call {
      case DynMem(t, n) => DynMemIff(v, t, n);
      case Fork(t, f, data) => ForkStepIff(v, call);
      case Thread(t, f) =>
        ThreadKeeps(v, t, f);
      case Exit(t) =>
        ExitKeeps(v, t);
    }
  }

  // ----- runs

  ghost predicate Ready(v: View) {
    Shaped(v) && Sound(v) && OwnCounters(v)
  }

  /** With fork repaired no condition is left. */
  lemma RepairedKeeps(v: View, call: MemCall)
    requires Ready(v) && Possible(v, call)
    ensures Sized(v, call.t) && Ready(After(v, call, true))
  {
    SoundSized(v, call.t);
    hide Sound, Ready, AfterDynMem, Threaded, Exited, Forked;
    match call {
      case DynMem(t, n) => RepairedDynMem(v, t, n);
      case Fork(t, f, data) => RepairedFork(v, call);
      case Thread(t, f) => RepairedThread(v, t, f);
      case Exit(t) => RepairedExit(v, t);
    }
  }

  lemma RepairedThread(v: View, t: nat, f: nat)
    requires Ready(v) && 1 <= t < NR_TASKS && v.users[t] >= 2 && 1 <= f < NR_TASKS && v.users[f] == -1
    ensures v.users[t] < NR_TASKS && Ready(Threaded(v, t, f))
  {
    hide Sound;
    ThreadKeeps(v, t, f);
  }

  lemma RepairedExit(v: View, t: nat)
    requires Ready(v) && 1 <= t < NR_TASKS && v.users[t] >= 2
    ensures Sized(v, t) && Ready(Exited(v, t))
  {
    hide Sound;
    SoundSized(v, t);
    ExitKeeps(v, t);
  }

  lemma RepairedDynMem(v: View, t: nat, n: int)
    requires Ready(v) && 1 <= t < NR_TASKS && v.users[t] >= 2
    ensures Sized(v, t) && Ready(AfterDynMem(v, t, n))
  {
    hide Sound, SoleCounter, Grab;
    DynMemIff(v, t, n);
    OwnCountersAreSole(v, v.users[t]);
  }

  lemma RepairedFork(v: View, call: MemCall)
    requires Ready(v) && call.Fork? && Possible(v, call)
    ensures Sized(v, call.t) && Ready(After(v, call, true))
  {
    SoundSized(v, call.t);
    FreeDirIsUsers(v);
    hide Sound, OwnCounters, Forked, ForkRefused, FreeDir, Grab, FreeCount;
    if Enough(v, call) {
      ForkOfForkable(v, call, true);
      hide Shaped, Forkable, ForkOf;
      OwnForkKeeps(v, ForkOf(v, call, true));
    } else {
      RefusedKeeps(v, call.t, call.f, FreeDir(v.refs));
    }
  }

  ghost predicate Legal(v: View, calls: seq<MemCall>, own: bool)
    requires Shaped(v)
    decreases |calls|
  {
    calls != [] ==>
      && Possible(v, calls[0]) && Sized(v, calls[0].t) && (own || Guard(v, calls[0]))
      && Shaped(After(v, calls[0], own)) && Legal(After(v, calls[0], own), calls[1..], own)
  }

  ghost function End(v: View, calls: seq<MemCall>, own: bool): (r: View)
    requires Shaped(v) && Legal(v, calls, own)
    ensures Shaped(r)
    decreases |calls|
  {
    if calls == [] then v else End(After(v, calls[0], own), calls[1..], own)
  }

  /** Runs of the code as written under its guards, and all runs with fork repaired, stay sound. */
  lemma {:induction false} RunKeeps(v: View, calls: seq<MemCall>, own: bool)
    requires Shaped(v) && Sound(v) && (own ==> OwnCounters(v)) && Legal(v, calls, own)
    ensures Sound(End(v, calls, own)) && (own ==> OwnCounters(End(v, calls, own)))
    decreases |calls|
  {
    hide Sound, OwnCounters, After, Guard, Shaped;
    if calls != [] {
      if own {
        RepairedKeeps(v, calls[0]);
      } else {
        StepIff(v, calls[0]);
      }
      RunKeeps(After(v, calls[0], own), calls[1..], own);
    }
  }

  /** After any such run: the used user frames are the eight of the code and 20 plus the heap for each
      directory in use, and every directory counts its users. */
  lemma RunConserves(v: View, calls: seq<MemCall>, own: bool)
    requires Shaped(v) && Sound(v) && (own ==> OwnCounters(v)) && Legal(v, calls, own)
    ensures var e := End(v, calls, own);
            && |UsedFrames(e)| == NUM_PAG_CODE + PagesBelow(e, NR_TASKS)
            && (forall d :: 2 <= d < NR_TASKS ==> e.refs[d] == Count(e.users, d))
  {
    RunKeeps(v, calls, own);
    var e := End(v, calls, own);
    hide Legal, End;
    FramesConserved(e);
    hide Sound;
    var owner := OwnerOf(e);
    hide Tables, Owned;
    assert Counts(e);
  }

  // ----- what a caller of dyn_mem can rely on

  /** A growth returns the break as it was, and the break then lies `n` pages higher: the contiguity
      malloc needs. Giving the pages back restores frames, table and counter exactly. */
  lemma GrowthIsContiguous(v: View, t: nat, n: nat)
    requires Shaped(v) && Sound(v) && 1 <= t < NR_TASKS && v.users[t] >= 2 && 0 < n <= FreeCount(v.phys)
    ensures Sized(v, t) && Shaped(AfterDynMem(v, t, n)) && Sized(AfterDynMem(v, t, n), t)
    ensures DynMemResult(v, t, n) == DynMemResult(v, t, 0)
    ensures DynMemResult(AfterDynMem(v, t, n), t, 0) == DynMemResult(v, t, 0) + n * PAGE
    ensures AfterDynMem(AfterDynMem(v, t, n), t, 0 - n) == v
  {
    SoundSized(v, t);
    DynMemIff(v, t, n);
    GrabFresh(v, n);
    GrowThenShrink(v, v.users[t], Grab(v.phys, n));
    hide Sound, FreeCount, Grab;
  }

  /** The heap of a user task is exactly the pages from PAG_LOG_INIT_HEAP up to its break. */
  lemma HeapRange(v: View, t: nat, p: nat)
    requires Shaped(v) && Sound(v) && 1 <= t < NR_TASKS && v.users[t] >= 2 && HEAP <= p < TOTAL_PAGES
    ensures Sized(v, t) && (v.pt[v.users[t]][p].Present? <==> p * PAGE < DynMemResult(v, t, 0))
  {
    SoundSized(v, t);
    hide Sound;
    var owner := OwnerOf(v);
    assert LiveTable(v.pt[v.users[t]], HeapOf(v, v.users[t]));
    assert p < HEAP + HeapOf(v, v.users[t]) ==> OwnPage(HeapOf(v, v.users[t]), p);
  }

  // ----- exit gives frames back exactly once

  /** The last task of a directory to exit frees exactly the frames of that directory's pages; any other
      exit frees none. */
  lemma ExitReleases(v: View, t: nat)
    requires Shaped(v) && Sound(v) && 1 <= t < NR_TASKS && v.users[t] >= 2
    ensures Sized(v, t) && Shaped(Exited(v, t)) && UsedFrames(Exited(v, t)) <= UsedFrames(v)
    ensures |UsedFrames(v)| - |UsedFrames(Exited(v, t))| ==
            if Count(v.users, v.users[t]) == 1 then NUM_PAG_DATA + v.zones[v.myHeap[t]] else 0
  {
    SoundSized(v, t);
    ExitKeeps(v, t);
    hide Sound;
    var owner := OwnerOf(v);
    var d, v' := v.users[t], Exited(v, t);
    assert v.refs[d] == Count(v.users, d);
    if v.refs[d] == 1 {
      OwnedBy(v, owner, d);
      ReleasedFrames(v, t, v', owner);
      assert HeapOf(v, d) == v.zones[v.myHeap[t]];
      hide UsedFrames, By;
      DisjointSum(UsedFrames(v'), By(owner, d), UsedFrames(v));
    } else {
      assert v'.phys == v.phys;
    }
  }

  lemma ReleasedFrames(v: View, t: nat, v': View, owner: map<int, (int, int)>)
    requires Good(v, owner) && IsLastExit(v, t, v')
    ensures Shaped(v') && forall f: int :: f in UsedFrames(v') <==> f in UsedFrames(v) && f !in By(owner, v.users[t])
    ensures forall f: int :: f in By(owner, v.users[t]) ==> f in UsedFrames(v)
  {
    OwnedAreUsed(v, owner);
    assert Shaped(v');
    hide Good, IsLastExit;
    forall f: int ensures f in UsedFrames(v') <==> f in UsedFrames(v) && f !in By(owner, v.users[t]) {
      if 0 <= f < TOTAL_PAGES {
        LastExitPhys(v, t, v', owner, f);
      }
    }
  }
}
