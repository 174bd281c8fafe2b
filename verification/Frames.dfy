/** The memory management of mm.c, sched.c and sys.c on its arrays, with a TLB that keeps every
    translation it has used until set_cr3 flushes it. */
module Frames {
  import opened Params
  import opened FrameModel
  import opened FrameSteps
  import opened ForkSteps
  import opened FrameRuns
  import opened FrameLoops

  class Machine {
    const physMem: array<bool>        // phys_mem
    const tables: array<seq<Entry>>   // pagusr_table, one per directory
    const references: array<int>      // dir_pages_num_references
    const heapZones: array<int>       // heap_zones
    const users: array<int>           // dir_pages_baseAddr of each PCB as an index, -1 on the free queue
    const myHeap: array<nat>          // my_heap of each PCB as an index into heap_zones
    const frames: array<Page>         // what the frames hold
    var tlb: map<nat, nat>            // cached translations of the running task

    ghost predicate Valid()
      reads physMem, tables, references, heapZones, users, myHeap, frames
    {
      && references != heapZones && references != users && heapZones != users
      && Shaped(V())
    }

    ghost function V(): View
      reads physMem, tables, references, heapZones, users, myHeap, frames
    {
      View(physMem[..], tables[..], references[..], heapZones[..], users[..], myHeap[..], frames[..])
    }

    /** main up to the first user instruction: boot's reference to directory 0, the idle task in
        directory 1, task 1 in directory 2. */
    constructor ()
      ensures Valid() && |V().data| == TOTAL_PAGES && V() == Booted(V().data) && tlb == map[]
      ensures fresh(physMem) && fresh(tables) && fresh(references) && fresh(heapZones) && fresh(users) &&
              fresh(myHeap) && fresh(frames)
    {
      physMem := new bool[TOTAL_PAGES](_ => false);
      tables := new seq<Entry>[NR_TASKS](_ => EmptyTable());
      references := new int[NR_TASKS](_ => 0);
      heapZones := new int[NR_TASKS](_ => 0);
      users := new int[NR_TASKS](_ => -1);
      myHeap := new nat[NR_TASKS](_ => 0);
      frames := new Page[TOTAL_PAGES](_ => []);
      tlb := map[];
      new;
      BlankAt(physMem[..], tables[..], references[..], heapZones[..], users[..], myHeap[..], frames[..]);
      assert V() == Blank(V().data);
      hide Valid, V, Blank, UserDirs, Booted;
      InitMm();
      InitIdle();
      InitTask1();
    }

    method InitMm()
      requires Valid() && V() == Blank(V().data)
      modifies physMem, tables, references, users, this`tlb
      ensures Valid() && V() == UserDirs(V().data, 1)
    {
      FirstDirs(V().data);
      assert |V().refs| == NR_TASKS;
      hide Shaped, Valid, V, Blank, UserDirs, FreeDir, KernelTable, UsedUpTo;
      InitTablePages();
      InitFrames();
      var ok := AllocateDir(0);
      SetCr3();
    }

    method InitIdle()
      requires Valid() && V() == UserDirs(V().data, 1)
      modifies references, users
      ensures Valid() && V() == UserDirs(V().data, 2)
    {
      SecondDir(V().data);
      hide Shaped, Valid, V, UserDirs, FreeDir, KernelTable, UsedUpTo;
      var ok := AllocateDir(0);
    }

    method InitTask1()
      requires Valid() && V() == UserDirs(V().data, 2)
      modifies physMem, tables, references, users, heapZones, myHeap, this`tlb
      ensures Valid() && V() == Booted(V().data) && tlb == map[]
    {
      ghost var data := V().data;
      ThirdDir(data);
      BootFrames(data);
      hide Shaped, Valid, V, UserDirs, Booted, FreeDir, KernelTable, UsedUpTo, Mark, MapRange, Grab, FreeCount;
      var ok := AllocateDir(1);
      AllocateHeap(1);
      SetUserPages(1);
      SetCr3();
    }

    // ----- mm.c

    method InitFrames()
      requires Valid()
      modifies physMem
      ensures Valid() && V() == old(V()).(phys := UsedUpTo(0))
    {
      var i := 0;
      while i < TOTAL_PAGES
        invariant 0 <= i <= TOTAL_PAGES && forall f :: 0 <= f < i ==> !physMem[f]
      {
        physMem[i] := false;
        i := i + 1;
      }
      i := 0;
      while i < NUM_PAG_KERNEL
        invariant 0 <= i <= NUM_PAG_KERNEL && forall f :: 0 <= f < TOTAL_PAGES ==> physMem[f] == (f < i)
      {
        physMem[i] := true;
        i := i + 1;
      }
      assert physMem[..] == UsedUpTo(0);
    }

    /** Page 0 stays out of every table. */
    method InitTablePages()
      requires Valid()
      modifies tables
      ensures Valid() && V() == old(V()).(pt := seq(NR_TASKS, _ => KernelTable()))
    {
      ghost var v := V();
      var j := 0;
      while j < NR_TASKS
        invariant 0 <= j <= NR_TASKS && Valid() && V() == v.(pt := V().pt) && |V().pt| == NR_TASKS
        invariant forall d :: 0 <= d < j ==> V().pt[d] == KernelTable()
      {
        InitTable(j);
        j := j + 1;
      }
      assert V().pt == seq(NR_TASKS, _ => KernelTable());
    }

    method InitTable(j: nat)
      requires Valid() && j < NR_TASKS
      modifies tables
      ensures Valid() && V() == old(V()).(pt := old(V()).pt[j := KernelTable()])
    {
      ghost var v := V();
      assert Shaped(v);
      hide Valid, V;
      assert v.pt == v.pt[j := v.pt[j]];
      UnmapNone(v.phys, v.pt[j], 0);
      var i := 0;
      while i < TOTAL_PAGES
        invariant 0 <= i <= TOTAL_PAGES && Valid() && V() == v.(pt := v.pt[j := UnmapRange(v.pt[j], 0, i)])
      {
        DelSsPag(j, i);
        UnmapNext(v.pt[j], 0, i);
        i := i + 1;
      }
      i := 1;
      assert UnmapRange(v.pt[j], 0, TOTAL_PAGES) == KernelUpTo(1);
      while i < NUM_PAG_KERNEL
        invariant 1 <= i <= NUM_PAG_KERNEL && Valid() && V() == v.(pt := v.pt[j := KernelUpTo(i)])
      {
        SetSsPag(j, i, i);
        assert KernelUpTo(i)[i := Present(i)] == KernelUpTo(i + 1);
        i := i + 1;
      }
    }

    /** Code first, then data, on new frames. */
    method SetUserPages(t: nat)
      requires Valid() && t < NR_TASKS && 0 <= V().users[t] < NR_TASKS &&
               FreeCount(V().phys) >= NUM_PAG_CODE + NUM_PAG_DATA
      modifies physMem, tables
      ensures Valid()
      ensures var v, d := old(V()), old(V()).users[t];
              var code := Grab(v.phys, NUM_PAG_CODE);
              FreeCount(Mark(v.phys, code, true)) >= NUM_PAG_DATA &&
              var data := Grab(Mark(v.phys, code, true), NUM_PAG_DATA);
              V() == v.(phys := Mark(Mark(v.phys, code, true), data, true),
                  pt := v.pt[d := MapRange(MapRange(v.pt[d], CODE, code), DATA, data)])
    {
      ghost var v := V();
      GrabAppend(v.phys, NUM_PAG_CODE);
      hide Valid, V, Grab, FreeCount, Mark, MapRange;
      var d := GetDir(t);
      MapNew(d, CODE, NUM_PAG_CODE);
      MapNew(d, DATA, NUM_PAG_DATA);
    }

    method MapNew(d: nat, start: nat, n: nat)
      requires Valid() && d < NR_TASKS && start + n <= TOTAL_PAGES && n <= FreeCount(V().phys)
      modifies physMem, tables
      ensures Valid()
      ensures var v := old(V());
              V() == v.(phys := Mark(v.phys, Grab(v.phys, n), true),
                  pt := v.pt[d := MapRange(v.pt[d], start, Grab(v.phys, n))])
    {
      ghost var v := V();
      assert Shaped(v) && |v.phys| == |v.pt[d]| == TOTAL_PAGES;
      hide Shaped, Valid, V, FreeCount, Grab, Lowest, Mark, MapRange;
      ghost var fs: seq<nat> := [];
      NoneMapped(v.phys, v.pt[d], start);
      assert v.pt == v.pt[d := v.pt[d]];
      var i := 0;
      while i < n
        invariant 0 <= i <= n && fs == Grab(v.phys, i) && Valid()
        invariant V() == v.(phys := Mark(v.phys, fs, true), pt := v.pt[d := MapRange(v.pt[d], start, fs)])
      {
        GrabAppend(v.phys, i);
        var f := MapNewFrame(d, start + i);
        MarkOneMore(v.phys, fs, f);
        MapOneMore(v.pt[d], start, fs, f);
        fs := fs + [f];
        i := i + 1;
      }
    }

    method AllocFrame() returns (f: int)
      requires Valid()
      modifies physMem
      ensures Valid() && f == Lowest(old(V()).phys)
      ensures V() == if f == -1 then old(V()) else old(V()).(phys := old(V()).phys[f := true])
    {
      var i := NUM_PAG_KERNEL;
      while i < TOTAL_PAGES
        invariant NUM_PAG_KERNEL <= i <= TOTAL_PAGES && i % 2 == 0 && physMem[..] == old(physMem[..])
        invariant LowestFree(physMem[..], NUM_PAG_KERNEL) == LowestFree(physMem[..], i)
      {
        if !physMem[i] {
          physMem[i] := true;
          return i;
        }
        i := i + 2;
      }
      return -1;
    }

    method FreeFrame(frame: nat)
      requires Valid()
      modifies physMem
      ensures Valid()
      ensures var v := old(V());
              V() == if NUM_PAG_KERNEL < frame < TOTAL_PAGES then v.(phys := v.phys[frame := false]) else v
    {
      if frame > NUM_PAG_KERNEL && frame < TOTAL_PAGES {
        physMem[frame] := false;
      }
    }

    method SetSsPag(d: nat, page: nat, frame: nat)
      requires Valid() && d < NR_TASKS && page < TOTAL_PAGES
      modifies tables
      ensures Valid() && V() == old(V()).(pt := old(V()).pt[d := old(V()).pt[d][page := Present(frame)]])
    {
      tables[d] := tables[d][page := Present(frame)];
    }

    method DelSsPag(d: nat, page: nat)
      requires Valid() && d < NR_TASKS && page < TOTAL_PAGES
      modifies tables
      ensures Valid() && V() == old(V()).(pt := old(V()).pt[d := old(V()).pt[d][page := Absent]])
    {
      tables[d] := tables[d][page := Absent];
    }

    method GetFrame(d: nat, page: nat) returns (f: nat)
      requires Valid() && d < NR_TASKS && page < TOTAL_PAGES
      ensures f == FrameOf(V().pt[d][page])
    {
      f := if tables[d][page].Present? then tables[d][page].frame else 0;
    }

    /** alloc_frame and, if it found one, set_ss_pag, as growth and boot do for each page. */
    method MapNewFrame(d: nat, page: nat) returns (f: int)
      requires Valid() && d < NR_TASKS && (FreeCount(V().phys) > 0 ==> page < TOTAL_PAGES)
      modifies physMem, tables
      ensures Valid()
      ensures var v := old(V());
              && f == Lowest(v.phys)
              && V() == if f == -1 then v else v.(phys := v.phys[f := true],
                  pt := v.pt[d := v.pt[d][page := Present(f)]])
    {
      ghost var v := V();
      assert |v.phys| == TOTAL_PAGES;
      hide Shaped, Valid, V, FreeCount, Lowest;
      f := AllocFrame();
      if f >= 0 {
        SetSsPag(d, page, f);
      }
    }

    method SetCr3()
      modifies this`tlb
      ensures tlb == map[]
    {
      tlb := map[];
    }

    /** A memory access: the TLB answers if it can, otherwise the table does and the TLB remembers. */
    method Translate(d: nat, page: nat) returns (f: nat)
      requires Valid() && d < NR_TASKS && page < TOTAL_PAGES && (page in tlb || V().pt[d][page].Present?)
      modifies this`tlb
      ensures f == if page in old(tlb) then old(tlb)[page] else V().pt[d][page].frame
      ensures Valid() && V() == old(V()) && tlb == old(tlb)[page := f]
    {
      if page in tlb {
        f := tlb[page];
        assert tlb == tlb[page := f];
      } else {
        f := tables[d][page].frame;
        tlb := tlb[page := f];
      }
    }

    /** free_frame and del_ss_pag on each page of a stretch, as exit and dyn_mem do. */
    method FreePages(d: nat, lo: nat, hi: nat)
      requires Valid() && d < NR_TASKS && lo <= hi <= TOTAL_PAGES
      requires forall i :: 0 <= i < hi - lo ==> NUM_PAG_KERNEL < FramesIn(V().pt[d], lo, hi)[i] < TOTAL_PAGES
      modifies physMem, tables
      ensures Valid()
      ensures var v := old(V());
              V() == v.(phys := Mark(v.phys, FramesIn(v.pt[d], lo, hi), false),
                        pt := v.pt[d := UnmapRange(v.pt[d], lo, hi)])
    {
      ghost var v := V();
      ghost var fs := FramesIn(v.pt[d], lo, hi);
      assert Shaped(v);
      hide Valid, V, Mark, UnmapRange;
      UnmapNone(v.phys, v.pt[d], lo);
      assert fs[..0] == [];
      assert v.pt == v.pt[d := v.pt[d]];
      var i := lo;
      while i < hi
        invariant lo <= i <= hi && Valid()
        invariant V() == v.(phys := Mark(v.phys, fs[..i - lo], false), pt := v.pt[d := UnmapRange(v.pt[d], lo, i)])
      {
        var f := GetFrame(d, i);
        UnmapOneMore(v.phys, v.pt[d], fs, lo, i);
        FreeFrame(f);
        DelSsPag(d, i);
        i := i + 1;
      }
      assert fs[..hi - lo] == fs;
    }

    // ----- sched.c

    method GetDir(t: nat) returns (d: int)
      requires Valid() && t < NR_TASKS
      ensures d == V().users[t]
    {
      d := users[t];
    }

    method AllocateDir(t: nat) returns (ok: bool)
      requires Valid() && t < NR_TASKS
      modifies references, users
      ensures Valid() && ok == (FreeDir(old(V()).refs) < NR_TASKS)
      ensures var v := old(V());
              var c := FreeDir(v.refs);
              V() == if c < NR_TASKS then v.(refs := v.refs[c := v.refs[c] + 1], users := v.users[t := c]) else v
    {
      var pos, i := -1, 0;
      while i < NR_TASKS
        invariant 0 <= i <= NR_TASKS && pos == -1
        invariant forall j :: 0 <= j < i ==> references[j] > 0
      {
        if references[i] <= 0 {
          pos := i;
          break;
        }
        i := i + 1;
      }
      FreeDirAt(references[..], i);
      if pos < 0 {
        return false;
      }
      references[pos] := references[pos] + 1;
      users[t] := pos;
      ok := true;
    }

    method AddDirRef(t: nat)
      requires Valid() && t < NR_TASKS && 0 <= V().users[t] < NR_TASKS
      modifies references
      ensures Valid()
      ensures var v := old(V()); V() == v.(refs := v.refs[v.users[t] := v.refs[v.users[t]] + 1])
    {
      references[users[t]] := references[users[t]] + 1;
    }

    method SubDirRef(t: nat) returns (left: int)
      requires Valid() && t < NR_TASKS && 0 <= V().users[t] < NR_TASKS
      modifies references
      ensures Valid()
      ensures var v := old(V()); left == v.refs[v.users[t]] - 1 && V() == v.(refs := v.refs[v.users[t] := left])
    {
      references[users[t]] := references[users[t]] - 1;
      left := references[users[t]];
    }

    method AllocateHeap(t: nat)
      requires Valid() && t < NR_TASKS && 0 <= V().users[t] < NR_TASKS
      modifies heapZones, myHeap
      ensures Valid()
      ensures var v := old(V()); V() == v.(zones := v.zones[v.users[t] := 0], myHeap := v.myHeap[t := v.users[t]])
    {
      heapZones[users[t]] := 0;
      myHeap[t] := users[t];
    }

    /** Reading and writing the heap counter through my_heap. */
    method GetHeap(t: nat) returns (h: int)
      requires Valid() && t < NR_TASKS
      ensures h == V().zones[V().myHeap[t]]
    {
      h := heapZones[myHeap[t]];
    }

    method SetHeap(t: nat, h: int)
      requires Valid() && t < NR_TASKS
      modifies heapZones
      ensures Valid()
      ensures var v := old(V()); V() == v.(zones := v.zones[v.myHeap[t] := h])
    {
      heapZones[myHeap[t]] := h;
    }

    /** The writes to dir_pages_baseAddr and my_heap of a PCB. */
    method SetDir(t: nat, dir: int)
      requires Valid() && t < NR_TASKS
      modifies users
      ensures Valid() && V() == old(V()).(users := old(V()).users[t := dir])
    {
      users[t] := dir;
    }

    method ShareHeap(t: nat, f: nat)
      requires Valid() && t < NR_TASKS && f < NR_TASKS
      modifies myHeap
      ensures Valid() && V() == old(V()).(myHeap := old(V()).myHeap[f := old(V()).myHeap[t]])
    {
      myHeap[f] := myHeap[t];
    }

    // ----- dyn_mem

    /** Returns the old break when it grows, the new one when it shrinks; a growth that runs out of
        frames leaves table and phys_mem as they were. */
    method SysDynMem(t: nat, numPags: int) returns (r: int)
      requires Valid() && Sound(V()) && 1 <= t < NR_TASKS && V().users[t] >= 2 && Exact(tlb, V().pt[V().users[t]])
      modifies physMem, tables, heapZones, this`tlb
      ensures Valid() && Sized(old(V()), t) && V() == AfterDynMem(old(V()), t, numPags)
      ensures r == DynMemResult(old(V()), t, numPags) && Exact(tlb, V().pt[V().users[t]])
    {
      SoundSized(V(), t);
      hide Valid, V, Sound, Grown, Shrunk, Grab, FreeCount;
      if numPags == 0 {
        var h := GetHeap(t);
        return (HEAP + h) * PAGE;
      } else if numPags > 0 {
        r := Grow(t, numPags);
      } else {
        r := Shrink(t, -numPags);
      }
    }

    method Grow(t: nat, numPags: nat) returns (r: int)
      requires Valid() && Sound(V()) && 1 <= t < NR_TASKS && V().users[t] >= 2 && numPags > 0
      requires V().users[t] < NR_TASKS && Exact(tlb, V().pt[V().users[t]])
      modifies physMem, tables, heapZones
      ensures Valid()
      ensures var v := old(V());
              && Sized(v, t)
              && (if numPags <= FreeCount(v.phys)
                  then V() == Grown(v, v.users[t], v.myHeap[t], Grab(v.phys, numPags)) &&
                      r == (HEAP + v.zones[v.myHeap[t]]) * PAGE
                  else V() == v && r == -ENOMEM)
              && Exact(tlb, V().pt[v.users[t]])
    {
      ghost var v := V();
      AboveHeap(v, t);
      hide Valid, V, Sound, FreeCount, Grab, MapRange, Mark, Grown;
      var d := GetDir(t);
      var h := GetHeap(t);
      var ok := GrowPages(d, HEAP + h, numPags);
      if !ok {
        return -ENOMEM;
      }
      GrownBy(v, d, v.myHeap[t], Grab(v.phys, numPags));
      StillMapped(v.pt[d], HEAP + h, Grab(v.phys, numPags));
      r := (HEAP + h) * PAGE;
      SetHeap(t, h + numPags);
    }

    /** The growth loop of dyn_mem with its way back. */
    method GrowPages(d: nat, start: nat, n: nat) returns (ok: bool)
      requires Valid() && d < NR_TASKS && start + FreeCount(V().phys) <= TOTAL_PAGES && EmptyFrom(V().pt[d], start)
      modifies physMem, tables
      ensures Valid() && (ok <==> n <= FreeCount(old(V()).phys))
      ensures var v := old(V());
              V() == if ok then v.(phys := Mark(v.phys, Grab(v.phys, n), true),
                  pt := v.pt[d := MapRange(v.pt[d], start, Grab(v.phys, n))])
                     else v.(phys := v.phys[NUM_PAG_KERNEL := true])
    {
      ghost var v := V();
      assert Shaped(v) && |v.phys| == |v.pt[d]| == TOTAL_PAGES;
      hide Shaped, Valid, V, EmptyFrom, FreeCount, Grab, Lowest, Mark, MapRange;
      var frames: seq<nat> := [];
      var i := 0;
      NoneMapped(v.phys, v.pt[d], start);
      assert v.pt == v.pt[d := v.pt[d]];
      while i < n
        invariant 0 <= i <= n && i <= FreeCount(v.phys) && frames == Grab(v.phys, i) && Valid()
        invariant V() == v.(phys := Mark(v.phys, frames, true), pt := v.pt[d := MapRange(v.pt[d], start, frames)])
      {
        GrabAppend(v.phys, i);
        var f := MapNewFrame(d, start + i);
        if f < 0 {
          GrabbedAll(v.phys, frames);
          UndoGrowth(v, d, start, frames);
          return false;
        }
        MarkOneMore(v.phys, frames, f);
        MapOneMore(v.pt[d], start, frames, f);
        frames := frames + [f];
        i := i + 1;
      }
      ok := true;
    }

    /** dyn_mem gives the frames of a failed growth back: all of them, save that free_frame ignores the
        first frame past the kernel's. */
    method UndoGrowth(ghost v: View, d: nat, start: nat, frames: seq<nat>)
      requires Valid() && d < NR_TASKS && start + |frames| <= TOTAL_PAGES && Shaped(v) && EmptyFrom(v.pt[d], start)
      requires V() == v.(phys := Mark(v.phys, frames, true), pt := v.pt[d := MapRange(v.pt[d], start, frames)])
      requires forall i :: 0 <= i < |frames| ==> Takeable(v.phys, frames[i])
      requires forall i, j :: 0 <= i < j < |frames| ==> frames[i] != frames[j]
      requires Mark(v.phys, frames, true)[NUM_PAG_KERNEL := true] == Mark(v.phys, frames, true)
      modifies physMem, tables
      ensures Valid() && V() == v.(phys := v.phys[NUM_PAG_KERNEL := true])
    {
      ghost var mapped := V().pt[d];
      hide Valid, V, EmptyFrom, FreeCount, Grab, Mark, MapRange, UnmapRange;
      var j := 0;
      UnmapNone(v.phys, mapped, start);
      assert frames[0..] == frames;
      while j < |frames|
        invariant 0 <= j <= |frames| && Valid()
        invariant V() == v.(phys := Mark(v.phys, frames[j..], true)[NUM_PAG_KERNEL := true],
                            pt := v.pt[d := UnmapRange(mapped, start, start + j)])
      {
        GaveBack(v.phys, frames, j);
        FreeFrame(frames[j]);
        DelSsPag(d, start + j);
        UnmapNext(mapped, start, start + j);
        j := j + 1;
      }
      AllBack(v.phys, v.pt[d], start, frames);
      assert v.pt == v.pt[d := v.pt[d]];
    }

    method Shrink(t: nat, n: nat) returns (r: int)
      requires Valid() && Sound(V()) && 1 <= t < NR_TASKS && V().users[t] >= 2 && n > 0
      requires V().users[t] < NR_TASKS && Exact(tlb, V().pt[V().users[t]])
      modifies physMem, tables, heapZones, this`tlb
      ensures Valid()
      ensures var v := old(V());
              && Sized(v, t)
              && (if n <= v.zones[v.myHeap[t]]
                  then V() == Shrunk(v, v.users[t], v.myHeap[t], n) && r == (HEAP + v.zones[v.myHeap[t]] - n) * PAGE
                  else V() == v && r == -EINVAL)
              && Exact(tlb, V().pt[v.users[t]])
    {
      ghost var v := V();
      OwnFrames(v, t);
      hide Valid, V, Sound, Mark, UnmapRange, Exact;
      var d := GetDir(t);
      var h := GetHeap(t);
      if h < n {
        return -EINVAL;
      }
      FreePages(d, HEAP + h - n, HEAP + h);
      SetHeap(t, h - n);
      SetCr3();
      r := (HEAP + h - n) * PAGE;
    }

    // ----- create_thread and exit

    /** The new task shares its creator's directory and heap counter. */
    method SysCreateThread(t: nat, f: nat)
      requires Valid() && 1 <= t < NR_TASKS && 2 <= V().users[t] < NR_TASKS && 1 <= f < NR_TASKS && V().users[f] == -1
      modifies users, myHeap, references
      ensures Valid() && V() == Threaded(old(V()), t, f)
    {
      ghost var v := V();
      ThreadedBy(v, t, f);
      hide Valid, V, Threaded;
      var d := GetDir(t);
      SetDir(f, d);
      ShareHeap(t, f);
      AddDirRef(f);
    }

    /** The last task of a directory gives every frame of its data and heap back. */
    method SysExit(t: nat)
      requires Valid() && Sound(V()) && 1 <= t < NR_TASKS && V().users[t] >= 2
      modifies physMem, tables, references, users
      ensures Valid() && Sized(old(V()), t) && V() == Exited(old(V()), t)
    {
      hide Sound, Exited;
      ghost var v := V();
      OwnFrames(v, t);
      SoundRefs(v, t);
      ExitedBy(v, t);
      hide Shaped, Valid, V, Sound, Exited, OwnPage, Mark, UnmapRange;
      var d := GetDir(t);
      var left := SubDirRef(t);
      if left <= 0 {
        var h := GetHeap(t);
        FreePages(d, DATA, DATA + NUM_PAG_DATA);
        FreePages(d, HEAP, HEAP + h);
      }
      SetDir(t, -1);
    }

    /** The change of directory in a context switch flushes the TLB; the exited task has none. */
    method SwitchTo(t: nat, next: nat)
      requires Valid() && t < NR_TASKS && next < NR_TASKS && 0 <= V().users[next] < NR_TASKS
      requires V().users[t] == V().users[next] ==> Exact(tlb, V().pt[V().users[next]])
      modifies this`tlb
      ensures Valid() && V() == old(V()) && Exact(tlb, V().pt[V().users[next]])
    {
      var d := GetDir(next);
      var was := GetDir(t);
      if d != was {
        SetCr3();
      }
    }

    /** A user program always gets the frame its table names, cached or not. */
    method Access(t: nat, page: nat) returns (f: nat)
      requires Valid() && t < NR_TASKS && 0 <= V().users[t] < NR_TASKS && page < TOTAL_PAGES
      requires V().pt[V().users[t]][page].Present? && Exact(tlb, V().pt[V().users[t]])
      modifies this`tlb
      ensures Valid() && V() == old(V()) && f == V().pt[V().users[t]][page].frame && Exact(tlb, V().pt[V().users[t]])
    {
      var d := GetDir(t);
      f := Translate(d, page);
    }

    // ----- fork

    /** The loop that takes the child's frames, giving them back when there are too few. */
    method GrabFrames(n: nat) returns (ok: bool, fs: seq<nat>)
      requires Valid()
      modifies physMem
      ensures Valid() && (ok <==> n <= FreeCount(old(V()).phys))
      ensures ok ==> fs == Grab(old(V()).phys, n) && V() == old(V()).(phys := Mark(old(V()).phys, fs, true))
      ensures !ok ==> V() == old(V()).(phys := old(V()).phys[NUM_PAG_KERNEL := true])
    {
      ghost var v := V();
      assert Shaped(v);
      hide Valid, V, FreeCount, Grab, Lowest, Mark;
      fs := [];
      var i := 0;
      NoneMapped(v.phys, [], 0);
      while i < n
        invariant 0 <= i <= n && i <= FreeCount(v.phys) && fs == Grab(v.phys, i) && Valid()
        invariant V() == v.(phys := Mark(v.phys, fs, true))
      {
        GrabAppend(v.phys, i);
        var f := AllocFrame();
        if f < 0 {
          GrabbedAll(v.phys, fs);
          ReturnFrames(v, fs);
          return false, [];
        }
        MarkOneMore(v.phys, fs, f);
        fs := fs + [f];
        i := i + 1;
      }
      ok := true;
    }

    method ReturnFrames(ghost v: View, fs: seq<nat>)
      requires Valid() && Shaped(v) && V() == v.(phys := Mark(v.phys, fs, true))
      requires forall i :: 0 <= i < |fs| ==> Takeable(v.phys, fs[i])
      requires forall i, j :: 0 <= i < j < |fs| ==> fs[i] != fs[j]
      requires Mark(v.phys, fs, true)[NUM_PAG_KERNEL := true] == Mark(v.phys, fs, true)
      modifies physMem
      ensures Valid() && V() == v.(phys := v.phys[NUM_PAG_KERNEL := true])
    {
      hide Valid, V, Mark;
      var j := 0;
      assert fs[0..] == fs;
      while j < |fs|
        invariant 0 <= j <= |fs| && Valid()
        invariant V() == v.(phys := Mark(v.phys, fs[j..], true)[NUM_PAG_KERNEL := true])
      {
        GaveBack(v.phys, fs, j);
        FreeFrame(fs[j]);
        j := j + 1;
      }
      NoneLeft(v.phys, fs);
    }

    /** The loops that give the child its parent's kernel and code entries. */
    method ShareEntries(c: nat, d: nat, lo: nat, hi: nat)
      requires Valid() && c < NR_TASKS && d < NR_TASKS && c != d && lo <= hi <= TOTAL_PAGES
      modifies tables
      ensures Valid() && V() == old(V()).(pt := old(V()).pt[c := Shared(old(V()).pt[c], old(V()).pt[d], lo, hi)])
    {
      ghost var v := V();
      assert Shaped(v);
      hide Valid, V, Shared;
      SharedNone(v.pt[c], v.pt[d], lo);
      assert v.pt == v.pt[c := v.pt[c]];
      var i := lo;
      while i < hi
        invariant lo <= i <= hi && Valid() && V() == v.(pt := v.pt[c := Shared(v.pt[c], v.pt[d], lo, i)])
      {
        SharedOneMore(v.pt[c], v.pt[d], lo, i);
        var f := GetFrame(d, i);
        SetSsPag(c, i, f);
        i := i + 1;
      }
    }

    /** The loops that map the child's own frames. */
    method MapFrames(c: nat, start: nat, fs: seq<nat>)
      requires Valid() && c < NR_TASKS && start + |fs| <= TOTAL_PAGES
      modifies tables
      ensures Valid() && V() == old(V()).(pt := old(V()).pt[c := MapRange(old(V()).pt[c], start, fs)])
    {
      ghost var v := V();
      assert Shaped(v);
      hide Valid, V, MapRange;
      NoneMapped(v.phys, v.pt[c], start);
      assert v.pt == v.pt[c := v.pt[c]];
      var i := 0;
      while i < |fs|
        invariant 0 <= i <= |fs| && Valid() && V() == v.(pt := v.pt[c := MapRange(v.pt[c], start, fs[..i])])
      {
        MapNext(v.pt[c], start, fs, i);
        SetSsPag(c, start + i, fs[i]);
        i := i + 1;
      }
      assert fs[..|fs|] == fs;
    }

    method FillChild(c: nat, d: nat, fs: seq<nat>, h: nat)
      requires Valid() && c < NR_TASKS && d < NR_TASKS && c != d && |fs| == NUM_PAG_DATA + h && HEAP + h <= TOTAL_PAGES
      modifies tables
      ensures Valid() && V() == old(V()).(pt := old(V()).pt[c := ChildTable(old(V()).pt[c], old(V()).pt[d], fs, h)])
    {
      ghost var v := V();
      assert Shaped(v);
      hide Valid, V, MapRange, Shared, ChildTable;
      ShareEntries(c, d, 0, NUM_PAG_KERNEL);
      ShareEntries(c, d, CODE, CODE + NUM_PAG_CODE);
      MapFrames(c, DATA, fs[..NUM_PAG_DATA]);
      MapFrames(c, HEAP, fs[NUM_PAG_DATA..]);
      ChildTableFilled(v.pt[c], v.pt[d], fs, h);
    }

    /** copy_data of a page: both addresses go through the TLB. */
    method CopyPage(d: nat, from: nat, to: nat)
      requires Valid() && d < NR_TASKS && from < TOTAL_PAGES && to < TOTAL_PAGES && from != to
      requires Translates(tlb, V().pt[d], from) && Translates(tlb, V().pt[d], to)
      modifies frames, this`tlb
      ensures Valid()
      ensures var src, dst := Target(old(tlb), old(V()).pt[d], from), Target(old(tlb), old(V()).pt[d], to);
              && V() == old(V()).(data := old(V()).data[dst := old(V()).data[src]])
              && tlb == old(tlb)[from := src][to := dst]
    {
      var src := Translate(d, from);
      var dst := Translate(d, to);
      frames[dst] := frames[src];
    }

    /** The body of both copy loops: map the child's frame into the window, copy, unmap. */
    method CopyThroughWindow(d: nat, c: nat, page: nat, offset: nat)
      requires Valid() && d < NR_TASKS && c < NR_TASKS && d != c && 0 < offset && page + offset < TOTAL_PAGES
      requires var pt := V().pt[d][page + offset := Present(FrameOf(V().pt[c][page]))];
               Translates(tlb, pt, page) && Translates(tlb, pt, page + offset)
      modifies tables, frames, this`tlb
      ensures Valid()
      ensures var v, w := old(V()), page + offset;
              var pt := v.pt[d][w := Present(FrameOf(v.pt[c][page]))];
              var src, dst := Target(old(tlb), pt, page), Target(old(tlb), pt, w);
              && V() == v.(pt := v.pt[d := v.pt[d][w := Absent]], data := v.data[dst := v.data[src]])
              && tlb == old(tlb)[page := src][w := dst]
    {
      ghost var v := V();
      assert Shaped(v);
      hide Valid, V, Target, Translates;
      var f := GetFrame(c, page);
      SetSsPag(d, page + offset, f);
      CopyPage(d, page, page + offset);
      DelSsPag(d, page + offset);
      assert v.pt[d][page + offset := Present(f)][page + offset := Absent] == v.pt[d][page + offset := Absent];
    }

    /** One of the two copy loops of fork. */
    method CopyRegion(d: nat, c: nat, start: nat, n: nat, offset: nat)
      requires Valid() && CanCopy(tlb, V(), d, c, start, n, offset)
      modifies tables, frames, this`tlb
      ensures Valid() && RegionCopied(old(tlb), old(V()), d, c, start, n, offset, n, tlb, V())
    {
      ghost var v, cache := V(), tlb;
      CopyStart(cache, v, d, c, start, n, offset);
      hide Valid, V, CanCopy, RegionCopied, Translates, Target;
      var i := 0;
      while i < n
        invariant 0 <= i <= n && Valid() && RegionCopied(cache, v, d, c, start, n, offset, i, tlb, V())
      {
        ghost var before, cached := V(), tlb;
        CopyReady(cache, v, d, c, start, n, offset, i, cached, before);
        CopyThroughWindow(d, c, start + i, offset);
        CopyStep(cache, v, d, c, start, n, offset, i, cached, before, tlb, V());
        i := i + 1;
      }
    }

    /** The child's PCB: copied, given a free directory, and its heap counter: its parent's as written
        (`own` false), or the directory's, with the parent's value. */
    method StartFork(t: nat, f: nat, own: bool) returns (c: nat)
      requires Valid() && t < NR_TASKS && f < NR_TASKS && t != f && FreeDir(V().refs) < NR_TASKS
      modifies users, myHeap, references, heapZones
      ensures Valid() && c == FreeDir(old(V()).refs) && V() == Started(old(V()), t, f, own)
    {
      StartedBy(V(), t, f);
      hide Shaped, Valid, V, FreeDir, Started, ForkHeap;
      var d := GetDir(t);
      SetDir(f, d);
      ShareHeap(t, f);
      c := NewSpace(f);
      if own {
        var h := GetHeap(t);
        SetHeap(f, h);
      } else {
        ShareHeap(t, f);
      }
    }

    /** allocate_DIR and allocate_heap, while a directory is free. */
    method NewSpace(f: nat) returns (c: nat)
      requires Valid() && f < NR_TASKS && FreeDir(V().refs) < NR_TASKS
      modifies users, myHeap, references, heapZones
      ensures Valid() && c == FreeDir(old(V()).refs)
      ensures var v := old(V());
              V() == v.(users := v.users[f := c], refs := v.refs[c := v.refs[c] + 1], zones := v.zones[c := 0],
                  myHeap := v.myHeap[f := c])
    {
      ghost var v := V();
      assert |v.users| == NR_TASKS;
      hide Shaped, Valid, V, FreeDir;
      var found := AllocateDir(f);
      c := GetDir(f);
      AllocateHeap(f);
    }

    /** fork up to the frames: with too few of them it is over. */
    method PlanFork(t: nat, f: nat, own: bool) returns (ok: bool, c: nat, h: int, fs: seq<nat>)
      requires Valid() && CanFork(V(), t, f)
      modifies physMem, references, heapZones, users, myHeap
      ensures Valid()
      ensures ok ==>
                && 0 <= h && ForkPlanned(old(V()), Child(t, f, c, fs, old(V()).data, own), V())
                && h == ForkHeap(old(V()), t, c)
      ensures !ok ==> ForkResult(tlb, old(V()), t, f, own, false, tlb, V())
    {
      ghost var v := V();
      StartedFacts(v, t, f, own);
      hide Shaped, Valid, V, Started, ForkResult, ForkPlanned, CanFork, FreeDir, FreeCount, Grab, Mark, ForkHeap;
      c := StartFork(t, f, own);
      h := GetHeap(t);
      ok, fs := GrabFrames(NUM_PAG_DATA + h);
      if ok {
        ForkIsPlanned(v, Child(t, f, c, fs, v.data, own), V());
      } else {
        GiveUp(f, own);
        ForkFailed(tlb, v, t, f, own, V());
      }
    }

    /** The way out of a fork without frames: the PCB is free again, and repaired so is the directory. */
    method GiveUp(f: nat, own: bool)
      requires Valid() && f < NR_TASKS && 0 <= V().users[f] < NR_TASKS
      modifies references, users
      ensures Valid()
      ensures var v, c := old(V()), old(V()).users[f];
              V() == (if own then v.(refs := v.refs[c := v.refs[c] - 1]) else v).(users := v.users[f := -1])
    {
      hide Shaped, Valid, V;
      if own {
        var left := SubDirRef(f);
      }
      SetDir(f, -1);
    }

    /** Frames, tables, counters and contents after fork, whether or not there were frames enough: as
        written, or with `own` as it is meant. */
    method SysFork(t: nat, f: nat, own: bool) returns (ok: bool)
      requires Valid() && CanFork(V(), t, f) && Exact(tlb, V().pt[V().users[t]])
      modifies physMem, tables, references, heapZones, users, myHeap, frames, this`tlb
      ensures Valid() && ForkResult(old(tlb), old(V()), t, f, own, ok, tlb, V())
    {
      ghost var v := V();
      var c, h, fs;
      ok, c, h, fs := PlanFork(t, f, own);
      if !ok {
        return;
      }
      ghost var k := Child(t, f, c, fs, v.data, own);
      PlannedDir(v, k, V());
      hide Valid, V, ForkPlanned, CanFork, ForkResult, FreeDir, Exact;
      var d := GetDir(t);
      BuildChild(d, c, fs, h, v, k);
    }

    /** fork from the frames on: the child's table, the copies through the window, the flush. */
    method BuildChild(d: nat, c: nat, fs: seq<nat>, h: nat, ghost v: View, ghost k: Child)
      requires Valid() && ForkPlanned(v, k, V()) && Exact(tlb, v.pt[v.users[k.t]])
      requires d == v.users[k.t] && c == k.c && fs == k.fs && h == ForkHeap(v, k.t, k.c)
      modifies tables, frames, this`tlb
      ensures Valid() && ForkResult(old(tlb), v, k.t, k.f, k.own, true, tlb, V())
    {
      ghost var cache := tlb;
      FilledAs(v, k, V());
      ForkingFits(v, k, tlb, V());
      hide Valid, V, Started, CanFork, ForkResult, ForkPlanned, Forking, FreeDir, FreeCount, Grab, Mark, Exact,
           Filled, CanCopy, RegionCopied, ChildTable;
      FillChild(c, d, fs, h);
      CanCopyData(v, k, tlb);
      CopyRegion(d, c, DATA, NUM_PAG_DATA, NUM_PAG_DATA + NUM_PAG_CODE + h);
      ghost var v1, tlb1 := V(), tlb;
      CanCopyHeap(v, k, cache, v1, tlb1);
      CopyRegion(d, c, HEAP, h, NUM_PAG_DATA + h);
      ForkSucceeded(v, k, cache, v1, tlb1, V(), tlb);
      SetCr3();
    }
  }
}
