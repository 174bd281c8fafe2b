/** Memory as a process reads it, through its page table: what the allocator of libc.c takes for granted
    about dyn_mem, and what the calls of one task leave of the others' memory. */
module UserHeap {
  import opened Params
  import opened Words
  import opened FrameModel
  import opened FrameSteps
  import opened FrameRuns

  /** The byte a task reads at address `x`; 0 stands for a page fault. */
  ghost function ByteAt(v: View, t: nat, x: nat): byte
    requires Shaped(v) && t < NR_TASKS && 0 <= v.users[t] < NR_TASKS && x < TOTAL_PAGES * PAGE
  {
    var e := v.pt[v.users[t]][x / PAGE];
    if e.Present? && e.frame < TOTAL_PAGES && x % PAGE < |v.data[e.frame]| then v.data[e.frame][x % PAGE] else 0
  }

  /** All bytes a task reads below its break. */
  ghost function Image(v: View, t: nat): (m: seq<byte>)
    requires Shaped(v) && Sized(v, t) && 0 <= v.users[t]
    ensures |m| == DynMemResult(v, t, 0)
  {
    seq(DynMemResult(v, t, 0), x requires 0 <= x < DynMemResult(v, t, 0) => ByteAt(v, t, x))
  }

  /** A dyn_mem that is not refused moves the break as malloc and free rely on, shared counter or not. */
  lemma DynMemMovesBreak(v: View, t: nat, n: int)
    requires Shaped(v) && Sound(v) && 1 <= t < NR_TASKS && v.users[t] >= 2
    requires Sized(v, t) && 0 - v.zones[v.myHeap[t]] <= n <= FreeCount(v.phys)
    ensures Shaped(AfterDynMem(v, t, n)) && Sized(AfterDynMem(v, t, n), t)
    ensures BreakMoved(Image(v, t), n, Image(AfterDynMem(v, t, n), t), DynMemResult(v, t, n))
  {
    hide Sound, Image, Grab, FreeCount, Mark, MapRange, UnmapRange, Fresh;
    SoundSized(v, t);
    if n > 0 {
      GrabFresh(v, n);
      GrowthMapsAbove(v, t, Grab(v.phys, n));
    } else if n < 0 {
      ShrinkUnmapsAbove(v, t, 0 - n);
    }
    var v' := AfterDynMem(v, t, n);
    var e := if n <= 0 then DynMemResult(v', t, 0) else DynMemResult(v, t, 0);
    assert e == (HEAP + v.zones[v.myHeap[t]] + if n < 0 then n else 0) * PAGE;
    SameBelow(v, v', t, e);
  }

  lemma GrowthMapsAbove(v: View, t: nat, fs: seq<nat>)
    requires Shaped(v) && Sized(v, t) && HEAP + v.zones[v.myHeap[t]] + |fs| <= TOTAL_PAGES
    ensures var v' := Grown(v, v.users[t], v.myHeap[t], fs);
            && Shaped(v') && Sized(v', t) && v'.data == v.data && v'.users == v.users
            && (forall p :: 0 <= p < HEAP + v.zones[v.myHeap[t]] ==> v'.pt[v.users[t]][p] == v.pt[v.users[t]][p])
  {
  }

  lemma ShrinkUnmapsAbove(v: View, t: nat, n: nat)
    requires Shaped(v) && Sized(v, t) && n <= v.zones[v.myHeap[t]]
    ensures var v' := Shrunk(v, v.users[t], v.myHeap[t], n);
            && Shaped(v') && Sized(v', t) && v'.data == v.data && v'.users == v.users
            && (forall p :: 0 <= p < HEAP + v.zones[v.myHeap[t]] - n ==> v'.pt[v.users[t]][p] == v.pt[v.users[t]][p])
  {
  }

  lemma SameBelow(v: View, v': View, t: nat, e: int)
    requires Shaped(v) && Sized(v, t) && Shaped(v') && Sized(v', t)
    requires v'.data == v.data && v'.users == v.users && 0 <= e <= |Image(v, t)| && e <= |Image(v', t)|
    requires forall p :: 0 <= p < TOTAL_PAGES && p * PAGE < e ==> v'.pt[v.users[t]][p] == v.pt[v.users[t]][p]
    ensures Image(v', t)[..e] == Image(v, t)[..e]
  {
    forall x | 0 <= x < e ensures Image(v', t)[x] == Image(v, t)[x] {
      assert x == x / PAGE * PAGE + x % PAGE;
    }
  }

  // ----- what a call of one task leaves of the others' memory

  /** A new thread reads everywhere what its creator reads, below the same break, and nobody else's
      memory changes. */
  lemma ThreadShares(v: View, t: nat, f: nat, u: nat, x: nat)
    requires Shaped(v) && Sound(v) && 1 <= t < NR_TASKS && v.users[t] >= 2 && 1 <= f < NR_TASKS && v.users[f] == -1
    requires u < NR_TASKS && 0 <= v.users[u] < NR_TASKS && x < TOTAL_PAGES * PAGE
    ensures Sized(v, t)
    ensures var v' := Threaded(v, t, f);
            && Shaped(v') && Sized(v', f) && DynMemResult(v', f, 0) == DynMemResult(v, t, 0)
            && ByteAt(v', f, x) == ByteAt(v, t, x) && ByteAt(v', u, x) == ByteAt(v, u, x)
  {
    SoundSized(v, t);
    hide Sound;
  }

  /** An exit takes no byte from a task that goes on, in the same directory or another. */
  lemma ExitLeavesOthers(v: View, t: nat, u: nat, x: nat)
    requires Shaped(v) && Sound(v) && 1 <= t < NR_TASKS && v.users[t] >= 2
    requires u < NR_TASKS && u != t && 0 <= v.users[u] < NR_TASKS && x < TOTAL_PAGES * PAGE
    ensures Sized(v, t) && Shaped(Exited(v, t)) && Exited(v, t).users[u] == v.users[u]
    ensures ByteAt(Exited(v, t), u, x) == ByteAt(v, u, x)
  {
    SoundSized(v, t);
    SoundParts(v);
    hide Sound, Tables;
    if v.users[u] == v.users[t] {
      TwoUsers(v.users, t, u);
    }
    hide Mark, UnmapRange;
  }

  lemma {:induction false} TwoUsers(users: seq<int>, t: nat, u: nat)
    requires t < |users| && u < |users| && t != u && users[t] == users[u]
    ensures Count(users, users[t]) >= 2
  {
    if t == 0 || u == 0 {
      var w := if t == 0 then u else t;
      assert users[1..][w - 1] == users[0];
      CountPositive(users[1..], users[0]);
    } else {
      TwoUsers(users[1..], t - 1, u - 1);
    }
  }

  /** dyn_mem changes nothing a task of another directory reads. */
  lemma DynMemLeavesOthers(v: View, t: nat, n: int, u: nat, x: nat)
    requires Shaped(v) && Sound(v) && 1 <= t < NR_TASKS && v.users[t] >= 2
    requires u < NR_TASKS && 0 <= v.users[u] < NR_TASKS && v.users[u] != v.users[t] && x < TOTAL_PAGES * PAGE
    ensures Sized(v, t) && Shaped(AfterDynMem(v, t, n))
    ensures ByteAt(AfterDynMem(v, t, n), u, x) == ByteAt(v, u, x)
  {
    SoundSized(v, t);
    DynMemIff(v, t, n);
    hide Sound, Grab, FreeCount, Mark, MapRange, UnmapRange;
  }
}
