/** What whole runs of the allocator do: an allocation undone by its free, and a run after which the
    tags no longer describe the heap. */
module MallocRuns {
  import opened Params
  import opened Words
  import opened Blocks
  import opened Allocation
  import opened HeapMemory
  import opened Malloc

  /** free(malloc(n)) puts back the block list, the break and every live byte, on the exact-fit, the
      split and the growth path alike. */
  method AllocateAndFree(h: Heap, numBytes: int)
    requires h.Valid() && h.heapStart != NULL && TailBelow(h.blocks, PAGE)
    requires 0 < numBytes && numBytes + 2 * TAG <= INT_MAX && h.CanServe(numBytes)
    modifies h
    ensures h.Valid() && h.blocks == old(h.blocks)
    ensures h.heapStart == old(h.heapStart) && h.heapEnd == old(h.heapEnd) && |h.mem| == |old(h.mem)|
    ensures KeepsLive(old(h.mem), h.mem, h.heapStart, old(h.blocks), NONE)
  {
    hide Tiles, Sound, Trim, Coalesce, TrimSafe, Freed, KeepsLive, Addr, Alloc, Clear;
    ghost var m, bs, total := h.mem, h.blocks, numBytes + 2 * TAG;
    ghost var i := FirstFit(bs, total);
    var p := h.Malloc(numBytes);
    AllocLive(bs, total);
    FreeAfterAllocKnown(bs, total);
    assert h.Live(p, i);
    ghost var m', ds := h.mem, h.blocks;
    if i == |bs| {
      AllocGrows(bs, total);
      GrowthTrimSafe(m, m', h.heapStart, bs, PagesFor(total));
    } else {
      WholePagesSafe(Freed(m', h.heapStart, ds, i), h.heapStart, bs);
    }
    var r := h.Free(p);
    KeepsLiveThrough(m, m', h.mem, h.heapStart, bs, total);
    TilesSpan(m, h.heapStart, |m|, bs);
    TilesSpan(h.mem, h.heapStart, |h.mem|, bs);
  }

  /** The same for the free that keeps its tags, on every heap its runs can reach. */
  method AllocateAndFreeKeeping(h: Heap, numBytes: int)
    requires h.Valid() && h.heapStart != NULL && Settled(h.blocks)
    requires 0 < numBytes && numBytes + 2 * TAG <= INT_MAX && h.CanServe(numBytes)
    modifies h
    ensures h.Valid() && h.blocks == old(h.blocks)
    ensures h.heapStart == old(h.heapStart) && h.heapEnd == old(h.heapEnd) && |h.mem| == |old(h.mem)|
    ensures KeepsLive(old(h.mem), h.mem, h.heapStart, old(h.blocks), NONE)
  {
    hide Tiles, Sound, TrimKeepingTags, Coalesce, Settled, KeepsLive, Addr, Alloc, Clear, TailBelow;
    ghost var m, bs, total := h.mem, h.blocks, numBytes + 2 * TAG;
    var p := h.Malloc(numBytes);
    FreeKeepingAfterAlloc(bs, total);
    ghost var m' := h.mem;
    assert h.Live(p, FirstFit(bs, total));
    var r := h.FreeKeepingTags(p);
    KeepsLiveThrough(m, m', h.mem, h.heapStart, bs, total);
    TilesSpan(m, h.heapStart, |m|, bs);
    TilesSpan(h.mem, h.heapStart, |h.mem|, bs);
  }

  /** The first allocation undone: every byte is back and the page mapped for the heap is gone. */
  method FirstAllocationAndFree(h: Heap, numBytes: int, keeping: bool)
    requires h.Valid() && h.heapStart == NULL
    requires 0 < numBytes && numBytes + 2 * TAG <= INT_MAX && h.CanServe(numBytes)
    modifies h
    ensures h.Valid() && h.blocks == [] && h.mem == old(h.mem) && h.heapStart == h.heapEnd == |h.mem|
  {
    hide Tiles, Sound, Trim, TrimKeepingTags, Coalesce, TrimSafe, Freed, KeepsLive, Addr, Alloc, Clear, Settled;
    ghost var m, total := h.mem, numBytes + 2 * TAG;
    var p := h.Malloc(numBytes);
    FreeFirst(total);
    assert h.Live(p, FirstFit(FIRST, total));
    ghost var m', i := h.mem, FirstFit(FIRST, total);
    assert m'[..|m|] == m;
    if keeping {
      var _ := h.FreeKeepingTags(p);
    } else {
      WholePagesSafe(Freed(m', h.heapStart, h.blocks, i), h.heapStart, Coalesce(h.blocks, i));
      var _ := h.Free(p);
    }
    TilesSpan(h.mem, h.heapStart, h.heapEnd, h.blocks);
    assert h.mem[..|m|] == h.mem;
  }

  lemma AllocLive(bs: seq<Block>, total: int)
    requires 2 * TAG < total
    ensures var i := FirstFit(bs, total); i < |Alloc(bs, total)| && !Alloc(bs, total)[i].free
  {
    AllocWaste(bs, total);
  }

  lemma AllocGrows(bs: seq<Block>, total: int)
    requires FirstFit(bs, total) == |bs|
    ensures Alloc(bs, total) == bs + [Block(PagesFor(total) * PAGE, false)]
  {
  }

  lemma FreeAfterAllocKnown(bs: seq<Block>, total: int)
    requires Sound(bs) && TailBelow(bs, PAGE) && 2 * TAG < total
    ensures var i := FirstFit(bs, total);
            && i < |Alloc(bs, total)|
            && Trim(Coalesce(Alloc(bs, total), i)) == bs
            && (i < |bs| ==> Coalesce(Alloc(bs, total), i) == bs)
  {
    hide Alloc, Coalesce, Trim, Span;
    FreeAfterAlloc(bs, total);
    if FirstFit(bs, total) < |bs| {
      FreeAfterFit(bs, total);
    }
  }

  lemma LowByte(m: seq<byte>, a: int)
    requires 0 <= a && a + 4 <= |m|
    ensures ReadInt(m, a) % 256 == m[a]
  {
    var s := m[a..a + 4];
    var q := Unsigned(s[1..]);
    assert Unsigned(s) == s[0] + 256 * q;
    hide Unsigned;
    LowDigit(s[0], if Unsigned(s) > INT_MAX then q - 0x100_0000 else q);
  }

  lemma LowDigit(b: byte, q: int)
    ensures (b + 256 * q) % 256 == b
  {
  }

  function Used(size: int): Block { Block(size, false) }

  function Idle(size: int): Block { Block(size, true) }

  // ----- whole runs

  /** What a program does to its heap: malloc(n), free(p), and a byte stored behind a pointer. */
  datatype Call = Request(n: int) | Release(p: int) | Store(p: int, offset: int, v: byte)

  /** The heap without its bytes: where it starts, the break, and the blocks. */
  datatype Layout = Layout(start: int, end: int, blocks: seq<Block>)

  ghost function LayoutOf(h: Heap): Layout
    reads h
  {
    Layout(h.heapStart, |h.mem|, h.blocks)
  }

  /** `p` points to the payload of live block `i`. */
  ghost predicate Points(l: Layout, p: int, i: nat) {
    l.start != NULL && i < |l.blocks| && !l.blocks[i].free && p == Addr(l.start, l.blocks, i) + TAG
  }

  function Base(l: Layout): seq<Block> {
    if l.start == NULL then FIRST else l.blocks
  }

  /** What the program owes the allocator: a system that can serve the pages, pointers from malloc,
      stores inside a payload; and, for the free as written, a tail its trim cannot spoil. */
  ghost predicate Allowed(l: Layout, c: Call, keeping: bool) {
    match c
    case Request(n) =>
      var base, total := if l.start == NULL then l.end + PAGE else l.end, n + 2 * TAG;
      && total <= INT_MAX
      && (0 < n ==> base <= LIMIT &&
                    (FirstFit(Base(l), total) == |Base(l)| ==> base + PagesFor(total) * PAGE <= LIMIT))
    case Release(p) =>
      && (p == NULL || l.start == NULL || p < l.start + TAG || l.end <= p ||
          exists i :: 0 <= i < |l.blocks| && p == Addr(l.start, l.blocks, i) + TAG)
      && (keeping || forall i: nat | Points(l, p, i) :: WholePages(Coalesce(l.blocks, i)))
    case Store(p, offset, _) =>
      exists i: nat :: Points(l, p, i) && 0 <= offset < l.blocks[i].size - 2 * TAG
  }

  /** The layout after a call, computed from the block list alone. */
  ghost function After(l: Layout, c: Call, keeping: bool): Layout {
    match c
    case Request(n) =>
      if n <= 0 then l
      else
        var start, bs := if l.start == NULL then l.end else l.start, Alloc(Base(l), n + 2 * TAG);
        Layout(start, start + Span(bs), bs)
    case Release(p) =>
      if i: nat :| Points(l, p, i) then
        var cs := Coalesce(l.blocks, i);
        var bs := if keeping then TrimKeepingTags(cs) else Trim(cs);
        Layout(l.start, l.start + Span(bs), bs)
      else l
    case Store(_, _, _) => l
  }

  ghost predicate Legal(l: Layout, calls: seq<Call>, keeping: bool)
    decreases |calls|
  {
    calls != [] ==> Allowed(l, calls[0], keeping) && Legal(After(l, calls[0], keeping), calls[1..], keeping)
  }

  ghost function Final(l: Layout, calls: seq<Call>, keeping: bool): Layout
    decreases |calls|
  {
    if calls == [] then l else Final(After(l, calls[0], keeping), calls[1..], keeping)
  }

  /** A live block of `n` bytes behind `p` is where it was and holds what it held, tags included. */
  ghost predicate Kept(l: Layout, m: seq<byte>, l': Layout, m': seq<byte>, p: int, n: int) {
    Holds(l, p, n) ==>
      && Holds(l', p, n) && TAG <= p && 0 <= n
      && p + n - TAG <= |m| && p + n - TAG <= |m'| && m'[p - TAG..p + n - TAG] == m[p - TAG..p + n - TAG]
  }

  ghost predicate Holds(l: Layout, p: int, n: int) {
    exists i: nat :: Points(l, p, i) && l.blocks[i].size == n
  }

  /** The call neither frees the block behind `p` nor stores through `p`. */
  predicate Leaves(c: Call, p: int) {
    c.Request? || c.p != p
  }

  /** Live blocks keep their address and size over a malloc, on every path of it. */
  lemma HoldsAfterRequest(l: Layout, m: seq<byte>, m': seq<byte>, n: int, keeping: bool, p: int, size: int)
    requires l.start != NULL && 0 < n && KeepsLive(m, m', l.start, l.blocks, NONE)
    ensures Kept(l, m, After(l, Request(n), keeping), m', p, size)
  {
    hide Alloc, FirstFit, Addr, KeepsLive;
    if i: nat :| Points(l, p, i) && l.blocks[i].size == size {
      LiveSlice(m, m', l.start, l.blocks, NONE, i);
      FitIsFree(l.blocks, n + 2 * TAG);
      var j := AllocIndex(l.start, l.blocks, n + 2 * TAG, i);
      assert Points(After(l, Request(n), keeping), p, j);
    }
  }

  lemma FitIsFree(bs: seq<Block>, total: int)
    ensures forall i: nat :: i < |bs| && !bs[i].free ==> i != FirstFit(bs, total)
  {
  }

  lemma LiveSlice(m: seq<byte>, m': seq<byte>, a: int, bs: seq<Block>, but: int, i: nat)
    requires KeepsLive(m, m', a, bs, but) && i < |bs| && !bs[i].free && i != but
    ensures var lo, hi := Addr(a, bs, i), Addr(a, bs, i) + bs[i].size;
            0 <= lo <= hi <= |m| && hi <= |m'| && m'[lo..hi] == m[lo..hi]
  {
    hide Addr;
  }

  /** Live blocks keep their address and size over the free of another one. */
  lemma HoldsAfterRelease(l: Layout, m: seq<byte>, m': seq<byte>, q: int, i: nat, keeping: bool, p: int, size: int)
    requires Points(l, q, i) && (forall j: nat :: Points(l, q, j) ==> j == i)
    requires KeepsLive(m, m', l.start, l.blocks, i) && p != q
    ensures Kept(l, m, After(l, Release(q), keeping), m', p, size)
  {
    hide Coalesce, Trim, TrimKeepingTags, Addr, KeepsLive;
    if k: nat :| Points(l, p, k) && l.blocks[k].size == size {
      LiveSlice(m, m', l.start, l.blocks, i, k);
      var j := CoalesceIndex(l.start, l.blocks, i, k);
      TrimIndex(l.start, Coalesce(l.blocks, i), j);
      assert Points(After(l, Release(q), keeping), p, j);
    }
  }

  /** Where a live block of the list is after another one was freed and merged. */
  lemma CoalesceIndex(start: int, bs: seq<Block>, i: nat, k: nat) returns (j: nat)
    requires i < |bs| && k < |bs| && k != i && !bs[k].free
    ensures var cs := Coalesce(bs, i);
            j < |cs| && cs[j] == bs[k] && Addr(start, cs, j) == Addr(start, bs, k)
  {
    hide Span, JoinNext, JoinPrev;
    var cs, zs := Coalesce(bs, i), JoinNext(bs[i], bs[i + 1..]);
    if k < i {
      j := k;
      JoinPrevFront(bs[..i], zs, k);
      assert cs[..j] == cs[..j + 1][..j] == bs[..k];
      assert cs[j] == cs[..j + 1][j] == bs[k];
    } else {
      JoinNextBack(bs[i], bs[i + 1..], k - i - 1);
      JoinPrevBack(bs[..i], zs, |zs| - (|bs| - k));
      j := |cs| - (|bs| - k);
      assert cs[j..] == bs[k..] && cs[j] == cs[j..][0];
      CoalesceSpan(bs, i);
      assert cs == cs[..j] + cs[j..] && bs == bs[..k] + bs[k..];
      SpanConcat(cs[..j], cs[j..]);
      SpanConcat(bs[..k], bs[k..]);
    }
  }

  lemma JoinPrevFront(xs: seq<Block>, zs: seq<Block>, k: nat)
    requires k < |xs| && !xs[k].free && zs != []
    ensures k < |JoinPrev(xs, zs)| && JoinPrev(xs, zs)[..k + 1] == xs[..k + 1]
  {
  }

  lemma JoinPrevBack(xs: seq<Block>, zs: seq<Block>, k: nat)
    requires 1 <= k <= |zs|
    ensures var rs := JoinPrev(xs, zs); |zs| - k <= |rs| && rs[|rs| - (|zs| - k)..] == zs[k..]
  {
    if xs != [] && xs[|xs| - 1].free {
      var front := xs[..|xs| - 1] + [Block(xs[|xs| - 1].size + zs[0].size, true)];
      BackOf(front, zs[1..], k - 1);
    } else {
      BackOf(xs, zs, k);
    }
  }

  lemma BackOf(xs: seq<Block>, zs: seq<Block>, k: nat)
    requires k <= |zs|
    ensures (xs + zs)[|xs + zs| - (|zs| - k)..] == zs[k..]
  {
  }

  lemma JoinNextBack(b: Block, ys: seq<Block>, k: nat)
    requires k < |ys| && !ys[k].free
    ensures var zs := JoinNext(b, ys); |ys| - k < |zs| && zs[|zs| - (|ys| - k)..] == ys[k..]
  {
  }

  lemma TrimIndex(start: int, cs: seq<Block>, j: nat)
    requires j < |cs| && !cs[j].free
    ensures j < |Trim(cs)| && Trim(cs)[j] == cs[j] && Addr(start, Trim(cs), j) == Addr(start, cs, j)
    ensures j < |TrimKeepingTags(cs)| && TrimKeepingTags(cs)[j] == cs[j]
    ensures Addr(start, TrimKeepingTags(cs), j) == Addr(start, cs, j)
  {
    assert Trim(cs)[..j] == cs[..j] == TrimKeepingTags(cs)[..j];
  }

  /** A store behind one pointer reaches no other live block. */
  lemma HoldsAfterStore(h: Heap, q: int, i: nat, offset: int, v: byte, p: int, size: int)
    requires h.Valid() && h.Live(q, i) && 0 <= offset < h.blocks[i].size - 2 * TAG && p != q
    requires 0 <= q + offset < |h.mem|
    ensures Kept(LayoutOf(h), h.mem, LayoutOf(h), h.mem[q + offset := v], p, size)
  {
    hide Tiles, Sound, Addr;
    var l := LayoutOf(h);
    if k: nat :| Points(l, p, k) && l.blocks[k].size == size {
      BlockAtIndex(h.mem, h.heapStart, h.heapEnd, h.blocks, k);
      BlockAtIndex(h.mem, h.heapStart, h.heapEnd, h.blocks, i);
      if k < i {
        BlocksDisjoint(h.mem, h.heapStart, h.heapEnd, h.blocks, k, i);
      } else {
        BlocksDisjoint(h.mem, h.heapStart, h.heapEnd, h.blocks, i, k);
      }
    }
  }

  method Do(h: Heap, c: Call, keeping: bool)
    requires h.Valid() && Trimmed(h.blocks, keeping) && Allowed(LayoutOf(h), c, keeping)
    modifies h
    ensures h.Valid() && Trimmed(h.blocks, keeping)
    ensures LayoutOf(h) == After(old(LayoutOf(h)), c, keeping)
    ensures forall p, n | Leaves(c, p) :: Kept(old(LayoutOf(h)), old(h.mem), LayoutOf(h), h.mem, p, n)
  {
    hide Kept;
    match c
    case Request(n) => DoRequest(h, n, keeping);
    case Release(p) => DoRelease(h, p, keeping);
    case Store(p, offset, v) =>
      ghost var i: nat :| Points(LayoutOf(h), p, i) && 0 <= offset < h.blocks[i].size - 2 * TAG;
      assert h.Live(p, i);
      PayloadWrite(h.mem, h.heapStart, h.blocks, i, p + offset, v);
      ghost var l, m, m' := LayoutOf(h), h.mem, h.mem[p + offset := v];
      forall q, n | q != p ensures Kept(l, m, l, m', q, n) {
        HoldsAfterStore(h, p, i, offset, v, q, n);
      }
      h.UserWrite(p, i, offset, v);
  }

  method DoRequest(h: Heap, n: int, keeping: bool)
    requires h.Valid() && Trimmed(h.blocks, keeping) && Allowed(LayoutOf(h), Request(n), keeping)
    modifies h
    ensures h.Valid() && Trimmed(h.blocks, keeping)
    ensures LayoutOf(h) == After(old(LayoutOf(h)), Request(n), keeping)
    ensures forall p, k :: Kept(old(LayoutOf(h)), old(h.mem), LayoutOf(h), h.mem, p, k)
  {
    hide Tiles, Sound, KeepsLive, Clear, Alloc, Addr, Settled, TailBelow, FirstFit, Span, Kept;
    ghost var l, m := LayoutOf(h), h.mem;
    if n <= 0 {
      KeptAll(h);
    }
    var _ := h.Malloc(n);
    if 0 < n {
      TilesSpan(h.mem, h.heapStart, h.heapEnd, h.blocks);
      forall p, k ensures Kept(l, m, LayoutOf(h), h.mem, p, k) {
        if l.start == NULL {
          NothingKept(l, m, LayoutOf(h), h.mem, p, k);
        } else {
          HoldsAfterRequest(l, m, h.mem, n, keeping, p, k);
        }
      }
    }
  }

  lemma NothingKept(l: Layout, m: seq<byte>, l': Layout, m': seq<byte>, p: int, n: int)
    requires l.start == NULL
    ensures Kept(l, m, l', m', p, n)
  {
  }

  method DoRelease(h: Heap, p: int, keeping: bool)
    requires h.Valid() && Trimmed(h.blocks, keeping) && Allowed(LayoutOf(h), Release(p), keeping)
    modifies h
    ensures h.Valid() && Trimmed(h.blocks, keeping)
    ensures LayoutOf(h) == After(old(LayoutOf(h)), Release(p), keeping)
    ensures forall q, n | q != p :: Kept(old(LayoutOf(h)), old(h.mem), LayoutOf(h), h.mem, q, n)
  {
    hide Tiles, Sound, KeepsLive, Coalesce, Trim, TrimKeepingTags, Addr, Settled, TailBelow, Span, Freed, TrimSafe,
      WholePages, Kept;
    ghost var l, m := LayoutOf(h), h.mem;
    assert h.FreeArgument(p);
    assert forall i: nat :: Points(l, p, i) <==> h.Live(p, i);
    if i: nat :| Points(l, p, i) {
      h.LiveUnique(p, i);
      if !keeping {
        WholePagesSafe(Freed(h.mem, h.heapStart, h.blocks, i), h.heapStart, Coalesce(h.blocks, i));
      }
    }
    if keeping {
      var _ := h.FreeKeepingTags(p);
    } else {
      var _ := h.Free(p);
    }
    if i: nat :| Points(l, p, i) {
      TilesSpan(h.mem, h.heapStart, h.heapEnd, h.blocks);
      forall q, n | q != p ensures Kept(l, m, LayoutOf(h), h.mem, q, n) {
        HoldsAfterRelease(l, m, h.mem, p, i, keeping, q, n);
      }
    } else {
      KeptAll(h);
    }
  }

  lemma KeptAll(h: Heap)
    requires h.Valid()
    ensures forall p, n :: Kept(LayoutOf(h), h.mem, LayoutOf(h), h.mem, p, n)
  {
    hide Tiles, Sound, Addr;
    var l := LayoutOf(h);
    forall p, n ensures Kept(l, h.mem, l, h.mem, p, n) {
      if i: nat :| Points(l, p, i) && l.blocks[i].size == n {
        BlockAtIndex(h.mem, h.heapStart, h.heapEnd, h.blocks, i);
      }
    }
  }

  lemma KeptTransitive(l: Layout, m: seq<byte>, l1: Layout, m1: seq<byte>, l2: Layout, m2: seq<byte>, p: int, n: int)
    requires Kept(l, m, l1, m1, p, n) && Kept(l1, m1, l2, m2, p, n)
    ensures Kept(l, m, l2, m2, p, n)
  {
    hide Holds;
  }

  /** Every run keeps the tags and the tail's bound, its layout follows from the list alone, and what
      the program stored in a block stays there until it frees the block or stores there again. */
  method Run(h: Heap, calls: seq<Call>, keeping: bool)
    requires h.Valid() && Trimmed(h.blocks, keeping) && Legal(LayoutOf(h), calls, keeping)
    modifies h
    ensures h.Valid() && Trimmed(h.blocks, keeping)
    ensures LayoutOf(h) == Final(old(LayoutOf(h)), calls, keeping)
    ensures forall p, n | (forall c :: c in calls ==> Leaves(c, p)) ::
              Kept(old(LayoutOf(h)), old(h.mem), LayoutOf(h), h.mem, p, n)
    decreases |calls|
  {
    hide Kept, Allowed, After, Trimmed;
    KeptAll(h);
    if calls != [] {
      ghost var l, m := LayoutOf(h), h.mem;
      Do(h, calls[0], keeping);
      ghost var l1, m1 := LayoutOf(h), h.mem;
      Run(h, calls[1..], keeping);
      forall p, n | (forall c :: c in calls ==> Leaves(c, p)) ensures Kept(l, m, LayoutOf(h), h.mem, p, n) {
        KeptTransitive(l, m, l1, m1, LayoutOf(h), h.mem, p, n);
      }
    }
  }

  /** One malloc of a concrete run: from the list `before` to the list `after`. */
  method MallocStep(h: Heap, numBytes: int, ghost before: seq<Block>, ghost i: nat, ghost after: seq<Block>)
    returns (p: int)
    requires h.Valid() && 0 < numBytes <= 10 * PAGE && h.Searched() == before
    requires h.heapStart == (if before == h.blocks then PAGE else NULL) && (h.heapStart == NULL ==> |h.mem| == PAGE)
    requires FirstFit(before, numBytes + 2 * TAG) == i && Alloc(before, numBytes + 2 * TAG) == after
    requires Span(before) <= 10 * PAGE
    modifies h
    ensures h.Valid() && h.heapStart == PAGE && h.blocks == after && h.Live(p, i)
  {
    hide Tiles, Sound, KeepsLive, Addr, Alloc, FirstFit, Span;
    AllocLive(before, numBytes + 2 * TAG);
    if h.heapStart != NULL {
      TilesSpan(h.mem, h.heapStart, h.heapEnd, h.blocks);
    }
    p := h.Malloc(numBytes);
  }

  /** One free of a concrete run whose tail is not trimmed, or trimmed by whole pages only. */
  method FreeStep(h: Heap, p: int, ghost i: nat, ghost after: seq<Block>)
    requires h.Valid() && h.heapStart == PAGE && h.Live(p, i) && Trim(Coalesce(h.blocks, i)) == after
    requires var cs := Coalesce(h.blocks, i);
             cs != [] && (cs[|cs| - 1].free ==> cs[|cs| - 1].size % PAGE == 0)
    modifies h
    ensures h.Valid() && h.heapStart == PAGE && h.blocks == after
    ensures KeepsLive(old(h.mem), h.mem, PAGE, old(h.blocks), i)
  {
    hide Tiles, Sound, Freed, KeepsLive, Trim, Coalesce, Addr;
    ghost var cs, m1 := Coalesce(h.blocks, i), Freed(h.mem, PAGE, h.blocks, i);
    assert TrimSafe(m1, PAGE, cs);
    var _ := h.Free(p);
  }

  // The block lists of the run below, and the addresses in them.

  const L1 := [Used(4096)]
  const L2 := [Used(4096), Used(8192)]
  const L3 := [Used(4096), Used(8192), Used(4096)]
  const L4 := [Used(4096), Idle(8192), Used(4096)]
  const L5 := [Used(4096), Used(100), Idle(8092), Used(4096)]
  const L6 := [Used(4096), Used(100), Used(8092), Used(4096)]
  const L7 := [Used(4096), Used(100), Used(8092)]
  const L8 := [Used(4096), Used(100), Idle(8092)]

  lemma RunGrowth()
    ensures FirstFit([Idle(4096)], 4096) == 0 && Alloc([Idle(4096)], 4096) == L1
    ensures FirstFit(L1, 8192) == 1 && Alloc(L1, 8192) == L2
    ensures FirstFit(L2, 4096) == 2 && Alloc(L2, 4096) == L3
  {
  }

  lemma RunReuse()
    ensures FirstFit(L4, 100) == 1 && Alloc(L4, 100) == L5
  {
  }

  lemma RunRefill()
    ensures FirstFit(L5, 8092) == 2 && Alloc(L5, 8092) == L6
  {
    assert Carve(L5[2], 8092) == [Used(8092)];
  }

  lemma RunFrees()
    ensures Coalesce(L3, 1) == L4 && Trim(L4) == L4
    ensures Coalesce(L6, 3) == L7 + [Idle(4096)] && Trim(L7 + [Idle(4096)]) == L7
    ensures Coalesce(L7, 2) == L8
  {
    assert L3[..1] == L1 && L3[2..] == L1 && JoinNext(L3[1], L1) == [Idle(8192), Used(4096)];
    assert L6[..3] == L7 && L6[4..] == [] && JoinNext(L6[3], []) == [Idle(4096)];
    assert L7[..2] == [Used(4096), Used(100)] && L7[3..] == [] && JoinNext(L7[2], []) == [Idle(8092)];
  }

  lemma RunAddresses()
    ensures Addr(PAGE, L2, 1) == 8192 == Addr(PAGE, L3, 1)
    ensures Addr(PAGE, L3, 2) == 16384 == Addr(PAGE, L6, 3)
    ensures Addr(PAGE, L6, 2) == 8292 == Addr(PAGE, L7, 2) == Addr(PAGE, L8, 2)
  {
    SpanPair(Used(4096), Used(8192));
    SpanPair(Used(4096), Used(100));
    assert L2[..1] == L3[..1] == L1 && L3[..2] == L2;
    assert L6[..3] == L7 == [Used(4096), Used(100)] + [Used(8092)];
    SpanConcat([Used(4096), Used(100)], [Used(8092)]);
    SpanPair(Used(8092), Used(8092));
    assert L6[..2] == L7[..2] == L8[..2] == [Used(4096), Used(100)];
  }

  lemma RunSpans()
    ensures Span([Idle(4096)]) == 4096 && Span(L1) == 4096 && Span(L2) == 12288
    ensures Span(L4) == 16384 && Span(L5) == 16384
  {
    SpanPair(Idle(4096), Idle(4096));
    SpanPair(Used(4096), Used(8192));
    assert L4[1..] == [Idle(8192), Used(4096)];
    SpanPair(Idle(8192), Used(4096));
    assert L5[1..] == [Used(100), Idle(8092), Used(4096)] && L5[1..][1..] == [Idle(8092), Used(4096)];
    SpanPair(Idle(8092), Used(4096));
  }

  /** A zero byte in the freed payload, where the trimmed tail's footer should be, is enough. */
  lemma ZeroByteUnsafe(m: seq<byte>)
    requires Tiles(m, PAGE, |m|, L7) && |m| <= LIMIT
    requires 12280 < |m| && m[12280] == 0
    ensures !TrimSafe(Freed(m, PAGE, L7, 2), PAGE, L8)
  {
    hide Tagged, Tiles, ReadInt, Addr;
    RunAddresses();
    IndexSplit(m, PAGE, L7, 2);
    var m1 := Freed(m, PAGE, L7, 2);
    assert m1[12280] == m[12280];
    LowByte(m1, 12280);
  }

  /** Eight calls and one store after which no block list fits the tags of the heap: the tail the
      last trim leaves has 3996 bytes, and its footer lies in what was the program's payload. */
  method TrimLosesTheFooter() returns (h: Heap)
    ensures h.heapStart != NULL && !exists bs :: Tiles(h.mem, h.heapStart, h.heapEnd, bs)
  {
    hide Tiles, Sound, TrimSafe, Freed, Span, ReadInt, FirstFit, Alloc, Trim, Coalesce, Addr;
    RunGrowth();
    RunReuse();
    RunRefill();
    RunFrees();
    RunSpans();
    RunAddresses();
    assert |seq(PAGE, _ => 0 as byte)| == PAGE;
    h := new Heap(seq(PAGE, _ => 0 as byte));
    var p0 := MallocStep(h, 4080, [Idle(4096)], 0, L1);
    var p1 := MallocStep(h, 8176, L1, 1, L2);
    var p2 := MallocStep(h, 4080, L2, 2, L3);
    FreeStep(h, p1, 1, L4);
    var p3 := MallocStep(h, 84, L4, 1, L5);
    var p4 := MallocStep(h, 8076, L5, 2, L6);
    h.UserWrite(p4, 2, 3980, 0);
    ghost var m := h.mem;
    FreeStep(h, p2, 3, L7);
    assert h.mem[8292..16384] == m[8292..16384];
    assert h.mem[12280] == h.mem[8292..16384][3988] == m[8292..16384][3988] == m[12280];
    ZeroByteUnsafe(h.mem);
    assert h.Live(p4, 2);
    var _ := h.Free(p4);
  }
}
