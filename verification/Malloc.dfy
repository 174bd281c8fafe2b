/** The allocator of libc.c. `mem` is the memory of the process up to its break, so every index
    check below is a proof that the access cannot fault; addresses are indices into it. */
module Malloc {
  import opened Params
  import opened Words
  import opened Blocks
  import opened Allocation
  import opened LiveBlocks
  import opened HeapMemory

  class Heap {
    var mem: seq<byte>
    var heapStart: int
    var heapEnd: int
    ghost var blocks: seq<Block>

    ghost predicate Valid()
      reads this
    {
      if heapStart == NULL then 0 < |mem| <= LIMIT && blocks == []
      else WellFormed(mem, heapStart, heapEnd, blocks)
    }

    constructor (image: seq<byte>)
      requires 0 < |image| <= LIMIT
      ensures Valid() && heapStart == NULL && mem == image && blocks == []
    {
      mem, heapStart, heapEnd, blocks := image, NULL, NULL, [];
    }

    /** sys_dyn_mem seen from the process: growth returns the old break and maps pages of unknown
        content from there on; a negative count gives the last pages back. */
    method DynMem(pages: int) returns (p: int)
      requires pages * PAGE <= LIMIT - |mem| && 0 <= |mem| + pages * PAGE
      modifies this`mem
      ensures BreakMoved(old(mem), pages, mem, p)
    {
      if 0 <= pages {
        p := |mem|;
        assert |seq(pages * PAGE, _ => 0 as byte)| == pages * PAGE;
        var fresh': seq<byte> :| |fresh'| == pages * PAGE;
        mem := mem + fresh';
      } else {
        mem := mem[..|mem| + pages * PAGE];
        p := |mem|;
      }
    }

    method WriteHeaderFooter(block: int, size: int, isFree: int)
      requires 0 <= block && 2 * TAG <= size <= INT_MAX && block + size <= |mem|
      requires INT_MIN <= isFree <= INT_MAX
      modifies this`mem
      ensures mem == Tagged(old(mem), block, size, isFree)
    {
      hide WriteInt, ReadInt;
      mem := WriteInt(mem, block, size);
      mem := WriteInt(mem, block + 4, isFree);
      var footer := block + size - TAG;
      mem := WriteInt(mem, footer, size);
      mem := WriteInt(mem, footer + 4, isFree);
    }

    /** The block list the search of malloc starts from. */
    ghost function Searched(): seq<Block>
      reads this
    {
      if heapStart == NULL then FIRST else blocks
    }

    /** dyn_mem can serve every page malloc(numBytes) asks for; libc.c never checks that it did. */
    ghost predicate CanServe(numBytes: int)
      reads this
    {
      var base := if heapStart == NULL then |mem| + PAGE else |mem|;
      var total := numBytes + 2 * TAG;
      && base <= LIMIT
      && (FirstFit(Searched(), total) == |Searched()| ==> base + PagesFor(total) * PAGE <= LIMIT)
    }

    /** The first call maps one page and makes it a single free block. */
    method Initialise()
      requires Valid() && heapStart == NULL && |mem| + PAGE <= LIMIT
      modifies this
      ensures Valid() && heapStart == |old(mem)| && blocks == FIRST
      ensures |mem| == |old(mem)| + PAGE && mem[..|old(mem)|] == old(mem)
    {
      hide Tagged, BlockAt, Tiles, Span;
      heapStart := DynMem(1);
      heapEnd := heapStart + PAGE;
      WriteHeaderFooter(heapStart, PAGE, 1);
      blocks := FIRST;
      TilesOne(mem, heapStart, Block(PAGE, true));
    }

    /** Hands out `totalSize` bytes of the free block at `current`, splitting it when the rest can
        stand alone. */
    method Take(current: int, totalSize: int) returns (p: int)
      requires 0 <= current && current + TAG <= |mem| && 2 * TAG < totalSize
      requires totalSize <= ReadInt(mem, current) <= |mem| - current && |mem| <= LIMIT
      modifies this`mem
      ensures p == current + TAG
      ensures mem == Taken(old(mem), current, ReadInt(old(mem), current), totalSize)
    {
      hide ReadInt, Tagged;
      var rem := ReadInt(mem, current) - totalSize;
      if rem > 2 * TAG {
        WriteHeaderFooter(current, totalSize, 0);
        var partition := NextBlock(mem, current);
        WriteHeaderFooter(partition, rem, 1);
      } else {
        WriteHeaderFooter(current, ReadInt(mem, current), 0);
      }
      p := current + TAG;
    }

    /** The search loop of malloc: the address of the first fitting block, or the heap's end. */
    method Search(totalSize: int) returns (current: int)
      requires Valid() && heapStart != NULL
      ensures current == Addr(heapStart, blocks, FirstFit(blocks, totalSize))
      ensures current < heapEnd <==> FirstFit(blocks, totalSize) < |blocks|
      ensures current <= heapEnd
    {
      hide Tiles, Sound, ReadInt, Addr;
      current := heapStart;
      ghost var i: nat := 0;
      AddrEnds(mem, heapStart, heapEnd, blocks);
      while current < heapEnd
        invariant i <= |blocks| && current == Addr(heapStart, blocks, i) && i <= FirstFit(blocks, totalSize)
        invariant current <= heapEnd
        decreases heapEnd - current
      {
        BlockAtIndex(mem, heapStart, heapEnd, blocks, i);
        if ReadInt(mem, current + 4) != 0 && ReadInt(mem, current) >= totalSize {
          return;
        }
        current := NextBlock(mem, current);
        i := i + 1;
      }
      AddrMonotone(mem, heapStart, heapEnd, blocks, i, |blocks|);
      if i < |blocks| {
        BlockAtIndex(mem, heapStart, heapEnd, blocks, i);
      }
    }

    /** The growth path of malloc: whole pages from dyn_mem become one live block. */
    method Grow(totalSize: int) returns (p: int)
      requires Valid() && heapStart != NULL && 2 * TAG < totalSize
      requires FirstFit(blocks, totalSize) == |blocks| && |mem| + PagesFor(totalSize) * PAGE <= LIMIT
      modifies this`mem, this`heapEnd, this`blocks
      ensures Valid() && blocks == Alloc(old(blocks), totalSize)
      ensures p == |old(mem)| + TAG && |old(mem)| <= |mem| && mem[..|old(mem)|] == old(mem)
      ensures KeepsLive(old(mem), mem, heapStart, old(blocks), NONE)
    {
      hide Tiles, Sound, ReadInt, KeepsLive, Tagged, BlockAt;
      var pagesNeeded := PagesFor(totalSize);
      var newMem := DynMem(pagesNeeded);
      var oldHeapEnd := heapEnd;
      heapEnd := newMem + pagesNeeded * PAGE;
      ghost var mapped := mem;
      WriteHeaderFooter(oldHeapEnd, pagesNeeded * PAGE, 0);
      assert mem[..oldHeapEnd] == mapped[..oldHeapEnd];
      GrowEffect(old(mem), mem, heapStart, blocks, pagesNeeded);
      AllocKeepsSound(blocks, totalSize);
      blocks := Alloc(blocks, totalSize);
      p := oldHeapEnd + TAG;
    }

    /** malloc once the heap exists: search, then take or grow. */
    method Serve(totalSize: int) returns (p: int)
      requires Valid() && heapStart != NULL && 2 * TAG < totalSize
      requires FirstFit(blocks, totalSize) == |blocks| ==> |mem| + PagesFor(totalSize) * PAGE <= LIMIT
      modifies this`mem, this`heapEnd, this`blocks
      ensures Valid() && blocks == Alloc(old(blocks), totalSize)
      ensures var i := FirstFit(old(blocks), totalSize);
              && i < |blocks| && p == Addr(heapStart, blocks, i) + TAG
              && (i == |old(blocks)| ==> |old(mem)| <= |mem| && mem[..|old(mem)|] == old(mem))
      ensures KeepsLive(old(mem), mem, heapStart, old(blocks), NONE)
      ensures heapStart <= |mem| && mem[..heapStart] == old(mem)[..heapStart]
    {
      hide Tiles, Sound, Alloc, KeepsLive, Taken, Addr, ReadInt;
      ghost var bs, i := blocks, FirstFit(blocks, totalSize);
      AllocAddr(mem, heapStart, heapEnd, bs, totalSize);
      var current := Search(totalSize);
      if current < heapEnd {
        TakeEffect(mem, heapStart, heapEnd, bs, i, totalSize);
        BlockAtIndex(mem, heapStart, heapEnd, bs, i);
        AllocFits(bs, totalSize);
        p := Take(current, totalSize);
        blocks := Alloc(bs, totalSize);
        AllocKeepsSound(bs, totalSize);
      } else {
        p := Grow(totalSize);
      }
    }

    /** malloc: a pointer to `numBytes` bytes nothing else uses, with the list, the break and the
        bytes after the call. A tail with nothing left to release stays one. */
    method Malloc(numBytes: int) returns (p: int)
      requires Valid() && numBytes + 2 * TAG <= INT_MAX && (0 < numBytes ==> CanServe(numBytes))
      modifies this
      ensures Valid()
      ensures numBytes <= 0 ==> p == -1 && mem == old(mem) && heapStart == old(heapStart) && blocks == old(blocks)
      ensures 0 < numBytes ==>
                var total := numBytes + 2 * TAG;
                var i := FirstFit(old(Searched()), total);
                && blocks == Alloc(old(Searched()), total)
                && heapStart == (if old(heapStart) == NULL then |old(mem)| else old(heapStart))
                && Gives(heapStart, |mem|, old(blocks), blocks, i, p, numBytes)
                && KeepsLive(old(mem), mem, heapStart, old(blocks), NONE)
                && heapStart <= |mem| && mem[..heapStart] == old(mem)[..heapStart]
      ensures 0 < numBytes && old(heapStart) != NULL && FirstFit(old(blocks), numBytes + 2 * TAG) == |old(blocks)|
              ==> |old(mem)| <= |mem| && mem[..|old(mem)|] == old(mem)
      ensures TailBelow(old(blocks), PAGE) ==> TailBelow(blocks, PAGE)
      ensures Settled(old(blocks)) ==> Settled(blocks)
    {
      hide Tiles, Sound, Alloc, Addr, Gives, TailBelow, Settled, KeepsLive, AllSizes;
      if numBytes <= 0 {
        return -1;
      }
      var totalSize := numBytes + 2 * TAG;
      if heapStart == NULL {
        Initialise();
      }
      ghost var searched := blocks;
      SoundSizes(searched);
      p := Serve(totalSize);
      NothingLive(old(mem), mem, heapStart);
      AllocGives(mem, heapStart, old(blocks), searched, totalSize);
    }

    /** Pointers free accepts without touching other memory: those it rejects, and block payloads. */
    ghost predicate FreeArgument(p: int)
      reads this
    {
      p == NULL || heapStart == NULL || p < heapStart + TAG || heapEnd <= p ||
      exists i :: 0 <= i < |blocks| && p == Addr(heapStart, blocks, i) + TAG
    }

    /** `p` is the pointer to the payload of live block `i`. */
    ghost predicate Live(p: int, i: nat)
      reads this
    {
      heapStart != NULL && i < |blocks| && !blocks[i].free && p == Addr(heapStart, blocks, i) + TAG
    }

    /** The tests at the head of free: a payload inside the heap whose block is not free. */
    method FreeGuard(p: int) returns (ok: bool, ghost i: nat)
      requires Valid() && FreeArgument(p)
      ensures ok ==> Live(p, i) && TAG < p <= |mem|
      ensures !ok ==> forall k: nat :: !Live(p, k)
    {
      hide Tiles, Sound, Addr;
      i := 0;
      if heapStart == NULL {
        return false, 0;
      }
      TilesSpan(mem, heapStart, heapEnd, blocks);
      if p == NULL || p < heapStart + TAG || p >= heapEnd {
        forall k: nat | k < |blocks| ensures !Live(p, k) {
          BlockAtIndex(mem, heapStart, heapEnd, blocks, k);
          AddrMonotone(mem, heapStart, heapEnd, blocks, 0, k);
        }
        return false, 0;
      }
      i :| i < |blocks| && p == Addr(heapStart, blocks, i) + TAG;
      BlockAtIndex(mem, heapStart, heapEnd, blocks, i);
      var block := p - TAG;
      if ReadInt(mem, block + 4) != 0 {
        forall k: nat | k < |blocks| && k != i ensures !Live(p, k) {
          if k < i {
            BlocksDisjoint(mem, heapStart, heapEnd, blocks, k, i);
            BlockAtIndex(mem, heapStart, heapEnd, blocks, k);
          } else {
            BlocksDisjoint(mem, heapStart, heapEnd, blocks, i, k);
          }
        }
        return false, i;
      }
      ok := true;
    }

    /** free up to the tail: mark the block, fuse it with a free successor and a free predecessor. */
    method MarkAndFuse(block: int, ghost i: nat)
      requires Valid() && Live(block + TAG, i)
      modifies this`mem, this`blocks
      ensures Valid() && mem == Freed(old(mem), heapStart, old(blocks), i)
      ensures blocks == Coalesce(old(blocks), i)
      ensures LiveSet(heapStart, blocks) == LiveSet(heapStart, old(blocks)) - {(block, old(blocks)[i].size)}
    {
      ghost var m, bs := mem, blocks;
      hide Tiles, Sound, ReadInt, Tagged, Coalesce, BlockAt, KeepsLive, Addr, LiveSet;
      NextRead(m, heapStart, bs, i);
      PrevRead(m, heapStart, bs, i);
      FreedEffect(m, heapStart, bs, i);
      FreeKeepsSound(bs, i);
      WriteHeaderFooter(block, ReadInt(mem, block), 1);
      var next := NextBlock(mem, block);
      if next < heapEnd && ReadInt(mem, next + 4) != 0 {
        var newSize := ReadInt(mem, block) + ReadInt(mem, next);
        WriteHeaderFooter(block, newSize, 1);
      }
      if block > heapStart {
        var prev := PrevBlock(mem, block);
        if ReadInt(mem, prev + 4) != 0 {
          var newSize := ReadInt(mem, block) + ReadInt(mem, prev);
          WriteHeaderFooter(prev, newSize, 1);
        }
      }
      blocks := Coalesce(bs, i);
    }

    /** The end of free: whole pages of a free tail go back, and only the tail's header learns it. */
    method TrimTail()
      requires Valid() && heapStart != NULL && blocks != []
      modifies this`mem, this`heapEnd, this`blocks
      ensures heapEnd == |mem| && blocks == Trim(old(blocks)) && TailBelow(blocks, PAGE)
      ensures var b := old(blocks[|blocks| - 1]);
              if b.free then 2 * TAG <= b.size <= |old(mem)| &&
                  mem == HeaderTrimmed(old(mem), |old(mem)| - b.size, b.size)
              else mem == old(mem)
      ensures (exists bs :: Tiles(mem, heapStart, heapEnd, bs)) <==> TrimSafe(old(mem), heapStart, old(blocks))
      ensures TrimSafe(old(mem), heapStart, old(blocks)) ==> Valid()
    {
      ghost var m, cs := mem, blocks;
      hide Tiles, Sound, ReadInt, WriteInt, TrimSafe;
      LastSplit(m, heapStart, cs);
      if !cs[|cs| - 1].free {
        TrimSafeVacuous(m, heapStart, cs);
      } else {
        HeaderTrimIff(m, heapStart, cs);
        TrimSoundWhenSafe(m, heapStart, cs);
      }
      var last := PrevBlock(mem, heapEnd);
      if ReadInt(mem, last + 4) != 0 {
        var blockEnd := last + ReadInt(mem, last);
        var freeBytes := heapEnd - last;
        var freePages := freeBytes / PAGE;
        if freePages > 0 && blockEnd == heapEnd {
          heapEnd := heapEnd - freePages * PAGE;
          mem := WriteInt(mem, last, ReadInt(mem, last) - freePages * PAGE);
          var _ := DynMem(-freePages);
        }
      }
      blocks := Trim(cs);
      assert TrimSafe(m, heapStart, cs) ==> Tiles(mem, heapStart, heapEnd, blocks);
    }

    method FreeLive(p: int, ghost i: nat)
      requires Valid() && Live(p, i)
      modifies this`mem, this`heapEnd, this`blocks
      ensures var bs, cs, m1 := old(blocks), Coalesce(old(blocks), i), Freed(old(mem), heapStart, old(blocks), i);
              && blocks == Trim(cs) && heapEnd == |mem| && TailBelow(blocks, PAGE)
              && KeepsLive(old(mem), mem, heapStart, bs, i)
              && LiveSet(heapStart, blocks) == LiveSet(heapStart, bs) - {(p - TAG, bs[i].size)}
              && heapStart <= |mem| && mem[..heapStart] == old(mem)[..heapStart]
              && ((exists ds :: Tiles(mem, heapStart, heapEnd, ds)) <==> TrimSafe(m1, heapStart, cs))
              && (TrimSafe(m1, heapStart, cs) ==> Valid())
    {
      hide Tiles, Sound, ReadInt, KeepsLive, TrimSafe, HeaderTrimmed, Freed, Trim, Addr, Coalesce, LiveSet;
      ghost var m, bs := mem, blocks;
      FreedEffect(m, heapStart, bs, i);
      MarkAndFuse(p - TAG, i);
      ghost var m1, cs := mem, blocks;
      CoalesceLast(bs, i);
      TrimLive(heapStart, cs);
      TrimTail();
      if cs[|cs| - 1].free {
        ghost var s := cs[|cs| - 1].size;
        LastSplit(m1, heapStart, cs);
        TrimFront(m1, heapStart, |m1| - s, s, cs[..|cs| - 1]);
        TrimKeepsLive(m, m1, mem, heapStart, bs, i, cs, |m1| - s);
        PrefixSlice(mem, m1, |m1| - s, 0, heapStart);
      }
    }

    /** free as it is written. A live block is freed, coalesced and the tail trimmed; no other live
        byte moves. The tags agree afterwards exactly when the header-only trim was safe. */
    method Free(p: int) returns (r: int)
      requires Valid() && FreeArgument(p)
      modifies this`mem, this`heapEnd, this`blocks
      ensures r == if exists i: nat :: old(Live(p, i)) then 0 else -1
      ensures r == -1 ==> Valid() && mem == old(mem) && blocks == old(blocks)
      ensures forall i: nat | old(Live(p, i)) ::
                var bs, cs, m1 := old(blocks), Coalesce(old(blocks), i), Freed(old(mem), heapStart, old(blocks), i);
                && blocks == Trim(cs) && heapEnd == |mem| && TailBelow(blocks, PAGE)
                && KeepsLive(old(mem), mem, heapStart, bs, i)
                && LiveSet(heapStart, blocks) == LiveSet(heapStart, bs) - {(p - TAG, bs[i].size)}
                && heapStart <= |mem| && mem[..heapStart] == old(mem)[..heapStart]
                && ((exists ds :: Tiles(mem, heapStart, heapEnd, ds)) <==> TrimSafe(m1, heapStart, cs))
                && (TrimSafe(m1, heapStart, cs) ==> Valid())
      ensures forall k: nat :: !Live(p, k)
    {
      hide Tiles, Sound, ReadInt, KeepsLive, TrimSafe, Freed, Trim, Addr, Coalesce, LiveSet, AllSizes;
      var ok; ghost var i;
      ok, i := FreeGuard(p);
      assert forall k: nat :: Live(p, k) == old(Live(p, k));
      if !ok {
        return -1;
      }
      LiveUnique(p, i);
      ghost var bs := blocks;
      TilesSizes(mem, heapStart, heapEnd, bs);
      FreeLive(p, i);
      GoneFrom(heapStart, bs, i, blocks);
      r := 0;
    }

    lemma LiveUnique(p: int, i: nat)
      requires Valid() && Live(p, i)
      ensures forall k: nat :: Live(p, k) ==> k == i
    {
      hide Tiles, Sound, Addr;
      forall k: nat | Live(p, k) ensures k == i {
        BlockAtIndex(mem, heapStart, heapEnd, blocks, k);
        BlockAtIndex(mem, heapStart, heapEnd, blocks, i);
        if k < i {
          BlocksDisjoint(mem, heapStart, heapEnd, blocks, k, i);
        } else if i < k {
          BlocksDisjoint(mem, heapStart, heapEnd, blocks, i, k);
        }
      }
    }

    method FreeLiveKeepingTags(p: int, ghost i: nat)
      requires Valid() && Live(p, i)
      modifies this`mem, this`heapEnd, this`blocks
      ensures Valid() && blocks == TrimKeepingTags(Coalesce(old(blocks), i))
      ensures KeepsLive(old(mem), mem, heapStart, old(blocks), i)
      ensures LiveSet(heapStart, blocks) == LiveSet(heapStart, old(blocks)) - {(p - TAG, old(blocks)[i].size)}
      ensures heapStart <= |mem| && mem[..heapStart] == old(mem)[..heapStart]
      ensures TailBelow(blocks, PAGE + 2 * TAG) && Settled(blocks)
    {
      hide Tiles, Sound, ReadInt, KeepsLive, Freed, TrimKeepingTags, Retagged, Addr, Coalesce, Settled, LiveSet;
      ghost var m, bs := mem, blocks;
      FreedEffect(m, heapStart, bs, i);
      MarkAndFuse(p - TAG, i);
      ghost var m1, cs := mem, blocks;
      CoalesceLast(bs, i);
      TrimLive(heapStart, cs);
      TrimKeepingTagsSound(cs);
      TrimKeepingTagsSettles(cs);
      RetagTail();
      if cs[|cs| - 1].free {
        ghost var s := cs[|cs| - 1].size;
        RetagEffect(m1, heapStart, cs);
        TrimKeepsLive(m, m1, mem, heapStart, bs, i, cs, |m1| - s);
        PrefixSlice(mem, m1, |m1| - s, 0, heapStart);
      }
    }

    /** free with the trim it is meant to have: what is left of the tail gets both its tags, and a
        page stays when the remainder could not hold them. Every run keeps the heap valid. */
    method FreeKeepingTags(p: int) returns (r: int)
      requires Valid() && FreeArgument(p)
      modifies this`mem, this`heapEnd, this`blocks
      ensures Valid()
      ensures r == if exists i: nat :: old(Live(p, i)) then 0 else -1
      ensures r == -1 ==> mem == old(mem) && blocks == old(blocks)
      ensures forall i: nat | old(Live(p, i)) ::
                && blocks == TrimKeepingTags(Coalesce(old(blocks), i))
                && KeepsLive(old(mem), mem, heapStart, old(blocks), i)
                && LiveSet(heapStart, blocks) == LiveSet(heapStart, old(blocks)) - {(p - TAG, old(blocks)[i].size)}
                && heapStart <= |mem| && mem[..heapStart] == old(mem)[..heapStart]
                && TailBelow(blocks, PAGE + 2 * TAG) && Settled(blocks)
      ensures forall k: nat :: !Live(p, k)
    {
      hide Tiles, Sound, ReadInt, KeepsLive, TrimKeepingTags, Addr, Coalesce, Settled, LiveSet, AllSizes;
      var ok; ghost var i;
      ok, i := FreeGuard(p);
      assert forall k: nat :: Live(p, k) == old(Live(p, k));
      if !ok {
        return -1;
      }
      LiveUnique(p, i);
      ghost var bs := blocks;
      TilesSizes(mem, heapStart, heapEnd, bs);
      FreeLiveKeepingTags(p, i);
      GoneFrom(heapStart, bs, i, blocks);
      r := 0;
    }

    method RetagTail()
      requires Valid() && heapStart != NULL && blocks != []
      modifies this`mem, this`heapEnd, this`blocks
      ensures Valid() && blocks == TrimKeepingTags(old(blocks))
      ensures var b := old(blocks[|blocks| - 1]);
              if b.free then 2 * TAG <= b.size <= |old(mem)| && mem == Retagged(old(mem), |old(mem)| - b.size, b.size)
              else mem == old(mem)
    {
      hide Tiles, Sound, ReadInt, Tagged;
      ghost var cs := blocks;
      LastSplit(mem, heapStart, cs);
      TrimKeepingTagsSound(cs);
      if cs[|cs| - 1].free {
        RetagEffect(mem, heapStart, cs);
      }
      var last := PrevBlock(mem, heapEnd);
      if ReadInt(mem, last + 4) != 0 {
        var freeBytes := heapEnd - last;
        var freePages := PagesToRelease(freeBytes);
        if freePages > 0 {
          heapEnd := heapEnd - freePages * PAGE;
          if last < heapEnd {
            WriteHeaderFooter(last, heapEnd - last, 1);
          }
          var _ := DynMem(-freePages);
        }
      }
      blocks := TrimKeepingTags(cs);
    }

    /** The program stores a byte in the payload of one of its live blocks. */
    method UserWrite(p: int, ghost i: nat, offset: int, v: byte)
      requires Valid() && Live(p, i) && 0 <= offset < blocks[i].size - 2 * TAG
      modifies this`mem
      ensures Valid() && 0 <= p + offset < |old(mem)| && mem == old(mem)[p + offset := v]
    {
      PayloadWrite(mem, heapStart, blocks, i, p + offset, v);
      mem := mem[p + offset := v];
    }
  }
}
