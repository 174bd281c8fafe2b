/** The effect on memory of each tag write of libc.c, and what it makes of the block list there. */
module HeapMemory {
  import opened Params
  import opened Sequences
  import opened Words
  import opened Blocks
  import opened Allocation
  import opened LiveBlocks

  const NULL := 0
  const NONE := -1  // no block is exempt

  /** One tag written: the size and the free mark, nothing else touched. */
  function WithTag(m: seq<byte>, a: int, size: int, isFree: int): (r: seq<byte>)
    requires 0 <= a && a + TAG <= |m| && 0 <= size <= INT_MAX && INT_MIN <= isFree <= INT_MAX
    ensures |r| == |m| && TagAt(r, a, Block(size, isFree != 0))
    ensures forall i :: 0 <= i < |m| && !(a <= i < a + TAG) ==> r[i] == m[i]
  {
    hide WriteInt, ReadInt;
    var m1 := WriteInt(m, a, size);
    var r := WriteInt(m1, a + 4, isFree);
    ReadIntFrame(m1, r, a);
    r
  }

  /** Memory after write_header_footer: a tag at both ends of the block, nothing else touched. */
  function Tagged(m: seq<byte>, a: int, size: int, isFree: int): (r: seq<byte>)
    requires 0 <= a && 2 * TAG <= size <= INT_MAX && a + size <= |m|
    requires INT_MIN <= isFree <= INT_MAX
    ensures |r| == |m| && BlockAt(r, a, Block(size, isFree != 0))
    ensures forall i :: 0 <= i < |m| && !(a <= i < a + TAG) && !(a + size - TAG <= i < a + size)
                        ==> r[i] == m[i]
  {
    hide WithTag, ReadInt;
    var m1 := WithTag(m, a, size, isFree);
    var r := WithTag(m1, a + size - TAG, size, isFree);
    ReadIntFrame(m1, r, a);
    ReadIntFrame(m1, r, a + 4);
    r
  }

  /** Every live block of `bs`, but for block `but`, still holds byte for byte what it held in `m`. */
  ghost predicate KeepsLive(m: seq<byte>, m': seq<byte>, a: int, bs: seq<Block>, but: int) {
    forall i :: 0 <= i < |bs| && !bs[i].free && i != but ==>
      var lo, hi := Addr(a, bs, i), Addr(a, bs, i) + bs[i].size;
      0 <= lo <= hi <= |m| && hi <= |m'| && m'[lo..hi] == m[lo..hi]
  }

  lemma NothingLive(m: seq<byte>, m': seq<byte>, a: int)
    ensures KeepsLive(m, m', a, [], NONE)
  {
  }

  ghost predicate WellFormed(m: seq<byte>, start: int, end: int, bs: seq<Block>) {
    && 0 < start <= end == |m| <= LIMIT
    && Tiles(m, start, end, bs)
    && Sound(bs)
  }

  /** Blocks outside the rewritten stretch, from block `i` up to block `j`, keep their bytes. */
  lemma OutsideKept(m: seq<byte>, m': seq<byte>, a: int, e: int, bs: seq<Block>, i: nat, j: nat, but: int)
    requires Tiles(m, a, e, bs) && i <= j <= |bs| && |m'| == |m|
    requires forall x :: 0 <= x < |m| && !(Addr(a, bs, i) <= x < Addr(a, bs, j)) ==> m'[x] == m[x]
    requires forall k :: i <= k < j && k != but ==> bs[k].free
    ensures KeepsLive(m, m', a, bs, but)
  {
    hide Tiles, Addr;
    forall k | 0 <= k < |bs| && !bs[k].free && k != but
      ensures var lo, hi := Addr(a, bs, k), Addr(a, bs, k) + bs[k].size;
              0 <= lo <= hi <= |m| && m'[lo..hi] == m[lo..hi]
    {
      TilesSpan(m, a, e, bs);
      BlockAtIndex(m, a, e, bs, k);
      if k < i {
        AddrMonotone(m, a, e, bs, k + 1, i);
      } else {
        AddrMonotone(m, a, e, bs, j, k);
      }
    }
  }

  /** Rewriting the stretch of blocks `xs`..`ys` in place yields a tiling of the new list. */
  lemma Rewrite(m: seq<byte>, m': seq<byte>, a: int, e: int,
                xs: seq<Block>, mid: seq<Block>, ys: seq<Block>, mid': seq<Block>)
    requires Tiles(m, a, e, xs + mid + ys) && |m'| == |m|
    requires var p := a + Span(xs);
             && Tiles(m', p, p + Span(mid), mid')
             && forall x :: 0 <= x < |m| && !(p <= x < p + Span(mid)) ==> m'[x] == m[x]
    ensures Tiles(m', a, e, xs + mid' + ys)
  {
    hide Tiles;
    var p := a + Span(xs);
    CutIffTiles(m, a, e, xs, mid, ys);
    Replace(m, m', a, p, p + Span(mid), e, xs, mid, ys, mid');
    TilesSpan(m', p, p + Span(mid), mid');
    CutIffTiles(m', a, e, xs, mid', ys);
  }

  lemma TilesOne(m: seq<byte>, a: int, b: Block)
    requires BlockAt(m, a, b)
    ensures Tiles(m, a, a + b.size, [b]) && Span([b]) == b.size
  {
    hide BlockAt;
    assert Tiles(m, a + b.size, a + b.size, [b][1..]);
    assert Span([b][1..]) == 0;
  }

  lemma TilesTwo(m: seq<byte>, a: int, b: Block, c: Block)
    requires BlockAt(m, a, b) && BlockAt(m, a + b.size, c)
    ensures Tiles(m, a, a + b.size + c.size, [b, c]) && Span([b, c]) == b.size + c.size
  {
    hide BlockAt;
    TilesOne(m, a + b.size, c);
    assert [b, c][1..] == [c];
  }

  /** The two tag writes of a split: both parts are in place and nothing outside the block moved. */
  lemma SplitWrites(m: seq<byte>, a: int, total: int, rem: int)
    requires 0 <= a && 2 * TAG <= total && 2 * TAG <= rem && total + rem <= INT_MAX && a + total + rem <= |m|
    ensures var m' := Tagged(Tagged(m, a, total, 0), a + total, rem, 1);
            && |m'| == |m|
            && Tiles(m', a, a + total + rem, [Block(total, false), Block(rem, true)])
            && (forall x :: 0 <= x < |m| && !(a <= x < a + total + rem) ==> m'[x] == m[x])
  {
    hide Tagged, BlockAt;
    var m1 := Tagged(m, a, total, 0);
    var m' := Tagged(m1, a + total, rem, 1);
    BlockFrame(m1, m', a, Block(total, false));
    TilesTwo(m', a, Block(total, false), Block(rem, true));
  }

  /** Memory after `total` bytes of the free block at `a`, of `size` bytes, were handed out. */
  function Taken(m: seq<byte>, a: int, size: int, total: int): seq<byte>
    requires 0 <= a && 2 * TAG < total <= size <= INT_MAX && a + size <= |m|
  {
    if size - total > 2 * TAG then Tagged(Tagged(m, a, total, 0), a + total, size - total, 1)
    else Tagged(m, a, size, 0)
  }

  lemma TakenTiles(m: seq<byte>, a: int, b: Block, total: int)
    requires 0 <= a && 2 * TAG < total <= b.size <= INT_MAX && a + b.size <= |m|
    ensures var m' := Taken(m, a, b.size, total);
            && |m'| == |m|
            && Tiles(m', a, a + b.size, Carve(b, total))
            && (forall x :: 0 <= x < |m| && !(a <= x < a + b.size) ==> m'[x] == m[x])
  {
    hide Tagged, BlockAt, Tiles;
    if b.size - total > 2 * TAG {
      SplitWrites(m, a, total, b.size - total);
    } else {
      TilesOne(Tagged(m, a, b.size, 0), a, Block(b.size, false));
    }
  }

  lemma TakeEffect(m: seq<byte>, start: int, end: int, bs: seq<Block>, i: nat, total: int)
    requires 0 < start && end == |m| <= LIMIT && Tiles(m, start, end, bs)
    requires i < |bs| && bs[i].free && 2 * TAG < total <= bs[i].size
    ensures var a := Addr(start, bs, i);
            && 0 <= a && a + bs[i].size <= |m|
            && var m' := Taken(m, a, bs[i].size, total);
            && |m'| == |m|
            && Tiles(m', start, end, bs[..i] + Carve(bs[i], total) + bs[i + 1..])
            && KeepsLive(m, m', start, bs, NONE)
            && (forall x :: 0 <= x < |m| && !(a <= x < a + bs[i].size) ==> m'[x] == m[x])
  {
    hide Taken, Tiles, Carve, KeepsLive, BlockAt;
    var b, xs, ys := bs[i], bs[..i], bs[i + 1..];
    assert bs == xs + [b] + ys;
    BlockAtIndex(m, start, end, bs, i);
    var a := Addr(start, bs, i);
    TakenTiles(m, a, b, total);
    var m' := Taken(m, a, b.size, total);
    assert Span([b]) == b.size;
    Rewrite(m, m', start, end, xs, [b], ys, Carve(b, total));
    OutsideKept(m, m', start, end, bs, i, i + 1, NONE);
  }

  /** Mapping `k` pages at the break and tagging them as one live block extends the tiling. */
  lemma GrowEffect(m: seq<byte>, m': seq<byte>, start: int, bs: seq<Block>, k: int)
    requires 0 < start <= |m| && Tiles(m, start, |m|, bs) && 0 < k
    requires |m'| == |m| + k * PAGE && BlockAt(m', |m|, Block(k * PAGE, false)) && m'[..|m|] == m
    ensures Tiles(m', start, |m'|, bs + [Block(k * PAGE, false)])
    ensures KeepsLive(m, m', start, bs, NONE)
  {
    hide BlockAt;
    var b := Block(k * PAGE, false);
    assert forall x :: 0 <= x < |m| ==> m'[x] == m'[..|m|][x];
    TilesFrame(m, m', start, |m|, bs);
    TilesSpan(m, start, |m|, bs);
    TilesOne(m', |m|, b);
    TilesConcat(m', start, |m'|, bs, [b]);
    hide Tiles, Addr;
    forall i | 0 <= i < |bs| && !bs[i].free
      ensures var lo, hi := Addr(start, bs, i), Addr(start, bs, i) + bs[i].size;
              0 <= lo <= hi <= |m| && m'[lo..hi] == m[lo..hi]
    {
      BlockAtIndex(m, start, |m|, bs, i);
      AddrMonotone(m, start, |m|, bs, i, i + 1);
    }
  }

  lemma AllocFits(bs: seq<Block>, total: int)
    requires FirstFit(bs, total) < |bs|
    ensures var i := FirstFit(bs, total);
            Alloc(bs, total) == bs[..i] + Carve(bs[i], total) + bs[i + 1..]
  {
  }

  lemma AddrEnds(m: seq<byte>, start: int, end: int, bs: seq<Block>)
    requires Tiles(m, start, end, bs)
    ensures Addr(start, bs, 0) == start && Addr(start, bs, |bs|) == end && start <= end
  {
    TilesSpan(m, start, end, bs);
    assert bs[..|bs|] == bs;
  }

  /** The block handed out starts where the block it was carved from, or the old break, was. */
  lemma AllocAddr(m: seq<byte>, start: int, end: int, bs: seq<Block>, total: int)
    requires Tiles(m, start, end, bs) && 2 * TAG < total
    ensures var i := FirstFit(bs, total);
            && i < |Alloc(bs, total)|
            && Addr(start, Alloc(bs, total), i) == Addr(start, bs, i)
            && (i == |bs| ==> Addr(start, bs, i) == end)
  {
    hide Tiles;
    AllocWaste(bs, total);
    AddrEnds(m, start, end, bs);
  }

  lemma {:induction false} TilesSizes(m: seq<byte>, a: int, e: int, bs: seq<Block>)
    requires Tiles(m, a, e, bs)
    ensures AllSizes(bs)
    decreases |bs|
  {
    if bs != [] {
      TilesSizes(m, a + bs[0].size, e, bs[1..]);
      assert bs == [bs[0]] + bs[1..];
    }
  }

  // ----- free

  lemma IndexSplit(m: seq<byte>, start: int, bs: seq<Block>, i: nat)
    requires Tiles(m, start, |m|, bs) && i < |bs| && 0 < start
    ensures var a := Addr(start, bs, i); var b := bs[i];
            && start <= a && a + b.size <= |m| && BlockAt(m, a, b) && 2 * TAG <= b.size
            && (i + 1 < |bs| ==>
                  BlockAt(m, a + b.size, bs[i + 1])
                  && a + b.size + bs[i + 1].size <= |m| && 2 * TAG <= bs[i + 1].size)
            && (i + 1 == |bs| <==> a + b.size == |m|)
            && (0 < i ==>
                  BlockAt(m, a - bs[i - 1].size, bs[i - 1])
                  && start <= a - bs[i - 1].size && 2 * TAG <= bs[i - 1].size)
            && (i == 0 <==> a == start)
  {
    hide Tiles, ReadInt;
    BlockAtIndex(m, start, |m|, bs, i);
    if i + 1 < |bs| {
      BlockAtIndex(m, start, |m|, bs, i + 1);
    } else {
      AddrEnds(m, start, |m|, bs);
    }
    if 0 < i {
      BlockAtIndex(m, start, |m|, bs, i - 1);
    } else {
      AddrEnds(m, start, |m|, bs);
    }
  }

  /** One call of write_header_footer that fuses the blocks `mid` into a single free block. */
  lemma Fuse(m: seq<byte>, start: int, xs: seq<Block>, mid: seq<Block>, ys: seq<Block>)
    requires Tiles(m, start, |m|, xs + mid + ys) && mid != [] && 0 < start && |m| <= LIMIT
    ensures var a := start + Span(xs);
            && 0 <= a && 2 * TAG <= Span(mid) && a + Span(mid) <= |m|
            && var m' := Tagged(m, a, Span(mid), 1);
            && Tiles(m', start, |m|, xs + [Block(Span(mid), true)] + ys)
            && (forall x :: 0 <= x < |m| && !(a <= x < a + Span(mid)) ==> m'[x] == m[x])
  {
    hide Tagged, BlockAt;
    var a := start + Span(xs);
    CutIffTiles(m, start, |m|, xs, mid, ys);
    TilesSpan(m, start, a, xs);
    TilesSpan(m, a, a + Span(mid), mid);
    TilesSpan(m, a + Span(mid), |m|, ys);
    MidSize(m, a, a + Span(mid), mid);
    var m' := Tagged(m, a, Span(mid), 1);
    TilesOne(m', a, Block(Span(mid), true));
    hide Tiles;
    Rewrite(m, m', start, |m|, xs, mid, ys, [Block(Span(mid), true)]);
  }

  lemma MidSize(m: seq<byte>, a: int, e: int, mid: seq<Block>)
    requires Tiles(m, a, e, mid) && mid != []
    ensures 2 * TAG <= Span(mid)
  {
    hide ReadInt;
    TilesSpan(m, a + mid[0].size, e, mid[1..]);
  }

  lemma SpanPair(b: Block, c: Block)
    ensures Span([b]) == b.size && Span([b, c]) == b.size + c.size
  {
    assert [b, c][1..] == [c];
    assert [b][1..] == [] && [c][1..] == [];
  }

  predicate NextFree(bs: seq<Block>, i: nat) {
    i + 1 < |bs| && bs[i + 1].free
  }

  predicate PrevFree(bs: seq<Block>, i: nat) {
    0 < i <= |bs| && bs[i - 1].free
  }

  /** The size of block `i` together with a free successor. */
  function Joined(bs: seq<Block>, i: nat): int
    requires i < |bs|
  {
    bs[i].size + if NextFree(bs, i) then bs[i + 1].size else 0
  }

  /** The memory after block `i` was marked free and fused with a free successor. */
  ghost function FreedNext(m: seq<byte>, start: int, bs: seq<Block>, i: nat): (r: seq<byte>)
    requires Tiles(m, start, |m|, bs) && i < |bs| && 0 < start && |m| <= LIMIT
    ensures |r| == |m|
  {
    IndexSplit(m, start, bs, i);
    var a := Addr(start, bs, i);
    var m1 := Tagged(m, a, bs[i].size, 1);
    if NextFree(bs, i) then Tagged(m1, a, Joined(bs, i), 1) else m1
  }

  /** The memory free leaves before it looks at the tail: then also fused with a free predecessor. */
  ghost function Freed(m: seq<byte>, start: int, bs: seq<Block>, i: nat): (r: seq<byte>)
    requires Tiles(m, start, |m|, bs) && i < |bs| && 0 < start && |m| <= LIMIT
    ensures |r| == |m|
  {
    IndexSplit(m, start, bs, i);
    var m2 := FreedNext(m, start, bs, i);
    if PrevFree(bs, i)
    then Tagged(m2, Addr(start, bs, i) - bs[i - 1].size, bs[i - 1].size + Joined(bs, i), 1)
    else m2
  }

  /** The tag writes of free leave the tags of both neighbours readable. */
  lemma NeighboursKept(m: seq<byte>, start: int, bs: seq<Block>, i: nat)
    requires Tiles(m, start, |m|, bs) && i < |bs| && 0 < start && |m| <= LIMIT
    ensures var a := Addr(start, bs, i);
            && start <= a && a + bs[i].size <= |m| && 2 * TAG <= bs[i].size
            && (i + 1 < |bs| ==> BlockAt(Tagged(m, a, bs[i].size, 1), a + bs[i].size, bs[i + 1]))
            && (0 < i ==>
                  0 <= a - bs[i - 1].size
                  && BlockAt(FreedNext(m, start, bs, i), a - bs[i - 1].size, bs[i - 1]))
  {
    hide Tagged, Tiles, ReadInt;
    IndexSplit(m, start, bs, i);
    var a := Addr(start, bs, i);
    if i + 1 < |bs| {
      BlockFrame(m, Tagged(m, a, bs[i].size, 1), a + bs[i].size, bs[i + 1]);
    }
    if 0 < i {
      BlockFrame(m, FreedNext(m, start, bs, i), a - bs[i - 1].size, bs[i - 1]);
    }
  }

  /** What free reads after its first tag write. */
  lemma NextRead(m: seq<byte>, start: int, bs: seq<Block>, i: nat)
    requires Tiles(m, start, |m|, bs) && i < |bs| && 0 < start && |m| <= LIMIT
    ensures var a := Addr(start, bs, i);
            && start <= a && a + bs[i].size <= |m| && 2 * TAG <= bs[i].size && ReadInt(m, a) == bs[i].size
            && (a + bs[i].size < |m| <==> i + 1 < |bs|)
            && var m1 := Tagged(m, a, bs[i].size, 1);
            && ReadInt(m1, a) == bs[i].size
            && (i + 1 < |bs| ==>
                  && a + bs[i].size + TAG <= |m|
                  && ReadInt(m1, a + bs[i].size) == bs[i + 1].size
                  && (ReadInt(m1, a + bs[i].size + 4) != 0 <==> bs[i + 1].free)
                  && 2 * TAG <= bs[i + 1].size && a + bs[i].size + bs[i + 1].size <= |m|)
  {
    hide Tiles, ReadInt, Tagged;
    IndexSplit(m, start, bs, i);
    NeighboursKept(m, start, bs, i);
  }

  /** What free reads after it looked at the next block. */
  lemma PrevRead(m: seq<byte>, start: int, bs: seq<Block>, i: nat)
    requires Tiles(m, start, |m|, bs) && i < |bs| && 0 < start && |m| <= LIMIT
    ensures var a := Addr(start, bs, i); var m2 := FreedNext(m, start, bs, i);
            && start <= a && a + TAG <= |m| && ReadInt(m2, a) == Joined(bs, i) && (start < a <==> 0 < i)
            && (0 < i ==>
                  var prev := a - bs[i - 1].size;
                  && TAG <= a && start <= prev && 2 * TAG <= bs[i - 1].size && PrevBlock(m2, a) == prev
                  && ReadInt(m2, prev) == bs[i - 1].size
                  && (ReadInt(m2, prev + 4) != 0 <==> bs[i - 1].free))
  {
    hide Tiles, ReadInt, Tagged;
    IndexSplit(m, start, bs, i);
    NeighboursKept(m, start, bs, i);
  }

  lemma FreedNextEffect(m: seq<byte>, start: int, bs: seq<Block>, i: nat)
    requires Tiles(m, start, |m|, bs) && i < |bs| && 0 < start && |m| <= LIMIT
    ensures var r := FreedNext(m, start, bs, i);
            var a := Addr(start, bs, i);
            && Tiles(r, start, |m|, bs[..i] + JoinNext(bs[i], bs[i + 1..]))
            && (forall x :: 0 <= x < |m| && !(a <= x < a + Joined(bs, i)) ==> r[x] == m[x])
  {
    hide Tagged, Tiles, Span, BlockAt;
    var xs, b, ys := bs[..i], bs[i], bs[i + 1..];
    var d := Block(b.size, true);
    IndexSplit(m, start, bs, i);
    assert bs == xs + [b] + ys;
    SpanPair(b, b);
    Fuse(m, start, xs, [b], ys);
    if NextFree(bs, i) {
      assert ys[0] == bs[i + 1];
      JoinStep(Tagged(m, Addr(start, bs, i), b.size, 1), start, xs, d, ys);
      assert JoinNext(d, ys) == JoinNext(b, ys);
    } else {
      assert xs + [d] + ys == xs + JoinNext(b, ys);
    }
  }

  lemma JoinStep(m: seq<byte>, start: int, xs: seq<Block>, d: Block, ys: seq<Block>)
    requires Tiles(m, start, |m|, xs + [d] + ys) && ys != [] && ys[0].free && 0 < start && |m| <= LIMIT
    ensures var a := start + Span(xs);
            var size := d.size + ys[0].size;
            && 0 <= a && 2 * TAG <= size && a + size <= |m|
            && var r := Tagged(m, a, size, 1);
            && Tiles(r, start, |m|, xs + JoinNext(d, ys))
            && (forall x :: 0 <= x < |m| && !(a <= x < a + size) ==> r[x] == m[x])
  {
    hide Tagged, Tiles, Span;
    SpanPair(d, ys[0]);
    Regroup(xs, [d], ys);
    assert [d] + ys == [d, ys[0]] + ys[1..];
    Regroup(xs, [d, ys[0]], ys[1..]);
    Fuse(m, start, xs, [d, ys[0]], ys[1..]);
    Regroup(xs, [Block(d.size + ys[0].size, true)], ys[1..]);
  }

  lemma FusePrev(m: seq<byte>, start: int, front: seq<Block>, l: Block, zs: seq<Block>)
    requires Tiles(m, start, |m|, front + [l] + zs) && zs != [] && 0 < start && |m| <= LIMIT
    requires l.free
    ensures var a := start + Span(front);
            var size := l.size + zs[0].size;
            && 0 <= a && 2 * TAG <= size && a + size <= |m|
            && var r := Tagged(m, a, size, 1);
            && Tiles(r, start, |m|, JoinPrev(front + [l], zs))
            && (forall x :: 0 <= x < |m| && !(a <= x < a + size) ==> r[x] == m[x])
  {
    hide Tagged, Tiles, Span;
    SpanPair(l, zs[0]);
    assert front + [l] + zs == front + [l, zs[0]] + zs[1..];
    Fuse(m, start, front, [l, zs[0]], zs[1..]);
    assert (front + [l])[..|front|] == front;
  }

  /** The blocks fused by freeing block `i` are those from index `lo` up to index `hi`. */
  lemma FusedRange(m: seq<byte>, start: int, bs: seq<Block>, i: nat) returns (lo: nat, hi: nat)
    requires Tiles(m, start, |m|, bs) && i < |bs| && 0 < start
    ensures lo <= i < hi <= |bs| && hi == i + if NextFree(bs, i) then 2 else 1
    ensures forall k :: lo <= k < hi && k != i ==> bs[k].free
    ensures Addr(start, bs, hi) == Addr(start, bs, i) + Joined(bs, i)
    ensures Addr(start, bs, lo) == Addr(start, bs, i) - if PrevFree(bs, i) then bs[i - 1].size else 0
    ensures Addr(start, bs, lo) <= Addr(start, bs, i)
  {
    hide Tiles, Addr, ReadInt;
    lo, hi := i, i + 1;
    IndexSplit(m, start, bs, i);
    BlockAtIndex(m, start, |m|, bs, i);
    if NextFree(bs, i) {
      hi := i + 2;
      BlockAtIndex(m, start, |m|, bs, i + 1);
    }
    if PrevFree(bs, i) {
      lo := i - 1;
      BlockAtIndex(m, start, |m|, bs, i - 1);
    }
  }

  lemma JoinedSize(bs: seq<Block>, i: nat)
    requires i < |bs|
    ensures JoinNext(bs[i], bs[i + 1..])[0].size == Joined(bs, i)
  {
    assert NextFree(bs, i) ==> bs[i + 1..][0] == bs[i + 1];
  }

  lemma PrevSplit(bs: seq<Block>, i: nat)
    requires 0 < i < |bs|
    ensures bs[..i] == bs[..i - 1] + [bs[i - 1]] && Span(bs[..i]) == Span(bs[..i - 1]) + bs[i - 1].size
  {
    assert bs[..i] == bs[..i - 1] + [bs[i - 1]];
    SpanConcat(bs[..i - 1], [bs[i - 1]]);
    SpanPair(bs[i - 1], bs[i - 1]);
  }

  lemma FreedTiles(m: seq<byte>, start: int, bs: seq<Block>, i: nat)
    requires Tiles(m, start, |m|, bs) && i < |bs| && 0 < start && |m| <= LIMIT
    ensures var r := Freed(m, start, bs, i);
            var a := Addr(start, bs, i);
            var lo := a - if PrevFree(bs, i) then bs[i - 1].size else 0;
            && Tiles(r, start, |m|, Coalesce(bs, i)) && lo <= a
            && (forall x :: 0 <= x < |m| && !(lo <= x < a + Joined(bs, i)) ==> r[x] == m[x])
  {
    hide Tagged, Tiles, Span, BlockAt, FreedNext, Joined, JoinNext, NextFree;
    var zs := JoinNext(bs[i], bs[i + 1..]);
    IndexSplit(m, start, bs, i);
    FreedNextEffect(m, start, bs, i);
    JoinedSize(bs, i);
    if PrevFree(bs, i) {
      hide JoinPrev;
      PrevSplit(bs, i);
      FusePrev(FreedNext(m, start, bs, i), start, bs[..i - 1], bs[i - 1], zs);
    }
  }

  /** Freeing block `i` writes the coalesced list and touches nothing but the blocks it fuses. */
  lemma FreedEffect(m: seq<byte>, start: int, bs: seq<Block>, i: nat)
    requires Tiles(m, start, |m|, bs) && i < |bs| && 0 < start && |m| <= LIMIT
    ensures var r := Freed(m, start, bs, i);
            && Tiles(r, start, |m|, Coalesce(bs, i)) && KeepsLive(m, r, start, bs, i)
            && LiveSet(start, Coalesce(bs, i)) == LiveSet(start, bs) - {(Addr(start, bs, i), bs[i].size)}
            && start <= |m| && r[..start] == m[..start]
  {
    hide Tiles, KeepsLive, Addr, Freed, Joined, Coalesce, LiveSet, AllSizes;
    TilesSizes(m, start, |m|, bs);
    CoalesceLive(start, bs, i);
    FreedTiles(m, start, bs, i);
    var lo, hi := FusedRange(m, start, bs, i);
    AddrMonotone(m, start, |m|, bs, 0, lo);
    AddrEnds(m, start, |m|, bs);
    OutsideKept(m, Freed(m, start, bs, i), start, |m|, bs, lo, hi, i);
  }

  // ----- the tail

  /** The header-only trim leaves tags that agree: nothing is released, or the tail vanishes, or the
      eight bytes that become the tail's footer happen to hold its new size and a free mark. */
  predicate TrimSafe(m: seq<byte>, start: int, cs: seq<Block>) {
    cs != [] && cs[|cs| - 1].free && PAGE <= cs[|cs| - 1].size ==>
      var tail, r := Addr(start, cs, |cs| - 1), cs[|cs| - 1].size % PAGE;
      || r == 0
      || (2 * TAG <= r && 0 <= tail && tail + r <= |m|
          && ReadInt(m, tail + r - TAG) == r && ReadInt(m, tail + r - 4) != 0)
  }

  /** Memory after the trim of libc.c:166-168: the header's size lowered, the pages given back. */
  function HeaderTrimmed(m: seq<byte>, tail: int, s: int): (r: seq<byte>)
    requires 0 <= tail && 2 * TAG <= s <= INT_MAX && tail + s == |m|
    ensures |r| == |m| - s / PAGE * PAGE
  {
    assert s == s / PAGE * PAGE + s % PAGE;
    if s < PAGE then m else WriteInt(m, tail, s % PAGE)[..|m| - s / PAGE * PAGE]
  }

  /** The tail a free leaves is live, or under a page, or whole pages: whatever the memory holds, the
      header-only trim is safe. */
  predicate WholePages(cs: seq<Block>) {
    cs != [] && cs[|cs| - 1].free ==> cs[|cs| - 1].size < PAGE || cs[|cs| - 1].size % PAGE == 0
  }

  lemma WholePagesSafe(m: seq<byte>, start: int, cs: seq<Block>)
    requires WholePages(cs)
    ensures TrimSafe(m, start, cs)
  {
  }

  lemma TrimSafeVacuous(m: seq<byte>, start: int, cs: seq<Block>)
    requires cs != [] && !cs[|cs| - 1].free
    ensures TrimSafe(m, start, cs) && Trim(cs) == cs
  {
  }

  /** `x` is in one of the tags free writes for block `i`: its own two, the far end of the block it
      is joined with, and the front of the block before it. */
  ghost predicate InWrittenTag(start: int, bs: seq<Block>, i: nat, x: int)
    requires i < |bs|
  {
    var a, end := Addr(start, bs, i), Addr(start, bs, i) + Joined(bs, i);
    || a <= x < a + TAG || a + bs[i].size - TAG <= x < a + bs[i].size || end - TAG <= x < end
    || (PrevFree(bs, i) && a - bs[i - 1].size <= x < a - bs[i - 1].size + TAG)
  }

  /** free moves no byte outside those tags. */
  lemma FreedFrame(m: seq<byte>, start: int, bs: seq<Block>, i: nat, x: int)
    requires Tiles(m, start, |m|, bs) && i < |bs| && 0 < start && |m| <= LIMIT
    requires 0 <= x < |m| && !InWrittenTag(start, bs, i, x)
    ensures Freed(m, start, bs, i)[x] == m[x]
  {
    hide Tagged, Tiles, Addr;
    IndexSplit(m, start, bs, i);
  }

  /** On the bytes the caller has before free: when the footer of the trimmed tail misses the tags
      free writes, the trim is safe exactly if a footer already lies there. */
  lemma TrimSafeBefore(m: seq<byte>, start: int, bs: seq<Block>, i: nat)
    requires Tiles(m, start, |m|, bs) && i < |bs| && 0 < start && |m| <= LIMIT
    requires var b := Coalesce(bs, i)[|Coalesce(bs, i)| - 1];
             && b.free && PAGE <= b.size && 0 < b.size % PAGE
             && forall x :: |m| - b.size / PAGE * PAGE - TAG <= x < |m| - b.size / PAGE * PAGE ==>
                  !InWrittenTag(start, bs, i, x)
    ensures var b := Coalesce(bs, i)[|Coalesce(bs, i)| - 1];
            var end := |m| - b.size / PAGE * PAGE;
            TrimSafe(Freed(m, start, bs, i), start, Coalesce(bs, i))
            <==> && 2 * TAG <= b.size % PAGE && TAG <= end <= |m|
                 && ReadInt(m, end - TAG) == b.size % PAGE && ReadInt(m, end - 4) != 0
  {
    hide Tiles, Freed, ReadInt, InWrittenTag, Coalesce;
    CoalesceLast(bs, i);
    FreedEffect(m, start, bs, i);
    var m1, cs := Freed(m, start, bs, i), Coalesce(bs, i);
    LastSplit(m1, start, cs);
    var s := cs[|cs| - 1].size;
    var end := |m| - s / PAGE * PAGE;
    assert s == s / PAGE * PAGE + s % PAGE;
    forall x | end - TAG <= x < end && 0 <= x ensures m1[x] == m[x] {
      FreedFrame(m, start, bs, i, x);
    }
    if TAG <= end {
      ReadIntFrame(m, m1, end - TAG);
      ReadIntFrame(m, m1, end - 4);
    }
  }

  lemma TrimSoundWhenSafe(m: seq<byte>, start: int, cs: seq<Block>)
    requires Sound(cs)
    ensures TrimSafe(m, start, cs) ==> Sound(Trim(cs))
    ensures TailBelow(Trim(cs), PAGE)
  {
    hide ReadInt, Span;
    if cs != [] && cs[|cs| - 1].free && |cs| > 1 {
      var k := |cs| - 2;
      assert cs[k + 1].free;
    }
    if TrimSafe(m, start, cs) && cs != [] && cs[|cs| - 1].free {
      var s := cs[|cs| - 1].size;
      if s < PAGE {
        assert s % PAGE == s;
      }
      TrimSound(cs);
    }
  }

  lemma LastSplit(m: seq<byte>, start: int, cs: seq<Block>)
    requires Tiles(m, start, |m|, cs) && cs != [] && 0 < start
    ensures var xs, b := cs[..|cs| - 1], cs[|cs| - 1];
            var tail := start + Span(xs);
            && start <= tail == |m| - b.size && 2 * TAG <= b.size
            && PrevBlock(m, |m|) == tail && BlockAt(m, tail, b) && Tiles(m, start, tail, xs)
  {
    hide ReadInt;
    var xs, b := cs[..|cs| - 1], cs[|cs| - 1];
    assert cs == xs + [b];
    TilesSpan(m, start, |m|, cs);
    LastBlock(m, start, |m|, xs, b);
  }

  lemma TrimmedBlock(m: seq<byte>, tail: int, s: int)
    requires 0 <= tail && PAGE <= s <= INT_MAX && tail + s == |m| && BlockAt(m, tail, Block(s, true))
    requires 2 * TAG <= s % PAGE
    ensures var r := s % PAGE;
            BlockAt(HeaderTrimmed(m, tail, s), tail, Block(r, true))
            <==> ReadInt(m, tail + r - TAG) == r && ReadInt(m, tail + r - 4) != 0
  {
    hide ReadInt, WriteInt;
    var r := s % PAGE;
    assert s == s / PAGE * PAGE + r;
    var w := WriteInt(m, tail, r);
    var m' := HeaderTrimmed(m, tail, s);
    assert m' == w[..tail + r];
    ReadIntFrame(w, m', tail);
    ReadIntFrame(m, m', tail + 4);
    ReadIntFrame(m, m', tail + r - TAG);
    ReadIntFrame(m, m', tail + r - 4);
  }

  lemma TrimFront(m: seq<byte>, start: int, tail: int, s: int, xs: seq<Block>)
    requires 0 < start <= tail && 2 * TAG <= s <= INT_MAX && tail + s == |m| && Tiles(m, start, tail, xs)
    ensures var m' := HeaderTrimmed(m, tail, s);
            Tiles(m', start, tail, xs) && tail <= |m'| && m'[..tail] == m[..tail] && (s < PAGE ==> m' == m)
  {
    hide WriteInt;
    var m' := HeaderTrimmed(m, tail, s);
    assert s == s / PAGE * PAGE + s % PAGE;
    assert forall x :: 0 <= x < tail ==> m'[x] == m[x];
    TilesFrame(m, m', start, tail, xs);
  }

  /** After the header-only trim some block list fits the tags exactly when the trim was safe, and
      then it is the list the trim stands for. */
  lemma HeaderTrimIff(m: seq<byte>, start: int, cs: seq<Block>)
    requires Tiles(m, start, |m|, cs) && 0 < start && |m| <= LIMIT && cs != [] && cs[|cs| - 1].free
    ensures var s := cs[|cs| - 1].size;
            && 2 * TAG <= s <= |m| - start
            && var m' := HeaderTrimmed(m, |m| - s, s);
            && (TrimSafe(m, start, cs) ==> Tiles(m', start, |m'|, Trim(cs)))
            && ((exists bs :: Tiles(m', start, |m'|, bs)) ==> TrimSafe(m, start, cs))
  {
    hide ReadInt, BlockAt, HeaderTrimmed;
    LastSplit(m, start, cs);
    var xs, s := cs[..|cs| - 1], cs[|cs| - 1].size;
    var tail := |m| - s;
    var r := s % PAGE;
    var m' := HeaderTrimmed(m, tail, s);
    TrimFront(m, start, tail, s, xs);
    assert s == s / PAGE * PAGE + r;
    if PAGE <= s {
      if 2 * TAG <= r {
        TrimmedBlock(m, tail, s);
        if TrimSafe(m, start, cs) {
          TilesOne(m', tail, Block(r, true));
          TilesConcat(m', start, |m'|, xs, [Block(r, true)]);
        }
      }
      if bs :| Tiles(m', start, |m'|, bs) {
        TilingPrefix(m', start, tail, |m'|, xs, bs);
        if r > 0 {
          TailIsOneBlock(m, tail, s, bs[|xs|..]);
        }
      }
    }
  }

  /** A list that fits the trimmed tail can only be the one block its header announces. */
  lemma TailIsOneBlock(m: seq<byte>, tail: int, s: int, ys: seq<Block>)
    requires 0 <= tail && PAGE <= s <= INT_MAX && tail + s == |m| && BlockAt(m, tail, Block(s, true))
    requires 0 < s % PAGE
    requires Tiles(HeaderTrimmed(m, tail, s), tail, tail + s % PAGE, ys)
    ensures 2 * TAG <= s % PAGE && BlockAt(HeaderTrimmed(m, tail, s), tail, Block(s % PAGE, true))
  {
    hide ReadInt, WriteInt;
    var r := s % PAGE;
    assert s == s / PAGE * PAGE + r;
    var w := WriteInt(m, tail, r);
    var m' := HeaderTrimmed(m, tail, s);
    TilesSpan(m', tail + ys[0].size, tail + r, ys[1..]);
    assert m' == w[..tail + r];
    ReadIntFrame(w, m', tail);
    ReadIntFrame(m, m', tail + 4);
  }

  /** Every block that free leaves alone and that is live lies below a free tail. */
  lemma LiveBelowTail(m: seq<byte>, start: int, bs: seq<Block>, i: nat, k: nat)
    requires Tiles(m, start, |m|, bs) && i < |bs| && k < |bs| && k != i && !bs[k].free && 0 < start
    requires var cs := Coalesce(bs, i); cs != [] && cs[|cs| - 1].free
    ensures var cs := Coalesce(bs, i);
            Addr(start, bs, k) + bs[k].size <= |m| - cs[|cs| - 1].size
  {
    hide Tiles, ReadInt, Addr, Coalesce, Joined, NextFree, PrevFree;
    var lo, hi := FusedRange(m, start, bs, i);
    BlockAtIndex(m, start, |m|, bs, k);
    AddrEnds(m, start, |m|, bs);
    CoalesceLast(bs, i);
    if hi == |bs| {
      AddrMonotone(m, start, |m|, bs, k + 1, lo);
    } else {
      BlockAtIndex(m, start, |m|, bs, |bs| - 1);
      AddrMonotone(m, start, |m|, bs, k + 1, |bs| - 1);
    }
  }

  /** The last block after coalescing: the fused one, or the old last block. */
  lemma CoalesceLast(bs: seq<Block>, i: nat)
    requires i < |bs|
    ensures var cs := Coalesce(bs, i);
            && cs != []
            && var fused := Joined(bs, i) + if PrevFree(bs, i) then bs[i - 1].size else 0;
            cs[|cs| - 1] == if i + 1 == |bs| || (NextFree(bs, i) && i + 2 == |bs|)
                            then Block(fused, true) else bs[|bs| - 1]
  {
    var xs, ys := bs[..i], bs[i + 1..];
    var zs := JoinNext(bs[i], ys);
    assert zs[0].size == Joined(bs, i);
    assert zs[|zs| - 1] == if |ys| == 0 || (NextFree(bs, i) && |ys| == 1) then zs[0] else bs[|bs| - 1];
    assert PrevFree(bs, i) <==> xs != [] && xs[|xs| - 1].free;
  }

  /** Giving back the tail cannot disturb a live block. */
  lemma TrimKeepsLive(m: seq<byte>, m1: seq<byte>, m': seq<byte>, start: int, bs: seq<Block>, i: nat,
                      cs: seq<Block>, tail: int)
    requires Tiles(m, start, |m|, bs) && i < |bs| && 0 < start && |m1| == |m|
    requires KeepsLive(m, m1, start, bs, i)
    requires cs == Coalesce(bs, i) && cs != [] && cs[|cs| - 1].free && tail == |m| - cs[|cs| - 1].size
    requires 0 <= tail <= |m'| && tail <= |m| && m'[..tail] == m1[..tail]
    ensures KeepsLive(m, m', start, bs, i)
  {
    hide Tiles, Coalesce, Addr;
    forall k | 0 <= k < |bs| && !bs[k].free && k != i
      ensures var lo, hi := Addr(start, bs, k), Addr(start, bs, k) + bs[k].size;
              0 <= lo <= hi <= |m'| && m'[lo..hi] == m[lo..hi]
    {
      LiveBelowTail(m, start, bs, i, k);
      PrefixSlice(m', m1, tail, Addr(start, bs, k), Addr(start, bs, k) + bs[k].size);
    }
  }

  lemma PrefixSlice<T>(s: seq<T>, t: seq<T>, n: int, lo: int, hi: int)
    requires 0 <= lo <= hi <= n && n <= |s| && n <= |t| && s[..n] == t[..n]
    ensures s[lo..hi] == t[lo..hi]
  {
    assert s[lo..hi] == s[..n][lo..hi];
    assert t[lo..hi] == t[..n][lo..hi];
  }

  /** Trimming with fresh tags on what is left of the tail: the memory afterwards. */
  function Retagged(m: seq<byte>, tail: int, s: int): (r: seq<byte>)
    requires 0 <= tail && 2 * TAG <= s <= INT_MAX && tail + s == |m|
  {
    var left := s - PagesToRelease(s) * PAGE;
    assert s == s / PAGE * PAGE + s % PAGE;
    if PagesToRelease(s) == 0 then m
    else if left == 0 then m[..tail]
    else Tagged(m, tail, left, 1)[..tail + left]
  }

  lemma RetagEffect(m: seq<byte>, start: int, cs: seq<Block>)
    requires Tiles(m, start, |m|, cs) && 0 < start && |m| <= LIMIT && cs != [] && cs[|cs| - 1].free
    ensures var s := cs[|cs| - 1].size;
            && 2 * TAG <= s <= |m| - start
            && var m' := Retagged(m, |m| - s, s);
            && start <= |m| - s <= |m'| <= |m| && m'[..|m| - s] == m[..|m| - s]
            && Tiles(m', start, |m'|, TrimKeepingTags(cs))
  {
    hide ReadInt, Tagged, Tiles;
    LastSplit(m, start, cs);
    var xs, s := cs[..|cs| - 1], cs[|cs| - 1].size;
    var tail := |m| - s;
    var left := s - PagesToRelease(s) * PAGE;
    assert s == s / PAGE * PAGE + s % PAGE;
    var m' := Retagged(m, tail, s);
    assert forall x :: 0 <= x < tail ==> m'[x] == m[x];
    TilesFrame(m, m', start, tail, xs);
    if PagesToRelease(s) > 0 && left > 0 {
      var t := Tagged(m, tail, left, 1);
      BlockFrame(t, m', tail, Block(left, true));
      TilesOne(m', tail, Block(left, true));
      TilesConcat(m', start, |m'|, xs, [Block(left, true)]);
    }
  }

  /** When a freshly grown block is freed at once, the footer of the old free tail is still where
      the header-only trim needs it. */
  lemma GrowthTrimSafe(m: seq<byte>, m': seq<byte>, start: int, bs: seq<Block>, k: int)
    requires Tiles(m, start, |m|, bs) && 0 < start && 0 < k && TailBelow(bs, PAGE)
    requires |m| <= |m'| <= LIMIT && m'[..|m|] == m
    requires Tiles(m', start, |m'|, bs + [Block(k * PAGE, false)])
    ensures var ds := bs + [Block(k * PAGE, false)];
            TrimSafe(Freed(m', start, ds, |bs|), start, Coalesce(ds, |bs|))
  {
    hide Tiles, ReadInt, Coalesce, Freed, TrimSafe, Addr;
    var ds := bs + [Block(k * PAGE, false)];
    var cs := Coalesce(ds, |bs|);
    CoalesceLast(ds, |bs|);
    if bs != [] && bs[|bs| - 1].free {
      GrowthFooter(m, m', start, bs, k);
      hide InWrittenTag;
      TrimSafeBefore(m', start, ds, |bs|);
    } else {
      assert cs[|cs| - 1] == Block(k * PAGE, true);
      WholePagesSafe(Freed(m', start, ds, |bs|), start, cs);
    }
  }

  /** The old tail's footer ends where the new pages begin, away from the tags free writes. */
  lemma GrowthFooter(m: seq<byte>, m': seq<byte>, start: int, bs: seq<Block>, k: int)
    requires Tiles(m, start, |m|, bs) && 0 < start && 0 < k && TailBelow(bs, PAGE) && bs != [] && bs[|bs| - 1].free
    requires |m| <= |m'| <= LIMIT && m'[..|m|] == m
    requires Tiles(m', start, |m'|, bs + [Block(k * PAGE, false)])
    ensures var ds, t := bs + [Block(k * PAGE, false)], bs[|bs| - 1].size;
            && Joined(ds, |bs|) == k * PAGE && PrevFree(ds, |bs|) && ds[|bs| - 1] == bs[|bs| - 1]
            && 2 * TAG <= t == (t + k * PAGE) % PAGE && (t + k * PAGE) / PAGE == k && |m'| - k * PAGE == |m|
            && (forall x :: |m| - TAG <= x < |m| ==> !InWrittenTag(start, ds, |bs|, x))
            && 2 * TAG <= |m| && ReadInt(m', |m| - TAG) == t && ReadInt(m', |m| - 4) != 0
  {
    hide Tiles, ReadInt;
    LastSplit(m, start, bs);
    GrownSpan(m', start, bs, k);
    TilesSpan(m, start, |m|, bs);
    assert (bs + [Block(k * PAGE, false)])[..|bs|] == bs;
    assert forall x :: 0 <= x < |m| ==> m'[x] == m'[..|m|][x];
    ReadIntFrame(m, m', |m| - TAG);
    ReadIntFrame(m, m', |m| - 4);
  }

  lemma GrownSpan(m': seq<byte>, start: int, bs: seq<Block>, k: int)
    requires Tiles(m', start, |m'|, bs + [Block(k * PAGE, false)])
    ensures |m'| == start + Span(bs) + k * PAGE
  {
    TilesSpan(m', start, |m'|, bs + [Block(k * PAGE, false)]);
    SpanConcat(bs, [Block(k * PAGE, false)]);
  }

  /** The `n` bytes from `p` lie in block `i`, clear of every other block and of its own two tags. */
  ghost predicate Clear(start: int, end: int, bs: seq<Block>, i: nat, p: int, n: int) {
    && i < |bs| && start + TAG <= p
    && Addr(start, bs, i) + TAG <= p && p + n <= Addr(start, bs, i) + bs[i].size - TAG <= end - TAG
    && (forall j :: 0 <= j < |bs| && j != i ==>
          Addr(start, bs, j) + bs[j].size <= p - TAG || p + n + TAG <= Addr(start, bs, j))
  }

  lemma PayloadClear(m: seq<byte>, start: int, bs: seq<Block>, i: nat, n: int)
    requires Tiles(m, start, |m|, bs) && i < |bs| && n + 2 * TAG <= bs[i].size && 0 < start
    ensures Clear(start, |m|, bs, i, Addr(start, bs, i) + TAG, n)
  {
    hide Tiles, Addr;
    BlockAtIndex(m, start, |m|, bs, i);
    forall j | 0 <= j < |bs| && j != i
      ensures Addr(start, bs, j) + bs[j].size <= Addr(start, bs, i)
              || Addr(start, bs, i) + bs[i].size <= Addr(start, bs, j)
    {
      if j < i {
        BlocksDisjoint(m, start, |m|, bs, j, i);
      } else {
        BlocksDisjoint(m, start, |m|, bs, i, j);
      }
    }
  }

  /** What malloc(n) means: block `i` is live, `p` points to its payload, which is clear, and the live
      blocks are those there were, and this one. */
  ghost predicate Gives(start: int, end: int, bs: seq<Block>, cs: seq<Block>, i: nat, p: int, n: int) {
    && i < |cs| && p == Addr(start, cs, i) + TAG
    && !cs[i].free && Clear(start, end, cs, i, p, n)
    && LiveSet(start, cs) == LiveSet(start, bs) + {(p - TAG, cs[i].size)}
  }

  lemma AllocGives(m: seq<byte>, start: int, bs: seq<Block>, searched: seq<Block>, total: int)
    requires 2 * TAG < total && 0 < start && Tiles(m, start, |m|, Alloc(searched, total)) && AllSizes(searched)
    requires searched == bs || (searched == FIRST && bs == [])
    ensures var i, cs := FirstFit(searched, total), Alloc(searched, total);
            && i < |cs| && Gives(start, |m|, bs, cs, i, Addr(start, cs, i) + TAG, total - 2 * TAG)
            && (TailBelow(bs, PAGE) ==> TailBelow(cs, PAGE))
            && (Settled(bs) ==> Settled(cs))
  {
    hide Tiles, Alloc, Clear, Addr, TailBelow, Settled, LiveSet, AllSizes;
    FirstUnused(start);
    AllocKeepsTail(searched, total);
    AllocWaste(searched, total);
    AllocAdds(start, searched, total);
    PayloadClear(m, start, Alloc(searched, total), FirstFit(searched, total), total - 2 * TAG);
  }

  /** Where block `k` of the list is after an allocation: the same block at the same address. */
  lemma AllocIndex(start: int, bs: seq<Block>, total: int, k: nat) returns (j: nat)
    requires k < |bs| && k != FirstFit(bs, total)
    ensures var cs := Alloc(bs, total);
            j < |cs| && j != FirstFit(bs, total) && cs[j] == bs[k] && Addr(start, cs, j) == Addr(start, bs, k)
  {
    hide Span, FirstFit, Carve;
    var i, cs := FirstFit(bs, total), Alloc(bs, total);
    if k < i {
      j := k;
      assert cs[..j] == bs[..k];
    } else {
      var mid := Carve(bs[i], total);
      CarveSpan(bs[i], total);
      CarveLength(bs[i], total);
      j := k + |mid| - 1;
      assert cs[..j] == bs[..i] + mid + bs[i + 1..k];
      assert bs[..k] == bs[..i] + [bs[i]] + bs[i + 1..k];
      SpanThree(bs[..i], mid, bs[i + 1..k]);
      SpanThree(bs[..i], [bs[i]], bs[i + 1..k]);
      SpanPair(bs[i], bs[i]);
    }
  }

  lemma CarveLength(b: Block, total: int)
    ensures 1 <= |Carve(b, total)|
  {
  }

  /** What an allocation and a free of the new block keep, one after the other. */
  lemma KeepsLiveThrough(m: seq<byte>, m1: seq<byte>, m2: seq<byte>, start: int, bs: seq<Block>, total: int)
    requires KeepsLive(m, m1, start, bs, NONE)
    requires FirstFit(bs, total) < |Alloc(bs, total)|
    requires KeepsLive(m1, m2, start, Alloc(bs, total), FirstFit(bs, total))
    ensures KeepsLive(m, m2, start, bs, NONE)
  {
    hide FirstFit, Alloc, Addr;
    forall k | 0 <= k < |bs| && !bs[k].free && k != NONE
      ensures var lo, hi := Addr(start, bs, k), Addr(start, bs, k) + bs[k].size;
              0 <= lo <= hi <= |m| && hi <= |m2| && m2[lo..hi] == m[lo..hi]
    {
      var j := AllocIndex(start, bs, total, k);
      assert Addr(start, Alloc(bs, total), j) == Addr(start, bs, k);
    }
  }

  /** Writing inside the payload of a block leaves every tag alone. */
  lemma PayloadWrite(m: seq<byte>, start: int, bs: seq<Block>, i: nat, x: int, v: byte)
    requires Tiles(m, start, |m|, bs) && i < |bs| && 0 < start
    requires Addr(start, bs, i) + TAG <= x < Addr(start, bs, i) + bs[i].size - TAG
    ensures 0 <= x < |m| && Tiles(m[x := v], start, |m|, bs)
  {
    hide Tiles, ReadInt;
    IndexSplit(m, start, bs, i);
    var m' := m[x := v];
    var a, b := Addr(start, bs, i), bs[i];
    ReadIntFrame(m, m', a);
    ReadIntFrame(m, m', a + 4);
    ReadIntFrame(m, m', a + b.size - TAG);
    ReadIntFrame(m, m', a + b.size - 4);
    TilesOne(m', a, b);
    assert bs == bs[..i] + [b] + bs[i + 1..];
    Rewrite(m, m', start, |m|, bs[..i], [b], bs[i + 1..], [b]);
  }
}
