/** The heap of libc.c as a list of blocks, and what it means for memory to hold that list:
    every block carries the same tag (size, free flag) in its first and in its last eight bytes. */
module Blocks {
  import opened Params
  import opened Sequences
  import opened Words

  const TAG := 8                     // MALLOC_HEADER_SIZE
  const LIMIT := TOTAL_PAGES * PAGE  // the end of the address space

  datatype Block = Block(size: int, free: bool)

  predicate TagAt(m: seq<byte>, a: int, b: Block) {
    && 0 <= a && a + TAG <= |m|
    && ReadInt(m, a) == b.size
    && (ReadInt(m, a + 4) != 0 <==> b.free)
  }

  predicate BlockAt(m: seq<byte>, a: int, b: Block) {
    2 * TAG <= b.size && TagAt(m, a, b) && TagAt(m, a + b.size - TAG, b)
  }

  /** The blocks `bs`, laid end to end, fill exactly the addresses from `a` up to `e`. */
  predicate Tiles(m: seq<byte>, a: int, e: int, bs: seq<Block>)
    decreases |bs|
  {
    if bs == [] then a == e
    else BlockAt(m, a, bs[0]) && Tiles(m, a + bs[0].size, e, bs[1..])
  }

  function Span(bs: seq<Block>): int {
    if bs == [] then 0 else bs[0].size + Span(bs[1..])
  }

  /** The address of block `i` of a heap that starts at `a`. */
  function Addr(a: int, bs: seq<Block>, i: nat): int
    requires i <= |bs|
  {
    a + Span(bs[..i])
  }

  predicate Coalesced(bs: seq<Block>) {
    forall i :: 0 <= i < |bs| - 1 ==> !(bs[i].free && bs[i + 1].free)
  }

  predicate TailBelow(bs: seq<Block>, limit: int) {
    bs != [] && bs[|bs| - 1].free ==> bs[|bs| - 1].size < limit
  }

  // ----- laying lists end to end

  lemma {:induction false} SpanConcat(xs: seq<Block>, ys: seq<Block>)
    ensures Span(xs + ys) == Span(xs) + Span(ys)
  {
    if xs == [] {
      assert xs + ys == ys;
    } else {
      assert (xs + ys)[1..] == xs[1..] + ys;
      SpanConcat(xs[1..], ys);
    }
  }

  lemma {:induction false} TilesSpan(m: seq<byte>, a: int, e: int, bs: seq<Block>)
    requires Tiles(m, a, e, bs)
    ensures e == a + Span(bs) && a <= e
    ensures bs != [] ==> 0 <= a && e <= |m|
    decreases |bs|
  {
    hide ReadInt;
    if bs != [] {
      TilesSpan(m, a + bs[0].size, e, bs[1..]);
    }
  }

  lemma {:induction false} TilesConcat(m: seq<byte>, a: int, e: int, xs: seq<Block>, ys: seq<Block>)
    ensures Tiles(m, a, e, xs + ys) <==>
            Tiles(m, a, a + Span(xs), xs) && Tiles(m, a + Span(xs), e, ys)
    decreases |xs|
  {
    hide BlockAt;
    if xs == [] {
      assert xs + ys == ys;
    } else {
      assert (xs + ys)[1..] == xs[1..] + ys;
      TilesConcat(m, a + xs[0].size, e, xs[1..], ys);
    }
  }

  lemma BlockFrame(m: seq<byte>, m': seq<byte>, a: int, b: Block)
    requires BlockAt(m, a, b) && a + b.size <= |m'|
    requires forall i :: a <= i < a + b.size ==> m'[i] == m[i]
    ensures BlockAt(m', a, b)
  {
    ReadIntFrame(m, m', a);
    ReadIntFrame(m, m', a + 4);
    ReadIntFrame(m, m', a + b.size - TAG);
    ReadIntFrame(m, m', a + b.size - TAG + 4);
  }

  lemma {:induction false} TilesFrame(m: seq<byte>, m': seq<byte>, a: int, e: int, bs: seq<Block>)
    requires Tiles(m, a, e, bs)
    requires bs == [] || e <= |m'|
    requires forall i :: a <= i < e && 0 <= i < |m| && i < |m'| ==> m'[i] == m[i]
    ensures Tiles(m', a, e, bs)
    decreases |bs|
  {
    hide TagAt;
    if bs != [] {
      TilesSpan(m, a, e, bs);
      TilesSpan(m, a + bs[0].size, e, bs[1..]);
      BlockFrame(m, m', a, bs[0]);
      TilesFrame(m, m', a + bs[0].size, e, bs[1..]);
    }
  }

  /** A tiled heap cut into a front, a middle stretch from `p` to `q`, and a back. */
  predicate Cut(m: seq<byte>, a: int, p: int, q: int, e: int,
                xs: seq<Block>, mid: seq<Block>, ys: seq<Block>)
  {
    Tiles(m, a, p, xs) && Tiles(m, p, q, mid) && Tiles(m, q, e, ys)
  }

  lemma CutIffTiles(m: seq<byte>, a: int, e: int, xs: seq<Block>, mid: seq<Block>, ys: seq<Block>)
    ensures var p := a + Span(xs);
            Tiles(m, a, e, xs + mid + ys) <==> Cut(m, a, p, p + Span(mid), e, xs, mid, ys)
  {
    hide BlockAt;
    SpanConcat(xs, mid);
    TilesConcat(m, a, e, xs + mid, ys);
    TilesConcat(m, a, a + Span(xs + mid), xs, mid);
  }

  /** Rewriting the middle stretch keeps the rest of the cut. */
  lemma Replace(m: seq<byte>, m': seq<byte>, a: int, p: int, q: int, e: int,
                xs: seq<Block>, mid: seq<Block>, ys: seq<Block>, mid': seq<Block>)
    requires Cut(m, a, p, q, e, xs, mid, ys) && |m'| == |m|
    requires Tiles(m', p, q, mid')
    requires forall i :: 0 <= i < |m| && !(p <= i < q) ==> m'[i] == m[i]
    ensures Cut(m', a, p, q, e, xs, mid', ys)
  {
    hide BlockAt;
    TilesSpan(m, a, p, xs);
    TilesSpan(m, p, q, mid);
    TilesSpan(m, q, e, ys);
    TilesFrame(m, m', a, p, xs);
    TilesFrame(m, m', q, e, ys);
  }

  // ----- finding blocks by index

  lemma BlockAtIndex(m: seq<byte>, a: int, e: int, bs: seq<Block>, i: nat)
    requires Tiles(m, a, e, bs) && i < |bs|
    ensures BlockAt(m, Addr(a, bs, i), bs[i])
    ensures Addr(a, bs, i + 1) == Addr(a, bs, i) + bs[i].size
    ensures a <= Addr(a, bs, i) && Addr(a, bs, i + 1) <= e <= |m|
  {
    hide BlockAt;
    var xs, ys := bs[..i], bs[i..];
    assert xs + ys == bs;
    TilesConcat(m, a, e, xs, ys);
    TilesSpan(m, a, a + Span(xs), xs);
    TilesSpan(m, a + Span(xs), e, ys);
    assert bs[..i + 1] == xs + [bs[i]];
    SpanConcat(xs, [bs[i]]);
    TilesSpan(m, a + Span(xs) + bs[i].size, e, ys[1..]);
  }

  lemma {:induction false} AddrMonotone(m: seq<byte>, a: int, e: int, bs: seq<Block>, i: nat, j: nat)
    requires Tiles(m, a, e, bs) && i <= j <= |bs|
    ensures Addr(a, bs, i) <= Addr(a, bs, j)
    decreases j
  {
    hide Tiles;
    if i < j {
      BlockAtIndex(m, a, e, bs, j - 1);
      AddrMonotone(m, a, e, bs, i, j - 1);
    }
  }

  /** Different blocks of a tiled heap never overlap, tags included. */
  lemma BlocksDisjoint(m: seq<byte>, a: int, e: int, bs: seq<Block>, i: nat, j: nat)
    requires Tiles(m, a, e, bs) && i < j < |bs|
    ensures Addr(a, bs, i) + bs[i].size <= Addr(a, bs, j)
  {
    hide Tiles;
    BlockAtIndex(m, a, e, bs, i);
    AddrMonotone(m, a, e, bs, i + 1, j);
  }

  // ----- memory determines the list

  lemma ConsPrefix<T>(xs: seq<T>, cs: seq<T>)
    requires xs != [] && cs != [] && cs[0] == xs[0]
    requires |xs| <= |cs| && cs[1..][..|xs| - 1] == xs[1..]
    ensures cs[..|xs|] == xs && cs[1..][|xs| - 1..] == cs[|xs|..]
  {
    assert cs[..|xs|] == [cs[0]] + cs[1..][..|xs| - 1];
    assert xs == [xs[0]] + xs[1..];
  }

  /** A list that tiles a prefix of the region is a prefix of any list that tiles the region. */
  lemma {:induction false} TilingPrefix(m: seq<byte>, a: int, mid: int, e: int,
                                        xs: seq<Block>, cs: seq<Block>)
    requires Tiles(m, a, mid, xs) && Tiles(m, a, e, cs) && mid <= e
    ensures |xs| <= |cs| && cs[..|xs|] == xs && Tiles(m, mid, e, cs[|xs|..])
    decreases |xs|
  {
    hide ReadInt;
    if xs == [] {
      assert cs[0..] == cs;
    } else {
      TilesSpan(m, a + xs[0].size, mid, xs[1..]);
      assert cs[0] == xs[0];
      TilingPrefix(m, a + xs[0].size, mid, e, xs[1..], cs[1..]);
      ConsPrefix(xs, cs);
    }
  }

  /** At most one block list fits the tags stored between `a` and `e`. */
  lemma TilingUnique(m: seq<byte>, a: int, e: int, bs: seq<Block>, cs: seq<Block>)
    requires Tiles(m, a, e, bs) && Tiles(m, a, e, cs)
    ensures bs == cs
  {
    hide ReadInt;
    TilingPrefix(m, a, e, e, bs, cs);
    TilesSpan(m, e, e, cs[|bs|..]);
    if cs[|bs|..] != [] {
      TilesSpan(m, e + cs[|bs|].size, e, cs[|bs|..][1..]);
    }
  }

  // ----- the walks of next_block and prev_block

  function NextBlock(m: seq<byte>, a: int): int
    requires 0 <= a && a + 4 <= |m|
  {
    a + ReadInt(m, a)
  }

  function PrevBlock(m: seq<byte>, a: int): int
    requires TAG <= a && a <= |m|
  {
    a - ReadInt(m, a - TAG)
  }

  /** The addresses met by following next_block from `a` up to `e`. */
  function NextWalk(m: seq<byte>, a: int, e: int): seq<int>
    requires 0 <= a && e <= |m|
    decreases e - a
  {
    if a + 4 > e || NextBlock(m, a) <= a then [] else [a] + NextWalk(m, NextBlock(m, a), e)
  }

  /** The addresses met by following prev_block from `e` down to `a`. */
  function PrevWalk(m: seq<byte>, a: int, e: int): seq<int>
    requires 0 <= a && e <= |m|
    decreases e - a
  {
    if e - TAG < a || !(a <= PrevBlock(m, e) < e) then []
    else [PrevBlock(m, e)] + PrevWalk(m, a, PrevBlock(m, e))
  }

  /** prev_block applied to the end of a tiled stretch finds its last block. */
  lemma LastBlock(m: seq<byte>, a: int, e: int, xs: seq<Block>, b: Block)
    requires Tiles(m, a, e, xs + [b]) && 0 <= a && e <= |m|
    ensures Tiles(m, a, a + Span(xs), xs) && BlockAt(m, a + Span(xs), b)
    ensures a <= a + Span(xs) == e - b.size && 2 * TAG <= b.size
    ensures PrevBlock(m, e) == a + Span(xs)
  {
    hide ReadInt;
    TilesConcat(m, a, e, xs, [b]);
    TilesSpan(m, a, a + Span(xs), xs);
    assert Tiles(m, a + Span(xs) + b.size, e, [b][1..]);
  }

  lemma PrevWalkStep(m: seq<byte>, a: int, e: int)
    requires 0 <= a && TAG <= e - a && e <= |m| && a <= PrevBlock(m, e) < e
    ensures PrevWalk(m, a, e) == [PrevBlock(m, e)] + PrevWalk(m, a, PrevBlock(m, e))
  {
  }

  lemma {:induction false} PrevWalkConcat(m: seq<byte>, a: int, mid: int, e: int, bs: seq<Block>)
    requires Tiles(m, mid, e, bs) && 0 <= a <= mid <= e && e <= |m|
    ensures PrevWalk(m, a, e) == PrevWalk(m, mid, e) + PrevWalk(m, a, mid)
    decreases |bs|
  {
    hide BlockAt, PrevBlock;
    if bs == [] {
      assert PrevWalk(m, mid, e) == [];
    } else {
      var xs, b := bs[..|bs| - 1], bs[|bs| - 1];
      assert bs == xs + [b];
      LastBlock(m, mid, e, xs, b);
      PrevWalkConcat(m, a, mid, PrevBlock(m, e), xs);
      PrevWalkStep(m, a, e);
      PrevWalkStep(m, mid, e);
    }
  }

  /** On a tiled heap the backward walk is exactly the forward walk reversed. */
  lemma {:induction false} WalksReverse(m: seq<byte>, a: int, e: int, bs: seq<Block>)
    requires Tiles(m, a, e, bs) && 0 <= a && e <= |m|
    ensures |NextWalk(m, a, e)| == |bs|
    ensures PrevWalk(m, a, e) == Reversed(NextWalk(m, a, e))
    decreases |bs|
  {
    hide ReadInt;
    if bs != [] {
      var q := a + bs[0].size;
      TilesSpan(m, q, e, bs[1..]);
      WalksReverse(m, q, e, bs[1..]);
      PrevWalkConcat(m, a, q, e, bs[1..]);
      assert NextBlock(m, a) == q && PrevBlock(m, q) == a;
      assert PrevWalk(m, a, a) == [];
      assert PrevWalk(m, a, q) == [a];
      assert NextWalk(m, a, e)[1..] == NextWalk(m, q, e);
    }
  }
}
