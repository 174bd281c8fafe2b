/** malloc and free as functions on block lists: first fit with splitting, growth by whole pages,
    coalescing on both sides and the two ways of trimming the tail. */
module Allocation {
  import opened Params
  import opened Sequences
  import opened Blocks

  /** The first free block, in address order, of at least `total` bytes; `|bs|` when there is none. */
  function FirstFit(bs: seq<Block>, total: int): (i: nat)
    ensures i <= |bs|
    ensures i < |bs| ==> bs[i].free && total <= bs[i].size
    ensures forall j :: 0 <= j < i ==> !(bs[j].free && total <= bs[j].size)
  {
    if bs == [] || (bs[0].free && total <= bs[0].size) then 0
    else 1 + FirstFit(bs[1..], total)
  }

  function PagesFor(total: int): int {
    (total + PAGE - 1) / PAGE
  }

  /** What a free block becomes when `total` of its bytes are handed out. */
  function Carve(b: Block, total: int): seq<Block> {
    var rem := b.size - total;
    if rem > 2 * TAG then [Block(total, false), Block(rem, true)] else [Block(b.size, false)]
  }

  function Alloc(bs: seq<Block>, total: int): seq<Block> {
    var i := FirstFit(bs, total);
    if i < |bs| then bs[..i] + Carve(bs[i], total) + bs[i + 1..]
    else bs + [Block(PagesFor(total) * PAGE, false)]
  }

  /** The freed block `b` merged with the block after it, when that one is free. */
  function JoinNext(b: Block, ys: seq<Block>): (zs: seq<Block>)
    ensures zs != []
  {
    if ys != [] && ys[0].free then [Block(b.size + ys[0].size, true)] + ys[1..]
    else [Block(b.size, true)] + ys
  }

  /** The free block at the front of `zs` merged with the block before it, when that one is free. */
  function JoinPrev(xs: seq<Block>, zs: seq<Block>): seq<Block>
    requires zs != []
  {
    if xs != [] && xs[|xs| - 1].free
    then xs[..|xs| - 1] + [Block(xs[|xs| - 1].size + zs[0].size, true)] + zs[1..]
    else xs + zs
  }

  /** Block `i` freed and merged with its free neighbours. */
  function Coalesce(bs: seq<Block>, i: nat): seq<Block>
    requires i < |bs|
  {
    JoinPrev(bs[..i], JoinNext(bs[i], bs[i + 1..]))
  }

  /** The tail after whole pages of it went back to the system, as libc.c:159-169 means it. */
  function Trim(bs: seq<Block>): seq<Block> {
    if bs == [] || !bs[|bs| - 1].free then bs
    else
      var r := bs[|bs| - 1].size % PAGE;
      if bs[|bs| - 1].size < PAGE then bs
      else if r == 0 then bs[..|bs| - 1]
      else bs[..|bs| - 1] + [Block(r, true)]
  }

  /** Trimming that keeps a page back when the remainder could not hold two tags. */
  function TrimKeepingTags(bs: seq<Block>): seq<Block> {
    if bs == [] || !bs[|bs| - 1].free then bs
    else
      var s := bs[|bs| - 1].size;
      var k := PagesToRelease(s);
      if k == 0 then bs
      else if s == k * PAGE then bs[..|bs| - 1]
      else bs[..|bs| - 1] + [Block(s - k * PAGE, true)]
  }

  function PagesToRelease(s: int): int {
    if 0 < s % PAGE < 2 * TAG && PAGE <= s then s / PAGE - 1 else s / PAGE
  }

  /** The invariant of the block list between calls. */
  predicate Sound(bs: seq<Block>) {
    && (forall b :: b in bs ==> 2 * TAG <= b.size)
    && Coalesced(bs)
    && Span(bs) % PAGE == 0
  }

  // ----- facts about the block list

  /** First fit wastes at most 16 bytes on a block it found, and less than a page when it grows. */
  lemma AllocWaste(bs: seq<Block>, total: int)
    requires 2 * TAG < total
    ensures var i := FirstFit(bs, total);
            var cs := Alloc(bs, total);
            && i < |cs| && !cs[i].free && cs[..i] == bs[..i]
            && total <= cs[i].size
            && (if i < |bs| then cs[i].size <= total + 2 * TAG else cs[i].size < total + PAGE)
  {
    var i := FirstFit(bs, total);
    assert Alloc(bs, total)[..i] == bs[..i];
  }

  predicate AllSizes(bs: seq<Block>) {
    forall b :: b in bs ==> 2 * TAG <= b.size
  }

  predicate Seam(xs: seq<Block>, ys: seq<Block>) {
    xs != [] && ys != [] ==> !(xs[|xs| - 1].free && ys[0].free)
  }

  lemma CoalescedConcat(xs: seq<Block>, ys: seq<Block>)
    ensures Coalesced(xs + ys) <==> Coalesced(xs) && Coalesced(ys) && Seam(xs, ys)
  {
    var zs := xs + ys;
    if Coalesced(zs) {
      forall k | 0 <= k < |xs| - 1 ensures !(xs[k].free && xs[k + 1].free) {
        assert zs[k] == xs[k] && zs[k + 1] == xs[k + 1];
      }
      forall k | 0 <= k < |ys| - 1 ensures !(ys[k].free && ys[k + 1].free) {
        assert zs[|xs| + k] == ys[k] && zs[|xs| + k + 1] == ys[k + 1];
      }
      if xs != [] && ys != [] {
        assert zs[|xs| - 1] == xs[|xs| - 1] && zs[|xs| - 1 + 1] == ys[0];
      }
    }
  }

  lemma AllocSpan(bs: seq<Block>, total: int)
    ensures var cs := Alloc(bs, total);
            Span(cs) == Span(bs) + if FirstFit(bs, total) < |bs| then 0 else PagesFor(total) * PAGE
  {
    var i := FirstFit(bs, total);
    if i < |bs| {
      CarveSpan(bs[i], total);
      assert bs == bs[..i] + [bs[i]] + bs[i + 1..];
      SpanThree(bs[..i], [bs[i]], bs[i + 1..]);
      SpanThree(bs[..i], Carve(bs[i], total), bs[i + 1..]);
    } else {
      SpanConcat(bs, [Block(PagesFor(total) * PAGE, false)]);
    }
  }

  lemma CarveSpan(b: Block, total: int)
    ensures Span(Carve(b, total)) == b.size
  {
    var c := Carve(b, total);
    if |c| == 2 {
      assert c[1..] == [c[1]];
      assert Span([c[1]]) == c[1].size;
    } else {
      assert Span([c[0]]) == c[0].size;
    }
  }

  lemma SpanThree(xs: seq<Block>, ys: seq<Block>, zs: seq<Block>)
    ensures Span(xs + ys + zs) == Span(xs) + Span(ys) + Span(zs)
  {
    SpanConcat(xs + ys, zs);
    SpanConcat(xs, ys);
  }

  lemma AllocKeepsSound(bs: seq<Block>, total: int)
    requires Sound(bs) && 2 * TAG < total
    ensures Sound(Alloc(bs, total))
  {
    hide Span, Coalesced;
    AllocSpan(bs, total);
    AllocSizes(bs, total);
    AllocCoalesced(bs, total);
    hide Alloc;
  }

  lemma AllocSizes(bs: seq<Block>, total: int)
    requires AllSizes(bs) && 2 * TAG < total
    ensures AllSizes(Alloc(bs, total))
  {
    forall b | b in Alloc(bs, total) ensures 2 * TAG <= b.size {
      var i := FirstFit(bs, total);
      if i < |bs| {
        assert b in bs[..i] || b in Carve(bs[i], total) || b in bs[i + 1..];
      }
    }
  }

  lemma AllocCoalesced(bs: seq<Block>, total: int)
    requires Coalesced(bs)
    ensures Coalesced(Alloc(bs, total))
  {
    var i := FirstFit(bs, total);
    if i < |bs| {
      assert bs == bs[..i] + [bs[i]] + bs[i + 1..];
      hide Coalesced, Carve;
      CarveKeepsCoalesced(bs[..i], bs[i], bs[i + 1..], total);
    }
  }

  lemma CarveKeepsCoalesced(xs: seq<Block>, b: Block, ys: seq<Block>, total: int)
    requires Coalesced(xs + [b] + ys) && b.free
    ensures Coalesced(xs + Carve(b, total) + ys)
  {
    var mid := Carve(b, total);
    CoalescedConcat(xs + [b], ys);
    CoalescedConcat(xs, [b]);
    assert Coalesced(mid);
    assert Seam(xs, mid) && Seam(xs + mid, ys);
    hide Coalesced, Carve;
    CoalescedConcat(xs, mid);
    CoalescedConcat(xs + mid, ys);
  }

  /** The list malloc makes of its first page. */
  const FIRST := [Block(PAGE, true)]

  /** Nothing is left for the keeping trim to release. */
  predicate Settled(bs: seq<Block>) {
    TrimKeepingTags(bs) == bs
  }

  /** The bound on the tail every call restores: under a page as written, and nothing left for the
      trim that keeps its tags. */
  predicate Trimmed(bs: seq<Block>, keeping: bool) {
    if keeping then Settled(bs) else TailBelow(bs, PAGE)
  }

  /** A tail that no trim has left to shorten stays so over every malloc, the first one included. */
  lemma AllocKeepsTail(bs: seq<Block>, total: int)
    requires 2 * TAG < total
    ensures TailBelow(bs, PAGE) || bs == FIRST ==> TailBelow(Alloc(bs, total), PAGE)
    ensures Settled(bs) || bs == FIRST ==> Settled(Alloc(bs, total))
  {
    var i := FirstFit(bs, total);
    if i < |bs| {
      var mid, ys := Carve(bs[i], total), bs[i + 1..];
      assert ys == [] ==> bs[|bs| - 1] == bs[i];
      assert ys != [] ==> ys[|ys| - 1] == bs[|bs| - 1];
      SettledTail(bs);
    }
    SettledTail(Alloc(bs, total));
  }

  /** A settled tail has less than a page, or a page and too little beyond it for two tags. */
  lemma SettledTail(bs: seq<Block>)
    ensures Settled(bs) <==>
            (bs != [] && bs[|bs| - 1].free ==>
               var s := bs[|bs| - 1].size; PagesToRelease(s) == 0)
  {
    if bs != [] && bs[|bs| - 1].free {
      var s := bs[|bs| - 1].size;
      assert bs[|bs| - 1] == Block(s, true);
      assert TrimKeepingTags(bs) == bs ==> PagesToRelease(s) == 0;
    }
  }

  /** The keeping trim releases everything it can at once. */
  lemma TrimKeepingTagsSettles(bs: seq<Block>)
    requires Sound(bs)
    ensures Settled(TrimKeepingTags(bs))
  {
    hide Span;
    var cs := TrimKeepingTags(bs);
    if bs != [] && bs[|bs| - 1].free {
      var s := bs[|bs| - 1].size;
      assert s == PAGE * (s / PAGE) + s % PAGE;
      if s == PagesToRelease(s) * PAGE && |bs| > 1 {
        var k := |bs| - 2;
        assert bs[k + 1].free;
      }
    }
    SettledTail(cs);
  }

  lemma CoalesceSpan(bs: seq<Block>, i: nat)
    requires i < |bs|
    ensures Span(Coalesce(bs, i)) == Span(bs)
  {
    hide Span, JoinNext, JoinPrev;
    var xs, ys := bs[..i], bs[i + 1..];
    JoinNextSpan(bs[i], ys);
    Middle(bs, i);
    SpanThree(xs, [bs[i]], ys);
    JoinPrevSpan(xs, JoinNext(bs[i], ys));
  }

  lemma JoinNextSpan(b: Block, ys: seq<Block>)
    ensures Span(JoinNext(b, ys)) == Span([b]) + Span(ys)
  {
    var zs := JoinNext(b, ys);
    assert zs[1..] == if ys != [] && ys[0].free then ys[1..] else ys;
  }

  lemma JoinPrevSpan(xs: seq<Block>, zs: seq<Block>)
    requires zs != []
    ensures Span(JoinPrev(xs, zs)) == Span(xs) + Span(zs)
  {
    if xs != [] && xs[|xs| - 1].free {
      var m := Block(xs[|xs| - 1].size + zs[0].size, true);
      DropLastSpan(xs);
      SpanThree(xs[..|xs| - 1], [m], zs[1..]);
    } else {
      SpanConcat(xs, zs);
    }
  }

  lemma FreeKeepsSound(bs: seq<Block>, i: nat)
    requires Sound(bs) && i < |bs| && !bs[i].free
    ensures Sound(Coalesce(bs, i))
  {
    hide Span;
    CoalesceSpan(bs, i);
    var xs, ys := bs[..i], bs[i + 1..];
    assert bs == xs + ([bs[i]] + ys);
    CoalescedConcat(xs, [bs[i]] + ys);
    CoalescedConcat([bs[i]], ys);
    var zs := JoinNext(bs[i], ys);
    assert Coalesced(zs) && zs[0].free;
    JoinPrevCoalesced(xs, zs);
  }

  lemma JoinPrevCoalesced(xs: seq<Block>, zs: seq<Block>)
    requires Coalesced(xs) && Coalesced(zs) && zs != [] && zs[0].free
    ensures Coalesced(JoinPrev(xs, zs))
  {
    if xs != [] && xs[|xs| - 1].free {
      var front, m := xs[..|xs| - 1], Block(xs[|xs| - 1].size + zs[0].size, true);
      CoalescedConcat(front, [xs[|xs| - 1]]);
      assert xs == front + [xs[|xs| - 1]];
      CoalescedConcat(front, [m]);
      CoalescedConcat(front + [m], zs[1..]);
    } else {
      CoalescedConcat(xs, zs);
    }
  }

  lemma DropLastSpan(bs: seq<Block>)
    requires bs != []
    ensures Span(bs) == Span(bs[..|bs| - 1]) + bs[|bs| - 1].size
  {
    assert bs == bs[..|bs| - 1] + [bs[|bs| - 1]];
    SpanConcat(bs[..|bs| - 1], [bs[|bs| - 1]]);
  }

  lemma ChangeTailSpan(bs: seq<Block>, r: int)
    requires bs != [] && Span(bs) % PAGE == 0 && (bs[|bs| - 1].size - r) % PAGE == 0
    ensures Span(bs[..|bs| - 1] + [Block(r, true)]) % PAGE == 0
    ensures r == 0 ==> Span(bs[..|bs| - 1]) % PAGE == 0
  {
    DropLastSpan(bs);
    SpanConcat(bs[..|bs| - 1], [Block(r, true)]);
    assert Span([Block(r, true)]) == r;
    hide Span;
    PageShift(Span(bs[..|bs| - 1]), bs[|bs| - 1].size, r);
  }

  lemma PageShift(a: int, b: int, r: int)
    requires (a + b) % PAGE == 0 && (b - r) % PAGE == 0
    ensures (a + r) % PAGE == 0
  {
    var q, p := (a + b) / PAGE, (b - r) / PAGE;
    assert a + r == PAGE * (q - p);
  }

  lemma ChangeTailCoalesced(bs: seq<Block>, r: int)
    requires Coalesced(bs) && bs != [] && bs[|bs| - 1].free
    ensures Coalesced(bs[..|bs| - 1]) && TailBelow(bs[..|bs| - 1], 0) &&
            (2 * TAG <= r ==> Coalesced(bs[..|bs| - 1] + [Block(r, true)]))
  {
    var xs := bs[..|bs| - 1];
    if xs != [] {
      var k := |xs| - 1;
      assert bs[k + 1].free;
    }
  }

  lemma ChangeTail(bs: seq<Block>, r: int)
    requires Sound(bs) && bs != [] && bs[|bs| - 1].free
    requires (bs[|bs| - 1].size - r) % PAGE == 0
    ensures r == 0 ==> Sound(bs[..|bs| - 1]) && TailBelow(bs[..|bs| - 1], 0)
    ensures 2 * TAG <= r ==> Sound(bs[..|bs| - 1] + [Block(r, true)])
  {
    ChangeTailSpan(bs, r);
    ChangeTailCoalesced(bs, r);
    hide Span, Coalesced;
  }

  /** After the keeping trim the list is sound and no tail page can be released any more. */
  lemma TrimKeepingTagsSound(bs: seq<Block>)
    requires Sound(bs)
    ensures Sound(TrimKeepingTags(bs)) && TailBelow(TrimKeepingTags(bs), PAGE + 2 * TAG)
  {
    hide Span, Coalesced;
    if bs != [] && bs[|bs| - 1].free {
      var s := bs[|bs| - 1].size;
      assert s == PAGE * (s / PAGE) + s % PAGE;
      ChangeTail(bs, s - PagesToRelease(s) * PAGE);
    }
  }

  /** The literal trim also keeps the list sound when the remainder can hold two tags. */
  lemma TrimSound(bs: seq<Block>)
    requires Sound(bs)
    requires bs != [] && bs[|bs| - 1].free ==> var r := bs[|bs| - 1].size % PAGE; r == 0 || 2 * TAG <= r
    ensures Sound(Trim(bs)) && TailBelow(Trim(bs), PAGE)
  {
    hide Span, Coalesced;
    if bs != [] && bs[|bs| - 1].free {
      var s := bs[|bs| - 1].size;
      assert s == PAGE * (s / PAGE) + s % PAGE;
      ChangeTail(bs, s % PAGE);
    }
  }

  /** Freeing at once what was just allocated gives back the very same block list. */
  lemma FreeAfterAlloc(bs: seq<Block>, total: int)
    requires Sound(bs) && TailBelow(bs, PAGE) && 2 * TAG < total
    ensures var i := FirstFit(bs, total);
            i < |Alloc(bs, total)| && Trim(Coalesce(Alloc(bs, total), i)) == bs
  {
    hide Alloc, Coalesce, Trim, Span, Coalesced;
    if FirstFit(bs, total) < |bs| {
      FreeAfterFit(bs, total);
      TrimUnchanged(bs);
    } else {
      FreeAfterGrowth(bs, total);
    }
  }

  lemma FreeAfterFit(bs: seq<Block>, total: int)
    requires Coalesced(bs) && FirstFit(bs, total) < |bs|
    ensures var i := FirstFit(bs, total);
            i < |Alloc(bs, total)| && Coalesce(Alloc(bs, total), i) == bs
  {
    hide JoinPrev, JoinNext, Carve, FirstFit, Coalesced;
    var i := FirstFit(bs, total);
    var xs, ys := bs[..i], bs[i + 1..];
    assert bs == xs + [bs[i]] + ys;
    CoalescedConcat(xs + [bs[i]], ys);
    CoalescedConcat(xs, [bs[i]]);
    var mid := CarveThenJoin(xs, bs[i], ys, total);
    var cs := xs + mid + ys;
    assert cs[..i] == xs && cs[i] == mid[0];
    assert cs[i + 1..] == mid[1..] + ys;
  }

  lemma FreeAfterGrowth(bs: seq<Block>, total: int)
    requires AllSizes(bs) && TailBelow(bs, PAGE) && FirstFit(bs, total) == |bs| && 0 < total
    ensures |bs| < |Alloc(bs, total)| && Trim(Coalesce(Alloc(bs, total), |bs|)) == bs
  {
    hide JoinPrev, JoinNext, Trim, FirstFit;
    var cs := Alloc(bs, total);
    assert cs[..|bs|] == bs && cs[|bs| + 1..] == [];
    GrowThenTrim(bs, PagesFor(total));
  }

  lemma TrimUnchanged(bs: seq<Block>)
    requires TailBelow(bs, PAGE)
    ensures Trim(bs) == bs
  {
  }

  /** The same for the keeping trim, whose tails may have up to fifteen bytes above a page. */
  lemma FreeKeepingAfterAlloc(bs: seq<Block>, total: int)
    requires Sound(bs) && Settled(bs) && 2 * TAG < total
    ensures var i := FirstFit(bs, total);
            i < |Alloc(bs, total)| && TrimKeepingTags(Coalesce(Alloc(bs, total), i)) == bs
  {
    hide Coalesce, TrimKeepingTags, Span, Coalesced, JoinPrev, JoinNext;
    if FirstFit(bs, total) < |bs| {
      FreeAfterFit(bs, total);
    } else {
      var cs := Alloc(bs, total);
      assert cs[..|bs|] == bs && cs[|bs| + 1..] == [];
      CoalesceAtEnd(cs);
      GrowThenTrimKeeping(bs, PagesFor(total));
    }
  }

  lemma CoalesceAtEnd(cs: seq<Block>)
    requires cs != []
    ensures Coalesce(cs, |cs| - 1) == JoinPrev(cs[..|cs| - 1], JoinNext(cs[|cs| - 1], []))
  {
    assert cs[|cs| - 1 + 1..] == [];
  }

  lemma GrowThenTrimKeeping(bs: seq<Block>, k: int)
    requires Settled(bs) && 0 < k
    requires bs != [] ==> 2 * TAG <= bs[|bs| - 1].size
    ensures TrimKeepingTags(JoinPrev(bs, JoinNext(Block(k * PAGE, false), []))) == bs
  {
    hide JoinPrev, JoinNext, TrimKeepingTags, PagesToRelease;
    var cs := GrownTail(bs, k);
    if bs != [] && bs[|bs| - 1].free {
      SettledTail(bs);
      SettledGrown(bs[|bs| - 1].size, k);
      TrimTo(cs, k, bs[|bs| - 1].size);
    } else {
      SettledGrown(0, k);
      TrimTo(cs, k, 0);
    }
  }

  /** The list after the grown pages were freed: they are the tail, or part of it. */
  lemma GrownTail(bs: seq<Block>, k: int) returns (cs: seq<Block>)
    ensures cs == JoinPrev(bs, JoinNext(Block(k * PAGE, false), [])) && cs != []
    ensures if bs != [] && bs[|bs| - 1].free
            then cs == bs[..|bs| - 1] + [Block(bs[|bs| - 1].size + k * PAGE, true)]
            else cs == bs + [Block(k * PAGE, true)]
  {
    cs := JoinPrev(bs, JoinNext(Block(k * PAGE, false), []));
    assert JoinNext(Block(k * PAGE, false), []) == [Block(k * PAGE, true)];
  }

  /** A settled tail grown by `k` pages has exactly these to release. */
  lemma SettledGrown(s: int, k: int)
    requires 0 < k && (s == 0 || (2 * TAG <= s && PagesToRelease(s) == 0))
    ensures PagesToRelease(s + k * PAGE) == k
  {
    assert (s + k * PAGE) % PAGE == s % PAGE && (s + k * PAGE) / PAGE == s / PAGE + k;
  }

  lemma TrimTo(cs: seq<Block>, k: int, s: int)
    requires cs != [] && cs[|cs| - 1] == Block(s + k * PAGE, true) && 0 < k && PagesToRelease(s + k * PAGE) == k
    ensures TrimKeepingTags(cs) == if s == 0 then cs[..|cs| - 1] else cs[..|cs| - 1] + [Block(s, true)]
  {
  }

  /** Freeing the very first allocation leaves one block of whole pages, which both trims release. */
  lemma FreeFirst(total: int)
    requires 2 * TAG < total
    ensures var i, ds := FirstFit(FIRST, total), Alloc(FIRST, total);
            && i < |ds|
            && var cs := Coalesce(ds, i);
            |cs| == 1 && cs[0].free && cs[0].size % PAGE == 0 && Trim(cs) == TrimKeepingTags(cs) == []
  {
    if FirstFit(FIRST, total) < 1 {
      FreeAfterFit(FIRST, total);
    } else {
      CoalesceAtEnd(Alloc(FIRST, total));
    }
  }

  lemma CarveThenJoin(xs: seq<Block>, b: Block, ys: seq<Block>, total: int) returns (mid: seq<Block>)
    requires b.free && (xs != [] ==> !xs[|xs| - 1].free) && (ys != [] ==> !ys[0].free)
    ensures mid == Carve(b, total) && mid != []
    ensures JoinPrev(xs, JoinNext(mid[0], mid[1..] + ys)) == xs + [b] + ys
  {
    mid := Carve(b, total);
    var zs := mid[1..] + ys;
    assert |mid| == 2 ==> zs == [mid[1]] + ys && zs[1..] == ys;
    assert |mid| == 1 ==> zs == ys;
    assert JoinNext(mid[0], zs) == [b] + ys;
    assert xs + ([b] + ys) == xs + [b] + ys;
  }

  lemma GrowThenTrim(bs: seq<Block>, k: int)
    requires TailBelow(bs, PAGE) && 0 < k
    requires bs != [] ==> 0 < bs[|bs| - 1].size
    ensures Trim(JoinPrev(bs, JoinNext(Block(k * PAGE, false), []))) == bs
  {
    hide JoinPrev, JoinNext;
    var cs := GrownTail(bs, k);
    assert cs[|cs| - 1].size % PAGE == if bs != [] && bs[|bs| - 1].free then bs[|bs| - 1].size else 0;
    assert cs[..|cs| - 1] == if bs != [] && bs[|bs| - 1].free then bs[..|bs| - 1] else bs;
  }
}
