/** The live blocks of a heap as a set of addresses and sizes: what malloc adds to it, what free takes
    away, and that with the bounds every call keeps it leaves only one block list. */
module LiveBlocks {
  import opened Params
  import opened Sequences
  import opened Blocks
  import opened Allocation

  /** Address and size of every live block of a heap that starts at `a`. */
  function LiveSet(a: int, bs: seq<Block>): set<(int, int)> {
    set i | 0 <= i < |bs| && !bs[i].free :: (Addr(a, bs, i), bs[i].size)
  }

  lemma SoundSizes(bs: seq<Block>)
    requires Sound(bs)
    ensures AllSizes(bs)
  {
  }

  lemma LiveNone(a: int)
    ensures LiveSet(a, []) == {}
  {
  }

  lemma AddrCons(a: int, bs: seq<Block>, i: nat)
    requires i < |bs|
    ensures Addr(a, bs, i + 1) == Addr(a + bs[0].size, bs[1..], i)
  {
    assert bs[..i + 1] == [bs[0]] + bs[1..][..i];
    SpanConcat([bs[0]], bs[1..][..i]);
    assert Span([bs[0]]) == bs[0].size + Span([bs[0]][1..]);
  }

  lemma LiveCons(a: int, bs: seq<Block>)
    requires bs != []
    ensures LiveSet(a, bs) == (if bs[0].free then {} else {(a, bs[0].size)}) + LiveSet(a + bs[0].size, bs[1..])
  {
    hide Addr;
    var rest := LiveSet(a + bs[0].size, bs[1..]);
    FirstAddr(a, bs);
    forall e | e in LiveSet(a, bs) ensures e in rest || (!bs[0].free && e == (a, bs[0].size)) {
      var i :| 0 <= i < |bs| && !bs[i].free && e == (Addr(a, bs, i), bs[i].size);
      if i > 0 {
        AddrCons(a, bs, i - 1);
        assert bs[1..][i - 1] == bs[i];
      }
    }
    forall e | e in rest ensures e in LiveSet(a, bs) {
      var i :| 0 <= i < |bs[1..]| && !bs[1..][i].free && e == (Addr(a + bs[0].size, bs[1..], i), bs[1..][i].size);
      AddrCons(a, bs, i);
      assert bs[i + 1] == bs[1..][i];
    }
  }

  lemma FirstAddr(a: int, bs: seq<Block>)
    ensures Addr(a, bs, 0) == a
  {
  }

  lemma {:induction false} LiveConcat(a: int, xs: seq<Block>, ys: seq<Block>)
    ensures LiveSet(a, xs + ys) == LiveSet(a, xs) + LiveSet(a + Span(xs), ys)
    decreases |xs|
  {
    hide LiveSet;
    if xs == [] {
      LiveNone(a);
      assert xs + ys == ys;
    } else {
      assert (xs + ys)[1..] == xs[1..] + ys && (xs + ys)[0] == xs[0];
      LiveCons(a, xs + ys);
      LiveCons(a, xs);
      LiveConcat(a + xs[0].size, xs[1..], ys);
    }
  }

  /** Live blocks lie between the ends of the heap. */
  lemma {:induction false} LiveRange(a: int, bs: seq<Block>)
    requires AllSizes(bs)
    ensures 0 <= Span(bs)
    ensures forall e :: e in LiveSet(a, bs) ==> a <= e.0 && e.0 + e.1 <= a + Span(bs) && 0 < e.1
    decreases |bs|
  {
    hide LiveSet;
    if bs == [] {
      LiveNone(a);
    } else {
      assert bs[0] in bs;
      LiveCons(a, bs);
      LiveRange(a + bs[0].size, bs[1..]);
    }
  }

  lemma LiveOne(a: int, b: Block)
    ensures LiveSet(a, [b]) == (if b.free then {} else {(a, b.size)}) && Span([b]) == b.size
  {
    hide LiveSet;
    LiveCons(a, [b]);
    LiveNone(a + b.size);
    assert [b][1..] == [];
  }

  lemma LiveThree(a: int, xs: seq<Block>, mid: seq<Block>, ys: seq<Block>)
    ensures LiveSet(a, xs + mid + ys)
            == LiveSet(a, xs) + LiveSet(a + Span(xs), mid) + LiveSet(a + Span(xs) + Span(mid), ys)
  {
    hide LiveSet;
    LiveConcat(a, xs + mid, ys);
    LiveConcat(a, xs, mid);
    SpanConcat(xs, mid);
  }

  // ----- free

  /** free takes exactly its block out of the live ones, whatever it merges it with. */
  lemma CoalesceLive(a: int, bs: seq<Block>, i: nat)
    requires AllSizes(bs) && i < |bs|
    ensures LiveSet(a, Coalesce(bs, i)) == LiveSet(a, bs) - {(Addr(a, bs, i), bs[i].size)}
  {
    hide LiveSet, JoinNext, JoinPrev;
    var xs, b, ys := bs[..i], bs[i], bs[i + 1..];
    assert b in bs;
    var p, q := a + Span(xs), a + Span(xs) + b.size;
    Middle(bs, i);
    LiveThree(a, xs, [b], ys);
    LiveOne(p, b);
    JoinNextLive(p, b, ys);
    JoinPrevLive(a, xs, JoinNext(b, ys));
    LiveRange(a, xs);
    LiveRange(q, ys);
  }

  lemma {:induction false} AddrStrict(a: int, bs: seq<Block>, i: nat, j: nat)
    requires AllSizes(bs) && i < j <= |bs|
    ensures Addr(a, bs, i) < Addr(a, bs, j)
    decreases j
  {
    assert bs[..j] == bs[..j - 1] + [bs[j - 1]] && bs[j - 1] in bs;
    SpanConcat(bs[..j - 1], [bs[j - 1]]);
    LiveOne(a, bs[j - 1]);
    hide Span;
    if i < j - 1 {
      AddrStrict(a, bs, i, j - 1);
    }
  }

  /** With its block taken out, no live block is left at the address. */
  lemma GoneFrom(a: int, bs: seq<Block>, i: nat, ds: seq<Block>)
    requires AllSizes(bs) && i < |bs| && LiveSet(a, ds) == LiveSet(a, bs) - {(Addr(a, bs, i), bs[i].size)}
    ensures forall k :: 0 <= k < |ds| && !ds[k].free ==> Addr(a, ds, k) != Addr(a, bs, i)
  {
    hide Addr, AllSizes;
    forall k | 0 <= k < |ds| && !ds[k].free ensures Addr(a, ds, k) != Addr(a, bs, i) {
      var e := (Addr(a, ds, k), ds[k].size);
      assert e in LiveSet(a, ds);
      var j :| 0 <= j < |bs| && !bs[j].free && e == (Addr(a, bs, j), bs[j].size);
      if j < i {
        AddrStrict(a, bs, j, i);
      } else if i < j {
        AddrStrict(a, bs, i, j);
      }
    }
  }

  lemma JoinNextLive(p: int, b: Block, ys: seq<Block>)
    ensures LiveSet(p, JoinNext(b, ys)) == LiveSet(p + b.size, ys) && JoinNext(b, ys)[0].free
  {
    hide LiveSet;
    var zs := JoinNext(b, ys);
    LiveCons(p, zs);
    if ys != [] && ys[0].free {
      LiveCons(p + b.size, ys);
      assert zs[1..] == ys[1..];
    } else {
      assert zs[1..] == ys;
    }
  }

  lemma JoinPrevLive(a: int, xs: seq<Block>, zs: seq<Block>)
    requires zs != [] && zs[0].free
    ensures LiveSet(a, JoinPrev(xs, zs)) == LiveSet(a, xs) + LiveSet(a + Span(xs), zs)
  {
    hide LiveSet;
    LiveConcat(a, xs, zs);
    if xs != [] && xs[|xs| - 1].free {
      var front, l := xs[..|xs| - 1], xs[|xs| - 1];
      var m := Block(l.size + zs[0].size, true);
      assert xs == front + [l] && zs == [zs[0]] + zs[1..];
      DropLastSpan(xs);
      LiveConcat(a, front, [l]);
      LiveOne(a + Span(front), l);
      LiveCons(a + Span(xs), zs);
      LiveThree(a, front, [m], zs[1..]);
      LiveOne(a + Span(front), m);
    }
  }

  /** Neither trim touches a live block. */
  lemma TrimLive(a: int, cs: seq<Block>)
    ensures LiveSet(a, Trim(cs)) == LiveSet(a, cs) == LiveSet(a, TrimKeepingTags(cs))
  {
    hide LiveSet;
    if cs != [] && cs[|cs| - 1].free {
      var front := cs[..|cs| - 1];
      TailLive(a, front, cs[|cs| - 1].size);
      assert cs == front + [Block(cs[|cs| - 1].size, true)];
      TailLive(a, front, cs[|cs| - 1].size % PAGE);
      TailLive(a, front, cs[|cs| - 1].size - PagesToRelease(cs[|cs| - 1].size) * PAGE);
    }
  }

  lemma TailLive(a: int, front: seq<Block>, s: int)
    ensures LiveSet(a, front + [Block(s, true)]) == LiveSet(a, front)
  {
    hide LiveSet;
    LiveConcat(a, front, [Block(s, true)]);
    LiveOne(a + Span(front), Block(s, true));
  }

  // ----- malloc

  /** malloc adds exactly one live block, at an address no live block had. */
  lemma AllocAdds(a: int, bs: seq<Block>, total: int)
    requires AllSizes(bs) && 2 * TAG < total
    ensures var i, cs := FirstFit(bs, total), Alloc(bs, total);
            && i < |cs| && LiveSet(a, cs) == LiveSet(a, bs) + {(Addr(a, cs, i), cs[i].size)}
            && (forall e :: e in LiveSet(a, bs) ==> e.0 + e.1 <= Addr(a, cs, i) || Addr(a, cs, i) + cs[i].size <= e.0)
  {
    hide LiveSet, FirstFit;
    AllocWaste(bs, total);
    var i, cs := FirstFit(bs, total), Alloc(bs, total);
    if i < |bs| {
      var xs, ys := bs[..i], bs[i + 1..];
      var p := a + Span(xs);
      Middle(bs, i);
      LiveThree(a, xs, [bs[i]], ys);
      LiveOne(p, bs[i]);
      CarveLive(p, bs[i], total);
      LiveThree(a, xs, Carve(bs[i], total), ys);
      LiveRange(a, xs);
      LiveRange(p + bs[i].size, ys);
      assert cs[i] == Carve(bs[i], total)[0] && cs[..i] == xs;
    } else {
      var b := Block(PagesFor(total) * PAGE, false);
      LiveConcat(a, bs, [b]);
      LiveOne(a + Span(bs), b);
      LiveRange(a, bs);
      assert cs[..i] == bs;
    }
  }

  /** The page the first malloc starts from has no live block, like the heap before it. */
  lemma FirstUnused(a: int)
    ensures LiveSet(a, FIRST) == {} == LiveSet(a, []) && AllSizes(FIRST)
  {
  }

  lemma CarveLive(p: int, b: Block, total: int)
    requires 0 < total <= b.size
    ensures Carve(b, total) != [] && 0 < Carve(b, total)[0].size <= b.size
    ensures LiveSet(p, Carve(b, total)) == {(p, Carve(b, total)[0].size)} && Span(Carve(b, total)) == b.size
  {
    hide LiveSet;
    var c := Carve(b, total);
    CarveSpan(b, total);
    LiveCons(p, c);
    if |c| == 2 {
      assert c[1..] == [c[1]];
      LiveOne(p + c[0].size, c[1]);
    } else {
      assert c[1..] == [];
      LiveNone(p + c[0].size);
    }
  }

  // ----- the live blocks determine the heap

  /** Two lists for the same live blocks, merged and trimmed, that end a whole number of pages apart. */
  ghost predicate Alike(a: int, bs: seq<Block>, cs: seq<Block>, keeping: bool) {
    && AllSizes(bs) && AllSizes(cs) && Coalesced(bs) && Coalesced(cs) && Trimmed(bs, keeping) && Trimmed(cs, keeping)
    && (Span(bs) - Span(cs)) % PAGE == 0 && LiveSet(a, bs) == LiveSet(a, cs)
  }

  lemma OnlyTail(a: int, b: Block, keeping: bool)
    requires 2 * TAG <= b.size && b.free && Trimmed([b], keeping)
    ensures Span([b]) == b.size && b.size % PAGE != 0
    ensures keeping ==> PagesToRelease(b.size) == 0
    ensures !keeping ==> b.size < PAGE
  {
    assert Span([b]) == b.size + Span([b][1..]);
    SettledTail([b]);
  }

  /** What follows a free block is live: where it starts is where the free one ends. */
  lemma AfterFree(a: int, bs: seq<Block>)
    requires AllSizes(bs) && Coalesced(bs) && bs != [] && bs[0].free
    ensures forall e :: e in LiveSet(a, bs) ==> a + bs[0].size <= e.0
    ensures if |bs| == 1 then LiveSet(a, bs) == {} else (a + bs[0].size, bs[1].size) in LiveSet(a, bs)
  {
    hide LiveSet;
    assert bs[0] in bs;
    LiveCons(a, bs);
    LiveRange(a + bs[0].size, bs[1..]);
    if |bs| == 1 {
      LiveNone(a + bs[0].size);
      assert bs[1..] == [];
    } else {
      assert !(bs[0].free && bs[0 + 1].free);
      LiveCons(a + bs[0].size, bs[1..]);
    }
  }

  lemma AtLive(a: int, bs: seq<Block>)
    requires AllSizes(bs) && bs != [] && !bs[0].free
    ensures (a, bs[0].size) in LiveSet(a, bs)
    ensures forall e :: e in LiveSet(a, bs) && e != (a, bs[0].size) ==> a + bs[0].size <= e.0
  {
    hide LiveSet;
    assert bs[0] in bs;
    LiveCons(a, bs);
    LiveRange(a + bs[0].size, bs[1..]);
  }

  lemma EmptyAlike(a: int, bs: seq<Block>, cs: seq<Block>, keeping: bool)
    requires Alike(a, bs, cs, keeping) && (bs == [] || cs == [])
    ensures bs == cs
  {
    hide LiveSet, Trimmed, Coalesced;
    LiveNone(a);
    var ds := if bs == [] then cs else bs;
    if ds != [] {
      assert ds[0] in ds;
      if ds[0].free {
        AfterFree(a, ds);
        assert ds == [ds[0]];
        OnlyTail(a, ds[0], keeping);
        assert Span(bs) - Span(cs) == ds[0].size || Span(bs) - Span(cs) == 0 - ds[0].size;
        assert false;
      } else {
        AtLive(a, ds);
        assert false;
      }
    }
  }

  lemma SameFirst(a: int, bs: seq<Block>, cs: seq<Block>, keeping: bool)
    requires Alike(a, bs, cs, keeping) && bs != [] && cs != []
    ensures bs[0] == cs[0]
  {
    hide LiveSet, Trimmed, Coalesced, Span;
    assert bs[0] in bs && cs[0] in cs;
    if bs[0].free {
      AfterFree(a, bs);
    } else {
      AtLive(a, bs);
    }
    if cs[0].free {
      AfterFree(a, cs);
    } else {
      AtLive(a, cs);
    }
    if bs[0].free && cs[0].free && |bs| == 1 {
      assert bs == [bs[0]] && cs == [cs[0]];
      OnlyTail(a, bs[0], keeping);
      OnlyTail(a, cs[0], keeping);
      SameResidue(bs[0].size, cs[0].size, keeping);
    }
  }

  lemma SameResidue(s: int, t: int, keeping: bool)
    requires 2 * TAG <= s && 2 * TAG <= t && (s - t) % PAGE == 0 && s % PAGE != 0
    requires if keeping then PagesToRelease(s) == 0 && PagesToRelease(t) == 0 else s < PAGE && t < PAGE
    ensures s == t
  {
    assert s % PAGE == t % PAGE;
  }

  lemma AlikeRest(a: int, bs: seq<Block>, cs: seq<Block>, keeping: bool)
    requires Alike(a, bs, cs, keeping) && bs != [] && cs != [] && bs[0] == cs[0]
    ensures Alike(a + bs[0].size, bs[1..], cs[1..], keeping)
  {
    hide LiveSet, Trimmed, Coalesced, AllSizes;
    RestLive(a, bs);
    RestLive(a, cs);
    RestBlocks(bs);
    RestBlocks(cs);
    RestTrimmed(bs, keeping);
    RestTrimmed(cs, keeping);
  }

  lemma RestLive(a: int, bs: seq<Block>)
    requires AllSizes(bs) && bs != []
    ensures LiveSet(a + bs[0].size, bs[1..]) == LiveSet(a, bs) - {(a, bs[0].size)}
  {
    hide LiveSet;
    assert bs[0] in bs;
    LiveCons(a, bs);
    LiveRange(a + bs[0].size, bs[1..]);
  }

  lemma RestBlocks(bs: seq<Block>)
    requires AllSizes(bs) && Coalesced(bs) && bs != []
    ensures AllSizes(bs[1..]) && Coalesced(bs[1..])
  {
    assert forall k :: 0 <= k < |bs| - 1 ==> bs[1..][k] == bs[k + 1];
  }

  lemma RestTrimmed(bs: seq<Block>, keeping: bool)
    requires Trimmed(bs, keeping) && bs != []
    ensures Trimmed(bs[1..], keeping)
  {
    SettledTail(bs);
    SettledTail(bs[1..]);
  }

  lemma {:induction false} AlikeEqual(a: int, bs: seq<Block>, cs: seq<Block>, keeping: bool)
    requires Alike(a, bs, cs, keeping)
    ensures bs == cs
    decreases |bs| + |cs|
  {
    hide LiveSet, Span, Coalesced, Trimmed;
    if bs == [] || cs == [] {
      EmptyAlike(a, bs, cs, keeping);
    } else {
      SameFirst(a, bs, cs, keeping);
      AlikeRest(a, bs, cs, keeping);
      AlikeEqual(a + bs[0].size, bs[1..], cs[1..], keeping);
      assert bs == [bs[0]] + bs[1..] && cs == [cs[0]] + cs[1..];
    }
  }

  /** The theorem: between calls the block list is nothing but the live blocks, the gaps between them,
      and what is left of the last page. */
  lemma LiveDetermines(a: int, bs: seq<Block>, cs: seq<Block>, keeping: bool)
    requires Sound(bs) && Sound(cs) && Trimmed(bs, keeping) && Trimmed(cs, keeping)
    requires LiveSet(a, bs) == LiveSet(a, cs)
    ensures bs == cs
  {
    hide LiveSet, Span, Coalesced, Trimmed;
    assert (Span(bs) - Span(cs)) % PAGE == 0;
    AlikeEqual(a, bs, cs, keeping);
  }
}
