/** The loops of boot, fork, exit and dyn_mem on values: closed forms, what each round of a loop adds to
    them, fork put together from its loops, and the state boot leaves. */
module FrameLoops {
  import opened Params
  import opened FrameModel
  import opened FrameSteps
  import opened ForkSteps
  import opened FrameRuns

  // ----- closed forms of fork's copy loops

  /** The contents after copying frame `srcs[i]` to frame `dsts[i]`, one after the other. */
  ghost function CopyAll(data: seq<Page>, srcs: seq<nat>, dsts: seq<nat>): (r: seq<Page>)
    requires |data| == TOTAL_PAGES && |srcs| == |dsts|
    requires forall i :: 0 <= i < |srcs| ==> srcs[i] < TOTAL_PAGES && dsts[i] < TOTAL_PAGES
    ensures |r| == TOTAL_PAGES
    decreases |srcs|
  {
    if srcs == [] then data
    else
      var n := |srcs| - 1;
      var r := CopyAll(data, srcs[..n], dsts[..n]);
      r[dsts[n] := r[srcs[n]]]
  }

  lemma CopyAllSpec(data: seq<Page>, srcs: seq<nat>, dsts: seq<nat>)
    requires |data| == TOTAL_PAGES && |srcs| == |dsts|
    requires forall i :: 0 <= i < |srcs| ==> srcs[i] < TOTAL_PAGES && dsts[i] < TOTAL_PAGES
    requires forall i :: 0 <= i < |srcs| ==> srcs[i] !in dsts
    requires forall i, j :: 0 <= i < j < |dsts| ==> dsts[i] != dsts[j]
    ensures forall i :: 0 <= i < |srcs| ==> CopyAll(data, srcs, dsts)[dsts[i]] == data[srcs[i]]
    ensures forall g :: 0 <= g < TOTAL_PAGES && g !in dsts ==> CopyAll(data, srcs, dsts)[g] == data[g]
  {
    forall i | 0 <= i < |srcs| ensures CopyAll(data, srcs, dsts)[dsts[i]] == data[srcs[i]] {
      CopyAllAt(data, srcs, dsts, i);
    }
    forall g | 0 <= g < TOTAL_PAGES && g !in dsts ensures CopyAll(data, srcs, dsts)[g] == data[g] {
      CopyAllElse(data, srcs, dsts, g);
    }
  }

  lemma {:induction false} CopyAllElse(data: seq<Page>, srcs: seq<nat>, dsts: seq<nat>, g: nat)
    requires |data| == TOTAL_PAGES && |srcs| == |dsts|
    requires forall i :: 0 <= i < |srcs| ==> srcs[i] < TOTAL_PAGES && dsts[i] < TOTAL_PAGES
    requires g < TOTAL_PAGES && g !in dsts
    ensures CopyAll(data, srcs, dsts)[g] == data[g]
    decreases |srcs|
  {
    if srcs != [] {
      var n := |srcs| - 1;
      assert dsts[n] in dsts;
      CopyAllElse(data, srcs[..n], dsts[..n], g);
    }
  }

  lemma {:induction false} CopyAllAt(data: seq<Page>, srcs: seq<nat>, dsts: seq<nat>, i: nat)
    requires |data| == TOTAL_PAGES && |srcs| == |dsts| && i < |srcs|
    requires forall i :: 0 <= i < |srcs| ==> srcs[i] < TOTAL_PAGES && dsts[i] < TOTAL_PAGES
    requires srcs[i] !in dsts && forall i, j :: 0 <= i < j < |dsts| ==> dsts[i] != dsts[j]
    ensures CopyAll(data, srcs, dsts)[dsts[i]] == data[srcs[i]]
    decreases |srcs|
  {
    var n := |srcs| - 1;
    if i == n {
      CopyAllElse(data, srcs[..n], dsts[..n], srcs[n]);
    } else {
      CopyAllAt(data, srcs[..n], dsts[..n], i);
    }
  }

  /** A table after fork took the entries from `lo` up to `hi` over from the parent's. */
  function Shared(pt: seq<Entry>, parent: seq<Entry>, lo: nat, hi: nat): (r: seq<Entry>)
    requires |pt| == |parent|
    ensures |r| == |pt|
  {
    seq(|pt|, p requires 0 <= p < |pt| => if lo <= p < hi then Present(FrameOf(parent[p])) else pt[p])
  }

  lemma ChildTableFilled(pt: seq<Entry>, parent: seq<Entry>, fs: seq<nat>, h: nat)
    requires |pt| == |parent| == TOTAL_PAGES && |fs| == NUM_PAG_DATA + h
    ensures var shared := Shared(Shared(pt, parent, 0, NUM_PAG_KERNEL), parent, CODE, CODE + NUM_PAG_CODE);
            MapRange(MapRange(shared, DATA, fs[..NUM_PAG_DATA]), HEAP, fs[NUM_PAG_DATA..]) ==
                ChildTable(pt, parent, fs, h)
  {
    var shared := Shared(Shared(pt, parent, 0, NUM_PAG_KERNEL), parent, CODE, CODE + NUM_PAG_CODE);
    var r := MapRange(MapRange(shared, DATA, fs[..NUM_PAG_DATA]), HEAP, fs[NUM_PAG_DATA..]);
    forall p | 0 <= p < TOTAL_PAGES ensures r[p] == ChildTable(pt, parent, fs, h)[p] {
    }
  }

  ghost predicate EmptyFrom(pt: seq<Entry>, start: nat) {
    forall p :: start <= p < |pt| ==> pt[p] == Absent
  }

  /** Every cached translation is what the table says. */
  ghost predicate Exact(tlb: map<nat, nat>, pt: seq<Entry>) {
    forall p :: p in tlb ==> p < |pt| && pt[p] == Present(tlb[p])
  }

  /** What a page translates to: the cached frame first. */
  ghost function Target(tlb: map<nat, nat>, pt: seq<Entry>, page: nat): nat
    requires page < |pt|
  {
    if page in tlb then tlb[page] else FrameOf(pt[page])
  }

  ghost predicate Translates(tlb: map<nat, nat>, pt: seq<Entry>, page: nat)
    requires page < |pt|
  {
    (page in tlb || pt[page].Present?) && Target(tlb, pt, page) < TOTAL_PAGES
  }

  /** The pages to copy are mapped in both tables, and no cached translation of one is stale. */
  ghost predicate Copyable(tlb: map<nat, nat>, parent: seq<Entry>, child: seq<Entry>, start: nat, n: nat)
    requires |parent| == |child| == TOTAL_PAGES
  {
    && start + n <= TOTAL_PAGES
    && (forall p :: start <= p < start + n ==>
          && parent[p].Present? && parent[p].frame < TOTAL_PAGES && child[p].Present? && child[p].frame < TOTAL_PAGES
          && Target(tlb, parent, p) == parent[p].frame)
    && (forall p :: p in tlb && p >= DATA ==> tlb[p] < TOTAL_PAGES)
  }

  /** What `k` rounds of a copy loop add to the TLB: true translations of the pages they read, and
      those of the window pages they used. */
  ghost predicate CachedBy(was: map<nat, nat>, tlb: map<nat, nat>, parent: seq<Entry>, start: nat, n: nat,
                           offset: nat, k: nat)
  {
    && (forall p :: p in tlb ==>
          || (p in was && tlb[p] == was[p])
          || (start <= p < start + n && p < |parent| && tlb[p] == FrameOf(parent[p]))
          || start + offset <= p < start + offset + k)
    && (forall p :: p in tlb && p >= DATA ==> tlb[p] < TOTAL_PAGES)
  }

  /** Growing touches phys_mem, one table and one counter. */
  lemma GrownBy(v: View, d: nat, z: nat, fs: seq<nat>)
    requires d < |v.pt| && z < |v.zones| && 0 <= v.zones[z]
    ensures Grown(v, d, z, fs) ==
            v.(phys := Mark(v.phys, fs, true), pt := v.pt[d := MapRange(v.pt[d], HEAP + v.zones[z], fs)])
             .(zones := v.zones[z := v.zones[z] + |fs|])
  {
  }

  lemma SharedNone(pt: seq<Entry>, parent: seq<Entry>, lo: nat)
    requires |pt| == |parent|
    ensures Shared(pt, parent, lo, lo) == pt
  {
  }

  lemma SharedOneMore(pt: seq<Entry>, parent: seq<Entry>, lo: nat, hi: nat)
    requires |pt| == |parent| && lo <= hi < |pt|
    ensures Shared(pt, parent, lo, hi)[hi := Present(FrameOf(parent[hi]))] == Shared(pt, parent, lo, hi + 1)
  {
  }

  lemma MapNext(pt: seq<Entry>, start: nat, fs: seq<nat>, i: nat)
    requires i < |fs| && start + |fs| <= |pt|
    ensures MapRange(pt, start, fs[..i])[start + i := Present(fs[i])] == MapRange(pt, start, fs[..i + 1])
  {
  }

  lemma NoneLeft(phys: seq<bool>, fs: seq<nat>)
    ensures Mark(phys, fs[|fs|..], true) == phys
  {
  }

  /** exit in its two outcomes, and the frames its loops free. */
  lemma ExitedBy(v: View, t: nat)
    requires Shaped(v) && Sized(v, t) && v.refs[v.users[t]] >= 1
    requires forall p :: OwnPage(v.zones[v.myHeap[t]], p) ==>
               v.pt[v.users[t]][p].Present? && FIRST_USER_FRAME <= FrameOf(v.pt[v.users[t]][p]) < TOTAL_PAGES
    ensures var d, h := v.users[t], v.zones[v.myHeap[t]];
            var v1 := v.(refs := v.refs[d := v.refs[d] - 1]);
            var data, pt1 := FramesIn(v.pt[d], DATA, DATA + NUM_PAG_DATA),
                UnmapRange(v.pt[d], DATA, DATA + NUM_PAG_DATA);
            var heap := FramesIn(pt1, HEAP, HEAP + h);
            && d < NR_TASKS && 0 <= h && HEAP + h <= TOTAL_PAGES && |v.users| == |v.pt| == |v.refs| == NR_TASKS &&
                |v.pt[d]| == TOTAL_PAGES
            && (forall i :: 0 <= i < NUM_PAG_DATA ==> NUM_PAG_KERNEL < data[i] < TOTAL_PAGES)
            && (forall i :: 0 <= i < h ==> NUM_PAG_KERNEL < heap[i] < TOTAL_PAGES)
            && Exited(v, t) == if v.refs[d] > 1 then v1.(users := v.users[t := -1])
                               else v1.(phys := Mark(Mark(v.phys, data, false), heap, false),
                                   pt := v.pt[d := UnmapRange(pt1, HEAP, HEAP + h)],
                                        users := v.users[t := -1])
  {
    var d, h := v.users[t], v.zones[v.myHeap[t]];
    HeapStill(v.pt[d], h);
    MarkTwice(v.phys, FramesIn(v.pt[d], DATA, DATA + NUM_PAG_DATA), FramesIn(v.pt[d], HEAP, HEAP + h));
    hide Mark, UnmapRange;
    var data, heap := FramesIn(v.pt[d], DATA, DATA + NUM_PAG_DATA), FramesIn(v.pt[d], HEAP, HEAP + h);
    forall i | 0 <= i < NUM_PAG_DATA ensures NUM_PAG_KERNEL < data[i] < TOTAL_PAGES {
      assert OwnPage(h, DATA + i);
    }
    forall i | 0 <= i < h ensures NUM_PAG_KERNEL < heap[i] < TOTAL_PAGES {
      assert OwnPage(h, HEAP + i);
    }
  }

  lemma MarkTwice(phys: seq<bool>, a: seq<nat>, b: seq<nat>)
    ensures Mark(Mark(phys, a, false), b, false) == Mark(phys, a + b, false)
  {
    assert forall f :: f in a + b <==> f in a || f in b;
  }

  lemma HeapStill(pt: seq<Entry>, h: nat)
    requires |pt| == TOTAL_PAGES && HEAP + h <= TOTAL_PAGES
    ensures FramesIn(UnmapRange(pt, DATA, DATA + NUM_PAG_DATA), HEAP, HEAP + h) == FramesIn(pt, HEAP, HEAP + h)
  {
  }

  // ----- the copy loops of fork on values

  ghost predicate CanCopy(tlb: map<nat, nat>, v: View, d: int, c: int, start: nat, n: nat, offset: nat) {
    && Shaped(v) && 0 <= d < NR_TASKS && 0 <= c < NR_TASKS && d != c && n <= offset && DATA <= start &&
        start + offset + n <= TOTAL_PAGES
    && Copyable(tlb, v.pt[d], v.pt[c], start, n)
  }

  /** After `k` rounds the window pages used are absent, and the frames hold what was copied if none of
      them was cached before. */
  ghost predicate RegionCopied(was: map<nat, nat>, v: View, d: int, c: int, start: nat, n: nat, offset: nat, k: nat,
                               tlb: map<nat, nat>, v': View) {
    && CanCopy(was, v, d, c, start, n, offset) && k <= n && |v'.data| == TOTAL_PAGES
    && v' == v.(pt := v.pt[d := UnmapRange(v.pt[d], start + offset, start + offset + k)], data := v'.data)
    && CachedBy(was, tlb, v.pt[d], start, n, offset, k)
    && ((forall q :: start + offset <= q < start + offset + n ==> q !in was) ==>
          v'.data == CopyAll(v.data, FramesIn(v.pt[d], start, start + n)[..k],
              FramesIn(v.pt[c], start, start + n)[..k]))
  }

  lemma CopyStart(tlb: map<nat, nat>, v: View, d: nat, c: nat, start: nat, n: nat, offset: nat)
    requires CanCopy(tlb, v, d, c, start, n, offset)
    ensures RegionCopied(tlb, v, d, c, start, n, offset, 0, tlb, v)
  {
    UnmapNone(v.phys, v.pt[d], start + offset);
    assert v.pt[d := v.pt[d]] == v.pt;
  }

  /** The two addresses of the next round translate, and as they should. */
  lemma CopyReady(was: map<nat, nat>, v: View, d: nat, c: nat, start: nat, n: nat, offset: nat, i: nat,
                  tlb: map<nat, nat>, v': View)
    requires RegionCopied(was, v, d, c, start, n, offset, i, tlb, v') && i < n
    ensures d < NR_TASKS && c < NR_TASKS && d != c && 0 < offset && start + i + offset < TOTAL_PAGES
    ensures Shaped(v')
    ensures var p, w := start + i, start + i + offset;
            var pt := v'.pt[d][w := Present(FrameOf(v'.pt[c][p]))];
            && Translates(tlb, pt, p) && Translates(tlb, pt, w)
            && Target(tlb, pt, p) == FrameOf(v.pt[d][p]) && (w !in was ==> Target(tlb, pt, w) == FrameOf(v.pt[c][p]))
  {
    hide CopyAll;
  }

  lemma CopyStep(was: map<nat, nat>, v: View, d: nat, c: nat, start: nat, n: nat, offset: nat, i: nat,
                 tlb: map<nat, nat>, v': View, tlb'': map<nat, nat>, v'': View)
    requires RegionCopied(was, v, d, c, start, n, offset, i, tlb, v') && i < n
    requires d < NR_TASKS && c < NR_TASKS && d != c && 0 < offset && start + i + offset < TOTAL_PAGES &&
             Shaped(v') && Shaped(v'')
    requires var p, w := start + i, start + i + offset;
             var pt := v'.pt[d][w := Present(FrameOf(v'.pt[c][p]))];
             && Translates(tlb, pt, p) && Translates(tlb, pt, w)
             && v'' == v'.(pt := v'.pt[d := v'.pt[d][w := Absent]],
                 data := v'.data[Target(tlb, pt, w) := v'.data[Target(tlb, pt, p)]])
             && tlb'' == tlb[p := Target(tlb, pt, p)][w := Target(tlb, pt, w)]
    ensures RegionCopied(was, v, d, c, start, n, offset, i + 1, tlb'', v'')
  {
    var p, w := start + i, start + i + offset;
    CopyReady(was, v, d, c, start, n, offset, i, tlb, v');
    UnmapNext(v.pt[d], start + offset, w);
    assert v.pt[d := v'.pt[d]][d := v'.pt[d][w := Absent]] == v.pt[d := v'.pt[d][w := Absent]];
    CopyAllNext(v.data, FramesIn(v.pt[d], start, start + n), FramesIn(v.pt[c], start, start + n), i);
    hide CopyAll, UnmapRange;
    CopyCached(was, tlb, v.pt[d], start, n, offset, i, FrameOf(v.pt[d][p]), tlb''[w]);
  }

  lemma CopyCached(was: map<nat, nat>, tlb: map<nat, nat>, parent: seq<Entry>, start: nat, n: nat, offset: nat,
                   i: nat, src: nat, dst: nat)
    requires CachedBy(was, tlb, parent, start, n, offset, i) && i < n && start + n <= |parent|
    requires src == FrameOf(parent[start + i]) && src < TOTAL_PAGES && dst < TOTAL_PAGES
    ensures CachedBy(was, tlb[start + i := src][start + i + offset := dst], parent, start, n, offset, i + 1)
  {
  }

  lemma CopyAllNext(data: seq<Page>, srcs: seq<nat>, dsts: seq<nat>, i: nat)
    requires |data| == TOTAL_PAGES && |srcs| == |dsts| && i < |srcs|
    requires forall k :: 0 <= k < |srcs| ==> srcs[k] < TOTAL_PAGES && dsts[k] < TOTAL_PAGES
    ensures var r := CopyAll(data, srcs[..i], dsts[..i]);
            CopyAll(data, srcs[..i + 1], dsts[..i + 1]) == r[dsts[i] := r[srcs[i]]]
  {
    assert srcs[..i + 1][..i] == srcs[..i] && dsts[..i + 1][..i] == dsts[..i];
  }

  lemma NoneMapped(phys: seq<bool>, pt: seq<Entry>, start: nat)
    requires |phys| == TOTAL_PAGES
    ensures Grab(phys, 0) == [] && Mark(phys, [], true) == phys && MapRange(pt, start, []) == pt
  {
  }

  lemma MarkOneMore(phys: seq<bool>, fs: seq<nat>, f: nat)
    requires f < |phys|
    ensures Mark(phys, fs, true)[f := true] == Mark(phys, fs + [f], true)
  {
  }

  lemma MapOneMore(pt: seq<Entry>, start: nat, fs: seq<nat>, f: nat)
    requires start + |fs| < |pt|
    ensures MapRange(pt, start, fs)[start + |fs| := Present(f)] == MapRange(pt, start, fs + [f])
  {
  }

  /** Mapping pages that were absent leaves every other translation as it was. */
  lemma StillMapped(pt: seq<Entry>, start: nat, fs: seq<nat>)
    requires start + |fs| <= |pt| && EmptyFrom(pt, start)
    ensures forall p :: 0 <= p < |pt| && pt[p].Present? ==> MapRange(pt, start, fs)[p] == pt[p]
  {
  }

  lemma UnmapNone(phys: seq<bool>, pt: seq<Entry>, start: nat)
    ensures UnmapRange(pt, start, start) == pt && Mark(phys, [], false) == phys
  {
  }

  lemma UnmapNext(pt: seq<Entry>, lo: nat, hi: nat)
    requires lo <= hi < |pt|
    ensures UnmapRange(pt, lo, hi)[hi := Absent] == UnmapRange(pt, lo, hi + 1)
  {
  }

  lemma UnmapOneMore(phys: seq<bool>, pt: seq<Entry>, fs: seq<nat>, lo: nat, hi: nat)
    requires lo <= hi < |pt| && hi - lo < |fs| && fs[hi - lo] < |phys|
    ensures UnmapRange(pt, lo, hi)[hi] == pt[hi]
    ensures UnmapRange(pt, lo, hi)[hi := Absent] == UnmapRange(pt, lo, hi + 1)
    ensures Mark(phys, fs[..hi - lo], false)[fs[hi - lo] := false] == Mark(phys, fs[..hi + 1 - lo], false)
  {
    assert fs[..hi + 1 - lo] == fs[..hi - lo] + [fs[hi - lo]];
  }

  lemma AllBack(phys: seq<bool>, pt: seq<Entry>, start: nat, fs: seq<nat>)
    requires start + |fs| <= |pt| && EmptyFrom(pt, start)
    ensures UnmapRange(MapRange(pt, start, fs), start, start + |fs|) == pt && Mark(phys, fs[|fs|..], true) == phys
  {
  }

  lemma GaveBack(phys: seq<bool>, fs: seq<nat>, j: nat)
    requires |phys| == TOTAL_PAGES && j < |fs| && Takeable(phys, fs[j]) && forall i :: j < i < |fs| ==> fs[j] != fs[i]
    ensures NUM_PAG_KERNEL < fs[j] < TOTAL_PAGES ==>
              Mark(phys, fs[j..], true)[NUM_PAG_KERNEL := true][fs[j] := false] ==
                  Mark(phys, fs[j + 1..], true)[NUM_PAG_KERNEL := true]
    ensures fs[j] == NUM_PAG_KERNEL ==>
              Mark(phys, fs[j..], true)[NUM_PAG_KERNEL := true] == Mark(phys, fs[j + 1..], true)[NUM_PAG_KERNEL := true]
  {
    assert fs[j..] == [fs[j]] + fs[j + 1..];
  }

  /** Once every frame is taken, the first one past the kernel's is. */
  lemma GrabbedAll(phys: seq<bool>, fs: seq<nat>)
    requires |phys| == TOTAL_PAGES && |fs| == FreeCount(phys) && fs == Grab(phys, |fs|)
    ensures forall i :: 0 <= i < |fs| ==> Takeable(phys, fs[i])
    ensures forall i, j :: 0 <= i < j < |fs| ==> fs[i] != fs[j]
    ensures Mark(phys, fs, true)[NUM_PAG_KERNEL := true] == Mark(phys, fs, true)
  {
    GrabDistinct(phys, |fs|);
    GrabAppend(phys, |fs|);
    assert Lowest(Mark(phys, fs, true)) == -1;
  }

  lemma FreeDirAt(refs: seq<int>, i: nat)
    requires i <= |refs| && (forall j :: 0 <= j < i ==> refs[j] > 0) && (i < |refs| ==> refs[i] <= 0)
    ensures FreeDir(refs) == i
  {
  }

  /** The pages a directory owns lie on frames beyond those of the kernel and the code. */
  lemma OwnFrames(v: View, t: nat)
    requires Shaped(v) && Sound(v) && 1 <= t < NR_TASKS && v.users[t] >= 2
    ensures Sized(v, t)
    ensures forall p :: OwnPage(v.zones[v.myHeap[t]], p) ==>
              v.pt[v.users[t]][p].Present? && FIRST_USER_FRAME <= FrameOf(v.pt[v.users[t]][p]) < TOTAL_PAGES
  {
    SoundSized(v, t);
    hide Sound;
    var owner := OwnerOf(v);
    hide Counts, Tables;
  }

  /** Above the heap of a user task its table is empty; the first frame past the kernel's is taken. */
  lemma AboveHeap(v: View, t: nat)
    requires Shaped(v) && Sound(v) && 1 <= t < NR_TASKS && v.users[t] >= 2
    ensures Sized(v, t) && v.phys[NUM_PAG_KERNEL]
    ensures HEAP + v.zones[v.myHeap[t]] + FreeCount(v.phys) <= TOTAL_PAGES
    ensures EmptyFrom(v.pt[v.users[t]], HEAP + v.zones[v.myHeap[t]])
  {
    SoundSized(v, t);
    hide Sound;
    var owner := OwnerOf(v);
    CodeUsed(v, owner);
    assert LiveTable(v.pt[v.users[t]], HeapOf(v, v.users[t]));
    CodeCases(NUM_PAG_KERNEL);
    GrabFresh(v, FreeCount(v.phys));
  }

  lemma SoundRefs(v: View, t: nat)
    requires Shaped(v) && Sound(v) && 1 <= t < NR_TASKS && v.users[t] >= 2
    ensures v.users[t] < NR_TASKS && v.refs[v.users[t]] >= 1
  {
    hide Sound;
    var owner := OwnerOf(v);
    hide Tables, Owned;
    LiveOfTask(v, t);
    LiveByRefs(v, v.users[t]);
  }

  // ----- fork put together

  ghost predicate CanFork(v: View, t: nat, f: nat) {
    && Shaped(v) && Sound(v) && 1 <= t < NR_TASKS && 2 <= v.users[t] < NR_TASKS && 1 <= f < NR_TASKS && v.users[f] == -1
    && FreeDir(v.refs) < NR_TASKS
  }

  /** The state once the child has its directory and its heap counter. */
  ghost function Started(v: View, t: nat, f: nat, own: bool): View
    requires Shaped(v) && t < NR_TASKS && f < NR_TASKS && FreeDir(v.refs) < NR_TASKS
  {
    var c := FreeDir(v.refs);
    v.(refs := v.refs[c := v.refs[c] + 1], zones := v.zones[c := if own then ForkHeap(v, t, c) else 0],
       users := v.users[f := c], myHeap := v.myHeap[f := if own then c else v.myHeap[t]])
  }

  /** fork is the call of the specification; it succeeds exactly when there are frames enough, and then
      leaves the TLB empty and every page of the parent's copied, unless it has zeroed its counter. */
  ghost predicate ForkResult(tlb: map<nat, nat>, v: View, t: nat, f: nat, own: bool, ok: bool,
                             tlb': map<nat, nat>, v': View) {
    && Shaped(v) && |v'.data| == TOTAL_PAGES && Possible(v, Fork(t, f, v'.data)) && Sized(v, t)
    && v' == After(v, Fork(t, f, v'.data), own) && (ok <==> Enough(v, Fork(t, f, v'.data)))
    && (!ok ==> tlb' == tlb && v'.data == v.data)
    && (ok ==> tlb' == map[] && Kept(v, ForkOf(v, Fork(t, f, v'.data), own)))
  }

  /** The child's frames hold what the parent's pages held, unless the parent's counter was zeroed. */
  ghost predicate Kept(v: View, k: Child)
    requires Shaped(v) && Bounded(v, k.t, k.c)
  {
    ForkHeap(v, k.t, k.c) == v.zones[v.myHeap[k.t]] ==>
      0 <= v.users[k.t] < NR_TASKS && PagesCopied(v, v.users[k.t], k.fs, k.data)
  }

  /** The writes of fork up to there, in order. */
  lemma StartedBy(v: View, t: nat, f: nat)
    requires Shaped(v) && t < NR_TASKS && f < NR_TASKS && t != f && FreeDir(v.refs) < NR_TASKS
    ensures |v.users| == |v.refs| == NR_TASKS
    ensures var c, h, z := FreeDir(v.refs), v.myHeap[t], v.zones;
            var u := v.users[f := v.users[t]][f := c];
            && u[f] == c && v.myHeap[f := h][f := c][t] == h && v.myHeap[f := h][f := c][f] == c
            && z[c := 0][h] == ForkHeap(v, t, c)
            && Started(v, t, f, false) == v.(users := u, refs := v.refs[c := v.refs[c] + 1], zones := z[c := 0],
                                             myHeap := v.myHeap[f := h][f := c][f := h])
            && Started(v, t, f, true) == v.(users := u, refs := v.refs[c := v.refs[c] + 1],
                                            zones := z[c := 0][c := ForkHeap(v, t, c)],
                                            myHeap := v.myHeap[f := h][f := c])
  {
    var c, h := FreeDir(v.refs), v.myHeap[t];
    assert v.users[f := v.users[t]][f := c] == v.users[f := c];
    assert v.myHeap[f := h][f := c][f := h] == v.myHeap[f := h];
    assert v.myHeap[f := h][f := c] == v.myHeap[f := c];
    assert v.zones[c := 0][c := ForkHeap(v, t, c)] == v.zones[c := ForkHeap(v, t, c)];
  }

  lemma StartedFacts(v: View, t: nat, f: nat, own: bool)
    requires CanFork(v, t, f)
    ensures Shaped(v) && t < NR_TASKS && f < NR_TASKS && t != f && FreeDir(v.refs) < NR_TASKS &&
            FreeDir(v.refs) != v.users[t] && 2 <= v.users[t] < NR_TASKS
    ensures var v1, c := Started(v, t, f, own), FreeDir(v.refs);
            && v1.zones[v1.myHeap[t]] == ForkHeap(v, t, c) && v1.phys == v.phys && v1.users[t] == v.users[t]
            && v1.users[f] == c
    ensures 0 <= ForkHeap(v, t, FreeDir(v.refs)) && HEAP + ForkHeap(v, t, FreeDir(v.refs)) <= TOTAL_PAGES
  {
    FreeDirIsUsers(v);
    SoundSized(v, t);
    SoundRefs(v, t);
  }

  /** A fork without frames enough: the frames are back, the PCB is free, and repaired the directory too. */
  lemma ForkFailed(tlb: map<nat, nat>, v: View, t: nat, f: nat, own: bool, v': View)
    requires CanFork(v, t, f) && NUM_PAG_DATA + ForkHeap(v, t, FreeDir(v.refs)) > FreeCount(v.phys)
    requires var v1, c := Started(v, t, f, own), FreeDir(v.refs);
             var v2 := v1.(phys := v1.phys[NUM_PAG_KERNEL := true]);
             v' == (if own then v2.(refs := v2.refs[c := v2.refs[c] - 1]) else v2).(users := v2.users[f := -1])
    ensures ForkResult(tlb, v, t, f, own, false, tlb, v')
  {
    AboveHeap(v, t);
    var c := FreeDir(v.refs);
    hide Sound, FreeCount, FreeDir;
    assert v.users[f := c][f := -1] == v.users;
    assert v.phys[NUM_PAG_KERNEL := true] == v.phys;
    assert v.refs[c := v.refs[c] + 1][c := v.refs[c]] == v.refs;
  }

  /** The state once the child's table is filled, before anything is copied. */
  ghost function Filled(v: View, k: Child): View
    requires Shaped(v) && Forkable(v, k)
  {
    var d, h := v.users[k.t], ForkHeap(v, k.t, k.c);
    v.(phys := Mark(v.phys, k.fs, true), pt := v.pt[k.c := ChildTable(v.pt[k.c], v.pt[d], k.fs, h)],
       refs := v.refs[k.c := v.refs[k.c] + 1], zones := v.zones[k.c := if k.own then h else 0],
       users := v.users[k.f := k.c], myHeap := v.myHeap[k.f := if k.own then k.c else v.myHeap[k.t]])
  }

  /** The state fork has reached once it holds the child's directory and frames. */
  ghost predicate ForkPlanned(v: View, k: Child, v': View) {
    && CanFork(v, k.t, k.f) && k.c == FreeDir(v.refs) && k.data == v.data && Bounded(v, k.t, k.c)
    && 0 <= ForkHeap(v, k.t, k.c) && NUM_PAG_DATA + ForkHeap(v, k.t, k.c) <= FreeCount(v.phys)
    && k.fs == Grab(v.phys, NUM_PAG_DATA + ForkHeap(v, k.t, k.c))
    && v' == Started(v, k.t, k.f, k.own).(phys := Mark(v.phys, k.fs, true))
  }

  lemma ForkIsPlanned(v: View, k: Child, v': View)
    requires CanFork(v, k.t, k.f) && k.c == FreeDir(v.refs) && k.data == v.data
    requires NUM_PAG_DATA + ForkHeap(v, k.t, k.c) <= FreeCount(v.phys) && 0 <= ForkHeap(v, k.t, k.c)
    requires k.fs == Grab(v.phys, NUM_PAG_DATA + ForkHeap(v, k.t, k.c))
    requires v' == Started(v, k.t, k.f, k.own).(phys := Mark(v.phys, k.fs, true))
    ensures ForkPlanned(v, k, v')
  {
    hide Sound, Grab, FreeCount, FreeDir, Mark;
  }

  lemma ThreadedBy(v: View, t: nat, f: nat)
    requires Shaped(v) && t < NR_TASKS && f < NR_TASKS && t != f && 0 <= v.users[t] < NR_TASKS
    ensures Threaded(v, t, f) == v.(users := v.users[f := v.users[t]]).(myHeap := v.myHeap[f := v.myHeap[t]])
                                  .(refs := v.refs[v.users[t] := v.refs[v.users[t]] + 1])
  {
  }

  lemma PlannedDir(v: View, k: Child, v': View)
    requires ForkPlanned(v, k, v')
    ensures v'.users[k.t] == v.users[k.t]
  {
  }

  lemma FilledAs(v: View, k: Child, v': View)
    requires ForkPlanned(v, k, v')
    ensures Forkable(v, k) && v'.pt == v.pt && k.c != v.users[k.t]
    ensures v'.(pt := v.pt[k.c := ChildTable(v.pt[k.c], v.pt[v.users[k.t]], k.fs, ForkHeap(v, k.t, k.c))]) ==
            Filled(v, k)
  {
    FreeDirIsUsers(v);
    SoundRefs(v, k.t);
    ForkableByGrab(v, k);
    hide Sound, FreeDir, Grab, FreeCount, Mark, ChildTable;
  }

  lemma ForkingFits(v: View, k: Child, tlb: map<nat, nat>, v': View)
    requires ForkPlanned(v, k, v') && Exact(tlb, v.pt[v.users[k.t]]) && Forkable(v, k)
    ensures Forking(v, k, tlb) && k.c < NR_TASKS && v.users[k.t] < NR_TASKS &&
            HEAP + ForkHeap(v, k.t, k.c) <= TOTAL_PAGES
  {
    SoundSized(v, k.t);
    hide Sound, FreeDir, Grab, FreeCount, Mark;
  }

  lemma CachedFrames(v: View, t: nat, tlb: map<nat, nat>)
    requires Shaped(v) && Sound(v) && 1 <= t < NR_TASKS && 2 <= v.users[t] < NR_TASKS && Exact(tlb, v.pt[v.users[t]])
    ensures forall p :: p in tlb && p >= DATA ==> tlb[p] < TOTAL_PAGES
  {
    hide Sound;
    var owner := OwnerOf(v);
    LiveOfTask(v, t);
    var d := v.users[t];
    assert LiveTable(v.pt[d], HeapOf(v, d));
    OwnFrames(v, t);
    hide Sound, Good;
    forall p | p in tlb && p >= DATA ensures tlb[p] < TOTAL_PAGES {
      assert v.pt[d][p] == Present(tlb[p]);
      if CODE <= p < CODE + NUM_PAG_CODE {
        assert v.pt[d][p] == Present(CodeFrame(p));
      } else {
        assert OwnPage(HeapOf(v, d), p);
      }
    }
  }

  ghost predicate Forking(v: View, k: Child, tlb: map<nat, nat>) {
    && CanFork(v, k.t, k.f) && Forkable(v, k) && k.c == FreeDir(v.refs) && Exact(tlb, v.pt[v.users[k.t]])
    && NUM_PAG_DATA + ForkHeap(v, k.t, k.c) <= FreeCount(v.phys) &&
        k.fs == Grab(v.phys, NUM_PAG_DATA + ForkHeap(v, k.t, k.c))
  }

  /** The parent's pages to copy lie on used frames, and what the TLB says of them is true. */
  lemma ParentPages(v: View, k: Child, tlb: map<nat, nat>)
    requires Forking(v, k, tlb)
    ensures var d, h := v.users[k.t], ForkHeap(v, k.t, k.c);
            && 2 <= d < NR_TASKS && d != k.c && HEAP + h + NUM_PAG_DATA + h <= TOTAL_PAGES
            && (forall p :: OwnPage(h, p) ==>
                  v.pt[d][p].Present? && 0 <= v.pt[d][p].frame < TOTAL_PAGES && v.phys[v.pt[d][p].frame] &&
                      Target(tlb, v.pt[d], p) == v.pt[d][p].frame)
  {
    SoundSized(v, k.t);
    SoundRefs(v, k.t);
    hide Sound;
    var owner := OwnerOf(v);
    var d, h := v.users[k.t], ForkHeap(v, k.t, k.c);
    hide Counts, Tables, Sound, Grab, FreeDir;
    forall p | OwnPage(h, p)
      ensures v.pt[d][p].Present? && 0 <= v.pt[d][p].frame < TOTAL_PAGES && v.phys[v.pt[d][p].frame] &&
              Target(tlb, v.pt[d], p) == v.pt[d][p].frame
    {
      assert OwnPage(HeapOf(v, d), p);
    }
  }

  /** Unless the parent's counter was zeroed, no page of the window is mapped or cached. */
  lemma WindowFree(v: View, k: Child, tlb: map<nat, nat>)
    requires Forking(v, k, tlb) && ForkHeap(v, k.t, k.c) == v.zones[v.myHeap[k.t]]
    ensures forall q :: HEAP + ForkHeap(v, k.t, k.c) <= q < TOTAL_PAGES ==> q !in tlb
  {
    AboveHeap(v, k.t);
  }

  lemma ChildMapped(v: View, k: Child, p: int)
    requires Shaped(v) && Forkable(v, k) && HEAP + ForkHeap(v, k.t, k.c) <= TOTAL_PAGES &&
             OwnPage(ForkHeap(v, k.t, k.c), p)
    ensures var i := if p < HEAP then p - DATA else NUM_PAG_DATA + p - HEAP;
            0 <= i < |k.fs| && k.fs[i] < TOTAL_PAGES && Filled(v, k).pt[k.c][p] == Present(k.fs[i])
  {
    var i := if p < HEAP then p - DATA else NUM_PAG_DATA + p - HEAP;
    ChildPages(v.pt[k.c], v.pt[v.users[k.t]], k.fs, ForkHeap(v, k.t, k.c), i);
    assert NthPage(i) == p;
    assert k.fs[i] in k.fs;
  }

  lemma CanCopyData(v: View, k: Child, tlb: map<nat, nat>)
    requires Forking(v, k, tlb)
    ensures var h := ForkHeap(v, k.t, k.c);
            CanCopy(tlb, Filled(v, k), v.users[k.t], k.c, DATA, NUM_PAG_DATA, NUM_PAG_DATA + NUM_PAG_CODE + h)
  {
    ParentPages(v, k, tlb);
    CachedFrames(v, k.t, tlb);
    hide CanFork, Exact, Grab, FreeDir, ChildTable, Fresh, Mark;
    var h := ForkHeap(v, k.t, k.c);
    forall p | DATA <= p < DATA + NUM_PAG_DATA
      ensures OwnPage(h, p) && Filled(v, k).pt[k.c][p].Present? && Filled(v, k).pt[k.c][p].frame < TOTAL_PAGES
    {
      ChildMapped(v, k, p);
    }
  }

  /** The outcomes of fork's two copy loops. */
  ghost predicate DataCopied(v: View, k: Child, tlb: map<nat, nat>, v1: View, tlb1: map<nat, nat>) {
    && Forking(v, k, tlb)
    && RegionCopied(tlb, Filled(v, k), v.users[k.t], k.c, DATA, NUM_PAG_DATA,
        NUM_PAG_DATA + NUM_PAG_CODE + ForkHeap(v, k.t, k.c),
                    NUM_PAG_DATA, tlb1, v1)
  }

  ghost predicate HeapCopied(v: View, k: Child, v1: View, tlb1: map<nat, nat>, v2: View, tlb2: map<nat, nat>)
    requires Shaped(v) && Forkable(v, k)
  {
    var h := ForkHeap(v, k.t, k.c);
    RegionCopied(tlb1, v1, v.users[k.t], k.c, HEAP, h, NUM_PAG_DATA + h, h, tlb2, v2)
  }

  lemma CanCopyHeap(v: View, k: Child, tlb: map<nat, nat>, v1: View, tlb1: map<nat, nat>)
    requires DataCopied(v, k, tlb, v1, tlb1)
    ensures CanCopy(tlb1, v1, v.users[k.t], k.c, HEAP, ForkHeap(v, k.t, k.c), NUM_PAG_DATA + ForkHeap(v, k.t, k.c))
  {
    assert Shaped(v);
    hide CanFork, Exact, Grab, FreeDir, ChildTable, Fresh, Mark, CopyAll;
    ParentPages(v, k, tlb);
    var h := ForkHeap(v, k.t, k.c);
    forall p | HEAP <= p < HEAP + h
      ensures OwnPage(h, p) && Filled(v, k).pt[k.c][p].Present? && Filled(v, k).pt[k.c][p].frame < TOTAL_PAGES
    {
      ChildMapped(v, k, p);
    }
  }

  lemma ForkSucceeded(v: View, k: Child, tlb: map<nat, nat>, v1: View, tlb1: map<nat, nat>, v2: View,
                      tlb2: map<nat, nat>)
    requires DataCopied(v, k, tlb, v1, tlb1) && HeapCopied(v, k, v1, tlb1, v2, tlb2)
    ensures ForkResult(tlb, v, k.t, k.f, k.own, true, map[], v2)
  {
    ForkedState(v, k, tlb, v1, tlb1, v2, tlb2);
    if ForkHeap(v, k.t, k.c) == v.zones[v.myHeap[k.t]] {
      ForkCopied(v, k, tlb, v1, tlb1, v2, tlb2);
    }
    assert |v2.data| == TOTAL_PAGES;
    hide DataCopied, HeapCopied;
    ForkNamed(v, k, tlb, v2);
  }

  lemma ForkNamed(v: View, k: Child, tlb: map<nat, nat>, v2: View)
    requires Forking(v, k, tlb) && |v2.data| == TOTAL_PAGES && v2 == Forked(v, k.(data := v2.data))
    requires ForkHeap(v, k.t, k.c) == v.zones[v.myHeap[k.t]] ==>
               0 <= v.users[k.t] < NR_TASKS && PagesCopied(v, v.users[k.t], k.fs, v2.data)
    ensures ForkResult(tlb, v, k.t, k.f, k.own, true, map[], v2)
  {
    SoundSized(v, k.t);
    ChildNamed(v, k, tlb, v2.data);
    hide Sound, Sized, FreeDir, FreeCount, PagesCopied, Grab, Fresh, Forked, ForkOf, Exact;
  }

  lemma ChildNamed(v: View, k: Child, tlb: map<nat, nat>, data: seq<Page>)
    requires Forking(v, k, tlb) && |data| == TOTAL_PAGES && Sized(v, k.t)
    ensures Possible(v, Fork(k.t, k.f, data)) && Enough(v, Fork(k.t, k.f, data))
    ensures ForkOf(v, Fork(k.t, k.f, data), k.own) == k.(data := data)
  {
    hide Sound, FreeDir, FreeCount, Grab, Fresh, Exact;
  }

  lemma RegionView(was: map<nat, nat>, v: View, d: int, c: int, start: nat, n: nat, offset: nat, k: nat,
                   tlb: map<nat, nat>, v': View)
    requires RegionCopied(was, v, d, c, start, n, offset, k, tlb, v')
    ensures 0 <= d < |v.pt| && |v'.data| == TOTAL_PAGES
    ensures v' == v.(pt := v.pt[d := UnmapRange(v.pt[d], start + offset, start + offset + k)], data := v'.data)
  {
  }

  lemma ForkedState(v: View, k: Child, tlb: map<nat, nat>, v1: View, tlb1: map<nat, nat>, v2: View, tlb2: map<nat, nat>)
    requires DataCopied(v, k, tlb, v1, tlb1) && HeapCopied(v, k, v1, tlb1, v2, tlb2)
    ensures v2 == Forked(v, k.(data := v2.data))
  {
    assert Shaped(v);
    hide RegionCopied, CanFork, Exact, Grab, FreeDir, ChildTable, Fresh, Mark, UnmapRange, WindowClosed;
    ParentPages(v, k, tlb);
    var d, h := v.users[k.t], ForkHeap(v, k.t, k.c);
    RegionView(tlb, Filled(v, k), d, k.c, DATA, NUM_PAG_DATA, NUM_PAG_DATA + NUM_PAG_CODE + h, NUM_PAG_DATA, tlb1, v1);
    RegionView(tlb1, v1, d, k.c, HEAP, h, NUM_PAG_DATA + h, h, tlb2, v2);
    hide Filled, Forked, Forkable;
    ForkedForm(v, k, v1, v2);
  }

  lemma ForkedForm(v: View, k: Child, v1: View, v2: View)
    requires Shaped(v) && Forkable(v, k) && v.users[k.t] != k.c
    requires var d, h, f := v.users[k.t], ForkHeap(v, k.t, k.c), Filled(v, k);
             && d < |f.pt| && |v1.pt| == |f.pt|
             && v1 == f.(pt := f.pt[d := UnmapRange(f.pt[d], HEAP + h, HEAP + h + NUM_PAG_DATA)], data := v1.data)
             && v2 == v1.(pt := v1.pt[d := UnmapRange(v1.pt[d], HEAP + NUM_PAG_DATA + h, HEAP + NUM_PAG_DATA + h + h)],
                          data := v2.data)
    ensures v2 == Forked(v, k.(data := v2.data))
  {
    hide Fresh, Mark, ChildTable, UnmapRange, WindowClosed;
    WindowTwice(v.pt, v.users[k.t], k.c, ForkHeap(v, k.t, k.c), Filled(v, k).pt[k.c]);
  }

  /** The two windows together are the stretch the specification unmaps. */
  lemma WindowTwice(pt: seq<seq<Entry>>, d: nat, c: nat, h: nat, child: seq<Entry>)
    requires d < |pt| && c < |pt| && d != c
    ensures var once := UnmapRange(pt[d], HEAP + h, HEAP + h + NUM_PAG_DATA);
            var twice := UnmapRange(once, HEAP + NUM_PAG_DATA + h, HEAP + NUM_PAG_DATA + h + h);
            pt[c := child][d := once][d := twice] == pt[d := WindowClosed(pt[d], h)][c := child]
  {
    var once := UnmapRange(pt[d], HEAP + h, HEAP + h + NUM_PAG_DATA);
    assert UnmapRange(once, HEAP + NUM_PAG_DATA + h, HEAP + NUM_PAG_DATA + h + h) == WindowClosed(pt[d], h);
  }

  /** The frames `dsts` hold what the pages from `start` on held, and no other frame has changed. */
  ghost predicate CopiedTo(data': seq<Page>, data: seq<Page>, parent: seq<Entry>, start: nat, dsts: seq<nat>) {
    && |data'| == |data| == TOTAL_PAGES && start + |dsts| <= |parent|
    && (forall i :: 0 <= i < |dsts| ==>
          dsts[i] < TOTAL_PAGES && FrameOf(parent[start + i]) < TOTAL_PAGES &&
              data'[dsts[i]] == data[FrameOf(parent[start + i])])
    && (forall g :: 0 <= g < TOTAL_PAGES && g !in dsts ==> data'[g] == data[g])
  }

  /** A copy loop that starts with a clean window copies every page, if no frame is both read and written. */
  lemma RegionCopies(was: map<nat, nat>, v: View, d: int, c: int, start: nat, n: nat, offset: nat,
                     tlb: map<nat, nat>, v': View, dsts: seq<nat>)
    requires RegionCopied(was, v, d, c, start, n, offset, n, tlb, v') && FramesIn(v.pt[c], start, start + n) == dsts
    requires forall q :: start + offset <= q < start + offset + n ==> q !in was
    requires forall i :: start <= i < start + n ==> FrameOf(v.pt[d][i]) !in dsts
    requires forall i, j :: 0 <= i < j < n ==> dsts[i] != dsts[j]
    ensures CopiedTo(v'.data, v.data, v.pt[d], start, dsts)
  {
    var srcs := FramesIn(v.pt[d], start, start + n);
    assert srcs[..n] == srcs && dsts[..n] == dsts;
    hide CopyAll, CachedBy;
    assert forall i :: 0 <= i < n ==> srcs[i] == FrameOf(v.pt[d][start + i]);
    CopyAllSpec(v.data, srcs, dsts);
  }

  lemma ChildFrames(v: View, k: Child)
    requires Shaped(v) && Forkable(v, k) && HEAP + ForkHeap(v, k.t, k.c) <= TOTAL_PAGES
    ensures Shaped(Filled(v, k))
    ensures var child := Filled(v, k).pt[k.c];
            && FramesIn(child, DATA, DATA + NUM_PAG_DATA) == k.fs[..NUM_PAG_DATA]
            && FramesIn(child, HEAP, HEAP + ForkHeap(v, k.t, k.c)) == k.fs[NUM_PAG_DATA..]
  {
    hide Mark, Fresh;
    var h := ForkHeap(v, k.t, k.c);
    assert FramesIn(Filled(v, k).pt[k.c], HEAP, HEAP + h) == k.fs[NUM_PAG_DATA..];
  }

  lemma ForkCopiedData(v: View, k: Child, tlb: map<nat, nat>, v1: View, tlb1: map<nat, nat>)
    requires DataCopied(v, k, tlb, v1, tlb1) && ForkHeap(v, k.t, k.c) == v.zones[v.myHeap[k.t]]
    ensures CopiedTo(v1.data, v.data, v.pt[v.users[k.t]], DATA, k.fs[..NUM_PAG_DATA])
  {
    ParentPages(v, k, tlb);
    WindowFree(v, k, tlb);
    ChildFrames(v, k);
    var d, h := v.users[k.t], ForkHeap(v, k.t, k.c);
    assert Filled(v, k).pt[d] == v.pt[d] && Filled(v, k).data == v.data;
    hide CanFork, Exact, Grab, FreeDir, FreeCount, ChildTable, Mark, RegionCopied, FramesIn, Filled, CopiedTo;
    RegionCopies(tlb, Filled(v, k), d, k.c, DATA, NUM_PAG_DATA, NUM_PAG_DATA + NUM_PAG_CODE + h, tlb1, v1,
        k.fs[..NUM_PAG_DATA]);
  }

  /** The second loop's window is clean too: the first one cached other pages. */
  lemma SecondWindow(v: View, k: Child, tlb: map<nat, nat>, v1: View, tlb1: map<nat, nat>)
    requires DataCopied(v, k, tlb, v1, tlb1) && ForkHeap(v, k.t, k.c) == v.zones[v.myHeap[k.t]]
    ensures var h := ForkHeap(v, k.t, k.c);
            && HEAP + h <= TOTAL_PAGES &&
                (forall q :: HEAP + NUM_PAG_DATA + h <= q < HEAP + NUM_PAG_DATA + h + h ==> q !in tlb1)
            && Shaped(v1) && v1.pt[k.c] == Filled(v, k).pt[k.c] &&
                (forall p :: 0 <= p < HEAP + h ==> v1.pt[v.users[k.t]][p] == v.pt[v.users[k.t]][p])
  {
    ParentPages(v, k, tlb);
    WindowFree(v, k, tlb);
    ChildFrames(v, k);
    hide CanFork, Exact, Grab, FreeDir, FreeCount, ChildTable, Mark, CopyAll, Copyable;
  }

  lemma ForkCopiedHeap(v: View, k: Child, tlb: map<nat, nat>, v1: View, tlb1: map<nat, nat>, v2: View,
                       tlb2: map<nat, nat>)
    requires DataCopied(v, k, tlb, v1, tlb1) && HeapCopied(v, k, v1, tlb1, v2, tlb2)
    requires ForkHeap(v, k.t, k.c) == v.zones[v.myHeap[k.t]]
    ensures CopiedTo(v2.data, v1.data, v.pt[v.users[k.t]], HEAP, k.fs[NUM_PAG_DATA..])
  {
    ParentPages(v, k, tlb);
    SecondWindow(v, k, tlb, v1, tlb1);
    ChildFrames(v, k);
    var d, h := v.users[k.t], ForkHeap(v, k.t, k.c);
    var dsts := k.fs[NUM_PAG_DATA..];
    hide CanFork, Exact, Grab, FreeDir, FreeCount, ChildTable, Mark, RegionCopied, FramesIn, Filled, DataCopied,
         CopiedTo, Target;
    forall p | HEAP <= p < HEAP + h ensures FrameOf(v1.pt[d][p]) !in dsts {
      assert OwnPage(h, p);
    }
    RegionCopies(tlb1, v1, d, k.c, HEAP, h, NUM_PAG_DATA + h, tlb2, v2, dsts);
    SameParent(v2.data, v1.data, v1.pt[d], v.pt[d], HEAP, dsts);
  }

  lemma SameParent(data': seq<Page>, data: seq<Page>, p: seq<Entry>, q: seq<Entry>, start: nat, dsts: seq<nat>)
    requires CopiedTo(data', data, p, start, dsts) && |q| == |p| && forall i :: 0 <= i < start + |dsts| ==> p[i] == q[i]
    ensures CopiedTo(data', data, q, start, dsts)
  {
    forall i | 0 <= i < |dsts|
      ensures dsts[i] < TOTAL_PAGES && FrameOf(q[start + i]) < TOTAL_PAGES &&
              data'[dsts[i]] == data[FrameOf(q[start + i])]
    {
      assert q[start + i] == p[start + i];
    }
  }

  lemma BothRegions(v: View, d: nat, fs: seq<nat>, data1: seq<Page>, data2: seq<Page>)
    requires Shaped(v) && d < NR_TASKS && |fs| >= NUM_PAG_DATA && HEAP + |fs| - NUM_PAG_DATA <= TOTAL_PAGES
    requires CopiedTo(data1, v.data, v.pt[d], DATA, fs[..NUM_PAG_DATA]) &&
             CopiedTo(data2, data1, v.pt[d], HEAP, fs[NUM_PAG_DATA..])
    requires forall i, j :: 0 <= i < j < |fs| ==> fs[i] != fs[j]
    requires forall p :: OwnPage(|fs| - NUM_PAG_DATA, p) ==> v.pt[d][p].Present? && v.pt[d][p].frame !in fs
    ensures PagesCopied(v, d, fs, data2)
  {
    forall i | 0 <= i < |fs|
      ensures NthPage(i) < TOTAL_PAGES && v.pt[d][NthPage(i)].Present? && fs[i] < TOTAL_PAGES &&
              v.pt[d][NthPage(i)].frame < TOTAL_PAGES
      ensures data2[fs[i]] == v.data[v.pt[d][NthPage(i)].frame]
    {
      assert OwnPage(|fs| - NUM_PAG_DATA, NthPage(i));
      if i < NUM_PAG_DATA {
        assert fs[..NUM_PAG_DATA][i] == fs[i] && fs[i] !in fs[NUM_PAG_DATA..];
      } else {
        assert fs[NUM_PAG_DATA..][i - NUM_PAG_DATA] == fs[i];
      }
    }
    assert forall g :: g in fs <==> g in fs[..NUM_PAG_DATA] || g in fs[NUM_PAG_DATA..];
  }

  lemma ForkCopied(v: View, k: Child, tlb: map<nat, nat>, v1: View, tlb1: map<nat, nat>, v2: View, tlb2: map<nat, nat>)
    requires DataCopied(v, k, tlb, v1, tlb1) && HeapCopied(v, k, v1, tlb1, v2, tlb2)
    requires ForkHeap(v, k.t, k.c) == v.zones[v.myHeap[k.t]]
    ensures 0 <= v.users[k.t] < NR_TASKS && PagesCopied(v, v.users[k.t], k.fs, v2.data)
  {
    ParentPages(v, k, tlb);
    ForkCopiedData(v, k, tlb, v1, tlb1);
    ForkCopiedHeap(v, k, tlb, v1, tlb1, v2, tlb2);
    hide DataCopied, HeapCopied, CanFork, Exact, Grab, FreeDir, FreeCount, CopiedTo, Target, PagesCopied;
    BothRegions(v, v.users[k.t], k.fs, v1.data, v2.data);
  }

  /** After a successful fork the child reads on each of its own pages what its parent read at the call,
      from frames nobody else's pages lie on; it shares the code entries; and every directory in use,
      the parent's included, keeps its table and reads on its own pages what it did. */
  lemma ForkedChildReads(tlb: map<nat, nat>, v: View, t: nat, f: nat, own: bool, tlb': map<nat, nat>, v': View,
                         u: int, p: nat)
    requires CanFork(v, t, f) && ForkResult(tlb, v, t, f, own, true, tlb', v') && Harmless(v, FreeDir(v.refs), own)
    requires Live(v, u) && p < TOTAL_PAGES
    ensures Shaped(v') && Sized(v, t)
    ensures var c, d, h := FreeDir(v.refs), v.users[t], v.zones[v.myHeap[t]];
            && (OwnPage(h, p) ==>
                  && v'.pt[c][p].Present? && v'.pt[c][p].frame < TOTAL_PAGES
                  && v.pt[d][p].Present? && v.pt[d][p].frame < TOTAL_PAGES
                  && Reads(v', c, p) == Reads(v, d, p)
                  && (forall q :: 0 <= q < TOTAL_PAGES && v'.pt[u][q].Present? && OwnPage(HeapOf(v, u), q) ==>
                        v'.pt[u][q].frame != v'.pt[c][p].frame))
            && (CODE <= p < CODE + NUM_PAG_CODE ==> v'.pt[c][p] == v.pt[d][p])
            && (p < NUM_PAG_KERNEL ==> v'.pt[c][p] == Present(FrameOf(v.pt[d][p])))
            && v'.pt[u] == v.pt[u]
            && (OwnPage(HeapOf(v, u), p) ==>
                  v.pt[u][p].Present? && v.pt[u][p].frame < TOTAL_PAGES && Reads(v', u, p) == Reads(v, u, p))
  {
    var call := Fork(t, f, v'.data);
    var k := ForkOf(v, call, own);
    ForkOfForkable(v, call, own);
    HeapPassedOn(v, k);
    ForkMapsPageZero(v, k);
    hide CanFork, Sound, ForkOf, Forked, FreeDir, Grab, FreeCount, PagesCopied, HeapOf, Live, Enough;
    ChildReads(v, k, u, p);
  }

  lemma HeapPassedOn(v: View, k: Child)
    requires Shaped(v) && Sound(v) && MayFork(v, k) && Harmless(v, k.c, k.own)
    ensures ForkHeap(v, k.t, k.c) == v.zones[v.myHeap[k.t]]
  {
    hide Sound;
    var owner := OwnerOf(v);
    HarmlessHeap(v, owner, k);
  }

  // ----- boot

  /** phys_mem with the first `k` frames of alloc_frame's taken. */
  function UsedUpTo(k: nat): (r: seq<bool>)
    ensures |r| == TOTAL_PAGES
  {
    seq(TOTAL_PAGES, f => f < NUM_PAG_KERNEL || (f < NUM_PAG_KERNEL + 2 * k && f % 2 == 0))
  }

  function KernelUpTo(n: nat): (r: seq<Entry>)
    ensures |r| == TOTAL_PAGES
  {
    seq(TOTAL_PAGES, p => if 1 <= p < n then Present(p) else Absent)
  }

  function KernelTable(): (r: seq<Entry>)
    ensures |r| == TOTAL_PAGES
  {
    KernelUpTo(NUM_PAG_KERNEL)
  }

  lemma UsedNext(k: nat)
    requires k < 384
    ensures Lowest(UsedUpTo(k)) == NUM_PAG_KERNEL + 2 * k &&
            UsedUpTo(k)[NUM_PAG_KERNEL + 2 * k := true] == UsedUpTo(k + 1)
  {
    assert Takeable(UsedUpTo(k), NUM_PAG_KERNEL + 2 * k);
  }

  lemma {:induction false} FreeUpTo(k: nat)
    requires k <= 384
    ensures FreeCount(UsedUpTo(k)) == 384 - k
    decreases 384 - k
  {
    if k < 384 {
      UsedNext(k);
      TakeLowest(UsedUpTo(k));
      FreeUpTo(k + 1);
    } else {
      assert forall f :: !Takeable(UsedUpTo(k), f);
      assert Lowest(UsedUpTo(k)) == -1;
    }
  }

  lemma {:induction false} GrabUpTo(k: nat, n: nat)
    requires k + n <= 384
    ensures FreeCount(UsedUpTo(k)) == 384 - k
    ensures Grab(UsedUpTo(k), n) == seq<nat>(n, i => NUM_PAG_KERNEL + 2 * (k + i))
    ensures Mark(UsedUpTo(k), Grab(UsedUpTo(k), n), true) == UsedUpTo(k + n)
    decreases n
  {
    FreeUpTo(k);
    hide UsedUpTo, Lowest, FreeCount, Mark, Grab;
    if n > 0 {
      UsedNext(k);
      GrabUpTo(k + 1, n - 1);
      GrabCons(UsedUpTo(k), n);
      MarkFirst(UsedUpTo(k), NUM_PAG_KERNEL + 2 * k, Grab(UsedUpTo(k + 1), n - 1));
    } else {
      GrabNone(UsedUpTo(k));
      assert Grab(UsedUpTo(k), 0) == [];
    }
  }

  function EmptyTable(): (r: seq<Entry>)
    ensures |r| == TOTAL_PAGES
  {
    seq(TOTAL_PAGES, _ => Absent)
  }

  /** Everything zero, every PCB free. */
  function Blank(data: seq<Page>): View {
    View(seq(TOTAL_PAGES, _ => false), seq(NR_TASKS, _ => EmptyTable()), seq(NR_TASKS, _ => 0),
         seq(NR_TASKS, _ => 0), seq(NR_TASKS, _ => -1), seq<nat>(NR_TASKS, _ => 0), data)
  }

  /** The state in which task 1 starts to run. */
  function Booted(data: seq<Page>): View {
    View(UsedUpTo(28), seq(NR_TASKS, d => if d == 2 then Task1Table() else KernelTable()),
         seq(NR_TASKS, d => if d <= 2 then 1 else 0), seq(NR_TASKS, _ => 0),
         seq(NR_TASKS, t => if t < 2 then t + 1 else -1), seq<nat>(NR_TASKS, t => if t == 1 then 2 else 0), data)
  }

  function Task1Table(): (r: seq<Entry>)
    ensures |r| == TOTAL_PAGES
  {
    seq(TOTAL_PAGES, p =>
      if CODE <= p < CODE + NUM_PAG_CODE then Present(NUM_PAG_KERNEL + 2 * (p - CODE))
      else if DATA <= p < DATA + NUM_PAG_DATA then Present(FIRST_USER_FRAME + 2 * (p - DATA))
      else if 1 <= p < NUM_PAG_KERNEL then Present(p) else Absent)
  }

  lemma {:induction false} CountOnce(users: seq<int>, i: nat, d: int)
    requires i < |users| && users[i] == d && forall j :: 0 <= j < |users| && j != i ==> users[j] != d
    ensures Count(users, d) == 1
  {
    if i > 0 {
      CountOnce(users[1..], i - 1, d);
    } else {
      CountPositive(users[1..], d);
    }
  }

  lemma BootShaped(data: seq<Page>)
    requires |data| == TOTAL_PAGES
    ensures Shaped(Booted(data))
  {
    var v := Booted(data);
    forall d | 0 <= d < NR_TASKS ensures |v.pt[d]| == TOTAL_PAGES {
      assert v.pt[d] == if d == 2 then Task1Table() else KernelTable();
    }
  }

  lemma BootUsers(data: seq<Page>)
    requires |data| == TOTAL_PAGES
    ensures Shaped(Booted(data)) && forall d :: Live(Booted(data), d) <==> d == 2
    ensures Live(Booted(data), 2) && HeapOf(Booted(data), 2) == 0
  {
    BootShaped(data);
    var v := Booted(data);
    assert v.users[1] == 2;
    hide UsedUpTo, Task1Table, KernelTable;
  }

  lemma BootCounts(data: seq<Page>)
    requires |data| == TOTAL_PAGES
    ensures Shaped(Booted(data)) && Counts(Booted(data)) && OwnCounters(Booted(data))
  {
    BootShaped(data);
    var v := Booted(data);
    hide Shaped, UsedUpTo, Task1Table, KernelTable;
    forall d | 0 <= d < NR_TASKS ensures v.refs[d] == Count(v.users, d) + if d == 0 then 1 else 0 {
      if d == 1 || d == 2 {
        CountOnce(v.users, d - 1, d);
      } else {
        CountPositive(v.users, d);
      }
    }
  }

  lemma BootTables(data: seq<Page>)
    requires |data| == TOTAL_PAGES
    ensures Shaped(Booted(data)) && Tables(Booted(data))
  {
    BootUsers(data);
    var v := Booted(data);
    hide Live, HeapOf, UsedUpTo;
    assert v.pt[2] == Task1Table();
    assert LiveTable(Task1Table(), 0);
    assert DeadTable(KernelTable());
  }

  lemma BootOwned(data: seq<Page>) returns (owner: map<int, (int, int)>)
    requires |data| == TOTAL_PAGES
    ensures Shaped(Booted(data)) && Owned(Booted(data), owner)
  {
    BootUsers(data);
    var v := Booted(data);
    hide Live, HeapOf;
    assert v.pt[2] == Task1Table();
    owner := map f: int | FIRST_USER_FRAME <= f < 312 && f % 2 == 0 :: (2, DATA + (f - FIRST_USER_FRAME) / 2);
    forall f | f in owner ensures UserFrame(f) && v.phys[f] && Owns(v, owner[f].0, owner[f].1, f) {
      assert OwnPage(0, owner[f].1);
    }
  }

  /** Boot before task 1 has its directory: `k` directories are taken, and the last of them is used by
      task 0, which init_mm borrows and init_idle moves on. */
  function UserDirs(data: seq<Page>, k: nat): View {
    View(UsedUpTo(0), seq(NR_TASKS, _ => KernelTable()), seq(NR_TASKS, d => if d < k then 1 else 0),
        seq(NR_TASKS, _ => 0),
         seq(NR_TASKS, t => if t == 0 then k - 1 else -1), seq<nat>(NR_TASKS, _ => 0), data)
  }

  lemma BlankAt(phys: seq<bool>, pt: seq<seq<Entry>>, refs: seq<int>, zones: seq<int>, users: seq<int>,
                myHeap: seq<nat>, data: seq<Page>)
    requires |phys| == TOTAL_PAGES && |pt| == |refs| == |zones| == |users| == |myHeap| == NR_TASKS
    requires (forall f :: 0 <= f < TOTAL_PAGES ==> !phys[f]) &&
             (forall d :: 0 <= d < NR_TASKS ==> pt[d] == EmptyTable())
    requires forall i :: 0 <= i < NR_TASKS ==> refs[i] == 0 && zones[i] == 0 && users[i] == -1 && myHeap[i] == 0
    ensures View(phys, pt, refs, zones, users, myHeap, data) == Blank(data)
  {
    assert phys == Blank(data).phys && pt == Blank(data).pt;
  }

  lemma FirstDirs(data: seq<Page>)
    ensures var v := Blank(data);
            && |v.refs| == |v.users| == NR_TASKS && FreeDir(v.refs) == 0
            && UserDirs(data, 1) == v.(pt := seq(NR_TASKS, _ => KernelTable())).(phys := UsedUpTo(0))
                                     .(refs := v.refs[0 := v.refs[0] + 1], users := v.users[0 := 0])
  {
    FreeDirAt(Blank(data).refs, 0);
  }

  lemma SecondDir(data: seq<Page>)
    ensures var v := UserDirs(data, 1);
            && |v.refs| == |v.users| == NR_TASKS && FreeDir(v.refs) == 1
            && UserDirs(data, 2) == v.(refs := v.refs[1 := v.refs[1] + 1], users := v.users[0 := 1])
  {
    FreeDirAt(UserDirs(data, 1).refs, 1);
  }

  lemma ThirdDir(data: seq<Page>)
    ensures var v := UserDirs(data, 2);
            && |v.refs| == |v.users| == |v.zones| == |v.myHeap| == NR_TASKS && FreeDir(v.refs) == 2
            && v.users[1 := 2][1] == 2 && v.phys == UsedUpTo(0) && v.pt == seq(NR_TASKS, _ => KernelTable()) &&
                v.pt[2] == KernelTable()
            && Booted(data) == v.(refs := v.refs[2 := v.refs[2] + 1], users := v.users[1 := 2])
                                .(zones := v.zones[2 := 0], myHeap := v.myHeap[1 := 2])
                                .(phys := Booted(data).phys, pt := Booted(data).pt)
  {
    FreeDirAt(UserDirs(data, 2).refs, 2);
  }

  lemma BootFrames(data: seq<Page>)
    ensures var code := Grab(UsedUpTo(0), NUM_PAG_CODE);
            && FreeCount(UsedUpTo(0)) == 384 && Mark(UsedUpTo(0), code, true) == UsedUpTo(NUM_PAG_CODE)
            && FreeCount(UsedUpTo(NUM_PAG_CODE)) == 376
            && var d := Grab(UsedUpTo(NUM_PAG_CODE), NUM_PAG_DATA);
            && Mark(UsedUpTo(NUM_PAG_CODE), d, true) == Booted(data).phys
            && (seq(NR_TASKS, _ => KernelTable())[2 := MapRange(MapRange(KernelTable(), CODE, code), DATA, d)]) ==
                Booted(data).pt
  {
    GrabUpTo(0, NUM_PAG_CODE);
    GrabUpTo(NUM_PAG_CODE, NUM_PAG_DATA);
    hide Grab, FreeCount, Mark, UsedUpTo;
    MapTask1(Grab(UsedUpTo(0), NUM_PAG_CODE), Grab(UsedUpTo(NUM_PAG_CODE), NUM_PAG_DATA));
    hide KernelTable, Task1Table, MapRange;
  }

  lemma MapTask1(code: seq<nat>, d: seq<nat>)
    requires |code| == NUM_PAG_CODE && forall i :: 0 <= i < NUM_PAG_CODE ==> code[i] == NUM_PAG_KERNEL + 2 * i
    requires |d| == NUM_PAG_DATA && forall i :: 0 <= i < NUM_PAG_DATA ==> d[i] == FIRST_USER_FRAME + 2 * i
    ensures MapRange(MapRange(KernelTable(), CODE, code), DATA, d) == Task1Table()
  {
  }

  /** Boot leaves a sound state, with every directory counting in its own entry. */
  lemma BootReady(data: seq<Page>)
    requires |data| == TOTAL_PAGES
    ensures Ready(Booted(data))
  {
    BootCounts(data);
    BootTables(data);
    var owner := BootOwned(data);
    hide Booted, Counts, Tables, Owned;
    SoundBy(Booted(data), owner);
  }
}
