/** fork as one step on frames, tables and counters: when it keeps them sound, and what the child
    reads through its new table. */
module ForkSteps {
  import opened Params
  import opened FrameModel
  import opened FrameSteps

  /** One fork: parent, PCB and directory of the child, its frames, the contents it leaves, and whether
      the child gets a heap counter of its own, as meant, or its parent's pointer, as written. */
  datatype Child = Child(t: nat, f: nat, c: nat, fs: seq<nat>, data: seq<Page>, own: bool)

  predicate Bounded(v: View, t: nat, c: nat) {
    && t < NR_TASKS && c < NR_TASKS && |v.users| == |v.myHeap| == |v.refs| == |v.zones| == |v.pt| == NR_TASKS
    && v.myHeap[t] < NR_TASKS
  }

  /** The heap size fork reads: allocate_heap has just zeroed the counter of the new directory `c`. */
  function ForkHeap(v: View, t: nat, c: nat): int
    requires Bounded(v, t, c)
  {
    if v.myHeap[t] == c then 0 else v.zones[v.myHeap[t]]
  }

  /** The parent's table once the temporary window of fork is gone again. */
  function WindowClosed(pt: seq<Entry>, h: int): (r: seq<Entry>)
    ensures |r| == |pt|
  {
    UnmapRange(pt, HEAP + h, HEAP + h + NUM_PAG_DATA + h)
  }

  function Forked(v: View, k: Child): View
    requires Bounded(v, k.t, k.c) && k.f < NR_TASKS && 0 <= v.users[k.t] < NR_TASKS
    requires 0 <= ForkHeap(v, k.t, k.c) && |k.fs| == NUM_PAG_DATA + ForkHeap(v, k.t, k.c)
    requires forall d :: 0 <= d < NR_TASKS ==> |v.pt[d]| == TOTAL_PAGES
  {
    var d, h := v.users[k.t], ForkHeap(v, k.t, k.c);
    v.(phys := Mark(v.phys, k.fs, true),
       pt := v.pt[d := WindowClosed(v.pt[d], h)][k.c := ChildTable(v.pt[k.c], v.pt[d], k.fs, h)],
       refs := v.refs[k.c := v.refs[k.c] + 1], zones := v.zones[k.c := if k.own then h else 0],
       users := v.users[k.f := k.c], myHeap := v.myHeap[k.f := if k.own then k.c else v.myHeap[k.t]], data := k.data)
  }

  /** A caller of fork is a user task, the PCB is free and so is the directory. */
  predicate MayFork(v: View, k: Child) {
    && Bounded(v, k.t, k.c) && 1 <= k.t && v.users[k.t] >= 2 && 1 <= k.f < NR_TASKS && v.users[k.f] == -1
    && 2 <= k.c && v.refs[k.c] == 0
  }

  /** A fork whose directory is free and whose frames are free, and enough. */
  ghost predicate Forkable(v: View, k: Child)
    requires Shaped(v)
  {
    && MayFork(v, k) && v.users[k.t] < NR_TASKS && Fresh(v, k.fs) && 0 <= ForkHeap(v, k.t, k.c)
    && |k.fs| == NUM_PAG_DATA + ForkHeap(v, k.t, k.c) && |k.data| == TOTAL_PAGES
  }

  /** Writing the counter of directory `c` hurts nobody. */
  ghost predicate Harmless(v: View, c: int, own: bool)
    requires Shaped(v) && 0 <= c < NR_TASKS
  {
    (!own && v.zones[c] == 0) || forall u :: Live(v, u) ==> v.myHeap[FirstUser(v.users, u)] != c
  }

  ghost predicate IsForked(v: View, k: Child, v': View)
    requires Shaped(v)
  {
    && MayFork(v, k) && v.users[k.t] < NR_TASKS && 0 <= ForkHeap(v, k.t, k.c)
    && |k.fs| == NUM_PAG_DATA + ForkHeap(v, k.t, k.c) && |k.data| == TOTAL_PAGES && v' == Forked(v, k) && Shaped(v')
  }

  lemma ForkedUse(v: View, owner: map<int, (int, int)>, k: Child, v': View)
    requires Good(v, owner) && IsForked(v, k, v')
    ensures var d := v.users[k.t];
            && Live(v, d) && !Live(v, k.c) && k.c != d
            && (forall u :: Live(v', u) <==> Live(v, u) || u == k.c)
            && (forall u :: Live(v, u) ==> v'.myHeap[FirstUser(v'.users, u)] == v.myHeap[FirstUser(v.users, u)])
            && v'.myHeap[FirstUser(v'.users, k.c)] == (if k.own then k.c else v.myHeap[k.t])
            && v.myHeap[k.t] == v.myHeap[FirstUser(v.users, d)]
  {
    hide Tables, Owned;
    UsersChanged(v, k.f, k.c, v');
    LiveOfTask(v, k.t);
    LiveByRefs(v, k.c);
    assert v'.users[k.f] == k.c;
    forall u | Live(v, u) ensures Live(v', u) && v'.myHeap[FirstUser(v'.users, u)] == v.myHeap[FirstUser(v.users, u)] {
      assert v.users[FirstUser(v.users, u)] == u;
      assert v'.users[FirstUser(v'.users, u)] == u;
    }
    assert v'.users[FirstUser(v'.users, k.c)] == k.c;
    assert FirstUser(v'.users, k.c) == k.f;
  }

  lemma ForkedCounts(v: View, owner: map<int, (int, int)>, k: Child, v': View)
    requires Good(v, owner) && IsForked(v, k, v')
    ensures Counts(v')
  {
    hide Tables, Owned;
    UsersChanged(v, k.f, k.c, v');
    LiveByRefs(v, k.c);
    assert FirstUser(v.users, k.c) == NR_TASKS;
    hide ForkHeap;
  }

  /** The forked state read off entry by entry. */
  lemma ForkedFields(v: View, owner: map<int, (int, int)>, k: Child, v': View)
    requires Good(v, owner) && IsForked(v, k, v') && Harmless(v, k.c, k.own)
    ensures var d := v.users[k.t];
            && Live(v, d) && !Live(v, k.c) && k.c != d
            && (forall u :: Live(v', u) <==> Live(v, u) || u == k.c)
            && (forall u :: Live(v, u) ==> HeapOf(v', u) == HeapOf(v, u))
            && HeapOf(v', k.c) == HeapOf(v, d) == ForkHeap(v, k.t, k.c)
            && (forall g :: 0 <= g < TOTAL_PAGES ==> v'.phys[g] == (v.phys[g] || g in k.fs))
            && (forall u :: 0 <= u < NR_TASKS && u != k.c ==> v'.pt[u] == v.pt[u])
            && v'.pt[k.c] == ChildTable(v.pt[k.c], v.pt[d], k.fs, HeapOf(v, d))
  {
    ForkedUse(v, owner, k, v');
    hide Counts, Owned;
    var d := v.users[k.t];
    assert LiveTable(v.pt[d], HeapOf(v, d));
    assert WindowClosed(v.pt[d], HeapOf(v, d)) == v.pt[d];
  }

  ghost function ForkOwner(owner: map<int, (int, int)>, c: int, fs: seq<nat>): map<int, (int, int)> {
    map f: int | f in owner.Keys + (set x: nat | x in fs :: x as int) ::
      if f >= 0 && f in fs then (c, NthPage(IndexOf(fs, f))) else if f in owner then owner[f] else (0, 0)
  }

  lemma ForkedTables(v: View, owner: map<int, (int, int)>, k: Child, v': View)
    requires Good(v, owner) && IsForked(v, k, v') && Harmless(v, k.c, k.own)
    ensures Tables(v')
  {
    ForkedFields(v, owner, k, v');
    hide Counts, Owned, IsForked, Harmless, HeapOf, ForkHeap;
    var d := v.users[k.t];
    assert LiveTable(v.pt[d], HeapOf(v, d)) && DeadTable(v.pt[k.c]);
    forall u | 2 <= u < NR_TASKS
      ensures if Live(v', u) then LiveTable(v'.pt[u], HeapOf(v', u)) else DeadTable(v'.pt[u])
    {
      if u != k.c {
        assert if Live(v, u) then LiveTable(v.pt[u], HeapOf(v, u)) else DeadTable(v.pt[u]);
      }
    }
  }

  /** The child's own pages, in order, lie on the frames handed to it, in order. */
  lemma ChildPages(pt: seq<Entry>, parent: seq<Entry>, fs: seq<nat>, h: nat, i: nat)
    requires |pt| == |parent| == TOTAL_PAGES && |fs| == NUM_PAG_DATA + h && HEAP + h <= TOTAL_PAGES && i < |fs|
    ensures NthPage(i) < TOTAL_PAGES && OwnPage(h, NthPage(i))
    ensures ChildTable(pt, parent, fs, h)[NthPage(i)] == Present(fs[i])
  {
  }

  lemma ForkedOwners(v: View, owner: map<int, (int, int)>, k: Child, v': View, g: int)
    requires Good(v, owner) && IsForked(v, k, v') && Harmless(v, k.c, k.own) && Fresh(v, k.fs)
    ensures var owner' := ForkOwner(owner, k.c, k.fs);
            NamedAt(v', owner', g)
  {
    ForkedFields(v, owner, k, v');
    var d := v.users[k.t];
    assert LiveTable(v.pt[d], HeapOf(v, d));
    hide Counts, Tables, Harmless, HeapOf, ForkHeap, IsForked, NthPage, OwnPage, ChildTable;
    if g >= 0 && g in k.fs {
      ChildPages(v.pt[k.c], v.pt[d], k.fs, HeapOf(v, d), IndexOf(k.fs, g));
    } else if g in owner {
      assert Owns(v, owner[g].0, owner[g].1, g);
    }
  }

  lemma ForkedPages(v: View, owner: map<int, (int, int)>, k: Child, v': View, u: int, p: int)
    requires Good(v, owner) && IsForked(v, k, v') && Harmless(v, k.c, k.own) && Fresh(v, k.fs)
    requires Live(v', u) && OwnPage(HeapOf(v', u), p) && p < TOTAL_PAGES
    ensures var owner' := ForkOwner(owner, k.c, k.fs);
            v'.pt[u][p].Present? && v'.pt[u][p].frame in owner' && owner'[v'.pt[u][p].frame] == (u, p)
  {
    ForkedFields(v, owner, k, v');
    var d := v.users[k.t];
    hide Counts, Tables, Harmless, ForkHeap, IsForked, ChildTable;
    if u == k.c {
      assert HEAP + HeapOf(v, d) <= TOTAL_PAGES by { ParentFits(v, owner, d); }
      hide Good, HeapOf;
      ChildPage(owner, v.pt[k.c], v.pt[d], k.fs, HeapOf(v, d), k.c, p);
    } else {
      hide Fresh, NthPage;
      assert v.pt[u][p].frame in owner && owner[v.pt[u][p].frame] == (u, p);
    }
  }

  lemma ParentFits(v: View, owner: map<int, (int, int)>, d: int)
    requires Good(v, owner) && Live(v, d)
    ensures 0 <= HeapOf(v, d) && HEAP + HeapOf(v, d) <= TOTAL_PAGES
  {
    hide Counts, Owned;
    assert LiveTable(v.pt[d], HeapOf(v, d));
  }

  /** Every own page of the child lies on a frame handed to it, and is recorded as that frame's owner. */
  lemma ChildPage(owner: map<int, (int, int)>, pt: seq<Entry>, parent: seq<Entry>, fs: seq<nat>, h: nat, c: int, p: int)
    requires |pt| == |parent| == TOTAL_PAGES && |fs| == NUM_PAG_DATA + h && HEAP + h <= TOTAL_PAGES
    requires OwnPage(h, p) && forall i, j :: 0 <= i < j < |fs| ==> fs[i] != fs[j]
    ensures p < TOTAL_PAGES
    ensures var e := ChildTable(pt, parent, fs, h)[p];
            e.Present? && e.frame in ForkOwner(owner, c, fs) && ForkOwner(owner, c, fs)[e.frame] == (c, p)
  {
    var i := if p < HEAP then p - DATA else NUM_PAG_DATA + p - HEAP;
    ChildPages(pt, parent, fs, h, i);
    assert NthPage(i) == p;
    hide ChildTable;
    assert fs[i] in fs;
    var j := IndexOf(fs, fs[i]);
    assert fs[j] == fs[i];
  }

  lemma ForkedCode(v: View, owner: map<int, (int, int)>, k: Child, v': View)
    requires Good(v, owner) && IsForked(v, k, v') && Harmless(v, k.c, k.own)
    ensures CodeKept(v')
  {
    ForkedFields(v, owner, k, v');
    hide Counts, Tables, Harmless, HeapOf, ForkHeap, IsForked, Owns;
    forall i | CODE <= i < CODE + NUM_PAG_CODE ensures v'.phys[CodeFrame(i)] {
      assert v.phys[CodeFrame(i)];
    }
  }

  lemma ForkedOwned(v: View, owner: map<int, (int, int)>, k: Child, v': View)
    requires Good(v, owner) && IsForked(v, k, v') && Harmless(v, k.c, k.own) && Fresh(v, k.fs)
    ensures Owned(v', ForkOwner(owner, k.c, k.fs))
  {
    hide Good, Harmless, HeapOf, ForkHeap, IsForked, ForkOwner, Fresh, FramesNamed, PagesNamed, CodeKept;
    ForkedCode(v, owner, k, v');
    ForkedNames(v, owner, k, v');
    ForkedPagesAll(v, owner, k, v');
  }

  lemma ForkedNames(v: View, owner: map<int, (int, int)>, k: Child, v': View)
    requires Good(v, owner) && IsForked(v, k, v') && Harmless(v, k.c, k.own) && Fresh(v, k.fs)
    ensures FramesNamed(v', ForkOwner(owner, k.c, k.fs))
  {
    assert Shaped(v');
    hide Good, Harmless, HeapOf, ForkHeap, IsForked, ForkOwner, Fresh, NamedAt, FramesNamed;
    var owner' := ForkOwner(owner, k.c, k.fs);
    forall g: int ensures NamedAt(v', owner', g) {
      ForkedOwners(v, owner, k, v', g);
    }
    FramesNamedBy(v', owner');
  }

  lemma ForkedPagesAll(v: View, owner: map<int, (int, int)>, k: Child, v': View)
    requires Good(v, owner) && IsForked(v, k, v') && Harmless(v, k.c, k.own) && Fresh(v, k.fs)
    ensures PagesNamed(v', ForkOwner(owner, k.c, k.fs))
  {
    assert Shaped(v');
    hide Good, Harmless, HeapOf, IsForked, ForkOwner, Fresh;
    forall u, p | Live(v', u) && OwnPage(HeapOf(v', u), p) && p < TOTAL_PAGES
      ensures v'.pt[u][p].Present? && v'.pt[u][p].frame in ForkOwner(owner, k.c, k.fs)
      ensures ForkOwner(owner, k.c, k.fs)[v'.pt[u][p].frame] == (u, p)
    {
      ForkedPages(v, owner, k, v', u, p);
    }
  }

  lemma ForkKeeps(v: View, owner: map<int, (int, int)>, k: Child, v': View)
    requires Good(v, owner) && IsForked(v, k, v') && Harmless(v, k.c, k.own) && Fresh(v, k.fs)
    ensures Sound(v')
  {
    assert Shaped(v');
    hide Counts, Tables, Owned, Harmless, IsForked, Sound, Fresh;
    ForkedCounts(v, owner, k, v');
    ForkedTables(v, owner, k, v');
    ForkedOwned(v, owner, k, v');
    SoundBy(v', ForkOwner(owner, k.c, k.fs));
  }

  // ----- what goes wrong otherwise

  /** The directory whose counter was zeroed still maps its first heap page. */
  lemma ZeroedElsewhere(v: View, owner: map<int, (int, int)>, k: Child, v': View, u: int)
    requires Good(v, owner) && IsForked(v, k, v') && !k.own && v.zones[k.c] != 0 && v.myHeap[k.t] != k.c
    requires Live(v, u) && v.myHeap[FirstUser(v.users, u)] == k.c
    ensures !Tables(v')
  {
    ForkedUse(v, owner, k, v');
    hide Counts, Owned;
    assert LiveTable(v.pt[u], HeapOf(v, u));
    assert OwnPage(HeapOf(v, u), HEAP) && v'.pt[u][HEAP].Present?;
    assert HeapOf(v', u) == 0;
    assert !LiveTable(v'.pt[u], 0);
  }

  /** The parent's own counter was zeroed: a heap page is left mapped, or its frame has lost its owner. */
  lemma ZeroedParent(v: View, owner: map<int, (int, int)>, k: Child, v': View, owner': map<int, (int, int)>)
    requires Good(v, owner) && IsForked(v, k, v') && !k.own && v.zones[k.c] != 0 && v.myHeap[k.t] == k.c
    requires Tables(v') && Fresh(v, k.fs)
    ensures !Owned(v', owner')
  {
    ForkedUse(v, owner, k, v');
    var d := v.users[k.t];
    hide Counts;
    assert LiveTable(v.pt[d], HeapOf(v, d));
    var g := v.pt[d][HEAP].frame;
    assert OwnPage(HeapOf(v, d), HEAP);
    assert owner[g] == (d, HEAP);
    assert UserFrame(g) && v'.phys[g];
    if g in owner' {
      var (u, p) := owner'[g];
      if Live(v', u) && OwnPage(HeapOf(v', u), p) && p < TOTAL_PAGES && v'.pt[u][p].Present? {
        LostFrame(v, owner, k, v', u, p, g);
      }
      assert !Owns(v', owner'[g].0, owner'[g].1, g);
    }
  }

  lemma LostFrame(v: View, owner: map<int, (int, int)>, k: Child, v': View, u: int, p: int, g: nat)
    requires Good(v, owner) && IsForked(v, k, v') && !k.own && v.zones[k.c] != 0 && v.myHeap[k.t] == k.c
    requires Fresh(v, k.fs) && g in owner && owner[g] == (v.users[k.t], HEAP)
    requires Live(v', u) && OwnPage(HeapOf(v', u), p) && p < TOTAL_PAGES && v'.pt[u][p].Present?
    ensures v'.pt[u][p].frame != g
  {
    ForkedUse(v, owner, k, v');
    if u == k.c {
      LostToChild(v, owner, k, v', p, g);
    } else {
      hide Counts, Tables, Fresh;
      assert HeapOf(v', u) == 0 || HeapOf(v', u) == HeapOf(v, u);
      assert v'.pt[u][p] == v.pt[u][p];
      assert owner[v.pt[u][p].frame] == (u, p);
    }
  }

  lemma LostToChild(v: View, owner: map<int, (int, int)>, k: Child, v': View, p: int, g: nat)
    requires Good(v, owner) && IsForked(v, k, v') && !k.own && v.myHeap[k.t] == k.c
    requires Fresh(v, k.fs) && g in owner && Live(v', k.c) && v'.myHeap[FirstUser(v'.users, k.c)] == k.c
    requires OwnPage(HeapOf(v', k.c), p) && p < TOTAL_PAGES && v'.pt[k.c][p].Present?
    ensures v'.pt[k.c][p].frame != g
  {
    hide Counts, Tables, PagesNamed, CodeKept;
    assert HeapOf(v', k.c) == 0;
    assert v'.pt[k.c][p] == Present(k.fs[p - DATA]);
    assert k.fs[p - DATA] in k.fs;
  }

  /** fork as written keeps everything sound exactly when the counter it zeroes, that of the child's
      directory, is zero already or no live directory's. */
  lemma ForkIff(v: View, k: Child)
    requires Shaped(v) && Sound(v) && Forkable(v, k) && !k.own
    ensures Shaped(Forked(v, k)) && (Sound(Forked(v, k)) <==> Harmless(v, k.c, false))
  {
    var owner := OwnerOf(v);
    hide Sound, Good;
    ForkBasics(v, owner, k);
    var v' := Forked(v, k);
    assert IsForked(v, k, v');
    hide Forked, Forkable, IsForked;
    if Harmless(v, k.c, false) {
      ForkKeeps(v, owner, k, v');
    } else if Sound(v') {
      ZeroedUnsound(v, owner, k, v');
    }
  }

  lemma ZeroedUnsound(v: View, owner: map<int, (int, int)>, k: Child, v': View)
    requires Good(v, owner) && IsForked(v, k, v') && !k.own && !Harmless(v, k.c, false) && Fresh(v, k.fs)
    ensures !Sound(v')
  {
    var u :| Live(v, u) && v.myHeap[FirstUser(v.users, u)] == k.c;
    assert v.zones[k.c] != 0;
    hide Good, IsForked, Sound, Fresh;
    if Sound(v') {
      SoundParts(v');
      if v.myHeap[k.t] == k.c {
        var owner' := OwnerOf(v');
        ZeroedParent(v, owner, k, v', owner');
        GoodOwned(v', owner');
      } else {
        ZeroedElsewhere(v, owner, k, v', u);
      }
    }
  }

  lemma GoodOwned(v: View, owner: map<int, (int, int)>)
    requires Good(v, owner)
    ensures Owned(v, owner)
  {
  }

  /** After any fork as written, parent and child share a counter: the next change of the heap of either
      makes the other's counter wrong. */
  lemma ForkSharesCounter(v: View, k: Child)
    requires Shaped(v) && Sound(v) && Forkable(v, k) && !k.own
    ensures var v', d := Forked(v, k), v.users[k.t];
            Shaped(v') && Live(v', d) && Live(v', k.c) && !SoleCounter(v', d) && !SoleCounter(v', k.c)
  {
    hide Sound;
    var owner := OwnerOf(v);
    ForkBasics(v, owner, k);
    var v', d := Forked(v, k), v.users[k.t];
    ForkedUse(v, owner, k, v');
    hide Good, Forked, IsForked;
    assert v'.myHeap[FirstUser(v'.users, k.c)] == v'.myHeap[FirstUser(v'.users, d)];
  }

  lemma ForkBasics(v: View, owner: map<int, (int, int)>, k: Child)
    requires Good(v, owner) && MayFork(v, k)
    ensures v.users[k.t] < NR_TASKS && 0 <= ForkHeap(v, k.t, k.c)
    ensures |k.fs| == NUM_PAG_DATA + ForkHeap(v, k.t, k.c) && |k.data| == TOTAL_PAGES ==> Shaped(Forked(v, k))
  {
    LiveOfTask(v, k.t);
    assert LiveTable(v.pt[v.users[k.t]], HeapOf(v, v.users[k.t]));
    hide Counts, Tables, Owned;
  }

  /** Where the zeroed counter hurts nobody, the child gets a heap as large as its parent's. */
  lemma HarmlessHeap(v: View, owner: map<int, (int, int)>, k: Child)
    requires Good(v, owner) && MayFork(v, k) && Harmless(v, k.c, k.own)
    ensures ForkHeap(v, k.t, k.c) == v.zones[v.myHeap[k.t]]
  {
    LiveOfTask(v, k.t);
  }

  /** With a counter of its own for the child, no other condition is needed while directories use their own. */
  lemma OwnForkKeeps(v: View, k: Child)
    requires Shaped(v) && Sound(v) && Forkable(v, k) && k.own && OwnCounters(v)
    ensures Shaped(Forked(v, k)) && Sound(Forked(v, k)) && OwnCounters(Forked(v, k))
  {
    hide Sound;
    var owner := OwnerOf(v);
    ForkBasics(v, owner, k);
    LiveByRefs(v, k.c);
    ForkHarmless(v, k);
    assert IsForked(v, k, Forked(v, k));
    hide Good, Harmless, Fresh, IsForked;
    ForkKeeps(v, owner, k, Forked(v, k));
  }

  lemma ForkHarmless(v: View, k: Child)
    requires Shaped(v) && Forkable(v, k) && k.own && OwnCounters(v) && !Live(v, k.c)
    ensures Harmless(v, k.c, true)
  {
    hide Fresh;
    forall u | Live(v, u) ensures v.myHeap[FirstUser(v.users, u)] != k.c {
      assert v.users[FirstUser(v.users, u)] == u;
    }
  }

  /** Every directory counts its heap in its own entry of heap_zones, as allocate_heap set it up. */
  ghost predicate OwnCounters(v: View)
    requires Shaped(v)
  {
    forall t :: 0 <= t < NR_TASKS && v.users[t] >= 2 ==> v.myHeap[t] == v.users[t]
  }

  lemma OwnCountersAreSole(v: View, d: int)
    requires Shaped(v) && OwnCounters(v) && Live(v, d)
    ensures SoleCounter(v, d)
  {
  }

  /** fork found too few frames: it returns the ones it took, but not the directory. */
  function ForkShort(v: View, t: nat, f: nat, c: nat): View
    requires Bounded(v, t, c) && f < NR_TASKS
  {
    v.(refs := v.refs[c := v.refs[c] + 1], zones := v.zones[c := 0], myHeap := v.myHeap[f := v.myHeap[t]])
  }

  /** The same fork repaired: it has given the directory back as well. */
  function ForkRefused(v: View, t: nat, f: nat, c: nat): View
    requires Bounded(v, t, c) && f < NR_TASKS
  {
    v.(zones := v.zones[c := ForkHeap(v, t, c)], myHeap := v.myHeap[f := c])
  }

  lemma RefusedKeeps(v: View, t: nat, f: nat, c: nat)
    requires Shaped(v) && Sound(v) && OwnCounters(v) && 1 <= t < NR_TASKS && v.users[t] >= 2
    requires 1 <= f < NR_TASKS && v.users[f] == -1 && 2 <= c < NR_TASKS && v.refs[c] == 0
    ensures var v' := ForkRefused(v, t, f, c); Shaped(v') && Sound(v') && OwnCounters(v')
  {
    var owner := OwnerOf(v);
    SoundParts(v);
    hide Sound, Good, Tables;
    RefusedUse(v, t, f, c);
    hide Counts, ForkRefused, SameUse, OwnCounters;
    SameUseKeeps(v, ForkRefused(v, t, f, c), owner);
    SoundBy(ForkRefused(v, t, f, c), owner);
  }

  lemma RefusedUse(v: View, t: nat, f: nat, c: nat)
    requires Shaped(v) && Counts(v) && OwnCounters(v) && 1 <= t < NR_TASKS && v.users[t] >= 2
    requires 1 <= f < NR_TASKS && v.users[f] == -1 && 2 <= c < NR_TASKS && v.refs[c] == 0
    ensures var v' := ForkRefused(v, t, f, c); Shaped(v') && Counts(v') && SameUse(v, v') && OwnCounters(v')
  {
    LiveByRefs(v, c);
    var v' := ForkRefused(v, t, f, c);
    hide ForkHeap;
    forall u | Live(v, u) ensures v.myHeap[FirstUser(v.users, u)] == u && HeapOf(v', u) == HeapOf(v, u) {
      assert v.users[FirstUser(v.users, u)] == u;
    }
  }

  /** After a fork that ran out of frames the counts are never exact again for that directory. */
  lemma ShortForkLeaks(v: View, t: nat, f: nat, c: nat)
    requires Shaped(v) && Sound(v) && 2 <= c < NR_TASKS && t < NR_TASKS && f < NR_TASKS
    ensures Shaped(ForkShort(v, t, f, c)) && !Sound(ForkShort(v, t, f, c))
  {
    SoundParts(v);
    var v' := ForkShort(v, t, f, c);
    hide Sound, Tables;
    if Sound(v') {
      SoundParts(v');
    }
  }

  /** Without a free directory the child runs in its parent's, but nobody counts it. */
  lemma NoDirectoryMiscounts(v: View, t: nat, f: nat, v': View)
    requires Shaped(v) && Sound(v) && 1 <= t < NR_TASKS && v.users[t] >= 2 && 1 <= f < NR_TASKS && v.users[f] == -1
    requires Shaped(v') && v'.users == v.users[f := v.users[t]] && v'.refs == v.refs
    ensures !Sound(v')
  {
    SoundParts(v);
    hide Sound, Tables;
    UsersChanged(v, f, v.users[t], v');
    assert v'.refs[v.users[t]] == Count(v.users, v.users[t]) < Count(v'.users, v.users[t]);
    if Sound(v') {
      SoundParts(v');
    }
  }

  /** fork copies kernel page 0 with the others: the page that boot left out of every table, so that
      address 0 faults, is mapped in every child. */
  lemma ForkMapsPageZero(v: View, k: Child)
    requires Shaped(v) && Forkable(v, k)
    ensures forall p :: 0 <= p < NUM_PAG_KERNEL ==>
              Forked(v, k).pt[k.c][p] == Present(FrameOf(v.pt[v.users[k.t]][p]))
    ensures v.pt[v.users[k.t]][0] == Absent ==> Forked(v, k).pt[k.c][0] == Present(0)
  {
    var h := ForkHeap(v, k.t, k.c);
    assert forall p :: 0 <= p < NUM_PAG_KERNEL ==>
        ChildTable(v.pt[k.c], v.pt[v.users[k.t]], k.fs, h)[p] == Present(FrameOf(v.pt[v.users[k.t]][p]));
  }

  // ----- what parent and child read

  /** What a page reads through a table. */
  function Reads(v: View, d: nat, p: nat): Page
    requires d < |v.pt| && p < |v.pt[d]| && v.pt[d][p].Present? && v.pt[d][p].frame < |v.data|
  {
    v.data[v.pt[d][p].frame]
  }

  /** fork copied every page: the child's `i`-th frame holds what the parent's `i`-th page held, and no
      other frame changed. */
  ghost predicate PagesCopied(v: View, d: nat, fs: seq<nat>, data: seq<Page>)
    requires Shaped(v) && d < NR_TASKS
  {
    && |data| == TOTAL_PAGES
    && (forall i :: 0 <= i < |fs| ==>
          && fs[i] < TOTAL_PAGES && NthPage(i) < TOTAL_PAGES && v.pt[d][NthPage(i)].Present?
          && v.pt[d][NthPage(i)].frame < TOTAL_PAGES && data[fs[i]] == v.data[v.pt[d][NthPage(i)].frame])
    && (forall g :: 0 <= g < TOTAL_PAGES && g !in fs ==> data[g] == v.data[g])
  }

  /** The child reads on each of its own pages what its parent read at the call, from frames that are
      nobody else's; it shares the code frames; nothing the parent or any other directory maps or reads
      on its own pages has changed. */
  lemma ChildReads(v: View, k: Child, u: int, p: nat)
    requires Shaped(v) && Sound(v) && Forkable(v, k) && Harmless(v, k.c, k.own)
    requires PagesCopied(v, v.users[k.t], k.fs, k.data)
    requires Live(v, u) && p < TOTAL_PAGES
    ensures var v', d := Forked(v, k), v.users[k.t];
            && (OwnPage(ForkHeap(v, k.t, k.c), p) ==>
                  && v'.pt[k.c][p].Present? && v'.pt[k.c][p].frame in k.fs
                  && v.pt[d][p].Present? && v.pt[d][p].frame < TOTAL_PAGES
                  && Reads(v', k.c, p) == Reads(v, d, p)
                  && (forall q :: 0 <= q < TOTAL_PAGES && v'.pt[u][q].Present? && OwnPage(HeapOf(v, u), q) ==>
                        v'.pt[u][q].frame != v'.pt[k.c][p].frame))
            && (CODE <= p < CODE + NUM_PAG_CODE ==> v'.pt[k.c][p] == v.pt[d][p])
            && v'.pt[u] == v.pt[u]
            && (OwnPage(HeapOf(v, u), p) ==>
                  v.pt[u][p].Present? && v.pt[u][p].frame < TOTAL_PAGES && Reads(v', u, p) == Reads(v, u, p))
  {
    var owner := OwnerOf(v);
    hide Sound, Good, Harmless;
    var v', d := Forked(v, k), v.users[k.t];
    ForkBasics(v, owner, k);
    assert IsForked(v, k, v');
    ForkedFields(v, owner, k, v');
    ParentFits(v, owner, d);
    CodeShared(v, owner, k, v', p);
    hide Forked, IsForked, Forkable, ForkHeap, HeapOf, ChildTable;
    if OwnPage(HeapOf(v, d), p) {
      var i := if p < HEAP then p - DATA else NUM_PAG_DATA + p - HEAP;
      ChildPages(v.pt[k.c], v.pt[d], k.fs, HeapOf(v, d), i);
      assert NthPage(i) == p;
    }
    hide PagesCopied, NthPage;
    forall q | 0 <= q < TOTAL_PAGES && OwnPage(HeapOf(v, u), q)
      ensures v.pt[u][q].Present? && v.pt[u][q].frame < TOTAL_PAGES && v.pt[u][q].frame !in k.fs
    {
      OldPage(v, owner, k.fs, u, q);
    }
  }

  /** A page of a live directory is not on a frame alloc_frame can hand out. */
  lemma OldPage(v: View, owner: map<int, (int, int)>, fs: seq<nat>, u: int, q: nat)
    requires Good(v, owner) && Fresh(v, fs) && Live(v, u) && OwnPage(HeapOf(v, u), q) && q < TOTAL_PAGES
    ensures v.pt[u][q].Present? && v.pt[u][q].frame < TOTAL_PAGES && v.pt[u][q].frame !in fs
  {
    hide Counts, Tables;
    assert v.pt[u][q].frame in owner;
  }

  lemma CodeShared(v: View, owner: map<int, (int, int)>, k: Child, v': View, p: nat)
    requires Good(v, owner) && IsForked(v, k, v') && Harmless(v, k.c, k.own) && p < TOTAL_PAGES
    ensures CODE <= p < CODE + NUM_PAG_CODE ==> v'.pt[k.c][p] == v.pt[v.users[k.t]][p]
  {
    var d := v.users[k.t];
    ForkedFields(v, owner, k, v');
    hide Counts, Owned;
    assert LiveTable(v.pt[d], HeapOf(v, d));
  }

  // ----- the temporary window

  /** Where in the parent's table fork maps the child's `i`-th page for the copy: the two loops of
      sys.c:109-122 use different offsets. */
  function WindowPage(i: nat, h: nat): nat {
    if i < NUM_PAG_DATA then NthPage(i) + NUM_PAG_DATA + NUM_PAG_CODE + h else NthPage(i) + NUM_PAG_DATA + h
  }

  /** The window fits below the end of the table, for every heap and free frames enough to fork; its
      pages are unmapped beforehand and pairwise different over both loops. */
  lemma WindowSafe(v: View, t: nat, fs: seq<nat>, i: nat, j: nat)
    requires Shaped(v) && Sound(v) && 1 <= t < NR_TASKS && v.users[t] >= 2 && Fresh(v, fs)
    requires |fs| == NUM_PAG_DATA + v.zones[v.myHeap[t]] && i < |fs| && j < |fs|
    ensures 2 <= v.users[t] < NR_TASKS && 0 <= v.zones[v.myHeap[t]]
    ensures var h := v.zones[v.myHeap[t]];
            && WindowPage(i, h) < TOTAL_PAGES && v.pt[v.users[t]][WindowPage(i, h)] == Absent
            && (WindowPage(i, h) == WindowPage(j, h) ==> i == j)
            && HEAP + h <= WindowPage(i, h) < HEAP + h + NUM_PAG_DATA + h
  {
    hide Sound;
    var owner := OwnerOf(v);
    LiveOfTask(v, t);
    HeapFits(v, owner, v.users[t], fs);
    assert LiveTable(v.pt[v.users[t]], HeapOf(v, v.users[t]));
  }
}
