/** What each call does to frames, tables and counters, and when it keeps them sound. */
module FrameSteps {
  import opened Params
  import opened FrameModel

  /** No other live directory reads its heap size from the counter that directory `d` uses. */
  ghost predicate SoleCounter(v: View, d: int)
    requires Shaped(v) && Live(v, d)
  {
    forall u :: Live(v, u) && u != d ==> v.myHeap[FirstUser(v.users, u)] != v.myHeap[FirstUser(v.users, d)]
  }

  function IndexOf(fs: seq<nat>, f: int): (i: nat)
    requires f >= 0 && f in fs
    ensures i < |fs| && fs[i] == f
  {
    if fs[0] == f then 0 else 1 + IndexOf(fs[1..], f)
  }

  // ----- dyn_mem

  /** dyn_mem grew the heap of directory `d` by the frames `fs`. */
  function Grown(v: View, d: nat, z: nat, fs: seq<nat>): View
    requires d < |v.pt| && z < |v.zones| && 0 <= v.zones[z]
  {
    v.(phys := Mark(v.phys, fs, true),
       pt := v.pt[d := MapRange(v.pt[d], HEAP + v.zones[z], fs)],
       zones := v.zones[z := v.zones[z] + |fs|])
  }

  lemma GrownBasics(v: View, owner: map<int, (int, int)>, d: nat, fs: seq<nat>)
    requires Good(v, owner) && Live(v, d) && Fresh(v, fs)
    ensures var h := HeapOf(v, d);
            && 0 <= h && HEAP + h + |fs| <= TOTAL_PAGES && v.zones[v.myHeap[FirstUser(v.users, d)]] == h
            && var v' := Grown(v, d, v.myHeap[FirstUser(v.users, d)], fs);
            && Shaped(v') && Counts(v') && (forall u :: Live(v', u) == Live(v, u)) && HeapOf(v', d) == h + |fs|
            && (forall u ::
                  Live(v, u) && v.myHeap[FirstUser(v.users, u)] != v.myHeap[FirstUser(v.users, d)]
                  ==> HeapOf(v', u) == HeapOf(v, u))
  {
    HeapFits(v, owner, d, fs);
    assert LiveTable(v.pt[d], HeapOf(v, d));
    hide Tables, Owned;
  }

  lemma GrownTables(v: View, d: nat, fs: seq<nat>, v': View)
    requires Shaped(v) && Tables(v) && Live(v, d) && SoleCounter(v, d)
    requires var h := HeapOf(v, d);
             && 0 <= h && HEAP + h + |fs| <= TOTAL_PAGES
             && v' == Grown(v, d, v.myHeap[FirstUser(v.users, d)], fs)
    requires Shaped(v')
    ensures Tables(v')
  {
    forall u | 2 <= u < NR_TASKS
      ensures if Live(v', u) then LiveTable(v'.pt[u], HeapOf(v', u)) else DeadTable(v'.pt[u])
    {
      if u == d {
        assert LiveTable(v.pt[d], HeapOf(v, d));
      } else if Live(v, u) {
        assert LiveTable(v.pt[u], HeapOf(v, u));
        assert HeapOf(v', u) == HeapOf(v, u);
      } else {
        assert DeadTable(v.pt[u]);
      }
    }
  }

  ghost function GrownOwner(owner: map<int, (int, int)>, d: int, start: int, fs: seq<nat>): map<int, (int, int)> {
    map f: int | f in owner.Keys + (set x: nat | x in fs :: x as int) ::
      if f >= 0 && f in fs then (d, start + IndexOf(fs, f)) else if f in owner then owner[f] else (0, 0)
  }

  ghost predicate IsGrown(v: View, d: nat, fs: seq<nat>, v': View)
    requires Shaped(v) && Live(v, d)
  {
    && 0 <= HeapOf(v, d) && HEAP + HeapOf(v, d) + |fs| <= TOTAL_PAGES
    && v' == Grown(v, d, v.myHeap[FirstUser(v.users, d)], fs) && Shaped(v')
  }

  /** The grown state read off entry by entry. */
  lemma GrownFields(v: View, d: nat, fs: seq<nat>, v': View)
    requires Shaped(v) && Live(v, d) && SoleCounter(v, d) && IsGrown(v, d, fs, v')
    ensures forall u :: Live(v', u) == Live(v, u)
    ensures forall u :: Live(v, u) ==> HeapOf(v', u) == HeapOf(v, u) + if u == d then |fs| else 0
    ensures forall f :: 0 <= f < TOTAL_PAGES ==> v'.phys[f] == (v.phys[f] || f in fs)
    ensures forall u, p :: Live(v, u) && 0 <= p < TOTAL_PAGES ==>
              v'.pt[u][p] == if u == d && HEAP + HeapOf(v, d) <= p < HEAP + HeapOf(v, d) + |fs|
                             then Present(fs[p - HEAP - HeapOf(v, d)]) else v.pt[u][p]
  {
  }

  lemma GrownOwners(v: View, owner: map<int, (int, int)>, d: nat, fs: seq<nat>, v': View, f: int)
    requires Good(v, owner) && Live(v, d) && Fresh(v, fs) && SoleCounter(v, d) && IsGrown(v, d, fs, v')
    ensures var owner' := GrownOwner(owner, d, HEAP + HeapOf(v, d), fs);
            NamedAt(v', owner', f)
  {
    hide Counts, Tables;
    GrownFields(v, d, fs, v');
    hide IsGrown, SoleCounter;
    if f in owner {
      assert Owns(v, owner[f].0, owner[f].1, f);
    }
  }

  lemma GrownPages(v: View, owner: map<int, (int, int)>, d: nat, fs: seq<nat>, v': View, u: int, p: int)
    requires Good(v, owner) && Live(v, d) && Fresh(v, fs) && SoleCounter(v, d) && IsGrown(v, d, fs, v')
    requires Live(v', u) && OwnPage(HeapOf(v', u), p) && p < TOTAL_PAGES
    ensures var owner' := GrownOwner(owner, d, HEAP + HeapOf(v, d), fs);
            v'.pt[u][p].Present? && v'.pt[u][p].frame in owner' && owner'[v'.pt[u][p].frame] == (u, p)
  {
    hide Counts, Tables;
    GrownFields(v, d, fs, v');
    hide IsGrown, SoleCounter;
    var h := HeapOf(v, d);
    if u == d && p >= HEAP + h {
      var i := p - HEAP - h;
      assert fs[i] in fs;
      var j := IndexOf(fs, fs[i]);
      assert fs[j] == fs[i];
    } else {
      assert v.pt[u][p].frame in owner && owner[v.pt[u][p].frame] == (u, p);
    }
  }

  lemma GrownOwned(v: View, owner: map<int, (int, int)>, d: nat, fs: seq<nat>, v': View)
    requires Good(v, owner) && Live(v, d) && Fresh(v, fs) && SoleCounter(v, d) && IsGrown(v, d, fs, v')
    ensures Owned(v', GrownOwner(owner, d, HEAP + HeapOf(v, d), fs))
  {
    hide Counts, Tables, GrownOwner, SoleCounter, HeapOf;
    var owner' := GrownOwner(owner, d, HEAP + HeapOf(v, d), fs);
    assert FramesNamed(v', owner') by {
      hide NamedAt, FramesNamed;
      forall f: int ensures NamedAt(v', owner', f) {
        GrownOwners(v, owner, d, fs, v', f);
      }
      FramesNamedBy(v', owner');
    }
    forall u, p | Live(v', u) && OwnPage(HeapOf(v', u), p) && p < TOTAL_PAGES
      ensures v'.pt[u][p].Present? && v'.pt[u][p].frame in owner' && owner'[v'.pt[u][p].frame] == (u, p)
    {
      GrownPages(v, owner, d, fs, v', u, p);
    }
    forall i | CODE <= i < CODE + NUM_PAG_CODE ensures v'.phys[CodeFrame(i)] {
      assert v.phys[CodeFrame(i)];
    }
  }

  /** Growing the heap keeps everything sound exactly when no other directory shares the counter. */
  lemma GrowIff(v: View, d: nat, fs: seq<nat>)
    requires Shaped(v) && Sound(v) && Live(v, d) && Fresh(v, fs) && fs != []
    ensures 0 <= v.zones[v.myHeap[FirstUser(v.users, d)]]
    ensures var v' := Grown(v, d, v.myHeap[FirstUser(v.users, d)], fs);
            Shaped(v') && (Sound(v') <==> SoleCounter(v, d))
  {
    var owner := OwnerOf(v);
    hide Sound, Good, SoleCounter, Fresh, Grown;
    GrownBasics(v, owner, d, fs);
    var v' := Grown(v, d, v.myHeap[FirstUser(v.users, d)], fs);
    if SoleCounter(v, d) {
      GrowKeeps(v, owner, d, fs, v');
    } else {
      var u := Sharer(v, d);
      SoundParts(v);
      SharedGrowth(v, d, fs, v', u);
      if Sound(v') {
        SoundParts(v');
      }
    }
  }

  lemma GrowKeeps(v: View, owner: map<int, (int, int)>, d: nat, fs: seq<nat>, v': View)
    requires Good(v, owner) && Live(v, d) && Fresh(v, fs) && SoleCounter(v, d) && IsGrown(v, d, fs, v')
    ensures Sound(v')
  {
    GrownOwned(v, owner, d, fs, v');
    hide Sound, Owned, SoleCounter, Fresh;
    GrownTables(v, d, fs, v');
    GrownCounts(v, d, fs, v');
    hide Tables, Counts, IsGrown;
    SoundBy(v', GrownOwner(owner, d, HEAP + HeapOf(v, d), fs));
  }

  lemma GrownCounts(v: View, d: nat, fs: seq<nat>, v': View)
    requires Shaped(v) && Counts(v) && Live(v, d) && IsGrown(v, d, fs, v')
    ensures Counts(v')
  {
  }

  /** Another directory with the same counter. */
  lemma Sharer(v: View, d: nat) returns (u: int)
    requires Shaped(v) && Live(v, d) && !SoleCounter(v, d)
    ensures Live(v, u) && u != d && v.myHeap[FirstUser(v.users, u)] == v.myHeap[FirstUser(v.users, d)]
  {
    u :| Live(v, u) && u != d && v.myHeap[FirstUser(v.users, u)] == v.myHeap[FirstUser(v.users, d)];
  }

  /** The other directory's counter now promises a page its table does not map. */
  lemma SharedGrowth(v: View, d: nat, fs: seq<nat>, v': View, u: int)
    requires Shaped(v) && Tables(v) && Live(v, d) && fs != [] && Live(v, u) && u != d
    requires v.myHeap[FirstUser(v.users, u)] == v.myHeap[FirstUser(v.users, d)]
    requires 0 <= HeapOf(v, d) && v' == Grown(v, d, v.myHeap[FirstUser(v.users, d)], fs) && Shaped(v')
    ensures !Tables(v')
  {
    var h := HeapOf(v, u);
    assert LiveTable(v.pt[u], h);
    assert HeapOf(v', u) == h + |fs|;
    assert OwnPage(h + |fs|, HEAP + h);
    assert HEAP + h < TOTAL_PAGES ==> v'.pt[u][HEAP + h] == Absent;
    assert !LiveTable(v'.pt[u], h + |fs|);
  }

  /** dyn_mem took the last `n` heap pages of directory `d` away. */
  function Shrunk(v: View, d: nat, z: nat, n: nat): View
    requires d < |v.pt| && z < |v.zones| && n <= v.zones[z] && HEAP + v.zones[z] <= |v.pt[d]|
  {
    var top := HEAP + v.zones[z];
    v.(phys := Mark(v.phys, FramesIn(v.pt[d], top - n, top), false),
       pt := v.pt[d := UnmapRange(v.pt[d], top - n, top)],
       zones := v.zones[z := v.zones[z] - n])
  }

  ghost predicate IsShrunk(v: View, d: nat, n: nat, v': View)
    requires Shaped(v) && Live(v, d)
  {
    && n <= HeapOf(v, d) && HEAP + HeapOf(v, d) <= TOTAL_PAGES
    && v' == Shrunk(v, d, v.myHeap[FirstUser(v.users, d)], n) && Shaped(v')
  }

  /** The shrunk state read off entry by entry. */
  lemma ShrunkFields(v: View, d: nat, n: nat, v': View)
    requires Shaped(v) && Live(v, d) && SoleCounter(v, d) && IsShrunk(v, d, n, v')
    ensures forall u :: Live(v', u) == Live(v, u)
    ensures forall u :: Live(v, u) ==> HeapOf(v', u) == HeapOf(v, u) - if u == d then n else 0
    ensures var top := HEAP + HeapOf(v, d);
            forall f :: 0 <= f < TOTAL_PAGES ==> v'.phys[f] == (v.phys[f] && f !in FramesIn(v.pt[d], top - n, top))
    ensures forall u, p :: Live(v, u) && 0 <= p < TOTAL_PAGES ==>
              v'.pt[u][p] == if u == d && HEAP + HeapOf(v, d) - n <= p < HEAP + HeapOf(v, d) then Absent else v.pt[u][p]
  {
  }

  /** The frames of a stretch of a live directory's own pages are those it owns there. */
  lemma FramesOwned(v: View, owner: map<int, (int, int)>, d: nat, lo: nat, hi: nat, f: int)
    requires Good(v, owner) && Live(v, d) && lo <= hi <= TOTAL_PAGES && f >= 0
    requires forall p :: lo <= p < hi ==> OwnPage(HeapOf(v, d), p)
    ensures f in FramesIn(v.pt[d], lo, hi) <==> f in owner && owner[f].0 == d && lo <= owner[f].1 < hi
  {
    hide Counts, Tables;
    var fs := FramesIn(v.pt[d], lo, hi);
    if f in fs {
      var i :| 0 <= i < |fs| && fs[i] == f;
      assert OwnPage(HeapOf(v, d), lo + i);
    }
    if f in owner && owner[f].0 == d && lo <= owner[f].1 < hi {
      assert Owns(v, d, owner[f].1, f);
      assert fs[owner[f].1 - lo] == f;
    }
  }

  ghost function ShrunkOwner(owner: map<int, (int, int)>, d: int, lo: int, hi: int): map<int, (int, int)> {
    map f: int | f in owner && !(owner[f].0 == d && lo <= owner[f].1 < hi) :: owner[f]
  }

  lemma ShrunkOwners(v: View, owner: map<int, (int, int)>, d: nat, n: nat, v': View, f: int)
    requires Good(v, owner) && Live(v, d) && SoleCounter(v, d) && IsShrunk(v, d, n, v')
    ensures var owner' := ShrunkOwner(owner, d, HEAP + HeapOf(v, d) - n, HEAP + HeapOf(v, d));
            NamedAt(v', owner', f)
  {
    hide Counts, Tables;
    ShrunkFields(v, d, n, v');
    hide IsShrunk, SoleCounter;
    var top := HEAP + HeapOf(v, d);
    if f >= 0 {
      FramesOwned(v, owner, d, top - n, top, f);
    }
    hide FramesIn;
    if f in owner {
      assert Owns(v, owner[f].0, owner[f].1, f);
    }
  }

  lemma ShrunkPages(v: View, owner: map<int, (int, int)>, d: nat, n: nat, v': View, u: int, p: int)
    requires Good(v, owner) && Live(v, d) && SoleCounter(v, d) && IsShrunk(v, d, n, v')
    requires Live(v', u) && OwnPage(HeapOf(v', u), p) && p < TOTAL_PAGES
    ensures var owner' := ShrunkOwner(owner, d, HEAP + HeapOf(v, d) - n, HEAP + HeapOf(v, d));
            v'.pt[u][p].Present? && v'.pt[u][p].frame in owner' && owner'[v'.pt[u][p].frame] == (u, p)
  {
    hide Counts, Tables;
    ShrunkFields(v, d, n, v');
    hide IsShrunk, SoleCounter, FramesIn;
    assert OwnPage(HeapOf(v, u), p);
  }

  lemma ShrunkOwned(v: View, owner: map<int, (int, int)>, d: nat, n: nat, v': View)
    requires Good(v, owner) && Live(v, d) && SoleCounter(v, d) && IsShrunk(v, d, n, v')
    ensures Owned(v', ShrunkOwner(owner, d, HEAP + HeapOf(v, d) - n, HEAP + HeapOf(v, d)))
  {
    ShrunkCode(v, owner, d, n, v');
    hide Counts, Tables, ShrunkOwner, SoleCounter, HeapOf;
    var owner' := ShrunkOwner(owner, d, HEAP + HeapOf(v, d) - n, HEAP + HeapOf(v, d));
    assert FramesNamed(v', owner') by {
      hide NamedAt, FramesNamed;
      forall f: int ensures NamedAt(v', owner', f) {
        ShrunkOwners(v, owner, d, n, v', f);
      }
      FramesNamedBy(v', owner');
    }
    forall u, p | Live(v', u) && OwnPage(HeapOf(v', u), p) && p < TOTAL_PAGES
      ensures v'.pt[u][p].Present? && v'.pt[u][p].frame in owner' && owner'[v'.pt[u][p].frame] == (u, p)
    {
      ShrunkPages(v, owner, d, n, v', u, p);
    }
  }

  /** No code frame is ever freed. */
  lemma ShrunkCode(v: View, owner: map<int, (int, int)>, d: nat, n: nat, v': View)
    requires Good(v, owner) && Live(v, d) && SoleCounter(v, d) && IsShrunk(v, d, n, v')
    ensures forall i :: CODE <= i < CODE + NUM_PAG_CODE ==> v'.phys[CodeFrame(i)]
  {
    hide Counts, Tables;
    ShrunkFields(v, d, n, v');
    hide IsShrunk, SoleCounter, FramesIn;
    var top := HEAP + HeapOf(v, d);
    forall i | CODE <= i < CODE + NUM_PAG_CODE ensures v'.phys[CodeFrame(i)] {
      FramesOwned(v, owner, d, top - n, top, CodeFrame(i));
    }
  }

  lemma ShrunkTables(v: View, d: nat, n: nat, v': View)
    requires Shaped(v) && Tables(v) && Counts(v) && Live(v, d) && SoleCounter(v, d) && IsShrunk(v, d, n, v')
    ensures Tables(v') && Counts(v')
  {
    ShrunkFields(v, d, n, v');
    hide Counts;
    forall u | 2 <= u < NR_TASKS
      ensures if Live(v', u) then LiveTable(v'.pt[u], HeapOf(v', u)) else DeadTable(v'.pt[u])
    {
      if Live(v, u) {
        assert LiveTable(v.pt[u], HeapOf(v, u));
      } else {
        assert DeadTable(v.pt[u]);
      }
    }
  }

  /** Shrinking the heap keeps everything sound exactly when no other directory shares the counter. */
  lemma ShrinkIff(v: View, d: nat, n: nat)
    requires Shaped(v) && Sound(v) && Live(v, d) && 0 < n <= v.zones[v.myHeap[FirstUser(v.users, d)]]
    ensures HEAP + HeapOf(v, d) <= TOTAL_PAGES
    ensures var v' := Shrunk(v, d, v.myHeap[FirstUser(v.users, d)], n);
            Shaped(v') && (Sound(v') <==> SoleCounter(v, d))
  {
    var owner := OwnerOf(v);
    hide Sound, SoleCounter;
    ShrunkBasics(v, owner, d, n);
    hide Good, Shrunk;
    var v' := Shrunk(v, d, v.myHeap[FirstUser(v.users, d)], n);
    if SoleCounter(v, d) {
      ShrinkKeeps(v, owner, d, n, v');
    } else {
      var u := Sharer(v, d);
      SoundParts(v);
      SharedShrink(v, d, n, v', u);
      if Sound(v') {
        SoundParts(v');
      }
    }
  }

  lemma ShrunkBasics(v: View, owner: map<int, (int, int)>, d: nat, n: nat)
    requires Good(v, owner) && Live(v, d) && 0 < n <= v.zones[v.myHeap[FirstUser(v.users, d)]]
    ensures HEAP + HeapOf(v, d) <= TOTAL_PAGES
    ensures IsShrunk(v, d, n, Shrunk(v, d, v.myHeap[FirstUser(v.users, d)], n))
  {
    assert LiveTable(v.pt[d], HeapOf(v, d));
    hide LiveTable, Tables, Counts, Owned;
  }

  lemma ShrinkKeeps(v: View, owner: map<int, (int, int)>, d: nat, n: nat, v': View)
    requires Good(v, owner) && Live(v, d) && SoleCounter(v, d) && IsShrunk(v, d, n, v')
    ensures Sound(v')
  {
    ShrunkOwned(v, owner, d, n, v');
    hide Sound, Owned, SoleCounter;
    ShrunkTables(v, d, n, v');
    hide Tables, Counts;
    SoundBy(v', ShrunkOwner(owner, d, HEAP + HeapOf(v, d) - n, HEAP + HeapOf(v, d)));
  }

  /** The other directory maps a page its counter no longer covers. */
  lemma SharedShrink(v: View, d: nat, n: nat, v': View, u: int)
    requires Shaped(v) && Tables(v) && Live(v, d) && 0 < n && IsShrunk(v, d, n, v') && Live(v, u) && u != d
    requires v.myHeap[FirstUser(v.users, u)] == v.myHeap[FirstUser(v.users, d)]
    ensures !Tables(v')
  {
    var h := HeapOf(v, u);
    assert LiveTable(v.pt[u], h);
    assert HeapOf(v', u) == h - n;
    assert OwnPage(h, HEAP + h - 1) && v'.pt[u][HEAP + h - 1].Present?;
    assert !LiveTable(v'.pt[u], h - n);
  }

  /** Growing and then shrinking by as much restores tables, frames and counter exactly. */
  lemma GrowThenShrink(v: View, d: nat, fs: seq<nat>)
    requires Shaped(v) && Sound(v) && Live(v, d) && Fresh(v, fs)
    ensures var z := v.myHeap[FirstUser(v.users, d)];
            && 0 <= v.zones[z] && HEAP + v.zones[z] + |fs| <= TOTAL_PAGES
            && Shrunk(Grown(v, d, z, fs), d, z, |fs|) == v
  {
    hide Sound;
    var owner := OwnerOf(v);
    GrownBasics(v, owner, d, fs);
    assert LiveTable(v.pt[d], HeapOf(v, d));
    hide Counts, Tables, Owned;
    var z := v.myHeap[FirstUser(v.users, d)];
    var h := v.zones[z];
    var g := Grown(v, d, z, fs);
    var s := Shrunk(g, d, z, |fs|);
    TakenBack(v.phys, v.pt[d], HEAP + h, fs);
    hide Live, LiveTable, Mark, MapRange, UnmapRange, FramesIn, Fresh;
    assert s.pt == v.pt;
    assert s.zones == v.zones;
  }

  lemma TakenBack(phys: seq<bool>, pt: seq<Entry>, start: nat, fs: seq<nat>)
    requires start + |fs| <= |pt| && (forall p :: start <= p < start + |fs| ==> pt[p] == Absent)
    requires forall f :: f in fs ==> f < |phys| && !phys[f]
    ensures var mapped := MapRange(pt, start, fs);
            && FramesIn(mapped, start, start + |fs|) == fs && UnmapRange(mapped, start, start + |fs|) == pt
            && Mark(Mark(phys, fs, true), fs, false) == phys
  {
  }

  // ----- threads and exit

  /** create_thread: the new task shares its parent's directory and heap counter. */
  function Threaded(v: View, t: nat, f: nat): View
    requires t < |v.users| && f < |v.users| && |v.myHeap| == |v.users| && 0 <= v.users[t] < |v.refs|
  {
    v.(users := v.users[f := v.users[t]], myHeap := v.myHeap[f := v.myHeap[t]],
       refs := v.refs[v.users[t] := v.refs[v.users[t]] + 1])
  }

  /** What makes the users of a directory all that matters: the rest of the state unchanged. */
  ghost predicate SameUse(v: View, v': View)
    requires Shaped(v) && Shaped(v')
  {
    && v'.phys == v.phys && v'.pt == v.pt
    && (forall d :: Live(v', d) == Live(v, d))
    && (forall d :: Live(v, d) ==> HeapOf(v', d) == HeapOf(v, d))
  }

  lemma SameUseKeeps(v: View, v': View, owner: map<int, (int, int)>)
    requires Good(v, owner) && Shaped(v') && Counts(v') && SameUse(v, v')
    ensures Good(v', owner)
  {
    hide Counts;
    forall f | f in owner ensures Owns(v', owner[f].0, owner[f].1, f) {
      assert Owns(v, owner[f].0, owner[f].1, f);
    }
    hide LiveTable, DeadTable;
  }

  lemma UsersChanged(v: View, f: nat, d: int, v': View)
    requires Shaped(v) && Counts(v) && f < NR_TASKS && v'.users == v.users[f := d] && Shaped(v')
    ensures forall u ::
              Count(v'.users, u) == Count(v.users, u) - (if v.users[f] == u then 1 else 0) + (if d == u then 1 else 0)
    ensures forall u :: 2 <= u < NR_TASKS ==>
              (Live(v', u) <==> Count(v'.users, u) > 0) && (Live(v, u) <==> Count(v.users, u) > 0)
  {
    forall u
      ensures Count(v'.users, u) == Count(v.users, u) - (if v.users[f] == u then 1 else 0) + (if d == u then 1 else 0)
    {
      CountUpdate(v.users, f, d, u);
    }
    forall u | 2 <= u < NR_TASKS
      ensures (Live(v', u) <==> Count(v'.users, u) > 0) && (Live(v, u) <==> Count(v.users, u) > 0)
    {
      CountPositive(v.users, u);
      CountPositive(v'.users, u);
    }
  }

  lemma ThreadKeeps(v: View, t: nat, f: nat)
    requires Shaped(v) && Sound(v) && 1 <= t < NR_TASKS && 1 <= f < NR_TASKS && v.users[t] >= 2 && v.users[f] == -1
    ensures v.users[t] < NR_TASKS && Sound(Threaded(v, t, f))
  {
    var owner := OwnerOf(v);
    SoundParts(v);
    hide Sound, Good, Tables;
    assert v.users[t] < NR_TASKS;
    ThreadedUse(v, t, f);
    hide Counts, Threaded, SameUse;
    SameUseKeeps(v, Threaded(v, t, f), owner);
    SoundBy(Threaded(v, t, f), owner);
  }

  lemma ThreadedUse(v: View, t: nat, f: nat)
    requires Shaped(v) && Counts(v) && 1 <= t < NR_TASKS && 1 <= f < NR_TASKS
    requires 2 <= v.users[t] < NR_TASKS && v.users[f] == -1
    ensures var v' := Threaded(v, t, f); Shaped(v') && Counts(v') && SameUse(v, v')
  {
    var v' := Threaded(v, t, f);
    UsersChanged(v, f, v.users[t], v');
    assert Counts(v');
    FirstUsersKept(v, f, v');
  }

  /** Directories that were and are in use keep their counter when one PCB joins or leaves. */
  lemma FirstUsersKept(v: View, f: nat, v': View)
    requires Shaped(v) && Counts(v) && Shaped(v') && Counts(v') && f < NR_TASKS
    requires forall t :: 0 <= t < NR_TASKS && t != f ==> v'.users[t] == v.users[t] && v'.myHeap[t] == v.myHeap[t]
    requires v'.zones == v.zones && forall u :: Live(v', u) <==> Live(v, u)
    requires v.users[f] >= 2 && v'.users[f] >= 2 ==> v'.users[f] == v.users[f] && v'.myHeap[f] == v.myHeap[f]
    ensures forall u :: Live(v, u) ==> HeapOf(v', u) == HeapOf(v, u)
  {
    forall u | Live(v, u) ensures HeapOf(v', u) == HeapOf(v, u) {
      assert v.users[FirstUser(v.users, u)] == u;
      assert v'.users[FirstUser(v'.users, u)] == u;
    }
  }

  /** exit of task `t`: one reference less, and with the last one all its frames. */
  function Exited(v: View, t: nat): View
    requires t < |v.users| && 0 <= v.users[t] < |v.refs| && |v.pt| == |v.refs| && t < |v.myHeap|
    requires v.myHeap[t] < |v.zones| && |v.pt[v.users[t]]| == TOTAL_PAGES
    requires 0 <= v.zones[v.myHeap[t]] <= TOTAL_PAGES - HEAP
  {
    var d := v.users[t];
    var v1 := v.(users := v.users[t := -1], refs := v.refs[d := v.refs[d] - 1]);
    if v1.refs[d] > 0 then v1
    else
      var top := HEAP + v.zones[v.myHeap[t]];
      var freed := FramesIn(v.pt[d], DATA, DATA + NUM_PAG_DATA) + FramesIn(v.pt[d], HEAP, top);
      v1.(phys := Mark(v.phys, freed, false),
          pt := v.pt[d := UnmapRange(UnmapRange(v.pt[d], DATA, DATA + NUM_PAG_DATA), HEAP, top)])
  }

  ghost function LeftOwner(owner: map<int, (int, int)>, d: int): map<int, (int, int)> {
    map f: int | f in owner && owner[f].0 != d :: owner[f]
  }

  ghost predicate IsLastExit(v: View, t: nat, v': View)
    requires Shaped(v)
  {
    && 1 <= t < NR_TASKS && 2 <= v.users[t] < NR_TASKS && v.refs[v.users[t]] == 1
    && 0 <= v.zones[v.myHeap[t]] <= TOTAL_PAGES - HEAP && v' == Exited(v, t) && Shaped(v')
  }

  lemma LastExitFields(v: View, t: nat, v': View, owner: map<int, (int, int)>)
    requires Good(v, owner) && IsLastExit(v, t, v')
    ensures var d := v.users[t];
            && Live(v, d) && Counts(v')
            && (forall u :: Live(v', u) <==> Live(v, u) && u != d)
            && (forall u :: Live(v', u) ==> HeapOf(v', u) == HeapOf(v, u) && v'.pt[u] == v.pt[u])
            && (forall u :: 2 <= u < NR_TASKS && u != d ==> v'.pt[u] == v.pt[u])
            && HeapOf(v, d) == v.zones[v.myHeap[t]]
  {
    hide Tables, Owned;
    var d := v.users[t];
    UsersChanged(v, t, -1, v');
    forall u | Live(v', u) ensures Live(v, u) && u != d && HeapOf(v', u) == HeapOf(v, u) {
      assert v'.users[FirstUser(v'.users, u)] == u;
      assert v.users[FirstUser(v.users, u)] == u;
    }
  }

  lemma LastExitPhys(v: View, t: nat, v': View, owner: map<int, (int, int)>, f: int)
    requires Good(v, owner) && IsLastExit(v, t, v') && 0 <= f < TOTAL_PAGES
    ensures v'.phys[f] == (v.phys[f] && !(f in owner && owner[f].0 == v.users[t]))
  {
    LastExitFields(v, t, v', owner);
    var d, h := v.users[t], HeapOf(v, v.users[t]);
    FramesOwned(v, owner, d, DATA, DATA + NUM_PAG_DATA, f);
    FramesOwned(v, owner, d, HEAP, HEAP + h, f);
    hide Counts, Tables;
    var a, b := FramesIn(v.pt[d], DATA, DATA + NUM_PAG_DATA), FramesIn(v.pt[d], HEAP, HEAP + h);
    assert f in a + b <==> f in a || f in b;
    hide FramesIn;
    if f in owner && owner[f].0 == d {
      assert Owns(v, d, owner[f].1, f);
    }
  }

  lemma LastExitOwner(v: View, t: nat, v': View, owner: map<int, (int, int)>, f: int)
    requires Good(v, owner) && IsLastExit(v, t, v')
    ensures var owner' := LeftOwner(owner, v.users[t]);
            NamedAt(v', owner', f)
  {
    LastExitFields(v, t, v', owner);
    if 0 <= f < TOTAL_PAGES {
      LastExitPhys(v, t, v', owner, f);
    }
    hide Counts, Tables, IsLastExit, HeapOf;
    if f in owner {
      assert Owns(v, owner[f].0, owner[f].1, f);
    }
  }

  lemma LastExitPage(v: View, t: nat, v': View, owner: map<int, (int, int)>, u: int, p: int)
    requires Good(v, owner) && IsLastExit(v, t, v')
    requires Live(v', u) && OwnPage(HeapOf(v', u), p) && p < TOTAL_PAGES
    ensures var owner' := LeftOwner(owner, v.users[t]);
            v'.pt[u][p].Present? && v'.pt[u][p].frame in owner' && owner'[v'.pt[u][p].frame] == (u, p)
  {
    LastExitFields(v, t, v', owner);
    hide Counts, Tables, IsLastExit, HeapOf;
    assert OwnPage(HeapOf(v, u), p);
  }

  lemma LastExitCode(v: View, t: nat, v': View, owner: map<int, (int, int)>)
    requires Good(v, owner) && IsLastExit(v, t, v')
    ensures Shaped(v') && CodeKept(v')
  {
    assert Shaped(v');
    hide Counts, Tables, IsLastExit;
    forall i | CODE <= i < CODE + NUM_PAG_CODE ensures v'.phys[CodeFrame(i)] {
      LastExitPhys(v, t, v', owner, CodeFrame(i));
      assert v.phys[CodeFrame(i)] && CodeFrame(i) !in owner;
    }
  }

  lemma LastExitPages(v: View, t: nat, v': View, owner: map<int, (int, int)>)
    requires Good(v, owner) && IsLastExit(v, t, v')
    ensures Shaped(v') && PagesNamed(v', LeftOwner(owner, v.users[t]))
  {
    assert Shaped(v');
    hide Good, LeftOwner, HeapOf;
    forall u, p | Live(v', u) && OwnPage(HeapOf(v', u), p) && p < TOTAL_PAGES
      ensures v'.pt[u][p].Present? && v'.pt[u][p].frame in LeftOwner(owner, v.users[t])
      ensures LeftOwner(owner, v.users[t])[v'.pt[u][p].frame] == (u, p)
    {
      LastExitPage(v, t, v', owner, u, p);
    }
  }

  lemma LastExitNames(v: View, t: nat, v': View, owner: map<int, (int, int)>)
    requires Good(v, owner) && IsLastExit(v, t, v')
    ensures FramesNamed(v', LeftOwner(owner, v.users[t]))
  {
    assert Shaped(v');
    var owner' := LeftOwner(owner, v.users[t]);
    hide Good, HeapOf, LeftOwner, NamedAt, IsLastExit, FramesNamed;
    forall f: int ensures NamedAt(v', owner', f) {
      LastExitOwner(v, t, v', owner, f);
    }
    FramesNamedBy(v', owner');
  }

  lemma LastExitOwned(v: View, t: nat, v': View, owner: map<int, (int, int)>)
    requires Good(v, owner) && IsLastExit(v, t, v')
    ensures Owned(v', LeftOwner(owner, v.users[t]))
  {
    hide Good, LeftOwner, FramesNamed, PagesNamed, CodeKept;
    LastExitCode(v, t, v', owner);
    LastExitPages(v, t, v', owner);
    LastExitNames(v, t, v', owner);
  }

  lemma LastExitTables(v: View, t: nat, v': View, owner: map<int, (int, int)>)
    requires Good(v, owner) && IsLastExit(v, t, v')
    ensures Tables(v')
  {
    LastExitFields(v, t, v', owner);
    var d := v.users[t];
    assert LiveTable(v.pt[d], HeapOf(v, d));
    hide Counts, Owned;
    forall u | 2 <= u < NR_TASKS
      ensures if Live(v', u) then LiveTable(v'.pt[u], HeapOf(v', u)) else DeadTable(v'.pt[u])
    {
      if u != d {
        assert if Live(v, u) then LiveTable(v.pt[u], HeapOf(v, u)) else DeadTable(v.pt[u]);
      }
    }
  }

  /** exit keeps everything sound: the last task of a directory returns exactly its frames, any other
      returns none. */
  lemma ExitKeeps(v: View, t: nat)
    requires Shaped(v) && Sound(v) && 1 <= t < NR_TASKS && v.users[t] >= 2
    ensures 2 <= v.users[t] < NR_TASKS && 0 <= v.zones[v.myHeap[t]] <= TOTAL_PAGES - HEAP && v.refs[v.users[t]] > 0
    ensures Sound(Exited(v, t))
  {
    var owner := OwnerOf(v);
    SoundParts(v);
    hide Sound, Good, Tables;
    ExitFits(v, owner, t);
    hide Counts, Exited;
    if v.refs[v.users[t]] == 1 {
      LastExitKeeps(v, owner, t);
    } else {
      EarlyExitUse(v, t);
      hide SameUse;
      SameUseKeeps(v, Exited(v, t), owner);
      SoundBy(Exited(v, t), owner);
    }
  }

  lemma LastExitKeeps(v: View, owner: map<int, (int, int)>, t: nat)
    requires Good(v, owner) && 1 <= t < NR_TASKS && 2 <= v.users[t] < NR_TASKS
    requires 0 <= v.zones[v.myHeap[t]] <= TOTAL_PAGES - HEAP && v.refs[v.users[t]] == 1
    ensures Sound(Exited(v, t))
  {
    var v' := Exited(v, t);
    hide Counts, Tables, Owned, Sound;
    assert IsLastExit(v, t, v');
    hide Exited;
    LastExitFields(v, t, v', owner);
    LastExitTables(v, t, v', owner);
    LastExitOwned(v, t, v', owner);
    SoundBy(v', LeftOwner(owner, v.users[t]));
  }

  lemma EarlyExitUse(v: View, t: nat)
    requires Shaped(v) && Counts(v) && 1 <= t < NR_TASKS && 2 <= v.users[t] < NR_TASKS
    requires 0 <= v.zones[v.myHeap[t]] <= TOTAL_PAGES - HEAP && v.refs[v.users[t]] > 1
    ensures var v' := Exited(v, t); Shaped(v') && Counts(v') && SameUse(v, v')
  {
    var v' := Exited(v, t);
    UsersChanged(v, t, -1, v');
    assert Counts(v');
    FirstUsersKept(v, t, v');
  }

  lemma ExitFits(v: View, owner: map<int, (int, int)>, t: nat)
    requires Good(v, owner) && 1 <= t < NR_TASKS && v.users[t] >= 2
    ensures 2 <= v.users[t] < NR_TASKS && 0 <= v.zones[v.myHeap[t]] <= TOTAL_PAGES - HEAP && v.refs[v.users[t]] > 0
  {
    LiveOfTask(v, t);
    LiveByRefs(v, v.users[t]);
    assert LiveTable(v.pt[v.users[t]], HeapOf(v, v.users[t]));
  }
}
