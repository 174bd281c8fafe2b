/** Physical frames, page tables and directory counters of mm.c and sched.c as one value, and what
    has to hold of them: who owns each frame. */
module FrameModel {
  import opened Params
  import opened Words

  const FIRST_USER_FRAME := 272 // boot hands the eight frames below to the code pages
  const FRAMES := 376           // the even frames from there on

  datatype Entry = Absent | Present(frame: nat)

  type Page = seq<byte>

  /** phys_mem, the page tables, dir_pages_num_references, heap_zones; for each task the directory it
      uses (-1 for a free PCB) and the entry of heap_zones its my_heap points to; the frames' contents. */
  datatype View = View(phys: seq<bool>, pt: seq<seq<Entry>>, refs: seq<int>, zones: seq<int>,
                       users: seq<int>, myHeap: seq<nat>, data: seq<Page>)

  ghost predicate Shaped(v: View) {
    && |v.phys| == TOTAL_PAGES && |v.pt| == NR_TASKS && (forall d :: 0 <= d < NR_TASKS ==> |v.pt[d]| == TOTAL_PAGES)
    && |v.refs| == NR_TASKS && |v.zones| == NR_TASKS && |v.users| == NR_TASKS && |v.myHeap| == NR_TASKS
    && (forall t :: 0 <= t < NR_TASKS ==> v.myHeap[t] < NR_TASKS)
    && |v.data| == TOTAL_PAGES
  }

  // ----- who uses a directory

  function Count(users: seq<int>, d: int): nat {
    if users == [] then 0 else (if users[0] == d then 1 else 0) + Count(users[1..], d)
  }

  function FirstUser(users: seq<int>, d: int): (i: nat)
    ensures i <= |users|
    ensures i < |users| ==> users[i] == d
    ensures forall j :: 0 <= j < i ==> users[j] != d
  {
    if users == [] || users[0] == d then 0 else 1 + FirstUser(users[1..], d)
  }

  lemma {:induction false} CountUpdate(users: seq<int>, i: nat, x: int, d: int)
    requires i < |users|
    ensures Count(users[i := x], d) == Count(users, d) - (if users[i] == d then 1 else 0) + (if x == d then 1 else 0)
  {
    if i > 0 {
      assert users[i := x][1..] == users[1..][i - 1 := x];
      CountUpdate(users[1..], i - 1, x, d);
    } else {
      assert users[0 := x][1..] == users[1..];
    }
  }

  lemma {:induction false} CountPositive(users: seq<int>, d: int)
    ensures Count(users, d) > 0 <==> FirstUser(users, d) < |users|
    ensures Count(users, d) > 0 <==> exists i :: 0 <= i < |users| && users[i] == d
  {
    if users != [] {
      CountPositive(users[1..], d);
      if i :| 0 <= i < |users[1..]| && users[1..][i] == d {
        assert users[i + 1] == d;
      }
      if i :| 0 <= i < |users| && users[i] == d {
        assert i > 0 ==> users[1..][i - 1] == d;
      }
    }
  }

  // ----- layout of a directory

  /** A directory some task runs in. Directory 0 serves boot, directory 1 the idle task. */
  predicate Live(v: View, d: int)
    requires |v.users| == NR_TASKS
  {
    2 <= d < NR_TASKS && FirstUser(v.users, d) < NR_TASKS
  }

  /** The heap counter of a live directory, read through its users' my_heap. */
  ghost function HeapOf(v: View, d: int): int
    requires Shaped(v) && Live(v, d)
  {
    v.zones[v.myHeap[FirstUser(v.users, d)]]
  }

  /** The pages a directory with `h` heap pages owns. */
  predicate OwnPage(h: int, p: int) {
    DATA <= p < DATA + NUM_PAG_DATA || HEAP <= p < HEAP + h
  }

  ghost predicate LiveTable(pt: seq<Entry>, h: int)
    requires |pt| == TOTAL_PAGES
  {
    && 0 <= h && HEAP + h <= TOTAL_PAGES
    && (forall p :: OwnPage(h, p) ==> pt[p].Present?)
    && (forall i :: CODE <= i < CODE + NUM_PAG_CODE ==> pt[i] == Present(CodeFrame(i)))
    && (forall p :: HEAP + h <= p < TOTAL_PAGES ==> pt[p] == Absent)
  }

  /** The frame boot gave to code page `i`. */
  function CodeFrame(i: int): nat
    requires CODE <= i < CODE + NUM_PAG_CODE
  {
    NUM_PAG_KERNEL + 2 * (i - CODE)
  }

  ghost predicate DeadTable(pt: seq<Entry>)
    requires |pt| == TOTAL_PAGES
  {
    forall p :: DATA <= p < DATA + NUM_PAG_DATA || HEAP <= p < TOTAL_PAGES ==> pt[p] == Absent
  }

  ghost predicate Tables(v: View)
    requires Shaped(v)
  {
    forall d :: 2 <= d < NR_TASKS ==> if Live(v, d) then LiveTable(v.pt[d], HeapOf(v, d)) else DeadTable(v.pt[d])
  }

  /** A frame alloc_frame can hand out. */
  predicate UserFrame(f: int) {
    FIRST_USER_FRAME <= f < TOTAL_PAGES && f % 2 == 0
  }

  ghost predicate Owns(v: View, d: int, p: int, f: int)
    requires Shaped(v)
  {
    Live(v, d) && OwnPage(HeapOf(v, d), p) && p < TOTAL_PAGES && v.pt[d][p].Present? && v.pt[d][p].frame == f
  }

  /** `owner` has exactly the used frames alloc_frame handed out, and names for each a page that maps it. */
  ghost predicate FramesNamed(v: View, owner: map<int, (int, int)>)
    requires Shaped(v)
  {
    && (forall f :: f in owner <==> UserFrame(f) && v.phys[f])
    && (forall f :: f in owner ==> Owns(v, owner[f].0, owner[f].1, f))
  }

  ghost predicate NamedAt(v: View, owner: map<int, (int, int)>, f: int)
    requires Shaped(v)
  {
    (f in owner <==> UserFrame(f) && v.phys[f]) && (f in owner ==> Owns(v, owner[f].0, owner[f].1, f))
  }

  lemma FramesNamedBy(v: View, owner: map<int, (int, int)>)
    requires Shaped(v) && forall f: int :: NamedAt(v, owner, f)
    ensures FramesNamed(v, owner)
  {
    hide Owns;
    assert forall f: int :: NamedAt(v, owner, f) ==> (f in owner <==> UserFrame(f) && v.phys[f]);
  }

  /** Every page of a live directory is the one its frame names. */
  ghost predicate PagesNamed(v: View, owner: map<int, (int, int)>)
    requires Shaped(v)
  {
    forall d, p :: Live(v, d) && OwnPage(HeapOf(v, d), p) && p < TOTAL_PAGES ==>
      v.pt[d][p].Present? && v.pt[d][p].frame in owner && owner[v.pt[d][p].frame] == (d, p)
  }

  ghost predicate CodeKept(v: View)
    requires Shaped(v)
  {
    forall i :: CODE <= i < CODE + NUM_PAG_CODE ==> v.phys[CodeFrame(i)]
  }

  /** `owner` names for every used frame the one page that maps it, and for every page its frame. */
  ghost predicate Owned(v: View, owner: map<int, (int, int)>)
    requires Shaped(v)
  {
    FramesNamed(v, owner) && PagesNamed(v, owner) && CodeKept(v)
  }

  /** Reference counts are exact, with one more reference to directory 0 since boot; the tasks of a
      directory share one heap counter. */
  ghost predicate Counts(v: View)
    requires Shaped(v)
  {
    && (forall d :: 0 <= d < NR_TASKS ==> v.refs[d] == Count(v.users, d) + if d == 0 then 1 else 0)
    && v.users[0] == 1
    && (forall t :: 1 <= t < NR_TASKS ==> v.users[t] == -1 || 2 <= v.users[t] < NR_TASKS)
    && (forall t, u :: 0 <= t < NR_TASKS && 0 <= u < NR_TASKS && v.users[t] == v.users[u] && v.users[t] >= 2 ==>
          v.myHeap[t] == v.myHeap[u])
  }

  ghost predicate Good(v: View, owner: map<int, (int, int)>) {
    Shaped(v) && Counts(v) && Tables(v) && Owned(v, owner)
  }

  /** Every user frame has exactly one owner, and every count is exact. */
  ghost predicate Sound(v: View) {
    exists owner :: Good(v, owner)
  }

  lemma OwnerOf(v: View) returns (owner: map<int, (int, int)>)
    requires Sound(v)
    ensures Good(v, owner)
  {
    owner :| Good(v, owner);
  }

  lemma SoundBy(v: View, owner: map<int, (int, int)>)
    requires Good(v, owner)
    ensures Sound(v)
  {
  }

  lemma SoundParts(v: View)
    requires Sound(v)
    ensures Shaped(v) && Counts(v) && Tables(v)
  {
    hide Counts, Tables, Owned;
  }

  lemma LiveByRefs(v: View, d: int)
    requires Shaped(v) && Counts(v) && 2 <= d < NR_TASKS
    ensures Live(v, d) <==> v.refs[d] > 0
  {
    CountPositive(v.users, d);
  }

  lemma LiveOfTask(v: View, t: int)
    requires Shaped(v) && Counts(v) && 0 <= t < NR_TASKS && v.users[t] >= 2
    ensures Live(v, v.users[t]) && HeapOf(v, v.users[t]) == v.zones[v.myHeap[t]]
  {
  }

  // ----- closed forms of the loops

  /** A table after pages from `start` on were mapped to the frames `fs`. */
  function MapRange(pt: seq<Entry>, start: nat, fs: seq<nat>): (r: seq<Entry>)
    ensures |r| == |pt|
  {
    seq(|pt|, p requires 0 <= p < |pt| => if start <= p < start + |fs| then Present(fs[p - start]) else pt[p])
  }

  function UnmapRange(pt: seq<Entry>, lo: int, hi: int): (r: seq<Entry>)
    ensures |r| == |pt|
  {
    seq(|pt|, p requires 0 <= p < |pt| => if lo <= p < hi then Absent else pt[p])
  }

  function Mark(phys: seq<bool>, fs: seq<nat>, used: bool): (r: seq<bool>)
    ensures |r| == |phys|
  {
    seq(|phys|, f requires 0 <= f < |phys| => if f in fs then used else phys[f])
  }

  function FrameOf(e: Entry): nat {
    if e.Present? then e.frame else 0
  }

  /** The frames of the pages from `lo` up to `hi`. */
  function FramesIn(pt: seq<Entry>, lo: nat, hi: nat): (r: seq<nat>)
    requires lo <= hi <= |pt|
    ensures |r| == hi - lo && forall i :: 0 <= i < hi - lo ==> r[i] == FrameOf(pt[lo + i])
  {
    seq<nat>(hi - lo, i requires 0 <= i < hi - lo => FrameOf(pt[lo + i]))
  }

  /** The child's table fork fills: kernel and code entries from the parent, its own data and heap. */
  function ChildTable(pt: seq<Entry>, parent: seq<Entry>, fs: seq<nat>, h: nat): (r: seq<Entry>)
    requires |pt| == |parent| == TOTAL_PAGES && |fs| == NUM_PAG_DATA + h
    ensures |r| == TOTAL_PAGES
  {
    seq(TOTAL_PAGES, p requires 0 <= p < TOTAL_PAGES =>
      if p < NUM_PAG_KERNEL || CODE <= p < CODE + NUM_PAG_CODE then Present(FrameOf(parent[p]))
      else if p < DATA + NUM_PAG_DATA then Present(fs[p - DATA])
      else if p < HEAP + h then Present(fs[NUM_PAG_DATA + p - HEAP])
      else pt[p])
  }

  /** The frames alloc_frame can still hand out. */
  function Available(phys: seq<bool>, from: nat): nat
    requires |phys| == TOTAL_PAGES
    decreases |phys|, TOTAL_PAGES - from
  {
    if from >= TOTAL_PAGES then 0 else (if phys[from] then 0 else 1) + Available(phys, from + 2)
  }

  // ----- counting frames

  lemma {:induction false} SubsetSize<T>(a: set<T>, b: set<T>)
    requires a <= b
    ensures |a| <= |b|
  {
    if a != {} {
      var x :| x in a;
      SubsetSize(a - {x}, b - {x});
    }
  }

  lemma DisjointSum(a: set<int>, b: set<int>, c: set<int>)
    requires forall f | f in c :: f in a || f in b
    requires forall f | f in a :: f in c && f !in b
    requires forall f | f in b :: f in c
    ensures |c| == |a| + |b|
  {
    assert forall f | f in c :: f in a + b;
    assert forall f | f in a + b :: f in c;
    assert c == a + b;
    assert forall f | f in a * b :: false;
    assert a * b == {};
  }

  /** The first `k` frames alloc_frame can hand out. */
  ghost function FirstFrames(k: nat): (r: set<int>)
    ensures |r| == k && forall f :: f in r <==> FIRST_USER_FRAME <= f < FIRST_USER_FRAME + 2 * k && f % 2 == 0
  {
    if k == 0 then {}
    else
      var f := FIRST_USER_FRAME + 2 * (k - 1);
      FirstFrames(k - 1) + {f}
  }

  lemma AtMostFrames(a: set<int>)
    requires forall f :: f in a ==> UserFrame(f)
    ensures |a| <= FRAMES
  {
    SubsetSize(a, FirstFrames(FRAMES));
  }

  /** The `k`-th page a directory owns. */
  function NthPage(k: nat): nat {
    if k < NUM_PAG_DATA then DATA + k else HEAP + k - NUM_PAG_DATA
  }

  /** The first `n` pages of a live directory lie on `n` different frames. */
  lemma {:induction false} PageFrames(v: View, owner: map<int, (int, int)>, d: int, n: nat) returns (a: set<int>)
    requires Good(v, owner) && Live(v, d) && n <= NUM_PAG_DATA + HeapOf(v, d)
    ensures |a| == n && a <= owner.Keys
    ensures forall f :: f in owner ==>
            (f in a <==> owner[f].0 == d && exists k :: 0 <= k < n && owner[f].1 == NthPage(k))
  {
    a := {};
    if n > 0 {
      a := PageFrames(v, owner, d, n - 1);
      assert LiveTable(v.pt[d], HeapOf(v, d));
      var p := NthPage(n - 1);
      var f := v.pt[d][p].frame;
      assert OwnPage(HeapOf(v, d), p) && owner[f] == (d, p);
      assert f !in a;
      a := a + {f};
      forall g | g in owner ensures g in a <==> owner[g].0 == d && exists k :: 0 <= k < n && owner[g].1 == NthPage(k) {
        if owner[g].0 == d {
          if k :| 0 <= k < n && owner[g].1 == NthPage(k) {
            assert k < n - 1 || g == f;
          }
          if g == f {
            assert owner[g].1 == NthPage(n - 1);
          }
        }
      }
    }
  }

  /** A heap and the frames still free fit together among the allocatable frames. */
  lemma HeapFits(v: View, owner: map<int, (int, int)>, d: int, fs: seq<nat>)
    requires Good(v, owner) && Live(v, d) && Fresh(v, fs)
    ensures NUM_PAG_DATA + HeapOf(v, d) + |fs| <= FRAMES
  {
    assert LiveTable(v.pt[d], HeapOf(v, d));
    var a := PageFrames(v, owner, d, NUM_PAG_DATA + HeapOf(v, d));
    var b := Elements(fs);
    assert forall f: int :: f in a ==> f in owner && v.phys[f];
    assert forall f: int :: f in b ==> !v.phys[f];
    DisjointSum(a, b, a + b);
    AtMostFrames(a + b);
  }

  /** Frames that are free and different from each other. */
  ghost predicate Fresh(v: View, fs: seq<nat>)
    requires Shaped(v)
  {
    && (forall f :: f in fs ==> UserFrame(f) && !v.phys[f])
    && (forall i, j :: 0 <= i < j < |fs| ==> fs[i] != fs[j])
  }

  lemma {:induction false} Elements(fs: seq<nat>) returns (b: set<int>)
    requires forall i, j :: 0 <= i < j < |fs| ==> fs[i] != fs[j]
    ensures |b| == |fs| && forall f: int :: f in b <==> f >= 0 && f in fs
  {
    if fs == [] {
      b := {};
    } else {
      b := Elements(fs[1..]);
      assert fs == [fs[0]] + fs[1..];
      assert fs[0] !in fs[1..];
      b := b + {fs[0]};
    }
  }

  /** The data and heap pages of the live directories below `d`. */
  ghost function PagesBelow(v: View, d: nat): int
    requires Shaped(v) && d <= NR_TASKS
  {
    if d == 0 then 0
    else PagesBelow(v, d - 1) + if Live(v, d - 1) then NUM_PAG_DATA + HeapOf(v, d - 1) else 0
  }

  /** The frames whose owner is directory `d`. */
  lemma OwnedBy(v: View, owner: map<int, (int, int)>, d: int)
    requires Good(v, owner)
    ensures |By(owner, d)| == if Live(v, d) then NUM_PAG_DATA + HeapOf(v, d) else 0
  {
    var a := By(owner, d);
    hide Counts;
    if Live(v, d) {
      assert LiveTable(v.pt[d], HeapOf(v, d));
      var h := HeapOf(v, d);
      var mine := PageFrames(v, owner, d, NUM_PAG_DATA + h);
      forall f | f in owner ensures f in mine <==> owner[f].0 == d {
        if owner[f].0 == d {
          var p := owner[f].1;
          assert Owns(v, d, p, f);
          assert p == NthPage(if p < HEAP then p - DATA else NUM_PAG_DATA + p - HEAP);
        }
      }
      assert a == mine;
    } else {
      assert forall f :: f in owner ==> Owns(v, owner[f].0, owner[f].1, f);
      assert a == {};
    }
  }

  ghost function Below(owner: map<int, (int, int)>, d: int): set<int> {
    set f: int | f in owner && owner[f].0 < d
  }

  ghost function By(owner: map<int, (int, int)>, d: int): set<int> {
    set f: int | f in owner && owner[f].0 == d
  }

  lemma BelowStep(owner: map<int, (int, int)>, d: int)
    ensures |Below(owner, d)| == |Below(owner, d - 1)| + |By(owner, d - 1)|
  {
    assert Below(owner, d) == Below(owner, d - 1) + By(owner, d - 1);
    assert Below(owner, d - 1) * By(owner, d - 1) == {};
  }

  lemma BelowAll(v: View, owner: map<int, (int, int)>)
    requires Good(v, owner)
    ensures Below(owner, 0) == {} && Below(owner, NR_TASKS) == owner.Keys
  {
    hide Counts, Tables;
    assert forall f :: f in owner ==> Owns(v, owner[f].0, owner[f].1, f);
  }

  lemma {:induction false} OwnedBelow(v: View, owner: map<int, (int, int)>, d: nat)
    requires Good(v, owner) && d <= NR_TASKS
    ensures |Below(owner, d)| == PagesBelow(v, d)
  {
    hide Counts, Tables, Owned, Below, By;
    if d == 0 {
      BelowAll(v, owner);
    } else {
      OwnedBelow(v, owner, d - 1);
      OwnedBy(v, owner, d - 1);
      BelowStep(owner, d);
    }
  }

  const CODE_FRAMES := {256, 258, 260, 262, 264, 266, 268, 270}

  ghost function UsedFrames(v: View): set<int>
    requires Shaped(v)
  {
    set f: int | NUM_PAG_KERNEL <= f < TOTAL_PAGES && f % 2 == 0 && v.phys[f]
  }

  /** Conservation: the used user frames are the eight code frames and, exactly, the data and heap
      pages of the live directories. */
  lemma FramesConserved(v: View)
    requires Shaped(v) && Sound(v)
    ensures |UsedFrames(v)| == NUM_PAG_CODE + PagesBelow(v, NR_TASKS)
  {
    hide Sound;
    var owner := OwnerOf(v);
    OwnedBelow(v, owner, NR_TASKS);
    BelowAll(v, owner);
    UsedSplit(v, owner);
  }

  lemma UsedSplit(v: View, owner: map<int, (int, int)>)
    requires Good(v, owner)
    ensures |UsedFrames(v)| == NUM_PAG_CODE + |owner.Keys|
  {
    CodeUsed(v, owner);
    OwnedAreUsed(v, owner);
    hide Good;
    forall f: int ensures f in UsedFrames(v) <==> f in CODE_FRAMES || f in owner.Keys {
      CodeCases(f);
    }
    hide UsedFrames;
    forall f: int | f in CODE_FRAMES ensures f !in owner.Keys {
      CodeCases(f);
    }
    DisjointSum(CODE_FRAMES, owner.Keys, UsedFrames(v));
    EightCodeFrames();
  }

  lemma EightCodeFrames()
    ensures |CODE_FRAMES| == NUM_PAG_CODE
  {
  }

  lemma CodeCases(f: int)
    ensures f in CODE_FRAMES <==> NUM_PAG_KERNEL <= f < FIRST_USER_FRAME && f % 2 == 0
  {
  }

  lemma CodeUsed(v: View, owner: map<int, (int, int)>)
    requires Good(v, owner)
    ensures forall f: int :: f in CODE_FRAMES ==> v.phys[f]
  {
    hide Counts, Tables;
    forall f: int | f in CODE_FRAMES ensures v.phys[f] {
      assert CodeFrame(CODE + (f - 256) / 2) == f;
    }
  }

  lemma OwnedAreUsed(v: View, owner: map<int, (int, int)>)
    requires Good(v, owner)
    ensures forall f: int :: f in owner.Keys <==> UserFrame(f) && v.phys[f]
  {
    hide Counts, Tables;
  }
}
