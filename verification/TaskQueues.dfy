/** The three queues of sched.c on the rings of list.c: every PCB carries one link, and the list calls
    of update_process_state_rr on it are what the sequences of the machine stand for. */
module TaskQueues {
  import opened Params
  import opened KernelSpec
  import opened KernelInv
  import opened KernelSteps
  import opened ListHeads

  datatype Queue = FreeQueue | ReadyQueue | BlockedQueue

  /** The three queues as sequences. */
  datatype Lines = Lines(freeq: seq<Tid>, readyq: seq<Tid>, blockedq: seq<Tid>) {
    function At(w: Queue): seq<Tid> {
      match w
      case FreeQueue => freeq
      case ReadyQueue => readyq
      case BlockedQueue => blockedq
    }

    function With(w: Queue, q: seq<Tid>): (r: Lines)
      ensures forall x: Queue :: r.At(x) == if x == w then q else At(x)
    {
      match w
      case FreeQueue => this.(freeq := q)
      case ReadyQueue => this.(readyq := q)
      case BlockedQueue => this.(blockedq := q)
    }
  }

  /** No task is on a queue twice, or on two queues. */
  ghost predicate Disjoint(l: Lines) {
    && (forall w: Queue :: Nodup(l.At(w)))
    && (forall w: Queue, x: Queue, t: Tid :: w != x && t in l.At(w) ==> t !in l.At(x))
  }

  lemma OnceEach(l: Lines, w: Queue)
    requires Disjoint(l)
    ensures Nodup(l.At(w))
  {
  }

  lemma DisjointShorter(l: Lines, w: Queue, q: seq<Tid>)
    requires Disjoint(l) && Nodup(q) && forall t :: t in q ==> t in l.At(w)
    ensures Disjoint(l.With(w, q))
  {
    hide Nodup;
  }

  lemma DisjointLonger(l: Lines, w: Queue, t: Tid)
    requires Disjoint(l) && forall x: Queue :: t !in l.At(x)
    ensures Disjoint(l.With(w, l.At(w) + [t]))
  {
    NodupAppend(l.At(w), t);
    hide Nodup;
  }

  /** Task `t` taken off queue `w`. */
  function Dropped(l: Lines, w: Queue, t: Tid): Lines {
    l.With(w, Without(l.At(w), t))
  }

  function QueuesOf(s: KState): Lines {
    Lines(s.freeq, s.readyq, s.blockedq)
  }

  /** What the tests of update_process_state_rr take for granted: the link is on a ring exactly when the
      PCB has a user pid and does not run. Otherwise list_del would follow null pointers, or
      list_add_tail link a node twice. */
  ghost predicate Linked(s: KState, t: Tid) {
    t in s.freeq || t in s.readyq || t in s.blockedq <==> s.task[t].pid > 0 && s.task[t].state != Run
  }

  ghost function HolderOf(s: KState, t: Tid): Queue {
    if t in s.freeq then FreeQueue else if t in s.readyq then ReadyQueue else BlockedQueue
  }

  /** The queue a task is sent to. */
  function Target(dest: Dest): Queue
    requires dest != ToNull
  {
    match dest
    case ToReady => ReadyQueue
    case ToFree => FreeQueue
    case ToBlocked(_) => BlockedQueue
  }

  /** list_del takes the task off the one queue that holds it. */
  lemma UnlinkQueues(s: KState, t: Tid, w: Queue)
    requires forall x: Queue :: x != w ==> t !in QueuesOf(s).At(x)
    ensures QueuesOf(Unlink(s, t)) == Dropped(QueuesOf(s), w, t)
  {
    assert forall x: Queue :: t !in QueuesOf(s).At(x) ==> Without(QueuesOf(s).At(x), t) == QueuesOf(s).At(x);
    assert QueuesOf(s).At(FreeQueue) == s.freeq && QueuesOf(s).At(ReadyQueue) == s.readyq;
    assert QueuesOf(s).At(BlockedQueue) == s.blockedq;
  }

  /** update_process_state_rr as a change of the three queues. */
  lemma UpdateQueues(s: KState, t: Tid, dest: Dest)
    ensures var p := s.task[t];
            var s1 := if p.pid > 0 && p.state != Run then Unlink(s, t) else s;
            QueuesOf(UpdateState(s, t, dest)) ==
            if p.pid < 0 then QueuesOf(s).With(FreeQueue, s.freeq + [t])
            else if p.pid == 0 || dest == ToNull then QueuesOf(s1)
            else QueuesOf(s1).With(Target(dest), QueuesOf(s1).At(Target(dest)) + [t])
  {
    hide Unlink;
  }

  /** The PCB each of the first `n` links belongs to. */
  function Owners(links: seq<ListHead>, n: nat): (r: map<ListHead, Tid>)
    requires n <= |links| == NR_TASKS && forall i, j :: 0 <= i < j < NR_TASKS ==> links[i] != links[j]
    ensures forall t: nat :: t < n ==> links[t] in r && r[links[t]] == t
  {
    if n == 0 then map[] else Owners(links, n - 1)[links[n - 1] := n - 1]
  }

  /** Between calls every live task is linked as the tests of update_process_state_rr expect. */
  lemma AlwaysLinked(s: KState, t: Tid)
    requires Queues(s) && Pids(s) && s.task[t].pid >= 0
    ensures Linked(s, t)
  {
  }

  /** The state in which sched_next_rr takes up the next task. */
  function AfterRunner(s: KState): KState {
    if s.task[s.current].state == Run then UpdateState(s, s.current, ToReady) else s
  }

  lemma RunnerReady(s: KState)
    requires s.task[s.current].state == Run ==> s.task[s.current].pid >= 0
    ensures if s.task[s.current].state == Run
            then AfterRunner(s) == UpdateState(s, s.current, ToReady)
            else AfterRunner(s) == s
    ensures forall t: Tid ::
              && AfterRunner(s).task[t].pid == s.task[t].pid
              && AfterRunner(s).task[t].state ==
                 if t == s.current && s.task[t].state == Run then Ready else s.task[t].state
  {
  }

  lemma SchedQueues(s: KState)
    ensures QueuesOf(SchedNext(s)) == QueuesOf(UpdateState(AfterRunner(s), Next(s), ToNull))
  {
    hide UpdateState;
  }

  /** Both calls of update_process_state_rr in sched_next_rr find their task linked as expected. */
  lemma DispatchLinked(s: KState)
    requires Queues(s) && Pids(s) && Waits(s) && (s.task[s.current].state == Run ==> Alive(s, s.current))
    ensures s.task[s.current].state == Run ==> Linked(s, s.current)
    ensures Linked(AfterRunner(s), Next(s))
  {
    NextFacts(s);
    AlwaysLinked(s, Next(s));
    hide Pids, Waits;
  }

  class Links {
    const list: seq<ListHead>
    const freequeue: ListHead
    const readyqueue: ListHead
    const blocked: ListHead
    const owner: map<ListHead, Tid> // list_head_to_task_struct
    ghost var contents: Lines

    /** The links of the PCBs, none of them on a list yet, and INIT_LIST_HEAD of the three heads. */
    constructor (links: seq<ListHead>)
      requires |links| == NR_TASKS && forall i, j :: 0 <= i < j < NR_TASKS ==> links[i] != links[j]
      ensures list == links && Valid() && contents == Lines([], [], [])
    {
      var f := new ListHead();
      var r := new ListHead();
      var b := new ListHead();
      list, freequeue, readyqueue, blocked := links, f, r, b;
      owner := Owners(links, NR_TASKS);
      contents := Lines([], [], []);
      new;
      InitListHead(freequeue);
      InitListHead(readyqueue);
      InitListHead(blocked);
      assert Ring(freequeue, []) && Ring(readyqueue, []) && Ring(blocked, []);
      hide Ring, Valid;
      assert Apart();
      AllEmpty();
    }

    lemma AllEmpty()
      requires Apart() && contents == Lines([], [], [])
      requires Ring(freequeue, []) && Ring(readyqueue, []) && Ring(blocked, [])
      ensures Valid()
    {
      hide Ring;
      assert Nodes([]) == [];
    }

    function Head(w: Queue): ListHead {
      match w
      case FreeQueue => freequeue
      case ReadyQueue => readyqueue
      case BlockedQueue => blocked
    }

    /** The links of the queued tasks, in order. */
    ghost function Nodes(q: seq<Tid>): (r: seq<ListHead>)
      requires |list| == NR_TASKS
      ensures |r| == |q| && forall i :: 0 <= i < |q| ==> r[i] == list[q[i]]
    {
      seq(|q|, i requires 0 <= i < |q| => list[q[i]])
    }

    lemma NodesCut(q: seq<Tid>, k: nat)
      requires |list| == NR_TASKS && k < |q|
      ensures Nodes(q[..k] + q[k + 1..]) == Nodes(q)[..k] + Nodes(q)[k + 1..]
    {
    }

    /** Where the task is in its queue, and the ring of what is left. */
    lemma Shorter(l: Lines, w: Queue, t: Tid) returns (k: nat)
      requires |list| == NR_TASKS && Disjoint(l) && t in l.At(w)
      ensures var l' := Dropped(l, w, t);
              && k < |l.At(w)| && l.At(w)[k] == t && Disjoint(l') && Cut(Nodes(l.At(w)), k, Nodes(l'.At(w)))
              && l'.At(Others(w).0) == l.At(Others(w).0) && l'.At(Others(w).1) == l.At(Others(w).1)
    {
      var q := l.At(w);
      OnceEach(l, w);
      k :| 0 <= k < |q| && q[k] == t;
      DisjointShorter(l, w, Without(q, t));
      WithoutAt(q, k);
      hide Without, Disjoint, Nodup;
      NodesCut(q, k);
    }

    lemma NodesAppend(q: seq<Tid>, t: Tid)
      requires |list| == NR_TASKS && Nodup(q) && t !in q
      ensures Nodes(q + [t]) == Nodes(q) + [list[t]] && Nodup(q + [t])
    {
      NodupAppend(q, t);
    }

    /** No two of the links and heads are the same object. */
    ghost predicate Apart() {
      && |list| == NR_TASKS
      && (forall t: Tid, u: Tid :: t != u ==> list[t] != list[u])
      && (forall t: Tid :: list[t] in owner && owner[list[t]] == t)
      && (forall t: Tid, w: Queue :: list[t] != Head(w))
      && (forall w: Queue, x: Queue :: w != x ==> Head(w) != Head(x))
    }

    ghost predicate OnRing(w: Queue)
      requires |list| == NR_TASKS
      reads this, list, freequeue, readyqueue, blocked
    {
      Ring(Head(w), Nodes(contents.At(w)))
    }

    /** Each queue's ring runs through the links of its tasks, and no task is on two queues. */
    ghost predicate Valid()
      reads this, list, freequeue, readyqueue, blocked
    {
      Apart() && Disjoint(contents) && OnRing(FreeQueue) && OnRing(ReadyQueue) && OnRing(BlockedQueue)
    }

    /** The other two queues. */
    ghost function Others(w: Queue): (r: (Queue, Queue))
      ensures r.0 != w && r.1 != w && r.0 != r.1
    {
      match w
      case FreeQueue => (ReadyQueue, BlockedQueue)
      case ReadyQueue => (FreeQueue, BlockedQueue)
      case BlockedQueue => (FreeQueue, ReadyQueue)
    }

    /** The rings of two queues have no object in common. */
    lemma RingsApart(w: Queue, x: Queue)
      requires Apart() && Disjoint(contents) && w != x
      ensures Separate(Head(w), Nodes(contents.At(w)), Head(x), Nodes(contents.At(x)))
    {
      var p, q := contents.At(w), contents.At(x);
      forall i, j | 0 <= i < |p| && 0 <= j < |q| ensures Nodes(p)[i] != Nodes(q)[j] {
        assert p[i] in p && q[j] in q;
      }
    }

    /** The rings of a queue and of the two others. */
    ghost predicate Rings(w: Queue)
      requires |list| == NR_TASKS
      reads this, list, freequeue, readyqueue, blocked
    {
      OnRing(w) && OnRing(Others(w).0) && OnRing(Others(w).1)
    }

    lemma ValidRings(w: Queue)
      ensures Valid() <==> Apart() && Disjoint(contents) && Rings(w)
    {
      hide OnRing;
    }

    /** list_del on the link of a queued task takes it off the one queue that holds it. */
    method Remove(t: Tid, ghost w: Queue)
      requires Valid() && t in contents.At(w)
      modifies this`contents, list, freequeue, readyqueue, blocked
      ensures Valid() && contents == Dropped(old(contents), w, t)
    {
      hide Valid, Dropped, Nodup, Ring, Separate, Disjoint, Cut;
      ValidRings(w);
      ghost var l, l', q := contents, Dropped(contents, w, t), contents.At(w);
      ghost var x, y := Others(w).0, Others(w).1;
      ghost var k := Shorter(l, w, t);
      RingsApart(w, x);
      RingsApart(w, y);
      RingNeighbours(Head(w), Nodes(q), k);
      DelAmong(list[t], Head(w), Nodes(q), k, Nodes(l'.At(w)), Head(x), Nodes(l.At(x)), Head(y), Nodes(l.At(y)));
      contents := l';
      assert Rings(w);
      ValidRings(w);
    }

    /** list_add_tail of a task that is on no queue. */
    method Append(t: Tid, w: Queue)
      requires Valid() && forall x: Queue :: t !in contents.At(x)
      modifies this`contents, list, freequeue, readyqueue, blocked
      ensures Valid() && contents == old(contents).With(w, old(contents.At(w)) + [t])
    {
      hide Valid, Nodup, Ring, Separate, Disjoint;
      ValidRings(w);
      ghost var l, q := contents, contents.At(w);
      ghost var x, y := Others(w).0, Others(w).1;
      OnceEach(contents, w);
      NodesAppend(q, t);
      DisjointLonger(contents, w, t);
      RingsApart(w, x);
      RingsApart(w, y);
      ListHeadPrev(Head(w), Nodes(q));
      Unlisted(t, w);
      Unlisted(t, x);
      Unlisted(t, y);
      AddAmong(list[t], Head(w), Nodes(q), Head(x), Nodes(l.At(x)), Head(y), Nodes(l.At(y)));
      contents := l.With(w, q + [t]);
      assert Rings(w);
      ValidRings(w);
    }

    lemma Unlisted(t: Tid, w: Queue)
      requires Apart() && Disjoint(contents) && t !in contents.At(w)
      ensures list[t] != Head(w) && list[t] !in Nodes(contents.At(w))
    {
    }

    /** The rings stand for the queues of the machine. */
    ghost predicate Backs(s: KState)
      reads this
    {
      contents == QueuesOf(s)
    }

    /** The list calls of update_process_state_rr. */
    method UpdateProcessStateRr(t: Tid, pid: int, running: bool, dest: Dest, ghost s: KState)
      requires Valid() && Backs(s) && Linked(s, t)
      requires pid == s.task[t].pid && running == (s.task[t].state == Run)
      modifies this`contents, list, freequeue, readyqueue, blocked
      ensures Valid() && Backs(UpdateState(s, t, dest))
    {
      UpdateQueues(s, t, dest);
      OneQueue(s, t);
      hide Apart, OnRing, Nodup, Without, UpdateState, Unlink, Linked;
      if pid < 0 {
        Append(t, FreeQueue);
        return;
      }
      if pid > 0 && !running {
        UnlinkQueues(s, t, HolderOf(s, t));
        Remove(t, HolderOf(s, t));
      }
      if pid != 0 && dest != ToNull {
        Append(t, Target(dest));
      }
    }

    lemma OneQueue(s: KState, t: Tid)
      requires Valid() && Backs(s) && Linked(s, t)
      ensures if s.task[t].pid > 0 && s.task[t].state != Run
              then t in contents.At(HolderOf(s, t)) &&
                   forall x: Queue :: x != HolderOf(s, t) ==> t !in contents.At(x)
              else forall x: Queue :: t !in contents.At(x)
    {
    }

    /** list_first of a queue that is not empty is the link of the task at its front. */
    lemma FirstLink(w: Queue)
      requires Valid() && contents.At(w) != []
      ensures Head(w).next == list[contents.At(w)[0]]
    {
      var nodes := Nodes(contents.At(w));
      assert OnRing(w);
      assert Round(Head(w), nodes)[0].next == Round(Head(w), nodes)[1];
    }

    /** sched_next_rr up to the switch: the task it picks, and the rings it leaves. */
    method SchedNextRr(task: seq<Pcb>, current: Tid, ghost s: KState) returns (nt: Tid)
      requires Valid() && Backs(s) && Queues(s) && Pids(s) && Waits(s)
      requires task == s.task && current == s.current && (task[current].state == Run ==> task[current].pid >= 0)
      modifies this`contents, list, freequeue, readyqueue, blocked
      ensures Valid() && Backs(SchedNext(s)) && nt == Next(s)
    {
      DispatchLinked(s);
      assert OnRing(ReadyQueue) && contents.At(ReadyQueue) == s.readyq;
      hide Valid, OnRing, Linked, UpdateState;
      var empty := ListEmpty(readyqueue, Nodes(s.readyq));
      nt := IDLE;
      if !empty {
        FirstLink(ReadyQueue);
        nt := owner[readyqueue.next];
      }
      ghost var s1 := AfterRunner(s);
      RunnerReady(s);
      SchedQueues(s);
      hide AfterRunner, SchedNext;
      var now := task;
      if task[current].state == Run {
        UpdateProcessStateRr(current, task[current].pid, true, ToReady, s);
        now := task[current := task[current].(state := Ready)];
      }
      UpdateProcessStateRr(nt, now[nt].pid, now[nt].state == Run, ToNull, s1);
    }
  }

  ghost predicate Cut(nodes: seq<ListHead>, k: nat, rest: seq<ListHead>) {
    k < |nodes| && rest == nodes[..k] + nodes[k + 1..]
  }

  /** Two rings without a common object. */
  ghost predicate Separate(head: ListHead, nodes: seq<ListHead>, head': ListHead, nodes': seq<ListHead>) {
    head != head' && head !in nodes' && head' !in nodes && forall x :: x in nodes ==> x !in nodes'
  }

  /** list_del among three rings that share nothing. */
  method DelAmong(entry: ListHead, ghost head: ListHead, ghost nodes: seq<ListHead>, ghost k: nat,
                  ghost rest: seq<ListHead>,
                  ghost h1: ListHead, ghost n1: seq<ListHead>, ghost h2: ListHead, ghost n2: seq<ListHead>)
    requires Ring(head, nodes) && Cut(nodes, k, rest) && nodes[k] == entry && Ring(h1, n1) && Ring(h2, n2)
    requires Separate(head, nodes, h1, n1) && Separate(head, nodes, h2, n2)
    modifies entry, entry.prev, entry.next
    ensures Ring(head, rest) && Ring(h1, n1) && Ring(h2, n2)
  {
    RingNeighbours(head, nodes, k);
    hide Ring;
    ListDel(entry, head, nodes, k);
  }

  /** list_add_tail among three rings that share nothing. */
  method AddAmong(new': ListHead, head: ListHead, ghost nodes: seq<ListHead>,
                  ghost h1: ListHead, ghost n1: seq<ListHead>, ghost h2: ListHead, ghost n2: seq<ListHead>)
    requires Ring(head, nodes) && new' != head && new' !in nodes && Ring(h1, n1) && Ring(h2, n2)
    requires Separate(head, nodes, h1, n1) && Separate(head, nodes, h2, n2)
    requires new' != h1 && new' !in n1 && new' != h2 && new' !in n2
    modifies new', head, head.prev
    ensures Ring(head, nodes + [new']) && Ring(h1, n1) && Ring(h2, n2)
  {
    ListHeadPrev(head, nodes);
    hide Ring;
    ListAddTail(new', head, nodes);
  }

  lemma RingNeighbours(head: ListHead, nodes: seq<ListHead>, k: nat)
    requires Ring(head, nodes) && k < |nodes|
    ensures nodes[k].prev != null && nodes[k].next != null
    ensures (nodes[k].prev == head || nodes[k].prev in nodes) && (nodes[k].next == head || nodes[k].next in nodes)
  {
    var c := Round(head, nodes);
    assert c[k + 1] == nodes[k] && c[k].next == c[k + 1] && c[k + 1].next == c[k + 2];
    assert c[k] in c && c[k + 2] in c;
  }

  lemma {:induction false} WithoutAt(q: seq<Tid>, k: nat)
    requires Nodup(q) && k < |q|
    ensures Without(q, q[k]) == q[..k] + q[k + 1..]
    decreases |q|
  {
    hide Nodup;
    NodupTail(q);
    if k == 0 {
      WithoutFirst(q);
      assert q[..0] + q[1..] == q[1..];
    } else {
      assert q[k] == q[1..][k - 1];
      WithoutAt(q[1..], k - 1);
      ConsCut(q, k);
    }
  }

  lemma NodupTail(q: seq<Tid>)
    requires Nodup(q) && q != []
    ensures Nodup(q[1..]) && forall k :: 0 < k < |q| ==> q[k] != q[0]
  {
  }

  lemma ConsCut(q: seq<Tid>, k: nat)
    requires 0 < k < |q|
    ensures [q[0]] + (q[1..][..k - 1] + q[1..][k..]) == q[..k] + q[k + 1..]
  {
  }
}
