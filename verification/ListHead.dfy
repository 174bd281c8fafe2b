/** The circular intrusive doubly linked list of list.c, with the pointers it really has. A ring is a
    head together with the sequence of nodes met from it; every operation is stated on that sequence. */
module ListHeads {

  class ListHead {
    var next: ListHead?
    var prev: ListHead?

    constructor () {
      next := null;
      prev := null;
    }
  }

  /** The way round: the head, the nodes, and the head again. */
  ghost function Round(head: ListHead, nodes: seq<ListHead>): seq<ListHead> {
    [head] + nodes + [head]
  }

  ghost predicate Distinct(head: ListHead, nodes: seq<ListHead>) {
    head !in nodes && forall i, j :: 0 <= i < j < |nodes| ==> nodes[i] != nodes[j]
  }

  /** `next` follows `c` forwards and `prev` follows it backwards. */
  ghost predicate Chained(c: seq<ListHead>)
    reads c
  {
    forall i {:trigger c[i].next} {:trigger c[i + 1].prev} ::
      0 <= i < |c| - 1 ==> c[i].next == c[i + 1] && c[i + 1].prev == c[i]
  }

  /** `next` and `prev` run through exactly `nodes`, are mutually inverse, and close the circle. */
  ghost predicate Ring(head: ListHead, nodes: seq<ListHead>)
    reads head, nodes
  {
    Distinct(head, nodes) && Chained(Round(head, nodes))
  }

  lemma RoundDistinct(head: ListHead, nodes: seq<ListHead>)
    requires Distinct(head, nodes)
    ensures var c := Round(head, nodes);
            forall i, j :: 0 <= i < j < |c| && (i, j) != (0, |c| - 1) ==> c[i] != c[j]
  {
  }

  /** The pointers determine the nodes: no two sequences describe the same ring. */
  lemma {:induction false} RingPrefix(head: ListHead, xs: seq<ListHead>, ys: seq<ListHead>, n: nat)
    requires Ring(head, xs) && Ring(head, ys) && n <= |xs|
    ensures n <= |ys| && xs[..n] == ys[..n]
    ensures n == |xs| ==> xs == ys
  {
    var c, d := Round(head, xs), Round(head, ys);
    RoundDistinct(head, xs);
    RoundDistinct(head, ys);
    if n > 0 {
      RingPrefix(head, xs, ys, n - 1);
      assert c[n - 1] == d[n - 1] && c[n - 1].next == c[n] && d[n - 1].next == d[n];
    }
    assert c[n] == d[n] && c[n].next == c[n + 1] && d[n].next == d[n + 1];
  }

  method InitListHead(list: ListHead)
    modifies list
    ensures Ring(list, [])
  {
    list.next := list;
    list.prev := list;
  }

  /** __list_add between positions `k` and `k + 1` of the way round. Only the two neighbours and the
      new node change, so every ring that does not hold them is untouched. */
  method ListInsert(new': ListHead, prev: ListHead, next: ListHead, ghost head: ListHead, ghost nodes: seq<ListHead>,
                    ghost k: nat)
    requires Ring(head, nodes) && k <= |nodes| && new' != head && new' !in nodes
    requires prev == Round(head, nodes)[k] && next == Round(head, nodes)[k + 1]
    modifies new', prev, next
    ensures Ring(head, nodes[..k] + [new'] + nodes[k..])
  {
    ghost var c := Round(head, nodes);
    ghost var nodes' := nodes[..k] + [new'] + nodes[k..];
    ghost var c' := Round(head, nodes');
    RoundDistinct(head, nodes);
    InsertDistinct(head, nodes, new', k);
    assert c' == c[..k + 1] + [new'] + c[k + 1..];
    assert new' !in c;
    assert Chained(c);
    hide Round, Distinct;
    next.prev := new';
    new'.next := next;
    new'.prev := prev;
    prev.next := new';
    forall i | 0 <= i < |c| - 1 && i != k ensures c[i].next == c[i + 1] && c[i + 1].prev == c[i] {
      assert old(c[i].next) == c[i + 1] && old(c[i + 1].prev) == c[i];
    }
    assert Chained(c') by {
      forall i | 0 <= i < |c'| - 1 ensures c'[i].next == c'[i + 1] && c'[i + 1].prev == c'[i] {
        assert if i <= k then c'[i] == c[i] else i > k + 1 ==> c'[i] == c[i - 1];
      }
    }
  }

  lemma InsertDistinct(head: ListHead, nodes: seq<ListHead>, x: ListHead, k: nat)
    requires Distinct(head, nodes) && k <= |nodes| && x != head && x !in nodes
    ensures Distinct(head, nodes[..k] + [x] + nodes[k..])
  {
  }

  lemma RemoveDistinct(head: ListHead, nodes: seq<ListHead>, k: nat)
    requires Distinct(head, nodes) && k < |nodes|
    ensures Distinct(head, nodes[..k] + nodes[k + 1..])
  {
  }

  method ListAdd(new': ListHead, head: ListHead, ghost nodes: seq<ListHead>)
    requires Ring(head, nodes) && new' != head && new' !in nodes
    modifies new', head, head.next
    ensures Ring(head, [new'] + nodes)
  {
    assert Round(head, nodes)[0].next == Round(head, nodes)[1];
    ListInsert(new', head, head.next, head, nodes, 0);
    assert nodes[..0] + [new'] + nodes[0..] == [new'] + nodes;
  }

  method ListAddTail(new': ListHead, head: ListHead, ghost nodes: seq<ListHead>)
    requires Ring(head, nodes) && new' != head && new' !in nodes
    modifies new', head, head.prev
    ensures Ring(head, nodes + [new'])
  {
    ghost var n := |nodes|;
    assert Round(head, nodes)[n + 1].prev == Round(head, nodes)[n];
    ListInsert(new', head.prev, head, head, nodes, n);
    assert nodes[..n] + [new'] + nodes[n..] == nodes + [new'];
  }

  method ListDel(entry: ListHead, ghost head: ListHead, ghost nodes: seq<ListHead>, ghost k: nat)
    requires Ring(head, nodes) && k < |nodes| && nodes[k] == entry
    modifies entry, entry.prev, entry.next
    ensures Ring(head, nodes[..k] + nodes[k + 1..])
    ensures entry.next == null && entry.prev == null
  {
    ghost var c := Round(head, nodes);
    ghost var nodes' := nodes[..k] + nodes[k + 1..];
    ghost var c' := Round(head, nodes');
    RoundDistinct(head, nodes);
    RemoveDistinct(head, nodes, k);
    assert c' == c[..k + 1] + c[k + 2..];
    assert Chained(c);
    assert c[k + 1] == entry && c[k].next == entry && c[k + 1].next == c[k + 2];
    hide Round, Distinct;
    entry.next.prev := entry.prev;
    entry.prev.next := entry.next;
    entry.next := null;
    entry.prev := null;
    forall i | 0 <= i < |c| - 1 && i != k && i != k + 1 ensures c[i].next == c[i + 1] && c[i + 1].prev == c[i] {
      assert old(c[i].next) == c[i + 1] && old(c[i + 1].prev) == c[i];
    }
    assert Chained(c') by {
      forall i | 0 <= i < |c'| - 1 ensures c'[i].next == c'[i + 1] && c'[i + 1].prev == c'[i] {
        assert c'[i] == if i <= k then c[i] else c[i + 1];
      }
    }
  }

  method ListEmpty(head: ListHead, ghost nodes: seq<ListHead>) returns (empty: bool)
    requires Ring(head, nodes)
    ensures empty <==> nodes == []
  {
    assert Round(head, nodes)[0].next == Round(head, nodes)[1];
    empty := head.next == head;
  }

  method ListIsLast(list: ListHead, head: ListHead, ghost nodes: seq<ListHead>, ghost k: nat) returns (last: bool)
    requires Ring(head, nodes) && k < |nodes| && list == nodes[k]
    ensures last <==> k == |nodes| - 1
  {
    RoundDistinct(head, nodes);
    assert Round(head, nodes)[k + 1].next == Round(head, nodes)[k + 2];
    last := list.next == head;
  }

  /** The loop of sys_exit over the children of the exiting task (sys.c:245-248). Each node is linked
      into the other list while it still sits in its own, with no list_del; the safe iteration reads
      the successor first, so exactly the orphans arrive, in order. The old head keeps stale links. */
  method Reparent(fills: ListHead, adopter: ListHead, ghost kids: seq<ListHead>, ghost adopted: seq<ListHead>)
    requires Ring(fills, kids) && Ring(adopter, adopted)
    requires fills != adopter && fills !in adopted && adopter !in kids
    requires forall x :: x in kids ==> x !in adopted
    modifies adopter, kids, adopted
    ensures Ring(adopter, adopted + kids)
    ensures unchanged(fills)
  {
    ghost var c, i: nat := Round(fills, kids), 0;
    RoundDistinct(fills, kids);
    assert forall j :: 0 <= j <= |kids| ==> c[j].next == c[j + 1];
    assert c[0] == fills && |c| == |kids| + 2;
    hide Ring;
    var pos := fills.next;
    assert pos == c[1] && (kids != [] ==> c[1].next == c[2]);
    var tmp := pos.next;
    assert adopted + kids[..0] == adopted;
    while pos != fills
      invariant i <= |kids| && pos == c[i + 1]
      invariant tmp == if i < |kids| then c[i + 2] else fills.next
      invariant forall j :: i < j <= |kids| ==> c[j].next == c[j + 1]
      invariant Ring(adopter, adopted + kids[..i])
      invariant unchanged(fills)
      decreases |kids| - i
    {
      ghost var done := adopted + kids[..i];
      ListHeadPrev(adopter, done);
      ListAddTail(pos, adopter, done);
      assert done + [pos] == adopted + kids[..i + 1];
      pos := tmp;
      i := i + 1;
      tmp := pos.next;
    }
    assert kids[..i] == kids;
  }

  lemma ListHeadPrev(head: ListHead, nodes: seq<ListHead>)
    requires Ring(head, nodes)
    ensures head.prev != null && (head.prev == head || head.prev in nodes)
  {
    assert Round(head, nodes)[|nodes| + 1].prev == Round(head, nodes)[|nodes|];
  }
}
