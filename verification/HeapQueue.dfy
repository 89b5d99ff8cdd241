/** The heap of the k-way merge: Python's `heapq` on tuples `((ts, recv, venue), i, trade)`. */
module HeapQueue {
  import opened Orders
  import opened Tape

  /** The part of an entry that orders it. */
  datatype Rank = Rank(ts: int, recv: int, venue: string, src: int)

  datatype Entry = Entry(rank: Rank, trade: Trade)

  /** Tuple order: by exchange time, then receive time, then venue name, then source number. */
  predicate RankLe(a: Rank, b: Rank) {
    if a.ts != b.ts then a.ts < b.ts
    else if a.recv != b.recv then a.recv < b.recv
    else if a.venue != b.venue then StrLe(a.venue, b.venue)
    else a.src <= b.src
  }

  lemma RankTotal(a: Rank, b: Rank)
    ensures RankLe(a, b) || RankLe(b, a)
    ensures RankLe(a, b) && RankLe(b, a) ==> a == b
  {
    StrLeTotal(a.venue, b.venue);
  }

  lemma RankTransitive(a: Rank, b: Rank, c: Rank)
    requires RankLe(a, b) && RankLe(b, c)
    ensures RankLe(a, c)
  {
    if a.venue != b.venue && b.venue != c.venue && StrLe(a.venue, b.venue) && StrLe(b.venue, c.venue) {
      StrLeTransitive(a.venue, b.venue, c.venue);
      StrLeTotal(a.venue, b.venue);
    }
  }

  lemma RankOrder()
    ensures TotalOrder(RankLe)
  {
    forall a, b ensures Compares(RankLe, a, b) { RankTotal(a, b); }
    forall a, b, c ensures Chains(RankLe, a, b, c) { if RankLe(a, b) && RankLe(b, c) { RankTransitive(a, b, c); } }
  }

  /** Tuple `<`. On equal ranks Python would go on to compare the trade dicts and raise: the
    * precondition says that this comparison is never reached. */
  predicate Lt(a: Entry, b: Entry)
    requires a.rank != b.rank
  {
    RankLe(a.rank, b.rank)
  }

  ghost predicate Distinct(h: seq<Entry>) {
    forall i, j :: 0 <= i < j < |h| ==> h[i].rank != h[j].rank
  }

  function Parent(i: nat): nat
    requires i > 0
  {
    (i - 1) / 2
  }

  ghost predicate Below(h: seq<Entry>, i: nat)
    requires 0 < i < |h|
  {
    RankLe(h[Parent(i)].rank, h[i].rank)
  }

  ghost predicate IsHeap(h: seq<Entry>) {
    forall i: nat :: 0 < i < |h| ==> Below(h, i)
  }

  /** A heap but for the link from `pos` to its parent. */
  ghost predicate HeapAbove(h: seq<Entry>, pos: nat) {
    && (forall i: nat :: 0 < i < |h| && i != pos ==> Below(h, i))
    && (forall i: nat :: 0 < i < |h| && Parent(i) == pos && 0 < pos ==> RankLe(h[Parent(pos)].rank, h[i].rank))
  }

  /** A heap but for the links between `pos` and its children or parent. */
  ghost predicate HeapAround(h: seq<Entry>, pos: nat) {
    && (forall i: nat :: 0 < i < |h| && i != pos && Parent(i) != pos ==> Below(h, i))
    && (forall i: nat :: 0 < i < |h| && Parent(i) == pos && 0 < pos ==> RankLe(h[Parent(pos)].rank, h[i].rank))
  }

  function Swap(h: seq<Entry>, i: nat, j: nat): seq<Entry>
    requires i < |h| && j < |h|
  {
    h[i := h[j]][j := h[i]]
  }

  lemma SwapKeeps(h: seq<Entry>, i: nat, j: nat)
    requires i < |h| && j < |h| && i != j && Distinct(h)
    ensures Distinct(Swap(h, i, j)) && multiset(Swap(h, i, j)) == multiset(h)
  {
  }

  /** One step up repairs the link above `pos` and leaves only the next one open. */
  lemma UpStep(g: seq<Entry>, pos: nat)
    requires 0 < pos < |g| && HeapAbove(g, pos) && RankLe(g[pos].rank, g[Parent(pos)].rank)
    ensures HeapAbove(Swap(g, pos, Parent(pos)), Parent(pos))
  {
    var p := Parent(pos);
    var q := Swap(g, pos, p);
    forall i: nat | 0 < i < |q| && i != p ensures Below(q, i) {
      if i != pos {
        assert Below(g, i);
        if Parent(i) == p { RankTransitive(g[pos].rank, g[p].rank, g[i].rank); }
      }
    }
    forall i: nat | 0 < i < |q| && Parent(i) == p && 0 < p ensures RankLe(q[Parent(p)].rank, q[i].rank) {
      assert Below(g, p);
      if i != pos {
        assert Below(g, i);
        RankTransitive(g[Parent(p)].rank, g[p].rank, g[i].rank);
      }
    }
  }

  /** `heapq._siftdown`: move the entry at `start` toward the root while it is less than its parent. */
  method SiftDown(heap: seq<Entry>, start: nat) returns (h: seq<Entry>)
    requires start < |heap| && Distinct(heap) && HeapAbove(heap, start)
    ensures IsHeap(h) && Distinct(h) && multiset(h) == multiset(heap)
  {
    h := heap;
    var pos: nat := start;
    while pos > 0
      invariant pos < |h| == |heap|
      invariant Distinct(h) && HeapAbove(h, pos) && multiset(h) == multiset(heap)
    {
      var parentPos := Parent(pos);
      if !Lt(h[pos], h[parentPos]) {
        LinkHolds(h, pos);
        break;
      }
      SwapKeeps(h, pos, parentPos);
      UpStep(h, pos);
      h := Swap(h, pos, parentPos);
      pos := parentPos;
    }
  }

  lemma LinkHolds(h: seq<Entry>, pos: nat)
    requires 0 < pos < |h| && !RankLe(h[pos].rank, h[Parent(pos)].rank)
    ensures Below(h, pos)
  {
    RankTotal(h[pos].rank, h[Parent(pos)].rank);
  }

  /** `heapq.heappush` */
  method HeapPush(heap: seq<Entry>, item: Entry) returns (h: seq<Entry>)
    requires IsHeap(heap) && Distinct(heap)
    requires forall i :: 0 <= i < |heap| ==> heap[i].rank != item.rank
    ensures IsHeap(h) && Distinct(h) && multiset(h) == multiset(heap) + multiset{item}
  {
    h := heap + [item];
    forall i: nat | 0 < i < |heap| ensures Below(h, i) {
      assert Below(heap, i);
    }
    h := SiftDown(h, |heap|);
  }

  /** One step down repairs the links below `pos` and opens those around the least child. */
  lemma DownStep(g: seq<Entry>, pos: nat, child: nat)
    requires pos < child < |g| && Parent(child) == pos && HeapAround(g, pos)
    requires forall i: nat :: 0 < i < |g| && Parent(i) == pos ==> RankLe(g[child].rank, g[i].rank)
    ensures HeapAround(Swap(g, pos, child), child)
  {
    var q := Swap(g, pos, child);
    forall i: nat | 0 < i < |q| && i != child && Parent(i) != child ensures Below(q, i) {
      if i == pos {
        assert RankLe(g[Parent(pos)].rank, g[child].rank);
      } else if Parent(i) == pos {
        assert RankLe(g[child].rank, g[i].rank);
      } else {
        assert Below(g, i);
      }
    }
    forall i: nat | 0 < i < |q| && Parent(i) == child ensures RankLe(q[Parent(child)].rank, q[i].rank) {
      assert Below(g, i);
    }
  }

  /** The child `_siftup` descends to: the smaller one, the right one on a tie. */
  function LesserChild(h: seq<Entry>, pos: nat): (c: nat)
    requires 2 * pos + 1 < |h| && Distinct(h)
    ensures pos < c < |h| && Parent(c) == pos
  {
    if 2 * pos + 2 < |h| && !Lt(h[2 * pos + 1], h[2 * pos + 2]) then 2 * pos + 2 else 2 * pos + 1
  }

  lemma LesserChildIsLeast(h: seq<Entry>, pos: nat)
    requires 2 * pos + 1 < |h| && Distinct(h)
    ensures forall i: nat :: 0 < i < |h| && Parent(i) == pos ==> RankLe(h[LesserChild(h, pos)].rank, h[i].rank)
  {
    forall i: nat | 0 < i < |h| && Parent(i) == pos ensures RankLe(h[LesserChild(h, pos)].rank, h[i].rank) {
      assert i == 2 * pos + 1 || i == 2 * pos + 2;
      RankTotal(h[LesserChild(h, pos)].rank, h[i].rank);
    }
  }

  lemma LeafClosesDown(g: seq<Entry>, pos: nat)
    requires pos < |g| <= 2 * pos + 1 && HeapAround(g, pos)
    ensures HeapAbove(g, pos)
  {
    forall i: nat | 0 < i < |g| ensures Parent(i) != pos {}
  }

  /** `heapq._siftup` from the root: move the entry there down along the lesser children to a leaf,
    * then let it rise from there. */
  method SiftUp(heap: seq<Entry>) returns (h: seq<Entry>)
    requires 0 < |heap| && Distinct(heap) && HeapAround(heap, 0)
    ensures IsHeap(h) && Distinct(h) && multiset(h) == multiset(heap)
  {
    h := heap;
    var pos: nat := 0;
    while 2 * pos + 1 < |h|
      invariant pos < |h| == |heap|
      invariant Distinct(h) && HeapAround(h, pos) && multiset(h) == multiset(heap)
      decreases |h| - pos
    {
      var childPos := LesserChild(h, pos);
      LesserChildIsLeast(h, pos);
      SwapKeeps(h, pos, childPos);
      DownStep(h, pos, childPos);
      h := Swap(h, pos, childPos);
      pos := childPos;
    }
    LeafClosesDown(h, pos);
    h := SiftDown(h, pos);
  }

  /** The root of a heap is its least entry. */
  lemma {:induction false} RootIsLeast(h: seq<Entry>, i: nat)
    requires IsHeap(h) && i < |h|
    ensures RankLe(h[0].rank, h[i].rank)
  {
    if i > 0 {
      assert Below(h, i);
      RootIsLeast(h, Parent(i));
      RankTransitive(h[0].rank, h[Parent(i)].rank, h[i].rank);
    } else {
      RankTotal(h[0].rank, h[0].rank);
    }
  }

  /** `heapq.heappop`: take out the least entry. */
  method HeapPop(heap: seq<Entry>) returns (h: seq<Entry>, top: Entry)
    requires IsHeap(heap) && Distinct(heap) && heap != []
    ensures IsHeap(h) && Distinct(h) && multiset(heap) == multiset(h) + multiset{top}
    ensures forall e :: e in heap ==> RankLe(top.rank, e.rank)
  {
    RootBelowAll(heap);
    var last := heap[|heap| - 1];
    h := heap[..|heap| - 1];
    assert heap == h + [last];
    if h == [] {
      top := last;
    } else {
      top := h[0];
      ReplaceRoot(heap);
      h := h[0 := last];
      h := SiftUp(h);
    }
  }

  lemma RootBelowAll(heap: seq<Entry>)
    requires IsHeap(heap)
    ensures forall e :: e in heap ==> RankLe(heap[0].rank, e.rank)
  {
    forall e | e in heap ensures RankLe(heap[0].rank, e.rank) {
      var i :| 0 <= i < |heap| && heap[i] == e;
      RootIsLeast(heap, i);
    }
  }

  /** Moving the last entry to the root leaves a heap open only around the root. */
  lemma ReplaceRoot(heap: seq<Entry>)
    requires IsHeap(heap) && Distinct(heap) && |heap| > 1
    ensures var h := heap[..|heap| - 1][0 := heap[|heap| - 1]];
      Distinct(h) && HeapAround(h, 0) && multiset(heap) == multiset(h) + multiset{heap[0]}
  {
    var last := heap[|heap| - 1];
    var h := heap[..|heap| - 1][0 := last];
    assert heap == [heap[0]] + heap[1..|heap| - 1] + [last];
    assert h == [last] + heap[1..|heap| - 1];
    forall i: nat | 0 < i < |h| && Parent(i) != 0 ensures Below(h, i) {
      assert Below(heap, i);
    }
  }
}
