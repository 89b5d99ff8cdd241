/** `merge_trades`: the k-way merge that builds the consolidated stream. */
module MergeTrades {
  import opened Orders
  import opened Seqs
  import opened Tape
  import opened HeapQueue

  /** One item of the `per_venue` dict; a dict is its items in iteration order. */
  datatype Feed = Feed(venue: string, trades: seq<Trade>)

  function TradesOf(f: Feed): seq<Trade> { f.trades }

  function TradeOf(e: Entry): Trade { e.trade }

  function Lists(feeds: seq<Feed>): seq<seq<Trade>> { MapBy(feeds, TradesOf) }

  function RankOf(t: Trade, src: int): Rank { Rank(t.ts, Recv(t), VenueName(t), src) }

  /** The heap entry for the head of source `i`. */
  function HeadEntry(rest: seq<seq<Trade>>, i: nat): Entry
    requires i < |rest| && rest[i] != []
  {
    Entry(RankOf(rest[i][0], i), rest[i][0])
  }

  function HeadRanks(rest: seq<seq<Trade>>): set<Rank> {
    set i: nat | i < |rest| && rest[i] != [] :: HeadEntry(rest, i).rank
  }

  function Next(rest: seq<seq<Trade>>): (i: nat)
    requires HeadRanks(rest) != {}
    ensures i < |rest| && rest[i] != []
    ensures forall j: nat :: j < |rest| && rest[j] != [] ==> RankLe(HeadEntry(rest, i).rank, HeadEntry(rest, j).rank)
  {
    RankOrder();
    Least(HeadRanks(rest), RankLe).src
  }

  function Total(rest: seq<seq<Trade>>): nat {
    if rest == [] then 0 else Total(Init(rest)) + |Last(rest)|
  }

  lemma {:induction false} TotalShrinks(rest: seq<seq<Trade>>, i: nat)
    requires i < |rest| && rest[i] != []
    ensures Total(rest[i := rest[i][1..]]) < Total(rest)
  {
    var less := rest[i := rest[i][1..]];
    if i < |rest| - 1 {
      assert Init(less) == Init(rest)[i := rest[i][1..]];
      TotalShrinks(Init(rest), i);
    } else {
      assert Init(less) == Init(rest);
    }
  }

  function Advance(rest: seq<seq<Trade>>, i: nat): (r: seq<seq<Trade>>)
    requires i < |rest| && rest[i] != []
    ensures Total(r) < Total(rest)
  {
    TotalShrinks(rest, i);
    rest[i := rest[i][1..]]
  }

  /** What the merge emits, each trade with the rank it was popped at: always the least head. */
  function MergeEntries(rest: seq<seq<Trade>>): seq<Entry>
    decreases Total(rest)
  {
    if HeadRanks(rest) == {} then []
    else [HeadEntry(rest, Next(rest))] + MergeEntries(Advance(rest, Next(rest)))
  }

  function Stream(rest: seq<seq<Trade>>): seq<Trade> { MapBy(MergeEntries(rest), TradeOf) }

  function Merged(feeds: seq<Feed>): seq<Trade> { Stream(Lists(feeds)) }

  // ----- the heap-driven loop computes Merged -----

  /** Heads of the first `n` sources. */
  ghost function Heads(rest: seq<seq<Trade>>, n: nat): set<Entry>
    requires n <= |rest|
  {
    set i: nat | i < n && rest[i] != [] :: HeadEntry(rest, i)
  }

  /** The heap holds exactly the heads of the first `n` sources, the iterators what follows them. */
  ghost predicate Mirrors(heap: seq<Entry>, rest: seq<seq<Trade>>, its: seq<seq<Trade>>, n: nat) {
    && n <= |rest| == |its|
    && (forall e :: e in heap <==> e in Heads(rest, n))
    && (forall i :: 0 <= i < n ==> if rest[i] == [] then its[i] == [] else its[i] == rest[i][1..])
    && (forall i :: n <= i < |rest| ==> its[i] == rest[i])
  }

  lemma LeastHead(heap: seq<Entry>, rest: seq<seq<Trade>>, its: seq<seq<Trade>>, top: Entry)
    requires Mirrors(heap, rest, its, |rest|) && top in heap
    requires forall e :: e in heap ==> RankLe(top.rank, e.rank)
    ensures HeadRanks(rest) != {} && top == HeadEntry(rest, Next(rest))
  {
    var i: nat :| i < |rest| && rest[i] != [] && top == HeadEntry(rest, i);
    assert HeadEntry(rest, i).rank in HeadRanks(rest);
    assert HeadEntry(rest, Next(rest)) in heap;
    RankTotal(top.rank, HeadEntry(rest, Next(rest)).rank);
  }

  lemma NoHeads(rest: seq<seq<Trade>>, its: seq<seq<Trade>>)
    requires Mirrors([], rest, its, |rest|)
    ensures HeadRanks(rest) == {}
  {
    assert forall i: nat :: i < |rest| && rest[i] != [] ==> HeadEntry(rest, i) in Heads(rest, |rest|);
  }

  lemma {:induction false} OnceOnly(h: seq<Entry>, e: Entry)
    requires Distinct(h)
    ensures multiset(h)[e] <= 1
  {
    if h != [] {
      assert h == Init(h) + [Last(h)];
      OnceOnly(Init(h), e);
      if e == Last(h) {
        assert forall i :: 0 <= i < |Init(h)| ==> h[i].rank != e.rank;
        assert e !in Init(h);
      }
    }
  }

  lemma Popped(heap: seq<Entry>, h: seq<Entry>, top: Entry)
    requires Distinct(heap) && multiset(heap) == multiset(h) + multiset{top}
    ensures top in heap && forall e :: e in h <==> e in heap && e != top
  {
    OnceOnly(heap, top);
    assert top in multiset(heap);
    forall e ensures e in h <==> e in heap && e != top {
      assert e in h <==> e in multiset(h);
      assert e in heap <==> e in multiset(heap);
    }
  }

  lemma Pushed(h: seq<Entry>, heap: seq<Entry>, item: Entry)
    requires multiset(heap) == multiset(h) + multiset{item}
    ensures forall e :: e in heap <==> e in h || e == item
  {
    forall e ensures e in heap <==> e in h || e == item {
      assert e in h <==> e in multiset(h);
      assert e in heap <==> e in multiset(heap);
    }
  }

  lemma AdvanceHeads(rest: seq<seq<Trade>>, i: nat)
    requires i < |rest| && rest[i] != []
    ensures var r := Advance(rest, i);
      Heads(r, |r|) == Heads(rest, |rest|) - {HeadEntry(rest, i)} + if r[i] == [] then {} else {HeadEntry(r, i)}
  {
    var r := Advance(rest, i);
    var want := Heads(rest, |rest|) - {HeadEntry(rest, i)} + if r[i] == [] then {} else {HeadEntry(r, i)};
    forall e ensures e in Heads(r, |r|) <==> e in want {
      if e in Heads(r, |r|) {
        var j: nat :| j < |r| && r[j] != [] && e == HeadEntry(r, j);
        assert j != i ==> e == HeadEntry(rest, j);
      }
      if e in want && !(r[i] != [] && e == HeadEntry(r, i)) {
        var j: nat :| j < |rest| && rest[j] != [] && e == HeadEntry(rest, j);
        assert j != i && e == HeadEntry(r, j);
      }
    }
  }

  lemma OpenHeads(rest: seq<seq<Trade>>, n: nat)
    requires n < |rest|
    ensures Heads(rest, n + 1) == Heads(rest, n) + if rest[n] == [] then {} else {HeadEntry(rest, n)}
  {
  }

  /** `nxt = next(iterators[i], None)`, pushed if there is one. */
  method Refill(heap: seq<Entry>, iterators: seq<seq<Trade>>, i: nat) returns (h: seq<Entry>, its: seq<seq<Trade>>)
    requires i < |iterators| && IsHeap(heap) && Distinct(heap)
    requires forall e :: e in heap ==> e.rank.src != i
    ensures IsHeap(h) && Distinct(h)
    ensures its == if iterators[i] == [] then iterators else Advance(iterators, i)
    ensures forall e :: e in h <==> e in heap || (iterators[i] != [] && e == HeadEntry(iterators, i))
  {
    h, its := heap, iterators;
    if iterators[i] != [] {
      var nxt := iterators[i][0];
      its := iterators[i := iterators[i][1..]];
      h := HeapPush(heap, Entry(RankOf(nxt, i), nxt));
      Pushed(heap, h, Entry(RankOf(nxt, i), nxt));
    }
  }

  lemma FirstHead(heap: seq<Entry>, h: seq<Entry>, rest: seq<seq<Trade>>, its: seq<seq<Trade>>, i: nat)
    requires i < |rest| && Mirrors(heap, rest, its, i)
    requires forall e :: e in h <==> e in heap || (its[i] != [] && e == HeadEntry(its, i))
    ensures Mirrors(h, rest, if its[i] == [] then its else Advance(its, i), i + 1)
  {
    OpenHeads(rest, i);
  }

  lemma NextHead(heap: seq<Entry>, h: seq<Entry>, h': seq<Entry>, rest: seq<seq<Trade>>, its: seq<seq<Trade>>, i: nat)
    requires i < |rest| && rest[i] != [] && Mirrors(heap, rest, its, |rest|)
    requires forall e :: e in h <==> e in heap && e != HeadEntry(rest, i)
    requires forall e :: e in h' <==> e in h || (its[i] != [] && e == HeadEntry(its, i))
    ensures Mirrors(h', Advance(rest, i), if its[i] == [] then its else Advance(its, i), |rest|)
  {
    AdvanceHeads(rest, i);
    var r := Advance(rest, i);
    assert r[i] == its[i];
    assert its[i] != [] ==> HeadEntry(its, i) == HeadEntry(r, i);
  }

  lemma StreamStep(rest: seq<seq<Trade>>)
    requires HeadRanks(rest) != {}
    ensures Stream(rest) == [HeadEntry(rest, Next(rest)).trade] + Stream(Advance(rest, Next(rest)))
  {
  }

  method MergeTrades(feeds: seq<Feed>) returns (out: seq<Trade>)
    ensures out == Merged(feeds)
  {
    var iterators := Lists(feeds);
    ghost var rest := iterators;
    var heap: seq<Entry> := [];
    for i := 0 to |iterators|
      invariant |iterators| == |rest| == |feeds|
      invariant Mirrors(heap, rest, iterators, i)
      invariant IsHeap(heap) && Distinct(heap)
    {
      assert forall e :: e in heap ==> e in Heads(rest, i);
      var h, its := Refill(heap, iterators, i);
      FirstHead(heap, h, rest, iterators, i);
      heap, iterators := h, its;
    }
    out := [];
    while heap != []
      invariant Mirrors(heap, rest, iterators, |rest|) && IsHeap(heap) && Distinct(heap)
      invariant out + Stream(rest) == Merged(feeds)
      decreases Total(rest)
    {
      var t, h, its := MergeNext(heap, iterators, rest);
      StreamStep(rest);
      out := out + [t];
      heap, iterators, rest := h, its, Advance(rest, Next(rest));
    }
    NoHeads(rest, iterators);
  }

  /** Body of the second loop: pop the least head and put its successor in. */
  method MergeNext(heap: seq<Entry>, iterators: seq<seq<Trade>>, ghost rest: seq<seq<Trade>>)
    returns (t: Trade, h: seq<Entry>, its: seq<seq<Trade>>)
    requires heap != [] && Mirrors(heap, rest, iterators, |rest|) && IsHeap(heap) && Distinct(heap)
    ensures HeadRanks(rest) != {} && t == HeadEntry(rest, Next(rest)).trade
    ensures Mirrors(h, Advance(rest, Next(rest)), its, |rest|) && IsHeap(h) && Distinct(h)
  {
    var popped, top := HeapPop(heap);
    Popped(heap, popped, top);
    LeastHead(heap, rest, iterators, top);
    t := top.trade;
    OtherSources(heap, popped, rest, iterators, Next(rest));
    h, its := Refill(popped, iterators, top.rank.src);
    NextHead(heap, popped, h, rest, iterators, Next(rest));
  }

  lemma OtherSources(heap: seq<Entry>, h: seq<Entry>, rest: seq<seq<Trade>>, its: seq<seq<Trade>>, i: nat)
    requires i < |rest| && rest[i] != [] && Mirrors(heap, rest, its, |rest|)
    requires forall e :: e in h <==> e in heap && e != HeadEntry(rest, i)
    ensures forall e :: e in h ==> e.rank.src != i
  {
    forall e | e in h ensures e.rank.src != i {
      assert e in Heads(rest, |rest|);
    }
  }
}
