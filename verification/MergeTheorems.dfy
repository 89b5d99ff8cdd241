/** What the k-way merge guarantees about the consolidated stream. */
module MergeTheorems {
  import opened Orders
  import opened Seqs
  import opened Tape
  import opened HeapQueue
  import opened MergeTrades

  function FromSource(i: int): Entry -> bool { (e: Entry) => e.rank.src == i }

  lemma NoHeadsEmpty(rest: seq<seq<Trade>>)
    requires HeadRanks(rest) == {}
    ensures forall i :: 0 <= i < |rest| ==> rest[i] == []
  {
    assert forall i: nat :: i < |rest| && rest[i] != [] ==> HeadEntry(rest, i).rank in HeadRanks(rest);
  }

  lemma {:induction false} ProjectionStep(e: Entry, tail: seq<Entry>, i: int)
    ensures MapBy(Filter([e] + tail, FromSource(i)), TradeOf)
         == (if e.rank.src == i then [e.trade] else []) + MapBy(Filter(tail, FromSource(i)), TradeOf)
  {
    FilterConcat([e], tail, FromSource(i));
    assert Filter([e], FromSource(i)) == if e.rank.src == i then [e] else [] by { assert Init([e]) == []; }
  }

  lemma AdvanceAt(rest: seq<seq<Trade>>, n: nat, i: nat)
    requires n < |rest| && rest[n] != [] && i < |rest|
    ensures rest[i] == (if n == i then [rest[n][0]] else []) + Advance(rest, n)[i]
  {
  }

  /** The stream restricted to the trades popped from source `i` is that source, in order. */
  lemma {:induction false} ProjectionIsSource(rest: seq<seq<Trade>>, i: nat)
    requires i < |rest|
    ensures MapBy(Filter(MergeEntries(rest), FromSource(i)), TradeOf) == rest[i]
    decreases Total(rest)
  {
    if HeadRanks(rest) == {} {
      NoHeadsEmpty(rest);
    } else {
      var n := Next(rest);
      var e, tail := HeadEntry(rest, n), MergeEntries(Advance(rest, n));
      ProjectionIsSource(Advance(rest, n), i);
      ProjectionStep(e, tail, i);
      AdvanceAt(rest, n, i);
    }
  }

  /** Every popped entry is the trade of its source. */
  lemma {:induction false} EntryOrigin(rest: seq<seq<Trade>>)
    ensures forall e :: e in MergeEntries(rest) ==>
      0 <= e.rank.src < |rest| && e.trade in rest[e.rank.src] && e.rank == RankOf(e.trade, e.rank.src)
    decreases Total(rest)
  {
    if HeadRanks(rest) != {} {
      var n := Next(rest);
      EntryOrigin(Advance(rest, n));
      forall e | e in MergeEntries(rest)
        ensures 0 <= e.rank.src < |rest| && e.trade in rest[e.rank.src] && e.rank == RankOf(e.trade, e.rank.src)
      {
        if e != HeadEntry(rest, n) {
          assert e in MergeEntries(Advance(rest, n));
        }
      }
    }
  }

  /** A dict: distinct keys, and every trade carries its key as its venue. */
  ghost predicate Keyed(feeds: seq<Feed>) {
    && (forall i, j :: 0 <= i < j < |feeds| ==> feeds[i].venue != feeds[j].venue)
    && (forall i :: 0 <= i < |feeds| ==> OwnVenue(feeds[i]))
  }

  ghost predicate OwnVenue(f: Feed) {
    forall t :: t in f.trades ==> t.venue == Some(f.venue)
  }

  function VenueIs(v: string): Trade -> bool { (t: Trade) => t.venue == Some(v) }

  /** Restricting the stream by venue name gives back each venue's own list. */
  lemma VenueRestriction(feeds: seq<Feed>, i: nat)
    requires Keyed(feeds) && i < |feeds|
    ensures Filter(Merged(feeds), VenueIs(feeds[i].venue)) == feeds[i].trades
  {
    var es := MergeEntries(Lists(feeds));
    EntryOrigin(Lists(feeds));
    forall k | 0 <= k < |es| ensures VenueIs(feeds[i].venue)(TradeOf(es[k])) == FromSource(i)(es[k]) {
      assert es[k] in es;
      var j := es[k].rank.src;
      assert OwnVenue(feeds[j]) && es[k].trade in feeds[j].trades;
    }
    FilterMap(es, TradeOf, VenueIs(feeds[i].venue), FromSource(i));
    ProjectionIsSource(Lists(feeds), i);
  }

  lemma {:induction false} FlattenUpdate(rest: seq<seq<Trade>>, i: nat)
    requires i < |rest| && rest[i] != []
    ensures multiset(Flatten(rest)) == multiset{rest[i][0]} + multiset(Flatten(rest[i := rest[i][1..]]))
  {
    InitUpdate(rest, i);
    if i < |rest| - 1 {
      FlattenUpdate(Init(rest), i);
      FrontTrade(rest[i][0], Flatten(Init(rest)), Flatten(Init(rest)[i := rest[i][1..]]), Last(rest));
    } else {
      MiddleTrade(Flatten(Init(rest)), rest[i]);
    }
  }

  lemma InitUpdate(rest: seq<seq<Trade>>, i: nat)
    requires i < |rest| && rest[i] != []
    ensures var less := rest[i := rest[i][1..]];
      Flatten(less) == if i < |rest| - 1 then Flatten(Init(rest)[i := rest[i][1..]]) + Last(rest)
                       else Flatten(Init(rest)) + rest[i][1..]
  {
    var less := rest[i := rest[i][1..]];
    assert Init(less) == if i < |rest| - 1 then Init(rest)[i := rest[i][1..]] else Init(rest);
  }

  lemma FrontTrade(x: Trade, a: seq<Trade>, b: seq<Trade>, c: seq<Trade>)
    requires multiset(a) == multiset{x} + multiset(b)
    ensures multiset(a + c) == multiset{x} + multiset(b + c)
  {
    assert multiset(a + c) == multiset(a) + multiset(c);
    assert multiset(b + c) == multiset(b) + multiset(c);
  }

  lemma MiddleTrade(a: seq<Trade>, b: seq<Trade>)
    requires b != []
    ensures multiset(a + b) == multiset{b[0]} + multiset(a + b[1..])
  {
    assert b == [b[0]] + b[1..];
    assert multiset(a + b) == multiset(a) + multiset(b);
    assert multiset(a + b[1..]) == multiset(a) + multiset(b[1..]);
  }

  lemma {:induction false} FlattenNone(rest: seq<seq<Trade>>)
    requires forall i :: 0 <= i < |rest| ==> rest[i] == []
    ensures Flatten(rest) == []
  {
    if rest != [] { FlattenNone(Init(rest)); }
  }

  /** Nothing is lost, invented or duplicated. */
  lemma {:induction false} MergeConserves(rest: seq<seq<Trade>>)
    ensures multiset(Stream(rest)) == multiset(Flatten(rest))
    decreases Total(rest)
  {
    if HeadRanks(rest) == {} {
      NoHeadsEmpty(rest);
      FlattenNone(rest);
    } else {
      var n := Next(rest);
      StreamStep(rest);
      FlattenUpdate(rest, n);
      MergeConserves(Advance(rest, n));
    }
  }

  // ----- order of the stream -----

  ghost predicate SortedBy<T>(s: seq<T>, le: (T, T) -> bool) {
    forall i, j :: 0 <= i < j < |s| ==> le(s[i], s[j])
  }

  predicate TsLe(a: Trade, b: Trade) { a.ts <= b.ts }

  /** Order by `(ts_ns, recv_ns, venue)`: a trade without a receive time counts as received at its own time,
    * one without a venue has the empty name. */
  ghost predicate KeyLe(a: Trade, b: Trade) {
    var received := if a.recv.Some? then a.recv.value else a.ts;
    var received' := if b.recv.Some? then b.recv.value else b.ts;
    var name := if a.venue.Some? then a.venue.value else "";
    var name' := if b.venue.Some? then b.venue.value else "";
    || a.ts < b.ts
    || (a.ts == b.ts && received < received')
    || (a.ts == b.ts && received == received' && Lexicographic(name, name'))
  }

  lemma KeyIsRank(a: Trade, b: Trade)
    ensures KeyLe(a, b) <==> RankLe(RankOf(a, 0), RankOf(b, 0))
  {
    StrLeIsLexicographic(VenueName(a), VenueName(b));
    StrLeTotal(VenueName(a), VenueName(b));
  }

  /** A transitive relation that pop order refines. */
  ghost predicate Coarser(le: (Trade, Trade) -> bool) {
    && (forall x, y, z :: le(x, y) && le(y, z) ==> le(x, z))
    && (forall x, y, i, j :: RankLe(RankOf(x, i), RankOf(y, j)) ==> le(x, y))
  }

  lemma TsCoarser()
    ensures Coarser(TsLe)
  {
  }

  lemma KeyCoarser()
    ensures Coarser(KeyLe)
  {
    forall x, y, z | KeyLe(x, y) && KeyLe(y, z) ensures KeyLe(x, z) {
      KeyIsRank(x, y);
      KeyIsRank(y, z);
      KeyIsRank(x, z);
      RankTransitive(RankOf(x, 0), RankOf(y, 0), RankOf(z, 0));
    }
    forall x, y, i, j | RankLe(RankOf(x, i), RankOf(y, j)) ensures KeyLe(x, y) { KeyIsRank(x, y); }
  }

  /** Everything still to come is at or above the least head. */
  lemma {:induction false} HeadBelowAll(rest: seq<seq<Trade>>, x: Trade, le: (Trade, Trade) -> bool)
    requires Coarser(le)
    requires forall i :: 0 <= i < |rest| ==> SortedBy(rest[i], le)
    requires forall i :: 0 <= i < |rest| && rest[i] != [] ==> le(x, rest[i][0])
    ensures forall t :: t in Stream(rest) ==> le(x, t)
  {
    var es := MergeEntries(rest);
    EntryOrigin(rest);
    forall t | t in Stream(rest) ensures le(x, t) {
      var k :| 0 <= k < |es| && TradeOf(es[k]) == t;
      assert es[k] in es;
      var src := es[k].rank.src;
      var m :| 0 <= m < |rest[src]| && rest[src][m] == t;
      assert SortedBy(rest[src], le);
      assert m > 0 ==> le(rest[src][0], rest[src][m]);
    }
  }

  lemma {:induction false} SortedSourcesMergeSorted(rest: seq<seq<Trade>>, le: (Trade, Trade) -> bool)
    requires Coarser(le)
    requires forall i :: 0 <= i < |rest| ==> SortedBy(rest[i], le)
    ensures SortedBy(Stream(rest), le)
    decreases Total(rest)
  {
    if HeadRanks(rest) != {} {
      var r, x := Advance(rest, Next(rest)), rest[Next(rest)][0];
      StreamStep(rest);
      AdvanceSorted(rest, le);
      SortedSourcesMergeSorted(r, le);
      HeadBelowAll(r, x, le);
      PrependSorted(x, Stream(r), le);
    }
  }

  /** After the least head is taken, the sources are still sorted and start at or above it. */
  lemma AdvanceSorted(rest: seq<seq<Trade>>, le: (Trade, Trade) -> bool)
    requires Coarser(le) && HeadRanks(rest) != {}
    requires forall i :: 0 <= i < |rest| ==> SortedBy(rest[i], le)
    ensures var n := Next(rest);
      var r := Advance(rest, n);
      forall i :: 0 <= i < |r| ==> SortedBy(r[i], le) && (r[i] != [] ==> le(rest[n][0], r[i][0]))
  {
    var n := Next(rest);
    var r := Advance(rest, n);
    assert SortedBy(rest[n], le);
    forall i | 0 <= i < |r| ensures SortedBy(r[i], le) && (r[i] != [] ==> le(rest[n][0], r[i][0])) {
      if i != n {
        assert SortedBy(rest[i], le);
        if rest[i] != [] { assert RankLe(HeadEntry(rest, n).rank, HeadEntry(rest, i).rank); }
      }
    }
  }

  lemma PrependSorted(x: Trade, s: seq<Trade>, le: (Trade, Trade) -> bool)
    requires SortedBy(s, le) && forall t :: t in s ==> le(x, t)
    ensures SortedBy([x] + s, le)
  {
    assert forall k :: 0 <= k < |s| ==> s[k] in s;
  }

  /** A filter of a sorted sequence is sorted. */
  lemma {:induction false} FilterSorted<T>(s: seq<T>, p: T -> bool, le: (T, T) -> bool)
    requires SortedBy(s, le)
    ensures SortedBy(Filter(s, p), le)
  {
    if s != [] {
      FilterSorted(Init(s), p, le);
      FilterMembers(Init(s), p);
      forall x | x in Init(s) ensures le(x, Last(s)) {
        var i :| 0 <= i < |Init(s)| && Init(s)[i] == x;
        assert le(s[i], s[|s| - 1]);
      }
      assert forall k :: 0 <= k < |Filter(Init(s), p)| ==> Filter(Init(s), p)[k] in Filter(Init(s), p);
    }
  }

  function Lift(le: (Trade, Trade) -> bool): (Entry, Entry) -> bool { (a: Entry, b: Entry) => le(a.trade, b.trade) }

  /** The merged stream is sorted exactly when every input list is. */
  lemma MergeSortedIff(feeds: seq<Feed>, le: (Trade, Trade) -> bool)
    requires Coarser(le)
    ensures SortedBy(Merged(feeds), le) <==> forall i :: 0 <= i < |feeds| ==> SortedBy(feeds[i].trades, le)
  {
    var rest := Lists(feeds);
    if forall i :: 0 <= i < |feeds| ==> SortedBy(feeds[i].trades, le) {
      SortedSourcesMergeSorted(rest, le);
    }
    if SortedBy(Merged(feeds), le) {
      var es := MergeEntries(rest);
      assert SortedBy(es, Lift(le)) by {
        forall i, j | 0 <= i < j < |es| ensures Lift(le)(es[i], es[j]) {
          assert le(Stream(rest)[i], Stream(rest)[j]);
        }
      }
      forall i | 0 <= i < |feeds| ensures SortedBy(feeds[i].trades, le) {
        FilterSorted(es, FromSource(i), Lift(le));
        ProjectionIsSource(rest, i);
        var f := Filter(es, FromSource(i));
        forall a, b | 0 <= a < b < |f| ensures le(feeds[i].trades[a], feeds[i].trades[b]) {
          assert Lift(le)(f[a], f[b]);
        }
      }
    }
  }

  /** Sorted by time when the inputs are, by the full key when the inputs are. */
  lemma MergeOrder(feeds: seq<Feed>)
    ensures SortedBy(Merged(feeds), TsLe) <==> forall i :: 0 <= i < |feeds| ==> SortedBy(feeds[i].trades, TsLe)
    ensures SortedBy(Merged(feeds), KeyLe) <==> forall i :: 0 <= i < |feeds| ==> SortedBy(feeds[i].trades, KeyLe)
  {
    TsCoarser();
    KeyCoarser();
    MergeSortedIff(feeds, TsLe);
    MergeSortedIff(feeds, KeyLe);
  }

  /** Spelled out: from feeds in that order, of any two trades of the stream the earlier one has the smaller
    * exchange time, or else was received first, or else has the venue name that sorts first. */
  lemma MergedInOrder(feeds: seq<Feed>)
    requires forall i :: 0 <= i < |feeds| ==> SortedBy(feeds[i].trades, KeyLe)
    ensures forall i, j :: 0 <= i < j < |Merged(feeds)| ==>
      var a, b := Merged(feeds)[i], Merged(feeds)[j];
      var received := if a.recv.Some? then a.recv.value else a.ts;
      var received' := if b.recv.Some? then b.recv.value else b.ts;
      var name := if a.venue.Some? then a.venue.value else "";
      var name' := if b.venue.Some? then b.venue.value else "";
      a.ts <= b.ts
      && (a.ts == b.ts ==> received <= received' && (received == received' ==> Lexicographic(name, name')))
  {
    MergeOrder(feeds);
    var m := Merged(feeds);
    forall i, j | 0 <= i < j < |m| ensures KeyLe(m[i], m[j]) { assert SortedBy(m, KeyLe); }
  }

  // ----- which head comes out first -----

  /** The head of source `i` comes before that of source `j`: by time, then receive time, then venue name, then
    * place in the dict. */
  ghost predicate HeadFirst(a: Trade, i: int, b: Trade, j: int) {
    var received := if a.recv.Some? then a.recv.value else a.ts;
    var received' := if b.recv.Some? then b.recv.value else b.ts;
    var name := if a.venue.Some? then a.venue.value else "";
    var name' := if b.venue.Some? then b.venue.value else "";
    || a.ts < b.ts
    || (a.ts == b.ts && received < received')
    || (a.ts == b.ts && received == received' && name != name' && Lexicographic(name, name'))
    || (a.ts == b.ts && received == received' && name == name' && i < j)
  }

  lemma HeadFirstIsRank(a: Trade, i: int, b: Trade, j: int)
    requires i != j
    ensures HeadFirst(a, i, b, j) <==> RankLe(RankOf(a, i), RankOf(b, j))
    ensures HeadFirst(a, i, b, j) ==> !RankLe(RankOf(b, j), RankOf(a, i))
  {
    StrLeIsLexicographic(VenueName(a), VenueName(b));
    RankTotal(RankOf(a, i), RankOf(b, j));
  }

  /** Of two heads the first comes out first: it is emitted with nothing of the other's source before it. */
  lemma {:induction false} EarlierHeadFirst(rest: seq<seq<Trade>>, i: nat, j: nat) returns (m: nat)
    requires i < |rest| && j < |rest| && i != j && rest[i] != [] && rest[j] != []
    requires HeadFirst(rest[i][0], i, rest[j][0], j)
    ensures m < |MergeEntries(rest)| && MergeEntries(rest)[m].trade == rest[i][0] && MergeEntries(rest)[m].rank.src == i
    ensures forall k :: 0 <= k <= m ==> MergeEntries(rest)[k].rank.src != j
    decreases Total(rest)
  {
    assert HeadEntry(rest, i).rank in HeadRanks(rest);
    var n := Next(rest);
    HeadFirstIsRank(rest[i][0], i, rest[j][0], j);
    assert n != j;
    if n == i {
      m := 0;
    } else {
      var k := EarlierHeadFirst(Advance(rest, n), i, j);
      m := k + 1;
      assert MergeEntries(rest)[1..] == MergeEntries(Advance(rest, n));
    }
  }

  /** Inputs sorted by time alone, as the docstring asks, do not give the promised key order: one
    * venue with two simultaneous trades received in the opposite order. */
  lemma TimeOrderIsNotEnough()
    ensures exists feeds: seq<Feed> ::
              && Keyed(feeds)
              && (forall i :: 0 <= i < |feeds| ==> SortedBy(feeds[i].trades, TsLe))
              && !SortedBy(Merged(feeds), KeyLe)
  {
    var a := Trade(0, Some(5), Some("v"), 1.0, 1.0, "a");
    var b := Trade(0, Some(3), Some("v"), 1.0, 1.0, "b");
    var feeds := [Feed("v", [a, b])];
    assert !KeyLe(feeds[0].trades[0], feeds[0].trades[1]);
    assert OwnVenue(feeds[0]);
    MergeOrder(feeds);
  }

  // ----- independence of dict order -----

  ghost predicate SameDict(f: seq<Feed>, g: seq<Feed>) {
    Keyed(f) && Keyed(g) && forall x :: x in f <==> x in g
  }

  function AdvanceFeed(f: seq<Feed>, i: nat): seq<Feed>
    requires i < |f| && f[i].trades != []
  {
    f[i := f[i].(trades := f[i].trades[1..])]
  }

  /** Heads of different venues never tie before the source number is compared. */
  lemma NextVenue(f: seq<Feed>, g: seq<Feed>)
    requires SameDict(f, g) && HeadRanks(Lists(f)) != {}
    ensures HeadRanks(Lists(g)) != {}
    ensures f[Next(Lists(f))] == g[Next(Lists(g))]
  {
    var i := Next(Lists(f));
    assert f[i] in g;
    var j :| 0 <= j < |g| && g[j] == f[i];
    assert HeadEntry(Lists(g), j).rank in HeadRanks(Lists(g));
    var k := Next(Lists(g));
    assert g[k] in f;
    var l :| 0 <= l < |f| && f[l] == g[k];
    assert f[i].venue == f[l].venue ==> i == l;
    assert OwnVenue(f[i]) && OwnVenue(f[l]);
    var a, b := f[i].trades[0], f[l].trades[0];
    assert a in f[i].trades && b in f[l].trades;
    assert RankLe(HeadEntry(Lists(f), i).rank, HeadEntry(Lists(f), l).rank);
    assert RankLe(HeadEntry(Lists(g), k).rank, HeadEntry(Lists(g), j).rank);
    VenuesNeverTie(a, b, i, l, k, j);
  }

  /** Two trades each ranked at or below the other, whatever their sources, are of one venue. */
  lemma VenuesNeverTie(a: Trade, b: Trade, i: int, l: int, k: int, j: int)
    requires RankLe(RankOf(a, i), RankOf(b, l)) && RankLe(RankOf(b, k), RankOf(a, j))
    ensures VenueName(a) == VenueName(b)
  {
    StrLeTotal(VenueName(a), VenueName(b));
  }

  lemma AdvanceSame(f: seq<Feed>, g: seq<Feed>, i: nat, j: nat)
    requires SameDict(f, g) && i < |f| && j < |g| && f[i] == g[j] && f[i].trades != []
    ensures SameDict(AdvanceFeed(f, i), AdvanceFeed(g, j))
  {
    AdvanceKeyed(f, i);
    AdvanceKeyed(g, j);
    AdvanceMembers(f, i);
    AdvanceMembers(g, j);
  }

  lemma AdvanceKeyed(f: seq<Feed>, i: nat)
    requires Keyed(f) && i < |f| && f[i].trades != []
    ensures Keyed(AdvanceFeed(f, i))
  {
    var g := AdvanceFeed(f, i);
    forall k | 0 <= k < |g| ensures OwnVenue(g[k]) { assert OwnVenue(f[k]); }
  }

  lemma AdvanceMembers(f: seq<Feed>, i: nat)
    requires Keyed(f) && i < |f| && f[i].trades != []
    ensures forall x :: x in AdvanceFeed(f, i) <==> (x in f && x != f[i]) || x == f[i].(trades := f[i].trades[1..])
  {
    var g := AdvanceFeed(f, i);
    forall x ensures x in g <==> (x in f && x != f[i]) || x == g[i] {
      if x in g {
        var k :| 0 <= k < |g| && g[k] == x;
        assert k < i ==> f[k].venue != f[i].venue;
        assert i < k ==> f[i].venue != f[k].venue;
      }
      if x in f && x != f[i] {
        var k :| 0 <= k < |f| && f[k] == x;
        assert g[k] == x;
      }
    }
  }

  /** The stream does not depend on the iteration order of the dict. */
  lemma {:induction false} DictOrderIrrelevant(f: seq<Feed>, g: seq<Feed>)
    requires SameDict(f, g)
    ensures Merged(f) == Merged(g)
    decreases Total(Lists(f))
  {
    if HeadRanks(Lists(f)) == {} {
      if HeadRanks(Lists(g)) != {} { NextVenue(g, f); }
    } else {
      NextVenue(f, g);
      var i, j := Next(Lists(f)), Next(Lists(g));
      StreamStep(Lists(f));
      StreamStep(Lists(g));
      assert Lists(AdvanceFeed(f, i)) == Advance(Lists(f), i);
      assert Lists(AdvanceFeed(g, j)) == Advance(Lists(g), j);
      AdvanceSame(f, g, i, j);
      DictOrderIrrelevant(AdvanceFeed(f, i), AdvanceFeed(g, j));
    }
  }
}
