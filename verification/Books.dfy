/** One side of an L2 book kept as a price-to-size map, and its best levels. */
module Books {
  import opened Orders
  import opened Seqs

  datatype Level = Level(px: real, sz: real)

  type Side = map<real, real>

  datatype Book = Book(bids: Side, asks: Side)

  const EMPTY := Book(map[], map[])

  /** One update: size zero removes the level, anything else sets it. */
  function Put(side: Side, l: Level): Side {
    if l.sz == 0.0 then side - {l.px} else side[l.px := l.sz]
  }

  /** A list of updates, first to last. */
  function PutAll(side: Side, ls: seq<Level>): Side {
    if ls == [] then side else Put(PutAll(side, Init(ls)), Last(ls))
  }

  lemma {:induction false} PutConcat(side: Side, a: seq<Level>, b: seq<Level>)
    ensures PutAll(side, a + b) == PutAll(PutAll(side, a), b)
  {
    if b == [] {
      assert a + b == a;
    } else {
      PutConcat(side, a, Init(b));
      assert a + b == (a + Init(b)) + [Last(b)];
      assert Init((a + Init(b)) + [Last(b)]) == a + Init(b);
    }
  }

  // ----- the log of updates -----

  /** The size last written at a price, if the last write was not a removal. */
  function LastWrite(log: seq<Level>, px: real): Option<real> {
    if log == [] then None
    else if Last(log).px == px then (if Last(log).sz == 0.0 then None else Some(Last(log).sz))
    else LastWrite(Init(log), px)
  }

  /** The incremental map is the last-write-wins replay of its log. */
  lemma {:induction false} ReplayIsLastWrite(log: seq<Level>, px: real)
    ensures px in PutAll(map[], log) <==> LastWrite(log, px).Some?
    ensures px in PutAll(map[], log) ==> LastWrite(log, px) == Some(PutAll(map[], log)[px])
  {
    if log != [] { ReplayIsLastWrite(Init(log), px); }
  }

  /** Some update of the log is at this price. */
  ghost predicate WrittenIn(log: seq<Level>, px: real) { exists i :: 0 <= i < |log| && log[i].px == px }

  lemma {:induction false} LastWriteConcat(a: seq<Level>, b: seq<Level>, px: real)
    ensures LastWrite(a + b, px) == if WrittenIn(b, px) then LastWrite(b, px) else LastWrite(a, px)
  {
    if b == [] {
      assert a + b == a;
    } else {
      LastWriteConcat(a, Init(b), px);
      assert Init(a + b) == a + Init(b);
      assert WrittenIn(b, px) <==> WrittenIn(Init(b), px) || Last(b).px == px by {
        if i :| 0 <= i < |Init(b)| && Init(b)[i].px == px { assert b[i].px == px; }
        if i :| 0 <= i < |b| - 1 && b[i].px == px { assert Init(b)[i].px == px; }
        assert b[|b| - 1] == Last(b);
      }
    }
  }

  lemma {:induction false} OnlyWritten(log: seq<Level>, px: real)
    requires LastWrite(log, px).Some?
    ensures WrittenIn(log, px)
  {
    if Last(log).px == px {
      assert log[|log| - 1].px == px;
    } else {
      OnlyWritten(Init(log), px);
      var i :| 0 <= i < |Init(log)| && Init(log)[i].px == px;
      assert log[i].px == px;
    }
  }

  /** Every price live after `was` is written again in `since`. */
  ghost predicate AllRewritten(was: seq<Level>, since: seq<Level>) {
    forall p :: LastWrite(was, p).Some? ==> WrittenIn(since, p)
  }

  /** What is live after both logs: what is live after the second alone, and what the second never wrote. */
  lemma {:induction false} LiveAfter(was: seq<Level>, since: seq<Level>, p: real)
    ensures var all, later := PutAll(map[], was + since), PutAll(map[], since);
      && (p in all && WrittenIn(since, p) <==> p in later)
      && (p in later ==> all[p] == later[p])
      && (p in all && !WrittenIn(since, p) <==> LastWrite(was, p).Some? && !WrittenIn(since, p))
  {
    ReplayIsLastWrite(was + since, p);
    ReplayIsLastWrite(since, p);
    LastWriteConcat(was, since, p);
    if LastWrite(since, p).Some? { OnlyWritten(since, p); }
  }

  /** Forgetting the first log makes no difference exactly when the second rewrites all it left. */
  lemma {:induction false} SameReplayIff(was: seq<Level>, since: seq<Level>)
    ensures PutAll(map[], was + since) == PutAll(map[], since) <==> AllRewritten(was, since)
  {
    var all, later := PutAll(map[], was + since), PutAll(map[], since);
    forall p ensures p in later ==> p in all && all[p] == later[p] { LiveAfter(was, since, p); }
    if all == later {
      forall p | LastWrite(was, p).Some? ensures WrittenIn(since, p) { LiveAfter(was, since, p); }
    }
    if AllRewritten(was, since) {
      forall p | p in all ensures p in later { LiveAfter(was, since, p); }
      assert all.Keys == later.Keys;
    }
  }

  /** Prices and sizes of the updates are as a venue sends them. */
  ghost predicate ValidLevels(ls: seq<Level>) { forall l :: l in ls ==> l.px > 0.0 && l.sz >= 0.0 }

  ghost predicate PositiveSide(side: Side) { forall p :: p in side ==> p > 0.0 && side[p] > 0.0 }

  lemma {:induction false} PutKeepsPositive(side: Side, ls: seq<Level>)
    requires PositiveSide(side) && ValidLevels(ls)
    ensures PositiveSide(PutAll(side, ls))
  {
    if ls != [] {
      assert ls == Init(ls) + [Last(ls)];
      PutKeepsPositive(side, Init(ls));
    }
  }

  // ----- best levels -----

  predicate RealGe(a: real, b: real) { a >= b }

  lemma RealOrders()
    ensures TotalOrder(RealLe) && TotalOrder(RealGe)
  {
    forall a, b ensures Compares(RealLe, a, b) && Compares(RealGe, a, b) {}
    forall a, b, c ensures Chains(RealLe, a, b, c) && Chains(RealGe, a, b, c) {}
  }

  function LevelOf(side: Side): real -> Level { p => Level(p, if p in side then side[p] else 0.0) }

  /** How many of `n` a slice up to `depth` has. */
  function Upto(depth: nat, n: nat): nat { if depth <= n then depth else n }

  /** `sorted(side.items())[:depth]`: prices are distinct, so sizes never decide the order. */
  function Best(side: Side, le: (real, real) -> bool, depth: nat): seq<Level>
    requires TotalOrder(le)
  {
    var ps := SortSet(side.Keys, le);
    MapBy(ps[..Upto(depth, |ps|)], LevelOf(side))
  }

  function BestBids(side: Side, depth: nat): seq<Level> {
    RealOrders();
    Best(side, RealGe, depth)
  }

  function BestAsks(side: Side, depth: nat): seq<Level> {
    RealOrders();
    Best(side, RealLe, depth)
  }

  /** What "the `depth` best levels" means, without saying how to find them. */
  ghost predicate AreBest(side: Side, le: (real, real) -> bool, depth: nat, r: seq<Level>) {
    && |r| == (if depth <= |side| then depth else |side|)
    && (forall i :: 0 <= i < |r| ==> r[i].px in side && r[i].sz == side[r[i].px])
    && (forall i, j :: 0 <= i < j < |r| ==> r[i].px != r[j].px && le(r[i].px, r[j].px))
    && forall p, i :: p in side && 0 <= i < |r| && (forall j :: 0 <= j < |r| ==> r[j].px != p) ==> le(r[i].px, p)
  }

  /** In sorted prices, one outside the first `n` is no better than any of them. */
  lemma RestNoBetter(ps: seq<real>, le: (real, real) -> bool, n: nat, i: nat, p: real)
    requires i < n <= |ps| && p in ps && StrictlySorted(ps, le)
    requires forall j :: 0 <= j < n ==> ps[j] != p
    ensures le(ps[i], p)
  {
    var k :| 0 <= k < |ps| && ps[k] == p;
  }

  lemma BestLevels(side: Side, le: (real, real) -> bool, depth: nat)
    requires TotalOrder(le)
    ensures var ps, r := SortSet(side.Keys, le), Best(side, le, depth);
      && |ps| == |side| && StrictlySorted(ps, le) && (forall p :: p in side ==> p in ps)
      && |r| == (if depth <= |side| then depth else |side|)
      && forall i :: 0 <= i < |r| ==> r[i].px == ps[i] && r[i].px in side && r[i].sz == side[r[i].px]
  {
    var ps, r := SortSet(side.Keys, le), Best(side, le, depth);
    SortSetSorts(side.Keys, le);
    assert |side| == |side.Keys|;
    forall i | 0 <= i < |r| ensures r[i].px == ps[i] && r[i].px in side && r[i].sz == side[r[i].px] {
      assert ps[i] in ps;
    }
  }

  lemma BestAreBest(side: Side, le: (real, real) -> bool, depth: nat)
    requires TotalOrder(le)
    ensures AreBest(side, le, depth, Best(side, le, depth))
  {
    var ps, r := SortSet(side.Keys, le), Best(side, le, depth);
    BestLevels(side, le, depth);
    forall i, j | 0 <= i < j < |r| ensures r[i].px != r[j].px && le(r[i].px, r[j].px) {
      assert ps[i] != ps[j] && le(ps[i], ps[j]);
    }
    forall p, i | p in side && 0 <= i < |r| && (forall j :: 0 <= j < |r| ==> r[j].px != p) ensures le(r[i].px, p) {
      assert forall j :: 0 <= j < |r| ==> ps[j] == r[j].px;
      RestNoBetter(ps, le, |r|, i, p);
    }
  }

  /** The levels of a snapshot are positive when the side's are, strictly ordered, without repetition. */
  lemma BestOrdered(side: Side, le: (real, real) -> bool, depth: nat)
    requires TotalOrder(le) && PositiveSide(side)
    ensures var r := Best(side, le, depth);
      && (forall i, j :: 0 <= i < j < |r| ==> r[i].px != r[j].px && le(r[i].px, r[j].px))
      && (forall i :: 0 <= i < |r| ==> r[i].px > 0.0 && r[i].sz > 0.0)
  {
    BestAreBest(side, le, depth);
  }

  lemma {:induction false} FilterKeepsStrict(s: seq<real>, keep: real -> bool, le: (real, real) -> bool)
    requires StrictlySorted(s, le)
    ensures StrictlySorted(Filter(s, keep), le)
  {
    if s != [] {
      FilterKeepsStrict(Init(s), keep, le);
      FilterMembers(Init(s), keep);
      var r := Filter(Init(s), keep);
      forall i | 0 <= i < |r| ensures r[i] != Last(s) && le(r[i], Last(s)) {
        assert r[i] in r;
        var j :| 0 <= j < |Init(s)| && Init(s)[j] == r[i];
      }
    }
  }

  function LiveIn(side: Side): real -> bool { p => p in side }

  /** Every level of `part` is a level of `all`. */
  ghost predicate PartOf(part: Side, all: Side) { forall p :: p in part ==> p in all && part[p] == all[p] }

  lemma SortedPart(all: Side, part: Side, le: (real, real) -> bool)
    requires TotalOrder(le) && PartOf(part, all)
    ensures SortSet(part.Keys, le) == Filter(SortSet(all.Keys, le), LiveIn(part))
  {
    var ps := SortSet(all.Keys, le);
    SortSetSorts(all.Keys, le);
    FilterKeepsStrict(ps, LiveIn(part), le);
    FilterMembers(ps, LiveIn(part));
    forall p ensures p in Filter(ps, LiveIn(part)) <==> p in part.Keys { assert LiveIn(part)(p) <==> p in part; }
    SortSetUnique(part.Keys, Filter(ps, LiveIn(part)), le);
  }

  /** Selecting does not touch a start that is all selected. */
  lemma {:induction false} SameStart(ps: seq<real>, keep: real -> bool, depth: nat)
    requires forall i :: 0 <= i < Upto(depth, |ps|) ==> keep(ps[i])
    ensures var n, qs := Upto(depth, |ps|), Filter(ps, keep);
      n == Upto(depth, |qs|) && qs[..n] == ps[..n]
  {
    var n := Upto(depth, |ps|);
    assert ps == ps[..n] + ps[n..];
    FilterConcat(ps[..n], ps[n..], keep);
    FilterAll(ps[..n], keep);
    FilterShorter(ps, keep);
  }

  lemma SameLevels(ps: seq<real>, n: nat, all: Side, part: Side)
    requires PartOf(part, all) && n <= |ps| && forall i :: 0 <= i < n ==> ps[i] in part
    ensures MapBy(ps[..n], LevelOf(all)) == MapBy(ps[..n], LevelOf(part))
  {
    var a, b := MapBy(ps[..n], LevelOf(all)), MapBy(ps[..n], LevelOf(part));
    forall i | 0 <= i < n ensures a[i] == b[i] { assert ps[..n][i] == ps[i]; }
  }

  lemma BestOfPart(all: Side, part: Side, le: (real, real) -> bool, depth: nat, ps: seq<real>, qs: seq<real>)
    requires TotalOrder(le) && PartOf(part, all) && ps == SortSet(all.Keys, le) && qs == SortSet(part.Keys, le)
    requires forall i :: 0 <= i < Upto(depth, |ps|) ==> ps[i] in part
    ensures Best(all, le, depth) == Best(part, le, depth)
  {
    SortedPart(all, part, le);
    SameStart(ps, LiveIn(part), depth);
    SameLevels(ps, Upto(depth, |ps|), all, part);
  }

  lemma {:induction false} FilterShorter(s: seq<real>, keep: real -> bool)
    ensures |Filter(s, keep)| <= |s|
  {
    if s != [] { FilterShorter(Init(s), keep); }
  }

  /** A part of a side has the same best levels exactly when those of the whole are all in it. */
  lemma BestOfPartIff(all: Side, part: Side, le: (real, real) -> bool, depth: nat)
    requires TotalOrder(le) && PartOf(part, all)
    ensures var r := Best(all, le, depth);
      r == Best(part, le, depth) <==> forall i :: 0 <= i < |r| ==> r[i].px in part
  {
    var r, ps := Best(all, le, depth), SortSet(all.Keys, le);
    BestLevels(all, le, depth);
    if r == Best(part, le, depth) { BestLevels(part, le, depth); }
    if forall i :: 0 <= i < |r| ==> r[i].px in part {
      forall i | 0 <= i < Upto(depth, |ps|) ensures ps[i] in part { assert r[i].px in part; }
      BestOfPart(all, part, le, depth, ps, SortSet(part.Keys, le));
    }
  }

  lemma {:induction false} SameBestIff(was: seq<Level>, since: seq<Level>, le: (real, real) -> bool, depth: nat)
    requires TotalOrder(le)
    ensures var r := Best(PutAll(map[], was + since), le, depth);
      r == Best(PutAll(map[], since), le, depth) <==> forall i :: 0 <= i < |r| ==> WrittenIn(since, r[i].px)
  {
    var all, later := PutAll(map[], was + since), PutAll(map[], since);
    assert PartOf(later, all) by {
      forall p ensures p in later ==> p in all && later[p] == all[p] { LiveAfter(was, since, p); }
    }
    BestOfPartIff(all, later, le, depth);
    BestLevels(all, le, depth);
    var r := Best(all, le, depth);
    forall i | 0 <= i < |r| ensures r[i].px in later <==> WrittenIn(since, r[i].px) { LiveAfter(was, since, r[i].px); }
  }

  /** A price at or before all others comes first. */
  lemma BestFirst(side: Side, le: (real, real) -> bool, depth: nat, p: real)
    requires TotalOrder(le) && depth > 0 && p in side && forall q :: q in side ==> le(p, q)
    ensures Best(side, le, depth) != [] && Best(side, le, depth)[0].px == p
  {
    BestLevels(side, le, depth);
    var r, ps := Best(side, le, depth), SortSet(side.Keys, le);
    assert p in ps;
    var k :| 0 <= k < |ps| && ps[k] == p;
    assert Compares(le, ps[0], p);
  }

  // ----- emission -----

  const EMIT_INTERVAL_NS := 5_000_000_000

  datatype Snapshot = Snapshot(ts: int, symbol: string, depth: nat, bids: seq<Level>, asks: seq<Level>)

  function Snap(recv: int, symbol: string, depth: nat, b: Book): Snapshot {
    Snapshot(recv, symbol, depth, BestBids(b.bids, depth), BestAsks(b.asks, depth))
  }

  /** The books and the time of the last emission, by product. */
  datatype Tracker = Tracker(books: map<string, Book>, lastEmit: map<string, int>)

  // ----- snapshots against the log -----

  /** `r` holds the `depth` best levels of a log: each with the size last written, strictly ordered, and
    * every live price that is missing is missing for lack of room and no better than those listed. */
  ghost predicate BestOfLog(log: seq<Level>, le: (real, real) -> bool, depth: nat, r: seq<Level>) {
    && |r| <= depth
    && (forall i :: 0 <= i < |r| ==> LastWrite(log, r[i].px) == Some(r[i].sz))
    && (forall i, j :: 0 <= i < j < |r| ==> r[i].px != r[j].px && le(r[i].px, r[j].px))
    && forall p :: LastWrite(log, p).Some? && (forall j :: 0 <= j < |r| ==> r[j].px != p) ==>
         |r| == depth && forall i :: 0 <= i < |r| ==> le(r[i].px, p)
  }

  lemma {:induction false} BestIsBestOfLog(log: seq<Level>, le: (real, real) -> bool, depth: nat)
    requires TotalOrder(le)
    ensures BestOfLog(log, le, depth, Best(PutAll(map[], log), le, depth))
  {
    var side := PutAll(map[], log);
    var r := Best(side, le, depth);
    BestAreBest(side, le, depth);
    forall i | 0 <= i < |r| ensures LastWrite(log, r[i].px) == Some(r[i].sz) {
      ReplayIsLastWrite(log, r[i].px);
    }
    forall p | LastWrite(log, p).Some? && (forall j :: 0 <= j < |r| ==> r[j].px != p)
      ensures |r| == depth && forall i :: 0 <= i < |r| ==> le(r[i].px, p)
    {
      ReplayIsLastWrite(log, p);
      MissingForRoom(side, le, depth, p);
    }
  }

  /** A live price is missing only if the list is full, and then it is no better than those listed. */
  lemma MissingForRoom(side: Side, le: (real, real) -> bool, depth: nat, p: real)
    requires TotalOrder(le) && p in side
    requires forall j :: 0 <= j < |Best(side, le, depth)| ==> Best(side, le, depth)[j].px != p
    ensures var r := Best(side, le, depth); |r| == depth && forall i :: 0 <= i < |r| ==> le(r[i].px, p)
  {
    BestAreBest(side, le, depth);
    if |Best(side, le, depth)| < depth { EveryPriceListed(side, le, Best(side, le, depth), p); }
  }

  lemma EveryPriceListed(side: Side, le: (real, real) -> bool, r: seq<Level>, p: real)
    requires TotalOrder(le) && r == MapBy(SortSet(side.Keys, le), LevelOf(side)) && p in side
    ensures exists j :: 0 <= j < |r| && r[j].px == p
  {
    SortSetSorts(side.Keys, le);
    var k :| 0 <= k < |SortSet(side.Keys, le)| && SortSet(side.Keys, le)[k] == p;
    assert r[k].px == p;
  }

  /** Both sides of a snapshot are the best of their logs. */
  ghost predicate SnapOfLogs(s: Snapshot, bids: seq<Level>, asks: seq<Level>) {
    BestOfLog(bids, RealGe, s.depth, s.bids) && BestOfLog(asks, RealLe, s.depth, s.asks)
  }

  lemma {:induction false} SnapIsOfLogs(recv: int, symbol: string, depth: nat, bids: seq<Level>, asks: seq<Level>)
    ensures SnapOfLogs(Snap(recv, symbol, depth, Book(PutAll(map[], bids), PutAll(map[], asks))), bids, asks)
  {
    RealOrders();
    BestIsBestOfLog(bids, RealGe, depth);
    BestIsBestOfLog(asks, RealLe, depth);
  }
}
