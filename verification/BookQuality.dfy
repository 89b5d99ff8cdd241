/** `book_quality` and `book_top`: what the dataset's own checker and reader make of emitted snapshots. */
module BookQuality {
  import opened Orders
  import opened Seqs
  import opened Books
  import K = KrakenBook
  import C = CoinbaseBook

  datatype Counts = Counts(emptySide: nat, crossedTop: nat, bidsNotDescending: nat, asksNotAscending: nat,
                           nonPositive: nat, duplicatePrice: nat)

  predicate TwoSided(s: Snapshot) { s.bids != [] && s.asks != [] }

  predicate EmptySide(s: Snapshot) { !TwoSided(s) }

  predicate Crossed(s: Snapshot) { TwoSided(s) && s.bids[0].px >= s.asks[0].px }

  predicate BidsRise(s: Snapshot) {
    TwoSided(s) && exists i :: 0 <= i < |s.bids| - 1 && s.bids[i].px < s.bids[i + 1].px
  }

  predicate AsksFall(s: Snapshot) {
    TwoSided(s) && exists i :: 0 <= i < |s.asks| - 1 && s.asks[i].px > s.asks[i + 1].px
  }

  predicate BadLevel(l: Level) { l.px <= 0.0 || l.sz < 0.0 }

  predicate NonPositive(s: Snapshot) {
    TwoSided(s) && ((exists i :: 0 <= i < |s.bids| && BadLevel(s.bids[i]))
                    || exists i :: 0 <= i < |s.asks| && BadLevel(s.asks[i]))
  }

  function Prices(ls: seq<Level>): set<real> { set i | 0 <= i < |ls| :: ls[i].px }

  /** `len(set(px)) != len(px)` */
  predicate Repeats(ls: seq<Level>) { |Prices(ls)| != |ls| }

  predicate Duplicate(s: Snapshot) { TwoSided(s) && (Repeats(s.bids) || Repeats(s.asks)) }

  function Count(ss: seq<Snapshot>, p: Snapshot -> bool): nat { |Filter(ss, p)| }

  function Issues(ss: seq<Snapshot>): Counts {
    Counts(Count(ss, EmptySide), Count(ss, Crossed), Count(ss, BidsRise), Count(ss, AsksFall),
           Count(ss, NonPositive), Count(ss, Duplicate))
  }

  lemma CountNext(ss: seq<Snapshot>, i: nat, p: Snapshot -> bool)
    requires i < |ss|
    ensures Count(ss[..i + 1], p) == Count(ss[..i], p) + if p(ss[i]) then 1 else 0
  {
    TakeNext(ss, i);
    FilterSnoc(ss[..i], ss[i], p);
  }

  lemma IssuesNext(ss: seq<Snapshot>, i: nat)
    requires i < |ss|
    ensures Issues(ss[..i + 1]) == Bumped(Issues(ss[..i]), ss[i])
  {
    CountNext(ss, i, EmptySide);
    CountNext(ss, i, Crossed);
    CountNext(ss, i, BidsRise);
    CountNext(ss, i, AsksFall);
    CountNext(ss, i, NonPositive);
    CountNext(ss, i, Duplicate);
  }

  function One(b: bool): nat { if b then 1 else 0 }

  function Bumped(c: Counts, s: Snapshot): Counts {
    Counts(c.emptySide + One(EmptySide(s)), c.crossedTop + One(Crossed(s)), c.bidsNotDescending + One(BidsRise(s)),
           c.asksNotAscending + One(AsksFall(s)), c.nonPositive + One(NonPositive(s)),
           c.duplicatePrice + One(Duplicate(s)))
  }

  /** The loop body. */
  method CheckSnapshot(s: Snapshot, c: Counts) returns (counts: Counts)
    ensures counts == Bumped(c, s)
  {
    counts := c;
    if s.bids == [] || s.asks == [] {
      counts := counts.(emptySide := counts.emptySide + 1);
      return;
    }
    if s.bids[0].px >= s.asks[0].px {
      counts := counts.(crossedTop := counts.crossedTop + 1);
    }
    if BidsRise(s) {
      counts := counts.(bidsNotDescending := counts.bidsNotDescending + 1);
    }
    if AsksFall(s) {
      counts := counts.(asksNotAscending := counts.asksNotAscending + 1);
    }
    if NonPositive(s) {
      counts := counts.(nonPositive := counts.nonPositive + 1);
    }
    if Duplicate(s) {
      counts := counts.(duplicatePrice := counts.duplicatePrice + 1);
    }
  }

  method BookQuality(snapshots: seq<Snapshot>) returns (counts: Counts)
    ensures counts == Issues(snapshots)
  {
    counts := Counts(0, 0, 0, 0, 0, 0);
    for i := 0 to |snapshots|
      invariant counts == Issues(snapshots[..i])
    {
      IssuesNext(snapshots, i);
      counts := CheckSnapshot(snapshots[i], counts);
    }
    TakeAll(snapshots);
  }

  // ----- snapshots as the streams emit them -----

  ghost predicate Descending(ls: seq<Level>) { forall i, j :: 0 <= i < j < |ls| ==> ls[i].px > ls[j].px }

  ghost predicate Ascending(ls: seq<Level>) { forall i, j :: 0 <= i < j < |ls| ==> ls[i].px < ls[j].px }

  ghost predicate Positive(ls: seq<Level>) { forall i :: 0 <= i < |ls| ==> ls[i].px > 0.0 && ls[i].sz > 0.0 }

  ghost predicate WellFormed(s: Snapshot) {
    Descending(s.bids) && Ascending(s.asks) && Positive(s.bids) && Positive(s.asks)
  }

  lemma {:induction false} DistinctPrices(ls: seq<Level>)
    requires forall i, j :: 0 <= i < j < |ls| ==> ls[i].px != ls[j].px
    ensures |Prices(ls)| == |ls|
  {
    if ls != [] {
      DistinctPrices(Init(ls));
      var p := Last(ls).px;
      assert p !in Prices(Init(ls));
      assert Prices(ls) == Prices(Init(ls)) + {p} by {
        forall q ensures q in Prices(ls) <==> q in Prices(Init(ls)) + {p} {
          if q in Prices(Init(ls)) {
            var i :| 0 <= i < |Init(ls)| && Init(ls)[i].px == q;
            assert ls[i].px == q;
          }
          assert ls[|ls| - 1].px == p;
        }
      }
    } else {
      assert Prices(ls) == {};
    }
  }

  /** A well-formed two-sided snapshot can only be reported as crossed. */
  lemma OnlyCrossed(s: Snapshot)
    requires WellFormed(s)
    ensures !BidsRise(s) && !AsksFall(s) && !NonPositive(s) && !Duplicate(s)
  {
    DistinctPrices(s.bids);
    DistinctPrices(s.asks);
  }

  lemma SnapWellFormed(recv: int, symbol: string, depth: nat, b: Book)
    requires PositiveSide(b.bids) && PositiveSide(b.asks)
    ensures WellFormed(Snap(recv, symbol, depth, b))
  {
    RealOrders();
    BestOrdered(b.bids, RealGe, depth);
    BestOrdered(b.asks, RealLe, depth);
  }

  /** Only empty sides and crossed tops are reported on well-formed snapshots. */
  lemma WellFormedIssues(ss: seq<Snapshot>)
    requires forall s :: s in ss ==> WellFormed(s)
    ensures Issues(ss) == Counts(Count(ss, EmptySide), Count(ss, Crossed), 0, 0, 0, 0)
  {
    forall s | s in ss ensures !BidsRise(s) && !AsksFall(s) && !NonPositive(s) && !Duplicate(s) {
      OnlyCrossed(s);
    }
    FilterNone(ss, BidsRise);
    FilterNone(ss, AsksFall);
    FilterNone(ss, NonPositive);
    FilterNone(ss, Duplicate);
  }

  // ----- Kraken -----

  ghost predicate ValidKraken(events: seq<K.Event>) {
    forall i :: 0 <= i < |events| ==> ValidLevels(events[i].entry.bids) && ValidLevels(events[i].entry.asks)
  }

  lemma {:induction false} KrakenLogsValid(cfg: K.Config, events: seq<K.Event>, pair: string)
    requires ValidKraken(events)
    ensures ValidLevels(K.BidLog(cfg, events, pair)) && ValidLevels(K.AskLog(cfg, events, pair))
  {
    if events != [] {
      KrakenLogsValid(cfg, Init(events), pair);
      assert ValidLevels(Last(events).entry.bids) && ValidLevels(Last(events).entry.asks);
    }
  }

  lemma {:induction false} KrakenWellFormed(cfg: K.Config, events: seq<K.Event>)
    requires ValidKraken(events)
    ensures forall s :: s in K.Emitted(cfg, events) ==> WellFormed(s)
  {
    if events != [] {
      KrakenWellFormed(cfg, Init(events));
      forall s | s in K.LastEmission(cfg, events) ensures WellFormed(s) {
        var p := Last(events).entry.pair;
        K.EmissionIsReplay(cfg, events, s);
        KrakenLogsValid(cfg, events, p);
        PutKeepsPositive(map[], K.BidLog(cfg, events, p));
        PutKeepsPositive(map[], K.AskLog(cfg, events, p));
        SnapWellFormed(Last(events).recv, cfg.canonical[p], cfg.depth, K.Replay(cfg, events, p));
      }
    }
  }

  /** Whatever valid frames Kraken sends, the checker can only report empty sides and crossed tops. */
  lemma {:induction false} KrakenPassesQuality(cfg: K.Config, events: seq<K.Event>)
    requires ValidKraken(events)
    ensures var ss := K.Emitted(cfg, events);
      Issues(ss) == Counts(Count(ss, EmptySide), Count(ss, Crossed), 0, 0, 0, 0)
  {
    KrakenWellFormed(cfg, events);
    WellFormedIssues(K.Emitted(cfg, events));
  }

  // ----- Coinbase -----

  ghost predicate ValidCoinbase(events: seq<C.Event>) {
    forall i :: 0 <= i < |events| ==> ValidUpdates(events[i].updates)
  }

  ghost predicate ValidUpdates(us: seq<C.Update>) { forall u :: u in us ==> u.level.px > 0.0 && u.level.sz >= 0.0 }

  lemma SideLogValid(us: seq<C.Update>, side: C.Sides)
    requires ValidUpdates(us)
    ensures ValidLevels(C.SideLog(us, side))
  {
    var f := Filter(us, C.OnSide(side));
    FilterMembers(us, C.OnSide(side));
    forall l | l in C.SideLog(us, side) ensures l.px > 0.0 && l.sz >= 0.0 {
      var i :| 0 <= i < |f| && C.SideLog(us, side)[i] == l;
      assert f[i] in f;
    }
  }

  lemma {:induction false} CoinbaseLogsValid(events: seq<C.Event>, product: string, side: C.Sides)
    requires ValidCoinbase(events)
    ensures ValidLevels(C.Log(events, product, side))
  {
    if events != [] {
      CoinbaseLogsValid(Init(events), product, side);
      assert ValidUpdates(Last(events).updates);
      SideLogValid(Last(events).updates, side);
    }
  }

  lemma {:induction false} CoinbaseWellFormed(cfg: C.Config, events: seq<C.Event>)
    requires ValidCoinbase(events)
    ensures forall s :: s in C.Emitted(cfg, events) ==> WellFormed(s)
  {
    if events != [] {
      CoinbaseWellFormed(cfg, Init(events));
      forall s | s in C.LastEmission(cfg, events) ensures WellFormed(s) {
        var p := Last(events).product;
        C.EmissionIsReplay(cfg, events, s);
        CoinbaseLogsValid(events, p, C.Bid);
        CoinbaseLogsValid(events, p, C.Offer);
        PutKeepsPositive(map[], C.Log(events, p, C.Bid));
        PutKeepsPositive(map[], C.Log(events, p, C.Offer));
        SnapWellFormed(Last(events).recv, cfg.canonical[p], cfg.depth, C.Replay(events, p));
      }
    }
  }

  /** The same for Coinbase. */
  lemma {:induction false} CoinbasePassesQuality(cfg: C.Config, events: seq<C.Event>)
    requires ValidCoinbase(events)
    ensures var ss := C.Emitted(cfg, events);
      Issues(ss) == Counts(Count(ss, EmptySide), Count(ss, Crossed), 0, 0, 0, 0)
  {
    CoinbaseWellFormed(cfg, events);
    WellFormedIssues(C.Emitted(cfg, events));
  }

  // ----- the reader -----

  datatype Top = Top(ts: int, bid: Level, ask: Level, mid: real, spreadBps: Option<real>, imbalance: Option<real>)

  function TopOf(s: Snapshot): Top
    requires TwoSided(s)
  {
    var b, a := s.bids[0], s.asks[0];
    var mid := (b.px + a.px) / 2.0;
    Top(s.ts, b, a, mid,
        if mid > 0.0 then Some((a.px - b.px) / mid * 10000.0) else None,
        if b.sz + a.sz > 0.0 then Some((b.sz - a.sz) / (b.sz + a.sz)) else None)
  }

  function TopRow(s: Snapshot): seq<Top> { if TwoSided(s) then [TopOf(s)] else [] }

  method BookTop(snapshots: seq<Snapshot>) returns (rows: seq<Top>)
    ensures rows == Flatten(MapBy(snapshots, TopRow))
  {
    rows := [];
    for i := 0 to |snapshots|
      invariant rows == Flatten(MapBy(snapshots[..i], TopRow))
    {
      assert MapBy(snapshots[..i + 1], TopRow) == MapBy(snapshots[..i], TopRow) + [TopRow(snapshots[i])];
      FlattenSnoc(MapBy(snapshots[..i], TopRow), TopRow(snapshots[i]));
      var s := snapshots[i];
      if s.bids == [] || s.asks == [] {
        continue;
      }
      rows := rows + [TopOf(s)];
    }
    TakeAll(snapshots);
  }

  lemma SignOfQuotient(x: real, d: real)
    requires d > 0.0
    ensures x / d * 10000.0 <= 0.0 <==> x <= 0.0
  {
    var q := x / d;
    assert q * d == x;
    if q > 0.0 { assert q * d > 0.0; }
    if x > 0.0 && q <= 0.0 { NotPositive(q, d); }
  }

  lemma NotPositive(q: real, d: real)
    requires q <= 0.0 && d > 0.0
    ensures q * d <= 0.0
  {
  }

  lemma WithinOne(x: real, y: real)
    requires x > 0.0 && y > 0.0
    ensures -1.0 < (x - y) / (x + y) < 1.0
  {
    var q := (x - y) / (x + y);
    assert q * (x + y) == x - y;
    if q >= 1.0 { NotPositive(1.0 - q, x + y); }
    if q <= -1.0 { NotPositive(q + 1.0, x + y); }
  }

  /** On well-formed snapshots the reader's spread is non-positive exactly for those the checker reports as
    * crossed, and the imbalance lies strictly between -1 and 1. */
  lemma TopMatchesQuality(s: Snapshot)
    requires WellFormed(s) && TwoSided(s)
    ensures var t := TopOf(s);
      && t.spreadBps.Some? && (t.spreadBps.value <= 0.0 <==> Crossed(s))
      && t.imbalance.Some? && -1.0 < t.imbalance.value < 1.0
  {
    var b, a := s.bids[0], s.asks[0];
    SignOfQuotient(a.px - b.px, (b.px + a.px) / 2.0);
    WithinOne(b.sz, a.sz);
  }

  /** The reader's bid is the greatest live bid price of the log, its ask the least live ask. */
  lemma {:induction false} TopIsBestOfLog(s: Snapshot, bids: seq<Level>, asks: seq<Level>, p: real)
    requires SnapOfLogs(s, bids, asks) && TwoSided(s)
    ensures LastWrite(bids, TopOf(s).bid.px) == Some(TopOf(s).bid.sz)
    ensures LastWrite(asks, TopOf(s).ask.px) == Some(TopOf(s).ask.sz)
    ensures LastWrite(bids, p).Some? ==> p <= TopOf(s).bid.px
    ensures LastWrite(asks, p).Some? ==> p >= TopOf(s).ask.px
  {
    if LastWrite(bids, p).Some? {
      if j :| 0 <= j < |s.bids| && s.bids[j].px == p {
        assert j > 0 ==> RealGe(s.bids[0].px, s.bids[j].px);
      } else {
        assert RealGe(s.bids[0].px, p);
      }
    }
    if LastWrite(asks, p).Some? {
      if j :| 0 <= j < |s.asks| && s.asks[j].px == p {
        assert j > 0 ==> RealLe(s.asks[0].px, s.asks[j].px);
      } else {
        assert RealLe(s.asks[0].px, p);
      }
    }
  }

  // ----- what the defects mean -----

  lemma {:induction false} NeighboursDescend(ls: seq<Level>, i: nat, j: nat)
    requires i <= j < |ls| && forall k :: 0 <= k < |ls| - 1 ==> ls[k].px >= ls[k + 1].px
    ensures ls[i].px >= ls[j].px
  {
    if i < j { NeighboursDescend(ls, i, j - 1); }
  }

  lemma {:induction false} NeighboursAscend(ls: seq<Level>, i: nat, j: nat)
    requires i <= j < |ls| && forall k :: 0 <= k < |ls| - 1 ==> ls[k].px <= ls[k + 1].px
    ensures ls[i].px <= ls[j].px
  {
    if i < j { NeighboursAscend(ls, i, j - 1); }
  }

  lemma {:induction false} PricesAtMost(ls: seq<Level>)
    ensures |Prices(ls)| <= |ls|
  {
    if ls == [] {
      assert Prices(ls) == {};
    } else {
      PricesAtMost(Init(ls));
      PricesNext(ls);
    }
  }

  lemma PricesNext(ls: seq<Level>)
    requires ls != []
    ensures Prices(ls) == Prices(Init(ls)) + {Last(ls).px}
  {
    forall p ensures p in Prices(ls) <==> p in Prices(Init(ls)) + {Last(ls).px} {
      if p in Prices(Init(ls)) {
        var i :| 0 <= i < |Init(ls)| && Init(ls)[i].px == p;
        assert ls[i].px == p;
      }
      assert ls[|ls| - 1].px == Last(ls).px;
    }
  }

  lemma {:induction false} RepeatsIff(ls: seq<Level>)
    ensures Repeats(ls) <==> exists i, j :: 0 <= i < j < |ls| && ls[i].px == ls[j].px
  {
    if ls == [] {
      assert Prices(ls) == {};
    } else {
      var n, rest := |ls| - 1, Init(ls);
      RepeatsIff(rest);
      PricesNext(ls);
      PricesAtMost(rest);
      if Last(ls).px in Prices(rest) {
        var i :| 0 <= i < |rest| && rest[i].px == Last(ls).px;
        assert ls[i].px == ls[n].px;
      }
      if i, j :| 0 <= i < j < |ls| && ls[i].px == ls[j].px {
        if j == n { assert rest[i].px in Prices(rest); } else { assert rest[i].px == rest[j].px; }
      }
      if i, j :| 0 <= i < j < |rest| && rest[i].px == rest[j].px { assert ls[i].px == ls[j].px; }
    }
  }

  lemma OneDefect(ls: seq<Level>)
    ensures (exists i :: 0 <= i < |ls| - 1 && ls[i].px < ls[i + 1].px)
       <==> exists i, j :: 0 <= i < j < |ls| && ls[i].px < ls[j].px
    ensures (exists i :: 0 <= i < |ls| - 1 && ls[i].px > ls[i + 1].px)
       <==> exists i, j :: 0 <= i < j < |ls| && ls[i].px > ls[j].px
  {
    if forall k :: 0 <= k < |ls| - 1 ==> ls[k].px >= ls[k + 1].px {
      forall i, j | 0 <= i < j < |ls| ensures ls[i].px >= ls[j].px { NeighboursDescend(ls, i, j); }
    }
    if forall k :: 0 <= k < |ls| - 1 ==> ls[k].px <= ls[k + 1].px {
      forall i, j | 0 <= i < j < |ls| ensures ls[i].px <= ls[j].px { NeighboursAscend(ls, i, j); }
    }
  }

  /** A bid above an earlier one, and an ask below an earlier one. */
  ghost predicate BidOutOfOrder(s: Snapshot) { exists i, j :: 0 <= i < j < |s.bids| && s.bids[i].px < s.bids[j].px }

  ghost predicate AskOutOfOrder(s: Snapshot) { exists i, j :: 0 <= i < j < |s.asks| && s.asks[i].px > s.asks[j].px }

  ghost predicate HasBadLevel(s: Snapshot) { exists l :: l in s.bids + s.asks && (l.px <= 0.0 || l.sz < 0.0) }

  ghost predicate PriceTwice(s: Snapshot) {
    || (exists i, j :: 0 <= i < j < |s.bids| && s.bids[i].px == s.bids[j].px)
    || exists i, j :: 0 <= i < j < |s.asks| && s.asks[i].px == s.asks[j].px
  }

  /** What one snapshot adds to the counters: a missing side hides everything else; otherwise a best bid at or
    * above the best ask, a bid above an earlier one, an ask below an earlier one, a level with no positive price
    * or with a negative size, and a price twice on one side, once each. */
  lemma CountedAre(s: Snapshot, c: Counts)
    ensures s.bids == [] || s.asks == [] ==> Bumped(c, s) == c.(emptySide := c.emptySide + 1)
    ensures s.bids != [] && s.asks != [] ==>
      var d := Bumped(c, s);
      && d.emptySide == c.emptySide
      && d.crossedTop == (if s.bids[0].px >= s.asks[0].px then c.crossedTop + 1 else c.crossedTop)
      && d.bidsNotDescending == (if BidOutOfOrder(s) then c.bidsNotDescending + 1 else c.bidsNotDescending)
      && d.asksNotAscending == (if AskOutOfOrder(s) then c.asksNotAscending + 1 else c.asksNotAscending)
      && d.nonPositive == (if HasBadLevel(s) then c.nonPositive + 1 else c.nonPositive)
      && d.duplicatePrice == if PriceTwice(s) then c.duplicatePrice + 1 else c.duplicatePrice
  {
    if TwoSided(s) {
      DescentIff(s);
      DuplicateIff(s);
      BadIff(s);
    }
  }

  lemma DescentIff(s: Snapshot)
    requires TwoSided(s)
    ensures BidsRise(s) <==> BidOutOfOrder(s)
    ensures AsksFall(s) <==> AskOutOfOrder(s)
  {
    OneDefect(s.bids);
    OneDefect(s.asks);
  }

  lemma DuplicateIff(s: Snapshot)
    requires TwoSided(s)
    ensures Duplicate(s) <==> PriceTwice(s)
  {
    RepeatsIff(s.bids);
    RepeatsIff(s.asks);
  }

  lemma BadIff(s: Snapshot)
    requires TwoSided(s)
    ensures NonPositive(s) <==> HasBadLevel(s)
  {
    if i :| 0 <= i < |s.bids| && BadLevel(s.bids[i]) { assert s.bids[i] in s.bids + s.asks; }
    if i :| 0 <= i < |s.asks| && BadLevel(s.asks[i]) { assert s.asks[i] in s.bids + s.asks; }
    if l :| l in s.bids + s.asks && (l.px <= 0.0 || l.sz < 0.0) {
      if l in s.bids {
        var i :| 0 <= i < |s.bids| && s.bids[i] == l;
        assert BadLevel(s.bids[i]);
      } else {
        var i :| 0 <= i < |s.asks| && s.asks[i] == l;
        assert BadLevel(s.asks[i]);
      }
    }
  }

  /** What the reader says of a two-sided snapshot: the two best levels, the price halfway between, the spread in
    * ten-thousandths of it, and the surplus of the bid's size as a share of both sizes. */
  lemma TopIs(s: Snapshot)
    requires s.bids != [] && s.asks != []
    ensures var t, b, a := TopOf(s), s.bids[0], s.asks[0];
      && t.ts == s.ts && t.bid == b && t.ask == a && t.mid - b.px == a.px - t.mid
      && (t.spreadBps.Some? <==> b.px + a.px > 0.0) && (t.imbalance.Some? <==> b.sz + a.sz > 0.0)
      && (t.spreadBps.Some? ==> t.spreadBps.value * t.mid == (a.px - b.px) * 10000.0)
      && (t.imbalance.Some? ==> t.imbalance.value * (b.sz + a.sz) == b.sz - a.sz)
  {
    var b, a := s.bids[0], s.asks[0];
    var mid := (b.px + a.px) / 2.0;
    if mid > 0.0 { QuotientBack(a.px - b.px, mid); }
    if b.sz + a.sz > 0.0 { QuotientBack(b.sz - a.sz, b.sz + a.sz); }
  }

  lemma QuotientBack(x: real, d: real)
    requires d > 0.0
    ensures x / d * d == x && x / d * 10000.0 * d == x * 10000.0
  {
  }
}
