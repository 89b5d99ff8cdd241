/** The consolidated tape against the venues' own bars: which bars the venues have in a second, which trades
  * a merged second holds, and how the roll-up commutes with splitting them by venue. */
module CrossVenue {
  import opened Orders
  import opened Seqs
  import opened Grouping
  import opened Tape
  import opened MergeTrades
  import opened MergeTheorems
  import opened ConsolidatedBars
  import opened VenueBuilder
  import A = AggregateSecond
  import opened Checks
  import opened TapeTheorems

  /** All trades of second `s` in the merged stream. */
  function MergedAt(feeds: seq<Feed>, s: int): seq<Trade> { Bucket(Merged(feeds), Second, s) }

  function FeedBars(symbol: string, now: int): Feed -> seq<Bar> {
    (f: Feed) => VenueBars(f.trades, symbol, f.venue, now)
  }

  /** `bars_from_trades` of every venue. */
  function PerVenue(feeds: seq<Feed>, symbol: string, now: int): seq<seq<Bar>> { MapBy(feeds, FeedBars(symbol, now)) }

  /** Each feed in time order, at the grain of seconds. */
  ghost predicate InTimeOrder(feeds: seq<Feed>) {
    forall i :: 0 <= i < |feeds| ==> NonDecreasing(feeds[i].trades, Second)
  }

  function FeedBucket(s: int): Feed -> seq<Trade> { (f: Feed) => Bucket(f.trades, Second, s) }

  // ----- the venue bars of one second -----

  /** The venues' bars of second `s`, one per venue trading in it. */
  function VenueSecond(feeds: seq<Feed>, symbol: string, now: int, s: int): seq<Bar> {
    if feeds == [] then [] else
      var f := Last(feeds);
      var g := Bucket(f.trades, Second, s);
      VenueSecond(Init(feeds), symbol, now, s) + if g == [] then [] else [Roll(s, VenueStamp(symbol, f.venue, now), g)]
  }

  lemma {:induction false} FilterUnique<T>(s: seq<T>, p: T -> bool, i: nat)
    requires i < |s| && p(s[i]) && forall j :: 0 <= j < |s| && j != i ==> !p(s[j])
    ensures Filter(s, p) == [s[i]]
  {
    if i == |s| - 1 {
      FilterNone(Init(s), p);
    } else {
      FilterUnique(Init(s), p, i);
    }
  }

  /** A venue in time order has at most one bar per second: the roll-up of its trades there. */
  lemma VenueBarAt(f: Feed, symbol: string, now: int, s: int)
    requires NonDecreasing(f.trades, Second)
    ensures var g := Bucket(f.trades, Second, s);
      Filter(FeedBars(symbol, now)(f), AtSecond(s))
      == if g == [] then [] else [Roll(s, VenueStamp(symbol, f.venue, now), g)]
  {
    var bars, ks := VenueBars(f.trades, symbol, f.venue, now), SortedKeys(f.trades, Second);
    OneBarPerSecond(f.trades, symbol, f.venue, now);
    SortSetSorts(Keys(f.trades, Second), IntLe);
    BucketMember(f.trades, Second, s);
    if s in Keys(f.trades, Second) {
      var i := KeyPosition(f.trades, s);
      forall j | 0 <= j < |bars| && j != i ensures bars[j].ts != s {
        if j < i { assert ks[j] != ks[i]; } else { assert ks[i] != ks[j]; }
      }
      FilterUnique(bars, AtSecond(s), i);
    } else {
      forall b | b in bars ensures b.ts != s {
        var j :| 0 <= j < |bars| && bars[j] == b;
        assert ks[j] in ks;
      }
      FilterNone(bars, AtSecond(s));
    }
  }

  /** What the range check sees at second `s`. */
  lemma {:induction false} BarsAtSecond(feeds: seq<Feed>, symbol: string, now: int, s: int)
    requires InTimeOrder(feeds)
    ensures BarsAt(PerVenue(feeds, symbol, now), s) == VenueSecond(feeds, symbol, now, s)
  {
    if feeds != [] {
      var f := Last(feeds);
      BarsAtSecond(Init(feeds), symbol, now, s);
      VenueBarAt(f, symbol, now, s);
      var pv := PerVenue(feeds, symbol, now);
      assert Init(pv) == PerVenue(Init(feeds), symbol, now);
      FilterConcat(Flatten(Init(pv)), Last(pv), AtSecond(s));
    }
  }

  // ----- trades of a second, split by venue -----

  function FilterBy<T>(p: T -> bool): seq<T> -> seq<T> { (g: seq<T>) => Filter(g, p) }

  lemma {:induction false} FilterFlatten<T>(gs: seq<seq<T>>, p: T -> bool)
    ensures Filter(Flatten(gs), p) == Flatten(MapBy(gs, FilterBy(p)))
  {
    if gs != [] {
      FilterFlatten(Init(gs), p);
      FilterConcat(Flatten(Init(gs)), Last(gs), p);
      assert Init(MapBy(gs, FilterBy(p))) == MapBy(Init(gs), FilterBy(p));
    }
  }

  /** The merged second is a rearrangement of the venues' seconds. */
  lemma MergedSecondConserves(feeds: seq<Feed>, s: int)
    ensures multiset(MergedAt(feeds, s)) == multiset(Flatten(MapBy(feeds, FeedBucket(s))))
  {
    var p := KeyIs(Second, s);
    MergeConserves(Lists(feeds));
    FilterPermutation(Merged(feeds), Flatten(Lists(feeds)), p);
    FilterFlatten(Lists(feeds), p);
    assert MapBy(Lists(feeds), FilterBy(p)) == MapBy(feeds, FeedBucket(s));
  }

  lemma SplitNext(feeds: seq<Feed>, s: int)
    requires feeds != []
    ensures Flatten(MapBy(feeds, FeedBucket(s)))
         == Flatten(MapBy(Init(feeds), FeedBucket(s))) + Bucket(Last(feeds).trades, Second, s)
  {
    assert Init(MapBy(feeds, FeedBucket(s))) == MapBy(Init(feeds), FeedBucket(s));
  }

  ghost predicate NonNegativeSizes(feeds: seq<Feed>, s: int) {
    forall t :: t in Flatten(MapBy(feeds, FeedBucket(s))) ==> t.size >= 0.0
  }

  /** The trades and the bars have the same volume, turnover and number of trades. */
  ghost predicate SameSums(ts: seq<Trade>, vs: seq<Bar>) {
    && Volume(ts) == SumBy(vs, A.VolumeOf)
    && Turnover(ts) == SumBy(vs, VwapTurnover)
    && |ts| == A.CountTrades(vs)
    && (ts == [] <==> vs == [])
  }

  /** ... and, when there are any, the same extremes. */
  ghost predicate SameExtremes(ts: seq<Trade>, vs: seq<Bar>) {
    ts != [] ==> vs != [] && MaxBy(ts, Price) == MaxBy(vs, A.HighOf) && MinBy(ts, Price) == MinBy(vs, A.LowOf)
  }

  lemma AddSums(ts: seq<Trade>, vs: seq<Bar>, g: seq<Trade>, s: int, stamp: Stamp)
    requires SameSums(ts, vs) && g != [] && forall t :: t in g ==> t.size >= 0.0
    ensures SameSums(ts + g, vs + [Roll(s, stamp, g)])
  {
    SumConcat(ts, g, Size);
    SumConcat(ts, g, Notional);
    VwapCarries(s, stamp, g);
    SumSnoc(vs, Roll(s, stamp, g), A.VolumeOf);
    SumSnoc(vs, Roll(s, stamp, g), VwapTurnover);
    assert Init(vs + [Roll(s, stamp, g)]) == vs;
  }

  lemma AddExtremes(ts: seq<Trade>, vs: seq<Bar>, g: seq<Trade>, s: int, stamp: Stamp)
    requires SameExtremes(ts, vs) && (ts == [] ==> vs == []) && g != []
    ensures SameExtremes(ts + g, vs + [Roll(s, stamp, g)])
  {
    var b := Roll(s, stamp, g);
    if ts == [] {
      assert ts + g == g && vs + [b] == [b];
      assert MaxBy([b], A.HighOf) == A.HighOf(b) && MinBy([b], A.LowOf) == A.LowOf(b);
    } else {
      MaxConcat(ts, g, Price);
      MinConcat(ts, g, Price);
      MaxSnoc(vs, b, A.HighOf);
      MinSnoc(vs, b, A.LowOf);
    }
  }

  /** Both agreements at once, and their behaviour when one venue's second is added. */
  ghost predicate Agrees(ts: seq<Trade>, vs: seq<Bar>) { SameSums(ts, vs) && SameExtremes(ts, vs) }

  lemma AddVenue(ts: seq<Trade>, vs: seq<Bar>, g: seq<Trade>, s: int, stamp: Stamp)
    requires Agrees(ts, vs) && forall t :: t in g ==> t.size >= 0.0
    ensures Agrees(ts + g, vs + if g == [] then [] else [Roll(s, stamp, g)])
  {
    if g == [] {
      assert ts + g == ts;
      assert vs + [] == vs;
    } else {
      AddSums(ts, vs, g, s, stamp);
      AddExtremes(ts, vs, g, s, stamp);
    }
  }

  /** Sizes stay non-negative for the earlier feeds and for the last one. */
  lemma SplitSizes(feeds: seq<Feed>, s: int)
    requires feeds != [] && NonNegativeSizes(feeds, s)
    ensures NonNegativeSizes(Init(feeds), s)
    ensures forall t :: t in Bucket(Last(feeds).trades, Second, s) ==> t.size >= 0.0
  {
    SplitNext(feeds, s);
  }

  /** The trades of a second and the venues' bars of it agree on sums and extremes. */
  lemma {:induction false} VenueTotals(feeds: seq<Feed>, symbol: string, now: int, s: int)
    requires NonNegativeSizes(feeds, s)
    ensures Agrees(Flatten(MapBy(feeds, FeedBucket(s))), VenueSecond(feeds, symbol, now, s))
  {
    if feeds != [] {
      SplitNext(feeds, s);
      SplitSizes(feeds, s);
      VenueTotals(Init(feeds), symbol, now, s);
      AddVenue(Flatten(MapBy(Init(feeds), FeedBucket(s))), VenueSecond(Init(feeds), symbol, now, s),
               Bucket(Last(feeds).trades, Second, s), s, VenueStamp(symbol, Last(feeds).venue, now));
    }
  }

  // ----- the homomorphism -----

  /** Nothing of second `s` is excluded, stale, empty-sized or dropped by the filter. */
  ghost predicate Clean(cfg: Config, feeds: seq<Feed>, s: int) {
    && MergedAt(feeds, s) != []
    && (forall t :: t in MergedAt(feeds, s) ==> Admits(cfg, t))
    && Survivors(cfg, MergedAt(feeds, s)) == MergedAt(feeds, s)
  }

  lemma RawIsMerged(cfg: Config, feeds: seq<Feed>, s: int)
    requires forall t :: t in MergedAt(feeds, s) ==> Admits(cfg, t)
    ensures RawAt(cfg, Merged(feeds), s) == MergedAt(feeds, s)
  {
    FilterFilter(Merged(feeds), Admission(cfg), KeyIs(Second, s));
    FilterAll(MergedAt(feeds, s), Admission(cfg));
  }

  /** The consolidated bar of second `s`, from all trades of the second. */
  function CleanBar(cfg: Config, feeds: seq<Feed>, s: int): Bar
    requires MergedAt(feeds, s) != []
  {
    Roll(s, AggStamp(cfg, IndexOf(cfg, Merged(feeds)), MergedAt(feeds, s)), MergedAt(feeds, s))
  }

  lemma CleanBarOnTape(cfg: Config, feeds: seq<Feed>, s: int)
    requires Clean(cfg, feeds, s)
    ensures CleanBar(cfg, feeds, s) in AggBars(cfg, Merged(feeds))
  {
    RawIsMerged(cfg, feeds, s);
    BucketMember(Admitted(cfg, Merged(feeds)), Second, s);
    BarExists(cfg, Merged(feeds), s);
  }

  lemma CleanSizes(cfg: Config, feeds: seq<Feed>, s: int)
    requires Clean(cfg, feeds, s)
    ensures Volume(MergedAt(feeds, s)) > 0.0 && NonNegativeSizes(feeds, s)
    ensures Flatten(MapBy(feeds, FeedBucket(s))) != []
  {
    MergedSecondConserves(feeds, s);
    var m, all := MergedAt(feeds, s), Flatten(MapBy(feeds, FeedBucket(s)));
    VolumePositive(m);
    assert |multiset(m)| == |m| && |multiset(all)| == |all|;
    forall t | t in all ensures t.size >= 0.0 {
      assert t in multiset(m);
    }
  }

  /** In a clean second the consolidated bar is on the tape, and its high, low, volume, trade count
    * and vwap are the max, min, sum, sum and volume-weighted mean of the venues' own bars. */
  lemma Homomorphism(cfg: Config, feeds: seq<Feed>, now: int, s: int)
    requires InTimeOrder(feeds) && Clean(cfg, feeds, s)
    ensures var b, vs := CleanBar(cfg, feeds, s), BarsAt(PerVenue(feeds, cfg.symbol, now), s);
      && b in AggBars(cfg, Merged(feeds)) && vs != []
      && b.high == MaxBy(vs, A.HighOf) && b.low == MinBy(vs, A.LowOf)
      && b.volume == SumBy(vs, A.VolumeOf) && b.volume > 0.0
      && b.trades == A.CountTrades(vs)
      && b.vwap == SumBy(vs, VwapTurnover) / SumBy(vs, A.VolumeOf)
  {
    var m, all := MergedAt(feeds, s), Flatten(MapBy(feeds, FeedBucket(s)));
    CleanBarOnTape(cfg, feeds, s);
    CleanSizes(cfg, feeds, s);
    BarsAtSecond(feeds, cfg.symbol, now, s);
    MergedSecondConserves(feeds, s);
    assert |multiset(m)| == |m| && |multiset(all)| == |all|;
    SumPermutation(m, all, Size);
    SumPermutation(m, all, Notional);
    ExtremaPermutation(m, all, Price);
    VenueTotals(feeds, cfg.symbol, now, s);
  }
}
