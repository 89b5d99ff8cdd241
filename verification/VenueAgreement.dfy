/** Where the consolidated tape and the venues' own bars must agree: the legacy combiner, the range
  * of the venues' closes, and coverage. */
module VenueAgreement {
  import opened Orders
  import opened Seqs
  import opened Grouping
  import opened Tape
  import opened HeapQueue
  import opened MergeTrades
  import opened MergeTheorems
  import opened RobustFilter
  import opened Provenance
  import opened ConsolidatedBars
  import opened VenueBuilder
  import A = AggregateSecond
  import opened Checks
  import opened TapeTheorems
  import opened CrossVenue

  // ----- which venues trade in a second -----

  lemma SetOfConcat<T>(a: seq<T>, b: seq<T>)
    ensures SetOf(a + b) == SetOf(a) + SetOf(b)
  {
    var c := a + b;
    forall x ensures x in SetOf(c) <==> x in SetOf(a) + SetOf(b) {
      if x in SetOf(a) {
        var i :| 0 <= i < |a| && a[i] == x;
        assert c[i] == x;
      }
      if x in SetOf(b) {
        var i :| 0 <= i < |b| && b[i] == x;
        assert c[|a| + i] == x;
      }
    }
  }

  lemma SetOfSame<T>(s: seq<T>, x: T)
    requires s != [] && forall i :: 0 <= i < |s| ==> s[i] == x
    ensures SetOf(s) == {x}
  {
    assert s[0] == x;
  }

  /** Venues of the trades, venues of the bars, and the filter's count of venues. */
  ghost predicate SameVenues(ts: seq<Trade>, vs: seq<Bar>) {
    && SetOf(VenueNames(ts)) == SetOf(MapBy(vs, A.VenueOf))
    && |VenuesPresent(ts)| <= |vs|
    && forall i :: 0 <= i < |vs| ==> vs[i].volume > 0.0
  }

  lemma AddOwnVenue(ts: seq<Trade>, vs: seq<Bar>, g: seq<Trade>, v: string, b: Bar)
    requires SameVenues(ts, vs) && g != [] && b.venue == v && b.volume > 0.0
    requires forall t :: t in g ==> t.venue == Some(v)
    ensures SameVenues(ts + g, vs + [b])
  {
    NamesConcat(ts, g);
    SetOfConcat(VenueNames(ts), VenueNames(g));
    OwnNames(g, v);
    assert MapBy(vs + [b], A.VenueOf) == MapBy(vs, A.VenueOf) + [v];
    SetOfConcat(MapBy(vs, A.VenueOf), [v]);
    SetOfSame([v], v);
    PresentGrows(ts, g, v);
  }

  lemma NamesConcat(a: seq<Trade>, b: seq<Trade>)
    ensures VenueNames(a + b) == VenueNames(a) + VenueNames(b)
  {
  }

  lemma OwnNames(g: seq<Trade>, v: string)
    requires g != [] && forall t :: t in g ==> t.venue == Some(v)
    ensures SetOf(VenueNames(g)) == {v}
  {
    forall i | 0 <= i < |g| ensures VenueNames(g)[i] == v {
      assert g[i] in g;
    }
    SetOfSame(VenueNames(g), v);
  }

  lemma PresentGrows(ts: seq<Trade>, g: seq<Trade>, v: string)
    requires forall t :: t in g ==> t.venue == Some(v)
    ensures |VenuesPresent(ts + g)| <= |VenuesPresent(ts)| + 1
  {
    var a, b := VenuesPresent(ts), VenuesPresent(ts + g);
    forall u | u in b ensures u in a + {Some(v)} {
      var i :| 0 <= i < |ts + g| && (ts + g)[i].venue == u;
      if i < |ts| {
        assert ts[i].venue == u;
      } else {
        assert g[i - |ts|] in g;
      }
    }
    SubsetBound(b, a, Some(v));
  }

  lemma SubsetBound<T>(b: set<T>, a: set<T>, x: T)
    requires b <= a + {x}
    ensures |b| <= |a| + 1
  {
    var c := a + {x};
    assert c == b + (c - b);
  }

  ghost predicate PositiveSizes(feeds: seq<Feed>, s: int) {
    forall t :: t in Flatten(MapBy(feeds, FeedBucket(s))) ==> t.size > 0.0
  }

  lemma SplitPositive(feeds: seq<Feed>, s: int)
    requires feeds != [] && PositiveSizes(feeds, s) && OwnVenue(Last(feeds))
    ensures PositiveSizes(Init(feeds), s)
    ensures forall t :: t in Bucket(Last(feeds).trades, Second, s) ==>
      t.size > 0.0 && t.venue == Some(Last(feeds).venue)
  {
    SplitNext(feeds, s);
    BucketMember(Last(feeds).trades, Second, s);
  }

  /** Exactly the venues with a trade in the second have a bar there. */
  lemma {:induction false} VenueNamesAgree(feeds: seq<Feed>, symbol: string, now: int, s: int)
    requires PositiveSizes(feeds, s) && forall i :: 0 <= i < |feeds| ==> OwnVenue(feeds[i])
    ensures SameVenues(Flatten(MapBy(feeds, FeedBucket(s))), VenueSecond(feeds, symbol, now, s))
  {
    if feeds == [] {
      assert VenuesPresent([]) == {};
    } else {
      var f := Last(feeds);
      var g := Bucket(f.trades, Second, s);
      var ts, vs := Flatten(MapBy(Init(feeds), FeedBucket(s))), VenueSecond(Init(feeds), symbol, now, s);
      SplitNext(feeds, s);
      SplitPositive(feeds, s);
      VenueNamesAgree(Init(feeds), symbol, now, s);
      if g == [] {
        assert ts + g == ts && vs + [] == vs;
      } else {
        VolumePositive(g);
        AddOwnVenue(ts, vs, g, f.venue, Roll(s, VenueStamp(symbol, f.venue, now), g));
      }
    }
  }

  // ----- the legacy combiner -----

  /** Everything but open and close, which the legacy combiner averages. */
  ghost predicate SameButEnds(a: Bar, b: Bar) {
    && a.ts == b.ts && a.symbol == b.symbol && a.venue == b.venue && a.high == b.high && a.low == b.low
    && a.volume == b.volume && a.vwap == b.vwap && a.trades == b.trades && a.mask == b.mask
  }

  lemma {:induction false} VenueSecondLabels(feeds: seq<Feed>, symbol: string, now: int, s: int)
    ensures forall i :: 0 <= i < |VenueSecond(feeds, symbol, now, s)| ==>
      VenueSecond(feeds, symbol, now, s)[i].ts == s && VenueSecond(feeds, symbol, now, s)[i].symbol == symbol
  {
    if feeds != [] { VenueSecondLabels(Init(feeds), symbol, now, s); }
  }

  ghost predicate Owned(feeds: seq<Feed>) { forall i :: 0 <= i < |feeds| ==> OwnVenue(feeds[i]) }

  /** In a second whose trades are all admitted, trades and bars name the same venues. */
  lemma {:induction false} SecondVenues(cfg: Config, feeds: seq<Feed>, now: int, s: int)
    requires Owned(feeds) && forall t :: t in MergedAt(feeds, s) ==> Admits(cfg, t)
    ensures SameVenues(MergedAt(feeds, s), VenueSecond(feeds, cfg.symbol, now, s))
  {
    var m, all := MergedAt(feeds, s), Flatten(MapBy(feeds, FeedBucket(s)));
    MergedSecondConserves(feeds, s);
    forall t | t in all ensures t.size > 0.0 { assert t in multiset(m) && t in m; }
    VenueNamesAgree(feeds, cfg.symbol, now, s);
    PermutedVenues(m, all);
    PermutedNames(m, all);
  }

  lemma PermutedNames(a: seq<Trade>, b: seq<Trade>)
    requires multiset(a) == multiset(b)
    ensures SetOf(VenueNames(a)) == SetOf(VenueNames(b))
  {
    MapPermutation(a, b, VenueName);
    var x, y := VenueNames(a), VenueNames(b);
    forall v ensures v in x <==> v in y {
      assert v in x <==> v in multiset(x);
      assert v in y <==> v in multiset(y);
    }
    SameElements(x, y);
  }

  /** Both builders write the same mask, one from the surviving trades, one from the kept bars. */
  lemma SameMask(ts: seq<Trade>, vs: seq<Bar>, index: map<string, nat>)
    requires SameVenues(ts, vs)
    ensures MaskOf(KeptVenues(ts), index) == MaskOf(MapBy(vs, A.VenueOf), index)
  {
    var names := MapBy(vs, A.VenueOf);
    forall v ensures v in KeptVenues(ts) <==> v in names {
      assert v in KeptVenues(ts) <==> v in SetOf(names);
      assert v in SetOf(names) <==> v in names;
    }
    MaskDependsOnSet(KeptVenues(ts), names, index);
  }

  lemma CombineAll(vs: seq<Bar>, sigma: real, index: map<string, nat>, now: int)
    requires vs != [] && A.KeptBars(vs, sigma) == vs && forall i :: 0 <= i < |vs| ==> vs[i].volume > 0.0
    ensures A.Combine(vs, sigma, Some(index), {}, now) == A.Blend(vs, index, now)
  {
    FilterAll(vs, A.Eligible({}));
  }

  /** The combiner makes a bar of the second's venue bars, the same as the tape's but for its ends. */
  ghost predicate LegacyAgrees(cfg: Config, feeds: seq<Feed>, now: int, s: int, sigma: real, index: map<string, nat>) {
    && MergedAt(feeds, s) != []
    && var legacy := A.Combine(BarsAt(PerVenue(feeds, cfg.symbol, now), s), sigma, Some(index), {}, now);
       legacy.Some? && SameButEnds(CleanBar(cfg, feeds, s), legacy.value)
  }

  /** Where neither builder drops anything they agree on everything but open and close, given the same
    * venue index. */
  lemma LegacyAgreement(cfg: Config, feeds: seq<Feed>, now: int, s: int, sigma: real, index: map<string, nat>)
    requires InTimeOrder(feeds) && Owned(feeds) && Clean(cfg, feeds, s) && cfg.index == Some(index)
    requires var vs := BarsAt(PerVenue(feeds, cfg.symbol, now), s); A.KeptBars(vs, sigma) == vs
    ensures LegacyAgrees(cfg, feeds, now, s, sigma, index)
  {
    var vs := BarsAt(PerVenue(feeds, cfg.symbol, now), s);
    Homomorphism(cfg, feeds, now, s);
    BarsAtSecond(feeds, cfg.symbol, now, s);
    SecondVenues(cfg, feeds, now, s);
    VenueSecondLabels(feeds, cfg.symbol, now, s);
    SameMask(MergedAt(feeds, s), vs, index);
    CombineAll(vs, sigma, index, now);
  }

  /** A second with at most two venues loses nothing to the filter, whatever its thresholds. */
  lemma TwoVenuesClean(cfg: Config, feeds: seq<Feed>, now: int, s: int)
    requires InTimeOrder(feeds) && Owned(feeds) && cfg.minVenues >= A.MIN_VENUES
    requires MergedAt(feeds, s) != [] && forall t :: t in MergedAt(feeds, s) ==> Admits(cfg, t)
    requires |BarsAt(PerVenue(feeds, cfg.symbol, now), s)| < A.MIN_VENUES
    ensures Clean(cfg, feeds, s)
  {
    SecondVenues(cfg, feeds, now, s);
    BarsAtSecond(feeds, cfg.symbol, now, s);
    UntouchedIff(MergedAt(feeds, s), cfg.madK, cfg.minVenues);
  }

  /** So there the two builders always agree: both filters ask for three venues. */
  lemma TwoVenueAgreement(cfg: Config, feeds: seq<Feed>, now: int, s: int, sigma: real, index: map<string, nat>)
    requires InTimeOrder(feeds) && Owned(feeds) && cfg.index == Some(index) && cfg.minVenues >= A.MIN_VENUES
    requires MergedAt(feeds, s) != [] && forall t :: t in MergedAt(feeds, s) ==> Admits(cfg, t)
    requires |BarsAt(PerVenue(feeds, cfg.symbol, now), s)| < A.MIN_VENUES
    ensures LegacyAgrees(cfg, feeds, now, s, sigma, index)
  {
    TwoVenuesClean(cfg, feeds, now, s);
    LegacyAgreement(cfg, feeds, now, s, sigma, index);
  }

  // ----- the close and the range of the venues' closes -----

  function EntrySecond(s: int): Entry -> bool { (e: Entry) => Second(e.trade) == s }

  /** The last print of a merged second is the last print of its venue in that second. */
  lemma LastPrintIsVenues(feeds: seq<Feed>, s: int) returns (i: nat)
    requires MergedAt(feeds, s) != []
    ensures i < |feeds| && Bucket(feeds[i].trades, Second, s) != []
    ensures Last(Bucket(feeds[i].trades, Second, s)) == Last(MergedAt(feeds, s))
  {
    var es := MergeEntries(Lists(feeds));
    var there := Filter(es, EntrySecond(s));
    FilterMap(es, TradeOf, KeyIs(Second, s), EntrySecond(s));
    assert MergedAt(feeds, s) == MapBy(there, TradeOf);
    FilterMembers(es, EntrySecond(s));
    assert Last(there) in es;
    EntryOrigin(Lists(feeds));
    i := Last(there).rank.src;
    var own := Filter(es, FromSource(i));
    FilterFilter(es, EntrySecond(s), FromSource(i));
    FilterMap(own, TradeOf, KeyIs(Second, s), EntrySecond(s));
    ProjectionIsSource(Lists(feeds), i);
    assert Bucket(feeds[i].trades, Second, s) == MapBy(Filter(there, FromSource(i)), TradeOf);
  }

  lemma {:induction false} VenueSecondHas(feeds: seq<Feed>, symbol: string, now: int, s: int, i: nat)
    requires i < |feeds| && Bucket(feeds[i].trades, Second, s) != []
    ensures Roll(s, VenueStamp(symbol, feeds[i].venue, now), Bucket(feeds[i].trades, Second, s))
         in VenueSecond(feeds, symbol, now, s)
  {
    if i < |feeds| - 1 { VenueSecondHas(Init(feeds), symbol, now, s, i); }
  }

  lemma {:induction false} VenueSecondOrigin(feeds: seq<Feed>, symbol: string, now: int, s: int, v: Bar)
    returns (i: nat)
    requires v in VenueSecond(feeds, symbol, now, s)
    ensures i < |feeds| && Bucket(feeds[i].trades, Second, s) != []
    ensures v == Roll(s, VenueStamp(symbol, feeds[i].venue, now), Bucket(feeds[i].trades, Second, s))
  {
    if v in VenueSecond(Init(feeds), symbol, now, s) {
      i := VenueSecondOrigin(Init(feeds), symbol, now, s, v);
    } else {
      i := |feeds| - 1;
    }
  }

  predicate TradesIn(f: Feed, s: int) { Bucket(f.trades, Second, s) != [] }

  /** A venue's last price of second `s`; zero if it does not trade then. */
  function LastPrice(f: Feed, s: int): real {
    var g := Bucket(f.trades, Second, s);
    if g == [] then 0.0 else Last(g).price
  }

  /** The range check's slack on either side of a venue's close. */
  function Under(x: real): real { x - (Abs(x) * 0.000001 + 0.000000001) }

  function Over(x: real): real { x + (Abs(x) * 0.000001 + 0.000000001) }

  lemma SlackMonotone(x: real, y: real)
    requires x <= y
    ensures Under(x) <= Under(y) && Over(x) <= Over(y) && Under(x) < x < Over(x)
  {
  }

  /** A price breaches the range of some closes exactly when it breaches all of them, to one side. */
  lemma {:induction false} BreachesIff(vs: seq<Bar>, p: real)
    requires vs != []
    ensures Breaches(p, MinBy(vs, Closing), MaxBy(vs, Closing))
       <==> (forall k :: 0 <= k < |vs| ==> p < Under(vs[k].close))
            || (forall k :: 0 <= k < |vs| ==> p > Over(vs[k].close))
  {
    var lo, hi := MinBy(vs, Closing), MaxBy(vs, Closing);
    forall k | 0 <= k < |vs| ensures lo <= vs[k].close <= hi { assert lo <= Closing(vs[k]) <= hi; }
    forall k | 0 <= k < |vs| ensures Under(lo) <= Under(vs[k].close) && Over(vs[k].close) <= Over(hi) {
      SlackMonotone(lo, vs[k].close);
      SlackMonotone(vs[k].close, hi);
    }
    var i :| 0 <= i < |vs| && Closing(vs[i]) == lo;
    var j :| 0 <= j < |vs| && Closing(vs[j]) == hi;
    assert vs[i].close == lo && vs[j].close == hi;
  }

  /** `p` is below (above) the last price of every venue trading in second `s` by more than the slack. */
  ghost predicate BelowAll(feeds: seq<Feed>, s: int, p: real) {
    forall i :: 0 <= i < |feeds| && TradesIn(feeds[i], s) ==> p < Under(LastPrice(feeds[i], s))
  }

  ghost predicate AboveAll(feeds: seq<Feed>, s: int, p: real) {
    forall i :: 0 <= i < |feeds| && TradesIn(feeds[i], s) ==> p > Over(LastPrice(feeds[i], s))
  }

  /** The closes of a second's venue bars are the last prices of the venues trading in it. */
  lemma {:induction false} CloseHasVenue(feeds: seq<Feed>, symbol: string, now: int, s: int, k: nat) returns (i: nat)
    requires k < |VenueSecond(feeds, symbol, now, s)|
    ensures i < |feeds| && TradesIn(feeds[i], s)
    ensures VenueSecond(feeds, symbol, now, s)[k].close == LastPrice(feeds[i], s)
  {
    i := VenueSecondOrigin(feeds, symbol, now, s, VenueSecond(feeds, symbol, now, s)[k]);
  }

  lemma {:induction false} VenueHasClose(feeds: seq<Feed>, symbol: string, now: int, s: int, i: nat) returns (k: nat)
    requires i < |feeds| && TradesIn(feeds[i], s)
    ensures k < |VenueSecond(feeds, symbol, now, s)|
    ensures VenueSecond(feeds, symbol, now, s)[k].close == LastPrice(feeds[i], s)
  {
    VenueSecondHas(feeds, symbol, now, s, i);
    var vs, v := VenueSecond(feeds, symbol, now, s),
                 Roll(s, VenueStamp(symbol, feeds[i].venue, now), Bucket(feeds[i].trades, Second, s));
    k :| 0 <= k < |vs| && vs[k] == v;
  }

  lemma {:induction false} AllClosesIff(feeds: seq<Feed>, symbol: string, now: int, s: int, p: real)
    ensures var vs := VenueSecond(feeds, symbol, now, s);
      && ((forall k :: 0 <= k < |vs| ==> p < Under(vs[k].close)) <==> BelowAll(feeds, s, p))
      && ((forall k :: 0 <= k < |vs| ==> p > Over(vs[k].close)) <==> AboveAll(feeds, s, p))
  {
    var vs := VenueSecond(feeds, symbol, now, s);
    forall k | 0 <= k < |vs|
      ensures BelowAll(feeds, s, p) ==> p < Under(vs[k].close)
      ensures AboveAll(feeds, s, p) ==> p > Over(vs[k].close)
    {
      var i := CloseHasVenue(feeds, symbol, now, s, k);
    }
    forall i | 0 <= i < |feeds| && TradesIn(feeds[i], s)
      ensures (forall k :: 0 <= k < |vs| ==> p < Under(vs[k].close)) ==> p < Under(LastPrice(feeds[i], s))
      ensures (forall k :: 0 <= k < |vs| ==> p > Over(vs[k].close)) ==> p > Over(LastPrice(feeds[i], s))
    {
      var k := VenueHasClose(feeds, symbol, now, s, i);
    }
  }

  /** In a second with a bar some venue trades. */
  lemma SecondHasVenue(cfg: Config, feeds: seq<Feed>, b: Bar) returns (i: nat)
    requires b in AggBars(cfg, Merged(feeds))
    ensures i < |feeds| && TradesIn(feeds[i], b.ts)
  {
    BarOrigin(cfg, Merged(feeds), b);
    SurvivorMembers(cfg, Merged(feeds), b.ts);
    var t := Survivors(cfg, RawAt(cfg, Merged(feeds), b.ts))[0];
    BucketMember(Merged(feeds), Second, b.ts);
    assert t in MergedAt(feeds, b.ts);
    i := LastPrintIsVenues(feeds, b.ts);
  }

  /** `b`'s close is beyond the last price of every venue trading in its second, all to the same side. */
  ghost predicate BeyondAll(feeds: seq<Feed>, b: Bar) {
    BelowAll(feeds, b.ts, b.close) || AboveAll(feeds, b.ts, b.close)
  }

  lemma {:induction false} OutsideIff(perVenue: seq<seq<Bar>>, feeds: seq<Feed>, symbol: string, now: int, b: Bar)
    requires BarsAt(perVenue, b.ts) == VenueSecond(feeds, symbol, now, b.ts) != []
    ensures OutsideRange(perVenue)(b) <==> BeyondAll(feeds, b)
  {
    BreachesIff(BarsAt(perVenue, b.ts), b.close);
    AllClosesIff(feeds, symbol, now, b.ts, b.close);
  }

  /** The range check on one bar: it is reported exactly when its close, the price of the second's last
    * survivor, is beyond the last price of every venue trading in the second. */
  lemma OutsideRangeIff(cfg: Config, feeds: seq<Feed>, now: int, b: Bar)
    requires InTimeOrder(feeds) && b in AggBars(cfg, Merged(feeds))
    ensures OutsideRange(PerVenue(feeds, cfg.symbol, now))(b) <==> BeyondAll(feeds, b)
  {
    BarsAtSecond(feeds, cfg.symbol, now, b.ts);
    var i := SecondHasVenue(cfg, feeds, b);
    VenueSecondHas(feeds, cfg.symbol, now, b.ts, i);
    OutsideIff(PerVenue(feeds, cfg.symbol, now), feeds, cfg.symbol, now, b);
  }

  /** The range check is silent exactly when no bar's close is beyond all its venues' last prices. */
  lemma SilentOnBarsIff(cfg: Config, feeds: seq<Feed>, now: int)
    requires InTimeOrder(feeds)
    ensures RangeIssues(AggBars(cfg, Merged(feeds)), PerVenue(feeds, cfg.symbol, now)) == []
       <==> |feeds| < 2 || forall b :: b in AggBars(cfg, Merged(feeds)) ==> !BeyondAll(feeds, b)
  {
    var bars, pv := AggBars(cfg, Merged(feeds)), PerVenue(feeds, cfg.symbol, now);
    forall b | b in bars ensures OutsideRange(pv)(b) <==> BeyondAll(feeds, b) { OutsideRangeIff(cfg, feeds, now, b); }
    RangeSilentIff(bars, pv);
  }

  /** The last survivor of second `s`, if any, is not beyond the last price of every venue trading in it. */
  ghost predicate EndsWithin(cfg: Config, feeds: seq<Feed>, s: int) {
    var kept := Survivors(cfg, RawAt(cfg, Merged(feeds), s));
    kept != [] ==> !BelowAll(feeds, s, Last(kept).price) && !AboveAll(feeds, s, Last(kept).price)
  }

  lemma BarsEndWithinIff(cfg: Config, feeds: seq<Feed>)
    ensures (forall b :: b in AggBars(cfg, Merged(feeds)) ==> !BeyondAll(feeds, b))
       <==> forall s: int :: EndsWithin(cfg, feeds, s)
  {
    var bars := AggBars(cfg, Merged(feeds));
    forall b | b in bars ensures EndsWithin(cfg, feeds, b.ts) <==> !BeyondAll(feeds, b) {
      BarOrigin(cfg, Merged(feeds), b);
    }
    forall s: int | !EndsWithin(cfg, feeds, s) ensures exists b :: b in bars && BeyondAll(feeds, b) {
      var b := SecondHasBar(cfg, Merged(feeds), s);
      assert BeyondAll(feeds, b);
    }
  }

  lemma SecondHasBar(cfg: Config, consolidated: seq<Trade>, s: int) returns (b: Bar)
    requires Survivors(cfg, RawAt(cfg, consolidated, s)) != []
    ensures b in AggBars(cfg, consolidated) && b.ts == s
    ensures b.close == Last(Survivors(cfg, RawAt(cfg, consolidated, s))).price
  {
    var kept := Survivors(cfg, RawAt(cfg, consolidated, s));
    KeptMembers(RawAt(cfg, consolidated, s), cfg.madK, cfg.minVenues);
    BucketMember(Admitted(cfg, consolidated), Second, s);
    assert kept[0] in kept;
    BarExists(cfg, consolidated, s);
    b := Roll(s, AggStamp(cfg, IndexOf(cfg, consolidated), kept), kept);
  }

  /** The range check is silent exactly when no second's last survivor is beyond the last price of every venue
    * trading in it. */
  lemma RangeCheckSilentIff(cfg: Config, feeds: seq<Feed>, now: int)
    requires InTimeOrder(feeds)
    ensures RangeIssues(AggBars(cfg, Merged(feeds)), PerVenue(feeds, cfg.symbol, now)) == []
       <==> |feeds| < 2 || forall s: int :: EndsWithin(cfg, feeds, s)
  {
    SilentOnBarsIff(cfg, feeds, now);
    BarsEndWithinIff(cfg, feeds);
  }

  /** Some venue trading in second `s` has the last price `p` there. */
  ghost predicate IsLastPrice(feeds: seq<Feed>, s: int, p: real) {
    exists i :: 0 <= i < |feeds| && TradesIn(feeds[i], s) && LastPrice(feeds[i], s) == p
  }

  ghost predicate ClosesAt(vs: seq<Bar>, p: real) { exists k :: 0 <= k < |vs| && vs[k].close == p }

  lemma {:induction false} ClosesAtIff(feeds: seq<Feed>, symbol: string, now: int, s: int, p: real)
    ensures ClosesAt(VenueSecond(feeds, symbol, now, s), p) <==> IsLastPrice(feeds, s, p)
  {
    var vs := VenueSecond(feeds, symbol, now, s);
    if k :| 0 <= k < |vs| && vs[k].close == p { var i := CloseHasVenue(feeds, symbol, now, s, k); }
    if i :| 0 <= i < |feeds| && TradesIn(feeds[i], s) && LastPrice(feeds[i], s) == p {
      var k := VenueHasClose(feeds, symbol, now, s, i);
    }
  }

  /** The close of a bar is the close of a venue's bar of that second exactly when the last survivor
    * trades at some venue's last price there. */
  lemma CloseIsVenueCloseIff(cfg: Config, feeds: seq<Feed>, now: int, b: Bar)
    requires InTimeOrder(feeds) && b in AggBars(cfg, Merged(feeds))
    ensures var kept := Survivors(cfg, RawAt(cfg, Merged(feeds), b.ts));
      kept != [] &&
      (ClosesAt(BarsAt(PerVenue(feeds, cfg.symbol, now), b.ts), b.close)
       <==> IsLastPrice(feeds, b.ts, Last(kept).price))
  {
    BarOrigin(cfg, Merged(feeds), b);
    BarsAtSecond(feeds, cfg.symbol, now, b.ts);
    ClosesAtIff(feeds, cfg.symbol, now, b.ts, b.close);
  }

  /** The last survivor of the second trades at a venue's last price there: for instance because it is its
    * own venue's last print. */
  ghost predicate VenueKeepsLast(cfg: Config, feeds: seq<Feed>, s: int) {
    var kept := Survivors(cfg, RawAt(cfg, Merged(feeds), s));
    kept != [] && IsLastPrice(feeds, s, Last(kept).price)
  }

  /** In particular when the last print of the whole second survives ... */
  lemma LastPrintKept(cfg: Config, feeds: seq<Feed>, s: int)
    requires MergedAt(feeds, s) != []
    requires var kept := Survivors(cfg, RawAt(cfg, Merged(feeds), s));
      kept != [] && Last(kept) == Last(MergedAt(feeds, s))
    ensures VenueKeepsLast(cfg, feeds, s)
  {
    var i := LastPrintIsVenues(feeds, s);
    assert TradesIn(feeds[i], s) && LastPrice(feeds[i], s) == Last(MergedAt(feeds, s)).price;
  }

  /** ... as in a second that loses nothing. */
  lemma CleanKeepsLast(cfg: Config, feeds: seq<Feed>, s: int)
    requires Clean(cfg, feeds, s)
    ensures VenueKeepsLast(cfg, feeds, s)
  {
    RawIsMerged(cfg, feeds, s);
    LastPrintKept(cfg, feeds, s);
  }

  lemma KeptLastWithin(cfg: Config, feeds: seq<Feed>, b: Bar)
    requires b in AggBars(cfg, Merged(feeds)) && VenueKeepsLast(cfg, feeds, b.ts)
    ensures !BeyondAll(feeds, b)
  {
    BarOrigin(cfg, Merged(feeds), b);
    SlackMonotone(b.close, b.close);
  }

  /** Then the close is the close of a venue's bar, so within the range of the venues' closes. */
  lemma CloseIsVenueClose(cfg: Config, feeds: seq<Feed>, now: int, b: Bar)
    requires InTimeOrder(feeds) && b in AggBars(cfg, Merged(feeds)) && VenueKeepsLast(cfg, feeds, b.ts)
    ensures ClosesAt(BarsAt(PerVenue(feeds, cfg.symbol, now), b.ts), b.close)
    ensures !OutsideRange(PerVenue(feeds, cfg.symbol, now))(b)
  {
    CloseIsVenueCloseIff(cfg, feeds, now, b);
    KeptLastWithin(cfg, feeds, b);
    OutsideRangeIff(cfg, feeds, now, b);
  }

  /** A tape on which every second's last survivor trades at a venue's last price passes the range check;
    * so does one on which no second loses anything. */
  lemma RangeCheckSilent(cfg: Config, feeds: seq<Feed>, now: int)
    requires InTimeOrder(feeds)
    requires forall b :: b in AggBars(cfg, Merged(feeds)) ==>
      VenueKeepsLast(cfg, feeds, b.ts) || Clean(cfg, feeds, b.ts)
    ensures RangeIssues(AggBars(cfg, Merged(feeds)), PerVenue(feeds, cfg.symbol, now)) == []
  {
    forall b | b in AggBars(cfg, Merged(feeds)) ensures !BeyondAll(feeds, b) {
      if Clean(cfg, feeds, b.ts) { CleanKeepsLast(cfg, feeds, b.ts); }
      KeptLastWithin(cfg, feeds, b);
    }
    SilentOnBarsIff(cfg, feeds, now);
  }

  // ----- coverage -----

  lemma VenueBarSecond(feeds: seq<Feed>, symbol: string, now: int, b: Bar)
    requires b in Flatten(PerVenue(feeds, symbol, now))
    ensures exists t :: t in Merged(feeds) && Second(t) == b.ts
  {
    var pv := PerVenue(feeds, symbol, now);
    var i := FlattenOrigin(pv, b);
    var f := feeds[i];
    var k :| 0 <= k < |pv[i]| && pv[i][k] == b;
    RunMember(f.trades, k);
    RollRunIs(VenueStamp(symbol, f.venue, now), Second, Runs(f.trades, Second)[k]);
    var t := Runs(f.trades, Second)[k][0];
    assert t in f.trades;
    MergeConserves(Lists(feeds));
    FlattenMember(Lists(feeds), i);
    assert t in multiset(Flatten(Lists(feeds)));
    assert t in multiset(Merged(feeds));
  }

  /** With a band of at least one MAD and every trade admitted, the tape has a bar in every second in
    * which any venue has one, and scores exactly 100 per cent. */
  lemma CoverageIsFull(cfg: Config, feeds: seq<Feed>, now: int)
    requires cfg.madK * MAD_TO_SIGMA >= 1.0
    requires forall t :: t in Merged(feeds) ==> Admits(cfg, t)
    requires Flatten(PerVenue(feeds, cfg.symbol, now)) != []
    ensures CoverageOf(SecondsOf(AggBars(cfg, Merged(feeds))), SecondsOf(Flatten(PerVenue(feeds, cfg.symbol, now))))
         == Some(100.0)
  {
    var bars, own := AggBars(cfg, Merged(feeds)), Flatten(PerVenue(feeds, cfg.symbol, now));
    EverySecondCovered(cfg, Merged(feeds));
    FilterAll(Merged(feeds), Admission(cfg));
    forall n | n in SecondsOf(own) ensures n in SecondsOf(bars) {
      var k :| 0 <= k < |own| && own[k].ts / NS_PER_SECOND == n;
      assert own[k] in own;
      VenueBarSecond(feeds, cfg.symbol, now, own[k]);
      TapeHasSecond(bars, Merged(feeds), own[k].ts);
    }
    assert own[0].ts / NS_PER_SECOND in SecondsOf(own);
    FullCoverage(SecondsOf(bars), SecondsOf(own));
  }

  lemma TapeHasSecond(bars: seq<Bar>, stream: seq<Trade>, s: int)
    requires MapBy(bars, TsOf) == SortedKeys(stream, Second)
    requires exists t :: t in stream && Second(t) == s
    ensures s / NS_PER_SECOND in SecondsOf(bars)
  {
    var t :| t in stream && Second(t) == s;
    var j :| 0 <= j < |stream| && stream[j] == t;
    assert s in Keys(stream, Second);
    var i := KeyPosition(stream, s);
    assert bars[i].ts == s;
  }
}
