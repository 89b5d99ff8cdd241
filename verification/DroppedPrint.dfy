/** The range check can fail on a faithful build, whatever the filter's thresholds, the excluded venues and
  * the lag budget: a venue whose last print of the second is dropped closes away from the consolidated
  * close. */
module DroppedPrint {
  import opened Orders
  import opened Seqs
  import opened Stats
  import opened Grouping
  import opened Tape
  import opened MergeTrades
  import opened MergeTheorems
  import opened RobustFilter
  import opened ConsolidatedBars
  import opened Checks
  import opened TapeTheorems
  import opened CrossVenue
  import opened VenueAgreement

  /** How many steady venues there are, the number of the first, and how late every print arrives. */
  datatype Cast = Cast(crowd: nat, first: nat, lag: int)

  function Print(c: Cast, i: nat, ts: int, price: real): Trade {
    Trade(ts, Some(ts + c.lag), Some(NthVenue(c.first + i)), price, 1.0, "")
  }

  function Steady(c: Cast, i: nat): Trade { Print(c, i, 0, 100.0) }

  /** The erratic venue: a good print, then a bad one in the same second. */
  function Good(c: Cast): Trade { Print(c, c.crowd, 1, 100.05) }

  function Bad(c: Cast): Trade { Print(c, c.crowd, 2, 1.0) }

  function Crowd(c: Cast): seq<Trade> { seq(c.crowd, i requires 0 <= i < c.crowd => Steady(c, i)) }

  function SceneFeed(c: Cast, i: nat): Feed {
    Feed(NthVenue(c.first + i), if i < c.crowd then [Steady(c, i)] else [Print(c, i, 1, 100.05), Print(c, i, 2, 1.0)])
  }

  function Scene(c: Cast): seq<Feed> { seq(c.crowd + 1, i requires 0 <= i < c.crowd + 1 => SceneFeed(c, i)) }

  function Prints(c: Cast): seq<Trade> { Crowd(c) + [Good(c), Bad(c)] }

  lemma NamesDiffer(i: nat, j: nat)
    requires i != j
    ensures NthVenue(i) != NthVenue(j)
  {
    assert |NthVenue(i)| == i && |NthVenue(j)| == j;
  }

  lemma FeedIsProper(c: Cast, i: nat)
    ensures var f := SceneFeed(c, i);
      OwnVenue(f) && NonDecreasing(f.trades, Second) && SortedBy(f.trades, TsLe)
  {
  }

  lemma SceneIsProper(c: Cast)
    ensures Keyed(Scene(c)) && InTimeOrder(Scene(c)) && SortedBy(Merged(Scene(c)), TsLe)
  {
    var feeds := Scene(c);
    forall i, j | 0 <= i < j < |feeds| ensures feeds[i].venue != feeds[j].venue {
      NamesDiffer(c.first + i, c.first + j);
    }
    forall i | 0 <= i < |feeds|
      ensures OwnVenue(feeds[i]) && NonDecreasing(feeds[i].trades, Second) && SortedBy(feeds[i].trades, TsLe)
    {
      FeedIsProper(c, i);
    }
    MergeOrder(feeds);
  }

  lemma SceneLists(c: Cast)
    ensures Flatten(Lists(Scene(c))) == Prints(c)
  {
    var lists := Lists(Scene(c));
    FlattenSingles(Init(lists), Crowd(c));
  }

  lemma PrintsInSecondZero(c: Cast, t: Trade)
    requires t in Prints(c)
    ensures Second(t) == 0 && t.size == 1.0 && t.price >= 1.0 && Lag(t) == c.lag && |VenueName(t)| >= c.first
  {
  }

  lemma SameMembers(a: seq<Trade>, b: seq<Trade>)
    requires multiset(a) == multiset(b)
    ensures forall t :: t in a <==> t in b
  {
    forall t ensures t in a <==> t in b {
      assert t in a <==> t in multiset(a);
      assert t in b <==> t in multiset(b);
    }
  }

  /** The merged stream holds the crowd and the two prints, all in second zero. */
  lemma SceneStream(c: Cast)
    ensures multiset(Merged(Scene(c))) == multiset(Prints(c))
    ensures forall t :: t in Merged(Scene(c)) <==> t in Prints(c)
    ensures MergedAt(Scene(c), 0) == Merged(Scene(c))
  {
    MergeConserves(Lists(Scene(c)));
    SceneLists(c);
    var m := Merged(Scene(c));
    SameMembers(m, Prints(c));
    forall t | t in m ensures KeyIs(Second, 0)(t) { PrintsInSecondZero(c, t); }
    FilterAll(m, KeyIs(Second, 0));
  }

  lemma {:induction false} CountInPermutation(a: seq<real>, b: seq<real>, lo: real, hi: real)
    requires multiset(a) == multiset(b)
    ensures CountIn(a, lo, hi) == CountIn(b, lo, hi)
  {
    SortSorts(a);
    SortSorts(b);
    AscendingUnique(Sort(a), Sort(b));
    CountInSort(a, lo, hi);
    CountInSort(b, lo, hi);
  }

  /** A majority at 100 pins the median there and leaves no spread. */
  lemma SceneMedian(c: Cast)
    requires c.crowd >= 3
    ensures var ps := Prices(Merged(Scene(c))); ps != [] && Median(ps) == 100.0 && Mad(ps) == 0.0
  {
    SceneStream(c);
    MajorityPins(Merged(Scene(c)), c);
  }

  lemma MajorityPins(ts: seq<Trade>, c: Cast)
    requires c.crowd >= 3 && multiset(ts) == multiset(Prints(c))
    ensures Prices(ts) != [] && Median(Prices(ts)) == 100.0 && Mad(Prices(ts)) == 0.0
  {
    SceneMajority(c);
    SameMajority(ts, Prints(c), 100.0, 100.0);
    MajorityHoldsBoth(Prices(ts), 100.0, 100.0);
  }

  lemma {:induction false} SameMajority(a: seq<Trade>, b: seq<Trade>, lo: real, hi: real)
    requires multiset(a) == multiset(b)
    ensures |a| == |b| && CountIn(Prices(a), lo, hi) == CountIn(Prices(b), lo, hi)
  {
    assert |multiset(a)| == |a| && |multiset(b)| == |b|;
    MapPermutation(a, b, Price);
    CountInPermutation(Prices(a), Prices(b), lo, hi);
  }

  lemma SceneMajority(c: Cast)
    ensures |Prints(c)| == c.crowd + 2 && CountIn(Prices(Prints(c)), 100.0, 100.0) >= c.crowd
  {
    var tail := [100.05, 1.0];
    assert Prices(Prints(c)) == Prices(Crowd(c)) + tail;
    CountInConcat(Prices(Crowd(c)), tail, 100.0, 100.0);
    CountInAll(Prices(Crowd(c)), 100.0, 100.0);
  }

  lemma SceneEngages(c: Cast, minVenues: int)
    requires c.crowd >= minVenues
    ensures Engages(Merged(Scene(c)), minVenues)
  {
    SceneStream(c);
    PermutedVenues(Merged(Scene(c)), Prints(c));
    CrowdEngages(c, minVenues);
  }

  lemma CrowdEngages(c: Cast, minVenues: int)
    requires c.crowd >= minVenues
    ensures Engages(Prints(c), minVenues)
  {
    ManyVenues(Crowd(c), c.first, c.crowd);
    assert Crowd(c)[..c.crowd] == Crowd(c);
    MoreVenues(Crowd(c), [Good(c), Bad(c)]);
  }

  lemma MoreVenues(a: seq<Trade>, b: seq<Trade>)
    ensures |VenuesPresent(a)| <= |VenuesPresent(a + b)|
  {
    var c, p := VenuesPresent(a), VenuesPresent(a + b);
    forall v | v in c ensures v in p {
      var i :| 0 <= i < |a| && a[i].venue == v;
      assert (a + b)[i].venue == v;
    }
    assert p == c + (p - c);
  }

  lemma SceneFilter(c: Cast, madK: real, minVenues: int)
    requires c.crowd >= 3 && c.crowd >= minVenues
    ensures Robust(Merged(Scene(c)), madK, minVenues).kept == Filter(Merged(Scene(c)), Within(100.0, 0.1))
  {
    SceneMedian(c);
    SceneEngages(c, minVenues);
  }

  /** The good print is the last to survive. */
  lemma SceneSurvivors(c: Cast, madK: real, minVenues: int)
    requires c.crowd >= 3 && c.crowd >= minVenues
    ensures var kept := Robust(Merged(Scene(c)), madK, minVenues).kept; kept != [] && Last(kept) == Good(c)
  {
    SceneFilter(c, madK, minVenues);
    SceneStream(c);
    SceneIsProper(c);
    LastWithin(c, Merged(Scene(c)));
  }

  lemma {:induction false} LastWithin(c: Cast, m: seq<Trade>)
    requires SortedBy(m, TsLe) && forall t :: t in m <==> t in Prints(c)
    ensures var kept := Filter(m, Within(100.0, 0.1)); kept != [] && Last(kept) == Good(c)
  {
    var w := Within(100.0, 0.1);
    var kept := Filter(m, w);
    FilterMembers(m, w);
    FilterSorted(m, w, TsLe);
    assert Good(c) in Prints(c) && w(Good(c));
    LastIsLatest(kept, Good(c));
    assert w(Last(kept));
    LatePrints(c, Last(kept));
  }

  lemma LastIsLatest(s: seq<Trade>, t: Trade)
    requires SortedBy(s, TsLe) && t in s
    ensures s != [] && Last(s) in s && Last(s).ts >= t.ts
  {
    var k :| 0 <= k < |s| && s[k] == t;
    assert k < |s| - 1 ==> TsLe(s[k], s[|s| - 1]);
  }

  lemma LatePrints(c: Cast, t: Trade)
    requires t in Prints(c) && t.ts >= 1 && t.price != 1.0
    ensures t == Good(c)
  {
  }

  lemma FeedLastPrice(c: Cast, i: nat)
    ensures var p := LastPrice(SceneFeed(c, i), 0); p == 100.0 || p == 1.0
  {
    var ts := SceneFeed(c, i).trades;
    forall t | t in ts ensures KeyIs(Second, 0)(t) {
      assert 0 <= t.ts <= 2;
      assert Second(t) == 0;
    }
    FilterAll(ts, KeyIs(Second, 0));
    assert Last(ts).price == 100.0 || Last(ts).price == 1.0;
  }

  /** The good print is beyond every venue's last price. */
  lemma SceneBeyond(c: Cast)
    ensures AboveAll(Scene(c), 0, 100.05)
  {
    var feeds := Scene(c);
    forall i | 0 <= i < |feeds| && TradesIn(feeds[i], 0) ensures 100.05 > Over(LastPrice(feeds[i], 0)) {
      FeedLastPrice(c, i);
    }
  }

  /** No print is excluded or too late: the names are longer than any excluded one, and the lag is zero, or
    * the whole budget if that is negative. */
  ghost predicate Welcome(cfg: Config, c: Cast) {
    && (forall v :: v in cfg.excluded ==> |v| < c.first)
    && (StaleNs(cfg).Some? ==> c.lag <= StaleNs(cfg).value)
  }

  lemma CastFor(cfg: Config) returns (c: Cast)
    ensures Welcome(cfg, c) && c.crowd >= 3 && c.crowd >= cfg.minVenues
  {
    var first := LongerThanAll(cfg.excluded);
    c := Cast(if cfg.minVenues >= 3 then cfg.minVenues else 3, first,
              if StaleNs(cfg).Some? && StaleNs(cfg).value < 0 then StaleNs(cfg).value else 0);
  }

  lemma SceneAdmitted(cfg: Config, c: Cast)
    requires Welcome(cfg, c)
    ensures forall t :: t in Merged(Scene(c)) ==> Admits(cfg, t) && t.price > 0.0
  {
    SceneStream(c);
    forall t | t in Merged(Scene(c)) ensures Admits(cfg, t) && t.price > 0.0 { PrintsInSecondZero(c, t); }
  }

  /** The bar the builder makes of the scene. */
  lemma SceneBar(cfg: Config, c: Cast) returns (b: Bar)
    requires Welcome(cfg, c) && c.crowd >= 3 && c.crowd >= cfg.minVenues
    ensures b in AggBars(cfg, Merged(Scene(c))) && b.ts == 0 && b.close == 100.05
  {
    var m := Merged(Scene(c));
    SceneStream(c);
    SceneAdmitted(cfg, c);
    SceneSurvivors(c, cfg.madK, cfg.minVenues);
    RawIsMerged(cfg, Scene(c), 0);
    var kept := Survivors(cfg, RawAt(cfg, m, 0));
    assert Good(c) in Prints(c);
    BucketMember(Admitted(cfg, m), Second, 0);
    BarExists(cfg, m, 0);
    b := Roll(0, AggStamp(cfg, IndexOf(cfg, m), kept), kept);
  }

  /** A proper input, every trade admitted, on which the range check reports a breach. */
  ghost predicate Breaching(cfg: Config, now: int, feeds: seq<Feed>) {
    && Keyed(feeds) && InTimeOrder(feeds)
    && (forall t :: t in Merged(feeds) ==> Admits(cfg, t) && t.price > 0.0)
    && RangeIssues(AggBars(cfg, Merged(feeds)), PerVenue(feeds, cfg.symbol, now)) != []
  }

  /** Whatever the configuration, there is such an input. */
  lemma DroppedLastPrintBreaches(cfg: Config, now: int)
    ensures exists feeds: seq<Feed> :: Breaching(cfg, now, feeds)
  {
    var c := CastFor(cfg);
    SceneIsProper(c);
    SceneAdmitted(cfg, c);
    var b := SceneBar(cfg, c);
    SceneBeyond(c);
    SilentOnBarsIff(cfg, Scene(c), now);
    assert Breaching(cfg, now, Scene(c));
  }
}
