/** What the consolidated tape guarantees: one bar per surviving second, robustness, soundness under
  * the dataset's checks, provenance, and the streaming builder as a special case. */
module TapeTheorems {
  import opened Orders
  import opened Seqs
  import opened Stats
  import opened Grouping
  import opened Tape
  import opened RobustFilter
  import opened Provenance
  import opened ConsolidatedBars
  import opened VenueBuilder
  import opened Checks

  /** The admitted trades of second `s`. */
  function RawAt(cfg: Config, consolidated: seq<Trade>, s: int): seq<Trade> {
    Bucket(Admitted(cfg, consolidated), Second, s)
  }

  function IndexOf(cfg: Config, consolidated: seq<Trade>): map<string, nat> {
    IndexFor(cfg, Admitted(cfg, consolidated))
  }

  function SecondGroups(cfg: Config, consolidated: seq<Trade>): seq<seq<Bar>> {
    MapBy(Buckets(Admitted(cfg, consolidated), Second), SecondBar(cfg, IndexOf(cfg, consolidated)))
  }

  lemma AdmittedMembers(cfg: Config, consolidated: seq<Trade>)
    ensures forall t :: t in Admitted(cfg, consolidated) ==> t in consolidated && Admits(cfg, t)
  {
    FilterMembers(consolidated, Admission(cfg));
  }

  lemma RawMembers(cfg: Config, consolidated: seq<Trade>, s: int)
    ensures forall t :: t in RawAt(cfg, consolidated, s) ==> t in consolidated && Admits(cfg, t) && Second(t) == s
  {
    AdmittedMembers(cfg, consolidated);
    BucketMember(Admitted(cfg, consolidated), Second, s);
  }

  lemma SurvivorMembers(cfg: Config, consolidated: seq<Trade>, s: int)
    ensures forall t :: t in Survivors(cfg, RawAt(cfg, consolidated, s)) ==>
      t in consolidated && t.size > 0.0 && Second(t) == s
  {
    RawMembers(cfg, consolidated, s);
    KeptMembers(RawAt(cfg, consolidated, s), cfg.madK, cfg.minVenues);
  }

  lemma VolumePositive(kept: seq<Trade>)
    requires kept != [] && forall t :: t in kept ==> t.size > 0.0
    ensures Volume(kept) > 0.0
  {
    SumPositive(kept, Size);
  }

  lemma GroupIs(cfg: Config, consolidated: seq<Trade>, i: nat)
    requires i < |SecondGroups(cfg, consolidated)|
    ensures var s := SortedKeys(Admitted(cfg, consolidated), Second)[i];
      && s in Keys(Admitted(cfg, consolidated), Second)
      && SecondGroups(cfg, consolidated)[i]
         == BarOf(cfg, IndexOf(cfg, consolidated), s, Survivors(cfg, RawAt(cfg, consolidated, s)))
  {
    var adm := Admitted(cfg, consolidated);
    var ks := SortedKeys(adm, Second);
    SortSetSorts(Keys(adm, Second), IntLe);
    assert ks[i] in ks;
    BucketHead(adm, ks[i]);
    SecondAt(cfg, IndexOf(cfg, consolidated), ks[i], RawAt(cfg, consolidated, ks[i]));
  }

  lemma BarOfKept(cfg: Config, index: map<string, nat>, s: int, kept: seq<Trade>)
    requires forall t :: t in kept ==> t.size > 0.0
    ensures BarOf(cfg, index, s, kept) == if kept == [] then [] else [Roll(s, AggStamp(cfg, index, kept), kept)]
  {
    if kept != [] { VolumePositive(kept); }
  }

  /** Group `i` of the builder is the bar of second `SortedKeys[i]`, or nothing if none survives. */
  lemma GroupAt(cfg: Config, consolidated: seq<Trade>, i: nat)
    requires i < |SecondGroups(cfg, consolidated)|
    ensures var s := SortedKeys(Admitted(cfg, consolidated), Second)[i];
      var kept := Survivors(cfg, RawAt(cfg, consolidated, s));
      && s in Keys(Admitted(cfg, consolidated), Second)
      && SecondGroups(cfg, consolidated)[i] ==
           if kept == [] then [] else [Roll(s, AggStamp(cfg, IndexOf(cfg, consolidated), kept), kept)]
  {
    var s := SortedKeys(Admitted(cfg, consolidated), Second)[i];
    GroupIs(cfg, consolidated, i);
    SurvivorMembers(cfg, consolidated, s);
    BarOfKept(cfg, IndexOf(cfg, consolidated), s, Survivors(cfg, RawAt(cfg, consolidated, s)));
  }

  /** Every bar of the tape is the roll-up of the survivors of its second. */
  lemma BarOrigin(cfg: Config, consolidated: seq<Trade>, b: Bar)
    requires b in AggBars(cfg, consolidated)
    ensures var kept := Survivors(cfg, RawAt(cfg, consolidated, b.ts));
      && b.ts in Keys(Admitted(cfg, consolidated), Second)
      && kept != []
      && b == Roll(b.ts, AggStamp(cfg, IndexOf(cfg, consolidated), kept), kept)
  {
    var i := FlattenOrigin(SecondGroups(cfg, consolidated), b);
    var s := SortedKeys(Admitted(cfg, consolidated), Second)[i];
    var kept := Survivors(cfg, RawAt(cfg, consolidated, s));
    GroupAt(cfg, consolidated, i);
    OnlyBar(SecondGroups(cfg, consolidated)[i], s, AggStamp(cfg, IndexOf(cfg, consolidated), kept), kept, b);
  }

  lemma OnlyBar(bars: seq<Bar>, s: int, stamp: Stamp, kept: seq<Trade>, b: Bar)
    requires bars == (if kept == [] then [] else [Roll(s, stamp, kept)]) && b in bars
    ensures kept != [] && b == Roll(s, stamp, kept) && b.ts == s
  {
  }

  lemma KeyPosition(adm: seq<Trade>, s: int) returns (i: nat)
    requires s in Keys(adm, Second)
    ensures i < |SortedKeys(adm, Second)| && SortedKeys(adm, Second)[i] == s
  {
    SortSetSorts(Keys(adm, Second), IntLe);
    i :| 0 <= i < |SortedKeys(adm, Second)| && SortedKeys(adm, Second)[i] == s;
  }

  /** ... and every second with a survivor has its bar. */
  lemma BarExists(cfg: Config, consolidated: seq<Trade>, s: int)
    requires s in Keys(Admitted(cfg, consolidated), Second)
    requires Survivors(cfg, RawAt(cfg, consolidated, s)) != []
    ensures var kept := Survivors(cfg, RawAt(cfg, consolidated, s));
      Roll(s, AggStamp(cfg, IndexOf(cfg, consolidated), kept), kept) in AggBars(cfg, consolidated)
  {
    var i := KeyPosition(Admitted(cfg, consolidated), s);
    GroupAt(cfg, consolidated, i);
    FlattenMember(SecondGroups(cfg, consolidated), i);
  }

  lemma {:induction false} IncreasingGroups(ks: seq<int>, gs: seq<seq<Bar>>)
    requires |ks| == |gs| && StrictlySorted(ks, IntLe)
    requires forall i :: 0 <= i < |gs| ==> |gs[i]| <= 1 && (gs[i] != [] ==> gs[i][0].ts == ks[i])
    ensures Increasing(MapBy(Flatten(gs), TsOf))
    ensures forall b :: b in Flatten(gs) ==> ks != [] && b.ts <= Last(ks)
  {
    if gs != [] {
      IncreasingGroups(Init(ks), Init(gs));
      if Init(ks) != [] { assert IntLe(ks[|ks| - 2], ks[|ks| - 1]) && ks[|ks| - 2] != ks[|ks| - 1]; }
      IncreasingNext(Flatten(Init(gs)), Last(gs), Last(ks));
    }
  }

  lemma IncreasingNext(f: seq<Bar>, g: seq<Bar>, k: int)
    requires Increasing(MapBy(f, TsOf)) && (forall b :: b in f ==> b.ts < k)
    requires |g| <= 1 && (g != [] ==> g[0].ts == k)
    ensures Increasing(MapBy(f + g, TsOf)) && forall b :: b in f + g ==> b.ts <= k
  {
    assert forall i :: 0 <= i < |f| ==> f[i] in f;
  }

  /** The tape's seconds strictly increase, whatever the order of the input. */
  lemma TapeIncreases(cfg: Config, consolidated: seq<Trade>)
    ensures Increasing(MapBy(AggBars(cfg, consolidated), TsOf))
  {
    var gs: seq<seq<Bar>> := SecondGroups(cfg, consolidated);
    var ks := SortedKeys(Admitted(cfg, consolidated), Second);
    SortSetSorts(Keys(Admitted(cfg, consolidated), Second), IntLe);
    forall i | 0 <= i < |gs| ensures |gs[i]| <= 1 && (gs[i] != [] ==> gs[i][0].ts == ks[i]) {
      GroupAt(cfg, consolidated, i);
    }
    IncreasingGroups(ks, gs);
  }

  // ----- robustness of the bars -----

  /** Breakdown bound on bars: in a second where the filter engages and a strict majority of the
    * admitted prices lie in `[lo, hi]`, all five price columns obey the survivors' bound. */
  lemma {:induction false} BarBreakdown(cfg: Config, consolidated: seq<Trade>, b: Bar, lo: real, hi: real)
    requires b in AggBars(cfg, consolidated)
    requires var raw := RawAt(cfg, consolidated, b.ts);
      Engages(raw, cfg.minVenues) && 2 * CountIn(Prices(raw), lo, hi) > |raw|
    ensures var ps := Prices(RawAt(cfg, consolidated, b.ts));
      && ps != [] && lo <= Median(ps) <= hi && 0.0 <= Mad(ps) <= hi - lo
      && forall p :: p in [b.open, b.high, b.low, b.close, b.vwap] ==> Confined(ps, cfg.madK, lo, hi, p)
  {
    var raw := RawAt(cfg, consolidated, b.ts);
    BarOrigin(cfg, consolidated, b);
    SurvivorMembers(cfg, consolidated, b.ts);
    var kept := Survivors(cfg, raw);
    KeptMembers(raw, cfg.madK, cfg.minVenues);
    assert kept[0] in raw;
    BreakdownRoll(raw, cfg.madK, cfg.minVenues, lo, hi, b, AggStamp(cfg, IndexOf(cfg, consolidated), kept));
  }

  lemma {:induction false} BreakdownRoll(raw: seq<Trade>, madK: real, minVenues: int, lo: real, hi: real, b: Bar,
                                         stamp: Stamp)
    requires raw != [] && Engages(raw, minVenues) && 2 * CountIn(Prices(raw), lo, hi) > |raw|
    requires var kept := Robust(raw, madK, minVenues).kept;
      kept != [] && b == Roll(b.ts, stamp, kept) && forall t :: t in kept ==> t.size > 0.0
    ensures var ps := Prices(raw);
      && lo <= Median(ps) <= hi && 0.0 <= Mad(ps) <= hi - lo
      && forall p :: p in [b.open, b.high, b.low, b.close, b.vwap] ==> Confined(ps, madK, lo, hi, p)
  {
    var ps, kept := Prices(raw), Robust(raw, madK, minVenues).kept;
    forall t | t in kept ensures Confined(ps, madK, lo, hi, t.price) {
      Breakdown(raw, madK, minVenues, lo, hi, t);
    }
    MajorityHoldsBoth(ps, lo, hi);
    RollColumns(b, stamp, kept, LeastSurvivor(Median(ps), Mad(ps), madK, lo, hi),
                GreatestSurvivor(Median(ps), Mad(ps), madK, lo, hi));
  }

  /** A roll-up stays inside any interval its trades are in. */
  lemma RollColumns(b: Bar, stamp: Stamp, kept: seq<Trade>, lo: real, hi: real)
    requires kept != [] && b == Roll(b.ts, stamp, kept)
    requires forall t :: t in kept ==> lo <= t.price <= hi && t.size >= 0.0
    ensures forall p :: p in [b.open, b.high, b.low, b.close, b.vwap] ==> lo <= p <= hi
  {
    RollWithin(b.ts, stamp, kept, lo, hi);
  }

  // ----- coverage -----

  lemma {:induction false} FullGroups(ks: seq<int>, gs: seq<seq<Bar>>)
    requires |ks| == |gs|
    requires forall i :: 0 <= i < |gs| ==> |gs[i]| == 1 && gs[i][0].ts == ks[i]
    ensures MapBy(Flatten(gs), TsOf) == ks
  {
    if gs != [] {
      FullGroups(Init(ks), Init(gs));
      assert MapBy(Flatten(gs), TsOf) == MapBy(Flatten(Init(gs)), TsOf) + [Last(gs)[0].ts];
    }
  }

  /** With a band of at least one MAD no traded second is lost: the tape has exactly one bar for each
    * second with an admitted trade (so the builder's empty-second branch is never taken). */
  lemma EverySecondCovered(cfg: Config, consolidated: seq<Trade>)
    requires cfg.madK * MAD_TO_SIGMA >= 1.0
    ensures MapBy(AggBars(cfg, consolidated), TsOf) == SortedKeys(Admitted(cfg, consolidated), Second)
  {
    var adm := Admitted(cfg, consolidated);
    var gs: seq<seq<Bar>>, ks := SecondGroups(cfg, consolidated), SortedKeys(adm, Second);
    forall i | 0 <= i < |gs| ensures |gs[i]| == 1 && gs[i][0].ts == ks[i] {
      GroupAt(cfg, consolidated, i);
      BucketMember(adm, Second, ks[i]);
      HalfSurvives(RawAt(cfg, consolidated, ks[i]), cfg.madK, cfg.minVenues);
    }
    FullGroups(ks, gs);
  }

  // ----- provenance -----

  lemma KeptMask(kept: seq<Trade>, all: seq<string>)
    requires forall t :: t in kept ==> VenueName(t) in all
    ensures Decode(MaskOf(KeptVenues(kept), VenueBitmaskIndex(all)), VenueBitmaskIndex(all)) == SetOf(VenueNames(kept))
  {
    var names := VenueNames(kept);
    forall v | v in KeptVenues(kept) ensures v in all {
      var i :| 0 <= i < |names| && names[i] == v;
      assert kept[i] in kept;
    }
    DecodeEncode(KeptVenues(kept), all);
    SetOfMembers(KeptVenues(kept), SetOf(names));
  }

  lemma SetOfMembers(s: seq<string>, w: set<string>)
    requires forall v :: v in s <==> v in w
    ensures SetOf(s) == w
  {
    assert forall v :: v in SetOf(s) <==> v in s;
  }

  /** No index is given, so that the builder makes its own, or one that covers every admitted venue. */
  ghost predicate Indexed(cfg: Config, consolidated: seq<Trade>) {
    cfg.index.Some? ==> exists all :: IndexCovers(cfg, consolidated, all)
  }

  ghost predicate IndexCovers(cfg: Config, consolidated: seq<Trade>, all: seq<string>) {
    && IndexOf(cfg, consolidated) == VenueBitmaskIndex(all)
    && forall t :: t in Admitted(cfg, consolidated) ==> VenueName(t) in all
  }

  lemma OwnIndexCovers(cfg: Config, consolidated: seq<Trade>)
    requires cfg.index.None?
    ensures IndexCovers(cfg, consolidated, VenueNames(Admitted(cfg, consolidated)))
  {
    var adm := Admitted(cfg, consolidated);
    forall t | t in adm ensures VenueName(t) in VenueNames(adm) {
      var i :| 0 <= i < |adm| && adm[i] == t;
      assert VenueNames(adm)[i] == VenueName(t);
    }
  }

  lemma SurvivorsAdmitted(cfg: Config, consolidated: seq<Trade>, s: int)
    ensures forall t :: t in Survivors(cfg, RawAt(cfg, consolidated, s)) ==> t in Admitted(cfg, consolidated)
  {
    BucketMember(Admitted(cfg, consolidated), Second, s);
    KeptMembers(RawAt(cfg, consolidated, s), cfg.madK, cfg.minVenues);
  }

  /** Reading a bar's mask back with the index in use gives exactly the venues with a surviving trade in its
    * second. */
  lemma MaskTellsVenues(cfg: Config, consolidated: seq<Trade>, b: Bar)
    requires Indexed(cfg, consolidated) && b in AggBars(cfg, consolidated)
    ensures Decode(b.mask, IndexOf(cfg, consolidated))
         == SetOf(VenueNames(Survivors(cfg, RawAt(cfg, consolidated, b.ts))))
  {
    var all := CoveringNames(cfg, consolidated);
    MaskTellsIndexed(cfg, consolidated, all, b);
  }

  lemma CoveringNames(cfg: Config, consolidated: seq<Trade>) returns (all: seq<string>)
    requires Indexed(cfg, consolidated)
    ensures IndexCovers(cfg, consolidated, all)
  {
    if cfg.index.None? {
      OwnIndexCovers(cfg, consolidated);
      all := VenueNames(Admitted(cfg, consolidated));
    } else {
      all :| IndexCovers(cfg, consolidated, all);
    }
  }

  lemma BarMask(cfg: Config, consolidated: seq<Trade>, b: Bar)
    requires b in AggBars(cfg, consolidated)
    ensures b.mask
         == MaskOf(KeptVenues(Survivors(cfg, RawAt(cfg, consolidated, b.ts))), IndexOf(cfg, consolidated))
  {
    BarOrigin(cfg, consolidated, b);
  }

  lemma MaskTellsIndexed(cfg: Config, consolidated: seq<Trade>, all: seq<string>, b: Bar)
    requires IndexCovers(cfg, consolidated, all) && b in AggBars(cfg, consolidated)
    ensures Decode(b.mask, IndexOf(cfg, consolidated))
         == SetOf(VenueNames(Survivors(cfg, RawAt(cfg, consolidated, b.ts))))
  {
    BarMask(cfg, consolidated, b);
    SurvivorsAdmitted(cfg, consolidated, b.ts);
    KeptMask(Survivors(cfg, RawAt(cfg, consolidated, b.ts)), all);
  }

  // ----- soundness under the dataset's own checks -----

  lemma RollIsSound(sec: int, stamp: Stamp, ts: seq<Trade>)
    requires ts != [] && forall t :: t in ts ==> t.price > 0.0 && t.size >= 0.0
    ensures SoundBar(Roll(sec, stamp, ts))
  {
    var lo, hi := MinBy(ts, Price), MaxBy(ts, Price);
    var i :| 0 <= i < |ts| && Price(ts[i]) == lo;
    assert ts[i] in ts;
    forall t | t in ts ensures lo <= t.price <= hi {
      var j :| 0 <= j < |ts| && ts[j] == t;
      assert lo <= Price(ts[j]) <= hi;
    }
    RollWithin(sec, stamp, ts, lo, hi);
  }

  lemma TapeSecondsWhole(cfg: Config, consolidated: seq<Trade>, b: Bar)
    requires b in AggBars(cfg, consolidated)
    ensures b.ts % NS_PER_SECOND == 0
  {
    BarOrigin(cfg, consolidated, b);
    var adm := Admitted(cfg, consolidated);
    var i :| 0 <= i < |adm| && Second(adm[i]) == b.ts;
    SecondFloor(adm[i].ts);
  }

  /** Whatever the order of the input, a tape of positively priced trades passes both bar checks. */
  lemma TapePassesChecks(cfg: Config, consolidated: seq<Trade>)
    requires forall t :: t in consolidated ==> t.price > 0.0
    ensures OhlcIssues(AggBars(cfg, consolidated)) == []
    ensures TimestampIssues(AggBars(cfg, consolidated)) == []
  {
    var bars := AggBars(cfg, consolidated);
    forall i | 0 <= i < |bars| ensures SoundBar(bars[i]) && bars[i].ts % NS_PER_SECOND == 0 {
      var b := bars[i];
      assert b in bars;
      BarOrigin(cfg, consolidated, b);
      SurvivorMembers(cfg, consolidated, b.ts);
      var kept := Survivors(cfg, RawAt(cfg, consolidated, b.ts));
      RollIsSound(b.ts, AggStamp(cfg, IndexOf(cfg, consolidated), kept), kept);
      TapeSecondsWhole(cfg, consolidated, b);
    }
    OhlcSilentIff(bars);
    TapeIncreases(cfg, consolidated);
    if |bars| >= 2 { TimestampSilentIff(bars); }
  }

  lemma {:induction false} RunMember(trades: seq<Trade>, i: nat)
    requires i < |Runs(trades, Second)|
    ensures Runs(trades, Second)[i] != [] && forall t :: t in Runs(trades, Second)[i] ==> t in trades
  {
    RunsCut(trades, Second);
    FlattenMember(Runs(trades, Second), i);
    assert Uniform(Runs(trades, Second)[i], Second);
  }

  /** A venue's bars pass the price check for positive prices and non-negative sizes, sorted or not. */
  lemma VenueBarsPassPriceCheck(trades: seq<Trade>, symbol: string, venue: string, now: int)
    requires forall t :: t in trades ==> t.price > 0.0 && t.size >= 0.0
    ensures OhlcIssues(VenueBars(trades, symbol, venue, now)) == []
  {
    var bars, r := VenueBars(trades, symbol, venue, now), Runs(trades, Second);
    forall i | 0 <= i < |bars| ensures SoundBar(bars[i]) {
      RunMember(trades, i);
      RollRunIs(VenueStamp(symbol, venue, now), Second, r[i]);
      RollIsSound(Second(r[i][0]), VenueStamp(symbol, venue, now), r[i]);
    }
    OhlcSilentIff(bars);
  }

  lemma {:induction false} RunSeconds(trades: seq<Trade>, symbol: string, venue: string, now: int)
    ensures var bars := VenueBars(trades, symbol, venue, now);
      && MapBy(bars, TsOf) == MapBy(Runs(trades, Second), GroupKey(Second))
      && forall i :: 0 <= i < |bars| ==> bars[i].ts % NS_PER_SECOND == 0
  {
    var bars, r := VenueBars(trades, symbol, venue, now), Runs(trades, Second);
    forall i | 0 <= i < |bars| ensures bars[i].ts == GroupKey(Second)(r[i]) && bars[i].ts % NS_PER_SECOND == 0 {
      RunMember(trades, i);
      RollRunIs(VenueStamp(symbol, venue, now), Second, r[i]);
      SecondFloor(r[i][0].ts);
    }
  }

  lemma IncreasingIsStrict(ks: seq<int>)
    ensures Increasing(ks) <==> StrictlySorted(ks, IntLe)
  {
    if StrictlySorted(ks, IntLe) {
      forall i, j | 0 <= i < j < |ks| ensures ks[i] < ks[j] { assert IntLe(ks[i], ks[j]) && ks[i] != ks[j]; }
    }
  }

  /** The keys of the runs increase exactly when the keys never go back. */
  lemma {:induction false} RunKeysIncreaseIff<T>(s: seq<T>, key: T -> int)
    ensures Increasing(MapBy(Runs(s, key), GroupKey(key))) <==> NonDecreasing(s, key)
  {
    IncreasingIsStrict(MapBy(Runs(s, key), GroupKey(key)));
    if NonDecreasing(s, key) {
      RunKeysIncrease(s, key);
    } else if StrictlySorted(MapBy(Runs(s, key), GroupKey(key)), IntLe) {
      BucketsAreRunsOnlyIfSorted(s, key);
    }
  }

  lemma VenueBarsSilentIff(trades: seq<Trade>, symbol: string, venue: string, now: int)
    ensures TimestampIssues(VenueBars(trades, symbol, venue, now)) == []
            <==> Increasing(MapBy(VenueBars(trades, symbol, venue, now), TsOf))
  {
    var bars := VenueBars(trades, symbol, venue, now);
    RunSeconds(trades, symbol, venue, now);
    if |bars| >= 2 { TimestampSilentIff(bars); }
  }

  /** They pass the timestamp check exactly when the trades' seconds never go back. */
  lemma VenueBarsPassTimestampCheckIff(trades: seq<Trade>, symbol: string, venue: string, now: int)
    ensures TimestampIssues(VenueBars(trades, symbol, venue, now)) == [] <==> NonDecreasing(trades, Second)
  {
    VenueBarsSilentIff(trades, symbol, venue, now);
    RunSeconds(trades, symbol, venue, now);
    RunKeysIncreaseIff(trades, Second);
  }

  // ----- the streaming builder as a special case -----

  lemma {:induction false} FlattenSingles<T>(gs: seq<seq<T>>, hs: seq<T>)
    requires |gs| == |hs| && forall i :: 0 <= i < |gs| ==> gs[i] == [hs[i]]
    ensures Flatten(gs) == hs
  {
    if gs != [] { FlattenSingles(Init(gs), Init(hs)); }
  }

  lemma {:induction false} SameRun(cfg: Config, trades: seq<Trade>, venue: string, now: int, i: nat)
    requires Admitted(cfg, trades) == trades && Buckets(trades, Second) == Runs(trades, Second)
    requires cfg.minVenues >= 2 && forall t :: t in trades ==> t.venue == Some(venue)
    requires i < |SecondGroups(cfg, trades)|
    ensures |SecondGroups(cfg, trades)[i]| == 1
    ensures SameMarketData(SecondGroups(cfg, trades)[i][0], VenueBars(trades, cfg.symbol, venue, now)[i])
  {
    var g, s := Runs(trades, Second)[i], SortedKeys(trades, Second)[i];
    RunMember(trades, i);
    RollRunIs(VenueStamp(cfg.symbol, venue, now), Second, g);
    OneVenueThin(cfg, g, venue);
    GroupAt(cfg, trades, i);
    BucketHead(trades, s);
    assert g == RawAt(cfg, trades, s);
  }

  /** On one venue's stream, in time order, with nothing to exclude and a venue minimum of at least
    * two, the bucketing builder yields the streaming builder's bars but for venue, mask and stamp. */
  lemma BucketingRefinesStreaming(cfg: Config, trades: seq<Trade>, venue: string, now: int)
    requires NonDecreasing(trades, Second) && cfg.minVenues >= 2
    requires forall t :: t in trades ==> Admits(cfg, t) && t.venue == Some(venue)
    ensures var a, v := AggBars(cfg, trades), VenueBars(trades, cfg.symbol, venue, now);
      |a| == |v| && forall i :: 0 <= i < |a| ==> SameMarketData(a[i], v[i])
  {
    FilterAll(trades, Admission(cfg));
    SortedBucketsAreRuns(trades, Second);
    var gs, v := SecondGroups(cfg, trades), VenueBars(trades, cfg.symbol, venue, now);
    forall i | 0 <= i < |gs| ensures |gs[i]| == 1 && SameMarketData(gs[i][0], v[i]) {
      SameRun(cfg, trades, venue, now, i);
    }
    SinglesAgree(gs, v);
  }

  lemma {:induction false} SinglesAgree(gs: seq<seq<Bar>>, v: seq<Bar>)
    requires |gs| == |v| && forall i :: 0 <= i < |gs| ==> |gs[i]| == 1 && SameMarketData(gs[i][0], v[i])
    ensures |Flatten(gs)| == |v| && forall i :: 0 <= i < |v| ==> SameMarketData(Flatten(gs)[i], v[i])
  {
    FlattenSingles(gs, seq(|gs|, i requires 0 <= i < |gs| => gs[i][0]));
  }

  lemma OneVenueThin(cfg: Config, raw: seq<Trade>, venue: string)
    requires cfg.minVenues >= 2 && forall t :: t in raw ==> t.venue == Some(venue)
    ensures Survivors(cfg, raw) == raw
  {
    assert VenuesPresent(raw) <= {Some(venue)} by {
      forall v | v in VenuesPresent(raw) ensures v == Some(venue) {
        var i :| 0 <= i < |raw| && raw[i].venue == v;
        assert raw[i] in raw;
      }
    }
    SubsetCard(VenuesPresent(raw), Some(venue));
    UntouchedIff(raw, cfg.madK, cfg.minVenues);
  }

  lemma SubsetCard<T>(s: set<T>, x: T)
    requires s <= {x}
    ensures |s| <= 1
  {
    assert s == {} || s == {x};
  }

  // ----- columns and diagnostics -----

  /** A bar of the tape, column by column, from the survivors of its second. */
  lemma TapeBarIs(cfg: Config, consolidated: seq<Trade>, b: Bar, size: Trade -> real, value: Trade -> real)
    requires b in AggBars(cfg, consolidated)
    requires (forall t: Trade :: size(t) == t.size) && forall t: Trade :: value(t) == t.price * t.size
    ensures var kept := Survivors(cfg, RawAt(cfg, consolidated, b.ts));
      && kept != [] && b.ts % 1_000_000_000 == 0 && b.symbol == cfg.symbol && b.venue == "agg"
      && b.ingested == Some(cfg.now) && b.trades == |kept|
      && b.open == kept[0].price && b.close == kept[|kept| - 1].price
      && (forall i :: 0 <= i < |kept| ==> b.low <= kept[i].price <= b.high)
      && b.volume == SumBy(kept, size) > 0.0 && Product(b.vwap, b.volume) == SumBy(kept, value)
  {
    var kept := Survivors(cfg, RawAt(cfg, consolidated, b.ts));
    var stamp := AggStamp(cfg, IndexOf(cfg, consolidated), kept);
    BarOrigin(cfg, consolidated, b);
    SurvivorMembers(cfg, consolidated, b.ts);
    assert kept[0] in kept;
    SecondIs(kept[0]);
    VolumePositive(kept);
    BarColumns(b.ts, stamp, kept, size, value);
  }

  /** One diagnostic per second with an admitted trade: how many there were, survived and were dropped, and the
    * median price. */
  lemma DiagsAre(cfg: Config, consolidated: seq<Trade>)
    ensures var ds, ks := AggDiags(cfg, consolidated), SortedKeys(Admitted(cfg, consolidated), Second);
      |ds| == |ks| && forall i :: 0 <= i < |ds| ==> DiagFits(cfg, RawAt(cfg, consolidated, ks[i]), ks[i], ds[i])
  {
    var adm := Admitted(cfg, consolidated);
    var ks, gs := SortedKeys(adm, Second), MapBy(Buckets(adm, Second), SecondDiag(cfg));
    forall i | 0 <= i < |gs| ensures |gs[i]| == 1 && DiagFits(cfg, RawAt(cfg, consolidated, ks[i]), ks[i], gs[i][0]) {
      DiagAt(cfg, consolidated, i);
    }
    SinglesFlatten(gs);
  }

  ghost predicate DiagFits(cfg: Config, raw: seq<Trade>, s: int, d: Diag) {
    && raw != [] && d.ts == s && d.nRaw == |raw| && d.nKept == |Survivors(cfg, raw)|
    && d.nDropped + d.nKept == d.nRaw && d.median == Some(Median(Prices(raw)))
  }

  lemma DiagAt(cfg: Config, consolidated: seq<Trade>, i: nat)
    requires i < |SortedKeys(Admitted(cfg, consolidated), Second)|
    ensures var adm := Admitted(cfg, consolidated);
      var s, g := SortedKeys(adm, Second)[i], MapBy(Buckets(adm, Second), SecondDiag(cfg))[i];
      |g| == 1 && DiagFits(cfg, RawAt(cfg, consolidated, s), s, g[0])
  {
    var adm := Admitted(cfg, consolidated);
    var s := SortedKeys(adm, Second)[i];
    var raw := RawAt(cfg, consolidated, s);
    SortSetSorts(Keys(adm, Second), IntLe);
    assert s in SortedKeys(adm, Second);
    BucketHead(adm, s);
    SecondAt(cfg, IndexOf(cfg, consolidated), s, raw);
    SurvivorMembers(cfg, consolidated, s);
    if Survivors(cfg, raw) != [] { VolumePositive(Survivors(cfg, raw)); }
  }

  lemma {:induction false} SinglesFlatten<T>(gs: seq<seq<T>>)
    requires forall i :: 0 <= i < |gs| ==> |gs[i]| == 1
    ensures |Flatten(gs)| == |gs| && forall i :: 0 <= i < |gs| ==> Flatten(gs)[i] == gs[i][0]
  {
    if gs != [] {
      SinglesFlatten(Init(gs));
      assert gs[|gs| - 1] == Last(gs);
    }
  }
}
