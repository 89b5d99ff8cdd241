/** Resampling composes with resampling, and with building bars from trades. */
module ResampleTheorems {
  import opened Orders
  import opened Seqs
  import opened Grouping
  import opened Tape
  import opened Division
  import opened VenueBuilder
  import opened Resample
  import A = AggregateSecond
  import Checks
  import TapeTheorems

  ghost predicate NonNegativeVolumes(bars: seq<Bar>) {
    forall i :: 0 <= i < |bars| ==> bars[i].volume >= 0.0
  }

  // ----- the carried numerator -----

  lemma {:induction false} NoVolumeNothingCarried(g: seq<Bar>)
    requires NonNegativeVolumes(g) && VolumeOf(g) == 0.0
    ensures CarriedTurnover(g) == 0.0
  {
    if g != [] {
      VolumesAdd(Init(g));
      assert Last(g).volume == 0.0;
      NoVolumeNothingCarried(Init(g));
    }
  }

  lemma VolumesAdd(g: seq<Bar>)
    requires NonNegativeVolumes(g)
    ensures VolumeOf(g) >= 0.0
  {
    forall b | b in g ensures A.VolumeOf(b) >= 0.0 {
      var i :| 0 <= i < |g| && g[i] == b;
    }
    SumNonNegative(g, A.VolumeOf);
  }

  /** A row's vwap times its volume is the turnover of its bars, also when nothing traded. */
  lemma RowCarries(key: Bar -> int, g: seq<Bar>)
    requires g != [] && NonNegativeVolumes(g)
    ensures VwapTurnover(AggRow(key, g)) == CarriedTurnover(g)
  {
    VolumesAdd(g);
    if VolumeOf(g) == 0.0 { NoVolumeNothingCarried(g); }
    MeanTimesWeight(CarriedTurnover(g), VolumeOf(g), Last(g).close);
  }

  // ----- joining windows -----

  ghost predicate AllNonNegative(gg: seq<seq<Bar>>) {
    forall i :: 0 <= i < |gg| ==> NonNegativeVolumes(gg[i])
  }

  lemma {:induction false} JoinSums(gg: seq<seq<Bar>>, key: Bar -> int)
    requires Parts(gg) && AllNonNegative(gg)
    ensures VolumeOf(MapBy(gg, WindowRow(key))) == VolumeOf(Flatten(gg))
    ensures CarriedTurnover(MapBy(gg, WindowRow(key))) == CarriedTurnover(Flatten(gg))
  {
    SumGroups(gg, WindowRow(key), A.VolumeOf, A.VolumeOf);
    forall i | 0 <= i < |gg| ensures VwapTurnover(WindowRow(key)(gg[i])) == CarriedTurnover(gg[i]) {
      RowCarries(key, gg[i]);
    }
    SumGroups(gg, WindowRow(key), VwapTurnover, VwapTurnover);
  }

  lemma {:induction false} JoinExtremes(gg: seq<seq<Bar>>, key: Bar -> int)
    requires Parts(gg)
    ensures Flatten(gg) != []
    ensures MaxBy(MapBy(gg, WindowRow(key)), A.HighOf) == MaxBy(Flatten(gg), A.HighOf)
    ensures MinBy(MapBy(gg, WindowRow(key)), A.LowOf) == MinBy(Flatten(gg), A.LowOf)
  {
    MaxGroups(gg, WindowRow(key), A.HighOf, A.HighOf);
    MinGroups(gg, WindowRow(key), A.LowOf, A.LowOf);
  }

  lemma {:induction false} JoinFolds(gg: seq<seq<Bar>>, key: Bar -> int)
    requires Parts(gg)
    ensures Fold(MapBy(gg, WindowRow(key)), TradesOf, Plus, 0) == Fold(Flatten(gg), TradesOf, Plus, 0)
    ensures MaxMask(MapBy(gg, WindowRow(key))) == MaxMask(Flatten(gg))
    ensures Fold(MapBy(gg, WindowRow(key)), IngestedOf, Later, None) == Fold(Flatten(gg), IngestedOf, Later, None)
  {
    ColumnMonoids();
    FoldGroups(gg, WindowRow(key), TradesOf, TradesOf, Plus, 0);
    FoldGroups(gg, WindowRow(key), MaskOfBar, MaskOfBar, Larger, 0);
    FoldGroups(gg, WindowRow(key), IngestedOf, IngestedOf, Later, None);
  }

  /** A row is determined by these columns of its group. */
  lemma {:induction false} RowDetermined(key: Bar -> int, a: seq<Bar>, b: seq<Bar>)
    requires a != [] && b != []
    requires key(a[0]) == key(b[0]) && a[0].symbol == b[0].symbol && a[0].venue == b[0].venue
    requires a[0].open == b[0].open && Last(a).close == Last(b).close
    requires MaxBy(a, A.HighOf) == MaxBy(b, A.HighOf) && MinBy(a, A.LowOf) == MinBy(b, A.LowOf)
    requires VolumeOf(a) == VolumeOf(b) && CarriedTurnover(a) == CarriedTurnover(b)
    requires Fold(a, TradesOf, Plus, 0) == Fold(b, TradesOf, Plus, 0)
    requires MaxMask(a) == MaxMask(b)
    requires Fold(a, IngestedOf, Later, None) == Fold(b, IngestedOf, Later, None)
    ensures AggRow(key, a) == AggRow(key, b)
  {
  }

  /** A fine row falls in the coarse window of its bars. */
  ghost predicate Nests(fine: Bar -> int, coarse: Bar -> int) {
    forall g: seq<Bar> :: g != [] ==> coarse(WindowRow(fine)(g)) == coarse(g[0])
  }

  lemma {:induction false} JoinEnds(gg: seq<seq<Bar>>, fine: Bar -> int, coarse: Bar -> int)
    requires Nests(fine, coarse) && Parts(gg)
    ensures var rows, all := MapBy(gg, WindowRow(fine)), Flatten(gg);
      && all != [] && coarse(rows[0]) == coarse(all[0])
      && rows[0].symbol == all[0].symbol && rows[0].venue == all[0].venue && rows[0].open == all[0].open
      && Last(rows).close == Last(all).close
  {
    PartsJoin(gg);
    assert gg[0] != [] && Last(gg) != [];
  }

  /** Rows of fine windows aggregate to the row of their bars, on every column. */
  lemma {:induction false} JoinRows(gg: seq<seq<Bar>>, fine: Bar -> int, coarse: Bar -> int)
    requires Nests(fine, coarse) && Parts(gg) && AllNonNegative(gg)
    ensures Flatten(gg) != [] && AggRow(coarse, MapBy(gg, WindowRow(fine))) == AggRow(coarse, Flatten(gg))
  {
    JoinSums(gg, fine);
    JoinExtremes(gg, fine);
    JoinFolds(gg, fine);
    JoinEnds(gg, fine, coarse);
    RowDetermined(coarse, MapBy(gg, WindowRow(fine)), Flatten(gg));
  }

  // ----- composition -----

  /** Coarse runs of the fine rows, as groups of fine runs. */
  lemma {:induction false} RunsOfRows(bars: seq<Bar>, fine: Bar -> int, coarse: Bar -> int)
    requires Nests(fine, coarse)
    ensures Runs(MapBy(Runs(bars, fine), WindowRow(fine)), coarse)
         == MapBy(Runs(Runs(bars, fine), GroupKey(coarse)), MapGroup(WindowRow(fine)))
  {
    var r := Runs(bars, fine);
    RunsCut(bars, fine);
    RunsOfMap(r, WindowRow(fine), coarse);
    forall g | g in r ensures Compose(WindowRow(fine), coarse)(g) == GroupKey(coarse)(g) {
      var i :| 0 <= i < |r| && r[i] == g;
      assert Uniform(r[i], fine);
    }
    RunsKeyExtensional(r, Compose(WindowRow(fine), coarse), GroupKey(coarse));
  }

  /** Groups of runs are parts, with the members' properties. */
  lemma {:induction false} RunParts<T>(s: seq<T>, fine: T -> int, coarse: T -> int, i: nat)
    requires i < |Runs(Runs(s, fine), GroupKey(coarse))|
    ensures var gg := Runs(Runs(s, fine), GroupKey(coarse))[i];
      Parts(gg) && forall j :: 0 <= j < |gg| ==> forall x :: x in gg[j] ==> x in s
  {
    var r := Runs(s, fine);
    var rr := Runs(r, GroupKey(coarse));
    RunsCut(s, fine);
    RunsCut(r, GroupKey(coarse));
    assert Uniform(rr[i], GroupKey(coarse));
    FlattenMember(rr, i);
    forall j | 0 <= j < |rr[i]| ensures rr[i][j] != [] && forall x :: x in rr[i][j] ==> x in s {
      assert rr[i][j] in r;
      var k :| 0 <= k < |r| && r[k] == rr[i][j];
      assert Uniform(r[k], fine);
      FlattenMember(r, k);
    }
  }

  lemma MemberVolumes(bars: seq<Bar>, g: seq<Bar>)
    requires NonNegativeVolumes(bars) && forall x :: x in g ==> x in bars
    ensures NonNegativeVolumes(g)
  {
    forall i | 0 <= i < |g| ensures g[i].volume >= 0.0 {
      assert g[i] in bars;
      var j :| 0 <= j < |bars| && bars[j] == g[i];
    }
  }

  lemma {:induction false} RollUpComposes(bars: seq<Bar>, fine: Bar -> int, coarse: Bar -> int)
    requires Nests(fine, coarse) && Coarsens(fine, coarse) && NonNegativeVolumes(bars)
    ensures MapBy(Runs(MapBy(Runs(bars, fine), WindowRow(fine)), coarse), WindowRow(coarse))
         == MapBy(Runs(bars, coarse), WindowRow(coarse))
  {
    RunsOfRows(bars, fine, coarse);
    RunsOfRuns(bars, fine, coarse);
    var rr := Runs(Runs(bars, fine), GroupKey(coarse));
    forall i | 0 <= i < |rr|
      ensures WindowRow(coarse)(MapGroup(WindowRow(fine))(rr[i])) == WindowRow(coarse)(FlattenGroup()(rr[i]))
    {
      RunParts(bars, fine, coarse, i);
      forall j | 0 <= j < |rr[i]| ensures NonNegativeVolumes(rr[i][j]) { MemberVolumes(bars, rr[i][j]); }
      JoinRows(rr[i], fine, coarse);
    }
    MapMapMeets(rr, MapGroup(WindowRow(fine)), WindowRow(coarse), FlattenGroup(), WindowRow(coarse));
  }

  lemma MapMapMeets<T, U, V, W>(s: seq<T>, f: T -> U, h: U -> W, g: T -> V, k: V -> W)
    requires forall i :: 0 <= i < |s| ==> h(f(s[i])) == k(g(s[i]))
    ensures MapBy(MapBy(s, f), h) == MapBy(MapBy(s, g), k)
  {
  }

  lemma WindowsNest(fine: int, coarse: int)
    requires fine > 0 && coarse > 0 && coarse % fine == 0
    ensures Nests(BarWindow(fine), BarWindow(coarse)) && Coarsens(BarWindow(fine), BarWindow(coarse))
  {
    forall g: seq<Bar> | g != []
      ensures BarWindow(coarse)(WindowRow(BarWindow(fine))(g)) == BarWindow(coarse)(g[0])
    {
      WindowOfWindow(g[0].ts, fine, coarse);
    }
    WindowsCoarsen(fine, coarse);
  }

  lemma {:induction false} SortedWindows(bars: seq<Bar>, t: int)
    requires t > 0 && NonDecreasing(bars, Checks.TsOf)
    ensures NonDecreasing(bars, BarWindow(t)) && Buckets(bars, BarWindow(t)) == Runs(bars, BarWindow(t))
  {
    forall i, j | 0 <= i < j < |bars| ensures BarWindow(t)(bars[i]) <= BarWindow(t)(bars[j]) {
      assert Checks.TsOf(bars[i]) <= Checks.TsOf(bars[j]);
      WindowMonotone(bars[i].ts, bars[j].ts, t);
    }
    SortedBucketsAreRuns(bars, BarWindow(t));
  }

  /** Rows are stamped with the keys of their groups, so they come in time order. */
  lemma {:induction false} RowsIncrease(bars: seq<Bar>, key: Bar -> int)
    requires NonDecreasing(bars, key)
    ensures NonDecreasing(MapBy(Runs(bars, key), WindowRow(key)), Checks.TsOf)
  {
    RunKeysIncrease(bars, key);
    var r := Runs(bars, key);
    var ks, rows := MapBy(r, GroupKey(key)), MapBy(r, WindowRow(key));
    RunsCut(bars, key);
    forall i | 0 <= i < |r| ensures rows[i].ts == ks[i] {
      assert Uniform(r[i], key);
    }
    forall i, j | 0 <= i < j < |rows| ensures Checks.TsOf(rows[i]) <= Checks.TsOf(rows[j]) {
      assert IntLe(ks[i], ks[j]);
    }
  }

  lemma DividesSecond(fine: int, coarse: int)
    requires Timeframe(fine) && Timeframe(coarse) && coarse % fine == 0
    ensures coarse == NS_PER_SECOND ==> fine == NS_PER_SECOND
  {
    Divide(coarse, fine);
    Divide(fine, NS_PER_SECOND);
    ScaleStep(coarse / fine, 1, fine);
  }

  /** Resampling in two steps is resampling in one, on every column. */
  lemma ResamplingComposes(bars: seq<Bar>, fine: int, coarse: int)
    requires Timeframe(fine) && Timeframe(coarse) && coarse % fine == 0
    requires NonDecreasing(bars, Checks.TsOf) && NonNegativeVolumes(bars)
    ensures Resampled(Resampled(bars, fine), coarse) == Resampled(bars, coarse)
  {
    DividesSecond(fine, coarse);
    if fine != NS_PER_SECOND {
      SortedWindows(bars, fine);
      SortedWindows(bars, coarse);
      RowsIncrease(bars, BarWindow(fine));
      SortedWindows(Resampled(bars, fine), coarse);
      WindowsNest(fine, coarse);
      RollUpComposes(bars, BarWindow(fine), BarWindow(coarse));
    }
  }

  // ----- bars straight from trades -----

  function TradeWindow(t: int): Trade -> int
    requires t > 0
  {
    (x: Trade) => Window(x.ts, t)
  }

  /** `bars_from_trades` with windows of length `t` in place of seconds. */
  function DirectBars(trades: seq<Trade>, t: int, symbol: string, venue: string, now: int): seq<Bar>
    requires t > 0
  {
    BarsBy(trades, TradeWindow(t), VenueStamp(symbol, venue, now))
  }

  function One(x: Trade): int { 1 }

  lemma {:induction false} CountOnes(g: seq<Trade>)
    ensures Fold(g, One, Plus, 0) == |g|
  {
    if g != [] { CountOnes(Init(g)); }
  }

  lemma {:induction false} ConstantFold<T, U>(s: seq<T>, f: T -> U, op: (U, U) -> U, unit: U, c: U)
    requires s != [] && forall i :: 0 <= i < |s| ==> f(s[i]) == c
    requires op(unit, c) == c && op(c, c) == c
    ensures Fold(s, f, op, unit) == c
  {
    if |s| > 1 {
      ConstantFold(Init(s), f, op, unit, c);
    } else {
      assert Fold(Init(s), f, op, unit) == unit;
    }
  }

  ghost predicate NonNegativeTrades(ts: seq<Trade>) { forall x :: x in ts ==> x.size >= 0.0 }

  lemma {:induction false} JoinVolume(gg: seq<seq<Trade>>, stamp: Stamp, key: Trade -> int)
    requires Parts(gg)
    ensures VolumeOf(MapBy(gg, RollRun(stamp, key))) == Volume(Flatten(gg))
  {
    forall i | 0 <= i < |gg| ensures A.VolumeOf(RollRun(stamp, key)(gg[i])) == SumBy(gg[i], Size) {
      RollRunIs(stamp, key, gg[i]);
    }
    SumGroups(gg, RollRun(stamp, key), Size, A.VolumeOf);
  }

  lemma {:induction false} JoinTurnover(gg: seq<seq<Trade>>, stamp: Stamp, key: Trade -> int)
    requires Parts(gg) && forall i :: 0 <= i < |gg| ==> NonNegativeTrades(gg[i])
    ensures CarriedTurnover(MapBy(gg, RollRun(stamp, key))) == Turnover(Flatten(gg))
  {
    forall i | 0 <= i < |gg| ensures VwapTurnover(RollRun(stamp, key)(gg[i])) == SumBy(gg[i], Notional) {
      assert NonNegativeTrades(gg[i]);
      VwapCarries(key(gg[i][0]), stamp, gg[i]);
    }
    SumGroups(gg, RollRun(stamp, key), Notional, VwapTurnover);
  }

  lemma {:induction false} JoinTradeExtremes(gg: seq<seq<Trade>>, stamp: Stamp, key: Trade -> int)
    requires Parts(gg)
    ensures Flatten(gg) != []
    ensures MaxBy(MapBy(gg, RollRun(stamp, key)), A.HighOf) == MaxBy(Flatten(gg), Price)
    ensures MinBy(MapBy(gg, RollRun(stamp, key)), A.LowOf) == MinBy(Flatten(gg), Price)
  {
    forall i | 0 <= i < |gg|
      ensures A.HighOf(RollRun(stamp, key)(gg[i])) == MaxBy(gg[i], Price)
      ensures A.LowOf(RollRun(stamp, key)(gg[i])) == MinBy(gg[i], Price)
    {
      RollRunIs(stamp, key, gg[i]);
    }
    MaxGroups(gg, RollRun(stamp, key), Price, A.HighOf);
    MinGroups(gg, RollRun(stamp, key), Price, A.LowOf);
  }

  lemma {:induction false} JoinCounts(gg: seq<seq<Trade>>, stamp: Stamp, key: Trade -> int)
    requires Parts(gg)
    ensures Fold(MapBy(gg, RollRun(stamp, key)), TradesOf, Plus, 0) == |Flatten(gg)|
  {
    assert Monoid(Plus, 0);
    forall i | 0 <= i < |gg| ensures TradesOf(RollRun(stamp, key)(gg[i])) == Fold(gg[i], One, Plus, 0) {
      RollRunIs(stamp, key, gg[i]);
      CountOnes(gg[i]);
    }
    FoldGroups(gg, RollRun(stamp, key), One, TradesOf, Plus, 0);
    CountOnes(Flatten(gg));
  }

  lemma {:induction false} JoinStamps(gg: seq<seq<Trade>>, stamp: Stamp, key: Trade -> int)
    requires Parts(gg)
    ensures var rows := MapBy(gg, RollRun(stamp, key));
      && MaxMask(rows) == stamp.mask
      && Fold(rows, IngestedOf, Later, None) == Some(stamp.now)
  {
    var rows := MapBy(gg, RollRun(stamp, key));
    forall i | 0 <= i < |rows| ensures rows[i].mask == stamp.mask && rows[i].ingested == Some(stamp.now) {
      RollRunIs(stamp, key, gg[i]);
    }
    ConstantFold(rows, MaskOfBar, Larger, 0, stamp.mask);
    ConstantFold(rows, IngestedOf, Later, None, Some(stamp.now));
  }

  /** A row with the columns of a roll-up is the roll-up. */
  lemma {:induction false} RowIsRoll(key: Bar -> int, a: seq<Bar>, stamp: Stamp, all: seq<Trade>, sec: int)
    requires a != [] && all != []
    requires key(a[0]) == sec && a[0].symbol == stamp.symbol && a[0].venue == stamp.venue
    requires a[0].open == all[0].price && Last(a).close == Last(all).price
    requires MaxBy(a, A.HighOf) == MaxBy(all, Price) && MinBy(a, A.LowOf) == MinBy(all, Price)
    requires VolumeOf(a) == Volume(all) && CarriedTurnover(a) == Turnover(all)
    requires Fold(a, TradesOf, Plus, 0) == |all|
    requires MaxMask(a) == stamp.mask && Fold(a, IngestedOf, Later, None) == Some(stamp.now)
    ensures AggRow(key, a) == Roll(sec, stamp, all)
  {
  }

  /** A fine bar falls in the coarse window of its trades. */
  ghost predicate BarsNest(stamp: Stamp, fine: Trade -> int, bars: Bar -> int, trades: Trade -> int) {
    forall g: seq<Trade> :: g != [] ==> bars(RollRun(stamp, fine)(g)) == trades(g[0])
  }

  /** The fine bars of a coarse window aggregate to the bar of its trades. */
  lemma {:induction false} JoinTrades(gg: seq<seq<Trade>>, stamp: Stamp, fine: Trade -> int, bars: Bar -> int,
                                      trades: Trade -> int)
    requires Parts(gg) && BarsNest(stamp, fine, bars, trades)
    requires forall i :: 0 <= i < |gg| ==> NonNegativeTrades(gg[i])
    ensures Flatten(gg) != []
    ensures AggRow(bars, MapBy(gg, RollRun(stamp, fine))) == Roll(trades(Flatten(gg)[0]), stamp, Flatten(gg))
  {
    JoinVolume(gg, stamp, fine);
    JoinTurnover(gg, stamp, fine);
    JoinTradeExtremes(gg, stamp, fine);
    JoinCounts(gg, stamp, fine);
    JoinStamps(gg, stamp, fine);
    PartsJoin(gg);
    RollRunIs(stamp, fine, gg[0]);
    RollRunIs(stamp, fine, Last(gg));
    RowIsRoll(bars, MapBy(gg, RollRun(stamp, fine)), stamp, Flatten(gg), trades(Flatten(gg)[0]));
  }

  lemma {:induction false} RunsOfBars(s: seq<Trade>, stamp: Stamp, fine: Trade -> int, bars: Bar -> int,
                                      trades: Trade -> int)
    requires BarsNest(stamp, fine, bars, trades)
    ensures Runs(MapBy(Runs(s, fine), RollRun(stamp, fine)), bars)
         == MapBy(Runs(Runs(s, fine), GroupKey(trades)), MapGroup(RollRun(stamp, fine)))
  {
    var r := Runs(s, fine);
    RunsCut(s, fine);
    RunsOfMap(r, RollRun(stamp, fine), bars);
    forall g | g in r ensures Compose(RollRun(stamp, fine), bars)(g) == GroupKey(trades)(g) {
      var i :| 0 <= i < |r| && r[i] == g;
      assert Uniform(r[i], fine);
    }
    RunsKeyExtensional(r, Compose(RollRun(stamp, fine), bars), GroupKey(trades));
  }

  /** Rolling the fine bars up is building the coarse bars directly from the trades. */
  lemma {:induction false} RollUpIsDirect(s: seq<Trade>, stamp: Stamp, fine: Trade -> int, bars: Bar -> int,
                                          trades: Trade -> int)
    requires BarsNest(stamp, fine, bars, trades) && Coarsens(fine, trades) && NonNegativeTrades(s)
    ensures MapBy(Runs(BarsBy(s, fine, stamp), bars), WindowRow(bars)) == BarsBy(s, trades, stamp)
  {
    RunsOfBars(s, stamp, fine, bars, trades);
    RunsOfRuns(s, fine, trades);
    var rr := Runs(Runs(s, fine), GroupKey(trades));
    forall i | 0 <= i < |rr|
      ensures WindowRow(bars)(MapGroup(RollRun(stamp, fine))(rr[i])) == RollRun(stamp, trades)(FlattenGroup()(rr[i]))
    {
      RunParts(s, fine, trades, i);
      JoinTrades(rr[i], stamp, fine, bars, trades);
    }
    MapMapMeets(rr, MapGroup(RollRun(stamp, fine)), WindowRow(bars), FlattenGroup(), RollRun(stamp, trades));
  }

  lemma SecondsNest(stamp: Stamp, t: int)
    requires t > 0 && t % NS_PER_SECOND == 0
    ensures BarsNest(stamp, Second, BarWindow(t), TradeWindow(t)) && Coarsens(Second, TradeWindow(t))
  {
    forall g: seq<Trade> | g != [] ensures BarWindow(t)(RollRun(stamp, Second)(g)) == TradeWindow(t)(g[0]) {
      RollRunIs(stamp, Second, g);
      WindowOfWindow(g[0].ts, NS_PER_SECOND, t);
    }
    forall x: Trade, y: Trade | Second(x) == Second(y) ensures TradeWindow(t)(x) == TradeWindow(t)(y) {
      WindowOfWindow(x.ts, NS_PER_SECOND, t);
      WindowOfWindow(y.ts, NS_PER_SECOND, t);
    }
  }

  function TradeTs(x: Trade): int { x.ts }

  lemma VenueBarsIncrease(trades: seq<Trade>, symbol: string, venue: string, now: int)
    requires NonDecreasing(trades, TradeTs)
    ensures NonDecreasing(VenueBars(trades, symbol, venue, now), Checks.TsOf)
  {
    forall i, j | 0 <= i < j < |trades| ensures Second(trades[i]) <= Second(trades[j]) {
      assert TradeTs(trades[i]) <= TradeTs(trades[j]);
    }
    RunKeysIncrease(trades, Second);
    TapeTheorems.RunSeconds(trades, symbol, venue, now);
    var bars, ks := VenueBars(trades, symbol, venue, now), MapBy(Runs(trades, Second), GroupKey(Second));
    forall i, j | 0 <= i < j < |bars| ensures Checks.TsOf(bars[i]) <= Checks.TsOf(bars[j]) {
      assert MapBy(bars, Checks.TsOf)[i] == ks[i] && MapBy(bars, Checks.TsOf)[j] == ks[j];
      assert IntLe(ks[i], ks[j]);
    }
  }

  lemma {:induction false} SecondsAreWindows(trades: seq<Trade>, stamp: Stamp)
    ensures BarsBy(trades, Second, stamp) == BarsBy(trades, TradeWindow(NS_PER_SECOND), stamp)
  {
    var window := TradeWindow(NS_PER_SECOND);
    RunsKeyExtensional(trades, Second, window);
    var r := Runs(trades, Second);
    forall i | 0 <= i < |r| ensures RollRun(stamp, Second)(r[i]) == RollRun(stamp, window)(r[i]) {
      if r[i] != [] {
        RollRunIs(stamp, Second, r[i]);
        RollRunIs(stamp, window, r[i]);
      }
    }
  }

  /** Resampling a venue's one-second bars gives exactly the bars its trades would have given directly,
    * on every column, vwap included. */
  lemma ResamplingIsDirect(trades: seq<Trade>, t: int, symbol: string, venue: string, now: int)
    requires Timeframe(t) && NonDecreasing(trades, TradeTs) && NonNegativeTrades(trades)
    ensures Resampled(VenueBars(trades, symbol, venue, now), t) == DirectBars(trades, t, symbol, venue, now)
  {
    var stamp := VenueStamp(symbol, venue, now);
    if t == NS_PER_SECOND {
      SecondsAreWindows(trades, stamp);
    } else {
      VenueBarsIncrease(trades, symbol, venue, now);
      SortedWindows(VenueBars(trades, symbol, venue, now), t);
      SecondsNest(stamp, t);
      RollUpIsDirect(trades, stamp, Second, BarWindow(t), TradeWindow(t));
    }
  }
}
