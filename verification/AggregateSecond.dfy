/** `aggregate_second`: the legacy combiner of per-venue bars. */
module AggregateSecond {
  import opened Orders
  import opened Seqs
  import opened Stats
  import opened Tape
  import opened RobustFilter
  import opened Provenance

  function VenueOf(b: Bar): string { b.venue }

  function HighOf(b: Bar): real { b.high }

  function LowOf(b: Bar): real { b.low }

  function CloseOf(b: Bar): real { b.close }

  function VolumeOf(b: Bar): real { b.volume }

  function OpenTurnover(b: Bar): real { b.open * b.volume }

  function CloseTurnover(b: Bar): real { b.close * b.volume }

  function Eligible(excluded: set<string>): Bar -> bool { (b: Bar) => b.volume > 0.0 && b.venue !in excluded }

  function CloseWithin(med: real, thresh: real): Bar -> bool { (b: Bar) => Abs(b.close - med) <= thresh }

  /** The combiner's filter on closes abstains below this many venues. */
  const MIN_VENUES := 3

  function KeptBars(bars: seq<Bar>, sigma: real): seq<Bar> {
    if |bars| < MIN_VENUES then bars else
      var closes := MapBy(bars, CloseOf);
      Filter(bars, CloseWithin(Median(closes), Threshold(closes, sigma)))
  }

  function Blend(kept: seq<Bar>, index: map<string, nat>, now: int): Option<Bar> {
    var v := SumBy(kept, VolumeOf);
    if kept == [] || v <= 0.0 then None
    else Some(Bar(kept[0].ts, kept[0].symbol, "agg",
                  SumBy(kept, OpenTurnover) / v, MaxBy(kept, HighOf), MinBy(kept, LowOf),
                  SumBy(kept, CloseTurnover) / v,
                  v, SumBy(kept, VwapTurnover) / v, CountTrades(kept),
                  MaskOf(MapBy(kept, VenueOf), index), Some(now)))
  }

  function CountTrades(bars: seq<Bar>): int {
    if bars == [] then 0 else CountTrades(Init(bars)) + Last(bars).trades
  }

  function Combine(bars: seq<Bar>, sigma: real, index: Option<map<string, nat>>, excluded: set<string>, now: int)
    : Option<Bar>
  {
    var eligible := Filter(bars, Eligible(excluded));
    if eligible == [] then None else
      var idx := if index.Some? then index.value else VenueBitmaskIndex(MapBy(eligible, VenueOf));
      Blend(KeptBars(eligible, sigma), idx, now)
  }

  function Closes(bars: seq<Bar>): seq<real> { MapBy(bars, CloseOf) }

  /** With a band of one MAD or more there is a bar exactly when some bar is eligible; and from three eligible
    * bars on, wherever a strict majority of their closes is, the blended close is confined around it. */
  method AggregateSecond(bars: seq<Bar>, sigma: real, index: Option<map<string, nat>>, excluded: set<string>, now: int)
    returns (agg: Option<Bar>)
    ensures agg == Combine(bars, sigma, index, excluded, now)
    ensures sigma * MAD_TO_SIGMA >= 1.0 ==>
      (agg.Some? <==> exists i :: 0 <= i < |bars| && bars[i].volume > 0.0 && bars[i].venue !in excluded)
    ensures forall lo, hi :: MajorityIn(Filter(bars, Eligible(excluded)), lo, hi) && agg.Some? ==>
      Confined(Closes(Filter(bars, Eligible(excluded))), sigma, lo, hi, agg.value.close)
  {
    BlendedIff(bars, sigma, index, excluded, now);
    forall lo, hi
      | MajorityIn(Filter(bars, Eligible(excluded)), lo, hi) && Combine(bars, sigma, index, excluded, now).Some?
      ensures Confined(Closes(Filter(bars, Eligible(excluded))), sigma, lo, hi,
                       Combine(bars, sigma, index, excluded, now).value.close)
    {
      CloseBreakdown(bars, sigma, index, excluded, now, lo, hi);
    }
    var eligible := Filter(bars, Eligible(excluded));
    if eligible == [] {
      return None;
    }
    var idx := if index.Some? then index.value else VenueBitmaskIndex(MapBy(eligible, VenueOf));
    agg := BlendBars(KeptBars(eligible, sigma), idx, now);
  }

  /** The second half: roll up the kept bars, with the mask accumulated in a loop. */
  method BlendBars(kept: seq<Bar>, index: map<string, nat>, now: int) returns (agg: Option<Bar>)
    ensures agg == Blend(kept, index, now)
  {
    var v := SumBy(kept, VolumeOf);
    if kept == [] || v <= 0.0 {
      return None;
    }
    var mask, trades: int := 0, 0;
    for i := 0 to |kept|
      invariant mask == MaskOf(MapBy(kept[..i], VenueOf), index)
      invariant trades == CountTrades(kept[..i])
    {
      MaskNext(kept, i, index);
      CountNext(kept, i);
      mask := Bits.Or(mask, Get(index, kept[i].venue));
      trades := trades + kept[i].trades;
    }
    TakeAll(kept);
    agg := Some(Bar(kept[0].ts, kept[0].symbol, "agg",
                    SumBy(kept, OpenTurnover) / v, MaxBy(kept, HighOf), MinBy(kept, LowOf),
                    SumBy(kept, CloseTurnover) / v,
                    v, SumBy(kept, VwapTurnover) / v, trades, mask, Some(now)));
  }

  lemma MaskNext(kept: seq<Bar>, i: nat, index: map<string, nat>)
    requires i < |kept|
    ensures MaskOf(MapBy(kept[..i + 1], VenueOf), index)
         == Bits.Or(MaskOf(MapBy(kept[..i], VenueOf), index), Get(index, kept[i].venue))
  {
    var a, b := MapBy(kept[..i], VenueOf), MapBy(kept[..i + 1], VenueOf);
    var ma, mb := MapBy(a, Lookup(index)), MapBy(b, Lookup(index));
    assert mb == ma + [Get(index, kept[i].venue)];
  }

  lemma CountNext(kept: seq<Bar>, i: nat)
    requires i < |kept|
    ensures CountTrades(kept[..i + 1]) == CountTrades(kept[..i]) + kept[i].trades
  {
    assert Init(kept[..i + 1]) == kept[..i];
  }

  // ----- what the combiner guarantees -----

  /** A bar seen as one trade at its close: the filter on bars is then the filter on trades. */
  function AsTrade(b: Bar): Trade { Trade(b.ts, None, Some(b.venue), b.close, b.volume, "") }

  function AsTrades(bars: seq<Bar>): seq<Trade> { MapBy(bars, AsTrade) }

  lemma {:induction false} SumsAsTrades(bars: seq<Bar>)
    ensures SumBy(bars, VolumeOf) == Volume(AsTrades(bars)) && SumBy(bars, CloseTurnover) == Turnover(AsTrades(bars))
  {
    if bars != [] {
      SumsAsTrades(Init(bars));
      assert AsTrades(bars) == AsTrades(Init(bars)) + [AsTrade(Last(bars))];
      SumSnoc(AsTrades(Init(bars)), AsTrade(Last(bars)), Size);
      SumSnoc(AsTrades(Init(bars)), AsTrade(Last(bars)), Notional);
    }
  }

  /** The kept bars are those whose closes survive. */
  lemma KeptAsTrades(bars: seq<Bar>, sigma: real)
    requires |bars| >= MIN_VENUES
    ensures Prices(AsTrades(bars)) == Closes(bars)
    ensures AsTrades(KeptBars(bars, sigma))
         == Filter(AsTrades(bars), Within(Median(Closes(bars)), Threshold(Closes(bars), sigma)))
  {
    var med, thresh := Median(Closes(bars)), Threshold(Closes(bars), sigma);
    FilterMap(bars, AsTrade, Within(med, thresh), CloseWithin(med, thresh));
  }

  lemma KeptMembers(bars: seq<Bar>, sigma: real)
    ensures forall b :: b in KeptBars(bars, sigma) ==> b in bars
  {
    if |bars| >= MIN_VENUES {
      FilterMembers(bars, CloseWithin(Median(Closes(bars)), Threshold(Closes(bars), sigma)));
    }
  }

  /** What the filter on closes does: from three bars on, the kept ones are in order exactly those whose close is
    * near the median close; of fewer all are kept. */
  lemma {:induction false} KeptAre(bars: seq<Bar>, sigma: real, med: real, mad: real, near: Bar -> bool)
    requires SpreadAround(Closes(bars), med, mad)
    requires forall b: Bar :: near(b) <==> Near(b.close, med, mad, sigma)
    ensures KeptBars(bars, sigma) == if |bars| >= 3 then Filter(bars, near) else bars
  {
    SpreadIsMad(Closes(bars), med, mad);
    NearCloses(bars, sigma, med, mad, near, Threshold(Closes(bars), sigma));
  }

  lemma {:induction false} NearCloses(bars: seq<Bar>, sigma: real, med: real, mad: real, near: Bar -> bool,
                                      thresh: real)
    requires mad >= 0.0 && thresh == Band(med, mad, sigma)
    requires forall b: Bar :: near(b) <==> Near(b.close, med, mad, sigma)
    ensures Filter(bars, near) == Filter(bars, CloseWithin(med, thresh))
  {
    forall b | b in bars ensures near(b) <==> CloseWithin(med, thresh)(b) { NearIsWithin(b.close, med, mad, sigma); }
    FilterAgrees(bars, near, CloseWithin(med, thresh));
  }

  lemma {:induction false} SumAgrees(bars: seq<Bar>, f: Bar -> real, g: Bar -> real)
    requires forall b :: b in bars ==> f(b) == g(b)
    ensures SumBy(bars, f) == SumBy(bars, g)
  {
    if bars != [] {
      assert bars == Init(bars) + [Last(bars)];
      SumAgrees(Init(bars), f, g);
    }
  }

  /** The combined bar of the kept ones: extremes, totals, and open, close and vwap weighted by volume. */
  lemma {:induction false} CombinedColumns(kept: seq<Bar>, index: map<string, nat>, now: int, volume: Bar -> real,
                                           open: Bar -> real, close: Bar -> real, vwap: Bar -> real)
    requires kept != [] && forall b :: b in kept ==> b.volume > 0.0
    requires forall b: Bar :: volume(b) == b.volume && open(b) == b.open * b.volume
    requires forall b: Bar :: close(b) == b.close * b.volume && vwap(b) == b.vwap * b.volume
    ensures Blend(kept, index, now).Some?
    ensures var c := Blend(kept, index, now).value;
      && c.ts == kept[0].ts && c.symbol == kept[0].symbol && c.venue == "agg" && c.ingested == Some(now)
      && c.volume == SumBy(kept, volume) > 0.0
      && Product(c.open, c.volume) == SumBy(kept, open) && Product(c.close, c.volume) == SumBy(kept, close)
      && Product(c.vwap, c.volume) == SumBy(kept, vwap)
      && (forall i :: 0 <= i < |kept| ==> c.low <= kept[i].low && kept[i].high <= c.high)
      && (exists i :: 0 <= i < |kept| && c.low == kept[i].low) && exists i :: 0 <= i < |kept| && c.high == kept[i].high
  {
    BlendSome(kept, index, now);
    SumAgrees(kept, volume, VolumeOf);
    SumAgrees(kept, open, OpenTurnover);
    SumAgrees(kept, close, CloseTurnover);
    VwapSumAgrees(kept, vwap);
    SumPositive(kept, VolumeOf);
    var v := SumBy(kept, VolumeOf);
    DivideBack(SumBy(kept, OpenTurnover), v);
    DivideBack(SumBy(kept, CloseTurnover), v);
    DivideBack(SumBy(kept, VwapTurnover), v);
    ExtremesReached(kept);
  }

  lemma {:induction false} VwapSumAgrees(kept: seq<Bar>, vwap: Bar -> real)
    requires forall b: Bar :: vwap(b) == b.vwap * b.volume
    ensures SumBy(kept, vwap) == SumBy(kept, VwapTurnover)
  {
    SumAgrees(kept, vwap, VwapTurnover);
  }

  lemma {:induction false} ExtremesReached(kept: seq<Bar>)
    requires kept != []
    ensures forall i :: 0 <= i < |kept| ==> MinBy(kept, LowOf) <= kept[i].low && kept[i].high <= MaxBy(kept, HighOf)
    ensures exists i :: 0 <= i < |kept| && MinBy(kept, LowOf) == kept[i].low
    ensures exists i :: 0 <= i < |kept| && MaxBy(kept, HighOf) == kept[i].high
  {
    forall i | 0 <= i < |kept| ensures MinBy(kept, LowOf) <= kept[i].low && kept[i].high <= MaxBy(kept, HighOf) {
      assert MinBy(kept, LowOf) <= LowOf(kept[i]) && HighOf(kept[i]) <= MaxBy(kept, HighOf);
    }
    var i :| 0 <= i < |kept| && LowOf(kept[i]) == MinBy(kept, LowOf);
    var j :| 0 <= j < |kept| && HighOf(kept[j]) == MaxBy(kept, HighOf);
    assert kept[i].low == MinBy(kept, LowOf) && kept[j].high == MaxBy(kept, HighOf);
  }

  /** With a band of at least one MAD at least half of the bars, rounded up, are kept. */
  lemma HalfKept(bars: seq<Bar>, sigma: real)
    requires bars != [] && sigma * MAD_TO_SIGMA >= 1.0
    ensures |KeptBars(bars, sigma)| >= (|bars| + 1) / 2
  {
    if |bars| >= MIN_VENUES {
      KeptAsTrades(bars, sigma);
      BandCoversMad(Closes(bars), sigma);
      HalfWithin(AsTrades(bars), Median(Closes(bars)), Threshold(Closes(bars), sigma));
    }
  }

  lemma BlendSome(kept: seq<Bar>, index: map<string, nat>, now: int)
    requires forall b :: b in kept ==> b.volume > 0.0
    ensures Blend(kept, index, now).Some? <==> kept != []
  {
    if kept != [] { SumPositive(kept, VolumeOf); }
  }

  ghost predicate AnyEligible(bars: seq<Bar>, excluded: set<string>) {
    exists i :: 0 <= i < |bars| && bars[i].volume > 0.0 && bars[i].venue !in excluded
  }

  lemma {:induction false} EligibleIff(bars: seq<Bar>, excluded: set<string>)
    ensures Filter(bars, Eligible(excluded)) != [] <==> AnyEligible(bars, excluded)
    ensures forall b :: b in Filter(bars, Eligible(excluded)) ==> b.volume > 0.0
  {
    var p := Eligible(excluded);
    FilterMembers(bars, p);
    if i :| 0 <= i < |bars| && p(bars[i]) { assert bars[i] in Filter(bars, p); }
    if Filter(bars, p) != [] {
      var b := Filter(bars, p)[0];
      assert b in Filter(bars, p);
      var i :| 0 <= i < |bars| && bars[i] == b;
      assert p(bars[i]);
    }
  }

  lemma BlendedIff(bars: seq<Bar>, sigma: real, index: Option<map<string, nat>>, excluded: set<string>, now: int)
    ensures sigma * MAD_TO_SIGMA >= 1.0 ==>
      (Combine(bars, sigma, index, excluded, now).Some? <==> AnyEligible(bars, excluded))
  {
    var eligible := Filter(bars, Eligible(excluded));
    EligibleIff(bars, excluded);
    if eligible != [] && sigma * MAD_TO_SIGMA >= 1.0 {
      HalfKept(eligible, sigma);
      KeptMembers(eligible, sigma);
      var idx := if index.Some? then index.value else VenueBitmaskIndex(MapBy(eligible, VenueOf));
      BlendSome(KeptBars(eligible, sigma), idx, now);
    }
  }

  /** Two venues closing at 99 and two at 101. */
  function Disagreeing(i: nat): Bar {
    var p := if i < 2 then 99.0 else 101.0;
    Bar(0, "", NthVenue(i), p, p, p, p, 1.0, p, 1, 0, None)
  }

  const FOUR_BARS := [Disagreeing(0), Disagreeing(1), Disagreeing(2), Disagreeing(3)]

  lemma NarrowBandKeepsNothing(sigma: real)
    requires sigma * MAD_TO_SIGMA < 1.0
    ensures KeptBars(FOUR_BARS, sigma) == []
  {
    assert Closes(FOUR_BARS) == Prices(Split(2));
    MedianOfSplit(2);
    FilterNone(FOUR_BARS, CloseWithin(100.0, Threshold(Closes(FOUR_BARS), sigma)));
  }

  lemma NarrowBandBlendsNothing(sigma: real, index: Option<map<string, nat>>, now: int)
    requires sigma * MAD_TO_SIGMA < 1.0
    ensures AnyEligible(FOUR_BARS, {}) && Combine(FOUR_BARS, sigma, index, {}, now).None?
  {
    NarrowBandKeepsNothing(sigma);
    FilterAll(FOUR_BARS, Eligible({}));
    assert FOUR_BARS[0].volume > 0.0;
  }

  /** The combiner yields a bar for every second with an eligible venue bar exactly when the band is at least
    * one MAD wide. */
  lemma BlendsEverySecondIff(sigma: real, index: Option<map<string, nat>>, now: int)
    ensures sigma * MAD_TO_SIGMA >= 1.0
       <==> forall bars, excluded :: AnyEligible(bars, excluded) ==> Combine(bars, sigma, index, excluded, now).Some?
  {
    if sigma * MAD_TO_SIGMA >= 1.0 {
      forall bars, excluded | AnyEligible(bars, excluded) ensures Combine(bars, sigma, index, excluded, now).Some? {
        BlendedIff(bars, sigma, index, excluded, now);
      }
    } else {
      NarrowBandBlendsNothing(sigma, index, now);
    }
  }

  /** At least three bars, with a strict majority of their closes in `[lo, hi]`. */
  ghost predicate MajorityIn(bars: seq<Bar>, lo: real, hi: real) {
    |bars| >= MIN_VENUES && 2 * CountIn(Closes(bars), lo, hi) > |bars|
  }

  lemma KeptConfined(bars: seq<Bar>, sigma: real, lo: real, hi: real, b: Bar)
    requires MajorityIn(bars, lo, hi) && b in KeptBars(bars, sigma)
    ensures Confined(Closes(bars), sigma, lo, hi, b.close)
  {
    MajorityHoldsBoth(Closes(bars), lo, hi);
    KeptClose(bars, sigma, b);
    BandArithmetic(Median(Closes(bars)), Mad(Closes(bars)), sigma, lo, hi, b.close);
  }

  lemma KeptClose(bars: seq<Bar>, sigma: real, b: Bar)
    requires |bars| >= MIN_VENUES && b in KeptBars(bars, sigma)
    ensures Abs(b.close - Median(Closes(bars))) <= Threshold(Closes(bars), sigma)
  {
    var p := CloseWithin(Median(Closes(bars)), Threshold(Closes(bars), sigma));
    FilterMembers(bars, p);
    assert p(b);
  }

  lemma {:induction false} MeanClose(kept: seq<Bar>, lo: real, hi: real)
    requires SumBy(kept, VolumeOf) > 0.0 && forall b :: b in kept ==> lo <= b.close <= hi && b.volume > 0.0
    ensures lo <= SumBy(kept, CloseTurnover) / SumBy(kept, VolumeOf) <= hi
  {
    SumsAsTrades(kept);
    forall t | t in AsTrades(kept) ensures lo <= t.price <= hi && t.size >= 0.0 {
      var i :| 0 <= i < |kept| && AsTrades(kept)[i] == t;
      assert kept[i] in kept;
    }
    MeanWithin(AsTrades(kept), lo, hi);
  }

  /** Breakdown bound of the legacy path: from three eligible bars on, with a strict majority of closes in
    * `[lo, hi]`, the blended close is confined as a survivor of the tape's filter is, whatever the minority. */
  lemma {:induction false} CloseBreakdown(bars: seq<Bar>, sigma: real, index: Option<map<string, nat>>,
                                          excluded: set<string>, now: int, lo: real, hi: real)
    requires MajorityIn(Filter(bars, Eligible(excluded)), lo, hi)
    requires Combine(bars, sigma, index, excluded, now).Some?
    ensures Confined(Closes(Filter(bars, Eligible(excluded))), sigma, lo, hi,
                     Combine(bars, sigma, index, excluded, now).value.close)
  {
    var eligible := Filter(bars, Eligible(excluded));
    var ps, kept := Closes(eligible), KeptBars(eligible, sigma);
    EligibleIff(bars, excluded);
    KeptMembers(eligible, sigma);
    var a := LeastSurvivor(Median(ps), Mad(ps), sigma, lo, hi);
    var b := GreatestSurvivor(Median(ps), Mad(ps), sigma, lo, hi);
    forall x | x in kept ensures a <= x.close <= b && x.volume > 0.0 { KeptConfined(eligible, sigma, lo, hi, x); }
    MeanClose(kept, a, b);
  }
}
