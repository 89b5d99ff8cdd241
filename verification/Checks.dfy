/** The dataset's own checks on bars (`quality/checks.py`) and the coverage metric of its scorecard. */
module Checks {
  import opened Orders
  import opened Seqs
  import opened Grouping
  import opened Tape

  datatype Severity = Info | Minor | Major | Critical

  datatype Check = HighBelowBody | LowAboveBody | HighBelowLow | NegativeVolume | VwapOutside | NonPositivePrice
                 | OutOfOrder | Duplicate | OffGrid | OutsideVenueRange

  datatype Issue = Issue(check: Check, severity: Severity, count: nat)

  const PRICE_SLACK := 0.000000001
  const VWAP_SLACK := 0.000001

  function Report(check: Check, severity: Severity, count: nat): seq<Issue> {
    if count == 0 then [] else [Issue(check, severity, count)]
  }

  function Count<T>(s: seq<T>, p: T -> bool): nat { |Filter(s, p)| }

  predicate BadHigh(b: Bar) { b.high < Max(b.open, b.close) - PRICE_SLACK }

  predicate BadLow(b: Bar) { b.low > Min(b.open, b.close) + PRICE_SLACK }

  predicate BadRange(b: Bar) { b.high < b.low - PRICE_SLACK }

  predicate BadVolume(b: Bar) { b.volume < 0.0 }

  predicate BadVwap(b: Bar) { b.vwap < b.low - VWAP_SLACK || b.vwap > b.high + VWAP_SLACK }

  predicate BadPrice(b: Bar) { b.open <= 0.0 || b.high <= 0.0 || b.low <= 0.0 || b.close <= 0.0 }

  /** `check_bar_ohlc_invariants` */
  function OhlcIssues(bars: seq<Bar>): seq<Issue> {
    Report(HighBelowBody, Major, Count(bars, BadHigh))
    + Report(LowAboveBody, Major, Count(bars, BadLow))
    + Report(HighBelowLow, Critical, Count(bars, BadRange))
    + Report(NegativeVolume, Critical, Count(bars, BadVolume))
    + Report(VwapOutside, Major, Count(bars, BadVwap))
    + Report(NonPositivePrice, Critical, Count(bars, BadPrice))
  }

  function Diffs(ts: seq<int>): seq<int> {
    if |ts| < 2 then [] else Diffs(Init(ts)) + [Last(ts) - ts[|ts| - 2]]
  }

  predicate Backward(d: int) { d < 0 }

  predicate Still(d: int) { d == 0 }

  predicate OffSecond(ts: int) { ts % NS_PER_SECOND != 0 }

  function TsOf(b: Bar): int { b.ts }

  /** `check_bar_timestamps` */
  function TimestampIssues(bars: seq<Bar>): seq<Issue> {
    if |bars| < 2 then [] else
      var ts := MapBy(bars, TsOf);
      Report(OutOfOrder, Major, Count(Diffs(ts), Backward))
      + Report(Duplicate, Major, Count(Diffs(ts), Still))
      + Report(OffGrid, Minor, Count(ts, OffSecond))
  }

  lemma CountZero<T>(s: seq<T>, p: T -> bool)
    ensures Count(s, p) == 0 <==> forall i :: 0 <= i < |s| ==> !p(s[i])
  {
    FilterMembers(s, p);
    if Count(s, p) == 0 {
      assert forall x :: x in s && p(x) ==> x in Filter(s, p);
    } else {
      assert Filter(s, p)[0] in Filter(s, p);
    }
  }

  /** What the six price tests add up to. */
  predicate SoundBar(b: Bar) {
    !BadHigh(b) && !BadLow(b) && !BadRange(b) && !BadVolume(b) && !BadVwap(b) && !BadPrice(b)
  }

  /** The price check is silent exactly on frames of sound bars. */
  lemma OhlcSilentIff(bars: seq<Bar>)
    ensures OhlcIssues(bars) == [] <==> forall i :: 0 <= i < |bars| ==> SoundBar(bars[i])
  {
    CountZero(bars, BadHigh);
    CountZero(bars, BadLow);
    CountZero(bars, BadRange);
    CountZero(bars, BadVolume);
    CountZero(bars, BadVwap);
    CountZero(bars, BadPrice);
  }

  lemma {:induction false} DiffsAt(ts: seq<int>)
    ensures |Diffs(ts)| == if |ts| < 2 then 0 else |ts| - 1
    ensures forall i :: 0 <= i < |ts| - 1 ==> Diffs(ts)[i] == ts[i + 1] - ts[i]
  {
    if |ts| >= 2 {
      DiffsAt(Init(ts));
      forall i | 0 <= i < |ts| - 2 ensures Diffs(ts)[i] == ts[i + 1] - ts[i] {
        assert Diffs(ts)[i] == Diffs(Init(ts))[i];
      }
    }
  }

  lemma {:induction false} CountIsCard<T>(s: seq<T>, p: T -> bool, rows: set<int>)
    requires forall i :: i in rows <==> 0 <= i < |s| && p(s[i])
    ensures Count(s, p) == |rows|
  {
    if s == [] {
      forall i ensures i !in rows {}
      assert rows == {};
    } else {
      var n := |s| - 1;
      var fewer := rows - {n};
      forall i ensures i in fewer <==> 0 <= i < |Init(s)| && p(Init(s)[i]) {
        assert 0 <= i < n ==> Init(s)[i] == s[i];
      }
      CountIsCard(Init(s), p, fewer);
      assert s[n] == Last(s);
      assert n in rows ==> rows == fewer + {n};
      assert n !in rows ==> rows == fewer;
    }
  }

  /** `issues` reports the check exactly when there are rows to report, with their number. */
  ghost predicate Reports(issues: seq<Issue>, check: Check, severity: Severity, rows: set<int>) {
    forall s, n :: Issue(check, s, n) in issues <==> s == severity && n == |rows| && n > 0
  }

  lemma ReportHas(check: Check, severity: Severity, count: nat)
    ensures forall c, s, n ::
      Issue(c, s, n) in Report(check, severity, count) <==> c == check && s == severity && n == count && n > 0
  {
  }

  lemma HighRows(bars: seq<Bar>, rows: set<int>)
    requires forall i :: i in rows <==> (0 <= i < |bars|
      && (bars[i].high < bars[i].open - 0.000000001 || bars[i].high < bars[i].close - 0.000000001))
    ensures Count(bars, BadHigh) == |rows|
  {
    forall i ensures i in rows <==> 0 <= i < |bars| && BadHigh(bars[i]) {}
    CountIsCard(bars, BadHigh, rows);
  }

  lemma LowRows(bars: seq<Bar>, rows: set<int>)
    requires forall i :: i in rows <==> (0 <= i < |bars|
      && (bars[i].low > bars[i].open + 0.000000001 || bars[i].low > bars[i].close + 0.000000001))
    ensures Count(bars, BadLow) == |rows|
  {
    forall i ensures i in rows <==> 0 <= i < |bars| && BadLow(bars[i]) {}
    CountIsCard(bars, BadLow, rows);
  }

  lemma RangeRows(bars: seq<Bar>, rows: set<int>)
    requires forall i :: i in rows <==> 0 <= i < |bars| && bars[i].high < bars[i].low - 0.000000001
    ensures Count(bars, BadRange) == |rows|
  {
    forall i ensures i in rows <==> 0 <= i < |bars| && BadRange(bars[i]) {}
    CountIsCard(bars, BadRange, rows);
  }

  lemma VolumeRows(bars: seq<Bar>, rows: set<int>)
    requires forall i :: i in rows <==> 0 <= i < |bars| && bars[i].volume < 0.0
    ensures Count(bars, BadVolume) == |rows|
  {
    forall i ensures i in rows <==> 0 <= i < |bars| && BadVolume(bars[i]) {}
    CountIsCard(bars, BadVolume, rows);
  }

  lemma VwapRows(bars: seq<Bar>, rows: set<int>)
    requires forall i :: i in rows <==> (0 <= i < |bars|
      && (bars[i].vwap < bars[i].low - 0.000001 || bars[i].vwap > bars[i].high + 0.000001))
    ensures Count(bars, BadVwap) == |rows|
  {
    forall i ensures i in rows <==> 0 <= i < |bars| && BadVwap(bars[i]) {}
    CountIsCard(bars, BadVwap, rows);
  }

  lemma PriceRows(bars: seq<Bar>, rows: set<int>)
    requires forall i :: i in rows <==> (0 <= i < |bars|
      && (bars[i].open <= 0.0 || bars[i].high <= 0.0 || bars[i].low <= 0.0 || bars[i].close <= 0.0))
    ensures Count(bars, BadPrice) == |rows|
  {
    forall i ensures i in rows <==> 0 <= i < |bars| && BadPrice(bars[i]) {}
    CountIsCard(bars, BadPrice, rows);
  }

  /** What the OHLC check reports: given the rows that have each defect, their numbers under these severities. */
  lemma OhlcReports(bars: seq<Bar>, high: set<int>, low: set<int>, range: set<int>, volume: set<int>, vwap: set<int>,
                    price: set<int>)
    requires forall i :: i in high <==> (0 <= i < |bars|
      && (bars[i].high < bars[i].open - 0.000000001 || bars[i].high < bars[i].close - 0.000000001))
    requires forall i :: i in low <==> (0 <= i < |bars|
      && (bars[i].low > bars[i].open + 0.000000001 || bars[i].low > bars[i].close + 0.000000001))
    requires forall i :: i in range <==> 0 <= i < |bars| && bars[i].high < bars[i].low - 0.000000001
    requires forall i :: i in volume <==> 0 <= i < |bars| && bars[i].volume < 0.0
    requires forall i :: i in vwap <==> (0 <= i < |bars|
      && (bars[i].vwap < bars[i].low - 0.000001 || bars[i].vwap > bars[i].high + 0.000001))
    requires forall i :: i in price <==> (0 <= i < |bars|
      && (bars[i].open <= 0.0 || bars[i].high <= 0.0 || bars[i].low <= 0.0 || bars[i].close <= 0.0))
    ensures Reports(OhlcIssues(bars), HighBelowBody, Major, high)
    ensures Reports(OhlcIssues(bars), LowAboveBody, Major, low)
    ensures Reports(OhlcIssues(bars), HighBelowLow, Critical, range)
    ensures Reports(OhlcIssues(bars), NegativeVolume, Critical, volume)
    ensures Reports(OhlcIssues(bars), VwapOutside, Major, vwap)
    ensures Reports(OhlcIssues(bars), NonPositivePrice, Critical, price)
  {
    HighRows(bars, high);
    LowRows(bars, low);
    RangeRows(bars, range);
    VolumeRows(bars, volume);
    VwapRows(bars, vwap);
    PriceRows(bars, price);
    forall s, n
      ensures Issue(HighBelowBody, s, n) in OhlcIssues(bars) <==> s == Major && n == |high| && n > 0
      ensures Issue(LowAboveBody, s, n) in OhlcIssues(bars) <==> s == Major && n == |low| && n > 0
      ensures Issue(HighBelowLow, s, n) in OhlcIssues(bars) <==> s == Critical && n == |range| && n > 0
      ensures Issue(NegativeVolume, s, n) in OhlcIssues(bars) <==> s == Critical && n == |volume| && n > 0
      ensures Issue(VwapOutside, s, n) in OhlcIssues(bars) <==> s == Major && n == |vwap| && n > 0
      ensures Issue(NonPositivePrice, s, n) in OhlcIssues(bars) <==> s == Critical && n == |price| && n > 0
    {
      OhlcPart(bars, s, n);
    }
  }

  lemma InReport(x: Issue, check: Check, severity: Severity, count: nat)
    ensures x in Report(check, severity, count) <==> x == Issue(check, severity, count) && count > 0
  {
  }

  lemma OhlcIn(bars: seq<Bar>, x: Issue)
    ensures x in OhlcIssues(bars)
       <==> || (x == Issue(HighBelowBody, Major, Count(bars, BadHigh)) && x.count > 0)
            || (x == Issue(LowAboveBody, Major, Count(bars, BadLow)) && x.count > 0)
            || (x == Issue(HighBelowLow, Critical, Count(bars, BadRange)) && x.count > 0)
            || (x == Issue(NegativeVolume, Critical, Count(bars, BadVolume)) && x.count > 0)
            || (x == Issue(VwapOutside, Major, Count(bars, BadVwap)) && x.count > 0)
            || (x == Issue(NonPositivePrice, Critical, Count(bars, BadPrice)) && x.count > 0)
  {
    InReport(x, HighBelowBody, Major, Count(bars, BadHigh));
    InReport(x, LowAboveBody, Major, Count(bars, BadLow));
    InReport(x, HighBelowLow, Critical, Count(bars, BadRange));
    InReport(x, NegativeVolume, Critical, Count(bars, BadVolume));
    InReport(x, VwapOutside, Major, Count(bars, BadVwap));
    InReport(x, NonPositivePrice, Critical, Count(bars, BadPrice));
  }

  lemma OhlcPart(bars: seq<Bar>, s: Severity, n: nat)
    ensures Issue(HighBelowBody, s, n) in OhlcIssues(bars) <==> s == Major && n == Count(bars, BadHigh) && n > 0
    ensures Issue(LowAboveBody, s, n) in OhlcIssues(bars) <==> s == Major && n == Count(bars, BadLow) && n > 0
    ensures Issue(HighBelowLow, s, n) in OhlcIssues(bars) <==> s == Critical && n == Count(bars, BadRange) && n > 0
    ensures Issue(NegativeVolume, s, n) in OhlcIssues(bars) <==> s == Critical && n == Count(bars, BadVolume) && n > 0
    ensures Issue(VwapOutside, s, n) in OhlcIssues(bars) <==> s == Major && n == Count(bars, BadVwap) && n > 0
    ensures Issue(NonPositivePrice, s, n) in OhlcIssues(bars) <==> s == Critical && n == Count(bars, BadPrice) && n > 0
  {
    OhlcIn(bars, Issue(HighBelowBody, s, n));
    OhlcIn(bars, Issue(LowAboveBody, s, n));
    OhlcIn(bars, Issue(HighBelowLow, s, n));
    OhlcIn(bars, Issue(NegativeVolume, s, n));
    OhlcIn(bars, Issue(VwapOutside, s, n));
    OhlcIn(bars, Issue(NonPositivePrice, s, n));
  }

  lemma DiffsOfBars(bars: seq<Bar>)
    ensures var ds := Diffs(MapBy(bars, TsOf));
      && |ds| == (if |bars| < 2 then 0 else |bars| - 1)
      && forall i :: 0 <= i < |ds| ==> ds[i] == bars[i + 1].ts - bars[i].ts
  {
    DiffsAt(MapBy(bars, TsOf));
    forall i | 0 <= i < |bars| ensures MapBy(bars, TsOf)[i] == bars[i].ts {}
  }

  predicate StepsBack(bars: seq<Bar>, i: int)
    requires 0 <= i < |bars| - 1
  {
    bars[i + 1].ts < bars[i].ts
  }

  predicate StandsStill(bars: seq<Bar>, i: int)
    requires 0 <= i < |bars| - 1
  {
    bars[i + 1].ts == bars[i].ts
  }

  lemma BackRows(bars: seq<Bar>, rows: set<int>)
    requires rows == set i | 0 <= i < |bars| - 1 && StepsBack(bars, i)
    ensures Count(Diffs(MapBy(bars, TsOf)), Backward) == |rows|
  {
    var ds := Diffs(MapBy(bars, TsOf));
    DiffsOfBars(bars);
    forall i | i in rows ensures 0 <= i < |ds| && Backward(ds[i]) {}
    forall i | 0 <= i < |ds| && Backward(ds[i]) ensures i in rows { assert StepsBack(bars, i); }
    CountIsCard(ds, Backward, rows);
  }

  lemma StillRows(bars: seq<Bar>, rows: set<int>)
    requires rows == set i | 0 <= i < |bars| - 1 && StandsStill(bars, i)
    ensures Count(Diffs(MapBy(bars, TsOf)), Still) == |rows|
  {
    var ds := Diffs(MapBy(bars, TsOf));
    DiffsOfBars(bars);
    forall i | i in rows ensures 0 <= i < |ds| && Still(ds[i]) {}
    forall i | 0 <= i < |ds| && Still(ds[i]) ensures i in rows { assert StandsStill(bars, i); }
    CountIsCard(ds, Still, rows);
  }

  lemma OffRows(bars: seq<Bar>, rows: set<int>)
    requires forall i :: i in rows <==> 0 <= i < |bars| && bars[i].ts % 1_000_000_000 != 0
    ensures Count(MapBy(bars, TsOf), OffSecond) == |rows|
  {
    var ts := MapBy(bars, TsOf);
    forall i ensures i in rows <==> 0 <= i < |ts| && OffSecond(ts[i]) {}
    CountIsCard(ts, OffSecond, rows);
  }

  /** What the timestamp check reports of at least two bars: steps back, steps of nothing, times off the second. */
  lemma TimestampReports(bars: seq<Bar>, back: set<int>, still: set<int>, off: set<int>)
    requires |bars| >= 2
    requires back == set i | 0 <= i < |bars| - 1 && StepsBack(bars, i)
    requires still == set i | 0 <= i < |bars| - 1 && StandsStill(bars, i)
    requires forall i :: i in off <==> 0 <= i < |bars| && bars[i].ts % 1_000_000_000 != 0
    ensures Reports(TimestampIssues(bars), OutOfOrder, Major, back)
    ensures Reports(TimestampIssues(bars), Duplicate, Major, still)
    ensures Reports(TimestampIssues(bars), OffGrid, Minor, off)
  {
    BackRows(bars, back);
    StillRows(bars, still);
    OffRows(bars, off);
    ReportHas(OutOfOrder, Major, |back|);
    ReportHas(Duplicate, Major, |still|);
    ReportHas(OffGrid, Minor, |off|);
  }

  ghost predicate Increasing(ts: seq<int>) { forall i, j :: 0 <= i < j < |ts| ==> ts[i] < ts[j] }

  lemma {:induction false} StepsIncrease(ts: seq<int>)
    requires forall i :: 0 <= i < |ts| - 1 ==> ts[i] < ts[i + 1]
    ensures Increasing(ts)
  {
    if |ts| > 1 {
      var s := Init(ts);
      assert forall i :: 0 <= i < |s| - 1 ==> s[i] < s[i + 1];
      StepsIncrease(s);
      assert s[|s| - 1] < ts[|ts| - 1];
      forall i, j | 0 <= i < j < |ts| ensures ts[i] < ts[j] {
        if j < |s| { assert s[i] < s[j]; } else { assert i < |s| - 1 ==> s[i] < s[|s| - 1]; }
      }
    }
  }

  /** The timestamp check is silent exactly on strictly increasing whole seconds (one bar is never
    * looked at). */
  lemma TimestampSilentIff(bars: seq<Bar>)
    requires |bars| >= 2
    ensures TimestampIssues(bars) == [] <==>
      Increasing(MapBy(bars, TsOf)) && forall i :: 0 <= i < |bars| ==> bars[i].ts % NS_PER_SECOND == 0
  {
    var ts := MapBy(bars, TsOf);
    var ds := Diffs(ts);
    DiffsAt(ts);
    CountZero(ds, Backward);
    CountZero(ds, Still);
    CountZero(ts, OffSecond);
    if Count(ds, Backward) == 0 && Count(ds, Still) == 0 {
      forall i | 0 <= i < |ts| - 1 ensures ts[i] < ts[i + 1] {
        assert !Backward(ds[i]) && !Still(ds[i]);
      }
      StepsIncrease(ts);
    }
    if Increasing(ts) {
      forall i | 0 <= i < |ds| ensures !Backward(ds[i]) && !Still(ds[i]) {
        assert ts[i] < ts[i + 1];
      }
    }
    assert forall i :: 0 <= i < |bars| ==> (OffSecond(ts[i]) <==> bars[i].ts % NS_PER_SECOND != 0);
  }

  // ----- the consolidated close against the venues' closes -----

  function AtSecond(s: int): Bar -> bool { (b: Bar) => b.ts == s }

  function Closing(b: Bar): real { b.close }

  /** All venue bars of second `s`. */
  function BarsAt(perVenue: seq<seq<Bar>>, s: int): seq<Bar> { Filter(Flatten(perVenue), AtSecond(s)) }

  predicate Breaches(close: real, lo: real, hi: real) {
    || close < lo - (Abs(lo) * VWAP_SLACK + PRICE_SLACK)
    || close > hi + (Abs(hi) * VWAP_SLACK + PRICE_SLACK)
  }

  function OutsideRange(perVenue: seq<seq<Bar>>): Bar -> bool {
    (a: Bar) =>
      var vs := BarsAt(perVenue, a.ts);
      vs != [] && Breaches(a.close, MinBy(vs, Closing), MaxBy(vs, Closing))
  }

  /** `check_agg_within_venue_range` */
  function RangeIssues(agg: seq<Bar>, perVenue: seq<seq<Bar>>): seq<Issue> {
    if agg == [] || |perVenue| < 2 then []
    else Report(OutsideVenueRange, Major, Count(agg, OutsideRange(perVenue)))
  }

  lemma RangeSilentIff(agg: seq<Bar>, perVenue: seq<seq<Bar>>)
    ensures RangeIssues(agg, perVenue) == []
       <==> |perVenue| < 2 || forall b :: b in agg ==> !OutsideRange(perVenue)(b)
  {
    CountZero(agg, OutsideRange(perVenue));
    assert forall i :: 0 <= i < |agg| ==> agg[i] in agg;
  }

  ghost predicate EnvelopeAt(lo: map<int, real>, hi: map<int, real>, seen: seq<Bar>, s: int) {
    var vs := Filter(seen, AtSecond(s));
    s in lo && s in hi && vs != [] && lo[s] == MinBy(vs, Closing) && hi[s] == MaxBy(vs, Closing)
  }

  /** `lo` and `hi` hold, for each second of `seen`, the least and greatest close. */
  ghost predicate Envelope(lo: map<int, real>, hi: map<int, real>, seen: seq<Bar>) {
    && lo.Keys == hi.Keys == Keys(seen, TsOf)
    && forall s :: s in lo ==> EnvelopeAt(lo, hi, seen, s)
  }

  function Lower(lo: map<int, real>, b: Bar): map<int, real> {
    lo[b.ts := if b.ts in lo then Min(lo[b.ts], b.close) else b.close]
  }

  function Raise(hi: map<int, real>, b: Bar): map<int, real> {
    hi[b.ts := if b.ts in hi then Max(hi[b.ts], b.close) else b.close]
  }

  lemma EnvelopeNext(lo: map<int, real>, hi: map<int, real>, seen: seq<Bar>, b: Bar)
    requires Envelope(lo, hi, seen)
    ensures Envelope(Lower(lo, b), Raise(hi, b), seen + [b])
  {
    EnvelopeKeys(lo, hi, seen, b);
    forall s | s in Lower(lo, b) ensures EnvelopeAt(Lower(lo, b), Raise(hi, b), seen + [b], s) {
      EnvelopeNextAt(lo, hi, seen, b, s);
    }
  }

  lemma EnvelopeKeys(lo: map<int, real>, hi: map<int, real>, seen: seq<Bar>, b: Bar)
    requires lo.Keys == hi.Keys == Keys(seen, TsOf)
    ensures Lower(lo, b).Keys == Raise(hi, b).Keys == Keys(seen + [b], TsOf)
  {
    KeysSnoc(seen, b);
  }

  lemma EnvelopeNextAt(lo: map<int, real>, hi: map<int, real>, seen: seq<Bar>, b: Bar, s: int)
    requires Envelope(lo, hi, seen) && s in Lower(lo, b)
    ensures EnvelopeAt(Lower(lo, b), Raise(hi, b), seen + [b], s)
  {
    if s != b.ts {
      OtherSecond(lo, hi, seen, b, s);
    } else {
      OwnSecond(lo, hi, seen, b);
    }
  }

  lemma OtherSecond(lo: map<int, real>, hi: map<int, real>, seen: seq<Bar>, b: Bar, s: int)
    requires EnvelopeAt(lo, hi, seen, s) && s != b.ts
    ensures EnvelopeAt(Lower(lo, b), Raise(hi, b), seen + [b], s)
  {
    FilterSnoc(seen, b, AtSecond(s));
    assert Filter(seen + [b], AtSecond(s)) == Filter(seen, AtSecond(s));
  }

  lemma OwnSecond(lo: map<int, real>, hi: map<int, real>, seen: seq<Bar>, b: Bar)
    requires Envelope(lo, hi, seen)
    ensures EnvelopeAt(Lower(lo, b), Raise(hi, b), seen + [b], b.ts)
  {
    FilterSnoc(seen, b, AtSecond(b.ts));
    var was := Filter(seen, AtSecond(b.ts));
    if b.ts in lo {
      assert EnvelopeAt(lo, hi, seen, b.ts);
      MinSnoc(was, b, Closing);
      MaxSnoc(was, b, Closing);
    } else {
      NoneAt(seen, b.ts);
      assert was + [b] == [b];
    }
  }

  lemma KeysSnoc(seen: seq<Bar>, b: Bar)
    ensures Keys(seen + [b], TsOf) == Keys(seen, TsOf) + {b.ts}
  {
    var next := seen + [b];
    forall s ensures s in Keys(next, TsOf) <==> s in Keys(seen, TsOf) + {b.ts} {
      if s in Keys(seen, TsOf) {
        var i :| 0 <= i < |seen| && TsOf(seen[i]) == s;
        assert next[i] == seen[i];
      }
      assert next[|seen|] == b;
    }
  }

  lemma {:induction false} NoneAt(seen: seq<Bar>, s: int)
    requires s !in Keys(seen, TsOf)
    ensures Filter(seen, AtSecond(s)) == []
  {
    forall b | b in seen ensures !AtSecond(s)(b) {
      var i :| 0 <= i < |seen| && seen[i] == b;
      assert TsOf(seen[i]) in Keys(seen, TsOf);
    }
    FilterNone(seen, AtSecond(s));
  }

  /** One frame folded into the envelope. */
  method FoldFrame(lo0: map<int, real>, hi0: map<int, real>, ghost before: seq<Bar>, df: seq<Bar>)
    returns (lo: map<int, real>, hi: map<int, real>)
    requires Envelope(lo0, hi0, before)
    ensures Envelope(lo, hi, before + df)
  {
    lo, hi := lo0, hi0;
    assert before + df[..0] == before;
    for j := 0 to |df|
      invariant Envelope(lo, hi, before + df[..j])
    {
      EnvelopeNext(lo, hi, before + df[..j], df[j]);
      ConcatNext(before, df, j);
      lo, hi := Lower(lo, df[j]), Raise(hi, df[j]);
    }
    TakeAll(df);
  }

  /** The folding loop of the check. */
  method FoldRange(perVenue: seq<seq<Bar>>) returns (lo: map<int, real>, hi: map<int, real>)
    ensures Envelope(lo, hi, Flatten(perVenue))
  {
    lo, hi := map[], map[];
    for i := 0 to |perVenue|
      invariant Envelope(lo, hi, Flatten(perVenue[..i]))
    {
      TakeNext(perVenue, i);
      FlattenSnoc(perVenue[..i], perVenue[i]);
      lo, hi := FoldFrame(lo, hi, Flatten(perVenue[..i]), perVenue[i]);
    }
    TakeAll(perVenue);
  }

  method CheckAggWithinVenueRange(agg: seq<Bar>, perVenue: seq<seq<Bar>>) returns (issues: seq<Issue>)
    ensures issues == RangeIssues(agg, perVenue)
  {
    if agg == [] || |perVenue| < 2 {
      return [];
    }
    var lo, hi := FoldRange(perVenue);
    var n: nat := 0;
    for i := 0 to |agg|
      invariant n == Count(agg[..i], OutsideRange(perVenue))
    {
      TakeNext(agg, i);
      FilterSnoc(agg[..i], agg[i], OutsideRange(perVenue));
      OutsideIsBreach(lo, hi, perVenue, agg[i]);
      if agg[i].ts in lo && Breaches(agg[i].close, lo[agg[i].ts], hi[agg[i].ts]) {
        n := n + 1;
      }
    }
    TakeAll(agg);
    issues := Report(OutsideVenueRange, Major, n);
  }

  lemma {:induction false} OutsideIsBreach(lo: map<int, real>, hi: map<int, real>, perVenue: seq<seq<Bar>>, a: Bar)
    requires Envelope(lo, hi, Flatten(perVenue))
    ensures OutsideRange(perVenue)(a) <==> a.ts in lo && Breaches(a.close, lo[a.ts], hi[a.ts])
  {
    if a.ts !in lo { NoneAt(Flatten(perVenue), a.ts); }
  }

  // ----- coverage -----

  function SecondsOf(bars: seq<Bar>): set<int> { set i | 0 <= i < |bars| :: bars[i].ts / NS_PER_SECOND }

  /** `round(x, 2)`: to the nearest hundredth, ties to even. */
  function Round2(x: real): real {
    var y := x * 100.0;
    var f := y.Floor;
    var d := y - f as real;
    (if d < 0.5 || (d == 0.5 && f % 2 == 0) then f else f + 1) as real / 100.0
  }

  /** `_agg_coverage_of_union` */
  function CoverageOf(aggSecs: set<int>, union: set<int>): Option<real> {
    if union == {} then None
    else Some(Round2(100.0 * (|aggSecs * union| as real) / (|union| as real)))
  }

  method AggCoverageOfUnion(agg: seq<Bar>, perVenue: seq<seq<Bar>>) returns (pct: Option<real>, n: nat)
    ensures pct == CoverageOf(SecondsOf(agg), SecondsOf(Flatten(perVenue)))
    ensures n == |SecondsOf(Flatten(perVenue))|
  {
    var union: set<int> := {};
    for i := 0 to |perVenue|
      invariant union == SecondsOf(Flatten(perVenue[..i]))
    {
      TakeNext(perVenue, i);
      FlattenSnoc(perVenue[..i], perVenue[i]);
      SecondsConcat(Flatten(perVenue[..i]), perVenue[i]);
      union := union + SecondsOf(perVenue[i]);
    }
    TakeAll(perVenue);
    if union == {} {
      return None, 0;
    }
    pct, n := CoverageOf(SecondsOf(agg), union), |union|;
  }

  lemma SecondsConcat(a: seq<Bar>, b: seq<Bar>)
    ensures SecondsOf(a + b) == SecondsOf(a) + SecondsOf(b)
  {
    var c := a + b;
    forall s ensures s in SecondsOf(c) <==> s in SecondsOf(a) + SecondsOf(b) {
      if s in SecondsOf(a) {
        var i :| 0 <= i < |a| && a[i].ts / NS_PER_SECOND == s;
        assert c[i] == a[i];
      }
      if s in SecondsOf(b) {
        var i :| 0 <= i < |b| && b[i].ts / NS_PER_SECOND == s;
        assert c[|a| + i] == b[i];
      }
    }
  }

  /** Rounding to hundredths: a multiple of a hundredth at most half of one away, the even one of two as near. */
  lemma Round2Nearest(x: real) returns (k: int)
    ensures Round2(x) == k as real / 100.0 && -0.5 <= x * 100.0 - k as real <= 0.5
    ensures x * 100.0 - k as real == 0.5 || x * 100.0 - k as real == -0.5 ==> k % 2 == 0
  {
    var f := (x * 100.0).Floor;
    var d := x * 100.0 - f as real;
    k := if d < 0.5 || (d == 0.5 && f % 2 == 0) then f else f + 1;
  }

  lemma SecondsAre(bars: seq<Bar>, secs: set<int>)
    requires forall s :: s in secs <==> exists i :: 0 <= i < |bars| && bars[i].ts / 1_000_000_000 == s
    ensures SecondsOf(bars) == secs
  {
    forall s ensures s in SecondsOf(bars) <==> s in secs {}
  }

  /** The score: the tape's share of the venues' seconds in per cent, rounded to hundredths; none without any. */
  lemma CoverageIs(agg: seq<Bar>, own: seq<Bar>, aggSecs: set<int>, ownSecs: set<int>) returns (k: int)
    requires forall s :: s in aggSecs <==> exists i :: 0 <= i < |agg| && agg[i].ts / 1_000_000_000 == s
    requires forall s :: s in ownSecs <==> exists i :: 0 <= i < |own| && own[i].ts / 1_000_000_000 == s
    ensures ownSecs == {} ==> CoverageOf(SecondsOf(agg), SecondsOf(own)) == None
    ensures ownSecs != {} ==> CoverageOf(SecondsOf(agg), SecondsOf(own)) == Some(k as real / 100.0)
    ensures ownSecs != {} ==>
      -0.5 <= 10000.0 * (|aggSecs * ownSecs| as real) / (|ownSecs| as real) - k as real <= 0.5
  {
    SecondsAre(agg, aggSecs);
    SecondsAre(own, ownSecs);
    k := 0;
    if ownSecs != {} {
      k := Round2Nearest(100.0 * (|aggSecs * ownSecs| as real) / (|ownSecs| as real));
      ScaleHundred(|aggSecs * ownSecs| as real, |ownSecs| as real);
    }
  }

  lemma ScaleHundred(a: real, b: real)
    requires b > 0.0
    ensures 100.0 * a / b * 100.0 == 10000.0 * a / b
  {
  }

  /** Full coverage scores exactly 100. */
  lemma FullCoverage(aggSecs: set<int>, union: set<int>)
    requires union != {} && union <= aggSecs
    ensures CoverageOf(aggSecs, union) == Some(100.0)
  {
    assert aggSecs * union == union;
    var u := |union| as real;
    assert 100.0 * u / u == 100.0;
  }
}
