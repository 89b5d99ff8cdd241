/** `_robust_filter`: the median/MAD outlier filter of one second. */
module RobustFilter {
  import opened Orders
  import opened Seqs
  import opened Stats
  import opened Tape

  const MAD_TO_SIGMA := 1.4826

  function Prices(ts: seq<Trade>): seq<real> { MapBy(ts, Price) }

  function Deviation(med: real): real -> real { (p: real) => Abs(p - med) }

  function AbsDevs(ps: seq<real>, med: real): seq<real> { MapBy(ps, Deviation(med)) }

  /** Median absolute deviation. */
  function Mad(ps: seq<real>): real
    requires ps != []
  {
    Median(AbsDevs(ps, Median(ps)))
  }

  /** The survival test `abs(t["price"] - med) <= thresh`. */
  function Within(med: real, thresh: real): Trade -> bool { (t: Trade) => Abs(t.price - med) <= thresh }

  /** `{t.get("venue") for t in trades}`: trades without a venue count as one more venue. */
  function VenuesPresent(ts: seq<Trade>): set<Option<string>> { set i | 0 <= i < |ts| :: ts[i].venue }

  predicate Engages(ts: seq<Trade>, minVenues: int) { |VenuesPresent(ts)| >= minVenues }

  function Band(med: real, mad: real, madK: real): real {
    if mad <= 0.0 then Max(med * 0.001, 0.000000000001) else madK * (mad * MAD_TO_SIGMA)
  }

  function Threshold(ps: seq<real>, madK: real): real
    requires ps != []
  {
    Band(Median(ps), Mad(ps), madK)
  }

  /** Surviving trades, and the median (`nan` for no trades). */
  datatype Filtered = Filtered(kept: seq<Trade>, median: Option<real>)

  function Robust(ts: seq<Trade>, madK: real, minVenues: int): Filtered {
    if ts == [] then Filtered([], None) else
      var ps := Prices(ts);
      var med := Median(ps);
      if !Engages(ts, minVenues) then Filtered(ts, Some(med))
      else Filtered(Filter(ts, Within(med, Threshold(ps, madK))), Some(med))
  }

  /** The filter leaves a second as it is exactly when too few venues trade in it or no price is farther
    * from the median than the threshold. */
  lemma UntouchedIff(ts: seq<Trade>, madK: real, minVenues: int)
    ensures Robust(ts, madK, minVenues).kept == ts
       <==> ts == [] || |VenuesPresent(ts)| < minVenues
            || forall t :: t in ts ==> Abs(t.price - Median(Prices(ts))) <= Threshold(Prices(ts), madK)
  {
    if ts != [] { AllWithinIff(ts, Median(Prices(ts)), Threshold(Prices(ts), madK)); }
  }

  lemma {:induction false} AllWithinIff(ts: seq<Trade>, med: real, thresh: real)
    ensures Filter(ts, Within(med, thresh)) == ts <==> forall t :: t in ts ==> Abs(t.price - med) <= thresh
  {
    var w := Within(med, thresh);
    FilterAllIff(ts, w);
    assert forall t :: w(t) <==> Abs(t.price - med) <= thresh;
  }

  lemma KeptMembers(ts: seq<Trade>, madK: real, minVenues: int)
    ensures forall t :: t in Robust(ts, madK, minVenues).kept ==> t in ts
  {
    if ts != [] && Engages(ts, minVenues) {
      FilterMembers(ts, Within(Median(Prices(ts)), Threshold(Prices(ts), madK)));
    }
  }

  /** `|x - med|` at most so many scaled MADs, or, without spread, at most a thousandth of the median. */
  ghost predicate Near(x: real, med: real, mad: real, madK: real) {
    var deviation := if x >= med then x - med else med - x;
    if mad > 0.0 then deviation <= madK * 1.4826 * mad
    else deviation <= med * 0.001 || deviation <= 0.000000000001
  }

  /** `mad` is the median of the distances of the values from their median `med`. */
  ghost predicate SpreadAround(ps: seq<real>, med: real, mad: real) {
    && ps != [] && med == Median(ps)
    && exists ds: seq<real> :: |ds| == |ps| && mad == MedianOf(ds)
         && forall i :: 0 <= i < |ds| ==> ds[i] == if ps[i] >= med then ps[i] - med else med - ps[i]
  }

  function MedianOf(ds: seq<real>): real { if ds == [] then 0.0 else Median(ds) }

  lemma SpreadIsMad(ps: seq<real>, med: real, mad: real)
    requires SpreadAround(ps, med, mad)
    ensures mad == Mad(ps) && mad >= 0.0
  {
    var ds: seq<real> :| |ds| == |ps| && mad == MedianOf(ds)
      && forall i :: 0 <= i < |ds| ==> ds[i] == if ps[i] >= med then ps[i] - med else med - ps[i];
    DistancesAre(ps, med, ds);
    MedianNonNegative(ds);
  }

  lemma DistancesAre(ps: seq<real>, med: real, ds: seq<real>)
    requires |ds| == |ps|
    requires forall i :: 0 <= i < |ds| ==> ds[i] == if ps[i] >= med then ps[i] - med else med - ps[i]
    ensures ds == AbsDevs(ps, med)
  {
    var es := AbsDevs(ps, med);
    forall i | 0 <= i < |ds| ensures ds[i] == es[i] { assert es[i] == Abs(ps[i] - med); }
  }

  lemma {:induction false} MedianNonNegative(ds: seq<real>)
    requires ds != [] && forall i :: 0 <= i < |ds| ==> ds[i] >= 0.0
    ensures Median(ds) >= 0.0
  {
    var most := MaxBy(ds, Same);
    forall i | 0 <= i < |ds| ensures 0.0 <= ds[i] <= most { assert Same(ds[i]) <= most; }
    CountInAll(ds, 0.0, most);
    MajorityHoldsMedian(ds, 0.0, most);
  }

  function Same(x: real): real { x }

  lemma NearIsWithin(x: real, med: real, mad: real, madK: real)
    requires mad >= 0.0
    ensures Near(x, med, mad, madK) <==> Abs(x - med) <= Band(med, mad, madK)
  {
    Regroup(madK, mad, MAD_TO_SIGMA);
  }

  /** What the filter does: in a second with at least `minVenues` distinct venues, a missing one counting as
    * one, the survivors are in order exactly the trades near the median; in any other second all survive. */
  lemma {:induction false} SurvivorsAre(ts: seq<Trade>, madK: real, minVenues: int, med: real, mad: real,
                                        near: Trade -> bool)
    requires SpreadAround(MapBy(ts, Price), med, mad)
    requires forall t: Trade :: near(t) <==> Near(t.price, med, mad, madK)
    ensures Robust(ts, madK, minVenues).kept
         == if |set t | t in ts :: t.venue| >= minVenues then Filter(ts, near) else ts
    ensures Robust(ts, madK, minVenues).median == Some(med)
  {
    var ps := Prices(ts);
    SpreadIsMad(ps, med, mad);
    VenuesAre(ts);
    forall t | t in ts ensures near(t) <==> Within(med, Threshold(ps, madK))(t) {
      NearIsWithin(t.price, med, mad, madK);
    }
    FilterAgrees(ts, near, Within(med, Threshold(ps, madK)));
  }

  lemma VenuesAre(ts: seq<Trade>)
    ensures VenuesPresent(ts) == set t | t in ts :: t.venue
  {
    forall v ensures v in VenuesPresent(ts) <==> v in set t | t in ts :: t.venue {
      if v in VenuesPresent(ts) {
        var i :| 0 <= i < |ts| && ts[i].venue == v;
        assert ts[i] in ts;
      }
      if t :| t in ts && t.venue == v {
        var i :| 0 <= i < |ts| && ts[i] == t;
        assert ts[i].venue == v;
      }
    }
  }

  lemma {:induction false} FilterCount(ts: seq<Trade>, med: real, thresh: real)
    ensures |Filter(ts, Within(med, thresh))| == CountIn(AbsDevs(Prices(ts), med), 0.0, thresh)
  {
    if ts != [] {
      FilterCount(Init(ts), med, thresh);
      assert AbsDevs(Prices(ts), med) == AbsDevs(Prices(Init(ts)), med) + [Abs(Last(ts).price - med)];
      assert Init(AbsDevs(Prices(ts), med)) == AbsDevs(Prices(Init(ts)), med);
    }
  }

  lemma {:induction false} CountInWider(s: seq<real>, lo: real, hi: real, hi': real)
    requires hi <= hi'
    ensures CountIn(s, lo, hi) <= CountIn(s, lo, hi')
  {
    if s != [] { CountInWider(Init(s), lo, hi, hi'); }
  }

  lemma Regroup(a: real, b: real, c: real)
    ensures a * (b * c) == (a * c) * b
  {
  }

  lemma ScaleAtLeast(k: real, m: real)
    requires k >= 1.0 && m > 0.0
    ensures k * m >= m
  {
  }

  // ----- coverage -----

  /** The band covers the median absolute deviation. */
  lemma BandCoversMad(ps: seq<real>, madK: real)
    requires ps != [] && madK * MAD_TO_SIGMA >= 1.0
    ensures Mad(ps) <= Threshold(ps, madK)
  {
    var mad := Mad(ps);
    if mad > 0.0 {
      Regroup(madK, mad, MAD_TO_SIGMA);
      ScaleAtLeast(madK * MAD_TO_SIGMA, mad);
    }
  }

  lemma {:induction false} HalfWithin(ts: seq<Trade>, med: real, thresh: real)
    requires ts != [] && Median(AbsDevs(Prices(ts), med)) <= thresh
    ensures |Filter(ts, Within(med, thresh))| >= (|ts| + 1) / 2
  {
    var ds := AbsDevs(Prices(ts), med);
    FilterCount(ts, med, thresh);
    DeviationsNonNegative(Prices(ts), med);
    HalfWithinBound(ds, thresh);
  }

  lemma DeviationsNonNegative(ps: seq<real>, med: real)
    ensures forall x :: x in AbsDevs(ps, med) ==> 0.0 <= x
  {
    var ds := AbsDevs(ps, med);
    forall x | x in ds ensures 0.0 <= x {
      var i :| 0 <= i < |ds| && ds[i] == x;
      assert ds[i] == Abs(ps[i] - med);
    }
  }

  lemma {:induction false} HalfWithinBound(ds: seq<real>, thresh: real)
    requires ds != [] && (forall x :: x in ds ==> 0.0 <= x) && Median(ds) <= thresh
    ensures CountIn(ds, 0.0, thresh) >= (|ds| + 1) / 2
  {
    HalfBelowMedian(ds, 0.0);
    CountInWider(ds, 0.0, Median(ds), thresh);
  }

  /** With a band of at least one MAD, at least half of the prints (rounded up) survive. */
  lemma HalfSurvives(ts: seq<Trade>, madK: real, minVenues: int)
    requires ts != [] && madK * MAD_TO_SIGMA >= 1.0
    ensures |Robust(ts, madK, minVenues).kept| >= (|ts| + 1) / 2
  {
    if Engages(ts, minVenues) {
      BandCoversMad(Prices(ts), madK);
      HalfWithin(ts, Median(Prices(ts)), Threshold(Prices(ts), madK));
    }
  }

  /** A supply of distinct venue names. */
  function NthVenue(i: nat): string { seq(i, j => 'v') }

  /** `n` venues quoting 99, then `n` more quoting 101. */
  function Split(n: nat): seq<Trade> {
    seq(2 * n, i requires 0 <= i < 2 * n =>
      Trade(0, None, Some(NthVenue(i)), if i < n then 99.0 else 101.0, 1.0, ""))
  }

  /** `ts` quotes venues number `first`, `first + 1`, ... */
  ghost predicate Numbered(ts: seq<Trade>, first: nat) {
    forall i :: 0 <= i < |ts| ==> ts[i].venue == Some(NthVenue(first + i))
  }

  lemma {:induction false} ManyVenues(ts: seq<Trade>, first: nat, n: nat)
    requires n <= |ts| && Numbered(ts, first)
    ensures |VenuesPresent(ts[..n])| == n
  {
    if n > 0 {
      ManyVenues(ts, first, n - 1);
      OneMoreVenue(ts, first, n - 1);
    } else {
      assert VenuesPresent(ts[..n]) == {};
    }
  }

  lemma OneMoreVenue(ts: seq<Trade>, first: nat, n: nat)
    requires n < |ts| && Numbered(ts, first)
    ensures |VenuesPresent(ts[..n + 1])| == |VenuesPresent(ts[..n])| + 1
  {
    var v, a, b := ts[n].venue, ts[..n], ts[..n + 1];
    forall i | 0 <= i < n ensures a[i].venue != v {
      assert |a[i].venue.value| == first + i && |v.value| == first + n;
    }
    assert v !in VenuesPresent(a);
    assert b == a + [ts[n]];
    forall u ensures u in VenuesPresent(b) <==> u in VenuesPresent(a) + {v} {
      if u in VenuesPresent(a) {
        var i :| 0 <= i < |a| && a[i].venue == u;
        assert b[i].venue == u;
      }
      assert b[n].venue == v;
    }
    assert VenuesPresent(b) == VenuesPresent(a) + {v};
  }

  lemma MedianOfSplit(n: nat)
    requires n > 0
    ensures Median(Prices(Split(n))) == 100.0 && Mad(Prices(Split(n))) == 1.0
  {
    var ps := Prices(Split(n));
    MedianOfAscending(ps);
    DevsOfSplit(n);
    MedianOfAscending(AbsDevs(ps, 100.0));
  }

  lemma DevsOfSplit(n: nat)
    ensures var ds := AbsDevs(Prices(Split(n)), 100.0);
      |ds| == 2 * n && forall i :: 0 <= i < |ds| ==> ds[i] == 1.0
  {
  }

  /** A narrower band empties a split second whatever the venue minimum. */
  lemma NarrowBandEmpties(madK: real, minVenues: int)
    requires madK * MAD_TO_SIGMA < 1.0
    ensures exists ts :: ts != [] && Engages(ts, minVenues) && Robust(ts, madK, minVenues).kept == []
  {
    var n: nat := if minVenues > 0 then minVenues else 1;
    var ts := Split(n);
    MedianOfSplit(n);
    ManyVenues(ts, 0, 2 * n);
    assert ts[..2 * n] == ts;
    FilterNone(ts, Within(100.0, Threshold(Prices(ts), madK)));
    assert ts != [] && Engages(ts, minVenues) && Robust(ts, madK, minVenues).kept == [];
  }

  /** The filter never empties a second exactly when the band is at least one MAD wide. */
  lemma CoverageIff(madK: real, minVenues: int)
    ensures madK * MAD_TO_SIGMA >= 1.0 <==> forall ts :: ts != [] ==> Robust(ts, madK, minVenues).kept != []
  {
    if madK * MAD_TO_SIGMA >= 1.0 {
      forall ts | ts != [] ensures Robust(ts, madK, minVenues).kept != [] {
        HalfSurvives(ts, madK, minVenues);
      }
    } else {
      NarrowBandEmpties(madK, minVenues);
    }
  }

  // ----- breakdown -----

  lemma {:induction false} DeviationsOfMajority(ps: seq<real>, lo: real, hi: real, med: real)
    requires lo <= med <= hi
    ensures CountIn(AbsDevs(ps, med), 0.0, hi - lo) >= CountIn(ps, lo, hi)
  {
    if ps != [] {
      DeviationsOfMajority(Init(ps), lo, hi, med);
      assert Init(AbsDevs(ps, med)) == AbsDevs(Init(ps), med);
      assert Last(AbsDevs(ps, med)) == Abs(Last(ps) - med);
    }
  }

  lemma {:induction false} MajorityHoldsSpread(ps: seq<real>, lo: real, hi: real, med: real)
    requires 2 * CountIn(ps, lo, hi) > |ps| && lo <= med <= hi
    ensures ps != [] && 0.0 <= Median(AbsDevs(ps, med)) <= hi - lo
  {
    DeviationsOfMajority(ps, lo, hi, med);
    MajorityHoldsMedian(AbsDevs(ps, med), 0.0, hi - lo);
  }

  /** A strict majority in `[lo, hi]` holds the median there and the MAD below its width. */
  lemma {:induction false} MajorityHoldsBoth(ps: seq<real>, lo: real, hi: real)
    requires 2 * CountIn(ps, lo, hi) > |ps|
    ensures ps != [] && lo <= Median(ps) <= hi && 0.0 <= Mad(ps) <= hi - lo
  {
    MajorityHoldsMedian(ps, lo, hi);
    MajorityHoldsSpread(ps, lo, hi, Median(ps));
  }

  lemma ScaleMonotone(k: real, m: real, w: real)
    requires k >= 0.0 && m <= w
    ensures k * m <= k * w
  {
  }

  lemma ScaleNegative(k: real, m: real)
    requires k < 0.0 && m > 0.0
    ensures k * m < 0.0
  {
  }

  /** Ends of the interval a survivor's price is confined to, given where the median is, how wide the
    * spread, and a band `[lo, hi]` that holds the majority. */
  function LeastSurvivor(med: real, mad: real, madK: real, lo: real, hi: real): real {
    if mad > 0.0 then lo - (madK * MAD_TO_SIGMA) * (hi - lo) else med - Max(med * 0.001, 0.000000000001)
  }

  function GreatestSurvivor(med: real, mad: real, madK: real, lo: real, hi: real): real {
    if mad > 0.0 then hi + (madK * MAD_TO_SIGMA) * (hi - lo) else med + Max(med * 0.001, 0.000000000001)
  }

  predicate Confined(ps: seq<real>, madK: real, lo: real, hi: real, price: real)
    requires ps != []
  {
    LeastSurvivor(Median(ps), Mad(ps), madK, lo, hi) <= price <= GreatestSurvivor(Median(ps), Mad(ps), madK, lo, hi)
  }

  lemma AbsBand(p: real, m: real, a: real, b: real)
    requires Abs(p - m) <= a <= b
    ensures m - b <= p <= m + b
  {
  }

  lemma BandArithmetic(med: real, mad: real, madK: real, lo: real, hi: real, price: real)
    requires lo <= med <= hi && mad <= hi - lo
    requires Abs(price - med) <= Band(med, mad, madK)
    ensures LeastSurvivor(med, mad, madK, lo, hi) <= price <= GreatestSurvivor(med, mad, madK, lo, hi)
  {
    if mad > 0.0 {
      var k := madK * MAD_TO_SIGMA;
      Regroup(madK, mad, MAD_TO_SIGMA);
      assert Abs(price - med) <= k * mad;
      if k < 0.0 {
        ScaleNegative(k, mad);
      } else {
        ScaleMonotone(k, mad, hi - lo);
        AbsBand(price, med, k * mad, k * (hi - lo));
        assert GreatestSurvivor(med, mad, madK, lo, hi) == hi + k * (hi - lo);
        assert LeastSurvivor(med, mad, madK, lo, hi) == lo - k * (hi - lo);
      }
    }
  }

  lemma SurvivorWithin(ts: seq<Trade>, madK: real, minVenues: int, t: Trade)
    requires Engages(ts, minVenues) && t in Robust(ts, madK, minVenues).kept
    ensures ts != [] && Abs(t.price - Median(Prices(ts))) <= Threshold(Prices(ts), madK)
  {
    var w := Within(Median(Prices(ts)), Threshold(Prices(ts), madK));
    FilterMembers(ts, w);
    assert w(t);
  }

  /** Breakdown bound. When the filter engages, whatever the minority prints are, every survivor is
    * within `madK * 1.4826` widths of the band that holds the majority (or, when the MAD is zero,
    * within the relative guard of a median inside the band). */
  lemma {:induction false} Breakdown(ts: seq<Trade>, madK: real, minVenues: int, lo: real, hi: real, t: Trade)
    requires Engages(ts, minVenues) && ts != [] && 2 * CountIn(Prices(ts), lo, hi) > |ts|
    requires t in Robust(ts, madK, minVenues).kept
    ensures lo <= Median(Prices(ts)) <= hi && 0.0 <= Mad(Prices(ts)) <= hi - lo
    ensures Confined(Prices(ts), madK, lo, hi, t.price)
  {
    MajorityHoldsBoth(Prices(ts), lo, hi);
    SurvivorWithin(ts, madK, minVenues, t);
    BandArithmetic(Median(Prices(ts)), Mad(Prices(ts)), madK, lo, hi, t.price);
  }

  // ----- independence of arrival order -----

  lemma PermutedVenues(a: seq<Trade>, b: seq<Trade>)
    requires multiset(a) == multiset(b)
    ensures VenuesPresent(a) == VenuesPresent(b)
  {
    forall v | v in VenuesPresent(a) ensures v in VenuesPresent(b) { PermutedVenue(a, b, v); }
    forall v | v in VenuesPresent(b) ensures v in VenuesPresent(a) { PermutedVenue(b, a, v); }
  }

  lemma PermutedVenue(a: seq<Trade>, b: seq<Trade>, v: Option<string>)
    requires multiset(a) == multiset(b) && v in VenuesPresent(a)
    ensures v in VenuesPresent(b)
  {
    var i :| 0 <= i < |a| && a[i].venue == v;
    assert a[i] in multiset(b);
    var j :| 0 <= j < |b| && b[j] == a[i];
  }

  lemma SpreadPermutation(a: seq<real>, b: seq<real>, med: real)
    requires a != [] && b != [] && multiset(a) == multiset(b)
    ensures Median(AbsDevs(a, med)) == Median(AbsDevs(b, med))
  {
    MapPermutation(a, b, Deviation(med));
    MedianPermutation(AbsDevs(a, med), AbsDevs(b, med));
  }

  lemma ThresholdPermutation(a: seq<real>, b: seq<real>, madK: real)
    requires a != [] && b != [] && multiset(a) == multiset(b)
    ensures Median(a) == Median(b) && Threshold(a, madK) == Threshold(b, madK)
  {
    MedianPermutation(a, b);
    SpreadPermutation(a, b, Median(a));
  }

  /** Which prints survive depends only on which prints there are, not on their order. */
  lemma OrderIrrelevant(a: seq<Trade>, b: seq<Trade>, madK: real, minVenues: int)
    requires multiset(a) == multiset(b)
    ensures multiset(Robust(a, madK, minVenues).kept) == multiset(Robust(b, madK, minVenues).kept)
    ensures Robust(a, madK, minVenues).median == Robust(b, madK, minVenues).median
  {
    assert |multiset(a)| == |a| && |multiset(b)| == |b|;
    if a != [] {
      MapPermutation(a, b, Price);
      PermutedVenues(a, b);
      ThresholdPermutation(Prices(a), Prices(b), madK);
      FilterPermutation(a, b, Within(Median(Prices(a)), Threshold(Prices(a), madK)));
    }
  }
}
