/** What a resampled row still says about where it came from and when it was written. */
module ResampledRows {
  import opened Orders
  import opened Seqs
  import opened Grouping
  import opened Tape
  import opened Bits
  import opened Provenance
  import opened ConsolidatedBars
  import opened Resample
  import A = AggregateSecond
  import opened TapeTheorems

  /** Each resampled row is the aggregate of the bars of its window. */
  lemma RowOrigin(bars: seq<Bar>, t: int, row: Bar) returns (g: seq<Bar>)
    requires Timeframe(t) && t != NS_PER_SECOND && row in Resampled(bars, t)
    ensures g != [] && row == AggRow(BarWindow(t), g) && g == Bucket(bars, BarWindow(t), row.ts)
    ensures forall b :: b in g ==> b in bars && Window(b.ts, t) == row.ts
  {
    g := GroupOrigin(bars, BarWindow(t), row);
  }

  lemma GroupOrigin(bars: seq<Bar>, key: Bar -> int, row: Bar) returns (g: seq<Bar>)
    requires row in MapBy(Buckets(bars, key), WindowRow(key))
    ensures g != [] && row == AggRow(key, g) && g == Bucket(bars, key, row.ts)
    ensures forall b :: b in g ==> b in bars && key(b) == row.ts
  {
    var ks, rows := SortedKeys(bars, key), MapBy(Buckets(bars, key), WindowRow(key));
    var i :| 0 <= i < |rows| && rows[i] == row;
    SortSetSorts(Keys(bars, key), IntLe);
    assert ks[i] in ks;
    g := Bucket(bars, key, ks[i]);
    BucketMember(bars, key, ks[i]);
    assert g[0] in g;
  }

  // ----- the mask -----

  function MasksOf(g: seq<Bar>): seq<nat> { MapBy(g, MaskOfBar) }

  /** The row's mask is the largest of the masks in its window: in particular one of them. */
  lemma {:induction false} LargestMask(g: seq<Bar>)
    requires g != []
    ensures exists i :: 0 <= i < |g| && g[i].mask == MaxMask(g)
    ensures forall i :: 0 <= i < |g| ==> g[i].mask <= MaxMask(g)
  {
    if |g| > 1 {
      LargestMask(Init(g));
      var i :| 0 <= i < |Init(g)| && Init(g)[i].mask == MaxMask(Init(g));
      assert g[i].mask == MaxMask(Init(g));
      assert forall j :: 0 <= j < |g| - 1 ==> g[j] == Init(g)[j];
      assert g[|g| - 1] == Last(g);
    } else {
      assert MaxMask(Init(g)) == 0;
      assert g[0].mask == MaxMask(g);
    }
  }

  ghost predicate HasAllBits(m: nat, g: seq<Bar>) {
    forall j: nat, k: nat :: j < |g| && Bit(g[j].mask, k) ==> Bit(m, k)
  }

  lemma UnionBits(g: seq<Bar>)
    ensures HasAllBits(OrAll(MasksOf(g)), g)
  {
    forall j: nat, k: nat | j < |g| && Bit(g[j].mask, k) ensures Bit(OrAll(MasksOf(g)), k) {
      assert Bit(MasksOf(g)[j], k);
      OrAllBit(MasksOf(g), k);
    }
  }

  lemma MaxBelowUnion(g: seq<Bar>)
    requires g != []
    ensures MaxMask(g) <= OrAll(MasksOf(g))
  {
    LargestMask(g);
    UnionBits(g);
    var j: nat :| j < |g| && g[j].mask == MaxMask(g);
    BitsOrder(g[j].mask, OrAll(MasksOf(g)));
  }

  lemma UnionBelow(g: seq<Bar>, m: nat)
    requires HasAllBits(m, g)
    ensures OrAll(MasksOf(g)) <= m
  {
    forall k: nat ensures Bit(OrAll(MasksOf(g)), k) ==> Bit(m, k) { OrAllBit(MasksOf(g), k); }
    BitsOrder(OrAll(MasksOf(g)), m);
  }

  lemma UnionReached(g: seq<Bar>) returns (i: nat)
    requires g != [] && MaxMask(g) == OrAll(MasksOf(g))
    ensures i < |g| && HasAllBits(g[i].mask, g)
  {
    LargestMask(g);
    UnionBits(g);
    i :| 0 <= i < |g| && g[i].mask == MaxMask(g);
  }

  lemma UnionReachedBy(g: seq<Bar>, i: nat)
    requires i < |g| && HasAllBits(g[i].mask, g)
    ensures MaxMask(g) == OrAll(MasksOf(g))
  {
    LargestMask(g);
    MaxBelowUnion(g);
    UnionBelow(g, g[i].mask);
  }

  /** The maximum is the union of the window's masks exactly when one bar already has every venue the
    * window's bars have. */
  lemma MaxIsUnionIff(window: Bar -> int, g: seq<Bar>)
    requires g != []
    ensures AggRow(window, g).mask == OrAll(MasksOf(g)) <==> exists i :: 0 <= i < |g| && HasAllBits(g[i].mask, g)
  {
    if MaxMask(g) == OrAll(MasksOf(g)) {
      var i := UnionReached(g);
    } else {
      forall i | 0 <= i < |g| ensures !HasAllBits(g[i].mask, g) {
        if HasAllBits(g[i].mask, g) { UnionReachedBy(g, i); }
      }
    }
  }

  /** Two seconds with different single venues: the maximum forgets one of them. */
  lemma MaxLosesVenue(b: Bar, window: Bar -> int)
    ensures var g := [b.(mask := 1), b.(mask := 2)]; AggRow(window, g).mask != OrAll(MasksOf(g))
  {
    var g := [b.(mask := 1), b.(mask := 2)];
    LargestMask(g);
    assert Bit(1, 0) && !Bit(2, 0);
    UnionBits(g);
    assert Bit(g[0].mask, 0);
  }

  /** Every venue read from a resampled mask did contribute: some tape bar of the window has a surviving
    * trade of that venue. */
  lemma ResampledVenuesContribute(cfg: Config, consolidated: seq<Trade>, t: int, row: Bar, v: string)
    returns (b: Bar)
    requires Timeframe(t) && Indexed(cfg, consolidated)
    requires row in Resampled(AggBars(cfg, consolidated), t) && v in Decode(row.mask, IndexOf(cfg, consolidated))
    ensures b in AggBars(cfg, consolidated) && Window(b.ts, t) == Window(row.ts, t)
    ensures v in SetOf(VenueNames(Survivors(cfg, RawAt(cfg, consolidated, b.ts))))
  {
    if t == NS_PER_SECOND {
      b := row;
    } else {
      var g := RowOrigin(AggBars(cfg, consolidated), t, row);
      LargestMask(g);
      var i :| 0 <= i < |g| && g[i].mask == row.mask;
      b := g[i];
      assert b in g;
      WindowOfWindow(b.ts, t, t);
    }
    MaskTellsVenues(cfg, consolidated, b);
  }

  // ----- the write stamp -----

  predicate VisibleAt(ingested: Option<int>, asof: int) { ingested.None? || ingested.value <= asof }

  /** The stamp is null only if all are, and otherwise is the latest of those that are not. */
  lemma {:induction false} LatestStamp(g: seq<Bar>)
    ensures var s := Fold(g, IngestedOf, Later, None);
      && (s.None? <==> forall i :: 0 <= i < |g| ==> g[i].ingested.None?)
      && (s.Some? ==> exists i :: 0 <= i < |g| && g[i].ingested == s)
      && forall i :: 0 <= i < |g| && g[i].ingested.Some? ==> s.Some? && g[i].ingested.value <= s.value
  {
    if g != [] {
      LatestStamp(Init(g));
      var s := Fold(Init(g), IngestedOf, Later, None);
      assert forall i :: 0 <= i < |g| - 1 ==> g[i] == Init(g)[i];
      if s.Some? {
        var i :| 0 <= i < |Init(g)| && Init(g)[i].ingested == s;
        assert g[i].ingested == s;
      }
      assert g[|g| - 1] == Last(g);
    }
  }

  /** A point-in-time read stays one after resampling: if no bar was written after `asof`, no row is
    * stamped later, and conversely. */
  lemma StampsStayVisible(bars: seq<Bar>, t: int, asof: int)
    requires Timeframe(t)
    ensures (forall b :: b in bars ==> VisibleAt(b.ingested, asof))
       <==> (forall row :: row in Resampled(bars, t) ==> VisibleAt(row.ingested, asof))
  {
    if t != NS_PER_SECOND {
      if forall b :: b in bars ==> VisibleAt(b.ingested, asof) {
        forall row | row in Resampled(bars, t) ensures VisibleAt(row.ingested, asof) { RowVisible(bars, t, asof, row); }
      } else {
        var b :| b in bars && !VisibleAt(b.ingested, asof);
        var row := RowOf(bars, t, b);
      }
    }
  }

  lemma RowVisible(bars: seq<Bar>, t: int, asof: int, row: Bar)
    requires Timeframe(t) && t != NS_PER_SECOND && row in Resampled(bars, t)
    requires forall b :: b in bars ==> VisibleAt(b.ingested, asof)
    ensures VisibleAt(row.ingested, asof)
  {
    var g := RowOrigin(bars, t, row);
    LatestStamp(g);
    if row.ingested.Some? {
      var i :| 0 <= i < |g| && g[i].ingested == row.ingested;
      assert g[i] in g;
    }
  }

  /** Every bar is in the window of some row, which is stamped no earlier. */
  lemma RowOf(bars: seq<Bar>, t: int, b: Bar) returns (row: Bar)
    requires Timeframe(t) && t != NS_PER_SECOND && b in bars
    ensures row in Resampled(bars, t)
    ensures b.ingested.Some? ==> row.ingested.Some? && b.ingested.value <= row.ingested.value
  {
    var key := BarWindow(t);
    var ks, rows := SortedKeys(bars, key), Resampled(bars, t);
    var j :| 0 <= j < |bars| && bars[j] == b;
    assert key(bars[j]) in Keys(bars, key);
    SortSetSorts(Keys(bars, key), IntLe);
    var i :| 0 <= i < |ks| && ks[i] == key(b);
    row := rows[i];
    var g := Bucket(bars, key, key(b));
    BucketMember(bars, key, key(b));
    LatestStamp(g);
    var m :| 0 <= m < |g| && g[m] == b;
    assert g[m].ingested == b.ingested;
  }

  // ----- the order of rows within a second -----

  ghost predicate Commutes<U(!new)>(op: (U, U) -> U) { forall a, b :: op(a, b) == op(b, a) }

  lemma {:induction false} FoldRemove<T, U(!new)>(s: seq<T>, i: nat, f: T -> U, op: (U, U) -> U, unit: U)
    requires i < |s| && Monoid(op, unit) && Commutes(op)
    ensures Fold(s, f, op, unit) == op(Fold(RemoveAt(s, i), f, op, unit), f(s[i]))
  {
    var a, b := Fold(s[..i], f, op, unit), Fold(s[i + 1..], f, op, unit);
    Remove(s, i);
    FoldConcat(s[..i] + [s[i]], s[i + 1..], f, op, unit);
    FoldSnoc(s[..i], s[i], f, op, unit);
    FoldConcat(s[..i], s[i + 1..], f, op, unit);
    assert op(op(a, f(s[i])), b) == op(a, op(f(s[i]), b)) == op(a, op(b, f(s[i]))) == op(op(a, b), f(s[i]));
  }

  lemma {:induction false} FoldPermutation<T, U(!new)>(a: seq<T>, b: seq<T>, f: T -> U, op: (U, U) -> U, unit: U)
    requires multiset(a) == multiset(b) && Monoid(op, unit) && Commutes(op)
    ensures Fold(a, f, op, unit) == Fold(b, f, op, unit)
    decreases |a|
  {
    if a == [] {
      assert |multiset(b)| == 0;
    } else {
      var i := MatchLast(a, b);
      FoldRemove(b, i, f, op, unit);
      FoldPermutation(Init(a), RemoveAt(b, i), f, op, unit);
    }
  }

  /** Equal but for the columns that depend on which row of a group comes first or last. */
  ghost predicate RowsAgree(x: Bar, y: Bar) {
    && x.ts == y.ts && x.high == y.high && x.low == y.low && x.volume == y.volume && x.trades == y.trades
    && x.mask == y.mask && x.ingested == y.ingested && (x.volume > 0.0 ==> x.vwap == y.vwap)
  }

  ghost predicate FramesAgree(x: seq<Bar>, y: seq<Bar>) {
    |x| == |y| && forall i :: 0 <= i < |x| ==> RowsAgree(x[i], y[i])
  }

  lemma RowPermutation(key: Bar -> int, f: seq<Bar>, g: seq<Bar>)
    requires f != [] && g != [] && multiset(f) == multiset(g) && key(f[0]) == key(g[0])
    ensures RowsAgree(AggRow(key, f), AggRow(key, g))
  {
    ExtremaPermutation(f, g, A.HighOf);
    ExtremaPermutation(f, g, A.LowOf);
    SumPermutation(f, g, A.VolumeOf);
    SumPermutation(f, g, VwapTurnover);
    ColumnMonoids();
    ColumnsCommute();
    FoldPermutation(f, g, TradesOf, Plus, 0);
    FoldPermutation<Bar, nat>(f, g, MaskOfBar, Larger, 0);
    FoldPermutation(f, g, IngestedOf, Later, None);
  }

  lemma ColumnsCommute()
    ensures Commutes(Plus) && Commutes<nat>(Larger) && Commutes(Later)
  {
  }

  lemma SameKeys(f: seq<Bar>, g: seq<Bar>, key: Bar -> int)
    requires multiset(f) == multiset(g)
    ensures Keys(f, key) == Keys(g, key)
  {
    forall k ensures k in Keys(f, key) <==> k in Keys(g, key) {
      if k in Keys(f, key) { KeyStays(f, g, key, k); }
      if k in Keys(g, key) { KeyStays(g, f, key, k); }
    }
  }

  lemma KeyStays(f: seq<Bar>, g: seq<Bar>, key: Bar -> int, k: int)
    requires multiset(f) == multiset(g) && k in Keys(f, key)
    ensures k in Keys(g, key)
  {
    var i :| 0 <= i < |f| && key(f[i]) == k;
    assert f[i] in multiset(g);
    var j :| 0 <= j < |g| && g[j] == f[i];
    assert key(g[j]) == k;
  }

  lemma BucketPermutation(f: seq<Bar>, g: seq<Bar>, key: Bar -> int, k: int)
    requires multiset(f) == multiset(g) && k in Keys(f, key)
    ensures RowsAgree(WindowRow(key)(Bucket(f, key, k)), WindowRow(key)(Bucket(g, key, k)))
  {
    SameKeys(f, g, key);
    FilterPermutation(f, g, KeyIs(key, k));
    BucketMember(f, key, k);
    BucketMember(g, key, k);
    var a, b := Bucket(f, key, k), Bucket(g, key, k);
    assert a[0] in a && b[0] in b;
    RowPermutation(key, a, b);
  }

  lemma RowsByKeyAgree(f: seq<Bar>, g: seq<Bar>, key: Bar -> int)
    requires multiset(f) == multiset(g)
    ensures FramesAgree(MapBy(Buckets(f, key), WindowRow(key)), MapBy(Buckets(g, key), WindowRow(key)))
  {
    SameKeys(f, g, key);
    SortSetSorts(Keys(f, key), IntLe);
    var ks := SortedKeys(f, key);
    forall i | 0 <= i < |ks|
      ensures RowsAgree(MapBy(Buckets(f, key), WindowRow(key))[i], MapBy(Buckets(g, key), WindowRow(key))[i])
    {
      assert ks[i] in ks;
      BucketPermutation(f, g, key, ks[i]);
    }
  }

  /** In whatever order the rows are listed, the windows and all these columns are the same. */
  lemma ResampledPermutation(f: seq<Bar>, g: seq<Bar>, t: int)
    requires Timeframe(t) && t != NS_PER_SECOND && multiset(f) == multiset(g)
    ensures FramesAgree(Resampled(f, t), Resampled(g, t))
  {
    RowsByKeyAgree(f, g, BarWindow(t));
  }
}
