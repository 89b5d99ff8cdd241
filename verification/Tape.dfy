/** The rows of the tape: trades, one-second bars, and the roll-up of trades into a bar. */
module Tape {
  import opened Orders
  import opened Seqs

  const NS_PER_SECOND := 1_000_000_000

  /** A trade dict. `recv` and `venue` may be missing; readers fall back as noted below. */
  datatype Trade = Trade(ts: int, recv: Option<int>, venue: Option<string>, price: real, size: real, id: string)

  function Product(x: real, y: real): real { x * y }

  /** `t.get("recv_ns", t["ts_ns"])` */
  function Recv(t: Trade): int { if t.recv.Some? then t.recv.value else t.ts }

  /** `t.get("venue", "")` */
  function VenueName(t: Trade): string { if t.venue.Some? then t.venue.value else "" }

  function Price(t: Trade): real { t.price }

  function Size(t: Trade): real { t.size }

  function Notional(t: Trade): real { Product(t.price, t.size) }

  /** The second a timestamp falls in, as the timestamp of its left edge. */
  function SecondOf(ts: int): int { (ts / NS_PER_SECOND) * NS_PER_SECOND }

  function Second(t: Trade): int { SecondOf(t.ts) }

  /** A trade's second starts on a whole second at or before it and less than a second earlier. */
  lemma SecondIs(t: Trade)
    ensures Second(t) % 1_000_000_000 == 0 && Second(t) <= t.ts < Second(t) + 1_000_000_000
  {
    SecondFloor(t.ts);
  }

  lemma SecondFloor(ts: int)
    ensures SecondOf(ts) % NS_PER_SECOND == 0 && SecondOf(ts) <= ts < SecondOf(ts) + NS_PER_SECOND
    ensures SecondOf(SecondOf(ts)) == SecondOf(ts)
  {
  }

  datatype Bar = Bar(ts: int, symbol: string, venue: string,
                     open: real, high: real, low: real, close: real, volume: real, vwap: real,
                     trades: int, mask: nat, ingested: Option<int>)

  /** The carried numerator of a bar's vwap. */
  function VwapTurnover(b: Bar): real { Product(b.vwap, b.volume) }

  function Volume(ts: seq<Trade>): real { SumBy(ts, Size) }

  function Turnover(ts: seq<Trade>): real { SumBy(ts, Notional) }

  /** Columns shared by all bars of one build: everything but the market data. */
  datatype Stamp = Stamp(symbol: string, venue: string, mask: nat, now: int)

  /** The size-weighted mean price; the last price if nothing has size. */
  function Vwap(ts: seq<Trade>): real
    requires ts != []
  {
    if Volume(ts) > 0.0 then Turnover(ts) / Volume(ts) else Last(ts).price
  }

  /** The bar of a nonempty list of trades. */
  function Roll(sec: int, stamp: Stamp, ts: seq<Trade>): Bar
    requires ts != []
  {
    Bar(sec, stamp.symbol, stamp.venue,
        ts[0].price, MaxBy(ts, Price), MinBy(ts, Price), Last(ts).price,
        Volume(ts), Vwap(ts), |ts|, stamp.mask, Some(stamp.now))
  }

  /** The columns of a bar of trades: first and last price, the extremes, totals, and its labels. */
  lemma {:induction false} BarColumns(sec: int, stamp: Stamp, ts: seq<Trade>, size: Trade -> real, value: Trade -> real)
    requires ts != [] && (forall t: Trade :: size(t) == t.size) && forall t: Trade :: value(t) == t.price * t.size
    ensures var b := Roll(sec, stamp, ts);
      && b.ts == sec && b.symbol == stamp.symbol && b.venue == stamp.venue && b.ingested == Some(stamp.now)
      && b.open == ts[0].price && b.close == ts[|ts| - 1].price && b.trades == |ts|
      && (forall i :: 0 <= i < |ts| ==> b.low <= ts[i].price <= b.high)
      && (exists i :: 0 <= i < |ts| && ts[i].price == b.low) && (exists i :: 0 <= i < |ts| && ts[i].price == b.high)
      && b.volume == SumBy(ts, size)
      && (b.volume > 0.0 ==> Product(b.vwap, b.volume) == SumBy(ts, value))
      && (b.volume <= 0.0 ==> b.vwap == b.close)
  {
    SumsAgree(ts, size, Size);
    ValuesAgree(ts, value);
    RollColumns(sec, stamp, ts);
    MeanTimesVolume(ts);
    ExtremesReached(ts);
  }

  lemma {:induction false} ValuesAgree(ts: seq<Trade>, value: Trade -> real)
    requires forall t: Trade :: value(t) == t.price * t.size
    ensures SumBy(ts, value) == Turnover(ts)
  {
    SumsAgree(ts, value, Notional);
  }

  lemma MeanTimesVolume(ts: seq<Trade>)
    requires ts != []
    ensures Volume(ts) > 0.0 ==> Product(Vwap(ts), Volume(ts)) == Turnover(ts)
    ensures Volume(ts) <= 0.0 ==> Vwap(ts) == ts[|ts| - 1].price
  {
    if Volume(ts) > 0.0 { DivideBack(Turnover(ts), Volume(ts)); }
  }

  lemma {:induction false} ExtremesReached(ts: seq<Trade>)
    requires ts != []
    ensures forall i :: 0 <= i < |ts| ==> MinBy(ts, Price) <= ts[i].price <= MaxBy(ts, Price)
    ensures exists i :: 0 <= i < |ts| && ts[i].price == MinBy(ts, Price)
    ensures exists i :: 0 <= i < |ts| && ts[i].price == MaxBy(ts, Price)
  {
    forall i | 0 <= i < |ts| ensures MinBy(ts, Price) <= ts[i].price <= MaxBy(ts, Price) {
      assert MinBy(ts, Price) <= Price(ts[i]) <= MaxBy(ts, Price);
    }
    var i :| 0 <= i < |ts| && Price(ts[i]) == MinBy(ts, Price);
    var j :| 0 <= j < |ts| && Price(ts[j]) == MaxBy(ts, Price);
    assert ts[i].price == MinBy(ts, Price) && ts[j].price == MaxBy(ts, Price);
  }

  lemma {:induction false} SumsAgree(ts: seq<Trade>, f: Trade -> real, g: Trade -> real)
    requires forall t: Trade :: f(t) == g(t)
    ensures SumBy(ts, f) == SumBy(ts, g)
  {
    if ts != [] { SumsAgree(Init(ts), f, g); }
  }

  /** Equality of two bars up to the columns that identify the builder. */
  predicate SameMarketData(a: Bar, b: Bar) {
    a.ts == b.ts && a.symbol == b.symbol && a.open == b.open && a.high == b.high && a.low == b.low
    && a.close == b.close && a.volume == b.volume && a.vwap == b.vwap && a.trades == b.trades
  }

  lemma WeightStep(price: real, size: real, lo: real, hi: real)
    requires lo <= price <= hi && size >= 0.0
    ensures Product(lo, size) <= Product(price, size) <= Product(hi, size)
  {
  }

  lemma ProductSpread(k: real, x: real, y: real)
    ensures Product(k, x + y) == Product(k, x) + Product(k, y)
  {
  }

  /** A size-weighted sum lies between the bounds of the prices times the total size. */
  lemma {:induction false} TurnoverBounds(ts: seq<Trade>, lo: real, hi: real)
    requires forall t :: t in ts ==> lo <= t.price <= hi && t.size >= 0.0
    ensures Product(lo, Volume(ts)) <= Turnover(ts) <= Product(hi, Volume(ts))
  {
    if ts != [] {
      assert ts == Init(ts) + [Last(ts)];
      TurnoverBounds(Init(ts), lo, hi);
      WeightStep(Last(ts).price, Last(ts).size, lo, hi);
      ProductSpread(lo, Volume(Init(ts)), Last(ts).size);
      ProductSpread(hi, Volume(Init(ts)), Last(ts).size);
    }
  }

  lemma QuotientBounds(x: real, v: real, lo: real, hi: real)
    requires v > 0.0 && Product(lo, v) <= x <= Product(hi, v)
    ensures lo <= x / v <= hi
  {
    var q := x / v;
    DivideBack(x, v);
    if q < lo { ScaleLess(q, lo, v); }
    if q > hi { ScaleLess(hi, q, v); }
  }

  lemma ScaleLess(a: real, b: real, v: real)
    requires a < b && v > 0.0
    ensures Product(a, v) < Product(b, v)
  {
  }

  /** Every price column of a bar lies wherever all its trades' prices lie, the weighted mean too. */
  lemma RollWithin(sec: int, stamp: Stamp, ts: seq<Trade>, lo: real, hi: real)
    requires ts != [] && forall t :: t in ts ==> lo <= t.price <= hi && t.size >= 0.0
    ensures var b := Roll(sec, stamp, ts);
      && lo <= b.low <= b.open <= b.high <= hi && b.low <= b.close <= b.high
      && b.low <= b.vwap <= b.high && b.volume >= 0.0
  {
    assert ts[0] in ts && Last(ts) in ts;
    PriceRange(ts, lo, hi);
    SumNonNegative(ts, Size);
    if Volume(ts) > 0.0 { MeanWithin(ts, MinBy(ts, Price), MaxBy(ts, Price)); }
  }

  lemma MeanWithin(ts: seq<Trade>, lo: real, hi: real)
    requires Volume(ts) > 0.0 && forall t :: t in ts ==> lo <= t.price <= hi && t.size >= 0.0
    ensures lo <= Turnover(ts) / Volume(ts) <= hi
  {
    TurnoverBounds(ts, lo, hi);
    QuotientBounds(Turnover(ts), Volume(ts), lo, hi);
  }

  lemma {:induction false} PriceRange(ts: seq<Trade>, lo: real, hi: real)
    requires ts != [] && forall t :: t in ts ==> lo <= t.price <= hi
    ensures lo <= MinBy(ts, Price) && MaxBy(ts, Price) <= hi
    ensures forall t :: t in ts ==> MinBy(ts, Price) <= t.price <= MaxBy(ts, Price)
  {
    var i :| 0 <= i < |ts| && Price(ts[i]) == MinBy(ts, Price);
    var j :| 0 <= j < |ts| && Price(ts[j]) == MaxBy(ts, Price);
    forall t | t in ts ensures MinBy(ts, Price) <= t.price <= MaxBy(ts, Price) {
      var k :| 0 <= k < |ts| && ts[k] == t;
      assert MinBy(ts, Price) <= Price(ts[k]) <= MaxBy(ts, Price);
    }
  }

  /** The weighted mean carries its numerator: `vwap * volume` is the turnover. */
  lemma VwapCarries(sec: int, stamp: Stamp, ts: seq<Trade>)
    requires ts != [] && forall t :: t in ts ==> t.size >= 0.0
    ensures VwapTurnover(Roll(sec, stamp, ts)) == Turnover(ts)
  {
    MeanCarries(ts);
    RollColumns(sec, stamp, ts);
  }

  lemma RollColumns(sec: int, stamp: Stamp, ts: seq<Trade>)
    requires ts != []
    ensures var b := Roll(sec, stamp, ts); b.vwap == Vwap(ts) && b.volume == Volume(ts)
  {
  }

  lemma MeanCarries(ts: seq<Trade>)
    requires ts != [] && forall t :: t in ts ==> t.size >= 0.0
    ensures Product(Vwap(ts), Volume(ts)) == Turnover(ts)
  {
    SumNonNegative(ts, Size);
    if Volume(ts) == 0.0 { NoVolumeNoTurnover(ts); }
    MeanTimesWeight(Turnover(ts), Volume(ts), Last(ts).price);
  }

  lemma MeanTimesWeight(x: real, v: real, otherwise: real)
    requires v >= 0.0 && (v == 0.0 ==> x == 0.0)
    ensures Product(if v > 0.0 then x / v else otherwise, v) == x
  {
    if v > 0.0 { DivideBack(x, v); }
  }

  lemma DivideBack(x: real, v: real)
    requires v != 0.0
    ensures Product(x / v, v) == x
  {
  }

  lemma {:induction false} NoVolumeNoTurnover(ts: seq<Trade>)
    requires forall t :: t in ts ==> t.size >= 0.0
    requires Volume(ts) == 0.0
    ensures Turnover(ts) == 0.0
  {
    if ts != [] {
      SumNonNegative(ts, Size);
      assert ts == Init(ts) + [Last(ts)];
      assert Last(ts) in ts;
      assert Size(Last(ts)) == 0.0;
      NoVolumeNoTurnover(Init(ts));
    }
  }
}
