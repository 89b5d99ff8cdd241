/** `bars_from_trades`: one pass over a venue's trades, emitting a bar whenever the second changes. */
module VenueBuilder {
  import opened Orders
  import opened Seqs
  import opened Grouping
  import opened Tape

  /** The bar of a run, stamped with the run's key. Runs are never empty; the first case only makes the
    * function total. */
  function RollRun(stamp: Stamp, key: Trade -> int): seq<Trade> -> Bar {
    (g: seq<Trade>) =>
      if g == [] then Bar(0, stamp.symbol, stamp.venue, 0.0, 0.0, 0.0, 0.0, 0.0, 0.0, 0, stamp.mask, None)
      else Roll(key(g[0]), stamp, g)
  }

  lemma RollRunIs(stamp: Stamp, key: Trade -> int, g: seq<Trade>)
    requires g != []
    ensures RollRun(stamp, key)(g) == Roll(key(g[0]), stamp, g)
  {
  }

  function VenueStamp(symbol: string, venue: string, now: int): Stamp { Stamp(symbol, venue, 0, now) }

  /** One bar per stretch of consecutive trades with the same key. */
  function BarsBy(trades: seq<Trade>, key: Trade -> int, stamp: Stamp): seq<Bar> {
    MapBy(Runs(trades, key), RollRun(stamp, key))
  }

  /** One bar per stretch of consecutive trades in the same second. */
  function VenueBars(trades: seq<Trade>, symbol: string, venue: string, now: int): seq<Bar> {
    BarsBy(trades, Second, VenueStamp(symbol, venue, now))
  }

  /** The bar under construction, as the loop's mutable variables hold it. */
  datatype Open = Open(bar: Bar, cumPxv: real, cumV: real)

  function Start(stamp: Stamp, sec: int, price: real): Open {
    Open(Bar(sec, stamp.symbol, stamp.venue, price, price, price, price, 0.0, price, 0, stamp.mask, Some(stamp.now)),
         0.0, 0.0)
  }

  function Close(o: Open): Bar {
    o.bar.(vwap := if o.cumV > 0.0 then o.cumPxv / o.cumV else o.bar.close, volume := o.cumV)
  }

  /** The open bar summarises the nonempty group `g`. */
  ghost predicate Summarises(o: Open, stamp: Stamp, g: seq<Trade>, key: Trade -> int) {
    && g != []
    && o.cumV == Volume(g) && o.cumPxv == Turnover(g)
    && o.bar == Start(stamp, key(g[0]), g[0].price).bar.(
         high := MaxBy(g, Price), low := MinBy(g, Price), close := Last(g).price, trades := |g|)
  }

  lemma CloseIsRoll(o: Open, stamp: Stamp, g: seq<Trade>, key: Trade -> int)
    requires Summarises(o, stamp, g, key)
    ensures Close(o) == RollRun(stamp, key)(g)
  {
  }

  /** Loop body for one trade of the open second. */
  function Absorb(o: Open, t: Trade): Open {
    Open(o.bar.(high := Max(o.bar.high, t.price), low := Min(o.bar.low, t.price), close := t.price,
                trades := o.bar.trades + 1),
         o.cumPxv + Notional(t), o.cumV + t.size)
  }

  lemma AbsorbFirst(stamp: Stamp, t: Trade, key: Trade -> int)
    ensures Summarises(Absorb(Start(stamp, key(t), t.price), t), stamp, [t], key)
  {
    assert [] + [t] == [t];
    SumSnoc([], t, Notional);
    SumSnoc([], t, Size);
    assert MaxBy([t], Price) == Price(t) && MinBy([t], Price) == Price(t);
  }

  lemma AbsorbNext(o: Open, stamp: Stamp, g: seq<Trade>, t: Trade, key: Trade -> int)
    requires Summarises(o, stamp, g, key)
    ensures Summarises(Absorb(o, t), stamp, g + [t], key)
  {
    SumSnoc(g, t, Size);
    SumSnoc(g, t, Notional);
    MaxSnoc(g, t, Price);
    MinSnoc(g, t, Price);
  }

  /** `done` holds the bars of the finished runs among `r`, `o` summarises the last. */
  ghost predicate Progress(done: seq<Bar>, o: Open, sec: int, r: seq<seq<Trade>>, stamp: Stamp, key: Trade -> int) {
    && r != [] && Last(r) != [] && sec == key(Last(r)[0])
    && done == MapBy(Init(r), RollRun(stamp, key)) && Summarises(o, stamp, Last(r), key)
  }

  lemma EmitLast(done: seq<Bar>, o: Open, sec: int, r: seq<seq<Trade>>, stamp: Stamp, key: Trade -> int)
    requires Progress(done, o, sec, r, stamp, key)
    ensures done + [Close(o)] == MapBy(r, RollRun(stamp, key))
  {
    CloseIsRoll(o, stamp, Last(r), key);
  }

  lemma SameSecond(done: seq<Bar>, o: Open, sec: int, r: seq<seq<Trade>>, stamp: Stamp, t: Trade, key: Trade -> int)
    requires Progress(done, o, sec, r, stamp, key) && key(t) == sec
    ensures Progress(done, Absorb(o, t), sec, AddToRuns(r, t, key), stamp, key)
  {
    AbsorbNext(o, stamp, Last(r), t, key);
    assert Init(AddToRuns(r, t, key)) == Init(r);
  }

  /** With all bars so far emitted, a trade of another second opens a new one. */
  lemma OpenSecond(bars: seq<Bar>, r: seq<seq<Trade>>, stamp: Stamp, t: Trade, key: Trade -> int)
    requires bars == MapBy(r, RollRun(stamp, key)) && !Extends(r, t, key)
    ensures Progress(bars, Absorb(Start(stamp, key(t), t.price), t), key(t), AddToRuns(r, t, key), stamp, key)
  {
    AbsorbFirst(stamp, t, key);
    assert Init(AddToRuns(r, t, key)) == r;
  }

  method BarsFromTrades(trades: seq<Trade>, symbol: string, venue: string, now: int) returns (bars: seq<Bar>)
    ensures bars == VenueBars(trades, symbol, venue, now)
  {
    var stamp := VenueStamp(symbol, venue, now);
    bars := [];
    var current: Option<Open> := None;
    var currentSec := -1;
    for i := 0 to |trades|
      invariant current.None? <==> i == 0
      invariant i == 0 ==> bars == [] && currentSec == -1
      invariant i > 0 ==> Progress(bars, current.value, currentSec, Runs(trades[..i], Second), stamp, Second)
    {
      var t := trades[i];
      var sec := Second(t);
      ghost var r := Runs(trades[..i], Second);
      SecondFloor(t.ts);
      TakeNext(trades, i);
      RunsSnoc(trades[..i], t, Second);
      if sec != currentSec {
        if current.Some? {
          EmitLast(bars, current.value, currentSec, r, stamp, Second);
          bars := bars + [Close(current.value)];
        }
        OpenSecond(bars, r, stamp, t, Second);
        current := Some(Start(stamp, sec, t.price));
        currentSec := sec;
      } else {
        SameSecond(bars, current.value, currentSec, r, stamp, t, Second);
      }
      current := Some(Absorb(current.value, t));
    }
    TakeAll(trades);
    if current.Some? {
      EmitLast(bars, current.value, currentSec, Runs(trades, Second), stamp, Second);
      bars := bars + [Close(current.value)];
    }
  }

  // ----- meaning -----

  /** On trades sorted by time there is exactly one bar per second traded, seconds increasing, each the
    * roll-up of all trades of its second. */
  lemma OneBarPerSecond(trades: seq<Trade>, symbol: string, venue: string, now: int)
    requires NonDecreasing(trades, Second)
    ensures var bars := VenueBars(trades, symbol, venue, now);
      && |bars| == |SortedKeys(trades, Second)|
      && forall i :: 0 <= i < |bars| ==>
           && bars[i].ts == SortedKeys(trades, Second)[i]
           && Bucket(trades, Second, bars[i].ts) != []
           && bars[i] == Roll(bars[i].ts, VenueStamp(symbol, venue, now), Bucket(trades, Second, bars[i].ts))
  {
    SortedBucketsAreRuns(trades, Second);
    SortSetSorts(Keys(trades, Second), IntLe);
    var bars, ks := VenueBars(trades, symbol, venue, now), SortedKeys(trades, Second);
    forall i | 0 <= i < |bars|
      ensures bars[i].ts == ks[i] && Bucket(trades, Second, ks[i]) != []
      ensures bars[i] == Roll(ks[i], VenueStamp(symbol, venue, now), Bucket(trades, Second, ks[i]))
    {
      var g := Bucket(trades, Second, ks[i]);
      assert ks[i] in ks && ks[i] in Keys(trades, Second);
      BucketMember(trades, Second, ks[i]);
      assert g[0] in g;
    }
  }

  /** A venue's bar, column by column, from the stretch of trades it was made of. */
  lemma {:induction false} VenueBarIs(trades: seq<Trade>, symbol: string, venue: string, now: int, i: nat,
                                      size: Trade -> real, value: Trade -> real)
    requires i < |VenueBars(trades, symbol, venue, now)|
    requires (forall t: Trade :: size(t) == t.size) && forall t: Trade :: value(t) == t.price * t.size
    ensures var b, g := VenueBars(trades, symbol, venue, now)[i], Runs(trades, Second)[i];
      && g != [] && b.symbol == symbol && b.venue == venue && b.ingested == Some(now) && b.mask == 0
      && b.ts % 1_000_000_000 == 0 && b.ts <= g[0].ts < b.ts + 1_000_000_000 && b.trades == |g|
      && b.open == g[0].price && b.close == g[|g| - 1].price
      && (forall k :: 0 <= k < |g| ==> b.low <= g[k].price <= b.high)
      && b.volume == SumBy(g, size)
      && (b.volume > 0.0 ==> Product(b.vwap, b.volume) == SumBy(g, value))
      && (b.volume <= 0.0 ==> b.vwap == b.close)
  {
    var g, stamp := Runs(trades, Second)[i], VenueStamp(symbol, venue, now);
    RunsCut(trades, Second);
    assert Uniform(g, Second);
    RollRunIs(stamp, Second, g);
    SecondIs(g[0]);
    BarColumns(Second(g[0]), stamp, g, size, value);
  }
}
