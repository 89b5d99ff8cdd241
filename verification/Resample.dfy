/** `resample_bars`: one-second bars rolled into longer, left-closed and left-labelled windows. */
module Resample {
  import opened Orders
  import opened Seqs
  import opened Grouping
  import opened Tape
  import opened Division
  import A = AggregateSecond

  const NS_PER_DAY := 86_400 * NS_PER_SECOND

  /** A timeframe in nanoseconds: whole seconds, and windows that tile the day. */
  predicate Timeframe(t: int) { t > 0 && t % NS_PER_SECOND == 0 && NS_PER_DAY % t == 0 }

  /** Left edge of the window of length `t` that holds `ts`. */
  function Window(ts: int, t: int): int
    requires t > 0
  {
    (ts / t) * t
  }

  function BarWindow(t: int): Bar -> int
    requires t > 0
  {
    (b: Bar) => Window(b.ts, t)
  }

  // ----- column aggregates -----

  function Fold<T, U>(s: seq<T>, f: T -> U, op: (U, U) -> U, unit: U): U {
    if s == [] then unit else op(Fold(Init(s), f, op, unit), f(Last(s)))
  }

  function Plus(a: int, b: int): int { a + b }

  function Larger(a: nat, b: nat): nat { if a >= b then a else b }

  /** `max` of a nullable column: nulls are skipped. */
  function Later(a: Option<int>, b: Option<int>): Option<int> {
    if a.None? then b else if b.None? then a else if a.value >= b.value then a else b
  }

  function TradesOf(b: Bar): int { b.trades }

  function MaskOfBar(b: Bar): nat { b.mask }

  function IngestedOf(b: Bar): Option<int> { b.ingested }

  function VolumeOf(bars: seq<Bar>): real { SumBy(bars, A.VolumeOf) }

  /** The carried numerator: the sum of `vwap * volume`. */
  function CarriedTurnover(bars: seq<Bar>): real { SumBy(bars, VwapTurnover) }

  function MaxMask(g: seq<Bar>): nat { Fold<Bar, nat>(g, MaskOfBar, Larger, 0) }

  /** The row of one window, stamped with the window's key. */
  function AggRow(key: Bar -> int, g: seq<Bar>): Bar
    requires g != []
  {
    var v := VolumeOf(g);
    Bar(key(g[0]), g[0].symbol, g[0].venue,
        g[0].open, MaxBy(g, A.HighOf), MinBy(g, A.LowOf), Last(g).close,
        v, if v > 0.0 then CarriedTurnover(g) / v else Last(g).close,
        Fold(g, TradesOf, Plus, 0), MaxMask(g), Fold(g, IngestedOf, Later, None))
  }

  /** Groups are never empty; the second case only makes the function total. */
  function WindowRow(key: Bar -> int): seq<Bar> -> Bar {
    (g: seq<Bar>) => if g != [] then AggRow(key, g) else Bar(0, "", "", 0.0, 0.0, 0.0, 0.0, 0.0, 0.0, 0, 0, None)
  }

  function Resampled(bars: seq<Bar>, t: int): seq<Bar>
    requires Timeframe(t)
  {
    if t == NS_PER_SECOND then bars else MapBy(Buckets(bars, BarWindow(t)), WindowRow(BarWindow(t)))
  }

  // ----- windows -----

  lemma WindowMonotone(x: int, y: int, t: int)
    requires t > 0 && x <= y
    ensures Window(x, t) <= Window(y, t)
  {
    QuotientMonotone(x, y, t);
    ScaleStep(x / t, y / t, t);
  }

  /** Windows are left-closed and left-labelled, and start on multiples of their length. */
  lemma WindowIs(ts: int, t: int)
    requires t > 0
    ensures Window(ts, t) <= ts < Window(ts, t) + t && Window(ts, t) % t == 0
  {
    Divide(ts, t);
    MultipleOver(ts / t, t);
    MultipleRest(ts / t, t);
  }

  lemma MultipleRest(q: int, t: int)
    requires t > 0
    ensures (q * t) % t == 0
  {
    MultipleOver(q, t);
    Divide(q * t, t);
  }

  /** A window of a window is the coarse window. */
  lemma WindowOfWindow(ts: int, fine: int, coarse: int)
    requires fine > 0 && coarse > 0 && coarse % fine == 0
    ensures Window(Window(ts, fine), coarse) == Window(ts, coarse)
  {
    var k := coarse / fine;
    Divide(coarse, fine);
    ScaleStep(0, k, fine);
    Tower(ts, fine, k);
    Tower(Window(ts, fine), fine, k);
    MultipleOver(ts / fine, fine);
  }

  lemma WindowsCoarsen(fine: int, coarse: int)
    requires fine > 0 && coarse > 0 && coarse % fine == 0
    ensures forall x: int, y: int :: Window(x, fine) == Window(y, fine) ==> Window(x, coarse) == Window(y, coarse)
  {
    forall x: int, y: int | Window(x, fine) == Window(y, fine) ensures Window(x, coarse) == Window(y, coarse) {
      WindowOfWindow(x, fine, coarse);
      WindowOfWindow(y, fine, coarse);
    }
  }

  // ----- aggregates of groups -----

  lemma {:induction false} FoldSnoc<T, U>(s: seq<T>, x: T, f: T -> U, op: (U, U) -> U, unit: U)
    ensures Fold(s + [x], f, op, unit) == op(Fold(s, f, op, unit), f(x))
  {
    assert Init(s + [x]) == s;
  }

  ghost predicate Monoid<U(!new)>(op: (U, U) -> U, unit: U) {
    && (forall a, b, c :: op(op(a, b), c) == op(a, op(b, c)))
    && (forall a :: op(a, unit) == a)
  }

  lemma {:induction false} FoldConcat<T, U(!new)>(a: seq<T>, b: seq<T>, f: T -> U, op: (U, U) -> U, unit: U)
    requires Monoid(op, unit)
    ensures Fold(a + b, f, op, unit) == op(Fold(a, f, op, unit), Fold(b, f, op, unit))
  {
    if b == [] {
      assert a + b == a;
    } else {
      FoldConcat(a, Init(b), f, op, unit);
      assert a + b == (a + Init(b)) + [Last(b)];
      FoldSnoc(a + Init(b), Last(b), f, op, unit);
      assert op(op(Fold(a, f, op, unit), Fold(Init(b), f, op, unit)), f(Last(b)))
          == op(Fold(a, f, op, unit), op(Fold(Init(b), f, op, unit), f(Last(b))));
    }
  }

  /** Folding the groups' folds is folding everything. */
  lemma {:induction false} FoldGroups<S, R, U(!new)>(gg: seq<seq<S>>, row: seq<S> -> R, f: S -> U, h: R -> U,
                                                    op: (U, U) -> U, unit: U)
    requires Monoid(op, unit)
    requires forall i :: 0 <= i < |gg| ==> h(row(gg[i])) == Fold(gg[i], f, op, unit)
    ensures Fold(MapBy(gg, row), h, op, unit) == Fold(Flatten(gg), f, op, unit)
  {
    if gg != [] {
      assert Init(MapBy(gg, row)) == MapBy(Init(gg), row);
      FoldGroups(Init(gg), row, f, h, op, unit);
      FoldConcat(Flatten(Init(gg)), Last(gg), f, op, unit);
    }
  }

  lemma {:induction false} SumGroups<S, R>(gg: seq<seq<S>>, row: seq<S> -> R, f: S -> real, h: R -> real)
    requires forall i :: 0 <= i < |gg| ==> h(row(gg[i])) == SumBy(gg[i], f)
    ensures SumBy(MapBy(gg, row), h) == SumBy(Flatten(gg), f)
  {
    if gg != [] {
      assert Init(MapBy(gg, row)) == MapBy(Init(gg), row);
      SumGroups(Init(gg), row, f, h);
      SumConcat(Flatten(Init(gg)), Last(gg), f);
    }
  }

  /** Groups to be joined: some, all nonempty. */
  ghost predicate Parts<S>(gg: seq<seq<S>>) {
    gg != [] && forall i :: 0 <= i < |gg| ==> gg[i] != []
  }

  lemma {:induction false} PartsJoin<S>(gg: seq<seq<S>>)
    requires Parts(gg)
    ensures Flatten(gg) != [] && Flatten(gg)[0] == gg[0][0] && Last(Flatten(gg)) == Last(Last(gg))
  {
    if |gg| == 1 {
      assert Flatten(Init(gg)) == [];
    } else {
      PartsJoin(Init(gg));
    }
  }

  lemma {:induction false} MaxGroups<S, R>(gg: seq<seq<S>>, row: seq<S> -> R, f: S -> real, h: R -> real)
    requires Parts(gg) && forall i :: 0 <= i < |gg| ==> h(row(gg[i])) == MaxBy(gg[i], f)
    ensures Flatten(gg) != [] && MaxBy(MapBy(gg, row), h) == MaxBy(Flatten(gg), f)
  {
    PartsJoin(gg);
    var rows := MapBy(gg, row);
    if |gg| == 1 {
      assert Flatten(Init(gg)) + Last(gg) == Last(gg);
      assert MaxBy(rows, h) == h(rows[0]);
    } else {
      assert Init(rows) == MapBy(Init(gg), row);
      MaxGroups(Init(gg), row, f, h);
      MaxConcat(Flatten(Init(gg)), Last(gg), f);
    }
  }

  lemma {:induction false} MinGroups<S, R>(gg: seq<seq<S>>, row: seq<S> -> R, f: S -> real, h: R -> real)
    requires Parts(gg) && forall i :: 0 <= i < |gg| ==> h(row(gg[i])) == MinBy(gg[i], f)
    ensures Flatten(gg) != [] && MinBy(MapBy(gg, row), h) == MinBy(Flatten(gg), f)
  {
    PartsJoin(gg);
    var rows := MapBy(gg, row);
    if |gg| == 1 {
      assert Flatten(Init(gg)) + Last(gg) == Last(gg);
      assert MinBy(rows, h) == h(rows[0]);
    } else {
      assert Init(rows) == MapBy(Init(gg), row);
      MinGroups(Init(gg), row, f, h);
      MinConcat(Flatten(Init(gg)), Last(gg), f);
    }
  }

  lemma ColumnMonoids()
    ensures Monoid(Plus, 0) && Monoid(Larger, 0) && Monoid(Later, None)
  {
  }
}
