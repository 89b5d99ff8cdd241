/** `build_agg_bars`: the consolidated one-second bars. */
module ConsolidatedBars {
  import opened Orders
  import opened Seqs
  import opened Grouping
  import opened Tape
  import opened RobustFilter
  import opened Provenance

  /** Keyword arguments, and the clock reading taken at the start. */
  datatype Config = Config(symbol: string, index: Option<map<string, nat>>, madK: real, minVenues: int,
                           excluded: set<string>, staleMs: Option<real>, now: int)

  /** Python's `int(x)`. */
  function Truncate(x: real): int { if x >= 0.0 then x.Floor else -((-x).Floor) }

  /** The receive-lag budget; a budget of zero is falsy and switches the gate off. */
  function StaleNs(cfg: Config): Option<int> {
    if cfg.staleMs.Some? && cfg.staleMs.value != 0.0 then Some(Truncate(cfg.staleMs.value * 1000000.0)) else None
  }

  function Lag(t: Trade): int { Recv(t) - t.ts }

  predicate Admits(cfg: Config, t: Trade) {
    && VenueName(t) !in cfg.excluded
    && (StaleNs(cfg).Some? ==> Lag(t) <= StaleNs(cfg).value)
    && t.size > 0.0
  }

  /** Which trades count: those of a venue not excluded and of positive size that arrive within the budget, given
    * in milliseconds, if one other than zero is given. */
  lemma AdmitsIff(cfg: Config, t: Trade)
    ensures var name := if t.venue.Some? then t.venue.value else "";
      var lag := (if t.recv.Some? then t.recv.value else t.ts) - t.ts;
      Admits(cfg, t)
      <==> (name !in cfg.excluded && t.size > 0.0
            && (cfg.staleMs.None? || cfg.staleMs.value == 0.0
                || (cfg.staleMs.value > 0.0 && lag as real <= cfg.staleMs.value * 1_000_000.0)
                || (cfg.staleMs.value < 0.0 && lag as real < cfg.staleMs.value * 1_000_000.0 + 1.0)))
  {
  }

  function Admission(cfg: Config): Trade -> bool { (t: Trade) => Admits(cfg, t) }

  function Admitted(cfg: Config, consolidated: seq<Trade>): seq<Trade> { Filter(consolidated, Admission(cfg)) }

  function VenueNames(ts: seq<Trade>): seq<string> { MapBy(ts, VenueName) }

  function IndexFor(cfg: Config, admitted: seq<Trade>): map<string, nat> {
    if cfg.index.Some? then cfg.index.value else VenueBitmaskIndex(VenueNames(admitted))
  }

  function KeptVenues(kept: seq<Trade>): seq<string> { SortedVenues(SetOf(VenueNames(kept))) }

  function Survivors(cfg: Config, raw: seq<Trade>): seq<Trade> { Robust(raw, cfg.madK, cfg.minVenues).kept }

  function AggStamp(cfg: Config, index: map<string, nat>, kept: seq<Trade>): Stamp {
    Stamp(cfg.symbol, "agg", MaskOf(KeptVenues(kept), index), cfg.now)
  }

  /** The bar of one second from its survivors, if there are any. */
  function BarOf(cfg: Config, index: map<string, nat>, sec: int, kept: seq<Trade>): seq<Bar> {
    if kept == [] || Volume(kept) <= 0.0 then [] else [Roll(sec, AggStamp(cfg, index, kept), kept)]
  }

  datatype Diag = Diag(ts: int, nRaw: nat, nKept: nat, nDropped: int, median: Option<real>)

  function DiagOf(sec: int, nRaw: nat, f: Filtered): seq<Diag> {
    if f.kept != [] && Volume(f.kept) <= 0.0 then [] else [Diag(sec, nRaw, |f.kept|, nRaw - |f.kept|, f.median)]
  }

  function SecondBar(cfg: Config, index: map<string, nat>): seq<Trade> -> seq<Bar> {
    (raw: seq<Trade>) => BarOf(cfg, index, GroupKey(Second)(raw), Survivors(cfg, raw))
  }

  function SecondDiag(cfg: Config): seq<Trade> -> seq<Diag> {
    (raw: seq<Trade>) => DiagOf(GroupKey(Second)(raw), |raw|, Robust(raw, cfg.madK, cfg.minVenues))
  }

  function AggBars(cfg: Config, consolidated: seq<Trade>): seq<Bar> {
    var adm := Admitted(cfg, consolidated);
    Flatten(MapBy(Buckets(adm, Second), SecondBar(cfg, IndexFor(cfg, adm))))
  }

  function AggDiags(cfg: Config, consolidated: seq<Trade>): seq<Diag> {
    Flatten(MapBy(Buckets(Admitted(cfg, consolidated), Second), SecondDiag(cfg)))
  }

  // ----- the builder's loops -----

  /** `mask |= venues_index.get(v, 0)` over the surviving venues. */
  method SourcesMask(venues: seq<string>, index: map<string, nat>) returns (mask: nat)
    ensures mask == MaskOf(venues, index)
  {
    mask := 0;
    for i := 0 to |venues|
      invariant mask == MaskOf(venues[..i], index)
    {
      mask := Bits.Or(mask, Get(index, venues[i]));
      var ms := MapBy(venues[..i + 1], Lookup(index));
      assert ms[..i] == MapBy(venues[..i], Lookup(index));
    }
    TakeAll(venues);
  }

  ghost predicate Bucketed(bySec: map<int, seq<Trade>>, adm: seq<Trade>) {
    bySec.Keys == Keys(adm, Second) && forall k :: k in bySec ==> bySec[k] == Bucket(adm, Second, k)
  }

  lemma BucketNext(bySec: map<int, seq<Trade>>, adm: seq<Trade>, t: Trade)
    requires Bucketed(bySec, adm)
    ensures Bucketed(bySec[Second(t) := (if Second(t) in bySec then bySec[Second(t)] else []) + [t]], adm + [t])
  {
    var sec := Second(t);
    var s := adm + [t];
    assert Keys(s, Second) == Keys(adm, Second) + {sec} by {
      forall k ensures k in Keys(s, Second) <==> k in Keys(adm, Second) + {sec} {
        if k in Keys(adm, Second) {
          var i :| 0 <= i < |adm| && Second(adm[i]) == k;
          assert s[i] == adm[i];
        }
        assert s[|adm|] == t;
      }
    }
    BucketMember(adm, Second, sec);
    forall k | k in Keys(s, Second)
      ensures Bucket(s, Second, k) == Bucket(adm, Second, k) + if k == sec then [t] else []
    {
      FilterSnoc(adm, t, KeyIs(Second, k));
    }
  }

  /** First loop: admit and bucket. */
  method BucketTrades(cfg: Config, consolidated: seq<Trade>) returns (bySec: map<int, seq<Trade>>, seen: set<string>)
    ensures Bucketed(bySec, Admitted(cfg, consolidated))
    ensures seen == SetOf(VenueNames(Admitted(cfg, consolidated)))
  {
    bySec, seen := map[], {};
    ghost var adm: seq<Trade> := [];
    var staleLag := StaleNs(cfg);
    for i := 0 to |consolidated|
      invariant adm == Admitted(cfg, consolidated[..i])
      invariant Bucketed(bySec, adm)
      invariant seen == SetOf(VenueNames(adm))
    {
      var t := consolidated[i];
      AdmitNext(cfg, consolidated, i);
      if VenueName(t) in cfg.excluded {
        continue;
      }
      if staleLag.Some? && Recv(t) - t.ts > staleLag.value {
        continue;
      }
      if t.size <= 0.0 {
        continue;
      }
      BucketNext(bySec, adm, t);
      SeenNext(adm, t);
      var sec := (t.ts / NS_PER_SECOND) * NS_PER_SECOND;
      bySec := bySec[sec := (if sec in bySec then bySec[sec] else []) + [t]];
      seen := seen + {VenueName(t)};
      adm := adm + [t];
    }
    TakeAll(consolidated);
  }

  lemma AdmitNext(cfg: Config, ts: seq<Trade>, i: nat)
    requires i < |ts|
    ensures Admitted(cfg, ts[..i + 1]) == Admitted(cfg, ts[..i]) + if Admits(cfg, ts[i]) then [ts[i]] else []
  {
    TakeNext(ts, i);
    FilterSnoc(ts[..i], ts[i], Admission(cfg));
  }

  lemma SeenNext(adm: seq<Trade>, t: Trade)
    ensures SetOf(VenueNames(adm + [t])) == SetOf(VenueNames(adm)) + {VenueName(t)}
  {
    var a, b := VenueNames(adm), VenueNames(adm + [t]);
    assert b == a + [VenueName(t)];
    forall v ensures v in SetOf(b) <==> v in SetOf(a) + {VenueName(t)} {
      if v in SetOf(a) {
        var i :| 0 <= i < |a| && a[i] == v;
        assert b[i] == v;
      }
      assert b[|a|] == VenueName(t);
    }
  }

  lemma SecondAt(cfg: Config, index: map<string, nat>, sec: int, raw: seq<Trade>)
    requires sec == GroupKey(Second)(raw)
    ensures SecondBar(cfg, index)(raw) == BarOf(cfg, index, sec, Survivors(cfg, raw))
    ensures SecondDiag(cfg)(raw) == DiagOf(sec, |raw|, Robust(raw, cfg.madK, cfg.minVenues))
  {
  }

  /** Body of the second loop: filter and roll up one second. */
  method RollSecond(cfg: Config, index: map<string, nat>, sec: int, raw: seq<Trade>)
    returns (bars: seq<Bar>, diags: seq<Diag>)
    requires sec == GroupKey(Second)(raw)
    ensures bars == SecondBar(cfg, index)(raw) && diags == SecondDiag(cfg)(raw)
  {
    SecondAt(cfg, index, sec, raw);
    var f := Robust(raw, cfg.madK, cfg.minVenues);
    bars, diags := RollFiltered(cfg, index, sec, |raw|, f);
  }

  method RollFiltered(cfg: Config, index: map<string, nat>, sec: int, nRaw: nat, f: Filtered)
    returns (bars: seq<Bar>, diags: seq<Diag>)
    ensures bars == BarOf(cfg, index, sec, f.kept) && diags == DiagOf(sec, nRaw, f)
  {
    if f.kept == [] {
      return [], [Diag(sec, nRaw, 0, nRaw, f.median)];
    }
    var totalV := SumBy(f.kept, Size);
    if totalV <= 0.0 {
      return [], [];
    }
    var bar := RollKept(cfg, index, sec, f.kept, totalV);
    bars := [bar];
    diags := [Diag(sec, nRaw, |f.kept|, nRaw - |f.kept|, f.median)];
  }

  method RollKept(cfg: Config, index: map<string, nat>, sec: int, kept: seq<Trade>, totalV: real) returns (bar: Bar)
    requires kept != [] && totalV == SumBy(kept, Size) && totalV > 0.0
    ensures bar == Roll(sec, AggStamp(cfg, index, kept), kept)
  {
    var vwap := SumBy(kept, Notional) / totalV;
    var mask := SourcesMask(KeptVenues(kept), index);
    bar := Bar(sec, cfg.symbol, "agg", kept[0].price, MaxBy(kept, Price), MinBy(kept, Price),
               kept[|kept| - 1].price, totalV, vwap, |kept|, mask, Some(cfg.now));
  }

  lemma BucketHead(adm: seq<Trade>, k: int)
    requires k in Keys(adm, Second)
    ensures Bucket(adm, Second, k) != [] && Second(Bucket(adm, Second, k)[0]) == k
  {
    BucketMember(adm, Second, k);
    assert Bucket(adm, Second, k)[0] in Bucket(adm, Second, k);
  }

  /** Second loop: the seconds in order. */
  method RollSeconds(cfg: Config, index: map<string, nat>, bySec: map<int, seq<Trade>>, secs: seq<int>)
    returns (bars: seq<Bar>, diags: seq<Diag>)
    requires forall k :: k in secs ==> k in bySec && k == GroupKey(Second)(bySec[k])
    ensures bars == Flatten(MapBy(MapBy(secs, Entries(bySec)), SecondBar(cfg, index)))
    ensures diags == Flatten(MapBy(MapBy(secs, Entries(bySec)), SecondDiag(cfg)))
  {
    ghost var groups := MapBy(secs, Entries(bySec));
    bars, diags := [], [];
    for i := 0 to |secs|
      invariant bars == Flatten(MapBy(groups[..i], SecondBar(cfg, index)))
      invariant diags == Flatten(MapBy(groups[..i], SecondDiag(cfg)))
    {
      var b, d := RollSecond(cfg, index, secs[i], bySec[secs[i]]);
      FlattenNext(groups, i, SecondBar(cfg, index));
      FlattenNext(groups, i, SecondDiag(cfg));
      bars, diags := bars + b, diags + d;
    }
    TakeAll(groups);
  }

  function Entries(bySec: map<int, seq<Trade>>): int -> seq<Trade> { k => if k in bySec then bySec[k] else [] }

  lemma EntriesAreBuckets(bySec: map<int, seq<Trade>>, adm: seq<Trade>)
    requires Bucketed(bySec, adm)
    ensures MapBy(SortedKeys(adm, Second), Entries(bySec)) == Buckets(adm, Second)
    ensures forall k :: k in SortedKeys(adm, Second) ==> k in bySec && k == GroupKey(Second)(bySec[k])
  {
    var ks := SortedKeys(adm, Second);
    SortSetSorts(Keys(adm, Second), IntLe);
    forall k | k in Keys(adm, Second) ensures k == GroupKey(Second)(bySec[k]) {
      BucketHead(adm, k);
    }
    MapAgrees(ks, Entries(bySec), BucketOf(adm, Second));
  }

  lemma MapAgrees<T, U>(s: seq<T>, f: T -> U, g: T -> U)
    requires forall x :: x in s ==> f(x) == g(x)
    ensures MapBy(s, f) == MapBy(s, g)
  {
    assert forall i :: 0 <= i < |s| ==> s[i] in s;
  }

  method BuildAggBars(cfg: Config, consolidated: seq<Trade>) returns (bars: seq<Bar>, diags: seq<Diag>)
    ensures bars == AggBars(cfg, consolidated)
    ensures diags == AggDiags(cfg, consolidated)
  {
    var bySec, seen := BucketTrades(cfg, consolidated);
    var index := if cfg.index.Some? then cfg.index.value else IndexOfSet(seen);
    EntriesAreBuckets(bySec, Admitted(cfg, consolidated));
    bars, diags := RollSeconds(cfg, index, bySec, SortSet(bySec.Keys, IntLe));
  }

  lemma FlattenNext<U>(groups: seq<seq<Trade>>, i: nat, f: seq<Trade> -> seq<U>)
    requires i < |groups|
    ensures Flatten(MapBy(groups[..i + 1], f)) == Flatten(MapBy(groups[..i], f)) + f(groups[i])
  {
    assert MapBy(groups[..i + 1], f) == MapBy(groups[..i], f) + [f(groups[i])];
    FlattenSnoc(MapBy(groups[..i], f), f(groups[i]));
  }
}
