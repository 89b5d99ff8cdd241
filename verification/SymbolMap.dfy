/** `symbol_map`: point-in-time reference data under seeding, retiring and as-of reading. */
module SymbolMap {
  import opened Orders
  import opened Seqs

  /** The primary key. */
  datatype Key = Key(canonical: string, venue: string, from: int)

  /** Columns written once, by the insert. */
  datatype Fixed = Fixed(native: string, assetClass: string, base: string, quote: string)

  /** The remaining columns; `to` is null while the mapping is open. */
  datatype Row = Row(fixed: Fixed, to: Option<int>, note: Option<string>)

  type Table = map<Key, Row>

  /** One (canonical, venue) pair of the configuration. */
  datatype Mapping = Mapping(canonical: string, venue: string, fixed: Fixed)

  datatype Op =
    | Seed(config: seq<Mapping>, from: int)
    | Retire(canonical: string, venue: string, to: int, note: Option<string>)

  const SEED_NOTE := "seeded from config/symbols.toml"

  /** `INSERT ... ON CONFLICT DO NOTHING` */
  function Insert(t: Table, m: Mapping, from: int): Table {
    var k := Key(m.canonical, m.venue, from);
    if k in t then t else t[k := Row(m.fixed, None, Some(SEED_NOTE))]
  }

  function Seeded(t: Table, config: seq<Mapping>, from: int): Table {
    if config == [] then t else Insert(Seeded(t, Init(config), from), Last(config), from)
  }

  predicate Of(k: Key, canonical: string, venue: string) { k.canonical == canonical && k.venue == venue }

  /** `UPDATE ... WHERE effective_to_ns IS NULL`, with `COALESCE` on the note. */
  function Retired(t: Table, canonical: string, venue: string, to: int, note: Option<string>): Table {
    map k | k in t ::
      if Of(k, canonical, venue) && t[k].to.None?
      then t[k].(to := Some(to), note := if note.Some? then note else t[k].note) else t[k]
  }

  function After(t: Table, op: Op): Table {
    match op
    case Seed(config, from) => Seeded(t, config, from)
    case Retire(c, v, to, note) => Retired(t, c, v, to, note)
  }

  function Run(t: Table, ops: seq<Op>): Table {
    if ops == [] then t else After(Run(t, Init(ops)), Last(ops))
  }

  predicate VisibleAt(k: Key, r: Row, a: int) { k.from <= a && (r.to.None? || r.to.value > a) }

  /** `symbol_map_asof` */
  function AsOf(t: Table, a: int): Table { map k | k in t && VisibleAt(k, t[k], a) :: t[k] }

  /** What an as-of read says about the mappings: which there are and what they map to. */
  function Mappings(t: Table, a: int): map<Key, Fixed> { map k | k in t && VisibleAt(k, t[k], a) :: t[k].fixed }

  /** The effective time of an operation. */
  function Effective(op: Op): int { if op.Seed? then op.from else op.to }

  // ----- the table as an object -----

  class SymbolTable {
    var rows: Table

    constructor ()
      ensures rows == map[]
    {
      rows := map[];
    }

    /** `seed_symbol_map`: the default effective time is zero. */
    method SeedSymbolMap(config: seq<Mapping>, effectiveFrom: Option<int>) returns (n: nat)
      modifies this
      ensures rows == After(old(rows), Seed(config, if effectiveFrom.Some? then effectiveFrom.value else 0))
      ensures n == |rows|
    {
      var eff := if effectiveFrom.Some? then effectiveFrom.value else 0;
      for i := 0 to |config|
        invariant rows == Seeded(old(rows), config[..i], eff)
      {
        assert Init(config[..i + 1]) == config[..i];
        var k := Key(config[i].canonical, config[i].venue, eff);
        if k !in rows {
          rows := rows[k := Row(config[i].fixed, None, Some(SEED_NOTE))];
        }
      }
      TakeAll(config);
      n := |rows|;
    }

    /** No row comes or goes; those that change are the pair's open rows, and only in end time and note. */
    method RetireMapping(canonical: string, venue: string, effectiveTo: int, note: Option<string>)
      modifies this
      ensures rows == After(old(rows), Retire(canonical, venue, effectiveTo, note))
      ensures rows.Keys == old(rows).Keys
      ensures forall k :: k in rows ==>
        (rows[k] != old(rows)[k] <==> k.canonical == canonical && k.venue == venue && old(rows)[k].to.None?)
      ensures forall k :: k in rows && rows[k] != old(rows)[k] ==>
        rows[k].fixed == old(rows)[k].fixed && rows[k].to == Some(effectiveTo)
        && rows[k].note == if note.Some? then note else old(rows)[k].note
    {
      rows := Retired(rows, canonical, venue, effectiveTo, note);
    }
  }

  // ----- what one operation can change -----

  lemma {:induction false} SeededKeys(t: Table, config: seq<Mapping>, from: int, k: Key)
    ensures k in t ==> k in Seeded(t, config, from) && Seeded(t, config, from)[k] == t[k]
    ensures k in Seeded(t, config, from) && k !in t ==> k.from == from && Seeded(t, config, from)[k].to.None?
    ensures k in Seeded(t, config, from)
       <==> k in t || exists i :: 0 <= i < |config| && k == Key(config[i].canonical, config[i].venue, from)
  {
    if config != [] {
      SeededKeys(t, Init(config), from, k);
      if i :| 0 <= i < |config| && k == Key(config[i].canonical, config[i].venue, from) {
        assert i < |config| - 1 ==> Init(config)[i] == config[i];
      }
      if i :| 0 <= i < |Init(config)| && k == Key(Init(config)[i].canonical, Init(config)[i].venue, from) {
        assert config[i] == Init(config)[i];
      }
      assert config[|config| - 1] == Last(config);
    }
  }

  /** What a seed inserts: an open row with the columns configured for the pair, the first time it is listed. */
  lemma {:induction false} SeededRow(t: Table, config: seq<Mapping>, from: int, k: Key) returns (i: nat)
    requires k !in t && k in Seeded(t, config, from)
    ensures i < |config| && config[i].canonical == k.canonical && config[i].venue == k.venue && k.from == from
    ensures forall j :: 0 <= j < i ==> config[j].canonical != k.canonical || config[j].venue != k.venue
    ensures Seeded(t, config, from)[k] == Row(config[i].fixed, None, Some("seeded from config/symbols.toml"))
  {
    if k in Seeded(t, Init(config), from) {
      i := SeededRow(t, Init(config), from, k);
    } else {
      i := |config| - 1;
      forall j | 0 <= j < i ensures config[j].canonical != k.canonical || config[j].venue != k.venue {
        SeededKeys(t, Init(config), from, k);
        assert Init(config)[j] == config[j];
      }
    }
  }

  /** A row is never deleted, and its fixed columns never change; a closed row never changes at all. */
  lemma RowsPersist(t: Table, op: Op, k: Key)
    requires k in t
    ensures k in After(t, op) && After(t, op)[k].fixed == t[k].fixed
    ensures t[k].to.Some? ==> After(t, op)[k] == t[k]
  {
    if op.Seed? { SeededKeys(t, op.config, op.from, k); }
  }

  /** A seed changes the mappings at `a` exactly when it inserts a row effective by then. */
  lemma {:induction false} SeedChangesIff(t: Table, config: seq<Mapping>, from: int, a: int)
    ensures Mappings(Seeded(t, config, from), a) != Mappings(t, a)
       <==> from <= a && exists i :: 0 <= i < |config| && Key(config[i].canonical, config[i].venue, from) !in t
  {
    var u := Seeded(t, config, from);
    forall k ensures k in Mappings(u, a) && k !in Mappings(t, a) ==>
      from <= a && exists i :: 0 <= i < |config| && Key(config[i].canonical, config[i].venue, from) !in t
    {
      SeededKeys(t, config, from, k);
    }
    forall k | k in Mappings(t, a) ensures k in Mappings(u, a) && Mappings(u, a)[k] == Mappings(t, a)[k] {
      SeededKeys(t, config, from, k);
    }
    if i :| from <= a && 0 <= i < |config| && Key(config[i].canonical, config[i].venue, from) !in t {
      var k := Key(config[i].canonical, config[i].venue, from);
      SeededKeys(t, config, from, k);
      assert k in Mappings(u, a) && k !in Mappings(t, a);
    } else {
      assert Mappings(u, a).Keys == Mappings(t, a).Keys;
    }
  }

  /** A retirement changes the mappings at `a` exactly when it cuts off an open row visible at `a`. */
  lemma RetireChangesIff(t: Table, c: string, v: string, to: int, note: Option<string>, a: int)
    ensures Mappings(Retired(t, c, v, to, note), a) != Mappings(t, a)
       <==> to <= a && exists k :: k in t && Of(k, c, v) && t[k].to.None? && k.from <= a
  {
    var u := Retired(t, c, v, to, note);
    if k :| to <= a && k in t && Of(k, c, v) && t[k].to.None? && k.from <= a {
      assert k in Mappings(t, a) && k !in Mappings(u, a);
    }
  }

  // ----- history -----

  /** The past is immutable: operations effective at `T` or later leave the mappings of every earlier
    * moment as they were. */
  lemma {:induction false} HistoryImmutable(t: Table, ops: seq<Op>, T: int, a: int)
    requires a < T && forall i :: 0 <= i < |ops| ==> Effective(ops[i]) >= T
    ensures Mappings(Run(t, ops), a) == Mappings(t, a)
  {
    if ops != [] {
      HistoryImmutable(t, Init(ops), T, a);
      var op, s := Last(ops), Run(t, Init(ops));
      assert Effective(op) >= T;
      match op
      case Seed(config, from) => SeedChangesIff(s, config, from, a);
      case Retire(c, v, to, note) => RetireChangesIff(s, c, v, to, note, a);
    }
  }

  /** The full rows of an as-of read are not immutable: retiring later shows in `effective_to_ns` and, if
    * given, the note, of exactly the rows it closes. */
  lemma RetireShowsInPast(t: Table, c: string, v: string, to: int, note: Option<string>, a: int)
    requires a < to
    ensures AsOf(Retired(t, c, v, to, note), a).Keys == AsOf(t, a).Keys
    ensures AsOf(Retired(t, c, v, to, note), a) != AsOf(t, a)
       <==> exists k :: k in AsOf(t, a) && Of(k, c, v) && t[k].to.None?
  {
    var u := Retired(t, c, v, to, note);
    if k :| k in AsOf(t, a) && Of(k, c, v) && t[k].to.None? {
      assert AsOf(u, a)[k].to == Some(to);
    }
  }

  // ----- re-seeding -----

  ghost predicate Knows(t: Table, config: seq<Mapping>, from: int) {
    forall i :: 0 <= i < |config| ==> Key(config[i].canonical, config[i].venue, from) in t
  }

  /** A seed is a no-op exactly when every one of its keys is already there. */
  lemma {:induction false} SeedNoOpIff(t: Table, config: seq<Mapping>, from: int)
    ensures Seeded(t, config, from) == t <==> Knows(t, config, from)
  {
    var u := Seeded(t, config, from);
    if Knows(t, config, from) {
      forall k ensures k in u <==> k in t { SeededKeys(t, config, from, k); }
      forall k | k in t ensures u[k] == t[k] { SeededKeys(t, config, from, k); }
    } else {
      var i :| 0 <= i < |config| && Key(config[i].canonical, config[i].venue, from) !in t;
      SeededKeys(t, config, from, Key(config[i].canonical, config[i].venue, from));
    }
  }

  lemma {:induction false} KeysPersist(t: Table, ops: seq<Op>, k: Key)
    requires k in t
    ensures k in Run(t, ops) && Run(t, ops)[k].fixed == t[k].fixed
    ensures t[k].to.Some? ==> Run(t, ops)[k] == t[k]
  {
    if ops != [] {
      KeysPersist(t, Init(ops), k);
      RowsPersist(Run(t, Init(ops)), Last(ops), k);
    }
  }

  /** Seeding the same configuration at the same effective time again changes nothing, whatever happened
    * in between: in particular it does not reopen what was retired. */
  lemma {:induction false} ReseedIsNoOp(t: Table, config: seq<Mapping>, from: int, ops: seq<Op>)
    ensures var s := Run(Seeded(t, config, from), ops); Seeded(s, config, from) == s
  {
    var s := Run(Seeded(t, config, from), ops);
    forall i | 0 <= i < |config| ensures Key(config[i].canonical, config[i].venue, from) in s {
      var k := Key(config[i].canonical, config[i].venue, from);
      SeededKeys(t, config, from, k);
      KeysPersist(Seeded(t, config, from), ops, k);
    }
    SeedNoOpIff(s, config, from);
  }

  // ----- retirement -----

  ghost predicate AbsentAt(t: Table, c: string, v: string, a: int) {
    forall k :: k in t && Of(k, c, v) ==> !VisibleAt(k, t[k], a)
  }

  /** A closed row of the pair covers `a`. */
  ghost predicate CoveredByClosed(t: Table, c: string, v: string, a: int) {
    exists k :: k in t && Of(k, c, v) && t[k].to.Some? && k.from <= a < t[k].to.value
  }

  /** After retiring at `to`, the pair is gone at `a >= to` exactly when no row closed earlier, with a later
    * cutoff, still covers `a`. */
  lemma AbsentIff(t: Table, c: string, v: string, to: int, note: Option<string>, a: int)
    requires a >= to
    ensures AbsentAt(Retired(t, c, v, to, note), c, v, a) <==> !CoveredByClosed(t, c, v, a)
  {
    var u := Retired(t, c, v, to, note);
    if k :| k in t && Of(k, c, v) && t[k].to.Some? && k.from <= a < t[k].to.value {
      assert k in u && u[k] == t[k] && VisibleAt(k, u[k], a);
    }
    if !CoveredByClosed(t, c, v, a) {
      forall k | k in u && Of(k, c, v) ensures !VisibleAt(k, u[k], a) {
        if t[k].to.Some? { assert !(k.from <= a < t[k].to.value); }
      }
    }
  }

  /** Such a row can exist: an overlapping re-seed retired with an earlier cutoff than before. */
  lemma EarlierCutoffLeavesPairVisible(c: string, v: string, f: Fixed)
    ensures var t := Run(map[], [Seed([Mapping(c, v, f)], 0), Retire(c, v, 200, None), Seed([Mapping(c, v, f)], 100),
                                 Retire(c, v, 150, None)]);
      !AbsentAt(t, c, v, 160)
  {
    var s0, r0, s1, r1 := Seed([Mapping(c, v, f)], 0), Retire(c, v, 200, None), Seed([Mapping(c, v, f)], 100),
                          Retire(c, v, 150, None);
    var k := Key(c, v, 0);
    SeededKeys(map[], s0.config, 0, k);
    assert s0.config[0] == Mapping(c, v, f);
    var t0 := Run(map[], [s0]);
    assert [s0] == [] + [s0] && Init([s0]) == [] && Run(map[], Init([s0])) == map[];
    assert k in t0 && t0[k].to == None;
    assert Init([s0, r0]) == [s0];
    var t1 := Run(map[], [s0, r0]);
    assert k in t1 && t1[k].to == Some(200);
    RowsPersist(t1, s1, k);
    assert Init([s0, r0, s1]) == [s0, r0];
    var t2 := Run(map[], [s0, r0, s1]);
    RowsPersist(t2, r1, k);
    assert Init([s0, r0, s1, r1]) == [s0, r0, s1];
  }

  /** All closed rows of the pair end by `to`. */
  ghost predicate ClosedBy(t: Table, c: string, v: string, to: int) {
    forall k :: k in t && Of(k, c, v) && t[k].to.Some? ==> t[k].to.value <= to
  }

  /** The operation, if it retires the pair, does so at `to` or earlier. */
  predicate RetiresBy(op: Op, c: string, v: string, to: int) {
    op.Retire? && op.canonical == c && op.venue == v ==> op.to <= to
  }

  lemma {:induction false} CutoffsBound(t: Table, ops: seq<Op>, c: string, v: string, to: int)
    requires ClosedBy(t, c, v, to) && forall i :: 0 <= i < |ops| ==> RetiresBy(ops[i], c, v, to)
    ensures ClosedBy(Run(t, ops), c, v, to)
  {
    if ops != [] {
      CutoffsBound(t, Init(ops), c, v, to);
      var s, op := Run(t, Init(ops)), Last(ops);
      assert RetiresBy(op, c, v, to);
      if op.Seed? {
        forall k | k in After(s, op) && Of(k, c, v) && After(s, op)[k].to.Some? ensures After(s, op)[k].to.value <= to {
          SeededKeys(s, op.config, op.from, k);
        }
      }
    }
  }

  /** Every row of the pair is closed, by `to`. */
  ghost predicate AllClosedBy(t: Table, c: string, v: string, to: int) {
    forall k :: k in t && Of(k, c, v) ==> t[k].to.Some? && t[k].to.value <= to
  }

  /** The operation inserts a new row for the pair. */
  ghost predicate Reseeds(t: Table, op: Op, c: string, v: string) {
    && op.Seed? && Key(c, v, op.from) !in t
    && exists i :: 0 <= i < |op.config| && op.config[i].canonical == c && op.config[i].venue == v
  }

  ghost predicate NeverReseeded(t: Table, ops: seq<Op>, c: string, v: string) {
    forall i :: 0 <= i < |ops| ==> !Reseeds(Run(t, ops[..i]), ops[i], c, v)
  }

  lemma StepKeepsClosed(s: Table, op: Op, c: string, v: string, to: int)
    requires AllClosedBy(s, c, v, to) && !Reseeds(s, op, c, v)
    ensures AllClosedBy(After(s, op), c, v, to)
  {
    if op.Seed? {
      forall k | k in After(s, op) && Of(k, c, v) ensures After(s, op)[k].to.Some? && After(s, op)[k].to.value <= to {
        SeededKeys(s, op.config, op.from, k);
      }
    }
  }

  lemma {:induction false} StaysClosed(t: Table, ops: seq<Op>, c: string, v: string, to: int)
    requires AllClosedBy(t, c, v, to) && NeverReseeded(t, ops, c, v)
    ensures AllClosedBy(Run(t, ops), c, v, to)
  {
    if ops != [] {
      var less := Init(ops);
      forall i | 0 <= i < |less| ensures !Reseeds(Run(t, less[..i]), less[i], c, v) {
        assert less[..i] == ops[..i];
      }
      StaysClosed(t, less, c, v, to);
      assert ops[..|ops| - 1] == less;
      StepKeepsClosed(Run(t, less), Last(ops), c, v, to);
    }
  }

  /** A pair retired at `to`, with no earlier cutoff of it beyond `to`, is absent at every `a >= to`, through
    * any later operations that do not re-seed it. */
  lemma {:induction false} RetiredUntilReseeded(before: seq<Op>, c: string, v: string, to: int, note: Option<string>,
                                                later: seq<Op>, a: int)
    requires forall i :: 0 <= i < |before| ==> RetiresBy(before[i], c, v, to)
    requires NeverReseeded(Retired(Run(map[], before), c, v, to, note), later, c, v) && a >= to
    ensures AbsentAt(Run(Retired(Run(map[], before), c, v, to, note), later), c, v, a)
  {
    CutoffsBound(map[], before, c, v, to);
    var t := Retired(Run(map[], before), c, v, to, note);
    StaysClosed(t, later, c, v, to);
  }
}
