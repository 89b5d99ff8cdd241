/** The writer used by one thread: the class, each of whose methods is a run of the thread machine. */
module SequentialWriter {
  import opened Orders
  import opened Seqs
  import opened Gathering
  import opened Writer

  datatype Store = Store(buffers: map<Key, Buffer>, disk: map<Path, seq<Row>>)

  /** `_flush_key`: the key's rows, if any, move from the buffer to a new part file. */
  function Flushed(st: Store, k: Key, suffix: int): Store {
    Store(st.buffers - {k},
          if k in st.buffers && st.buffers[k].rows != []
          then st.disk[PartFile(k, st.buffers[k].rows, suffix) := st.buffers[k].rows] else st.disk)
  }

  /** The file a flush would write does not exist yet. */
  predicate Free(st: Store, k: Key, suffix: int) {
    k in st.buffers && st.buffers[k].rows != [] ==> PartFile(k, st.buffers[k].rows, suffix) !in st.disk
  }

  function Buffering(st: Store, r: Row, openedAt: int): Store { st.(buffers := Appended(st.buffers, r, openedAt)) }

  function AfterAppend(cfg: Config, st: Store, r: Row, openedAt: int, now: int, suffix: int): Store {
    var b := Buffering(st, r, openedAt);
    if ShouldFlush(cfg, b.buffers[KeyOf(r)], now) then Flushed(b, KeyOf(r), suffix) else b
  }

  /** Flushing a list of keys, each with its clock reading. */
  function AfterFlushes(st: Store, keys: seq<Key>, suffixes: seq<int>): Store
    requires |keys| == |suffixes|
    decreases |keys|
  {
    if keys == [] then st else AfterFlushes(Flushed(st, keys[0], suffixes[0]), keys[1..], suffixes[1..])
  }

  // ----- as runs of the machine -----

  /** The machine with one thread, between two of its steps. */
  ghost function Alone(st: Store, todo: seq<Key>, accepted: seq<Row>): State {
    State(st.buffers, [Thread(todo, None)], st.disk, accepted)
  }

  lemma {:induction false} RunsConcat(cfg: Config, s: State, a: seq<Step>, b: seq<Step>)
    requires Runs(cfg, s, a) && Runs(cfg, End(cfg, s, a), b)
    ensures Runs(cfg, s, a + b) && End(cfg, s, a + b) == End(cfg, End(cfg, s, a), b)
    decreases |a|
  {
    if a == [] {
      assert a + b == b;
    } else {
      TailOfConcat(a, b);
      RunsConcat(cfg, After(cfg, s, a[0]), a[1..], b);
    }
  }

  lemma {:induction false} OneStep(cfg: Config, s: State, a: Step)
    requires Enabled(s, a)
    ensures Runs(cfg, s, [a]) && End(cfg, s, [a]) == After(cfg, s, a)
  {
    assert [a][1..] == [];
    assert Runs(cfg, After(cfg, s, a), []);
  }

  lemma FlushIsRun(cfg: Config, st: Store, k: Key, suffix: int, rest: seq<Key>, accepted: seq<Row>)
    returns (steps: seq<Step>)
    requires Free(st, k, suffix)
    ensures NoAppends(steps) && Runs(cfg, Alone(st, [k] + rest, accepted), steps)
    ensures End(cfg, Alone(st, [k] + rest, accepted), steps) == Alone(Flushed(st, k, suffix), rest, accepted)
  {
    var s := Alone(st, [k] + rest, accepted);
    assert ([k] + rest)[1..] == rest;
    OneStep(cfg, s, Pop(0));
    var popped := After(cfg, s, Pop(0));
    if k in st.buffers && st.buffers[k].rows != [] {
      OneStep(cfg, popped, Write(0, suffix));
      RunsConcat(cfg, s, [Pop(0)], [Write(0, suffix)]);
      steps := [Pop(0)] + [Write(0, suffix)];
    } else {
      steps := [Pop(0)];
    }
  }

  lemma {:induction false} AppendStep(cfg: Config, st: Store, r: Row, openedAt: int, now: int, accepted: seq<Row>)
    ensures var b, s, a := Buffering(st, r, openedAt), Alone(st, [], accepted), Append(0, r, openedAt, now);
      && Runs(cfg, s, [a])
      && End(cfg, s, [a])
         == Alone(b, if ShouldFlush(cfg, b.buffers[KeyOf(r)], now) then [KeyOf(r)] + [] else [], accepted + [r])
  {
    OneStep(cfg, Alone(st, [], accepted), Append(0, r, openedAt, now));
    assert [KeyOf(r)] + [] == [KeyOf(r)];
  }

  /** `append` is an append step, followed by a flush when one is due. */
  lemma AppendIsRun(cfg: Config, st: Store, r: Row, openedAt: int, now: int, suffix: int, accepted: seq<Row>)
    returns (steps: seq<Step>)
    requires Free(Buffering(st, r, openedAt), KeyOf(r), suffix)
    ensures Runs(cfg, Alone(st, [], accepted), steps)
    ensures End(cfg, Alone(st, [], accepted), steps)
         == Alone(AfterAppend(cfg, st, r, openedAt, now, suffix), [], accepted + [r])
  {
    var s, a, b := Alone(st, [], accepted), Append(0, r, openedAt, now), Buffering(st, r, openedAt);
    AppendStep(cfg, st, r, openedAt, now, accepted);
    steps := [a];
    if ShouldFlush(cfg, b.buffers[KeyOf(r)], now) {
      var more := FlushIsRun(cfg, b, KeyOf(r), suffix, [], accepted + [r]);
      RunsConcat(cfg, s, [a], more);
      steps := [a] + more;
    }
  }

  ghost predicate Distinct(keys: seq<Key>) { forall i, j :: 0 <= i < j < |keys| ==> keys[i] != keys[j] }

  /** Every file the flushes would write is new. */
  ghost predicate AllFree(st: Store, keys: seq<Key>, suffixes: seq<int>) {
    |keys| == |suffixes| && forall i :: 0 <= i < |keys| ==> Free(st, keys[i], suffixes[i])
  }

  ghost predicate Sound(st: Store) { forall k :: k in st.buffers ==> OfKey(st.buffers[k].rows, k) }

  /** Flushing one key leaves the files of the other keys free. */
  lemma StillFree(st: Store, j: Key, m: int, k: Key, n: int)
    requires Sound(st) && j != k && Free(st, j, m) && Free(st, k, n)
    ensures Free(Flushed(st, k, n), j, m)
  {
    if j in st.buffers && k in st.buffers && PartFile(j, st.buffers[j].rows, m) == PartFile(k, st.buffers[k].rows, n) {
      PathDeterminesKey(j, k, st.buffers[j].rows, st.buffers[k].rows, m, n);
    }
  }

  lemma RestFree(st: Store, keys: seq<Key>, suffixes: seq<int>)
    requires Sound(st) && keys != [] && Distinct(keys) && AllFree(st, keys, suffixes)
    ensures var f := Flushed(st, keys[0], suffixes[0]);
      Sound(f) && Distinct(keys[1..]) && AllFree(f, keys[1..], suffixes[1..])
  {
    var f := Flushed(st, keys[0], suffixes[0]);
    var ks, ss := keys[1..], suffixes[1..];
    forall i | 0 <= i < |ks| ensures Free(f, ks[i], ss[i]) {
      assert ks[i] == keys[i + 1] && ss[i] == suffixes[i + 1] && keys[0] != keys[i + 1];
      StillFree(st, ks[i], ss[i], keys[0], suffixes[0]);
    }
    forall i, j | 0 <= i < j < |ks| ensures ks[i] != ks[j] {
      assert keys[i + 1] != keys[j + 1];
    }
  }

  lemma {:induction false} FlushesAreRun(cfg: Config, st: Store, keys: seq<Key>, suffixes: seq<int>, accepted: seq<Row>)
    returns (steps: seq<Step>)
    requires Sound(st) && Distinct(keys) && AllFree(st, keys, suffixes)
    ensures NoAppends(steps) && Runs(cfg, Alone(st, keys, accepted), steps)
    ensures End(cfg, Alone(st, keys, accepted), steps) == Alone(AfterFlushes(st, keys, suffixes), [], accepted)
    decreases |keys|
  {
    if keys == [] {
      steps := [];
    } else {
      RestFree(st, keys, suffixes);
      var first := FlushIsRun(cfg, st, keys[0], suffixes[0], keys[1..], accepted);
      assert [keys[0]] + keys[1..] == keys;
      var more := FlushesAreRun(cfg, Flushed(st, keys[0], suffixes[0]), keys[1..], suffixes[1..], accepted);
      RunsConcat(cfg, Alone(st, keys, accepted), first, more);
      steps := first + more;
    }
  }

  /** What holds between calls: the machine's invariants, for one idle thread. */
  ghost predicate Valid(cfg: Config, st: Store, accepted: seq<Row>) {
    var s := Alone(st, [], accepted);
    Conserves(s) && Partitioned(s) && (cfg.batchRows >= 1 ==> Bounded(cfg, s))
  }

  lemma {:induction false} RunKeepsValid(cfg: Config, st: Store, accepted: seq<Row>, steps: seq<Step>, st': Store,
                                         accepted': seq<Row>)
    requires Valid(cfg, st, accepted) && Runs(cfg, Alone(st, [], accepted), steps)
    requires End(cfg, Alone(st, [], accepted), steps) == Alone(st', [], accepted')
    ensures Valid(cfg, st', accepted')
  {
    var s := Alone(st, [], accepted);
    RowsConserved(cfg, s, steps);
    FilesPartitioned(cfg, s, steps);
    if cfg.batchRows >= 1 { BuffersBounded(cfg, s, steps); }
  }

  lemma AppendKeepsValid(cfg: Config, st: Store, r: Row, openedAt: int, now: int, suffix: int, accepted: seq<Row>)
    requires Valid(cfg, st, accepted) && Free(Buffering(st, r, openedAt), KeyOf(r), suffix)
    ensures Valid(cfg, AfterAppend(cfg, st, r, openedAt, now, suffix), accepted + [r])
  {
    var steps := AppendIsRun(cfg, st, r, openedAt, now, suffix, accepted);
    RunKeepsValid(cfg, st, accepted, steps, AfterAppend(cfg, st, r, openedAt, now, suffix), accepted + [r]);
  }

  lemma {:induction false} FlushesEmpty(st: Store, keys: seq<Key>, suffixes: seq<int>)
    requires |keys| == |suffixes| && forall k :: k in st.buffers ==> k in keys
    ensures AfterFlushes(st, keys, suffixes).buffers == map[]
    decreases |keys|
  {
    if keys != [] {
      var f := Flushed(st, keys[0], suffixes[0]);
      forall k | k in f.buffers ensures k in keys[1..] {
        assert keys == [keys[0]] + keys[1..];
      }
      FlushesEmpty(f, keys[1..], suffixes[1..]);
    }
  }

  /** A sequential `flush_all` puts every accepted row on disk, once. */
  lemma {:induction false} FlushAllKeepsValid(cfg: Config, st: Store, keys: seq<Key>, suffixes: seq<int>,
                                              accepted: seq<Row>)
    requires Valid(cfg, st, accepted) && Lists(keys, st.buffers) && AllFree(st, keys, suffixes)
    ensures var e := AfterFlushes(st, keys, suffixes);
      Valid(cfg, e, accepted) && e.buffers == map[] && multiset(accepted) == Stored(e.disk)
  {
    var s := Alone(st, [], accepted);
    var e := AfterFlushes(st, keys, suffixes);
    OneStep(cfg, s, ListKeys(0, keys));
    assert After(cfg, s, ListKeys(0, keys)) == Alone(st, keys, accepted);
    var steps := FlushesAreRun(cfg, st, keys, suffixes, accepted);
    RunsConcat(cfg, s, [ListKeys(0, keys)], steps);
    RunKeepsValid(cfg, st, accepted, [ListKeys(0, keys)] + steps, e, accepted);
    FlushesEmpty(st, keys, suffixes);
    FlushAllFlushesAll(cfg, s, 0, keys, steps, Alone(e, [], accepted));
  }

  /** The clock readings of one `append`. */
  datatype Reading = Reading(openedAt: int, now: int, suffix: int)

  function AfterAppends(cfg: Config, st: Store, rows: seq<Row>, clock: seq<Reading>): Store
    requires |rows| == |clock|
  {
    if rows == [] then st else
      var c := Last(clock);
      AfterAppend(cfg, AfterAppends(cfg, st, Init(rows), Init(clock)), Last(rows), c.openedAt, c.now, c.suffix)
  }

  // ----- what one append does -----

  /** The row joins the buffer of its table, symbol, venue and hour. If that then holds a batch, or the clock is
    * a flush interval past its opening, the buffer goes and its rows are one new file, in the directory of its
    * first row's UTC date; otherwise the disk stays as it is. Other buffers stay in either case. */
  ghost predicate AppendDoes(cfg: Config, st: Store, next: Store, r: Row, openedAt: int, now: int, suffix: int) {
    var k := Key(r.table, r.symbol, r.venue, r.ts / 3_600_000_000_000);
    var was := if k in st.buffers then st.buffers[k] else Buffer([], openedAt);
    var rows := was.rows + [r];
    var path := Path(r.table, r.symbol, r.venue, rows[0].ts / 1_000_000_000 / 86_400,
                     r.ts / 3_600_000_000_000 % 24, suffix);
    var full := |rows| >= cfg.batchRows || now - was.openedAt >= cfg.batchSeconds * 1_000_000_000;
    && (k !in next.buffers <==> full)
    && next.buffers - {k} == st.buffers - {k}
    && if full then path !in st.disk && next.disk == st.disk[path := rows]
       else next.disk == st.disk && next.buffers[k] == Buffer(rows, was.openedAt)
  }

  lemma AppendDoesIt(cfg: Config, st: Store, r: Row, openedAt: int, now: int, suffix: int)
    requires Free(Buffering(st, r, openedAt), KeyOf(r), suffix)
    ensures AppendDoes(cfg, st, AfterAppend(cfg, st, r, openedAt, now, suffix), r, openedAt, now, suffix)
  {
    var k := Key(r.table, r.symbol, r.venue, r.ts / 3_600_000_000_000);
    assert k == KeyOf(r);
    var b := Buffering(st, r, openedAt);
    assert b.buffers - {k} == st.buffers - {k};
    var next := AfterAppend(cfg, st, r, openedAt, now, suffix);
    assert next.buffers - {k} == st.buffers - {k};
  }

  // ----- when a crash loses no more than one partial batch -----

  /** The row is of the only open key, or fills its buffer so that it is written at once. */
  ghost predicate StaysInHour(cfg: Config, st: Store, r: Row, openedAt: int, now: int) {
    st.buffers.Keys <= {KeyOf(r)} || ShouldFlush(cfg, Buffering(st, r, openedAt).buffers[KeyOf(r)], now)
  }

  /** One append keeps at most one buffer open exactly when it stays in the hour, or flushes at once. */
  lemma AppendKeepsOneOpenIff(cfg: Config, st: Store, r: Row, openedAt: int, now: int, suffix: int)
    requires OneOpen(st.buffers)
    ensures OneOpen(AfterAppend(cfg, st, r, openedAt, now, suffix).buffers) <==> StaysInHour(cfg, st, r, openedAt, now)
  {
    var k, b := KeyOf(r), Buffering(st, r, openedAt);
    assert b.buffers.Keys == st.buffers.Keys + {k};
    if ShouldFlush(cfg, b.buffers[k], now) {
      assert forall j :: j in AfterAppend(cfg, st, r, openedAt, now, suffix).buffers ==> j in st.buffers;
    } else if j :| j in st.buffers && j != k {
      assert j in b.buffers && k in b.buffers;
    }
  }

  /** At most one buffer is open after the first `i` appends. */
  ghost predicate OneOpenAfter(cfg: Config, st: Store, rows: seq<Row>, clock: seq<Reading>, i: nat)
    requires |rows| == |clock| && i <= |rows|
  {
    OneOpen(AfterAppends(cfg, st, rows[..i], clock[..i]).buffers)
  }

  ghost predicate AppendStays(cfg: Config, st: Store, rows: seq<Row>, clock: seq<Reading>, i: nat)
    requires |rows| == |clock| && i < |rows|
  {
    StaysInHour(cfg, AfterAppends(cfg, st, rows[..i], clock[..i]), rows[i], clock[i].openedAt, clock[i].now)
  }

  lemma NextAppendIff(cfg: Config, st: Store, rows: seq<Row>, clock: seq<Reading>, i: nat, next: nat)
    requires |rows| == |clock| && next == i + 1 && next <= |rows| && OneOpenAfter(cfg, st, rows, clock, i)
    ensures OneOpenAfter(cfg, st, rows, clock, next) <==> AppendStays(cfg, st, rows, clock, i)
  {
    AppendsNext(cfg, st, rows, clock, i);
    AppendKeepsOneOpenIff(cfg, AfterAppends(cfg, st, rows[..i], clock[..i]), rows[i], clock[i].openedAt,
                          clock[i].now, clock[i].suffix);
  }

  lemma {:induction false} StaysSoFar(cfg: Config, st: Store, rows: seq<Row>, clock: seq<Reading>, i: nat)
    requires OneOpen(st.buffers) && |rows| == |clock| && i <= |rows|
    requires forall j :: 0 <= j < i ==> AppendStays(cfg, st, rows, clock, j)
    ensures OneOpenAfter(cfg, st, rows, clock, i)
  {
    if i > 0 {
      var was := i - 1;
      StaysSoFar(cfg, st, rows, clock, was);
      NextAppendIff(cfg, st, rows, clock, was, i);
    }
  }

  /** Of a whole stream of appends: at most one buffer is ever open exactly when every append stays in the hour
    * or flushes at once. */
  lemma {:induction false} AppendsKeepOneOpenIff(cfg: Config, st: Store, rows: seq<Row>, clock: seq<Reading>)
    requires OneOpen(st.buffers) && |rows| == |clock|
    ensures (forall i :: 0 <= i <= |rows| ==> OneOpenAfter(cfg, st, rows, clock, i))
       <==> forall i :: 0 <= i < |rows| ==> AppendStays(cfg, st, rows, clock, i)
  {
    if forall i :: 0 <= i <= |rows| ==> OneOpenAfter(cfg, st, rows, clock, i) {
      forall i | 0 <= i < |rows| ensures AppendStays(cfg, st, rows, clock, i) {
        var next := i + 1;
        assert OneOpenAfter(cfg, st, rows, clock, next);
        NextAppendIff(cfg, st, rows, clock, i, next);
      }
    }
    if forall i :: 0 <= i < |rows| ==> AppendStays(cfg, st, rows, clock, i) {
      forall i | 0 <= i <= |rows| ensures OneOpenAfter(cfg, st, rows, clock, i) {
        StaysSoFar(cfg, st, rows, clock, i);
      }
    }
  }

  /** Every file on disk was named by an earlier clock reading, so the next one is free. */
  ghost predicate Earlier(st: Store, suffix: int) { forall p :: p in st.disk ==> p.suffix < suffix }

  lemma EarlierIsFree(cfg: Config, st: Store, r: Row, c: Reading, next: int)
    requires Earlier(st, c.suffix) && c.suffix < next
    ensures Free(Buffering(st, r, c.openedAt), KeyOf(r), c.suffix)
    ensures Earlier(AfterAppend(cfg, st, r, c.openedAt, c.now, c.suffix), next)
  {
  }

  lemma NextIsFree(cfg: Config, st: Store, r: Row, clock: seq<Reading>, i: nat)
    requires i < |clock| && forall j :: i <= j < |clock| ==> Earlier(st, clock[j].suffix)
    requires forall j, k :: 0 <= j < k < |clock| ==> clock[j].suffix < clock[k].suffix
    ensures Free(Buffering(st, r, clock[i].openedAt), KeyOf(r), clock[i].suffix)
    ensures var next := AfterAppend(cfg, st, r, clock[i].openedAt, clock[i].now, clock[i].suffix);
      forall j :: i < j < |clock| ==> Earlier(next, clock[j].suffix)
  {
    EarlierIsFree(cfg, st, r, clock[i], clock[i].suffix + 1);
    forall j | i < j < |clock|
      ensures Earlier(AfterAppend(cfg, st, r, clock[i].openedAt, clock[i].now, clock[i].suffix), clock[j].suffix)
    {
      EarlierIsFree(cfg, st, r, clock[i], clock[j].suffix);
    }
  }

  lemma {:induction false} AppendsNext(cfg: Config, st: Store, rows: seq<Row>, clock: seq<Reading>, i: nat)
    requires |rows| == |clock| && i < |rows|
    ensures AfterAppends(cfg, st, rows[..i + 1], clock[..i + 1])
         == AfterAppend(cfg, AfterAppends(cfg, st, rows[..i], clock[..i]), rows[i], clock[i].openedAt, clock[i].now,
                        clock[i].suffix)
  {
    assert Init(rows[..i + 1]) == rows[..i] && Init(clock[..i + 1]) == clock[..i];
  }

  lemma ValidIsShort(cfg: Config, st: Store, accepted: seq<Row>)
    requires Valid(cfg, st, accepted)
    ensures cfg.batchRows >= 1 ==> forall k :: k in st.buffers ==> |st.buffers[k].rows| < cfg.batchRows
  {
    if cfg.batchRows >= 1 { QuietBuffersShort(cfg, Alone(st, [], accepted)); }
  }

  // ----- the class -----

  class PartitionedParquetWriter {
    const cfg: Config
    var buffers: map<Key, Buffer>
    var disk: map<Path, seq<Row>>
    ghost var accepted: seq<Row>

    function Contents(): Store
      reads this
    {
      Store(buffers, disk)
    }

    constructor (batchRows: int, batchSeconds: int)
      ensures cfg == Config(batchRows, batchSeconds) && Contents() == Store(map[], map[]) && accepted == []
      ensures Valid(cfg, Contents(), accepted)
    {
      cfg := Config(batchRows, batchSeconds);
      buffers, disk, accepted := map[], map[], [];
      new;
      StartConserves(1);
      assert Alone(Contents(), [], accepted) == Start(1);
    }

    method FlushKey(k: Key, suffix: int)
      requires Free(Contents(), k, suffix)
      modifies this`buffers, this`disk
      ensures Contents() == Flushed(old(Contents()), k, suffix)
    {
      var had := k in buffers;
      var rows := if had then buffers[k].rows else [];
      buffers := buffers - {k};
      if !had || rows == [] {
        return;
      }
      disk := disk[PartFile(k, rows, suffix) := rows];
    }

    method Append(r: Row, openedAt: int, now: int, suffix: int)
      requires Valid(cfg, Contents(), accepted) && Free(Buffering(Contents(), r, openedAt), KeyOf(r), suffix)
      modifies this`buffers, this`disk, this`accepted
      ensures Contents() == AfterAppend(cfg, old(Contents()), r, openedAt, now, suffix)
      ensures accepted == old(accepted) + [r] && Valid(cfg, Contents(), accepted)
      ensures cfg.batchRows >= 1 ==> forall k :: k in buffers ==> |buffers[k].rows| < cfg.batchRows
      ensures AppendDoes(cfg, old(Contents()), Contents(), r, openedAt, now, suffix)
    {
      ghost var after := AfterAppend(cfg, Contents(), r, openedAt, now, suffix);
      AppendDoesIt(cfg, Contents(), r, openedAt, now, suffix);
      AppendKeepsValid(cfg, Contents(), r, openedAt, now, suffix, accepted);
      ValidIsShort(cfg, after, accepted + [r]);
      var due := AddRow(r, openedAt, now);
      if due {
        FlushKey(KeyOf(r), suffix);
      }
      accepted := accepted + [r];
    }

    /** The part of `append` under the lock. */
    method AddRow(r: Row, openedAt: int, now: int) returns (due: bool)
      modifies this`buffers
      ensures Contents() == Buffering(old(Contents()), r, openedAt)
      ensures due == ShouldFlush(cfg, buffers[KeyOf(r)], now)
      ensures due <==> |buffers[KeyOf(r)].rows| >= cfg.batchRows
                       || now - buffers[KeyOf(r)].openedAt >= cfg.batchSeconds * 1_000_000_000
    {
      var k := KeyOf(r);
      var b := if k in buffers then buffers[k] else Buffer([], openedAt);
      b := b.(rows := b.rows + [r]);
      buffers := buffers[k := b];
      due := |b.rows| >= cfg.batchRows || now - b.openedAt >= cfg.batchSeconds * 1_000_000_000;
    }

    /** `keys` is the dict's own listing of its keys, taken at the start. */
    method FlushAll(keys: seq<Key>, suffixes: seq<int>)
      requires Valid(cfg, Contents(), accepted) && Lists(keys, buffers) && AllFree(Contents(), keys, suffixes)
      modifies this`buffers, this`disk
      ensures Contents() == AfterFlushes(old(Contents()), keys, suffixes)
      ensures Valid(cfg, Contents(), accepted) && buffers == map[] && multiset(accepted) == Stored(disk)
    {
      FlushAllKeepsValid(cfg, Contents(), keys, suffixes, accepted);
      for i := 0 to |keys|
        invariant AfterFlushes(Contents(), keys[i..], suffixes[i..]) == AfterFlushes(old(Contents()), keys, suffixes)
        invariant Sound(Contents()) && Distinct(keys[i..]) && AllFree(Contents(), keys[i..], suffixes[i..])
      {
        RestFree(Contents(), keys[i..], suffixes[i..]);
        assert keys[i..][1..] == keys[i + 1..] && suffixes[i..][1..] == suffixes[i + 1..];
        assert keys[i..][0] == keys[i] && suffixes[i..][0] == suffixes[i];
        FlushKey(keys[i], suffixes[i]);
      }
    }

    method AppendMany(rows: seq<Row>, clock: seq<Reading>)
      requires Valid(cfg, Contents(), accepted) && |rows| == |clock|
      requires forall i :: 0 <= i < |clock| ==> Earlier(Contents(), clock[i].suffix)
      requires forall i, j :: 0 <= i < j < |clock| ==> clock[i].suffix < clock[j].suffix
      modifies this`buffers, this`disk, this`accepted
      ensures Contents() == AfterAppends(cfg, old(Contents()), rows, clock)
      ensures accepted == old(accepted) + rows && Valid(cfg, Contents(), accepted)
    {
      ghost var st, acc := Contents(), accepted;
      for i := 0 to |rows|
        invariant Contents() == AfterAppends(cfg, st, rows[..i], clock[..i])
        invariant accepted == acc + rows[..i] && Valid(cfg, Contents(), accepted)
        invariant forall j :: i <= j < |clock| ==> Earlier(Contents(), clock[j].suffix)
      {
        AppendAt(rows, clock, i, i + 1, st, acc);
      }
      TakeAll(rows);
      TakeAll(clock);
    }

    method AppendAt(rows: seq<Row>, clock: seq<Reading>, i: nat, next: nat, ghost st: Store, ghost acc: seq<Row>)
      requires |rows| == |clock| && i < |rows| && next == i + 1
      requires Contents() == AfterAppends(cfg, st, rows[..i], clock[..i])
      requires accepted == acc + rows[..i] && Valid(cfg, Contents(), accepted)
      requires forall j :: i <= j < |clock| ==> Earlier(Contents(), clock[j].suffix)
      requires forall j, k :: 0 <= j < k < |clock| ==> clock[j].suffix < clock[k].suffix
      modifies this`buffers, this`disk, this`accepted
      ensures Contents() == AfterAppends(cfg, st, rows[..next], clock[..next])
      ensures accepted == acc + rows[..next] && Valid(cfg, Contents(), accepted)
      ensures forall j :: next <= j < |clock| ==> Earlier(Contents(), clock[j].suffix)
    {
      NextIsFree(cfg, Contents(), rows[i], clock, i);
      AppendsNext(cfg, st, rows, clock, i);
      ConcatNext(acc, rows, i);
      Append(rows[i], clock[i].openedAt, clock[i].now, clock[i].suffix);
    }
  }
}
