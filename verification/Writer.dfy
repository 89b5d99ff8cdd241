/** `PartitionedParquetWriter`: any number of threads appending to and flushing shared buffers. The lock
  * makes three steps atomic (append, pop, listing the keys); writing a part file happens outside it. */
module Writer {
  import opened Orders
  import opened Seqs
  import opened Division
  import opened Gathering

  const NS_PER_HOUR := 3_600 * 1_000_000_000
  const HOURS_PER_DAY := 24

  /** A row together with the table it is appended to; `data` stands for the remaining columns. */
  datatype Row = Row(table: string, symbol: string, venue: string, ts: int, data: string)

  datatype Key = Key(table: string, symbol: string, venue: string, hour: int)

  function HourBucket(ts: int): int { ts / NS_PER_HOUR }

  /** The UTC date of a timestamp, as a day number. */
  function Date(ts: int): int { (ts / 1_000_000_000) / 86_400 }

  function KeyOf(r: Row): Key { Key(r.table, r.symbol, r.venue, HourBucket(r.ts)) }

  /** A part file: its partition directory, and the hour of day and clock reading in its name. */
  datatype Path = Path(table: string, symbol: string, venue: string, date: int, hourOfDay: int, suffix: int)

  datatype Buffer = Buffer(rows: seq<Row>, openedAt: int)

  datatype Config = Config(batchRows: int, batchSeconds: int)

  function RowsOf(b: Buffer): seq<Row> { b.rows }

  // ----- the atomic steps -----

  /** Under the lock: the key's buffer, opened if need be, gets the row. */
  function Appended(buffers: map<Key, Buffer>, r: Row, openedAt: int): map<Key, Buffer> {
    var k := KeyOf(r);
    var b := if k in buffers then buffers[k] else Buffer([], openedAt);
    buffers[k := b.(rows := b.rows + [r])]
  }

  predicate ShouldFlush(cfg: Config, b: Buffer, now: int) {
    |b.rows| >= cfg.batchRows || now - b.openedAt >= cfg.batchSeconds * 1_000_000_000
  }

  /** Where a popped buffer is written; the date is taken from the first row. */
  function PartFile(k: Key, rows: seq<Row>, suffix: int): Path
    requires rows != []
  {
    Path(k.table, k.symbol, k.venue, Date(rows[0].ts), k.hour % HOURS_PER_DAY, suffix)
  }

  // ----- threads -----

  /** A popped buffer on its way to disk. */
  datatype Held = Held(key: Key, rows: seq<Row>)

  /** What a thread has left to do: keys to flush, and possibly a popped buffer to write. */
  datatype Thread = Thread(todo: seq<Key>, held: Option<Held>)

  const IDLE := Thread([], None)

  datatype State = State(buffers: map<Key, Buffer>, threads: seq<Thread>, disk: map<Path, seq<Row>>, accepted: seq<Row>)

  /** The order of a listing is the dict's; the two clock readings of `append` are its buffer's opening
    * time and the time of its check. */
  datatype Step = Append(thread: nat, row: Row, openedAt: int, now: int)
                | ListKeys(thread: nat, keys: seq<Key>)
                | Pop(thread: nat)
                | Write(thread: nat, suffix: int)

  ghost predicate Lists(keys: seq<Key>, buffers: map<Key, Buffer>) {
    && (forall k :: k in keys <==> k in buffers)
    && forall i, j :: 0 <= i < j < |keys| ==> keys[i] != keys[j]
  }

  /** When a step may be taken. A write needs a path that is free: part names are unique. */
  ghost predicate Enabled(s: State, a: Step) {
    && a.thread < |s.threads|
    && var t := s.threads[a.thread];
       match a
       case Append(_, _, _, _) => t == IDLE
       case ListKeys(_, keys) => t == IDLE && Lists(keys, s.buffers)
       case Pop(_) => t.held.None? && t.todo != []
       case Write(_, suffix) =>
         t.held.Some? && t.held.value.rows != [] && PartFile(t.held.value.key, t.held.value.rows, suffix) !in s.disk
  }

  function Popped(t: Thread, buffers: map<Key, Buffer>): Thread
    requires t.todo != []
  {
    var k := t.todo[0];
    Thread(t.todo[1..], if k in buffers && buffers[k].rows != [] then Some(Held(k, buffers[k].rows)) else None)
  }

  ghost function After(cfg: Config, s: State, a: Step): State
    requires Enabled(s, a)
  {
    var t := s.threads[a.thread];
    match a
    case Append(i, r, openedAt, now) =>
      var bs := Appended(s.buffers, r, openedAt);
      s.(buffers := bs, accepted := s.accepted + [r],
         threads := s.threads[i := if ShouldFlush(cfg, bs[KeyOf(r)], now) then Thread([KeyOf(r)], None) else IDLE])
    case ListKeys(i, keys) => s.(threads := s.threads[i := Thread(keys, None)])
    case Pop(i) => s.(buffers := s.buffers - {t.todo[0]}, threads := s.threads[i := Popped(t, s.buffers)])
    case Write(i, suffix) =>
      s.(disk := s.disk[PartFile(t.held.value.key, t.held.value.rows, suffix) := t.held.value.rows],
         threads := s.threads[i := t.(held := None)])
  }

  /** Every step of the run is enabled where it is taken. */
  ghost predicate Runs(cfg: Config, s: State, steps: seq<Step>)
    decreases |steps|
  {
    steps == [] || (Enabled(s, steps[0]) && Runs(cfg, After(cfg, s, steps[0]), steps[1..]))
  }

  ghost function End(cfg: Config, s: State, steps: seq<Step>): State
    requires Runs(cfg, s, steps)
    decreases |steps|
  {
    if steps == [] then s else End(cfg, After(cfg, s, steps[0]), steps[1..])
  }

  function Start(threads: nat): State {
    State(map[], seq(threads, i => IDLE), map[], [])
  }

  // ----- conservation -----

  ghost function Buffered(s: State): multiset<Row> { Gather(s.buffers, RowsOf) }

  ghost function OnDisk(s: State): multiset<Row> { Stored(s.disk) }

  function Holding(t: Thread): seq<Row> { if t.held.Some? then t.held.value.rows else [] }

  ghost function InFlight(threads: seq<Thread>): multiset<Row> {
    if threads == [] then multiset{} else InFlight(Init(threads)) + multiset(Holding(Last(threads)))
  }

  lemma Exchange(a: multiset<Row>, b: multiset<Row>, c: multiset<Row>)
    ensures a + b + c == a + c + b && a + (b + c) == a + b + c
  {
  }

  lemma {:induction false} InFlightUpdate(threads: seq<Thread>, i: nat, t: Thread)
    requires i < |threads|
    ensures InFlight(threads[i := t]) + multiset(Holding(threads[i])) == InFlight(threads) + multiset(Holding(t))
  {
    var was, now, last := multiset(Holding(threads[i])), multiset(Holding(t)), multiset(Holding(Last(threads)));
    if i == |threads| - 1 {
      assert Init(threads[i := t]) == Init(threads);
      Exchange(InFlight(Init(threads)), now, was);
    } else {
      assert Init(threads[i := t]) == Init(threads)[i := t];
      InFlightUpdate(Init(threads), i, t);
      Exchange(InFlight(Init(threads)[i := t]), last, was);
      Exchange(InFlight(Init(threads)), last, now);
    }
  }

  /** A thread that holds the same rows as before changes nothing in flight. */
  lemma SameHolding(threads: seq<Thread>, i: nat, t: Thread)
    requires i < |threads| && Holding(t) == Holding(threads[i])
    ensures InFlight(threads[i := t]) == InFlight(threads)
  {
    InFlightUpdate(threads, i, t);
    Cancel(InFlight(threads[i := t]), InFlight(threads), multiset(Holding(t)));
  }

  lemma TakesUp(threads: seq<Thread>, i: nat, t: Thread)
    requires i < |threads| && Holding(threads[i]) == []
    ensures InFlight(threads[i := t]) == InFlight(threads) + multiset(Holding(t))
  {
    InFlightUpdate(threads, i, t);
  }

  lemma PutsDown(threads: seq<Thread>, i: nat, t: Thread)
    requires i < |threads| && Holding(t) == []
    ensures InFlight(threads) == InFlight(threads[i := t]) + multiset(Holding(threads[i]))
  {
    InFlightUpdate(threads, i, t);
  }

  /** Nothing is lost and nothing is written twice. */
  ghost predicate Conserves(s: State) {
    multiset(s.accepted) == Buffered(s) + InFlight(s.threads) + OnDisk(s)
  }

  lemma AddedRow(rows: seq<Row>, r: Row)
    ensures multiset(rows + [r]) == multiset(rows) + multiset{r}
  {
  }

  lemma {:induction false} AppendBuffers(buffers: map<Key, Buffer>, r: Row, openedAt: int)
    ensures Gather(Appended(buffers, r, openedAt), RowsOf) == Gather(buffers, RowsOf) + multiset{r}
  {
    var k := KeyOf(r);
    var b := if k in buffers then buffers[k] else Buffer([], openedAt);
    GatherPut(buffers, RowsOf, k, b.(rows := b.rows + [r]));
    AddedRow(b.rows, r);
    Exchange(Gather(buffers - {k}, RowsOf), multiset(b.rows), multiset{r});
    if k in buffers {
      GatherRemove(buffers, RowsOf, k);
    } else {
      assert buffers - {k} == buffers;
    }
  }

  lemma AppendConserves(cfg: Config, s: State, a: Step)
    requires Conserves(s) && Enabled(s, a) && a.Append?
    ensures Conserves(After(cfg, s, a))
  {
    AppendBuffers(s.buffers, a.row, a.openedAt);
    SameHolding(s.threads, a.thread, After(cfg, s, a).threads[a.thread]);
  }

  lemma PoppedRows(t: Thread, buffers: map<Key, Buffer>)
    requires t.todo != []
    ensures Holding(Popped(t, buffers)) == if t.todo[0] in buffers then buffers[t.todo[0]].rows else []
  {
  }

  lemma {:induction false} RemoveKey(buffers: map<Key, Buffer>, k: Key)
    ensures Gather(buffers, RowsOf)
         == Gather(buffers - {k}, RowsOf) + multiset(if k in buffers then buffers[k].rows else [])
  {
    if k in buffers {
      GatherRemove(buffers, RowsOf, k);
    } else {
      assert buffers - {k} == buffers;
    }
  }

  /** Removing a key's buffer, if there is one, moves its rows out. */
  lemma {:induction false} PopBuffers(buffers: map<Key, Buffer>, t: Thread)
    requires t.todo != []
    ensures Gather(buffers, RowsOf) == Gather(buffers - {t.todo[0]}, RowsOf) + multiset(Holding(Popped(t, buffers)))
  {
    RemoveKey(buffers, t.todo[0]);
    PoppedRows(t, buffers);
  }

  lemma PopConserves(cfg: Config, s: State, a: Step)
    requires Conserves(s) && Enabled(s, a) && a.Pop?
    ensures Conserves(After(cfg, s, a))
  {
    var t := s.threads[a.thread];
    PopBuffers(s.buffers, t);
    TakesUp(s.threads, a.thread, Popped(t, s.buffers));
  }

  lemma WriteConserves(cfg: Config, s: State, a: Step)
    requires Conserves(s) && Enabled(s, a) && a.Write?
    ensures Conserves(After(cfg, s, a))
  {
    var t := s.threads[a.thread];
    var h := t.held.value;
    PutsDown(s.threads, a.thread, t.(held := None));
    StoredAdd(s.disk, PartFile(h.key, h.rows, a.suffix), h.rows);
  }

  lemma StepConserves(cfg: Config, s: State, a: Step)
    requires Conserves(s) && Enabled(s, a)
    ensures Conserves(After(cfg, s, a))
  {
    match a
    case Append(_, _, _, _) => AppendConserves(cfg, s, a);
    case ListKeys(_, keys) => SameHolding(s.threads, a.thread, Thread(keys, None));
    case Pop(_) => PopConserves(cfg, s, a);
    case Write(_, _) => WriteConserves(cfg, s, a);
  }

  lemma {:induction false} IdleHoldNothing(threads: seq<Thread>)
    requires forall i :: 0 <= i < |threads| ==> threads[i].held.None?
    ensures InFlight(threads) == multiset{}
  {
    if threads != [] { IdleHoldNothing(Init(threads)); }
  }

  /** In every run of any number of threads, accepted rows are exactly the buffered, in-flight and
    * on-disk ones. */
  lemma {:induction false} RowsConserved(cfg: Config, s: State, steps: seq<Step>)
    requires Conserves(s) && Runs(cfg, s, steps)
    ensures Conserves(End(cfg, s, steps))
    decreases |steps|
  {
    if steps != [] {
      StepConserves(cfg, s, steps[0]);
      RowsConserved(cfg, After(cfg, s, steps[0]), steps[1..]);
    }
  }

  lemma StartConserves(threads: nat)
    ensures Conserves(Start(threads))
  {
    IdleHoldNothing(Start(threads).threads);
  }

  // ----- one partition per file -----

  ghost predicate OfKey(rows: seq<Row>, k: Key) {
    rows != [] && forall i :: 0 <= i < |rows| ==> KeyOf(rows[i]) == k
  }

  /** All rows of the file have one table, symbol, venue and hour, and lie in the file's date. */
  ghost predicate SoundFile(p: Path, rows: seq<Row>) {
    && rows != [] && OfKey(rows, KeyOf(rows[0]))
    && forall i :: 0 <= i < |rows| ==>
         p.table == rows[i].table && p.symbol == rows[i].symbol && p.venue == rows[i].venue
         && p.date == Date(rows[i].ts) && p.hourOfDay == HourBucket(rows[i].ts) % HOURS_PER_DAY
  }

  ghost predicate Partitioned(s: State) {
    && (forall k :: k in s.buffers ==> OfKey(s.buffers[k].rows, k))
    && (forall i :: 0 <= i < |s.threads| && s.threads[i].held.Some? ==>
          OfKey(s.threads[i].held.value.rows, s.threads[i].held.value.key))
    && forall p :: p in s.disk ==> SoundFile(p, s.disk[p])
  }

  /** Rows of one hour share a date: the day is the hour divided by 24. */
  lemma HourDeterminesDate(ts: int)
    ensures Date(ts) == HourBucket(ts) / HOURS_PER_DAY
  {
    Tower(ts, 1_000_000_000, 86_400);
    Tower(ts, NS_PER_HOUR, HOURS_PER_DAY);
  }

  lemma WrittenFileSound(k: Key, rows: seq<Row>, suffix: int)
    requires OfKey(rows, k)
    ensures SoundFile(PartFile(k, rows, suffix), rows)
  {
    HourDeterminesDate(rows[0].ts);
    forall i | 0 <= i < |rows| ensures Date(rows[i].ts) == Date(rows[0].ts) && KeyOf(rows[i]) == KeyOf(rows[0]) {
      assert KeyOf(rows[i]) == k == KeyOf(rows[0]);
      HourDeterminesDate(rows[i].ts);
    }
  }

  /** Different keys never share a path: the directory's date and the name's hour determine the hour. */
  lemma PathDeterminesKey(j: Key, k: Key, rows: seq<Row>, more: seq<Row>, m: int, n: int)
    requires OfKey(rows, j) && OfKey(more, k) && PartFile(j, rows, m) == PartFile(k, more, n)
    ensures j == k && m == n
  {
    assert KeyOf(rows[0]) == j && KeyOf(more[0]) == k;
    HourDeterminesDate(rows[0].ts);
    HourDeterminesDate(more[0].ts);
    Divide(j.hour, HOURS_PER_DAY);
    Divide(k.hour, HOURS_PER_DAY);
  }

  lemma StepPartitions(cfg: Config, s: State, a: Step)
    requires Partitioned(s) && Enabled(s, a)
    ensures Partitioned(After(cfg, s, a))
  {
    var s' := After(cfg, s, a);
    match a
    case Append(_, r, _, _) =>
      assert forall k :: k in s.buffers && k != KeyOf(r) ==> s'.buffers[k] == s.buffers[k];
    case ListKeys(_, _) =>
    case Pop(_) =>
    case Write(i, suffix) =>
      WrittenFileSound(s.threads[i].held.value.key, s.threads[i].held.value.rows, suffix);
  }

  /** In every run, every part file holds rows of one (table, symbol, venue, hour), all in the date of its
    * directory. */
  lemma {:induction false} FilesPartitioned(cfg: Config, s: State, steps: seq<Step>)
    requires Partitioned(s) && Runs(cfg, s, steps)
    ensures Partitioned(End(cfg, s, steps))
    decreases |steps|
  {
    if steps != [] {
      StepPartitions(cfg, s, steps[0]);
      FilesPartitioned(cfg, After(cfg, s, steps[0]), steps[1..]);
    }
  }

  // ----- flush_all -----

  ghost predicate NoAppends(steps: seq<Step>) { forall i :: 0 <= i < |steps| ==> !steps[i].Append? }

  /** Every buffer left is still on the list of thread `i`. */
  ghost predicate Covers(s: State, i: nat) {
    i < |s.threads| && forall k :: k in s.buffers ==> k in s.threads[i].todo
  }

  lemma StepCovers(cfg: Config, s: State, a: Step, i: nat)
    requires Covers(s, i) && Enabled(s, a) && !a.Append?
    ensures Covers(After(cfg, s, a), i)
  {
    var s' := After(cfg, s, a);
    var todo := s.threads[i].todo;
    forall k | k in s'.buffers ensures k in s'.threads[i].todo {
      assert k in s.buffers && k in todo;
      if a.thread == i && a.Pop? {
        assert k != todo[0] && todo == [todo[0]] + todo[1..];
      }
    }
  }

  lemma {:induction false} RunCovers(cfg: Config, s: State, steps: seq<Step>, i: nat)
    requires Covers(s, i) && Runs(cfg, s, steps) && NoAppends(steps)
    ensures Covers(End(cfg, s, steps), i)
    decreases |steps|
  {
    if steps != [] {
      StepCovers(cfg, s, steps[0], i);
      var rest := steps[1..];
      assert forall j :: 0 <= j < |rest| ==> rest[j] == steps[j + 1];
      RunCovers(cfg, After(cfg, s, steps[0]), rest, i);
    }
  }

  lemma NothingBuffered(s: State, i: nat)
    requires Covers(s, i) && s.threads[i] == IDLE
    ensures Buffered(s) == multiset{}
  {
    assert forall k :: k in s.buffers ==> k in s.threads[i].todo;
    assert s.buffers.Keys == {};
  }

  ghost predicate AllIdle(s: State) { forall j :: 0 <= j < |s.threads| ==> s.threads[j] == IDLE }

  lemma AllWritten(e: State, i: nat)
    requires Conserves(e) && Covers(e, i) && e.threads[i] == IDLE
    ensures Buffered(e) == multiset{} && multiset(e.accepted) == InFlight(e.threads) + OnDisk(e)
    ensures AllIdle(e) ==> multiset(e.accepted) == OnDisk(e)
  {
    NothingBuffered(e, i);
    if AllIdle(e) { IdleHoldNothing(e.threads); }
  }

  /** When a `flush_all` returns and nothing was appended meanwhile, whatever other threads flushed in
    * between, no row is left in a buffer; once all threads are idle every accepted row is on disk. */
  lemma {:induction false} FlushAllFlushesAll(cfg: Config, s: State, i: nat, keys: seq<Key>, steps: seq<Step>, e: State)
    requires Conserves(s) && Enabled(s, ListKeys(i, keys)) && NoAppends(steps)
    requires Runs(cfg, After(cfg, s, ListKeys(i, keys)), steps)
    requires e == End(cfg, After(cfg, s, ListKeys(i, keys)), steps)
    requires i < |e.threads| && e.threads[i] == IDLE
    ensures Buffered(e) == multiset{} && multiset(e.accepted) == InFlight(e.threads) + OnDisk(e)
    ensures AllIdle(e) ==> multiset(e.accepted) == OnDisk(e)
  {
    var s1 := After(cfg, s, ListKeys(i, keys));
    StepConserves(cfg, s, ListKeys(i, keys));
    RowsConserved(cfg, s1, steps);
    RunCovers(cfg, s1, steps, i);
    AllWritten(e, i);
  }

  // ----- how much can be buffered -----

  /** Threads that have yet to flush key `k`. */
  function Pending(threads: seq<Thread>, k: Key): nat {
    if threads == [] then 0 else Pending(Init(threads), k) + if k in Last(threads).todo then 1 else 0
  }

  lemma {:induction false} PendingUpdate(threads: seq<Thread>, i: nat, t: Thread, k: Key)
    requires i < |threads|
    ensures Pending(threads[i := t], k) + (if k in threads[i].todo then 1 else 0)
         == Pending(threads, k) + (if k in t.todo then 1 else 0)
  {
    if i == |threads| - 1 {
      assert Init(threads[i := t]) == Init(threads);
    } else {
      assert Init(threads[i := t]) == Init(threads)[i := t];
      PendingUpdate(Init(threads), i, t, k);
    }
  }

  ghost predicate Bounded(cfg: Config, s: State) {
    forall k :: k in s.buffers ==> |s.buffers[k].rows| <= cfg.batchRows - 1 + Pending(s.threads, k)
  }

  lemma StepBounded(cfg: Config, s: State, a: Step)
    requires cfg.batchRows >= 1 && Bounded(cfg, s) && Enabled(s, a)
    ensures Bounded(cfg, After(cfg, s, a))
  {
    var s' := After(cfg, s, a);
    forall k | k in s'.buffers ensures |s'.buffers[k].rows| <= cfg.batchRows - 1 + Pending(s'.threads, k) {
      PendingUpdate(s.threads, a.thread, s'.threads[a.thread], k);
      var todo := s.threads[a.thread].todo;
      if a.Pop? {
        assert k != todo[0] && todo == [todo[0]] + todo[1..];
        assert k in todo <==> k in todo[1..];
      }
    }
  }

  /** In every run a buffer holds at most `batchRows - 1` rows plus one for each thread that has yet to
    * flush it. */
  lemma {:induction false} BuffersBounded(cfg: Config, s: State, steps: seq<Step>)
    requires cfg.batchRows >= 1 && Bounded(cfg, s) && Runs(cfg, s, steps)
    ensures Bounded(cfg, End(cfg, s, steps))
    decreases |steps|
  {
    if steps != [] {
      StepBounded(cfg, s, steps[0]);
      BuffersBounded(cfg, After(cfg, s, steps[0]), steps[1..]);
    }
  }

  lemma {:induction false} NonePending(threads: seq<Thread>, k: Key)
    requires forall i :: 0 <= i < |threads| ==> threads[i] == IDLE
    ensures Pending(threads, k) == 0
  {
    if threads != [] { NonePending(Init(threads), k); }
  }

  /** Whenever no thread is busy, every buffer is short of a batch. */
  lemma QuietBuffersShort(cfg: Config, s: State)
    requires Bounded(cfg, s) && AllIdle(s)
    ensures forall k :: k in s.buffers ==> |s.buffers[k].rows| < cfg.batchRows
  {
    forall k | k in s.buffers ensures |s.buffers[k].rows| < cfg.batchRows {
      NonePending(s.threads, k);
    }
  }

  /** All of it, for every run from an empty writer. */
  lemma {:induction false} EveryRun(cfg: Config, threads: nat, steps: seq<Step>)
    requires Runs(cfg, Start(threads), steps)
    ensures var e := End(cfg, Start(threads), steps);
      && Conserves(e) && Partitioned(e)
      && (cfg.batchRows >= 1 ==> Bounded(cfg, e))
      && (cfg.batchRows >= 1 && AllIdle(e) ==> forall k :: k in e.buffers ==> |e.buffers[k].rows| < cfg.batchRows)
  {
    StartConserves(threads);
    RowsConserved(cfg, Start(threads), steps);
    FilesPartitioned(cfg, Start(threads), steps);
    if cfg.batchRows >= 1 {
      BuffersBounded(cfg, Start(threads), steps);
      if AllIdle(End(cfg, Start(threads), steps)) { QuietBuffersShort(cfg, End(cfg, Start(threads), steps)); }
    }
  }

  // ----- when an append flushes -----

  /** After an append the thread has its row's key to flush exactly when the key's buffer then holds a batch, or
    * the clock is a flush interval past the buffer's opening; it has nothing else to do. */
  lemma AppendStepFlushesIff(cfg: Config, s: State, a: Step)
    requires Enabled(s, a) && a.Append?
    ensures var r, t := a.row, After(cfg, s, a).threads[a.thread];
      var k := Key(r.table, r.symbol, r.venue, r.ts / 3_600_000_000_000);
      var was := if k in s.buffers then s.buffers[k] else Buffer([], a.openedAt);
      t.held.None?
      && t.todo == if |was.rows| + 1 >= cfg.batchRows || a.now - was.openedAt >= cfg.batchSeconds * 1_000_000_000
                   then [k] else []
  {
    assert KeyOf(a.row).hour == a.row.ts / 3_600_000_000_000;
  }

  // ----- what a crash loses -----

  /** `n * bound` */
  function Times(n: nat, bound: nat): nat { if n == 0 then 0 else Times(n - 1, bound) + bound }

  lemma {:induction false} BufferedAtMost(buffers: map<Key, Buffer>, bound: nat)
    requires forall k :: k in buffers ==> |buffers[k].rows| <= bound
    ensures |Gather(buffers, RowsOf)| <= Times(|buffers|, bound)
    decreases |buffers|
  {
    if |buffers| == 0 {
      assert Gather(buffers, RowsOf) == multiset{};
    } else {
      var k :| k in buffers;
      GatherRemove(buffers, RowsOf, k);
      assert |buffers - {k}| == |buffers| - 1 by { assert (buffers - {k}).Keys == buffers.Keys - {k}; }
      BufferedAtMost(buffers - {k}, bound);
    }
  }

  /** No thread holds more than `bound` rows. */
  ghost predicate HeldAtMost(threads: seq<Thread>, bound: nat) {
    forall i :: 0 <= i < |threads| ==> |Holding(threads[i])| <= bound
  }

  lemma {:induction false} InFlightAtMost(threads: seq<Thread>, bound: nat)
    requires HeldAtMost(threads, bound)
    ensures |InFlight(threads)| <= Times(|threads|, bound)
  {
    if threads != [] {
      InFlightAtMost(Init(threads), bound);
      assert Holding(threads[|threads| - 1]) == Holding(Last(threads));
    }
  }

  lemma {:induction false} PendingAtMost(threads: seq<Thread>, k: Key)
    ensures Pending(threads, k) <= |threads|
  {
    if threads != [] { PendingAtMost(Init(threads), k); }
  }

  /** The most rows that can be in one place: a batch but one, and one more for each thread. */
  function Overfull(cfg: Config, threads: nat): nat
    requires cfg.batchRows >= 1
  {
    cfg.batchRows - 1 + threads
  }

  lemma BuffersAtMost(cfg: Config, s: State)
    requires cfg.batchRows >= 1 && Bounded(cfg, s)
    ensures forall k :: k in s.buffers ==> |s.buffers[k].rows| <= Overfull(cfg, |s.threads|)
  {
    forall k | k in s.buffers ensures |s.buffers[k].rows| <= Overfull(cfg, |s.threads|) { PendingAtMost(s.threads, k); }
  }

  lemma StepHeldAtMost(cfg: Config, s: State, a: Step)
    requires cfg.batchRows >= 1 && Bounded(cfg, s) && Enabled(s, a)
    requires HeldAtMost(s.threads, Overfull(cfg, |s.threads|))
    ensures |After(cfg, s, a).threads| == |s.threads|
    ensures HeldAtMost(After(cfg, s, a).threads, Overfull(cfg, |s.threads|))
  {
    BuffersAtMost(cfg, s);
  }

  lemma {:induction false} RunHeldAtMost(cfg: Config, s: State, steps: seq<Step>)
    requires cfg.batchRows >= 1 && Bounded(cfg, s) && Runs(cfg, s, steps)
    requires HeldAtMost(s.threads, Overfull(cfg, |s.threads|))
    ensures |End(cfg, s, steps).threads| == |s.threads|
    ensures HeldAtMost(End(cfg, s, steps).threads, Overfull(cfg, |s.threads|))
    decreases |steps|
  {
    if steps != [] {
      StepBounded(cfg, s, steps[0]);
      StepHeldAtMost(cfg, s, steps[0]);
      RunHeldAtMost(cfg, After(cfg, s, steps[0]), steps[1..]);
    }
  }

  /** The rows accepted that are not on disk: what is gone if the process dies now. */
  ghost function Lost(s: State): multiset<Row> { multiset(s.accepted) - OnDisk(s) }

  lemma LostIsHeld(s: State)
    requires Conserves(s)
    ensures Lost(s) == Buffered(s) + InFlight(s.threads)
  {
    assert Lost(s) == (Buffered(s) + InFlight(s.threads) + OnDisk(s)) - OnDisk(s);
  }

  lemma {:induction false} Distribute(a: nat, b: nat, c: nat, bound: nat)
    requires c == a + b
    ensures Times(a, bound) + Times(b, bound) == Times(c, bound)
  {
    if b > 0 { Distribute(a, b - 1, c - 1, bound); }
  }

  lemma {:induction false} LostAtMost(s: State, places: nat, bound: nat)
    requires Conserves(s) && HeldAtMost(s.threads, bound) && places == |s.buffers| + |s.threads|
    requires forall k :: k in s.buffers ==> |s.buffers[k].rows| <= bound
    ensures |Lost(s)| <= Times(places, bound)
  {
    var m, n := |s.buffers|, |s.threads|;
    LostIsHeld(s);
    BufferedAtMost(s.buffers, bound);
    InFlightAtMost(s.threads, bound);
    Distribute(m, n, places, bound);
    SizeOfSum(Lost(s), Buffered(s), InFlight(s.threads), Times(m, bound), Times(n, bound), Times(places, bound));
  }

  lemma SizeOfSum(l: multiset<Row>, a: multiset<Row>, b: multiset<Row>, m: nat, n: nat, total: nat)
    requires l == a + b && |a| <= m && |b| <= n && m + n == total
    ensures |l| <= total
  {
  }

  lemma {:induction false} IdleLostAtMost(s: State, bound: nat)
    requires Conserves(s) && AllIdle(s) && forall k :: k in s.buffers ==> |s.buffers[k].rows| <= bound
    ensures |Lost(s)| <= Times(|s.buffers|, bound)
  {
    LostIsHeld(s);
    IdleHoldNothing(s.threads);
    BufferedAtMost(s.buffers, bound);
  }

  lemma StartHeld(threads: nat, bound: nat)
    ensures HeldAtMost(Start(threads).threads, bound) && |Start(threads).threads| == threads
  {
  }

  lemma {:induction false} AllHeldAtMost(cfg: Config, threads: nat, steps: seq<Step>, e: State)
    requires cfg.batchRows >= 1 && Runs(cfg, Start(threads), steps) && e == End(cfg, Start(threads), steps)
    ensures |e.threads| == threads && HeldAtMost(e.threads, Overfull(cfg, |e.threads|))
  {
    StartHeld(threads, Overfull(cfg, threads));
    RunHeldAtMost(cfg, Start(threads), steps);
  }

  /** Rows buffered and in flight: per key and per thread at most a batch and a few; with every thread idle,
    * less than a batch per key. */
  ghost predicate LossBounded(cfg: Config, s: State)
    requires cfg.batchRows >= 1
  {
    && Lost(s) == Buffered(s) + InFlight(s.threads)
    && |Lost(s)| <= Times(|s.buffers| + |s.threads|, Overfull(cfg, |s.threads|))
    && (AllIdle(s) ==> |Lost(s)| <= Times(|s.buffers|, Overfull(cfg, 0)))
  }

  lemma LossIsBounded(cfg: Config, s: State)
    requires cfg.batchRows >= 1 && Conserves(s) && Bounded(cfg, s)
    requires HeldAtMost(s.threads, Overfull(cfg, |s.threads|))
    ensures LossBounded(cfg, s)
  {
    LostIsHeld(s);
    BuffersAtMost(cfg, s);
    LostAtMost(s, |s.buffers| + |s.threads|, Overfull(cfg, |s.threads|));
    if AllIdle(s) {
      QuietBuffersShort(cfg, s);
      IdleLostAtMost(s, Overfull(cfg, 0));
    }
  }

  /** A crash at any moment of any run loses the rows buffered and in flight and no others, and that many. */
  lemma {:induction false} CrashLoses(cfg: Config, threads: nat, steps: seq<Step>)
    requires cfg.batchRows >= 1 && Runs(cfg, Start(threads), steps)
    ensures |End(cfg, Start(threads), steps).threads| == threads && LossBounded(cfg, End(cfg, Start(threads), steps))
  {
    EveryRun(cfg, threads, steps);
    AllHeldAtMost(cfg, threads, steps, End(cfg, Start(threads), steps));
    LossIsBounded(cfg, End(cfg, Start(threads), steps));
  }

  /** At most one buffer is open. */
  ghost predicate OneOpen(buffers: map<Key, Buffer>) {
    forall j, k :: j in buffers && k in buffers ==> j == k
  }

  /** All these rows are of one table, symbol, venue and hour. */
  ghost predicate OneKey(rows: multiset<Row>) {
    forall r, q :: r in rows && q in rows ==> KeyOf(r) == KeyOf(q)
  }

  lemma {:induction false} BufferedRow(buffers: map<Key, Buffer>, r: Row) returns (k: Key)
    requires r in Gather(buffers, RowsOf)
    ensures k in buffers && r in buffers[k].rows
    decreases |buffers|
  {
    var j :| j in buffers && Gather(buffers, RowsOf) == Gather(buffers - {j}, RowsOf) + multiset(buffers[j].rows);
    if r in buffers[j].rows {
      k := j;
    } else {
      k := BufferedRow(buffers - {j}, r);
    }
  }

  lemma {:induction false} RowBuffered(buffers: map<Key, Buffer>, k: Key, r: Row)
    requires k in buffers && r in buffers[k].rows
    ensures r in Gather(buffers, RowsOf)
  {
    GatherRemove(buffers, RowsOf, k);
    assert r in multiset(buffers[k].rows);
  }

  lemma {:induction false} HeldRow(threads: seq<Thread>, r: Row) returns (i: nat)
    requires r in InFlight(threads)
    ensures i < |threads| && r in Holding(threads[i])
  {
    if r in Holding(Last(threads)) {
      i := |threads| - 1;
    } else {
      i := HeldRow(Init(threads), r);
    }
  }

  lemma {:induction false} RowHeld(threads: seq<Thread>, i: nat, r: Row)
    requires i < |threads| && r in Holding(threads[i])
    ensures r in InFlight(threads)
  {
    if i < |threads| - 1 { RowHeld(Init(threads), i, r); }
  }

  /** The key has an open buffer, or a popped one that is not yet written. */
  ghost predicate Unwritten(s: State, k: Key) {
    k in s.buffers || exists i :: 0 <= i < |s.threads| && Holds(s.threads[i], k)
  }

  ghost predicate Holds(t: Thread, k: Key) { t.held.Some? && t.held.value.key == k }

  lemma LostRow(s: State, r: Row)
    requires Conserves(s) && Partitioned(s) && r in Lost(s)
    ensures Unwritten(s, KeyOf(r))
  {
    LostIsHeld(s);
    if r in Buffered(s) {
      var k := BufferedRow(s.buffers, r);
      assert OfKey(s.buffers[k].rows, k);
    } else {
      var i := HeldRow(s.threads, r);
      assert OfKey(s.threads[i].held.value.rows, s.threads[i].held.value.key);
      assert Holds(s.threads[i], KeyOf(r));
    }
  }

  lemma UnwrittenLost(s: State, k: Key) returns (r: Row)
    requires Conserves(s) && Partitioned(s) && Unwritten(s, k)
    ensures r in Lost(s) && KeyOf(r) == k
  {
    LostIsHeld(s);
    if k in s.buffers {
      assert OfKey(s.buffers[k].rows, k);
      r := s.buffers[k].rows[0];
      RowBuffered(s.buffers, k, r);
    } else {
      var i :| 0 <= i < |s.threads| && Holds(s.threads[i], k);
      assert OfKey(s.threads[i].held.value.rows, k);
      r := s.threads[i].held.value.rows[0];
      RowHeld(s.threads, i, r);
    }
  }

  lemma OneKeyIff(s: State)
    requires Conserves(s) && Partitioned(s)
    ensures OneKey(Lost(s)) <==> forall j, k :: Unwritten(s, j) && Unwritten(s, k) ==> j == k
  {
    if OneKey(Lost(s)) {
      forall j, k | Unwritten(s, j) && Unwritten(s, k) ensures j == k {
        var r := UnwrittenLost(s, j);
        var q := UnwrittenLost(s, k);
      }
    }
    if forall j, k :: Unwritten(s, j) && Unwritten(s, k) ==> j == k {
      forall r, q | r in Lost(s) && q in Lost(s) ensures KeyOf(r) == KeyOf(q) {
        LostRow(s, r);
        LostRow(s, q);
      }
    }
  }

  lemma {:induction false} IdleUnwritten(s: State)
    requires AllIdle(s)
    ensures forall k :: Unwritten(s, k) <==> k in s.buffers
  {
    assert forall i :: 0 <= i < |s.threads| ==> s.threads[i] == IDLE;
  }

  /** When the promise that a crash loses no more than one partial batch holds: at any moment of any run a crash
    * loses rows of one partition and hour only if and only if at most one key has unwritten rows; with every
    * thread idle, if and only if at most one buffer is open. */
  lemma {:induction false} LosesOneBatchIff(cfg: Config, threads: nat, steps: seq<Step>)
    requires Runs(cfg, Start(threads), steps)
    ensures var e := End(cfg, Start(threads), steps);
      && (OneKey(Lost(e)) <==> forall j, k :: Unwritten(e, j) && Unwritten(e, k) ==> j == k)
      && (AllIdle(e) ==> (OneKey(Lost(e)) <==> OneOpen(e.buffers)))
  {
    var e := End(cfg, Start(threads), steps);
    EveryRun(cfg, threads, steps);
    OneKeyIff(e);
    if AllIdle(e) { IdleUnwritten(e); }
  }

  /** ... and then it is a partial batch: fewer rows than make a file. */
  lemma {:induction false} OneBatchIsPartial(cfg: Config, threads: nat, steps: seq<Step>)
    requires cfg.batchRows >= 1 && Runs(cfg, Start(threads), steps)
    requires var e := End(cfg, Start(threads), steps); AllIdle(e) && OneOpen(e.buffers)
    ensures |Lost(End(cfg, Start(threads), steps))| < cfg.batchRows
  {
    var e := End(cfg, Start(threads), steps);
    EveryRun(cfg, threads, steps);
    LostIsHeld(e);
    IdleHoldNothing(e.threads);
    if k :| k in e.buffers {
      GatherRemove(e.buffers, RowsOf, k);
      assert e.buffers - {k} == map[];
    } else {
      assert e.buffers == map[];
    }
  }

  /** The row a venue sends in each hour of a quiet stretch. */
  function HourlyRow(i: nat): Row { Row("trades", "BTC-USD", "kraken", i * NS_PER_HOUR, "") }

  /** After `i` quiet hours: nothing written, one row in a buffer of its own for each hour. */
  ghost predicate QuietHours(s: State, i: nat) {
    && s.threads == [IDLE] && s.disk == map[] && |s.accepted| == i && |s.buffers| == i
    && (forall k :: k in s.buffers ==>
          k.table == "trades" && k.symbol == "BTC-USD" && k.venue == "kraken" && k.hour < i)
    && forall r :: r in s.accepted ==> r.table == "trades" && r.symbol == "BTC-USD" && r.venue == "kraken"
  }

  lemma HourPasses(cfg: Config, s: State, i: nat, a: Step)
    requires cfg.batchRows >= 2 && cfg.batchSeconds >= 1 && QuietHours(s, i) && a == Append(0, HourlyRow(i), 0, 0)
    ensures Enabled(s, a) && QuietHours(After(cfg, s, a), i + 1)
  {
    var k, r := KeyOf(HourlyRow(i)), HourlyRow(i);
    HourOfRow(i);
    NewBuffer(s.buffers, r, k);
    assert !ShouldFlush(cfg, Appended(s.buffers, r, 0)[k], 0);
    assert s.threads[0 := IDLE] == [IDLE];
  }

  lemma HourOfRow(i: nat)
    ensures KeyOf(HourlyRow(i)).hour == i
  {
    MultipleOver(i, NS_PER_HOUR);
  }

  lemma NewBuffer(buffers: map<Key, Buffer>, r: Row, k: Key)
    requires k == KeyOf(r) && k !in buffers
    ensures var bs := Appended(buffers, r, 0);
      && k in bs && bs[k] == Buffer([r], 0) && bs.Keys == buffers.Keys + {k} && |bs| == |buffers| + 1
  {
    var bs := Appended(buffers, r, 0);
    assert [] + [r] == [r];
    assert bs.Keys == buffers.Keys + {k};
    assert |bs| == |bs.Keys| && |buffers| == |buffers.Keys|;
  }

  lemma {:induction false} HoursPass(cfg: Config, s: State, i: nat, n: nat) returns (steps: seq<Step>)
    requires cfg.batchRows >= 2 && cfg.batchSeconds >= 1 && QuietHours(s, i) && i <= n
    ensures Runs(cfg, s, steps) && QuietHours(End(cfg, s, steps), n)
    decreases n - i
  {
    if i == n {
      steps := [];
    } else {
      var a := Append(0, HourlyRow(i), 0, 0);
      HourPasses(cfg, s, i, a);
      var rest := HoursPass(cfg, After(cfg, s, a), i + 1, n);
      steps := [a] + rest;
      assert steps[0] == a && steps[1..] == rest;
    }
  }

  /** The module's promise that a crash loses at most the last partial batch fails: a buffer is looked at only
    * when its own hour gets another row or all are flushed, so one venue's partial batches of any number of
    * past hours can be lost together, nothing having been written. */
  lemma {:induction false} ManyBatchesLost(cfg: Config, n: nat) returns (steps: seq<Step>)
    requires cfg.batchRows >= 2 && cfg.batchSeconds >= 1
    ensures Runs(cfg, Start(1), steps)
    ensures var e := End(cfg, Start(1), steps);
      && AllIdle(e) && |Lost(e)| == n && |e.buffers| == n && e.disk == map[]
      && (forall k :: k in e.buffers ==> k.table == "trades" && k.symbol == "BTC-USD" && k.venue == "kraken")
      && forall r :: r in e.accepted ==> r.table == "trades" && r.symbol == "BTC-USD" && r.venue == "kraken"
  {
    assert Start(1).threads == [IDLE];
    steps := HoursPass(cfg, Start(1), 0, n);
    var e := End(cfg, Start(1), steps);
    assert OnDisk(e) == multiset{};
    assert Lost(e) == multiset(e.accepted);
  }
}
