/** Kraken's `stream_book`: snapshot and update frames keep a book per pair; at most every five seconds
  * per pair its best levels are emitted. */
module KrakenBook {
  import opened Seqs
  import opened Books

  /** One element of a frame's `data`. */
  datatype Entry = Entry(pair: string, bids: seq<Level>, asks: seq<Level>)

  /** An element with its frame's receive time and type. */
  datatype Event = Event(recv: int, snapshot: bool, entry: Entry)

  /** The canonical symbols of the known pairs, and the depth asked for. */
  datatype Config = Config(canonical: map<string, string>, depth: nat)

  function Base(t: Tracker, pair: string): Book { if pair in t.books then t.books[pair] else EMPTY }

  function LastEmit(t: Tracker, pair: string): int { if pair in t.lastEmit then t.lastEmit[pair] else 0 }

  function Updated(b: Book, snapshot: bool, e: Entry): Book {
    var base := if snapshot then EMPTY else b;
    Book(PutAll(base.bids, e.bids), PutAll(base.asks, e.asks))
  }

  predicate Due(t: Tracker, recv: int, pair: string) { recv - LastEmit(t, pair) >= EMIT_INTERVAL_NS }

  predicate Fires(cfg: Config, t: Tracker, e: Event) {
    e.entry.pair in cfg.canonical && Due(t, e.recv, e.entry.pair)
  }

  function After(cfg: Config, t: Tracker, e: Event): Tracker {
    var p := e.entry.pair;
    if p !in cfg.canonical then t
    else Tracker(t.books[p := Updated(Base(t, p), e.snapshot, e.entry)],
                 t.lastEmit[p := if Due(t, e.recv, p) then e.recv else LastEmit(t, p)])
  }

  function Emits(cfg: Config, t: Tracker, e: Event): seq<Snapshot> {
    var p := e.entry.pair;
    if Fires(cfg, t, e)
    then [Snap(e.recv, cfg.canonical[p], cfg.depth, Updated(Base(t, p), e.snapshot, e.entry))] else []
  }

  const START := Tracker(map[], map[])

  function State(cfg: Config, events: seq<Event>): Tracker {
    if events == [] then START else After(cfg, State(cfg, Init(events)), Last(events))
  }

  /** What the last event of a run emits. */
  function LastEmission(cfg: Config, events: seq<Event>): seq<Snapshot>
    requires events != []
  {
    Emits(cfg, State(cfg, Init(events)), Last(events))
  }

  function Emitted(cfg: Config, events: seq<Event>): seq<Snapshot> {
    if events == [] then [] else Emitted(cfg, Init(events)) + LastEmission(cfg, events)
  }

  // ----- the stream as an object -----

  class Stream {
    const cfg: Config
    var books: map<string, Book>
    var lastEmitNs: map<string, int>

    function Current(): Tracker
      reads this
    {
      Tracker(books, lastEmitNs)
    }

    constructor (canonical: map<string, string>, depth: nat)
      ensures cfg == Config(canonical, depth) && Current() == START
    {
      cfg := Config(canonical, depth);
      books, lastEmitNs := map[], map[];
    }

    /** The loop over the levels of one side. */
    method ApplySide(side0: Side, levels: seq<Level>) returns (side: Side)
      ensures side == PutAll(side0, levels)
    {
      side := side0;
      for i := 0 to |levels|
        invariant side == PutAll(side0, levels[..i])
      {
        assert Init(levels[..i + 1]) == levels[..i];
        if levels[i].sz == 0.0 {
          side := side - {levels[i].px};
        } else {
          side := side[levels[i].px := levels[i].sz];
        }
      }
      TakeAll(levels);
    }

    method OnEntry(recv: int, snapshot: bool, b: Entry) returns (out: seq<Snapshot>)
      modifies this
      ensures Current() == After(cfg, old(Current()), Event(recv, snapshot, b))
      ensures out == Emits(cfg, old(Current()), Event(recv, snapshot, b))
    {
      if b.pair !in cfg.canonical {
        return [];
      }
      var book := if b.pair in books then books[b.pair] else EMPTY;
      var last := if b.pair in lastEmitNs then lastEmitNs[b.pair] else 0;
      if snapshot {
        book := EMPTY;
      }
      var bids := ApplySide(book.bids, b.bids);
      var asks := ApplySide(book.asks, b.asks);
      books := books[b.pair := Book(bids, asks)];
      if recv - last < EMIT_INTERVAL_NS {
        lastEmitNs := lastEmitNs[b.pair := last];
        return [];
      }
      lastEmitNs := lastEmitNs[b.pair := recv];
      out := [Snap(recv, cfg.canonical[b.pair], cfg.depth, Book(bids, asks))];
    }

    /** One frame of the `book` channel. */
    method OnFrame(recv: int, snapshot: bool, data: seq<Entry>, ghost before: seq<Event>) returns (out: seq<Snapshot>)
      requires Current() == State(cfg, before)
      modifies this
      ensures Current() == State(cfg, before + Events(recv, snapshot, data))
      ensures Emitted(cfg, before) + out == Emitted(cfg, before + Events(recv, snapshot, data))
    {
      out := [];
      assert before + Events(recv, snapshot, data[..0]) == before;
      for i := 0 to |data|
        invariant Current() == State(cfg, before + Events(recv, snapshot, data[..i]))
        invariant Emitted(cfg, before) + out == Emitted(cfg, before + Events(recv, snapshot, data[..i]))
      {
        EventsNext(before, recv, snapshot, data, i);
        var more := OnEntry(recv, snapshot, data[i]);
        out := out + more;
      }
      TakeAll(data);
    }
  }

  function Events(recv: int, snapshot: bool, data: seq<Entry>): seq<Event> {
    seq(|data|, i requires 0 <= i < |data| => Event(recv, snapshot, data[i]))
  }

  lemma EventsNext(before: seq<Event>, recv: int, snapshot: bool, data: seq<Entry>, i: nat)
    requires i < |data|
    ensures var next := before + Events(recv, snapshot, data[..i + 1]);
      next != [] && Init(next) == before + Events(recv, snapshot, data[..i])
      && Last(next) == Event(recv, snapshot, data[i])
  {
  }

  // ----- the book is the replay of the log since the last snapshot -----

  function Since(cfg: Config, prior: seq<Level>, e: Event, pair: string, levels: seq<Level>): seq<Level> {
    if e.entry.pair != pair || pair !in cfg.canonical then prior
    else (if e.snapshot then [] else prior) + levels
  }

  /** Bid updates of a pair since its last snapshot. */
  function BidLog(cfg: Config, events: seq<Event>, pair: string): seq<Level> {
    if events == [] then []
    else Since(cfg, BidLog(cfg, Init(events), pair), Last(events), pair, Last(events).entry.bids)
  }

  function AskLog(cfg: Config, events: seq<Event>, pair: string): seq<Level> {
    if events == [] then []
    else Since(cfg, AskLog(cfg, Init(events), pair), Last(events), pair, Last(events).entry.asks)
  }

  function Replay(cfg: Config, events: seq<Event>, pair: string): Book {
    Book(PutAll(map[], BidLog(cfg, events, pair)), PutAll(map[], AskLog(cfg, events, pair)))
  }

  lemma UpdateExtends(prior: seq<Level>, snapshot: bool, levels: seq<Level>)
    ensures PutAll(if snapshot then map[] else PutAll(map[], prior), levels)
         == PutAll(map[], (if snapshot then [] else prior) + levels)
  {
    PutConcat(map[], if snapshot then [] else prior, levels);
  }

  lemma {:induction false} BookIsReplay(cfg: Config, events: seq<Event>, pair: string)
    ensures Base(State(cfg, events), pair) == Replay(cfg, events, pair)
  {
    if events != [] {
      var e := Last(events);
      BookIsReplay(cfg, Init(events), pair);
      if e.entry.pair == pair && pair in cfg.canonical {
        UpdateExtends(BidLog(cfg, Init(events), pair), e.snapshot, e.entry.bids);
        UpdateExtends(AskLog(cfg, Init(events), pair), e.snapshot, e.entry.asks);
      }
    }
  }

  /** Every snapshot emitted, in every run, holds exactly the best levels of what was last written since
    * the pair's last snapshot frame. */
  lemma {:induction false} EmissionIsReplay(cfg: Config, events: seq<Event>, s: Snapshot)
    requires events != [] && s in LastEmission(cfg, events)
    ensures var p := Last(events).entry.pair;
      && p in cfg.canonical && s == Snap(Last(events).recv, cfg.canonical[p], cfg.depth, Replay(cfg, events, p))
      && s.ts == Last(events).recv && s.symbol == cfg.canonical[p] && s.depth == cfg.depth
      && SnapOfLogs(s, BidLog(cfg, events, p), AskLog(cfg, events, p))
  {
    var p := Last(events).entry.pair;
    BookIsReplay(cfg, events, p);
    SnapIsOfLogs(Last(events).recv, cfg.canonical[p], cfg.depth, BidLog(cfg, events, p), AskLog(cfg, events, p));
  }

  // ----- throttling -----

  predicate EmitsAt(cfg: Config, events: seq<Event>, i: nat)
    requires i < |events|
  {
    Fires(cfg, State(cfg, events[..i]), events[i])
  }

  lemma StepKeepsLast(cfg: Config, t: Tracker, e: Event, pair: string)
    ensures LastEmit(After(cfg, t, e), pair) >= LastEmit(t, pair)
    ensures Fires(cfg, t, e) ==> LastEmit(After(cfg, t, e), e.entry.pair) == e.recv
  {
  }

  lemma {:induction false} LastEmitGrows(cfg: Config, events: seq<Event>, i: nat)
    requires i < |events| && EmitsAt(cfg, events, i)
    ensures LastEmit(State(cfg, events), events[i].entry.pair) >= events[i].recv
  {
    StepKeepsLast(cfg, State(cfg, Init(events)), Last(events), events[i].entry.pair);
    if i == |events| - 1 {
      assert events[..i] == Init(events);
    } else {
      assert Init(events)[..i] == events[..i];
      LastEmitGrows(cfg, Init(events), i);
    }
  }

  /** Two emissions for one pair are at least five seconds apart, even if the clock is stepped back. */
  lemma EmissionsSpaced(cfg: Config, events: seq<Event>, i: nat, j: nat)
    requires i < j < |events| && events[i].entry.pair == events[j].entry.pair
    requires EmitsAt(cfg, events, i) && EmitsAt(cfg, events, j)
    ensures events[j].recv - events[i].recv >= EMIT_INTERVAL_NS
  {
    assert events[..j][..i] == events[..i];
    LastEmitGrows(cfg, events[..j], i);
  }

  /** Event `i` of the run put out a snapshot. */
  predicate EmittedAt(cfg: Config, events: seq<Event>, i: nat)
    requires i < |events|
  {
    LastEmission(cfg, events[..i + 1]) != []
  }

  lemma EmittedIsEmits(cfg: Config, events: seq<Event>, i: nat)
    requires i < |events|
    ensures EmittedAt(cfg, events, i) <==> EmitsAt(cfg, events, i)
  {
    assert Init(events[..i + 1]) == events[..i];
  }

  lemma {:induction false} LastEmitNext(cfg: Config, events: seq<Event>, pair: string)
    requires events != [] && pair in cfg.canonical
    ensures var e, before := Last(events), LastEmit(State(cfg, Init(events)), pair);
      LastEmit(State(cfg, events), pair)
      == if e.entry.pair == pair && LastEmission(cfg, events) != [] then e.recv else before
  {
  }

  /** The throttle's memory of a mapped pair: the receive time of its latest emission, or zero. */
  lemma {:induction false} LastEmitIs(cfg: Config, events: seq<Event>, pair: string) returns (i: int)
    requires pair in cfg.canonical
    ensures -1 <= i < |events| && LastEmit(State(cfg, events), pair) >= 0
    ensures i == -1 ==> LastEmit(State(cfg, events), pair) == 0
    ensures i >= 0 ==> events[i].entry.pair == pair && EmittedAt(cfg, events, i)
    ensures i >= 0 ==> LastEmit(State(cfg, events), pair) == events[i].recv
  {
    i := -1;
    if events != [] {
      var e, n := Last(events), |events| - 1;
      i := LastEmitIs(cfg, Init(events), pair);
      LastEmitNext(cfg, events, pair);
      StepKeepsLast(cfg, State(cfg, Init(events)), e, pair);
      if e.entry.pair == pair && LastEmission(cfg, events) != [] {
        i := n;
        assert events[..n + 1] == events;
      } else if i >= 0 {
        assert Init(events)[..i + 1] == events[..i + 1];
      }
    }
  }

  lemma {:induction false} NoEarlierBeyond(cfg: Config, events: seq<Event>, i: nat, pair: string)
    requires i < |events| && events[i].entry.pair == pair && EmittedAt(cfg, events, i)
    ensures LastEmit(State(cfg, events), pair) >= events[i].recv
  {
    EmittedIsEmits(cfg, events, i);
    LastEmitGrows(cfg, events, i);
  }

  /** The last event is received at least five seconds after every earlier one that emitted for its pair, and
    * after the epoch. */
  ghost predicate FiveSecondsClear(cfg: Config, events: seq<Event>)
    requires events != []
  {
    var e := Last(events);
    && e.recv >= 5_000_000_000
    && forall i :: 0 <= i < |events| - 1 && events[i].entry.pair == e.entry.pair && EmittedAt(cfg, events, i) ==>
         e.recv - events[i].recv >= 5_000_000_000
  }

  lemma {:induction false} ClearIffDue(cfg: Config, events: seq<Event>)
    requires events != [] && Last(events).entry.pair in cfg.canonical
    ensures var e := Last(events);
      FiveSecondsClear(cfg, events) <==> e.recv - LastEmit(State(cfg, Init(events)), e.entry.pair) >= 5_000_000_000
  {
    var before, p := Init(events), Last(events).entry.pair;
    var last := LastEmitIs(cfg, before, p);
    forall i | 0 <= i < |before| ensures EmittedAt(cfg, events, i) <==> EmittedAt(cfg, before, i) {
      SameStart(cfg, events, i);
    }
    forall i | 0 <= i < |before| && before[i].entry.pair == p && EmittedAt(cfg, before, i)
      ensures LastEmit(State(cfg, before), p) >= before[i].recv
    {
      NoEarlierBeyond(cfg, before, i, p);
    }
    ClearOfLatest(Last(events).recv, LastEmit(State(cfg, before), p), cfg, before, p, last);
  }

  lemma SameStart(cfg: Config, events: seq<Event>, i: nat)
    requires i < |events| - 1
    ensures EmittedAt(cfg, events, i) <==> EmittedAt(cfg, Init(events), i)
  {
    assert Init(events)[..i + 1] == events[..i + 1];
  }

  /** Being clear of the latest emission is being clear of all, and of the epoch. */
  lemma ClearOfLatest(recv: int, latest: int, cfg: Config, before: seq<Event>, pair: string, i: int)
    requires -1 <= i < |before| && latest >= 0 && (i == -1 ==> latest == 0)
    requires i >= 0 ==> before[i].entry.pair == pair && EmittedAt(cfg, before, i) && latest == before[i].recv
    requires forall j :: 0 <= j < |before| && before[j].entry.pair == pair && EmittedAt(cfg, before, j) ==>
      latest >= before[j].recv
    ensures recv - latest >= 5_000_000_000
       <==> (recv >= 5_000_000_000
             && forall j :: 0 <= j < |before| && before[j].entry.pair == pair && EmittedAt(cfg, before, j) ==>
                  recv - before[j].recv >= 5_000_000_000)
  {
  }

  /** When a snapshot comes out: an event emits one, exactly when its pair is known and it is received at least
    * five seconds after every earlier event that emitted for the pair, and after the epoch. */
  lemma {:induction false} EmitsWhenDue(cfg: Config, events: seq<Event>)
    requires events != []
    ensures |LastEmission(cfg, events)|
         == if Last(events).entry.pair in cfg.canonical && FiveSecondsClear(cfg, events) then 1 else 0
  {
    if Last(events).entry.pair in cfg.canonical { ClearIffDue(cfg, events); }
  }
}
