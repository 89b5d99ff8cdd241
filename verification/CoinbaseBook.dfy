/** Coinbase's `stream_book`: like Kraken's, but books exist from the start for the subscribed products,
  * are never cleared, both sides arrive in one list, and the throttle is set before the product is
  * mapped to its canonical symbol. */
module CoinbaseBook {
  import opened Orders
  import opened Seqs
  import opened Books

  datatype Sides = Bid | Offer

  datatype Update = Update(side: Sides, level: Level)

  /** One element of a message's `events`, with the message's receive time; `snapshot` is its `type`, which
    * the stream never looks at. */
  datatype Event = Event(recv: int, product: string, snapshot: bool, updates: seq<Update>)

  datatype Config = Config(products: set<string>, canonical: map<string, string>, depth: nat)

  function PutUpdate(b: Book, u: Update): Book {
    if u.side == Bid then b.(bids := Put(b.bids, u.level)) else b.(asks := Put(b.asks, u.level))
  }

  function PutUpdates(b: Book, us: seq<Update>): Book {
    if us == [] then b else PutUpdate(PutUpdates(b, Init(us)), Last(us))
  }

  function Start(cfg: Config): Tracker {
    Tracker(map p | p in cfg.products :: EMPTY, map p | p in cfg.products :: 0)
  }

  ghost predicate Complete(cfg: Config, t: Tracker) { t.books.Keys == t.lastEmit.Keys == cfg.products }

  predicate Due(t: Tracker, recv: int, product: string)
    requires product in t.lastEmit
  {
    recv - t.lastEmit[product] >= EMIT_INTERVAL_NS
  }

  function After(cfg: Config, t: Tracker, e: Event): Tracker
    requires Complete(cfg, t)
  {
    var p := e.product;
    if p !in cfg.products then t
    else Tracker(t.books[p := PutUpdates(t.books[p], e.updates)],
                 t.lastEmit[p := if Due(t, e.recv, p) then e.recv else t.lastEmit[p]])
  }

  predicate Fires(cfg: Config, t: Tracker, e: Event)
    requires Complete(cfg, t)
  {
    e.product in cfg.products && Due(t, e.recv, e.product) && e.product in cfg.canonical
  }

  function Emits(cfg: Config, t: Tracker, e: Event): seq<Snapshot>
    requires Complete(cfg, t)
  {
    if Fires(cfg, t, e)
    then [Snap(e.recv, cfg.canonical[e.product], cfg.depth, PutUpdates(t.books[e.product], e.updates))] else []
  }

  function State(cfg: Config, events: seq<Event>): (t: Tracker)
    ensures Complete(cfg, t)
  {
    if events == [] then Start(cfg) else After(cfg, State(cfg, Init(events)), Last(events))
  }

  function LastEmission(cfg: Config, events: seq<Event>): seq<Snapshot>
    requires events != []
  {
    Emits(cfg, State(cfg, Init(events)), Last(events))
  }

  function Emitted(cfg: Config, events: seq<Event>): seq<Snapshot> {
    if events == [] then [] else Emitted(cfg, Init(events)) + LastEmission(cfg, events)
  }

  // ----- the stream as an object -----

  class Stream {
    const cfg: Config
    var books: map<string, Book>
    var lastEmitNs: map<string, int>

    function Current(): Tracker
      reads this
    {
      Tracker(books, lastEmitNs)
    }

    constructor (products: set<string>, canonical: map<string, string>, depth: nat)
      ensures cfg == Config(products, canonical, depth) && Current() == Start(cfg)
    {
      cfg := Config(products, canonical, depth);
      books := map p | p in products :: EMPTY;
      lastEmitNs := map p | p in products :: 0;
    }

    method OnEvent(e: Event) returns (out: seq<Snapshot>)
      requires Complete(cfg, Current())
      modifies this
      ensures Current() == After(cfg, old(Current()), e) && out == Emits(cfg, old(Current()), e)
    {
      var pid := e.product;
      if pid !in books {
        return [];
      }
      var book := ApplyUpdates(books[pid], e.updates);
      books := books[pid := book];
      if e.recv - lastEmitNs[pid] < EMIT_INTERVAL_NS {
        lastEmitNs := lastEmitNs[pid := lastEmitNs[pid]];
        return [];
      }
      lastEmitNs := lastEmitNs[pid := e.recv];
      if pid !in cfg.canonical {
        return [];
      }
      out := [Snap(e.recv, cfg.canonical[pid], cfg.depth, book)];
    }

    /** The loop over an event's updates. */
    method ApplyUpdates(book0: Book, updates: seq<Update>) returns (book: Book)
      ensures book == PutUpdates(book0, updates)
    {
      book := book0;
      for i := 0 to |updates|
        invariant book == PutUpdates(book0, updates[..i])
      {
        assert Init(updates[..i + 1]) == updates[..i];
        book := PutUpdate(book, updates[i]);
      }
      TakeAll(updates);
    }

    /** All messages of a connection, one event after the other. */
    method Run(events: seq<Event>) returns (out: seq<Snapshot>)
      requires Current() == Start(cfg)
      modifies this
      ensures Current() == State(cfg, events) && out == Emitted(cfg, events)
    {
      out := [];
      for i := 0 to |events|
        invariant Current() == State(cfg, events[..i]) && out == Emitted(cfg, events[..i])
      {
        assert Init(events[..i + 1]) == events[..i];
        var more := OnEvent(events[i]);
        out := out + more;
      }
      TakeAll(events);
    }
  }

  // ----- the book is the replay of the whole log -----

  function OnSide(side: Sides): Update -> bool { (u: Update) => u.side == side }

  function LevelOfUpdate(u: Update): Level { u.level }

  function SideLog(us: seq<Update>, side: Sides): seq<Level> { MapBy(Filter(us, OnSide(side)), LevelOfUpdate) }

  /** All updates of one side of a product. */
  function Log(events: seq<Event>, product: string, side: Sides): seq<Level> {
    if events == [] then []
    else if Last(events).product != product then Log(Init(events), product, side)
    else Log(Init(events), product, side) + SideLog(Last(events).updates, side)
  }

  lemma SideLogNext(us: seq<Update>, side: Sides)
    requires us != []
    ensures SideLog(us, side)
         == if Last(us).side == side then SideLog(Init(us), side) + [Last(us).level] else SideLog(Init(us), side)
  {
  }

  lemma {:induction false} PutOne(side: Side, ls: seq<Level>, l: Level)
    ensures PutAll(side, ls + [l]) == Put(PutAll(side, ls), l)
  {
    assert Init(ls + [l]) == ls;
  }

  /** Interleaved updates act on the two sides independently. */
  lemma {:induction false} SidesIndependent(b: Book, us: seq<Update>)
    ensures PutUpdates(b, us) == Book(PutAll(b.bids, SideLog(us, Bid)), PutAll(b.asks, SideLog(us, Offer)))
  {
    if us == [] {
      assert SideLog(us, Bid) == [] && SideLog(us, Offer) == [];
    } else {
      SidesIndependent(b, Init(us));
      SideLogNext(us, Bid);
      SideLogNext(us, Offer);
      PutOne(b.bids, SideLog(Init(us), Bid), Last(us).level);
      PutOne(b.asks, SideLog(Init(us), Offer), Last(us).level);
    }
  }

  function Replay(events: seq<Event>, product: string): Book {
    Book(PutAll(map[], Log(events, product, Bid)), PutAll(map[], Log(events, product, Offer)))
  }

  lemma {:induction false} BookIsReplay(cfg: Config, events: seq<Event>, product: string)
    requires product in cfg.products
    ensures State(cfg, events).books[product] == Replay(events, product)
  {
    if events != [] {
      BookIsReplay(cfg, Init(events), product);
      var e := Last(events);
      if e.product == product {
        SidesIndependent(Replay(Init(events), product), e.updates);
        PutConcat(map[], Log(Init(events), product, Bid), SideLog(e.updates, Bid));
        PutConcat(map[], Log(Init(events), product, Offer), SideLog(e.updates, Offer));
      }
    }
  }

  /** Every snapshot emitted, in every run, holds exactly the best levels of what was last written since
    * the stream began. */
  lemma {:induction false} EmissionIsReplay(cfg: Config, events: seq<Event>, s: Snapshot)
    requires events != [] && s in LastEmission(cfg, events)
    ensures var p := Last(events).product;
      && p in cfg.canonical && s == Snap(Last(events).recv, cfg.canonical[p], cfg.depth, Replay(events, p))
      && s.ts == Last(events).recv && s.symbol == cfg.canonical[p] && s.depth == cfg.depth
      && SnapOfLogs(s, Log(events, p, Bid), Log(events, p, Offer))
  {
    var p := Last(events).product;
    BookIsReplay(cfg, events, p);
    SnapIsOfLogs(Last(events).recv, cfg.canonical[p], cfg.depth, Log(events, p, Bid), Log(events, p, Offer));
  }

  // ----- what a snapshot message should have cleared -----

  /** The events up to the product's last snapshot message, and from it on. */
  function BeforeSnapshot(events: seq<Event>, product: string): seq<Event> {
    if events == [] then []
    else if Last(events).product == product && Last(events).snapshot then Init(events)
    else BeforeSnapshot(Init(events), product)
  }

  function SinceSnapshot(events: seq<Event>, product: string): seq<Event> {
    if events == [] then []
    else if Last(events).product == product && Last(events).snapshot then [Last(events)]
    else SinceSnapshot(Init(events), product) + [Last(events)]
  }

  function EventLog(e: Event, product: string, side: Sides): seq<Level> {
    if e.product == product then SideLog(e.updates, side) else []
  }

  lemma {:induction false} LogNext(events: seq<Event>, e: Event, product: string, side: Sides)
    ensures Log(events + [e], product, side) == Log(events, product, side) + EventLog(e, product, side)
  {
    assert Init(events + [e]) == events;
    if e.product != product { assert Log(events, product, side) + [] == Log(events, product, side); }
  }

  lemma Regroup<T>(a: seq<T>, b: seq<T>, c: seq<T>)
    ensures (a + b) + c == a + (b + c)
  {
  }

  lemma {:induction false} LogSplit(events: seq<Event>, product: string, side: Sides)
    ensures Log(events, product, side)
         == Log(BeforeSnapshot(events, product), product, side) + Log(SinceSnapshot(events, product), product, side)
  {
    if events != [] {
      var e, rest := Last(events), Init(events);
      assert events == rest + [e];
      LogNext(rest, e, product, side);
      if e.product == product && e.snapshot {
        LogNext([], e, product, side);
        assert [] + [e] == [e];
        assert [] + EventLog(e, product, side) == EventLog(e, product, side);
      } else {
        LogSplit(rest, product, side);
        LogNext(SinceSnapshot(rest, product), e, product, side);
        Regroup(Log(BeforeSnapshot(rest, product), product, side), Log(SinceSnapshot(rest, product), product, side),
                EventLog(e, product, side));
      }
    }
  }

  /** Every level of the snapshot was written by the product's last snapshot message or after it. */
  ghost predicate Fresh(events: seq<Event>, product: string, s: Snapshot) {
    var since := SinceSnapshot(events, product);
    && (forall i :: 0 <= i < |s.bids| ==> WrittenIn(Log(since, product, Bid), s.bids[i].px))
    && forall i :: 0 <= i < |s.asks| ==> WrittenIn(Log(since, product, Offer), s.asks[i].px)
  }

  /** The book is the one the last snapshot message started exactly when that message and those after it
    * write every price still live from before. */
  lemma {:induction false} BookIsFreshIff(events: seq<Event>, product: string)
    ensures var was, since := BeforeSnapshot(events, product), SinceSnapshot(events, product);
      Replay(events, product) == Replay(since, product)
      <==> AllRewritten(Log(was, product, Bid), Log(since, product, Bid))
           && AllRewritten(Log(was, product, Offer), Log(since, product, Offer))
  {
    var was, since := BeforeSnapshot(events, product), SinceSnapshot(events, product);
    LogSplit(events, product, Bid);
    LogSplit(events, product, Offer);
    SameReplayIff(Log(was, product, Bid), Log(since, product, Bid));
    SameReplayIff(Log(was, product, Offer), Log(since, product, Offer));
  }

  /** An emission is what a book cleared by the last snapshot message would show exactly when no level in it
    * is left over from before. */
  lemma {:induction false} EmissionIsFreshIff(cfg: Config, events: seq<Event>, s: Snapshot)
    requires events != [] && s in LastEmission(cfg, events)
    ensures var p := Last(events).product;
      p in cfg.canonical &&
      (s == Snap(s.ts, cfg.canonical[p], cfg.depth, Replay(SinceSnapshot(events, p), p)) <==> Fresh(events, p, s))
  {
    var p := Last(events).product;
    var was, since := BeforeSnapshot(events, p), SinceSnapshot(events, p);
    EmissionIsReplay(cfg, events, s);
    LogSplit(events, p, Bid);
    LogSplit(events, p, Offer);
    RealOrders();
    SameBestIff(Log(was, p, Bid), Log(since, p, Bid), RealGe, cfg.depth);
    SameBestIff(Log(was, p, Offer), Log(since, p, Offer), RealLe, cfg.depth);
  }

  /** A snapshot message with one bid, and another one later with a lower one. */
  function Bidding(recv: int, product: string, px: real): Event {
    Event(recv, product, true, [Update(Bid, Level(px, 1.0))])
  }

  /** For every configuration that maps a product: an emission on a snapshot message shows, at its top, a bid
    * which that message does not contain. */
  lemma StaleLevelEmitted(cfg: Config, p: string) returns (events: seq<Event>, s: Snapshot)
    requires p in cfg.products && p in cfg.canonical && cfg.depth > 0
    ensures events != [] && Last(events).product == p && Last(events).snapshot
    ensures s in LastEmission(cfg, events) && s.bids != []
    ensures forall u :: u in Last(events).updates ==> u.level.px != s.bids[0].px
  {
    var a, b := Bidding(0, p, 100.0), Bidding(EMIT_INTERVAL_NS, p, 99.0);
    events := [a, b];
    TwoBids(cfg, p, a, b);
    var book := State(cfg, events).books[p];
    s := Snap(b.recv, cfg.canonical[p], cfg.depth, book);
    SecondEmits(cfg, p, a, b);
    RealOrders();
    BestFirst(book.bids, RealGe, cfg.depth, 100.0);
  }

  lemma {:induction false} SecondEmits(cfg: Config, p: string, a: Event, b: Event)
    requires p in cfg.products && p in cfg.canonical && b.product == p && State(cfg, [a]).lastEmit[p] == 0
    requires b.recv == EMIT_INTERVAL_NS
    ensures LastEmission(cfg, [a, b]) == [Snap(b.recv, cfg.canonical[p], cfg.depth, State(cfg, [a, b]).books[p])]
  {
    assert Init([a, b]) == [a];
  }

  lemma {:induction false} TwoBids(cfg: Config, p: string, a: Event, b: Event)
    requires p in cfg.products && a == Bidding(0, p, 100.0) && b == Bidding(EMIT_INTERVAL_NS, p, 99.0)
    ensures State(cfg, [a]).lastEmit[p] == 0
    ensures State(cfg, [a, b]).books[p].bids == map[100.0 := 1.0, 99.0 := 1.0]
  {
    assert Init([a, b]) == [a] && Init([a]) == [];
    var u, v := Update(Bid, Level(100.0, 1.0)), Update(Bid, Level(99.0, 1.0));
    assert Init([u]) == [] && Init([v]) == [];
    assert PutUpdates(EMPTY, [u]) == PutUpdate(EMPTY, u);
    assert PutUpdates(PutUpdate(EMPTY, u), [v]) == PutUpdate(PutUpdate(EMPTY, u), v);
  }

  // ----- throttling -----

  predicate EmitsAt(cfg: Config, events: seq<Event>, i: nat)
    requires i < |events|
  {
    Fires(cfg, State(cfg, events[..i]), events[i])
  }

  lemma StepKeepsLast(cfg: Config, t: Tracker, e: Event, product: string)
    requires Complete(cfg, t) && product in cfg.products
    ensures After(cfg, t, e).lastEmit[product] >= t.lastEmit[product]
    ensures Fires(cfg, t, e) && e.product == product ==> After(cfg, t, e).lastEmit[product] == e.recv
  {
  }

  lemma {:induction false} LastEmitGrows(cfg: Config, events: seq<Event>, i: nat)
    requires i < |events| && EmitsAt(cfg, events, i)
    ensures State(cfg, events).lastEmit[events[i].product] >= events[i].recv
  {
    StepKeepsLast(cfg, State(cfg, Init(events)), Last(events), events[i].product);
    if i == |events| - 1 {
      assert events[..i] == Init(events);
    } else {
      assert Init(events)[..i] == events[..i];
      LastEmitGrows(cfg, Init(events), i);
    }
  }

  /** Two emissions for one product are at least five seconds apart. */
  lemma EmissionsSpaced(cfg: Config, events: seq<Event>, i: nat, j: nat)
    requires i < j < |events| && events[i].product == events[j].product
    requires EmitsAt(cfg, events, i) && EmitsAt(cfg, events, j)
    ensures events[j].recv - events[i].recv >= EMIT_INTERVAL_NS
  {
    assert events[..j][..i] == events[..i];
    LastEmitGrows(cfg, events[..j], i);
  }

  /** Event `i` of the run reset its product's throttle: it was let through, whether or not its product has a
    * canonical symbol. */
  ghost predicate PassedAt(cfg: Config, events: seq<Event>, i: nat)
    requires i < |events|
  {
    && events[i].product in cfg.products
    && events[i].recv - LastPass(cfg, events[..i], events[i].product) >= 5_000_000_000
  }

  /** When the product last passed the throttle, read off the run: zero if it never did. */
  ghost function LastPass(cfg: Config, events: seq<Event>, product: string): int {
    if events == [] then 0
    else
      var e, before := Last(events), LastPass(cfg, Init(events), product);
      if e.product == product && e.recv - before >= 5_000_000_000 then e.recv else before
  }

  lemma {:induction false} ThrottleIs(cfg: Config, events: seq<Event>, product: string)
    requires product in cfg.products
    ensures State(cfg, events).lastEmit[product] == LastPass(cfg, events, product)
  {
    if events != [] { ThrottleIs(cfg, Init(events), product); }
  }

  lemma {:induction false} LastPassIs(cfg: Config, events: seq<Event>, product: string) returns (i: int)
    requires product in cfg.products
    ensures -1 <= i < |events| && LastPass(cfg, events, product) >= 0
    ensures i == -1 ==> LastPass(cfg, events, product) == 0
    ensures i >= 0 ==> events[i].product == product && PassedAt(cfg, events, i)
    ensures i >= 0 ==> LastPass(cfg, events, product) == events[i].recv
    ensures forall j :: 0 <= j < |events| && events[j].product == product && PassedAt(cfg, events, j) ==>
      LastPass(cfg, events, product) >= events[j].recv
  {
    i := -1;
    if events != [] {
      var n, before := |events| - 1, Init(events);
      i := LastPassIs(cfg, before, product);
      assert events[..n] == before;
      forall j | 0 <= j < n ensures PassedAt(cfg, events, j) <==> PassedAt(cfg, before, j) {
        assert before[..j] == events[..j];
      }
      if events[n].product == product && PassedAt(cfg, events, n) { i := n; }
    }
  }

  /** When a snapshot comes out: an event of a subscribed product passes the throttle exactly when it is received
    * at least five seconds after every earlier event of the product that passed, and after the epoch; and it
    * emits one snapshot exactly when it passes and the product has a canonical symbol. */
  lemma {:induction false} EmitsWhenDue(cfg: Config, events: seq<Event>)
    requires events != []
    ensures var e, n := Last(events), |events| - 1;
      && (PassedAt(cfg, events, n)
          <==> (e.product in cfg.products && e.recv >= 5_000_000_000
                && forall i :: 0 <= i < n && events[i].product == e.product && PassedAt(cfg, events, i) ==>
                     e.recv - events[i].recv >= 5_000_000_000))
      && |LastEmission(cfg, events)| == if PassedAt(cfg, events, n) && e.product in cfg.canonical then 1 else 0
  {
    var before, e, n := Init(events), Last(events), |events| - 1;
    assert events[..n] == before;
    if e.product in cfg.products {
      ThrottleIs(cfg, before, e.product);
      var last := LastPassIs(cfg, before, e.product);
      forall i | 0 <= i < n ensures PassedAt(cfg, events, i) <==> PassedAt(cfg, before, i) {
        assert before[..i] == events[..i];
      }
    }
  }

  /** Event `i` of the run put out a snapshot. */
  predicate EmittedAt(cfg: Config, events: seq<Event>, i: nat)
    requires i < |events|
  {
    LastEmission(cfg, events[..i + 1]) != []
  }

  lemma EmittedIffPassed(cfg: Config, events: seq<Event>, i: nat)
    requires i < |events| && events[i].product in cfg.canonical
    ensures EmittedAt(cfg, events, i) <==> PassedAt(cfg, events, i)
  {
    var some := events[..i + 1];
    EmitsWhenDue(cfg, some);
    assert some[..i] == events[..i];
  }

  /** So among the events of a mapped product the emissions alone decide. */
  lemma {:induction false} MappedEmitsWhenDue(cfg: Config, events: seq<Event>)
    requires events != [] && Last(events).product in cfg.products && Last(events).product in cfg.canonical
    ensures var e, n := Last(events), |events| - 1;
      |LastEmission(cfg, events)| == if e.recv >= 5_000_000_000
          && (forall i :: 0 <= i < n && events[i].product == e.product && EmittedAt(cfg, events, i) ==>
                e.recv - events[i].recv >= 5_000_000_000)
        then 1 else 0
  {
    EmitsWhenDue(cfg, events);
    forall i | 0 <= i < |events| - 1 && events[i].product == Last(events).product
      ensures EmittedAt(cfg, events, i) <==> PassedAt(cfg, events, i)
    {
      EmittedIffPassed(cfg, events, i);
    }
  }
}
