/** `get_bars(asof=...)`: point-in-time reads over partitions that keep receiving parts and being
  * compacted. */
module AsOf {
  import opened Orders
  import opened Seqs
  import opened Tape
  import opened Gathering
  import opened Compact
  import opened Resample
  import opened ResampledRows

  /** The row filter of the query; `venues` is `{"agg"}` unless sources are given. */
  datatype Query = Query(symbol: string, venues: set<string>, start: int, end: int, asof: Option<int>)

  predicate Selects(q: Query, b: Bar) {
    && b.symbol == q.symbol && b.venue in q.venues && q.start <= b.ts < q.end
    && (q.asof.Some? ==> VisibleAt(b.ingested, q.asof.value))
  }

  function Selection(q: Query): Bar -> bool { (b: Bar) => Selects(q, b) }

  /** The rows a read returns from a table whose rows are listed in some order. */
  function Read(q: Query, listing: seq<Bar>): seq<Bar> { Filter(listing, Selection(q)) }

  lemma {:induction false} FilterMultiplicity<T>(s: seq<T>, p: T -> bool, x: T)
    ensures multiset(Filter(s, p))[x] == if p(x) then multiset(s)[x] else 0
  {
    if s != [] {
      FilterMultiplicity(Init(s), p, x);
      assert s == Init(s) + [Last(s)];
    }
  }

  /** What a read answers: a row is in it as often as it is listed, if it is of the symbol and one of the venues,
    * from the start on and before the end, and there is no cutoff, or the row is unstamped or stamped by then. */
  lemma {:induction false} AnswerIs(q: Query, listing: seq<Bar>, b: Bar)
    ensures multiset(Read(q, listing))[b]
         == if b.symbol == q.symbol && b.venue in q.venues && q.start <= b.ts && b.ts < q.end
               && (q.asof.None? || b.ingested.None? || b.ingested.value <= q.asof.value)
            then multiset(listing)[b] else 0
  {
    FilterMultiplicity(listing, Selection(q), b);
  }

  /** Ranges join: reading up to a moment and then from it on is reading both at once. */
  lemma RangesJoin(q: Query, start: int, mid: int, end: int, listing: seq<Bar>)
    requires start <= mid <= end
    ensures multiset(Read(q.(start := start, end := mid), listing))
            + multiset(Read(q.(start := mid, end := end), listing))
         == multiset(Read(q.(start := start, end := end), listing))
  {
    var a, b, c := q.(start := start, end := mid), q.(start := mid, end := end), q.(start := start, end := end);
    var m, n, all := multiset(Read(a, listing)), multiset(Read(b, listing)), multiset(Read(c, listing));
    forall x ensures (m + n)[x] == all[x] {
      AnswerIs(a, listing, x);
      AnswerIs(b, listing, x);
      AnswerIs(c, listing, x);
    }
  }

  // ----- the table -----

  /** One state of the compaction machine per partition directory. */
  type Table = seq<State<Bar>>

  datatype Event = Event(partition: nat, step: Step<Bar>)

  ghost predicate Happens(t: Table, e: Event) { e.partition < |t| && Enabled(t[e.partition], e.step) }

  function Then(t: Table, e: Event): Table
    requires e.partition < |t| && Enabled(t[e.partition], e.step)
  {
    t[e.partition := After(t[e.partition], e.step)]
  }

  ghost predicate History(t: Table, events: seq<Event>)
    decreases |events|
  {
    events == [] || (Happens(t, events[0]) && History(Then(t, events[0]), events[1..]))
  }

  ghost function Eventually(t: Table, events: seq<Event>): Table
    requires History(t, events)
    decreases |events|
  {
    if events == [] then t else Eventually(Then(t, events[0]), events[1..])
  }

  ghost function Rows(t: Table): multiset<Bar> {
    if t == [] then multiset{} else Rows(Init(t)) + Stored(Last(t).dir)
  }

  /** Everything the producers ever wrote to the table. */
  ghost function Written(t: Table): multiset<Bar> {
    if t == [] then multiset{} else Written(Init(t)) + Last(t).written
  }

  /** All copies that interrupted compactions left in the table. */
  ghost function LeftBehind(t: Table): multiset<Bar> {
    if t == [] then multiset{} else LeftBehind(Init(t)) + Last(t).left
  }

  ghost predicate Sound(t: Table) { forall i :: 0 <= i < |t| ==> Inv(t[i]) }

  ghost predicate Quiet(t: Table) { forall i :: 0 <= i < |t| ==> t[i].job.Idle? }

  /** Producers and interrupted runs only add, and without a newly interrupted run no copies are added. */
  ghost predicate Grown(s: State<Bar>, e: State<Bar>) {
    && s.written <= e.written && s.left <= e.left
    && s.crashes <= e.crashes && (s.crashes == e.crashes ==> s.left == e.left)
  }

  lemma StepGrows(s: State<Bar>, a: Step<Bar>)
    requires Enabled(s, a)
    ensures Grown(s, After(s, a))
  {
  }

  ghost predicate AllGrown(t: Table, u: Table) {
    |t| == |u| && forall i :: 0 <= i < |t| ==> Grown(t[i], u[i])
  }

  lemma ThenSound(t: Table, e: Event)
    requires Sound(t) && Happens(t, e)
    ensures Sound(Then(t, e)) && AllGrown(t, Then(t, e))
  {
    StepKeeps(t[e.partition], e.step);
    StepGrows(t[e.partition], e.step);
  }

  lemma GrownTransitive(t: Table, u: Table, v: Table)
    requires AllGrown(t, u) && AllGrown(u, v)
    ensures AllGrown(t, v)
  {
    forall i | 0 <= i < |t| ensures Grown(t[i], v[i]) {
      assert Grown(t[i], u[i]) && Grown(u[i], v[i]);
    }
  }

  lemma {:induction false} TableGrows(t: Table, events: seq<Event>)
    requires Sound(t) && History(t, events)
    ensures Sound(Eventually(t, events)) && AllGrown(t, Eventually(t, events))
    decreases |events|
  {
    if events != [] {
      ThenSound(t, events[0]);
      TableGrows(Then(t, events[0]), events[1..]);
      GrownTransitive(t, Then(t, events[0]), Eventually(t, events));
    }
  }

  ghost predicate NoneInterrupted(t: Table, u: Table) {
    |t| == |u| && forall i :: 0 <= i < |t| ==> t[i].crashes == u[i].crashes
  }

  lemma PartitionHolds(s: State<Bar>, x: Bar)
    requires Inv(s)
    ensures s.written[x] + s.left[x] <= Stored(s.dir)[x]
    ensures s.job.Idle? ==> Stored(s.dir)[x] == s.written[x] + s.left[x]
  {
    if s.job.Idle? { assert Uncleared(s) == []; }
  }

  /** The table always holds what was written and the copies left, and in quiet moments nothing else. */
  lemma {:induction false} TableHolds(t: Table, x: Bar)
    requires Sound(t)
    ensures Written(t)[x] + LeftBehind(t)[x] <= Rows(t)[x]
    ensures Quiet(t) ==> Rows(t)[x] == Written(t)[x] + LeftBehind(t)[x]
  {
    if t != [] {
      PartitionHolds(Last(t), x);
      TableHolds(Init(t), x);
    }
  }

  lemma {:induction false} TotalsGrow(t: Table, u: Table, x: Bar)
    requires AllGrown(t, u)
    ensures Written(t)[x] <= Written(u)[x] && LeftBehind(t)[x] <= LeftBehind(u)[x]
    ensures NoneInterrupted(t, u) ==> LeftBehind(t)[x] == LeftBehind(u)[x]
  {
    if t != [] {
      assert Grown(t[|t| - 1], u[|t| - 1]);
      TotalsGrow(Init(t), Init(u), x);
    }
  }

  // ----- stability -----

  ghost predicate Lists(listing: seq<Bar>, t: Table) { multiset(listing) == Rows(t) }

  /** Nothing written between the two moments is selected. */
  ghost predicate NothingNewSelected(q: Query, t: Table, u: Table) {
    forall x :: Selects(q, x) ==> Written(u)[x] == Written(t)[x]
  }

  /** No compaction interrupted between the two moments left a copy of a selected row. */
  ghost predicate NoNewCopies(q: Query, t: Table, u: Table) {
    forall x :: Selects(q, x) ==> LeftBehind(u)[x] == LeftBehind(t)[x]
  }

  /** How often a quiet read returns a row. */
  lemma {:induction false} ReadCount(q: Query, t: Table, listing: seq<Bar>, x: Bar)
    requires Sound(t) && Quiet(t) && Lists(listing, t)
    ensures multiset(Read(q, listing))[x] == if Selects(q, x) then Written(t)[x] + LeftBehind(t)[x] else 0
  {
    FilterMultiplicity(listing, Selection(q), x);
    TableHolds(t, x);
  }

  /** A row's multiplicity in a read grows by what was written and copied of it, if it is selected. */
  ghost predicate ReadGrowsBy(q: Query, t: Table, u: Table, m: multiset<Bar>, n: multiset<Bar>, x: Bar) {
    && Written(t)[x] <= Written(u)[x] && LeftBehind(t)[x] <= LeftBehind(u)[x]
    && m[x] == (if Selects(q, x) then Written(t)[x] + LeftBehind(t)[x] else 0)
    && n[x] == (if Selects(q, x) then Written(u)[x] + LeftBehind(u)[x] else 0)
  }

  lemma SameReadIff(q: Query, t: Table, u: Table, m: multiset<Bar>, n: multiset<Bar>)
    requires forall x :: ReadGrowsBy(q, t, u, m, n, x)
    ensures m == n <==> NothingNewSelected(q, t, u) && NoNewCopies(q, t, u)
  {
    if m == n {
      forall x | Selects(q, x)
        ensures Written(u)[x] == Written(t)[x] && LeftBehind(u)[x] == LeftBehind(t)[x]
      {
        assert ReadGrowsBy(q, t, u, m, n, x);
      }
    }
    if NothingNewSelected(q, t, u) && NoNewCopies(q, t, u) {
      forall x ensures m[x] == n[x] {
        assert ReadGrowsBy(q, t, u, m, n, x);
      }
    }
  }

  /** Over any history of appends and compactions, interrupted ones included, in any listing order, a read
    * returns the same rows the same number of times exactly when no selected row was appended and no
    * interrupted compaction left a copy of one. */
  lemma {:induction false} ReadStableIff(q: Query, t: Table, events: seq<Event>, u: Table, before: seq<Bar>,
                                         after: seq<Bar>)
    requires Sound(t) && History(t, events) && u == Eventually(t, events)
    requires Quiet(t) && Quiet(u) && Lists(before, t) && Lists(after, u)
    ensures multiset(Read(q, before)) == multiset(Read(q, after))
       <==> NothingNewSelected(q, t, u) && NoNewCopies(q, t, u)
    ensures NoneInterrupted(t, u) ==>
      (multiset(Read(q, before)) == multiset(Read(q, after)) <==> NothingNewSelected(q, t, u))
  {
    var m, n := multiset(Read(q, before)), multiset(Read(q, after));
    TableGrows(t, events);
    forall x ensures ReadGrowsBy(q, t, u, m, n, x) {
      TotalsGrow(t, u, x);
      ReadCount(q, t, before, x);
      ReadCount(q, u, after, x);
    }
    SameReadIff(q, t, u, m, n);
    if NoneInterrupted(t, u) { UninterruptedCopiesNothing(q, t, u); }
  }

  lemma UninterruptedCopiesNothing(q: Query, t: Table, u: Table)
    requires AllGrown(t, u) && NoneInterrupted(t, u)
    ensures NoNewCopies(q, t, u)
  {
    forall x | Selects(q, x) ensures LeftBehind(u)[x] == LeftBehind(t)[x] { TotalsGrow(t, u, x); }
  }

  /** So once every write stamped at or before `a` has landed, the answer to a read as of `a` is final but for
    * copies: it stays the same exactly when no interrupted compaction leaves a copy of a selected row. */
  lemma {:induction false} PastReadsFinal(q: Query, a: int, t: Table, events: seq<Event>, u: Table, before: seq<Bar>,
                                          after: seq<Bar>)
    requires q.asof == Some(a) && Sound(t) && History(t, events) && u == Eventually(t, events)
    requires forall i :: 0 <= i < |events| ==> LateWrite(events[i].step, a)
    requires Quiet(t) && Quiet(u) && Lists(before, t) && Lists(after, u)
    ensures multiset(Read(q, before)) == multiset(Read(q, after)) <==> NoNewCopies(q, t, u)
    ensures NoneInterrupted(t, u) ==> multiset(Read(q, before)) == multiset(Read(q, after))
  {
    forall x | Selects(q, x) ensures Written(u)[x] == Written(t)[x] {
      LateWritesUnseen(q, a, t, events, x);
    }
    ReadStableIff(q, t, events, u, before, after);
  }

  /** The step writes only rows stamped after `a`. */
  ghost predicate LateWrite(step: Step<Bar>, a: int) {
    step.NewPart? ==> forall b :: b in step.rows ==> b.ingested.Some? && b.ingested.value > a
  }

  lemma {:induction false} WrittenUpdate(t: Table, i: nat, s: State<Bar>, x: Bar)
    requires i < |t|
    ensures Written(t[i := s])[x] + t[i].written[x] == Written(t)[x] + s.written[x]
  {
    if i == |t| - 1 {
      assert Init(t[i := s]) == Init(t);
    } else {
      assert Init(t[i := s]) == Init(t)[i := s];
      WrittenUpdate(Init(t), i, s, x);
    }
  }

  lemma {:induction false} LateWritesUnseen(q: Query, a: int, t: Table, events: seq<Event>, x: Bar)
    requires q.asof == Some(a) && History(t, events) && Selects(q, x)
    requires forall i :: 0 <= i < |events| ==> LateWrite(events[i].step, a)
    ensures Written(Eventually(t, events))[x] == Written(t)[x]
    decreases |events|
  {
    if events != [] {
      var e, rest := events[0], events[1..];
      assert forall i :: 0 <= i < |rest| ==> rest[i] == events[i + 1];
      LateWritesUnseen(q, a, Then(t, e), rest, x);
      WrittenUpdate(t, e.partition, After(t[e.partition], e.step), x);
      assert LateWrite(e.step, a);
      if e.step.NewPart? { assert x !in e.step.rows; }
    }
  }

  /** A later cutoff sees everything an earlier one does. */
  lemma CutoffMonotone(q: Query, a: int, b: int, listing: seq<Bar>)
    requires a <= b
    ensures multiset(Read(q.(asof := Some(a)), listing)) <= multiset(Read(q.(asof := Some(b)), listing))
         <= multiset(Read(q.(asof := None), listing))
  {
    var qa, qb, qn := q.(asof := Some(a)), q.(asof := Some(b)), q.(asof := None);
    forall x
      ensures multiset(Read(qa, listing))[x] <= multiset(Read(qb, listing))[x] <= multiset(Read(qn, listing))[x]
    {
      FilterMultiplicity(listing, Selection(qa), x);
      FilterMultiplicity(listing, Selection(qb), x);
      FilterMultiplicity(listing, Selection(qn), x);
    }
  }

  // ----- what a query at that moment saw -----

  lemma CutoffHides(q: Query, a: int, listing: seq<Bar>)
    ensures multiset(Read(q.(asof := None), listing)) == multiset(Read(q.(asof := Some(a)), listing))
       <==> forall b :: b in Read(q.(asof := None), listing) ==> VisibleAt(b.ingested, a)
  {
    var qa, qn := q.(asof := Some(a)), q.(asof := None);
    var m, n := multiset(Read(qa, listing)), multiset(Read(qn, listing));
    forall x ensures m[x] == if VisibleAt(x.ingested, a) then n[x] else 0 {
      FilterMultiplicity(listing, Selection(qa), x);
      FilterMultiplicity(listing, Selection(qn), x);
    }
    forall x ensures x in Read(qn, listing) <==> x in n {}
  }

  /** A later read as of `a` returns what a query without a cutoff returned at some moment exactly when nothing
    * the query could see then is stamped after `a`, no selected row stamped at or before `a`, or not stamped,
    * lands after that moment, and no interrupted compaction leaves a copy of such a row. */
  lemma {:induction false} ReproducesIff(q: Query, a: int, t: Table, events: seq<Event>, u: Table, seen: seq<Bar>,
                                         after: seq<Bar>)
    requires Sound(t) && History(t, events) && u == Eventually(t, events)
    requires Quiet(t) && Quiet(u) && Lists(seen, t) && Lists(after, u)
    ensures multiset(Read(q.(asof := None), seen)) == multiset(Read(q.(asof := Some(a)), after))
       <==> (forall b :: b in Read(q.(asof := None), seen) ==> VisibleAt(b.ingested, a))
            && NothingNewSelected(q.(asof := Some(a)), t, u) && NoNewCopies(q.(asof := Some(a)), t, u)
    ensures NoneInterrupted(t, u) ==>
      (multiset(Read(q.(asof := None), seen)) == multiset(Read(q.(asof := Some(a)), after))
       <==> (forall b :: b in Read(q.(asof := None), seen) ==> VisibleAt(b.ingested, a))
            && NothingNewSelected(q.(asof := Some(a)), t, u))
  {
    var qa, qn := q.(asof := Some(a)), q.(asof := None);
    ReadStableIff(qa, t, events, u, seen, after);
    CutoffHides(q, a, seen);
    if multiset(Read(qn, seen)) == multiset(Read(qa, after)) { SeenIsVisible(q, a, seen, after); }
    if NoneInterrupted(t, u) {
      TableGrows(t, events);
      UninterruptedCopiesNothing(qa, t, u);
    }
  }

  lemma SeenIsVisible(q: Query, a: int, seen: seq<Bar>, after: seq<Bar>)
    requires multiset(Read(q.(asof := None), seen)) == multiset(Read(q.(asof := Some(a)), after))
    ensures forall b :: b in Read(q.(asof := None), seen) ==> VisibleAt(b.ingested, a)
  {
    var qa, qn := q.(asof := Some(a)), q.(asof := None);
    forall b | b in Read(qn, seen) ensures VisibleAt(b.ingested, a) {
      assert b in multiset(Read(qn, seen));
      assert b in Read(qa, after);
      FilterMembers(after, Selection(qa));
    }
  }

  /** The new part that brings row `b` to partition `i`. */
  function Landing(i: nat, name: string, b: Bar): Event { Event(i, NewPart(name, [b])) }

  lemma {:induction false} LandingWrites(t: Table, i: nat, name: string, b: Bar)
    requires Sound(t) && i < |t| && IsPart(name) && name !in t[i].dir
    ensures Happens(t, Landing(i, name, b))
    ensures Written(Then(t, Landing(i, name, b)))[b] == Written(t)[b] + 1
  {
    WrittenUpdate(t, i, After(t[i], NewPart(name, [b])), b);
  }

  /** The stamp is a clock reading taken before the file is written, so it can fail. Take any table, and a row
    * stamped at or before `a` whose part lands after a query was answered: every later read as of `a`, whatever
    * else happens and even in the middle of a compaction, returns that row more often than the query did. */
  lemma {:induction false} LateLandingShows(q: Query, a: int, t: Table, i: nat, name: string, b: Bar,
                                            more: seq<Event>, v: Table, seen: seq<Bar>, later: seq<Bar>)
    requires Sound(t) && Quiet(t) && Lists(seen, t) && i < |t| && IsPart(name) && name !in t[i].dir
    requires Selects(q.(asof := None), b) && b.ingested.Some? && b.ingested.value <= a
    requires Happens(t, Landing(i, name, b)) && History(Then(t, Landing(i, name, b)), more)
    requires v == Eventually(Then(t, Landing(i, name, b)), more) && Lists(later, v)
    ensures multiset(Read(q.(asof := Some(a)), later))[b] > multiset(Read(q.(asof := None), seen))[b]
    ensures b in Read(q.(asof := Some(a)), later)
  {
    var u := Then(t, Landing(i, name, b));
    LandingWrites(t, i, name, b);
    ThenSound(t, Landing(i, name, b));
    TableGrows(u, more);
    MoreThere(t, u, v, b);
    ReadsMore(q, a, t, v, seen, later, b);
  }

  lemma {:induction false} MoreThere(t: Table, u: Table, v: Table, b: Bar)
    requires AllGrown(t, u) && AllGrown(u, v) && Sound(v) && Written(u)[b] > Written(t)[b]
    ensures Rows(v)[b] > Written(t)[b] + LeftBehind(t)[b]
  {
    TotalsGrow(t, u, b);
    TotalsGrow(u, v, b);
    TableHolds(v, b);
  }

  lemma {:induction false} ReadsMore(q: Query, a: int, t: Table, v: Table, seen: seq<Bar>, later: seq<Bar>, b: Bar)
    requires Sound(t) && Quiet(t) && Lists(seen, t) && Lists(later, v)
    requires Rows(v)[b] > Written(t)[b] + LeftBehind(t)[b]
    requires Selects(q.(asof := None), b) && b.ingested.Some? && b.ingested.value <= a
    ensures multiset(Read(q.(asof := Some(a)), later))[b] > multiset(Read(q.(asof := None), seen))[b]
    ensures b in Read(q.(asof := Some(a)), later)
  {
    ReadCount(q.(asof := None), t, seen, b);
    FilterMultiplicity(later, Selection(q.(asof := Some(a))), b);
    assert b in multiset(Read(q.(asof := Some(a)), later));
  }

  // ----- in the middle of a compaction, or after a crash -----

  lemma {:induction false} WrittenAreThere(t: Table, x: Bar)
    requires Sound(t)
    ensures Written(t)[x] <= Rows(t)[x] && (Written(t)[x] == 0 ==> Rows(t)[x] == 0)
  {
    if t != [] {
      WrittenAreThere(Init(t), x);
      RowBounds(Last(t), x);
      if Last(t).written[x] == 0 { assert (Last(t).crashes + 2) * Last(t).written[x] == 0; }
    }
  }

  /** At every moment, mid-compaction and after any crash, a read returns each selected row that was
    * written, at least as often as written, and no other row: what can vary is only how many copies. */
  lemma {:induction false} ReadsAreExactUpToCopies(q: Query, t: Table, events: seq<Event>, listing: seq<Bar>, x: Bar)
    requires Sound(t) && History(t, events) && Lists(listing, Eventually(t, events))
    ensures var u := Eventually(t, events);
      && (x in Read(q, listing) <==> Selects(q, x) && Written(u)[x] > 0)
      && (Selects(q, x) ==> Written(u)[x] <= multiset(Read(q, listing))[x])
  {
    TableGrows(t, events);
    WrittenAreThere(Eventually(t, events), x);
    FilterMultiplicity(listing, Selection(q), x);
    assert x in Read(q, listing) <==> x in multiset(Read(q, listing));
  }

  // ----- through the resampler -----

  /** Whatever order a venue's rows are resampled in, no row of a read as of `a` is stamped later. */
  lemma ResampledReadVisible(q: Query, a: int, listing: seq<Bar>, group: seq<Bar>, timeframe: int)
    requires q.asof == Some(a) && Timeframe(timeframe) && multiset(group) <= multiset(Read(q, listing))
    ensures forall row :: row in Resampled(group, timeframe) ==> VisibleAt(row.ingested, a)
  {
    forall b | b in group ensures VisibleAt(b.ingested, a) {
      assert b in multiset(group) && b in multiset(Read(q, listing));
      FilterMembers(listing, Selection(q));
      assert b in Read(q, listing);
    }
    StampsStayVisible(group, timeframe, a);
  }

  /** A frame ordered by time in which rows of one second are copies of each other. */
  ghost predicate Frame(f: seq<Bar>) {
    forall i, j :: 0 <= i < j < |f| ==> f[i].ts <= f[j].ts && (f[i].ts == f[j].ts ==> f[i] == f[j])
  }

  /** There is only one such order of given rows. */
  lemma {:induction false} FrameUnique(f: seq<Bar>, g: seq<Bar>)
    requires Frame(f) && Frame(g) && multiset(f) == multiset(g)
    ensures f == g
  {
    if f == [] {
      assert |multiset(g)| == 0;
    } else {
      SameLatest(f, g);
      SplitLast(f);
      SplitLast(g);
      Cancel(multiset(Init(f)), multiset(Init(g)), multiset{Last(f)});
      FrameUnique(Init(f), Init(g));
      assert f == Init(f) + [Last(f)] && g == Init(g) + [Last(g)];
    }
  }

  lemma SameLatest(f: seq<Bar>, g: seq<Bar>)
    requires Frame(f) && Frame(g) && multiset(f) == multiset(g) && f != []
    ensures g != [] && Last(f) == Last(g)
  {
    assert Last(f) in multiset(g);
    assert Last(g) in multiset(f);
    var i :| 0 <= i < |g| && g[i] == Last(f);
    var j :| 0 <= j < |f| && f[j] == Last(g);
    LastIsLatest(g, i);
    LastIsLatest(f, j);
  }

  lemma LastIsLatest(f: seq<Bar>, i: nat)
    requires Frame(f) && i < |f|
    ensures f[i].ts <= Last(f).ts && (f[i].ts == Last(f).ts ==> f[i] == Last(f))
  {
    assert i < |f| - 1 ==> f[i].ts <= f[|f| - 1].ts;
  }

  /** End to end: what a venue's resampled frame showed as of `a` is what it will show ever after, on every
    * column that does not depend on the order of rows of one second, however the rows are listed; and on all
    * columns when rows of one second are copies of each other. */
  lemma {:induction false} PastFramesFinal(q: Query, a: int, t: Table, events: seq<Event>, u: Table, before: seq<Bar>,
                                           after: seq<Bar>, f: seq<Bar>, g: seq<Bar>, timeframe: int)
    requires q.asof == Some(a) && Sound(t) && History(t, events) && u == Eventually(t, events)
    requires forall i :: 0 <= i < |events| ==> LateWrite(events[i].step, a)
    requires Quiet(t) && Quiet(u) && NoNewCopies(q, t, u) && Lists(before, t) && Lists(after, u)
    requires multiset(f) == multiset(Read(q, before)) && multiset(g) == multiset(Read(q, after))
    requires Timeframe(timeframe)
    ensures timeframe != NS_PER_SECOND ==> FramesAgree(Resampled(f, timeframe), Resampled(g, timeframe))
    ensures Frame(f) && Frame(g) ==> Resampled(f, timeframe) == Resampled(g, timeframe)
  {
    PastReadsFinal(q, a, t, events, u, before, after);
    if timeframe != NS_PER_SECOND { ResampledPermutation(f, g, timeframe); }
    if Frame(f) && Frame(g) { FrameUnique(f, g); }
  }
}
