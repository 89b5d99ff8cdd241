/** `compact_partition`: merging the part files of one directory while new parts may arrive, step by step,
  * with a crash possible between any two steps. */
module Compact {
  import opened Orders
  import opened Seqs
  import opened Gathering

  /** A directory: file names to rows. */
  type Dir<R> = map<string, seq<R>>

  /** `part-*.parquet` */
  predicate IsPart(name: string) {
    |name| >= 13 && name[..5] == "part-" && name[|name| - 8..] == ".parquet"
  }

  /** The glob: anything between the prefix and the extension. */
  lemma IsPartIff(name: string)
    ensures IsPart(name) <==> exists mid: string :: name == "part-" + mid + ".parquet"
  {
    if IsPart(name) {
      var mid := name[5..|name| - 8];
      assert name == name[..5] + mid + name[|name| - 8..];
    }
    if mid: string :| name == "part-" + mid + ".parquet" {
      assert name[..5] == "part-";
      assert name[|name| - 8..] == ".parquet";
    }
  }

  function CompactedName(stamp: string): string { "compacted-" + stamp + ".parquet" }

  function PartNames<R>(dir: Dir<R>): set<string> { set n | n in dir && IsPart(n) }

  /** `sorted(part_dir.glob("part-*.parquet"))` */
  function Glob<R>(dir: Dir<R>): seq<string> {
    StringOrder();
    SortSet(PartNames(dir), StrLe)
  }

  lemma GlobLists<R>(dir: Dir<R>)
    ensures forall n :: n in Glob(dir) <==> n in dir && IsPart(n)
    ensures forall i, j :: 0 <= i < j < |Glob(dir)| ==> Glob(dir)[i] != Glob(dir)[j]
    ensures |Glob(dir)| == |PartNames(dir)|
  {
    StringOrder();
    SortSetSorts(PartNames(dir), StrLe);
  }

  /** Rows of the named files, in order of the names; a missing file counts as empty. */
  function Contents<R>(dir: Dir<R>, names: seq<string>): seq<R> {
    if names == [] then [] else Contents(dir, Init(names)) + if Last(names) in dir then dir[Last(names)] else []
  }

  function Without<R>(dir: Dir<R>, names: seq<string>): Dir<R> { map n | n in dir && n !in names :: dir[n] }

  /** What `compact_partition` makes of a directory nobody else is writing to. */
  function Compacted<R>(dir: Dir<R>, stamp: string): Dir<R> {
    if |Glob(dir)| <= 1 then dir
    else Without(dir[CompactedName(stamp) := Contents(dir, Glob(dir))], Glob(dir))
  }

  lemma CompactedIsNoPart(stamp: string)
    ensures !IsPart(CompactedName(stamp))
  {
    assert CompactedName(stamp)[0] == 'c';
  }

  // ----- the machine -----

  /** Where a compaction run is: reading the listed files, or, with the merged file written, unlinking
    * them; the next file is number `next`. */
  datatype Job<R> =
    | Idle
    | Reading(files: seq<string>, next: nat, merged: seq<R>)
    | Clearing(files: seq<string>, next: nat)

  /** The directory and the run; and, as history, all rows ever written by the producers, the copies left
    * behind by interrupted runs, and how many those were. */
  datatype State<R> = State(dir: Dir<R>, job: Job<R>, written: multiset<R>, left: multiset<R>, crashes: nat)

  datatype Step<R> =
    | NewPart(name: string, rows: seq<R>)
    | Begin | ReadNext | WriteMerged(stamp: string) | UnlinkNext | Finish
    | Crash

  /** Names of new files are free, new parts are parts, and only listed files are read and unlinked. */
  ghost predicate Enabled<R>(s: State<R>, a: Step<R>) {
    match a
    case NewPart(name, _) => IsPart(name) && name !in s.dir
    case Begin => s.job.Idle?
    case ReadNext => s.job.Reading? && s.job.next < |s.job.files|
    case WriteMerged(stamp) => s.job.Reading? && s.job.next == |s.job.files| && CompactedName(stamp) !in s.dir
    case UnlinkNext => s.job.Clearing? && s.job.next < |s.job.files|
    case Finish => s.job.Clearing? && s.job.next == |s.job.files|
    case Crash => true
  }

  /** Rows of the listed files that a run has copied but not yet unlinked. */
  function Uncleared<R>(s: State<R>): seq<R> {
    if s.job.Clearing? && s.job.next <= |s.job.files| then Contents(s.dir, s.job.files[s.job.next..]) else []
  }

  function After<R>(s: State<R>, a: Step<R>): State<R>
    requires Enabled(s, a)
  {
    match a
    case NewPart(name, rows) => s.(dir := s.dir[name := rows], written := s.written + multiset(rows))
    case Begin => if |Glob(s.dir)| <= 1 then s else s.(job := Reading(Glob(s.dir), 0, []))
    case ReadNext =>
      var f := s.job.files[s.job.next];
      s.(job := Reading(s.job.files, s.job.next + 1, s.job.merged + if f in s.dir then s.dir[f] else []))
    case WriteMerged(stamp) => s.(dir := s.dir[CompactedName(stamp) := s.job.merged], job := Clearing(s.job.files, 0))
    case UnlinkNext => s.(dir := s.dir - {s.job.files[s.job.next]}, job := Clearing(s.job.files, s.job.next + 1))
    case Finish => s.(job := Idle)
    case Crash =>
      if Uncleared(s) == [] then s.(job := Idle)
      else s.(job := Idle, left := s.left + multiset(Uncleared(s)), crashes := s.crashes + 1)
  }

  ghost predicate Runs<R(!new)>(s: State<R>, steps: seq<Step<R>>)
    decreases |steps|
  {
    steps == [] || (Enabled(s, steps[0]) && Runs(After(s, steps[0]), steps[1..]))
  }

  ghost function End<R(!new)>(s: State<R>, steps: seq<Step<R>>): State<R>
    requires Runs(s, steps)
    decreases |steps|
  {
    if steps == [] then s else End(After(s, steps[0]), steps[1..])
  }

  function Start<R>(): State<R> { State(map[], Idle, multiset{}, multiset{}, 0) }

  // ----- invariants -----

  /** The part files of a directory. */
  function PartsOnly<R>(dir: Dir<R>): Dir<R> { map n | n in dir && IsPart(n) :: dir[n] }

  ghost predicate Listed<R>(dir: Dir<R>, files: seq<string>, next: nat) {
    && next <= |files|
    && (forall i :: next <= i < |files| ==> IsPart(files[i]) && files[i] in dir)
    && forall i, j :: 0 <= i < j < |files| ==> files[i] != files[j]
  }

  ghost predicate JobSound<R>(s: State<R>) {
    match s.job
    case Idle => true
    case Reading(files, next, merged) =>
      Listed(s.dir, files, 0) && next <= |files| && merged == Contents(s.dir, files[..next])
    case Clearing(files, next) => Listed(s.dir, files, next)
  }

  /** What is stored is what was written, the copies left by interrupted runs, and what the run under way
    * has copied and not yet unlinked; parts only hold what was written; and every interrupted run has left
    * at most one more copy. */
  ghost predicate Tally<R(!new)>(stored: multiset<R>, parts: multiset<R>, written: multiset<R>, left: multiset<R>,
                                 uncleared: multiset<R>, crashes: nat) {
    && stored == written + left + uncleared
    && parts <= written
    && (forall x :: left[x] <= crashes * written[x])
    && (crashes == 0 <==> left == multiset{})
  }

  ghost predicate Balanced<R(!new)>(s: State<R>) {
    Tally(Stored(s.dir), Stored(PartsOnly(s.dir)), s.written, s.left, multiset(Uncleared(s)), s.crashes)
  }

  ghost predicate Inv<R(!new)>(s: State<R>) { JobSound(s) && Balanced(s) }

  // ----- contents of listed files -----

  lemma {:induction false} ContentsConcat<R>(dir: Dir<R>, a: seq<string>, b: seq<string>)
    ensures Contents(dir, a + b) == Contents(dir, a) + Contents(dir, b)
  {
    if b == [] {
      assert a + b == a;
    } else {
      ContentsConcat(dir, a, Init(b));
      assert a + b == (a + Init(b)) + [Last(b)];
      assert Init((a + Init(b)) + [Last(b)]) == a + Init(b);
    }
  }

  /** Files not named do not matter. */
  lemma {:induction false} ContentsFrame<R>(dir: Dir<R>, more: Dir<R>, names: seq<string>)
    requires forall i :: 0 <= i < |names| ==>
      (names[i] in dir <==> names[i] in more) && (names[i] in dir ==> dir[names[i]] == more[names[i]])
    ensures Contents(dir, names) == Contents(more, names)
  {
    if names != [] { ContentsFrame(dir, more, Init(names)); }
  }

  ghost predicate AllIn<R>(files: Dir<R>, names: seq<string>) {
    && (forall i :: 0 <= i < |names| ==> names[i] in files)
    && forall i, j :: 0 <= i < j < |names| ==> names[i] != names[j]
  }

  lemma WithoutNext<R>(files: Dir<R>, names: seq<string>)
    requires AllIn(files, names) && names != []
    ensures var less := Without(files, Init(names));
      Last(names) in less && less[Last(names)] == files[Last(names)] && Without(files, names) == less - {Last(names)}
  {
    var less := Without(files, Init(names));
    assert names == Init(names) + [Last(names)];
    forall i | 0 <= i < |Init(names)| ensures Init(names)[i] != Last(names) { assert names[i] != names[|names| - 1]; }
    assert Without(files, names) == less - {Last(names)};
  }

  /** Distinct files' rows are among the directory's. */
  lemma {:induction false} ContentsSplitOff<R>(files: Dir<R>, names: seq<string>)
    requires AllIn(files, names)
    ensures Stored(files) == Stored(Without(files, names)) + multiset(Contents(files, names))
  {
    if names == [] {
      assert Without(files, names) == files;
    } else {
      ContentsSplitOff(files, Init(names));
      WithoutNext(files, names);
      StoredRemove(Without(files, Init(names)), Last(names));
    }
  }

  lemma {:induction false} FirstAndRest<R>(dir: Dir<R>, names: seq<string>)
    requires AllIn(dir, names) && names != []
    ensures Contents(dir, names) == dir[names[0]] + Contents(dir - {names[0]}, names[1..])
  {
    var first := [names[0]];
    assert names == first + names[1..];
    ContentsConcat(dir, first, names[1..]);
    assert Contents(dir, first) == dir[names[0]] by {
      assert Init(first) == [] && Contents(dir, Init(first)) == [];
    }
    ContentsFrame(dir, dir - {names[0]}, names[1..]);
  }

  lemma {:induction false} SuffixAllIn<R>(dir: Dir<R>, files: seq<string>, next: nat)
    requires Listed(dir, files, next)
    ensures AllIn(dir, files[next..]) && AllIn(PartsOnly(dir), files[next..])
    ensures Contents(PartsOnly(dir), files[next..]) == Contents(dir, files[next..])
  {
    var names := files[next..];
    forall i, j | 0 <= i < j < |names| ensures names[i] != names[j] {
      assert files[next + i] != files[next + j];
    }
    ContentsFrame(PartsOnly(dir), dir, names);
  }

  /** What is left to clear is in the part files. */
  lemma UnclearedInParts<R>(s: State<R>)
    requires JobSound(s)
    ensures multiset(Uncleared(s)) <= Stored(PartsOnly(s.dir))
  {
    if s.job.Clearing? {
      SuffixAllIn(s.dir, s.job.files, s.job.next);
      ContentsSplitOff(PartsOnly(s.dir), s.job.files[s.job.next..]);
    }
  }

  // ----- how the tally moves -----

  lemma Scale(c: nat, a: nat, b: nat)
    requires a <= b
    ensures c * a <= c * b
  {
  }

  lemma TallyWritten<R(!new)>(st: multiset<R>, pa: multiset<R>, w: multiset<R>, l: multiset<R>, u: multiset<R>, c: nat,
                              rows: multiset<R>)
    requires Tally(st, pa, w, l, u, c)
    ensures Tally(st + rows, pa + rows, w + rows, l, u, c)
  {
    forall x ensures l[x] <= c * (w + rows)[x] {
      assert l[x] <= c * w[x];
      Scale(c, w[x], (w + rows)[x]);
    }
  }

  lemma TallyCopied<R(!new)>(st: multiset<R>, pa: multiset<R>, w: multiset<R>, l: multiset<R>, c: nat,
                             rows: multiset<R>)
    requires Tally(st, pa, w, l, multiset{}, c)
    ensures Tally(st + rows, pa, w, l, rows, c)
  {
  }

  lemma TallyUnlinked<R(!new)>(st: multiset<R>, pa: multiset<R>, w: multiset<R>, l: multiset<R>, u: multiset<R>, c: nat,
                               rows: multiset<R>)
    requires Tally(st + rows, pa + rows, w, l, rows + u, c)
    ensures Tally(st, pa, w, l, u, c)
  {
    assert st == (st + rows) - rows;
    assert w + l + u == (w + l + (rows + u)) - rows;
  }

  lemma OneMoreCopy(left: nat, copies: nat, crashes: nat, written: nat)
    requires left <= crashes * written && copies <= written
    ensures left + copies <= (crashes + 1) * written
  {
  }

  lemma TallyLeft<R(!new)>(st: multiset<R>, pa: multiset<R>, w: multiset<R>, l: multiset<R>, u: multiset<R>, c: nat)
    requires Tally(st, pa, w, l, u, c) && u <= pa && u != multiset{}
    ensures Tally(st, pa, w, l + u, multiset{}, c + 1)
  {
    forall x ensures (l + u)[x] <= (c + 1) * w[x] {
      assert l[x] <= c * w[x] && u[x] <= pa[x] <= w[x];
      OneMoreCopy(l[x], u[x], c, w[x]);
    }
    assert |u| > 0 && |l + u| > 0;
  }

  // ----- each step keeps the invariant -----

  lemma NewPartListed<R>(dir: Dir<R>, name: string, rows: seq<R>, files: seq<string>, next: nat)
    requires Listed(dir, files, next) && name !in dir
    ensures Listed(dir[name := rows], files, next)
    ensures Contents(dir[name := rows], files[next..]) == Contents(dir, files[next..])
  {
    var names := files[next..];
    forall i | 0 <= i < |names| ensures names[i] in dir && names[i] != name { assert names[i] == files[next + i]; }
    ContentsFrame(dir, dir[name := rows], names);
  }

  lemma NewPartJob<R>(s: State<R>, name: string, rows: seq<R>)
    requires JobSound(s) && Enabled(s, NewPart(name, rows))
    ensures JobSound(After(s, NewPart(name, rows))) && Uncleared(After(s, NewPart(name, rows))) == Uncleared(s)
  {
    match s.job
    case Idle =>
    case Reading(files, next, merged) =>
      NewPartListed(s.dir, name, rows, files, 0);
      ContentsFrame(s.dir, s.dir[name := rows], files[..next]);
    case Clearing(files, next) =>
      NewPartListed(s.dir, name, rows, files, next);
  }

  lemma NewPartStored<R>(dir: Dir<R>, name: string, rows: seq<R>)
    requires IsPart(name) && name !in dir
    ensures Stored(dir[name := rows]) == Stored(dir) + multiset(rows)
    ensures Stored(PartsOnly(dir[name := rows])) == Stored(PartsOnly(dir)) + multiset(rows)
  {
    StoredAdd(dir, name, rows);
    StoredAdd(PartsOnly(dir), name, rows);
    PartsOnlyAdd(dir, name, rows);
  }

  lemma PartsOnlyAdd<R>(dir: Dir<R>, name: string, rows: seq<R>)
    requires IsPart(name)
    ensures PartsOnly(dir[name := rows]) == PartsOnly(dir)[name := rows]
  {
    var more := dir[name := rows];
    forall n ensures n in PartsOnly(more) <==> n in PartsOnly(dir)[name := rows] {}
  }

  lemma NewPartKeeps<R(!new)>(s: State<R>, name: string, rows: seq<R>)
    requires Inv(s) && Enabled(s, NewPart(name, rows))
    ensures Inv(After(s, NewPart(name, rows)))
  {
    NewPartJob(s, name, rows);
    NewPartStored(s.dir, name, rows);
    TallyWritten(Stored(s.dir), Stored(PartsOnly(s.dir)), s.written, s.left, multiset(Uncleared(s)), s.crashes,
                 multiset(rows));
  }

  lemma BeginJob<R>(s: State<R>)
    requires s.job.Idle?
    ensures JobSound(After(s, Begin)) && Uncleared(After(s, Begin)) == Uncleared(s)
  {
    var files := Glob(s.dir);
    GlobLists(s.dir);
    assert Listed(s.dir, files, 0);
    assert Contents(s.dir, files[..0]) == [];
  }

  lemma ReadJob<R>(s: State<R>)
    requires JobSound(s) && Enabled(s, ReadNext)
    ensures JobSound(After(s, ReadNext)) && Uncleared(After(s, ReadNext)) == Uncleared(s)
  {
    assert Init(s.job.files[..s.job.next + 1]) == s.job.files[..s.job.next];
  }

  lemma FinishJob<R>(s: State<R>)
    requires JobSound(s) && Enabled(s, Finish)
    ensures JobSound(After(s, Finish)) && Uncleared(After(s, Finish)) == Uncleared(s)
  {
    assert s.job.files[s.job.next..] == [];
  }

  /** Steps that touch no file and leave what is to be cleared change nothing in the tally. */
  lemma SameTally<R(!new)>(s: State<R>, e: State<R>)
    requires Balanced(s) && e == s.(job := e.job) && Uncleared(e) == Uncleared(s)
    ensures Balanced(e)
  {
  }

  /** A merged file is no part: it changes neither the parts nor the contents of listed parts. */
  lemma MergedIsNoPart<R>(dir: Dir<R>, stamp: string, rows: seq<R>, files: seq<string>)
    requires Listed(dir, files, 0) && CompactedName(stamp) !in dir
    ensures var more := dir[CompactedName(stamp) := rows];
      Listed(more, files, 0) && Contents(more, files) == Contents(dir, files) && PartsOnly(more) == PartsOnly(dir)
  {
    CompactedIsNoPart(stamp);
    ContentsFrame(dir, dir[CompactedName(stamp) := rows], files);
  }

  /** The new file is a copy of what is now to be cleared. */
  lemma MergedIsUncleared<R>(s: State<R>, stamp: string)
    requires JobSound(s) && Enabled(s, WriteMerged(stamp))
    ensures JobSound(After(s, WriteMerged(stamp))) && Uncleared(After(s, WriteMerged(stamp))) == s.job.merged
    ensures PartsOnly(After(s, WriteMerged(stamp)).dir) == PartsOnly(s.dir)
  {
    var files := s.job.files;
    MergedIsNoPart(s.dir, stamp, s.job.merged, files);
    assert files[..|files|] == files && files[0..] == files;
  }

  lemma WriteKeeps<R(!new)>(s: State<R>, stamp: string)
    requires Inv(s) && Enabled(s, WriteMerged(stamp))
    ensures Inv(After(s, WriteMerged(stamp)))
  {
    MergedIsUncleared(s, stamp);
    StoredAdd(s.dir, CompactedName(stamp), s.job.merged);
    assert multiset(Uncleared(s)) == multiset{};
    TallyCopied(Stored(s.dir), Stored(PartsOnly(s.dir)), s.written, s.left, s.crashes, multiset(s.job.merged));
  }

  lemma UnlinkedJob<R>(s: State<R>)
    requires JobSound(s) && Enabled(s, UnlinkNext)
    ensures JobSound(After(s, UnlinkNext))
  {
  }

  /** Unlinking a file takes its rows from what is stored and from what is to be cleared. */
  lemma UnlinkedRows<R>(s: State<R>)
    requires JobSound(s) && Enabled(s, UnlinkNext)
    ensures var f := s.job.files[s.job.next];
      && f in s.dir && Uncleared(s) == s.dir[f] + Uncleared(After(s, UnlinkNext))
      && f in PartsOnly(s.dir) && PartsOnly(After(s, UnlinkNext).dir) == PartsOnly(s.dir) - {f}
  {
    var files, next := s.job.files, s.job.next;
    var names := files[next..];
    SuffixAllIn(s.dir, files, next);
    FirstAndRest(s.dir, names);
    assert names[1..] == files[next + 1..] && names[0] == files[next];
  }

  lemma UnlinkKeeps<R(!new)>(s: State<R>)
    requires Inv(s) && Enabled(s, UnlinkNext)
    ensures Inv(After(s, UnlinkNext))
  {
    var e, f := After(s, UnlinkNext), s.job.files[s.job.next];
    UnlinkedJob(s);
    UnlinkedRows(s);
    StoredRemove(s.dir, f);
    StoredRemove(PartsOnly(s.dir), f);
    assert multiset(Uncleared(s)) == multiset(s.dir[f]) + multiset(Uncleared(e));
    TallyUnlinked(Stored(e.dir), Stored(PartsOnly(e.dir)), s.written, s.left, multiset(Uncleared(e)), s.crashes,
                  multiset(s.dir[f]));
  }

  lemma CrashResult<R>(s: State<R>)
    ensures var u, e := Uncleared(s), After(s, Crash);
      e == if u == [] then s.(job := Idle) else State(s.dir, Idle, s.written, s.left + multiset(u), s.crashes + 1)
    ensures Uncleared(After(s, Crash)) == []
  {
  }

  lemma CrashKeeps<R(!new)>(s: State<R>)
    requires Inv(s)
    ensures Inv(After(s, Crash))
  {
    CrashResult(s);
    if Uncleared(s) == [] {
      SameTally(s, After(s, Crash));
    } else {
      UnclearedInParts(s);
      assert Uncleared(s)[0] in multiset(Uncleared(s));
      TallyLeft(Stored(s.dir), Stored(PartsOnly(s.dir)), s.written, s.left, multiset(Uncleared(s)), s.crashes);
    }
  }

  lemma StepKeeps<R(!new)>(s: State<R>, a: Step<R>)
    requires Inv(s) && Enabled(s, a)
    ensures Inv(After(s, a))
  {
    match a
    case NewPart(name, rows) => NewPartKeeps(s, name, rows);
    case Begin =>
      BeginJob(s);
      SameTally(s, After(s, a));
    case ReadNext =>
      ReadJob(s);
      SameTally(s, After(s, a));
    case WriteMerged(stamp) => WriteKeeps(s, stamp);
    case UnlinkNext => UnlinkKeeps(s);
    case Finish =>
      FinishJob(s);
      SameTally(s, After(s, a));
    case Crash => CrashKeeps(s);
  }

  lemma {:induction false} RunKeeps<R(!new)>(s: State<R>, steps: seq<Step<R>>)
    requires Inv(s) && Runs(s, steps)
    ensures Inv(End(s, steps))
    decreases |steps|
  {
    if steps != [] {
      StepKeeps(s, steps[0]);
      RunKeeps(After(s, steps[0]), steps[1..]);
    }
  }

  // ----- what this means for the rows -----

  /** In every state of every run, whatever crashed, each row is there at least as often as it was written,
    * and at most once more for each interrupted run and for the run under way. */
  lemma {:induction false} RowsNeverLost<R(!new)>(steps: seq<Step<R>>, e: State<R>, x: R)
    requires Runs(Start<R>(), steps) && e == End(Start<R>(), steps)
    ensures e.written[x] <= Stored(e.dir)[x] <= (e.crashes + 2) * e.written[x]
    ensures !e.job.Clearing? ==> Stored(e.dir)[x] <= (e.crashes + 1) * e.written[x]
  {
    StartSound<R>();
    RunKeeps(Start<R>(), steps);
    RowBounds(e, x);
  }

  lemma TallyBounds(stored: nat, written: nat, left: nat, uncleared: nat, crashes: nat)
    requires stored == written + left + uncleared && left <= crashes * written && uncleared <= written
    ensures written <= stored <= (crashes + 2) * written
    ensures uncleared == 0 ==> stored <= (crashes + 1) * written
  {
    OneMoreCopy(left, uncleared, crashes, written);
    OneMoreCopy(left + uncleared, written, crashes + 1, written);
    OneMoreCopy(left, written, crashes, written);
  }

  lemma RowBounds<R(!new)>(e: State<R>, x: R)
    requires Inv(e)
    ensures e.written[x] <= Stored(e.dir)[x] <= (e.crashes + 2) * e.written[x]
    ensures !e.job.Clearing? ==> Stored(e.dir)[x] <= (e.crashes + 1) * e.written[x]
  {
    UnclearedInParts(e);
    assert e.left[x] <= e.crashes * e.written[x];
    assert multiset(Uncleared(e))[x] <= e.written[x] by { assert Stored(PartsOnly(e.dir)) <= e.written; }
    TallyBounds(Stored(e.dir)[x], e.written[x], e.left[x], multiset(Uncleared(e))[x], e.crashes);
  }

  lemma StartSound<R(!new)>()
    ensures Inv(Start<R>())
  {
    assert Stored(Start<R>().dir) == multiset{};
    assert PartsOnly(Start<R>().dir) == map[];
  }

  /** Between runs the directory holds exactly the rows written if and only if no run was interrupted
    * between writing the merged file and unlinking the last (nonempty) input. */
  lemma {:induction false} ExactIff<R(!new)>(steps: seq<Step<R>>)
    requires Runs(Start<R>(), steps) && End(Start<R>(), steps).job.Idle?
    ensures var e := End(Start<R>(), steps);
      Stored(e.dir) == e.written <==> e.crashes == 0
  {
    StartSound<R>();
    RunKeeps(Start<R>(), steps);
    var e := End(Start<R>(), steps);
    if Stored(e.dir) == e.written {
      assert e.left == (e.written + e.left) - e.written;
    }
  }

  /** Files that are not parts, merged ones among them, stay as they are. */
  ghost predicate OthersStay<R>(was: Dir<R>, now: Dir<R>) {
    forall n :: n in was && !IsPart(n) ==> n in now && now[n] == was[n]
  }

  lemma StepOthersStay<R(!new)>(s: State<R>, a: Step<R>)
    requires Inv(s) && Enabled(s, a)
    ensures OthersStay(s.dir, After(s, a).dir) && s.left <= After(s, a).left
  {
    if a.UnlinkNext? { assert IsPart(s.job.files[s.job.next]); }
  }

  lemma {:induction false} OthersStayForever<R(!new)>(s: State<R>, steps: seq<Step<R>>)
    requires Inv(s) && Runs(s, steps)
    ensures Inv(End(s, steps)) && OthersStay(s.dir, End(s, steps).dir) && s.left <= End(s, steps).left
    decreases |steps|
  {
    if steps != [] {
      StepKeeps(s, steps[0]);
      StepOthersStay(s, steps[0]);
      OthersStayForever(After(s, steps[0]), steps[1..]);
    }
  }

  /** Copies left behind are never removed: no run ever unlinks a merged file, and whatever happens the
    * directory goes on holding, on top of all rows written, the copies left so far. */
  lemma {:induction false} CopiesPersist<R(!new)>(s: State<R>, steps: seq<Step<R>>)
    requires Inv(s) && Runs(s, steps)
    ensures var e := End(s, steps);
      && e.written + s.left <= Stored(e.dir)
      && forall n :: n in s.dir && !IsPart(n) ==> n in e.dir && e.dir[n] == s.dir[n]
  {
    OthersStayForever(s, steps);
  }

  // ----- whole runs -----

  lemma {:induction false} RunsConcat<R(!new)>(s: State<R>, a: seq<Step<R>>, b: seq<Step<R>>)
    requires Runs(s, a) && Runs(End(s, a), b)
    ensures Runs(s, a + b) && End(s, a + b) == End(End(s, a), b)
    decreases |a|
  {
    if a == [] {
      assert a + b == b;
    } else {
      TailOfConcat(a, b);
      RunsConcat(After(s, a[0]), a[1..], b);
    }
  }

  lemma {:induction false} OneStep<R(!new)>(s: State<R>, a: Step<R>)
    requires Enabled(s, a)
    ensures Runs(s, [a]) && End(s, [a]) == After(s, a)
  {
    assert [a][1..] == [];
    assert Runs(After(s, a), []);
  }

  lemma {:induction false} ReadRest<R(!new)>(s: State<R>, files: seq<string>, i: nat) returns (steps: seq<Step<R>>)
    requires i <= |files| && s.job == Reading(files, i, Contents(s.dir, files[..i]))
    ensures Runs(s, steps) && End(s, steps) == s.(job := Reading(files, |files|, Contents(s.dir, files)))
    decreases |files| - i
  {
    if i == |files| {
      steps := [];
      assert files[..i] == files;
    } else {
      OneStep(s, ReadNext);
      assert Init(files[..i + 1]) == files[..i];
      var more := ReadRest(After(s, ReadNext), files, i + 1);
      RunsConcat(s, [ReadNext], more);
      steps := [ReadNext] + more;
    }
  }

  /** A run up to the point where the merged file has been written. */
  lemma ToWritten<R(!new)>(s: State<R>, stamp: string) returns (steps: seq<Step<R>>)
    requires s.job.Idle? && |Glob(s.dir)| > 1 && CompactedName(stamp) !in s.dir
    ensures Runs(s, steps)
    ensures End(s, steps)
         == s.(dir := s.dir[CompactedName(stamp) := Contents(s.dir, Glob(s.dir))], job := Clearing(Glob(s.dir), 0))
  {
    var files := Glob(s.dir);
    OneStep(s, Begin);
    assert Contents(s.dir, files[..0]) == [];
    var read := ReadRest(After(s, Begin), files, 0);
    RunsConcat(s, [Begin], read);
    var ready := s.(job := Reading(files, |files|, Contents(s.dir, files)));
    OneStep(ready, WriteMerged(stamp));
    RunsConcat(s, [Begin] + read, [WriteMerged(stamp)]);
    steps := [Begin] + read + [WriteMerged(stamp)];
  }

  lemma {:induction false} ClearRest<R(!new)>(s: State<R>, files: seq<string>, i: nat) returns (steps: seq<Step<R>>)
    requires i <= |files| && s.job == Clearing(files, i)
    ensures Runs(s, steps) && End(s, steps) == s.(dir := Without(s.dir, files[i..]), job := Idle)
    decreases |files| - i
  {
    if i == |files| {
      OneStep(s, Finish);
      steps := [Finish];
      assert Without(s.dir, files[i..]) == s.dir;
    } else {
      OneStep(s, UnlinkNext);
      var more := ClearRest(After(s, UnlinkNext), files, i + 1);
      assert files[i..] == [files[i]] + files[i + 1..];
      assert Without(s.dir - {files[i]}, files[i + 1..]) == Without(s.dir, files[i..]);
      RunsConcat(s, [UnlinkNext], more);
      steps := [UnlinkNext] + more;
    }
  }

  /** A run nobody interrupts or interleaves with is the function `Compacted`. */
  lemma WholeRun<R(!new)>(s: State<R>, stamp: string) returns (steps: seq<Step<R>>)
    requires s.job.Idle? && CompactedName(stamp) !in s.dir
    ensures Runs(s, steps) && End(s, steps) == s.(dir := Compacted(s.dir, stamp))
  {
    if |Glob(s.dir)| <= 1 {
      OneStep(s, Begin);
      steps := [Begin];
    } else {
      var files := Glob(s.dir);
      var first := ToWritten(s, stamp);
      var more := ClearRest(End(s, first), files, 0);
      assert files[0..] == files;
      RunsConcat(s, first, more);
      steps := first + more;
    }
  }

  lemma SameParts<R>(dir: Dir<R>, stamp: string, rows: seq<R>)
    ensures var more := dir[CompactedName(stamp) := rows];
      Glob(more) == Glob(dir) && Contents(more, Glob(more)) == Contents(dir, Glob(dir))
  {
    var more := dir[CompactedName(stamp) := rows];
    CompactedIsNoPart(stamp);
    assert PartNames(more) == PartNames(dir);
    GlobLists(dir);
    ContentsFrame(dir, more, Glob(dir));
  }

  lemma {:induction false} UnclearedAfterWrite<R>(dir: Dir<R>, stamp: string, w: State<R>)
    requires w.dir == dir[CompactedName(stamp) := Contents(dir, Glob(dir))] && w.job == Clearing(Glob(dir), 0)
    ensures Uncleared(w) == Contents(dir, Glob(dir))
  {
    SameParts(dir, stamp, Contents(dir, Glob(dir)));
    assert Glob(dir)[0..] == Glob(dir);
  }

  /** Crashing there leaves a copy of every part's rows. */
  lemma CrashAfterWrite<R(!new)>(s: State<R>, stamp: string, w: State<R>)
    requires s.job.Idle? && CompactedName(stamp) !in s.dir && Contents(s.dir, Glob(s.dir)) != []
    requires w == s.(dir := s.dir[CompactedName(stamp) := Contents(s.dir, Glob(s.dir))],
                     job := Clearing(Glob(s.dir), 0))
    ensures var copy := Contents(s.dir, Glob(s.dir));
      After(w, Crash) == State(w.dir, Idle, s.written, s.left + multiset(copy), s.crashes + 1)
  {
    UnclearedAfterWrite(s.dir, stamp, w);
    CrashResult(w);
  }

  lemma InterruptedRun<R(!new)>(s: State<R>, stamp: string) returns (steps: seq<Step<R>>)
    requires s.job.Idle? && |Glob(s.dir)| > 1 && CompactedName(stamp) !in s.dir && Contents(s.dir, Glob(s.dir)) != []
    ensures Runs(s, steps)
    ensures var copy := Contents(s.dir, Glob(s.dir));
      End(s, steps)
      == State(s.dir[CompactedName(stamp) := copy], Idle, s.written, s.left + multiset(copy), s.crashes + 1)
  {
    var first := ToWritten(s, stamp);
    var w := End(s, first);
    CrashAfterWrite(s, stamp, w);
    OneStep(w, Crash);
    RunsConcat(s, first, [Crash]);
    steps := first + [Crash];
  }

  function Digits(n: nat): string { seq(n, i => '1') }

  ghost predicate ShortNames<R>(dir: Dir<R>, n: nat) {
    forall name :: name in dir ==> |name| < |CompactedName(Digits(n))|
  }

  /** What an interrupted run leaves for the next one. */
  lemma AfterInterruption<R(!new)>(s: State<R>, n: nat, e: State<R>)
    requires ShortNames(s.dir, n) && e.dir == s.dir[CompactedName(Digits(n)) := Contents(s.dir, Glob(s.dir))]
    ensures Glob(e.dir) == Glob(s.dir) && Contents(e.dir, Glob(e.dir)) == Contents(s.dir, Glob(s.dir))
    ensures ShortNames(e.dir, n + 1)
    ensures Stored(e.dir) == Stored(s.dir) + multiset(Contents(s.dir, Glob(s.dir)))
  {
    var copy := Contents(s.dir, Glob(s.dir));
    assert CompactedName(Digits(n)) !in s.dir;
    SameParts(s.dir, Digits(n), copy);
    StoredAdd(s.dir, CompactedName(Digits(n)), copy);
    assert |CompactedName(Digits(n))| < |CompactedName(Digits(n + 1))|;
  }

  /** `k` copies of `m`. */
  function Copies<R>(m: multiset<R>, k: nat): multiset<R> { if k == 0 then multiset{} else m + Copies(m, k - 1) }

  lemma {:induction false} CopiesCount<R>(m: multiset<R>, k: nat, x: R)
    ensures Copies(m, k)[x] == k * m[x]
  {
    if k == 0 {
      assert 0 * m[x] == 0;
    } else {
      CopiesCount(m, k - 1, x);
      assert k * m[x] == m[x] + (k - 1) * m[x];
    }
  }

  lemma AddCopies<R>(a: multiset<R>, b: multiset<R>, c: multiset<R>, m: multiset<R>, k: nat)
    requires k > 0 && b == a + m && c == b + Copies(m, k - 1)
    ensures c == a + Copies(m, k)
  {
  }

  /** `e` is `s` after `k` interrupted runs, each of which copied the rows `m`. */
  ghost predicate Copied<R(!new)>(s: State<R>, e: State<R>, m: multiset<R>, k: nat) {
    e.crashes == s.crashes + k && e.written == s.written && Stored(e.dir) == Stored(s.dir) + Copies(m, k)
  }

  /** An idle directory with at least two parts, holding the rows `m`, and room for a new name. */
  ghost predicate Ready<R>(s: State<R>, n: nat, m: multiset<R>) {
    && s.job.Idle? && |Glob(s.dir)| > 1 && ShortNames(s.dir, n)
    && Contents(s.dir, Glob(s.dir)) != [] && m == multiset(Contents(s.dir, Glob(s.dir)))
  }

  /** Some run leads from `s` to `e`. */
  ghost predicate Reaches<R(!new)>(s: State<R>, e: State<R>) {
    exists steps :: Runs(s, steps) && End(s, steps) == e
  }

  lemma ReachesTransitive<R(!new)>(s: State<R>, mid: State<R>, e: State<R>)
    requires Reaches(s, mid) && Reaches(mid, e)
    ensures Reaches(s, e)
  {
    var a :| Runs(s, a) && End(s, a) == mid;
    var b :| Runs(mid, b) && End(mid, b) == e;
    RunsConcat(s, a, b);
  }

  /** A run from `s` to `e` that was interrupted once and added the rows `m`. */
  ghost predicate Adds<R(!new)>(s: State<R>, e: State<R>, m: multiset<R>) {
    Reaches(s, e) && e.crashes == s.crashes + 1 && e.written == s.written && Stored(e.dir) == Stored(s.dir) + m
  }

  /** One interrupted run adds one copy and leaves the directory ready for the next. */
  lemma OneInterruption<R(!new)>(s: State<R>, n: nat, m: multiset<R>) returns (e: State<R>, next: nat)
    requires Ready(s, n, m)
    ensures Adds(s, e, m) && Ready(e, next, m)
  {
    assert CompactedName(Digits(n)) !in s.dir;
    var steps := InterruptedRun(s, Digits(n));
    e, next := End(s, steps), n + 1;
    AfterInterruption(s, n, e);
  }

  /** A run from `s` to `e` was interrupted `k` times, each time leaving a copy of the rows `m`. */
  ghost predicate Piled<R(!new)>(s: State<R>, e: State<R>, m: multiset<R>, k: nat) {
    Reaches(s, e) && Copied(s, e, m, k)
  }

  lemma NoPile<R(!new)>(s: State<R>, m: multiset<R>)
    ensures Piled(s, s, m, 0)
  {
    assert Runs(s, []) && End(s, []) == s;
  }

  lemma PileOneMore<R(!new)>(s: State<R>, mid: State<R>, e: State<R>, m: multiset<R>, j: nat, k: nat)
    requires k == j + 1 && Adds(s, mid, m) && Piled(mid, e, m, j)
    ensures Piled(s, e, m, k)
  {
    ReachesTransitive(s, mid, e);
    AddCopies(Stored(s.dir), Stored(mid.dir), Stored(e.dir), m, k);
  }

  lemma {:induction false} PileUp<R(!new)>(s: State<R>, k: nat, n: nat, m: multiset<R>) returns (e: State<R>)
    requires Ready(s, n, m)
    ensures Piled(s, e, m, k)
    decreases k
  {
    if k == 0 {
      e := s;
      NoPile(s, m);
    } else {
      var j := k - 1;
      var mid, next := OneInterruption(s, n, m);
      e := PileUp(mid, j, next, m);
      PileOneMore(s, mid, e, m, j, k);
    }
  }

  lemma NamesAreShort<R>(dir: Dir<R>) returns (n: nat)
    ensures ShortNames(dir, n)
  {
    n := LongerThanAll(dir.Keys);
  }

  /** The bound on copies is reached: from any idle directory with at least two parts that hold rows,
    * `k` interrupted runs can add `k` copies of every row in the parts. */
  lemma EveryInterruptionCopies<R(!new)>(s: State<R>, k: nat) returns (e: State<R>)
    requires s.job.Idle? && |Glob(s.dir)| > 1 && Contents(s.dir, Glob(s.dir)) != []
    ensures Reaches(s, e) && e.crashes == s.crashes + k && e.written == s.written
    ensures forall x :: Stored(e.dir)[x] == Stored(s.dir)[x] + k * multiset(Contents(s.dir, Glob(s.dir)))[x]
  {
    var m := multiset(Contents(s.dir, Glob(s.dir)));
    var n := NamesAreShort(s.dir);
    e := PileUp(s, k, n, m);
    forall x ensures Stored(e.dir)[x] == Stored(s.dir)[x] + k * m[x] { CopiesCount(m, k, x); }
  }

  // ----- the directory as an object -----

  /** The merged file holds what the parts held. */
  lemma CompactedConserves<R>(dir: Dir<R>, stamp: string)
    requires CompactedName(stamp) !in dir
    ensures Stored(Compacted(dir, stamp)) == Stored(dir)
  {
    if |Glob(dir)| > 1 {
      var files, rows := Glob(dir), Contents(dir, Glob(dir));
      GlobLists(dir);
      SameParts(dir, stamp, rows);
      StoredAdd(dir, CompactedName(stamp), rows);
      ContentsSplitOff(dir[CompactedName(stamp) := rows], files);
      Cancel(Stored(dir), Stored(Compacted(dir, stamp)), multiset(rows));
    }
  }

  /** Compacting again at once does nothing. */
  lemma SecondRunIdle<R>(dir: Dir<R>, a: string, b: string)
    ensures |Glob(Compacted(dir, a))| <= 1 && Compacted(Compacted(dir, a), b) == Compacted(dir, a)
  {
    if |Glob(dir)| > 1 {
      CompactedIsNoPart(a);
      GlobLists(dir);
      GlobLists(Compacted(dir, a));
      assert PartNames(Compacted(dir, a)) == {};
    }
  }

  lemma {:induction false} ContentsNext<R>(dir: Dir<R>, names: seq<string>, i: nat)
    requires i < |names| && names[i] in dir
    ensures Contents(dir, names[..i + 1]) == Contents(dir, names[..i]) + dir[names[i]]
  {
    assert Init(names[..i + 1]) == names[..i];
  }

  lemma WithoutOne<R>(dir: Dir<R>, names: seq<string>, i: nat)
    requires i < |names|
    ensures Without(dir, names[..i + 1]) == Without(dir, names[..i]) - {names[i]}
  {
    TakeNext(names, i);
  }

  lemma WithoutNone<R>(dir: Dir<R>, names: seq<string>)
    ensures Without(dir, names[..0]) == dir
  {
  }

  class PartitionDir<R(==)> {
    var files: map<string, seq<R>>

    constructor ()
      ensures files == map[]
    {
      files := map[];
    }

    method CompactPartition(stamp: string) returns (merged: nat)
      requires CompactedName(stamp) !in files
      modifies this
      ensures files == Compacted(old(files), stamp)
      ensures merged == if |Glob(old(files))| <= 1 then 0 else |Glob(old(files))|
      ensures Stored(files) == Stored(old(files)) && |Glob(files)| <= 1
    {
      CompactedConserves(files, stamp);
      SecondRunIdle(files, stamp, stamp);
      var names := Glob(files);
      if |names| <= 1 {
        return 0;
      }
      var rows := ReadAll(names);
      files := files[CompactedName(stamp) := rows];
      UnlinkAll(names);
      merged := |names|;
    }

    method ReadAll(names: seq<string>) returns (rows: seq<R>)
      requires names == Glob(files)
      ensures rows == Contents(files, names)
    {
      GlobLists(files);
      rows := [];
      for i := 0 to |names|
        invariant rows == Contents(files, names[..i])
      {
        assert names[i] in names;
        ContentsNext(files, names, i);
        rows := rows + files[names[i]];
      }
      TakeAll(names);
    }

    method UnlinkAll(names: seq<string>)
      modifies this
      ensures files == Without(old(files), names)
    {
      WithoutNone(files, names);
      for i := 0 to |names|
        invariant files == Without(old(files), names[..i])
      {
        WithoutOne(old(files), names, i);
        files := files - {names[i]};
      }
      TakeAll(names);
    }
  }

  function RowsIn<R>(dir: Dir<R>): string -> seq<R> { name => if name in dir then dir[name] else [] }

  lemma {:induction false} ContentsFlatten<R>(dir: Dir<R>, names: seq<string>)
    ensures Contents(dir, names) == Flatten(MapBy(names, RowsIn(dir)))
  {
    if names != [] {
      ContentsFlatten(dir, Init(names));
      assert Init(MapBy(names, RowsIn(dir))) == MapBy(Init(names), RowsIn(dir));
    }
  }

  /** The merged file: the parts' rows, part after part in lexicographic order of their names. */
  lemma MergedFileIs<R>(dir: Dir<R>, stamp: string, names: seq<string>)
    requires |names| > 1 && (forall n :: n in names <==> n in dir && IsPart(n))
    requires forall i, j :: 0 <= i < j < |names| ==> names[i] != names[j] && Lexicographic(names[i], names[j])
    ensures CompactedName(stamp) in Compacted(dir, stamp)
    ensures Compacted(dir, stamp)[CompactedName(stamp)] == Flatten(MapBy(names, RowsIn(dir)))
    ensures forall n :: n in Compacted(dir, stamp) <==> n == CompactedName(stamp) || (n in dir && !IsPart(n))
  {
    StringOrder();
    forall i, j | 0 <= i < j < |names| ensures names[i] != names[j] && StrLe(names[i], names[j]) {
      StrLeIsLexicographic(names[i], names[j]);
    }
    SortSetUnique(PartNames(dir), names, StrLe);
    ContentsFlatten(dir, names);
    CompactedIsNoPart(stamp);
  }
}
