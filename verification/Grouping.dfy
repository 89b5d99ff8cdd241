/** Two ways of cutting a sequence into groups by an integer key: bucketing (dict by key, keys
  * sorted; also a data-frame group-by) and streaming (cut wherever the key changes). */
module Grouping {
  import opened Orders
  import opened Seqs

  function KeyIs<T>(key: T -> int, k: int): T -> bool { x => key(x) == k }

  function Bucket<T>(s: seq<T>, key: T -> int, k: int): seq<T> { Filter(s, KeyIs(key, k)) }

  function Keys<T>(s: seq<T>, key: T -> int): set<int> { set i | 0 <= i < |s| :: key(s[i]) }

  function BucketOf<T>(s: seq<T>, key: T -> int): int -> seq<T> { k => Bucket(s, key, k) }

  function SortedKeys<T>(s: seq<T>, key: T -> int): seq<int> { SortSet(Keys(s, key), IntLe) }

  /** One group per distinct key, groups by increasing key, members in their original order. */
  function Buckets<T>(s: seq<T>, key: T -> int): seq<seq<T>> {
    MapBy(SortedKeys(s, key), BucketOf(s, key))
  }

  /** Key of a group; every group met below is nonempty. */
  function GroupKey<T>(key: T -> int): seq<T> -> int { g => if g == [] then 0 else key(g[0]) }

  /** Whether `x` continues the last group of `r` rather than opening a new one. */
  predicate Extends<T>(r: seq<seq<T>>, x: T, key: T -> int) {
    r != [] && GroupKey(key)(Last(r)) == key(x)
  }

  function AddToRuns<T>(r: seq<seq<T>>, x: T, key: T -> int): seq<seq<T>> {
    if Extends(r, x, key) then Init(r) + [Last(r) + [x]] else r + [[x]]
  }

  /** Maximal stretches of consecutive elements with equal keys, found in one pass. */
  function Runs<T>(s: seq<T>, key: T -> int): seq<seq<T>> {
    if s == [] then [] else AddToRuns(Runs(Init(s), key), Last(s), key)
  }

  lemma {:induction false} RunsSnoc<T>(s: seq<T>, x: T, key: T -> int)
    ensures Runs(s + [x], key) == AddToRuns(Runs(s, key), x, key)
  {
    assert Init(s + [x]) == s;
  }

  ghost predicate Uniform<T>(g: seq<T>, key: T -> int) {
    g != [] && forall i :: 0 <= i < |g| ==> key(g[i]) == key(g[0])
  }

  ghost predicate AllUniform<T>(r: seq<seq<T>>, key: T -> int) {
    forall i :: 0 <= i < |r| ==> Uniform(r[i], key)
  }

  ghost predicate NeighboursDiffer<T>(r: seq<seq<T>>, key: T -> int) {
    forall i :: 0 <= i < |r| - 1 ==> GroupKey(key)(r[i]) != GroupKey(key)(r[i + 1])
  }

  /** `r` cuts `s` into uniform groups, as few as possible. */
  ghost predicate Cuts<T>(r: seq<seq<T>>, s: seq<T>, key: T -> int) {
    Flatten(r) == s && AllUniform(r, key) && NeighboursDiffer(r, key)
  }

  lemma AddKeepsUniform<T>(r: seq<seq<T>>, x: T, key: T -> int)
    requires AllUniform(r, key)
    ensures AllUniform(AddToRuns(r, x, key), key)
  {
    var q := AddToRuns(r, x, key);
    forall i | 0 <= i < |q| ensures Uniform(q[i], key) {
      if Extends(r, x, key) && i == |q| - 1 {
        assert Uniform(Last(r), key);
      } else if i < |r| {
        assert q[i] == r[i];
      }
    }
  }

  lemma AddKeepsNeighbours<T>(r: seq<seq<T>>, x: T, key: T -> int)
    requires AllUniform(r, key) && NeighboursDiffer(r, key)
    ensures NeighboursDiffer(AddToRuns(r, x, key), key)
  {
    var q := AddToRuns(r, x, key);
    forall i | 0 <= i < |q| - 1 ensures GroupKey(key)(q[i]) != GroupKey(key)(q[i + 1]) {
      assert i < |r| && q[i] == r[i];
      if i + 1 < |r| {
        assert Uniform(r[i + 1], key);
        assert GroupKey(key)(q[i + 1]) == GroupKey(key)(r[i + 1]);
      }
    }
  }

  lemma {:induction false} AddFlattens<T>(r: seq<seq<T>>, x: T, key: T -> int)
    ensures Flatten(AddToRuns(r, x, key)) == Flatten(r) + [x]
  {
    if Extends(r, x, key) {
      FlattenSnoc(Init(r), Last(r) + [x]);
      assert Flatten(Init(r)) + (Last(r) + [x]) == (Flatten(Init(r)) + Last(r)) + [x];
    } else {
      FlattenSnoc(r, [x]);
    }
  }

  lemma AddKeepsCut<T>(r: seq<seq<T>>, s: seq<T>, x: T, key: T -> int)
    requires Cuts(r, s, key)
    ensures Cuts(AddToRuns(r, x, key), s + [x], key)
  {
    AddKeepsUniform(r, x, key);
    AddKeepsNeighbours(r, x, key);
    AddFlattens(r, x, key);
  }

  lemma {:induction false} RunsCut<T>(s: seq<T>, key: T -> int)
    ensures Cuts(Runs(s, key), s, key)
  {
    if s != [] {
      RunsCut(Init(s), key);
      AddKeepsCut(Runs(Init(s), key), Init(s), Last(s), key);
      assert s == Init(s) + [Last(s)];
    }
  }

  lemma {:induction false} FlattenEmpty<T>(r: seq<seq<T>>, key: T -> int)
    requires AllUniform(r, key) && Flatten(r) == []
    ensures r == []
  {
    assert r != [] ==> Uniform(Last(r), key);
  }

  /** Taking the last element off a cut: what is left is a cut, to which it adds back. */
  function DropLast<T>(r: seq<seq<T>>): seq<seq<T>>
    requires r != [] && Last(r) != []
  {
    if |Last(r)| == 1 then Init(r) else Init(r) + [Init(Last(r))]
  }

  lemma {:induction false} DropLastFlattens<T>(r: seq<seq<T>>)
    requires r != [] && Last(r) != []
    ensures Flatten(r) != [] && Flatten(DropLast(r)) == Init(Flatten(r)) && Last(Flatten(r)) == Last(Last(r))
  {
    if |Last(r)| > 1 { FlattenSnoc(Init(r), Init(Last(r))); }
  }

  lemma DropLastUniform<T>(r: seq<seq<T>>, key: T -> int)
    requires r != [] && AllUniform(r, key) && NeighboursDiffer(r, key)
    ensures Last(r) != [] && AllUniform(DropLast(r), key) && NeighboursDiffer(DropLast(r), key)
  {
    assert Uniform(Last(r), key);
    if |Last(r)| == 1 {
      assert forall i :: 0 <= i < |Init(r)| ==> Uniform(r[i], key);
    } else {
      ShortenLast(r, key);
    }
  }

  lemma AddDropped<T>(r: seq<seq<T>>, key: T -> int)
    requires r != [] && Uniform(Last(r), key) && NeighboursDiffer(r, key)
    ensures r == AddToRuns(DropLast(r), Last(Last(r)), key)
  {
    var g, d := Last(r), DropLast(r);
    assert r == Init(r) + [g];
    if |g| == 1 {
      assert g == [Last(g)];
      if Init(r) != [] { assert GroupKey(key)(r[|r| - 2]) != GroupKey(key)(r[|r| - 1]); }
      assert !Extends(d, Last(g), key);
    } else {
      assert key(g[|g| - 1]) == key(g[0]);
      assert Init(g) + [Last(g)] == g;
      assert Last(d) == Init(g) && Init(d) == Init(r);
    }
  }

  /** The pass finds the only such cut. */
  lemma {:induction false} CutUnique<T>(r: seq<seq<T>>, s: seq<T>, key: T -> int)
    requires Cuts(r, s, key)
    ensures r == Runs(s, key)
    decreases |s|
  {
    if s == [] {
      FlattenEmpty(r, key);
    } else {
      DropLastUniform(r, key);
      DropLastFlattens(r);
      assert Uniform(Last(r), key);
      AddDropped(r, key);
      CutUnique(DropLast(r), Init(s), key);
    }
  }

  lemma ShortenLast<T>(r: seq<seq<T>>, key: T -> int)
    requires r != [] && |Last(r)| > 1 && AllUniform(r, key) && NeighboursDiffer(r, key)
    ensures AllUniform(Init(r) + [Init(Last(r))], key) && NeighboursDiffer(Init(r) + [Init(Last(r))], key)
  {
    var q := Init(r) + [Init(Last(r))];
    assert Uniform(Last(r), key);
    forall i | 0 <= i < |q| ensures Uniform(q[i], key) && GroupKey(key)(q[i]) == GroupKey(key)(r[i]) {
      if i < |q| - 1 { assert Uniform(r[i], key); }
    }
  }

  ghost predicate NonDecreasing<T>(s: seq<T>, key: T -> int) {
    forall i, j :: 0 <= i < j < |s| ==> key(s[i]) <= key(s[j])
  }

  lemma BucketMember<T>(s: seq<T>, key: T -> int, k: int)
    ensures forall x :: x in Bucket(s, key, k) ==> x in s && key(x) == k
    ensures forall x :: x in s && key(x) == k ==> x in Bucket(s, key, k)
    ensures Bucket(s, key, k) != [] <==> k in Keys(s, key)
  {
    FilterMembers(s, KeyIs(key, k));
    if Bucket(s, key, k) != [] {
      assert Bucket(s, key, k)[0] in s;
    }
    if k in Keys(s, key) {
      var i :| 0 <= i < |s| && key(s[i]) == k;
      assert s[i] in s;
    }
  }

  lemma {:induction false} FlattenMember<T>(r: seq<seq<T>>, i: nat)
    requires i < |r|
    ensures forall x :: x in r[i] ==> x in Flatten(r)
  {
    if i < |r| - 1 { FlattenMember(Init(r), i); }
  }

  lemma {:induction false} FlattenOrigin<T>(r: seq<seq<T>>, x: T) returns (i: nat)
    requires x in Flatten(r)
    ensures i < |r| && x in r[i]
  {
    if x in Last(r) { i := |r| - 1; } else { i := FlattenOrigin(Init(r), x); }
  }

  /** Filtering a concatenation of groups keeps whole groups when the test is per group. */
  lemma {:induction false} FilterGroups<T>(r: seq<seq<T>>, key: T -> int, i: nat)
    requires i < |r| && AllUniform(r, key)
    requires forall j :: 0 <= j < |r| && j != i ==> GroupKey(key)(r[j]) != GroupKey(key)(r[i])
    ensures Bucket(Flatten(r), key, GroupKey(key)(r[i])) == r[i]
  {
    var p := KeyIs(key, GroupKey(key)(r[i]));
    FilterConcat(Flatten(Init(r)), Last(r), p);
    assert Uniform(Last(r), key) && Uniform(r[i], key);
    if i < |r| - 1 {
      FilterGroups(Init(r), key, i);
      FilterNone(Last(r), p);
    } else {
      FilterAll(Last(r), p);
      forall x | x in Flatten(Init(r)) ensures !p(x) {
        var j := FlattenOrigin(Init(r), x);
        assert Uniform(r[j], key);
      }
      FilterNone(Flatten(Init(r)), p);
    }
  }

  lemma CutGroupIsBucket<T>(r: seq<seq<T>>, s: seq<T>, key: T -> int, i: nat)
    requires Cuts(r, s, key) && StrictlySorted(MapBy(r, GroupKey(key)), IntLe) && i < |r|
    ensures var k := GroupKey(key)(r[i]); k in Keys(s, key) && r[i] == Bucket(s, key, k)
  {
    var ks := MapBy(r, GroupKey(key));
    forall j | 0 <= j < |r| && j != i ensures GroupKey(key)(r[j]) != GroupKey(key)(r[i]) {
      if j < i { assert ks[j] != ks[i]; } else { assert ks[i] != ks[j]; }
    }
    FilterGroups(r, key, i);
    assert Uniform(r[i], key);
    BucketMember(s, key, ks[i]);
  }

  /** If the group keys strictly increase, the groups are the buckets. */
  lemma IncreasingCutIsBuckets<T>(r: seq<seq<T>>, s: seq<T>, key: T -> int)
    requires Cuts(r, s, key) && StrictlySorted(MapBy(r, GroupKey(key)), IntLe)
    ensures Buckets(s, key) == r
  {
    var ks := MapBy(r, GroupKey(key));
    forall i | 0 <= i < |r| ensures ks[i] in Keys(s, key) && r[i] == Bucket(s, key, ks[i]) {
      CutGroupIsBucket(r, s, key, i);
    }
    forall k | k in Keys(s, key) ensures k in ks {
      var i :| 0 <= i < |s| && key(s[i]) == k;
      var j := FlattenOrigin(r, s[i]);
      assert Uniform(r[j], key) && ks[j] == k;
    }
    SortSetUnique(Keys(s, key), ks, IntLe);
    assert Buckets(s, key) == r;
  }

  lemma AddKeepsIncrease<T>(r: seq<seq<T>>, x: T, key: T -> int)
    requires AllUniform(r, key) && StrictlySorted(MapBy(r, GroupKey(key)), IntLe)
    requires r != [] ==> GroupKey(key)(Last(r)) <= key(x)
    ensures StrictlySorted(MapBy(AddToRuns(r, x, key), GroupKey(key)), IntLe)
  {
    var q := AddToRuns(r, x, key);
    var a, b := MapBy(r, GroupKey(key)), MapBy(q, GroupKey(key));
    if Extends(r, x, key) {
      assert Uniform(Last(r), key);
      assert b == a;
    } else {
      assert b == a + [key(x)];
      assert r != [] ==> a[|a| - 1] < key(x);
    }
  }

  lemma {:induction false} RunKeysIncrease<T>(s: seq<T>, key: T -> int)
    requires NonDecreasing(s, key)
    ensures StrictlySorted(MapBy(Runs(s, key), GroupKey(key)), IntLe)
    ensures s != [] ==> Runs(s, key) != [] && GroupKey(key)(Last(Runs(s, key))) == key(Last(s))
  {
    if s != [] {
      RunKeysIncrease(Init(s), key);
      var r := Runs(Init(s), key);
      RunsCut(Init(s), key);
      RunsCut(s, key);
      assert Uniform(Last(Runs(s, key)), key);
      if Init(s) != [] { assert key(s[|s| - 2]) <= key(s[|s| - 1]); }
      AddKeepsIncrease(r, Last(s), key);
    }
  }

  /** Bucketing and streaming agree on every stream whose keys never decrease. */
  lemma {:induction false} SortedBucketsAreRuns<T>(s: seq<T>, key: T -> int)
    requires NonDecreasing(s, key)
    ensures Buckets(s, key) == Runs(s, key)
  {
    RunsCut(s, key);
    RunKeysIncrease(s, key);
    IncreasingCutIsBuckets(Runs(s, key), s, key);
  }

  /** ... and only on those. */
  lemma {:induction false} BucketsAreRunsOnlyIfSorted<T>(s: seq<T>, key: T -> int)
    requires StrictlySorted(MapBy(Runs(s, key), GroupKey(key)), IntLe)
    ensures NonDecreasing(s, key)
  {
    RunsCut(s, key);
    CutSorted(Runs(s, key), key);
  }

  lemma {:induction false} CutSorted<T>(r: seq<seq<T>>, key: T -> int)
    requires AllUniform(r, key) && StrictlySorted(MapBy(r, GroupKey(key)), IntLe)
    ensures NonDecreasing(Flatten(r), key)
  {
    if r != [] {
      var ks := MapBy(r, GroupKey(key));
      assert MapBy(Init(r), GroupKey(key)) == Init(ks);
      CutSorted(Init(r), key);
      assert Uniform(Last(r), key);
      var f := Flatten(Init(r));
      forall i | 0 <= i < |f| ensures key(f[i]) <= Last(ks) {
        var j := FlattenOrigin(Init(r), f[i]);
        assert Uniform(r[j], key) && IntLe(ks[j], ks[|r| - 1]);
      }
    }
  }

  function Compose<T, U>(f: T -> U, key: U -> int): T -> int { x => key(f(x)) }

  function MapGroup<T, U>(f: T -> U): seq<T> -> seq<U> { g => MapBy(g, f) }

  lemma {:induction false} FlattenMap<T, U>(r: seq<seq<T>>, f: T -> U)
    ensures Flatten(MapBy(r, MapGroup(f))) == MapBy(Flatten(r), f)
  {
    if r != [] {
      FlattenMap(Init(r), f);
      assert Init(MapBy(r, MapGroup(f))) == MapBy(Init(r), MapGroup(f));
      assert MapBy(Flatten(Init(r)) + Last(r), f) == MapBy(Flatten(Init(r)), f) + MapBy(Last(r), f);
    }
  }

  /** Mapping the elements first, or the elements of each run afterwards, is the same. */
  lemma {:induction false} RunsOfMap<T, U>(s: seq<T>, f: T -> U, key: U -> int)
    ensures Runs(MapBy(s, f), key) == MapBy(Runs(s, Compose(f, key)), MapGroup(f))
  {
    var r := Runs(s, Compose(f, key));
    RunsCut(s, Compose(f, key));
    FlattenMap(r, f);
    var q := MapBy(r, MapGroup(f));
    forall i | 0 <= i < |q| ensures Uniform(q[i], key) && GroupKey(key)(q[i]) == GroupKey(Compose(f, key))(r[i]) {
      assert Uniform(r[i], Compose(f, key));
    }
    CutUnique(q, MapBy(s, f), key);
  }

  /** Runs depend on the key only through its values on the elements. */
  lemma {:induction false} RunsKeyExtensional<T>(s: seq<T>, f: T -> int, g: T -> int)
    requires forall x :: x in s ==> f(x) == g(x)
    ensures Runs(s, f) == Runs(s, g)
  {
    var r := Runs(s, f);
    RunsCut(s, f);
    forall i | 0 <= i < |r| ensures Uniform(r[i], g) && GroupKey(g)(r[i]) == GroupKey(f)(r[i]) {
      assert Uniform(r[i], f);
      FlattenMember(r, i);
      assert forall j :: 0 <= j < |r[i]| ==> r[i][j] in s;
    }
    CutUnique(r, s, g);
  }

  function FlattenGroup<T>(): seq<seq<T>> -> seq<T> { g => Flatten(g) }

  lemma {:induction false} FlattenFlatten<T>(rr: seq<seq<seq<T>>>)
    ensures Flatten(MapBy(rr, FlattenGroup())) == Flatten(Flatten(rr))
  {
    if rr != [] {
      FlattenFlatten(Init(rr));
      assert Init(MapBy(rr, FlattenGroup())) == MapBy(Init(rr), FlattenGroup());
      FlattenAppend(Flatten(Init(rr)), Last(rr));
    }
  }

  lemma {:induction false} FlattenAppend<T>(a: seq<seq<T>>, b: seq<seq<T>>)
    ensures Flatten(a + b) == Flatten(a) + Flatten(b)
  {
    if b == [] {
      assert a + b == a;
    } else {
      FlattenAppend(a, Init(b));
      assert a + b == (a + Init(b)) + [Last(b)];
      FlattenSnoc(a + Init(b), Last(b));
    }
  }

  /** A group of fine runs with one coarse key joins into one coarse group. */
  lemma {:induction false} JoinUniform<T>(g: seq<seq<T>>, coarse: T -> int)
    requires Uniform(g, GroupKey(coarse)) && AllUniform(g, coarse)
    ensures Uniform(Flatten(g), coarse) && GroupKey(coarse)(Flatten(g)) == GroupKey(coarse)(g[0])
  {
    assert Uniform(Last(g), coarse);
    if |g| == 1 {
      assert Flatten(Init(g)) + Last(g) == g[0];
    } else {
      assert Uniform(Init(g), GroupKey(coarse));
      JoinUniform(Init(g), coarse);
      UniformConcat(Flatten(Init(g)), Last(g), coarse);
    }
  }

  lemma UniformConcat<T>(a: seq<T>, b: seq<T>, key: T -> int)
    requires Uniform(a, key) && Uniform(b, key) && GroupKey(key)(a) == GroupKey(key)(b)
    ensures Uniform(a + b, key) && GroupKey(key)(a + b) == GroupKey(key)(a)
  {
  }

  ghost predicate Coarsens<T(!new)>(fine: T -> int, coarse: T -> int) {
    forall x, y :: fine(x) == fine(y) ==> coarse(x) == coarse(y)
  }

  /** Cutting by a fine key, cutting the sequence of runs by a coarser key, and joining each group
    * of runs, is cutting by the coarse key at once. */
  lemma {:induction false} RunsOfRuns<T(!new)>(s: seq<T>, fine: T -> int, coarse: T -> int)
    requires Coarsens(fine, coarse)
    ensures MapBy(Runs(Runs(s, fine), GroupKey(coarse)), FlattenGroup()) == Runs(s, coarse)
  {
    var r := Runs(s, fine);
    RunsCut(s, fine);
    var rr := Runs(r, GroupKey(coarse));
    RunsCut(r, GroupKey(coarse));
    FlattenFlatten(rr);
    var q := MapBy(rr, FlattenGroup());
    assert AllUniform(r, coarse) by {
      forall i | 0 <= i < |r| ensures Uniform(r[i], coarse) { assert Uniform(r[i], fine); }
    }
    forall i | 0 <= i < |q|
      ensures Uniform(q[i], coarse) && GroupKey(coarse)(q[i]) == GroupKey<seq<T>>(GroupKey(coarse))(rr[i])
    {
      assert Uniform(rr[i], GroupKey(coarse));
      FlattenMember(rr, i);
      forall j | 0 <= j < |rr[i]| ensures Uniform(rr[i][j], coarse) { assert rr[i][j] in r; }
      JoinUniform(rr[i], coarse);
    }
    CutUnique(q, s, coarse);
  }
}
