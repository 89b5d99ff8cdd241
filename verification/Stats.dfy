/** `statistics.median` and the facts about it that make the outlier filter robust. */
module Stats {
  import opened Seqs

  ghost predicate Ascending(s: seq<real>) {
    forall i, j :: 0 <= i < j < |s| ==> s[i] <= s[j]
  }

  function Insert(x: real, s: seq<real>): (r: seq<real>)
    ensures |r| == |s| + 1
  {
    if s == [] || x <= s[0] then [x] + s else [s[0]] + Insert(x, s[1..])
  }

  /** `sorted(data)` */
  function Sort(s: seq<real>): (r: seq<real>)
    ensures |r| == |s|
  {
    if s == [] then [] else Insert(s[0], Sort(s[1..]))
  }

  lemma {:induction false} InsertMembers(x: real, s: seq<real>)
    ensures multiset(Insert(x, s)) == multiset(s) + multiset{x}
  {
    if s != [] && x > s[0] {
      InsertMembers(x, s[1..]);
      assert s == [s[0]] + s[1..];
    }
  }

  lemma {:induction false} InsertAscends(x: real, s: seq<real>)
    requires Ascending(s)
    ensures Ascending(Insert(x, s))
    ensures forall i :: 0 <= i <= |s| ==> Insert(x, s)[i] == x || Insert(x, s)[i] >= s[0]
  {
    if s != [] && x > s[0] {
      InsertAscends(x, s[1..]);
      var r := Insert(x, s[1..]);
      forall i | 0 <= i < |r| ensures s[0] <= r[i] {
        if s[1..] != [] { assert s[0] <= s[1]; }
      }
    }
  }

  /** `sorted` returns the ascending rearrangement of its argument. */
  lemma {:induction false} SortSorts(s: seq<real>)
    ensures Ascending(Sort(s)) && multiset(Sort(s)) == multiset(s)
  {
    if s != [] {
      SortSorts(s[1..]);
      InsertAscends(s[0], Sort(s[1..]));
      InsertMembers(s[0], Sort(s[1..]));
      assert s == [s[0]] + s[1..];
    }
  }

  lemma FirstIsLeast(a: seq<real>, b: seq<real>)
    requires Ascending(a) && Ascending(b) && multiset(a) == multiset(b) && a != []
    ensures b != [] && a[0] == b[0]
  {
    assert a[0] in multiset(b);
    assert b[0] in multiset(a);
    var i :| 0 <= i < |b| && b[i] == a[0];
    var j :| 0 <= j < |a| && a[j] == b[0];
  }

  lemma Tail(a: seq<real>)
    requires a != []
    ensures a == [a[0]] + a[1..] && multiset(a[1..]) == multiset(a) - multiset{a[0]}
  {
    assert a == [a[0]] + a[1..];
  }

  /** Any two ascending rearrangements are equal, so which sort Python uses is immaterial. */
  lemma {:induction false} AscendingUnique(a: seq<real>, b: seq<real>)
    requires Ascending(a) && Ascending(b) && multiset(a) == multiset(b)
    ensures a == b
  {
    if a == [] {
      assert |multiset(b)| == 0;
    } else {
      FirstIsLeast(a, b);
      Tail(a);
      Tail(b);
      AscendingUnique(a[1..], b[1..]);
    }
  }

  lemma {:induction false} SortOfAscending(s: seq<real>)
    requires Ascending(s)
    ensures Sort(s) == s
  {
    SortSorts(s);
    AscendingUnique(Sort(s), s);
  }

  /** `statistics.median` of nonempty data: the middle element, or the mean of the middle two. */
  function Median(s: seq<real>): real
    requires s != []
  {
    Middle(Sort(s))
  }

  function Middle(r: seq<real>): real
    requires r != []
  {
    if |r| % 2 == 1 then r[|r| / 2] else (r[|r| / 2 - 1] + r[|r| / 2]) / 2.0
  }

  lemma MedianOfAscending(s: seq<real>)
    requires s != [] && Ascending(s)
    ensures Median(s) == Middle(s)
  {
    SortOfAscending(s);
  }

  /** The middle of the data in ascending order; of an even number of values, the mean of the middle two. */
  lemma MedianIsMiddle(s: seq<real>, r: seq<real>)
    requires s != [] && multiset(r) == multiset(s) && forall i, j :: 0 <= i < j < |r| ==> r[i] <= r[j]
    ensures |r| == |s|
    ensures |s| % 2 == 1 ==> Median(s) == r[(|s| - 1) / 2]
    ensures |s| % 2 == 0 ==> 2.0 * Median(s) == r[|s| / 2 - 1] + r[|s| / 2]
  {
    assert |multiset(r)| == |r| && |multiset(s)| == |s|;
    SortSorts(s);
    AscendingUnique(Sort(s), r);
  }

  lemma MedianPermutation(a: seq<real>, b: seq<real>)
    requires a != [] && multiset(a) == multiset(b)
    ensures b != [] && Median(a) == Median(b)
  {
    assert |multiset(a)| == |a| && |multiset(b)| == |b|;
    SortSorts(a);
    SortSorts(b);
    AscendingUnique(Sort(a), Sort(b));
  }

  /** How many elements lie in `[lo, hi]`. */
  function CountIn(s: seq<real>, lo: real, hi: real): nat {
    if s == [] then 0 else CountIn(Init(s), lo, hi) + if lo <= Last(s) <= hi then 1 else 0
  }

  lemma {:induction false} CountInConcat(a: seq<real>, b: seq<real>, lo: real, hi: real)
    ensures CountIn(a + b, lo, hi) == CountIn(a, lo, hi) + CountIn(b, lo, hi)
  {
    if b == [] {
      assert a + b == a;
    } else {
      CountInConcat(a, Init(b), lo, hi);
      assert Init(a + b) == a + Init(b);
    }
  }

  lemma {:induction false} CountInInsert(x: real, s: seq<real>, lo: real, hi: real)
    ensures CountIn(Insert(x, s), lo, hi) == CountIn([x], lo, hi) + CountIn(s, lo, hi)
  {
    if s == [] || x <= s[0] {
      CountInConcat([x], s, lo, hi);
    } else {
      CountInInsert(x, s[1..], lo, hi);
      CountInConcat([s[0]], Insert(x, s[1..]), lo, hi);
      CountInConcat([s[0]], s[1..], lo, hi);
      assert s == [s[0]] + s[1..];
    }
  }

  lemma {:induction false} CountInSort(s: seq<real>, lo: real, hi: real)
    ensures CountIn(Sort(s), lo, hi) == CountIn(s, lo, hi)
  {
    if s != [] {
      CountInSort(s[1..], lo, hi);
      CountInInsert(s[0], Sort(s[1..]), lo, hi);
      CountInConcat([s[0]], s[1..], lo, hi);
      assert s == [s[0]] + s[1..];
    }
  }

  lemma {:induction false} CountInAtMost(s: seq<real>, lo: real, hi: real)
    ensures CountIn(s, lo, hi) <= |s|
  {
    if s != [] { CountInAtMost(Init(s), lo, hi); }
  }

  lemma {:induction false} CountInAll(s: seq<real>, lo: real, hi: real)
    requires forall i :: 0 <= i < |s| ==> lo <= s[i] <= hi
    ensures CountIn(s, lo, hi) == |s|
  {
    if s != [] { CountInAll(Init(s), lo, hi); }
  }

  lemma {:induction false} CountInNone(s: seq<real>, lo: real, hi: real)
    requires forall i :: 0 <= i < |s| ==> s[i] < lo || s[i] > hi
    ensures CountIn(s, lo, hi) == 0
  {
    if s != [] { CountInNone(Init(s), lo, hi); }
  }

  lemma {:induction false} CountInSplit(s: seq<real>, i: nat, lo: real, hi: real)
    requires i <= |s|
    ensures CountIn(s, lo, hi) == CountIn(s[..i], lo, hi) + CountIn(s[i..], lo, hi)
  {
    assert s == s[..i] + s[i..];
    CountInConcat(s[..i], s[i..], lo, hi);
  }

  /** In sorted data, if position `i` is below `[lo, hi]`, so is everything before it. */
  lemma {:induction false} CountInAbove(r: seq<real>, lo: real, hi: real, i: nat)
    requires Ascending(r) && i < |r| && r[i] < lo
    ensures CountIn(r, lo, hi) <= |r| - i - 1
  {
    CountInSplit(r, i + 1, lo, hi);
    assert forall j :: 0 <= j < i ==> r[j] <= r[i];
    CountInNone(r[..i + 1], lo, hi);
    CountInAtMost(r[i + 1..], lo, hi);
  }

  /** ... and if it is above, so is everything after it. */
  lemma {:induction false} CountInBelow(r: seq<real>, lo: real, hi: real, i: nat)
    requires Ascending(r) && i < |r| && r[i] > hi
    ensures CountIn(r, lo, hi) <= i
  {
    CountInSplit(r, i, lo, hi);
    assert forall j :: i <= j < |r| ==> r[i] <= r[j];
    CountInNone(r[i..], lo, hi);
    CountInAtMost(r[..i], lo, hi);
  }

  lemma {:induction false} MajorityHoldsPosition(r: seq<real>, lo: real, hi: real, i: nat)
    requires Ascending(r) && i < |r| && 2 * CountIn(r, lo, hi) > |r|
    requires |r| - 1 <= 2 * i + 1 && 2 * i <= |r|
    ensures lo <= r[i] <= hi
  {
    if r[i] < lo { CountInAbove(r, lo, hi, i); }
    if r[i] > hi { CountInBelow(r, lo, hi, i); }
  }

  /** The median's breakdown point: a strict majority in `[lo, hi]` holds it there, whatever the
    * minority is. */
  lemma {:induction false} MajorityHoldsMedian(s: seq<real>, lo: real, hi: real)
    requires 2 * CountIn(s, lo, hi) > |s|
    ensures s != [] && lo <= Median(s) <= hi
  {
    SortSorts(s);
    CountInSort(s, lo, hi);
    CountInAtMost(s, lo, hi);
    MajorityHoldsMiddle(Sort(s), lo, hi);
  }

  lemma {:induction false} MajorityHoldsMiddle(r: seq<real>, lo: real, hi: real)
    requires Ascending(r) && r != [] && 2 * CountIn(r, lo, hi) > |r|
    ensures lo <= Middle(r) <= hi
  {
    MajorityHoldsPosition(r, lo, hi, |r| / 2);
    if |r| % 2 == 0 { MajorityHoldsPosition(r, lo, hi, |r| / 2 - 1); }
  }

  /** At least half of the data (rounded up) is at or below the median. */
  lemma {:induction false} HalfBelowMedian(s: seq<real>, lo: real)
    requires s != [] && forall x :: x in s ==> lo <= x
    ensures CountIn(s, lo, Median(s)) >= (|s| + 1) / 2
  {
    var r := Sort(s);
    SortSorts(s);
    CountInSort(s, lo, Median(s));
    forall i | 0 <= i < |r| ensures lo <= r[i] { SortedMember(s, i); }
    HalfBelowMiddle(r, lo);
  }

  lemma {:induction false} SortedMember(s: seq<real>, i: nat)
    requires i < |s|
    ensures Sort(s)[i] in s
  {
    SortSorts(s);
    assert Sort(s)[i] in multiset(Sort(s));
  }

  lemma MiddleAbove(r: seq<real>, i: nat)
    requires Ascending(r) && i < (|r| + 1) / 2
    ensures r[i] <= Middle(r)
  {
    var h := (|r| + 1) / 2;
    assert i < h - 1 ==> r[i] <= r[h - 1];
    if |r| % 2 == 0 { assert r[h - 1] <= r[h]; }
  }

  lemma {:induction false} HalfBelowMiddle(r: seq<real>, lo: real)
    requires Ascending(r) && r != [] && forall i :: 0 <= i < |r| ==> lo <= r[i]
    ensures CountIn(r, lo, Middle(r)) >= (|r| + 1) / 2
  {
    var h := (|r| + 1) / 2;
    CountInSplit(r, h, lo, Middle(r));
    forall i | 0 <= i < h ensures lo <= r[..h][i] <= Middle(r) { MiddleAbove(r, i); }
    CountInAll(r[..h], lo, Middle(r));
  }
}
