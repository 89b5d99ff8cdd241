/** Comprehensions, sums and extrema over sequences, and how they behave under
  * concatenation, interleaving and reordering. */
module Seqs {

  function Last<T>(s: seq<T>): T
    requires s != []
  {
    s[|s| - 1]
  }

  function Init<T>(s: seq<T>): seq<T>
    requires s != []
  {
    s[..|s| - 1]
  }

  lemma TakeNext<T>(s: seq<T>, i: nat)
    requires i < |s|
    ensures s[..i + 1] == s[..i] + [s[i]]
  {
  }

  lemma TakeAll<T>(s: seq<T>)
    ensures s[..|s|] == s
  {
  }

  lemma ConcatNext<T>(a: seq<T>, b: seq<T>, j: nat)
    requires j < |b|
    ensures a + b[..j + 1] == (a + b[..j]) + [b[j]]
  {
  }

  lemma TailOfConcat<T>(a: seq<T>, b: seq<T>)
    requires a != []
    ensures a + b != [] && (a + b)[0] == a[0] && (a + b)[1..] == a[1..] + b
  {
  }

  /** `[x for x in s if p(x)]` */
  function Filter<T>(s: seq<T>, p: T -> bool): (r: seq<T>)
    ensures |r| <= |s|
  {
    if s == [] then [] else Filter(Init(s), p) + if p(Last(s)) then [Last(s)] else []
  }

  lemma {:induction false} FilterMembers<T>(s: seq<T>, p: T -> bool)
    ensures forall x :: x in Filter(s, p) ==> x in s && p(x)
    ensures forall x :: x in s && p(x) ==> x in Filter(s, p)
  {
    if s != [] {
      assert s == Init(s) + [Last(s)];
      FilterMembers(Init(s), p);
    }
  }

  lemma {:induction false} FilterSnoc<T>(s: seq<T>, x: T, p: T -> bool)
    ensures Filter(s + [x], p) == Filter(s, p) + if p(x) then [x] else []
  {
    assert Init(s + [x]) == s;
  }

  lemma {:induction false} FilterConcat<T>(a: seq<T>, b: seq<T>, p: T -> bool)
    ensures Filter(a + b, p) == Filter(a, p) + Filter(b, p)
  {
    if b == [] {
      assert a + b == a;
    } else {
      FilterConcat(a, Init(b), p);
      assert a + b == (a + Init(b)) + [Last(b)];
      FilterSnoc(a + Init(b), Last(b), p);
    }
  }

  lemma {:induction false} FilterAll<T>(s: seq<T>, p: T -> bool)
    requires forall x :: x in s ==> p(x)
    ensures Filter(s, p) == s
  {
    if s != [] {
      assert s == Init(s) + [Last(s)];
      FilterAll(Init(s), p);
    }
  }

  lemma {:induction false} FilterAgrees<T>(s: seq<T>, p: T -> bool, q: T -> bool)
    requires forall x :: x in s ==> (p(x) <==> q(x))
    ensures Filter(s, p) == Filter(s, q)
  {
    if s != [] {
      assert s == Init(s) + [Last(s)];
      FilterAgrees(Init(s), p, q);
    }
  }

  lemma {:induction false} FilterAllIff<T>(s: seq<T>, p: T -> bool)
    ensures Filter(s, p) == s <==> forall x :: x in s ==> p(x)
  {
    FilterMembers(s, p);
    if forall x :: x in s ==> p(x) { FilterAll(s, p); }
  }

  lemma {:induction false} FilterNone<T>(s: seq<T>, p: T -> bool)
    requires forall x :: x in s ==> !p(x)
    ensures Filter(s, p) == []
  {
    if s != [] {
      assert s == Init(s) + [Last(s)];
      FilterNone(Init(s), p);
    }
  }

  lemma {:induction false} FilterFilter<T>(s: seq<T>, p: T -> bool, q: T -> bool)
    ensures Filter(Filter(s, p), q) == Filter(Filter(s, q), p)
  {
    if s != [] {
      FilterFilter(Init(s), p, q);
      var x := Last(s);
      if p(x) { FilterSnoc(Filter(Init(s), p), x, q); } else { assert Filter(s, p) == Filter(Init(s), p); }
      if q(x) { FilterSnoc(Filter(Init(s), q), x, p); } else { assert Filter(s, q) == Filter(Init(s), q); }
    }
  }

  /** `[f(x) for x in s]` */
  function MapBy<T, U>(s: seq<T>, f: T -> U): (r: seq<U>)
    ensures |r| == |s|
    ensures forall i :: 0 <= i < |s| ==> r[i] == f(s[i])
  {
    seq(|s|, i requires 0 <= i < |s| => f(s[i]))
  }

  lemma {:induction false} FilterMap<T, U>(s: seq<T>, f: T -> U, p: U -> bool, q: T -> bool)
    requires forall i :: 0 <= i < |s| ==> p(f(s[i])) == q(s[i])
    ensures Filter(MapBy(s, f), p) == MapBy(Filter(s, q), f)
  {
    if s != [] {
      FilterMap(Init(s), f, p, q);
      assert Init(MapBy(s, f)) == MapBy(Init(s), f);
    }
  }

  /** `[y for x in s for y in x]` */
  function Flatten<T>(s: seq<seq<T>>): seq<T> {
    if s == [] then [] else Flatten(Init(s)) + Last(s)
  }

  lemma {:induction false} FlattenSnoc<T>(s: seq<seq<T>>, x: seq<T>)
    ensures Flatten(s + [x]) == Flatten(s) + x
  {
    assert Init(s + [x]) == s;
  }

  /** Some length is beyond all of finitely many names. */
  lemma {:induction false} LongerThanAll(names: set<string>) returns (n: nat)
    ensures forall s :: s in names ==> |s| < n
    decreases |names|
  {
    if names == {} {
      n := 0;
    } else {
      var s :| s in names;
      n := LongerThanAll(names - {s});
      if n <= |s| { n := |s| + 1; }
      assert forall r :: r in names ==> r == s || r in names - {s};
    }
  }

  function Max(a: real, b: real): real { if a >= b then a else b }

  function Min(a: real, b: real): real { if a <= b then a else b }

  function Abs(x: real): real { if x < 0.0 then -x else x }

  /** `sum(f(x) for x in s)` */
  function SumBy<T>(s: seq<T>, f: T -> real): real {
    if s == [] then 0.0 else SumBy(Init(s), f) + f(Last(s))
  }

  lemma {:induction false} SumSnoc<T>(s: seq<T>, x: T, f: T -> real)
    ensures SumBy(s + [x], f) == SumBy(s, f) + f(x)
  {
    assert Init(s + [x]) == s;
  }

  lemma {:induction false} SumConcat<T>(a: seq<T>, b: seq<T>, f: T -> real)
    ensures SumBy(a + b, f) == SumBy(a, f) + SumBy(b, f)
  {
    if b == [] {
      assert a + b == a;
    } else {
      SumConcat(a, Init(b), f);
      assert a + b == (a + Init(b)) + [Last(b)];
      SumSnoc(a + Init(b), Last(b), f);
    }
  }

  lemma {:induction false} SumNonNegative<T>(s: seq<T>, f: T -> real)
    requires forall x :: x in s ==> f(x) >= 0.0
    ensures SumBy(s, f) >= 0.0
    ensures forall x :: x in s ==> SumBy(s, f) >= f(x)
  {
    if s != [] {
      assert s == Init(s) + [Last(s)];
      SumNonNegative(Init(s), f);
    }
  }

  lemma {:induction false} SumPositive<T>(s: seq<T>, f: T -> real)
    requires s != []
    requires forall x :: x in s ==> f(x) > 0.0
    ensures SumBy(s, f) > 0.0
  {
    SumNonNegative(s, f);
    assert Last(s) in s;
  }

  function RemoveAt<T>(s: seq<T>, i: nat): seq<T>
    requires i < |s|
  {
    s[..i] + s[i + 1..]
  }

  lemma Remove<T>(s: seq<T>, i: nat)
    requires i < |s|
    ensures multiset(s) == multiset(RemoveAt(s, i)) + multiset{s[i]}
    ensures s == (s[..i] + [s[i]]) + s[i + 1..]
  {
    assert s == (s[..i] + [s[i]]) + s[i + 1..];
  }

  lemma Cancel<T>(a: multiset<T>, b: multiset<T>, c: multiset<T>)
    requires a + c == b + c
    ensures a == b
  {
    assert a == (a + c) - c && b == (b + c) - c;
  }

  lemma SplitLast<T>(a: seq<T>)
    requires a != []
    ensures multiset(a) == multiset(Init(a)) + multiset{Last(a)}
  {
    assert a == Init(a) + [Last(a)];
  }

  /** Two rearrangements agree on the last element of one and, without it, on the rest. */
  lemma MatchLast<T>(a: seq<T>, b: seq<T>) returns (i: nat)
    requires a != [] && multiset(a) == multiset(b)
    ensures i < |b| && b[i] == Last(a) && multiset(Init(a)) == multiset(RemoveAt(b, i))
  {
    SplitLast(a);
    assert Last(a) in multiset(b);
    i :| 0 <= i < |b| && b[i] == Last(a);
    Remove(b, i);
    Cancel(multiset(Init(a)), multiset(RemoveAt(b, i)), multiset{Last(a)});
  }

  lemma {:induction false} SumRemove<T>(s: seq<T>, i: nat, f: T -> real)
    requires i < |s|
    ensures SumBy(s, f) == SumBy(RemoveAt(s, i), f) + f(s[i])
  {
    Remove(s, i);
    SumConcat(s[..i] + [s[i]], s[i + 1..], f);
    SumSnoc(s[..i], s[i], f);
    SumConcat(s[..i], s[i + 1..], f);
  }

  /** A sum depends only on the multiset summed. */
  lemma {:induction false} SumPermutation<T>(a: seq<T>, b: seq<T>, f: T -> real)
    requires multiset(a) == multiset(b)
    ensures SumBy(a, f) == SumBy(b, f)
    decreases |a|
  {
    if a == [] {
      assert |multiset(b)| == 0;
    } else {
      var i := MatchLast(a, b);
      SumRemove(b, i, f);
      SumPermutation(Init(a), RemoveAt(b, i), f);
    }
  }

  lemma {:induction false} FilterRemove<T>(s: seq<T>, i: nat, p: T -> bool)
    requires i < |s|
    ensures multiset(Filter(s, p)) == multiset(Filter(RemoveAt(s, i), p))
        + if p(s[i]) then multiset{s[i]} else multiset{}
  {
    Remove(s, i);
    FilterConcat(s[..i] + [s[i]], s[i + 1..], p);
    FilterSnoc(s[..i], s[i], p);
    FilterConcat(s[..i], s[i + 1..], p);
  }

  lemma {:induction false} FilterPermutation<T>(a: seq<T>, b: seq<T>, p: T -> bool)
    requires multiset(a) == multiset(b)
    ensures multiset(Filter(a, p)) == multiset(Filter(b, p))
    decreases |a|
  {
    if a == [] {
      assert |multiset(b)| == 0;
    } else {
      var i := MatchLast(a, b);
      FilterRemove(b, i, p);
      FilterPermutation(Init(a), RemoveAt(b, i), p);
    }
  }

  lemma MapRemove<T, U>(s: seq<T>, i: nat, f: T -> U)
    requires i < |s|
    ensures multiset(MapBy(s, f)) == multiset(MapBy(RemoveAt(s, i), f)) + multiset{f(s[i])}
  {
    assert MapBy(RemoveAt(s, i), f) == RemoveAt(MapBy(s, f), i);
    Remove(MapBy(s, f), i);
  }

  lemma {:induction false} MapPermutation<T, U>(a: seq<T>, b: seq<T>, f: T -> U)
    requires multiset(a) == multiset(b)
    ensures multiset(MapBy(a, f)) == multiset(MapBy(b, f))
    decreases |a|
  {
    if a == [] {
      assert |multiset(b)| == 0;
    } else {
      var i := MatchLast(a, b);
      MapRemove(b, i, f);
      MapPermutation(Init(a), RemoveAt(b, i), f);
      assert MapBy(a, f) == MapBy(Init(a), f) + [f(Last(a))];
    }
  }

  /** `max(f(x) for x in s)`, with the two facts that determine it. */
  function MaxBy<T>(s: seq<T>, f: T -> real): (m: real)
    requires s != []
    ensures forall i :: 0 <= i < |s| ==> f(s[i]) <= m
    ensures exists i :: 0 <= i < |s| && f(s[i]) == m
  {
    if |s| == 1 then
      assert f(s[0]) == f(s[0]);
      f(s[0])
    else
      var m := MaxBy(Init(s), f);
      assert exists i :: 0 <= i < |Init(s)| && f(s[i]) == m by {
        var i :| 0 <= i < |Init(s)| && f(Init(s)[i]) == m;
        assert Init(s)[i] == s[i];
      }
      assert forall i :: 0 <= i < |s| - 1 ==> s[i] == Init(s)[i];
      Max(m, f(Last(s)))
  }

  /** `min(f(x) for x in s)`, with the two facts that determine it. */
  function MinBy<T>(s: seq<T>, f: T -> real): (m: real)
    requires s != []
    ensures forall i :: 0 <= i < |s| ==> f(s[i]) >= m
    ensures exists i :: 0 <= i < |s| && f(s[i]) == m
  {
    if |s| == 1 then
      assert f(s[0]) == f(s[0]);
      f(s[0])
    else
      var m := MinBy(Init(s), f);
      assert exists i :: 0 <= i < |Init(s)| && f(s[i]) == m by {
        var i :| 0 <= i < |Init(s)| && f(Init(s)[i]) == m;
        assert Init(s)[i] == s[i];
      }
      assert forall i :: 0 <= i < |s| - 1 ==> s[i] == Init(s)[i];
      Min(m, f(Last(s)))
  }

  lemma {:induction false} MaxSnoc<T>(s: seq<T>, x: T, f: T -> real)
    requires s != []
    ensures MaxBy(s + [x], f) == Max(MaxBy(s, f), f(x))
  {
    assert Init(s + [x]) == s;
  }

  lemma {:induction false} MinSnoc<T>(s: seq<T>, x: T, f: T -> real)
    requires s != []
    ensures MinBy(s + [x], f) == Min(MinBy(s, f), f(x))
  {
    assert Init(s + [x]) == s;
  }

  lemma {:induction false} MaxConcat<T>(a: seq<T>, b: seq<T>, f: T -> real)
    requires a != [] && b != []
    ensures MaxBy(a + b, f) == Max(MaxBy(a, f), MaxBy(b, f))
  {
    assert a + b == (a + Init(b)) + [Last(b)];
    MaxSnoc(a + Init(b), Last(b), f);
    if |b| == 1 {
      assert a + Init(b) == a;
    } else {
      MaxConcat(a, Init(b), f);
    }
  }

  lemma {:induction false} MinConcat<T>(a: seq<T>, b: seq<T>, f: T -> real)
    requires a != [] && b != []
    ensures MinBy(a + b, f) == Min(MinBy(a, f), MinBy(b, f))
  {
    assert a + b == (a + Init(b)) + [Last(b)];
    MinSnoc(a + Init(b), Last(b), f);
    if |b| == 1 {
      assert a + Init(b) == a;
    } else {
      MinConcat(a, Init(b), f);
    }
  }

  lemma {:induction false} ExtremaPermutation<T>(a: seq<T>, b: seq<T>, f: T -> real)
    requires a != [] && multiset(a) == multiset(b)
    ensures b != [] && MaxBy(a, f) == MaxBy(b, f) && MinBy(a, f) == MinBy(b, f)
  {
    assert |multiset(a)| == |a| && |multiset(b)| == |b|;
    ExtremaWithin(a, b, f);
    ExtremaWithin(b, a, f);
  }

  lemma {:induction false} ExtremaWithin<T>(a: seq<T>, b: seq<T>, f: T -> real)
    requires a != [] && b != [] && multiset(a) <= multiset(b)
    ensures MaxBy(a, f) <= MaxBy(b, f) && MinBy(a, f) >= MinBy(b, f)
  {
    var i :| 0 <= i < |a| && f(a[i]) == MaxBy(a, f);
    var j :| 0 <= j < |a| && f(a[j]) == MinBy(a, f);
    assert a[i] in multiset(b) && a[j] in multiset(b);
    var k :| 0 <= k < |b| && b[k] == a[i];
    var l :| 0 <= l < |b| && b[l] == a[j];
  }
}
