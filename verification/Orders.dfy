/** Total orders and the order-determined sort of a finite set, as Python's `sorted` gives it. */
module Orders {

  datatype Option<+T> = None | Some(value: T)

  /** One instance of transitivity. Naming it keeps the solver from chaining on its own. */
  ghost predicate Chains<T>(le: (T, T) -> bool, x: T, y: T, z: T) {
    le(x, y) && le(y, z) ==> le(x, z)
  }

  /** One instance of totality and antisymmetry. */
  ghost predicate Compares<T>(le: (T, T) -> bool, x: T, y: T) {
    (le(x, y) || le(y, x)) && (le(x, y) && le(y, x) ==> x == y)
  }

  ghost predicate TotalOrder<T(!new)>(le: (T, T) -> bool) {
    (forall x, y :: Compares(le, x, y)) && (forall x, y, z :: Chains(le, x, y, z))
  }

  predicate IntLe(a: int, b: int) { a <= b }

  predicate RealLe(a: real, b: real) { a <= b }

  /** Python compares strings lexicographically by code point. */
  predicate StrLe(a: string, b: string) {
    a == [] || (b != [] && (a[0] < b[0] || (a[0] == b[0] && StrLe(a[1..], b[1..]))))
  }

  lemma {:induction false} StrLeTotal(a: string, b: string)
    ensures StrLe(a, b) || StrLe(b, a)
    ensures StrLe(a, b) && StrLe(b, a) ==> a == b
  {
    if a != [] && b != [] && a[0] == b[0] {
      StrLeTotal(a[1..], b[1..]);
      assert a == [a[0]] + a[1..] && b == [b[0]] + b[1..];
    }
  }

  lemma {:induction false} StrLeTransitive(a: string, b: string, c: string)
    requires StrLe(a, b) && StrLe(b, c)
    ensures StrLe(a, c)
  {
    if a != [] && a[0] == b[0] == c[0] {
      StrLeTransitive(a[1..], b[1..], c[1..]);
    }
  }

  lemma StringOrder()
    ensures TotalOrder(StrLe)
  {
    forall a, b ensures Compares(StrLe, a, b) { StrLeTotal(a, b); }
    forall a, b, c ensures Chains(StrLe, a, b, c) { if StrLe(a, b) && StrLe(b, c) { StrLeTransitive(a, b, c); } }
  }

  /** `a` is a prefix of `b`, or has the smaller character where they first differ. */
  ghost predicate Lexicographic(a: string, b: string) {
    a <= b || exists k :: 0 <= k < |a| && k < |b| && a[..k] == b[..k] && a[k] < b[k]
  }

  lemma {:induction false} StrLeIsLexicographic(a: string, b: string)
    ensures StrLe(a, b) <==> Lexicographic(a, b)
  {
    if a != [] && b != [] && a[0] == b[0] {
      StrLeIsLexicographic(a[1..], b[1..]);
      SameHead(a, b);
    } else if a != [] && b != [] {
      assert a[..0] == b[..0];
    }
  }

  lemma {:induction false} SameHead(a: string, b: string)
    requires a != [] && b != [] && a[0] == b[0]
    ensures Lexicographic(a, b) <==> Lexicographic(a[1..], b[1..])
  {
    assert a == [a[0]] + a[1..] && b == [b[0]] + b[1..];
    if k :| 0 <= k < |a| && k < |b| && a[..k] == b[..k] && a[k] < b[k] {
      assert a[1..][..k - 1] == a[..k][1..] && b[1..][..k - 1] == b[..k][1..];
      assert a[1..][k - 1] < b[1..][k - 1];
    }
    if k :| 0 <= k < |a[1..]| && k < |b[1..]| && a[1..][..k] == b[1..][..k] && a[1..][k] < b[1..][k] {
      assert a[..k + 1] == [a[0]] + a[1..][..k] && b[..k + 1] == [b[0]] + b[1..][..k];
      assert a[k + 1] < b[k + 1];
    }
  }

  /** Strictly increasing: what `sorted` of a set or of dict keys always is. */
  ghost predicate StrictlySorted<T(!new)>(s: seq<T>, le: (T, T) -> bool) {
    forall i, j :: 0 <= i < j < |s| ==> s[i] != s[j] && le(s[i], s[j])
  }

  lemma {:induction false} LeastExists<T(!new)>(s: set<T>, le: (T, T) -> bool) returns (m: T)
    requires TotalOrder(le) && s != {}
    ensures m in s && forall y :: y in s ==> le(m, y)
    decreases |s|
  {
    var x :| x in s;
    var rest := s - {x};
    if rest == {} {
      m := x;
      assert s == {x} && Compares(le, x, x);
    } else {
      var r := LeastExists(rest, le);
      m := if le(x, r) then x else r;
      assert Compares(le, x, r) && Compares(le, x, x);
      forall y | y in s ensures le(m, y) {
        assert y == x || y in rest;
        assert Chains(le, x, r, y);
      }
    }
  }

  function Least<T(!new, ==)>(s: set<T>, le: (T, T) -> bool): (m: T)
    requires TotalOrder(le) && s != {}
    ensures m in s && forall y :: y in s ==> le(m, y)
  {
    assert exists m :: m in s && forall y :: y in s ==> le(m, y) by {
      var m := LeastExists(s, le);
    }
    assert forall x, y :: x in s && y in s && le(x, y) && le(y, x) ==> Compares(le, x, y);
    var m :| m in s && forall y :: y in s ==> le(m, y);
    m
  }

  /** `sorted(set)`. */
  function SortSet<T(!new, ==)>(s: set<T>, le: (T, T) -> bool): (r: seq<T>)
    requires TotalOrder(le)
    ensures |r| == |s|
    decreases |s|
  {
    if s == {} then [] else [Least(s, le)] + SortSet(s - {Least(s, le)}, le)
  }

  lemma {:induction false} SortSetSorts<T(!new)>(s: set<T>, le: (T, T) -> bool)
    requires TotalOrder(le)
    ensures StrictlySorted(SortSet(s, le), le)
    ensures forall x :: x in SortSet(s, le) <==> x in s
    decreases |s|
  {
    if s != {} {
      var m := Least(s, le);
      SortSetSorts(s - {m}, le);
      var rest := SortSet(s - {m}, le);
      assert forall x :: x in s <==> x == m || x in rest;
      assert forall i :: 0 <= i < |rest| ==> rest[i] in rest;
    }
  }

  /** There is only one strictly increasing listing of a set: the sort algorithm does not matter. */
  lemma {:induction false} SortedListingUnique<T(!new)>(a: seq<T>, b: seq<T>, le: (T, T) -> bool)
    requires TotalOrder(le)
    requires StrictlySorted(a, le) && StrictlySorted(b, le)
    requires forall x :: x in a <==> x in b
    ensures a == b
  {
    assert b != [] ==> b[0] in a;
    if a != [] {
      assert a[0] in b;
      assert Compares(le, a[0], b[0]);
      assert a[0] == b[0];
      forall x ensures x in a[1..] <==> x in b[1..] {
        if x in a[1..] { assert x in a && x != a[0]; assert x in b; }
        if x in b[1..] { assert x in b && x != b[0]; assert x in a; }
      }
      SortedListingUnique(a[1..], b[1..], le);
      assert a == [a[0]] + a[1..] && b == [b[0]] + b[1..];
    }
  }

  lemma {:induction false} SortSetUnique<T(!new)>(s: set<T>, r: seq<T>, le: (T, T) -> bool)
    requires TotalOrder(le) && StrictlySorted(r, le)
    requires forall x :: x in r <==> x in s
    ensures r == SortSet(s, le)
  {
    SortSetSorts(s, le);
    SortedListingUnique(r, SortSet(s, le), le);
  }
}
