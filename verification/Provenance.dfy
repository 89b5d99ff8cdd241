/** Python's unbounded `|` and `&` on non-negative integers. */
module Bits {

  /** Whether bit `k` of `m` is set. */
  predicate Bit(m: nat, k: nat) {
    if k == 0 then m % 2 == 1 else Bit(m / 2, k - 1)
  }

  function Or(a: nat, b: nat): nat
    decreases a + b
  {
    if a == 0 && b == 0 then 0
    else 2 * Or(a / 2, b / 2) + if a % 2 == 1 || b % 2 == 1 then 1 else 0
  }

  function And(a: nat, b: nat): nat
    decreases a + b
  {
    if a == 0 && b == 0 then 0
    else 2 * And(a / 2, b / 2) + if a % 2 == 1 && b % 2 == 1 then 1 else 0
  }

  /** `1 << i` */
  function Shift(i: nat): nat {
    if i == 0 then 1 else 2 * Shift(i - 1)
  }

  lemma {:induction false} ZeroBit(k: nat)
    ensures !Bit(0, k)
  {
    if k > 0 { ZeroBit(k - 1); }
  }

  lemma {:induction false} OrStep(a: nat, b: nat)
    ensures Or(a, b) / 2 == Or(a / 2, b / 2)
    ensures Or(a, b) % 2 == 1 <==> a % 2 == 1 || b % 2 == 1
  {
  }

  lemma {:induction false} AndStep(a: nat, b: nat)
    ensures And(a, b) / 2 == And(a / 2, b / 2)
    ensures And(a, b) % 2 == 1 <==> a % 2 == 1 && b % 2 == 1
  {
  }

  lemma {:induction false} OrBit(a: nat, b: nat, k: nat)
    ensures Bit(Or(a, b), k) <==> Bit(a, k) || Bit(b, k)
    decreases k
  {
    OrStep(a, b);
    if k > 0 { OrBit(a / 2, b / 2, k - 1); }
  }

  lemma {:induction false} AndBit(a: nat, b: nat, k: nat)
    ensures Bit(And(a, b), k) <==> Bit(a, k) && Bit(b, k)
    decreases k
  {
    AndStep(a, b);
    if k > 0 { AndBit(a / 2, b / 2, k - 1); }
  }

  lemma {:induction false} ShiftBit(i: nat, k: nat)
    ensures Bit(Shift(i), k) <==> i == k
  {
    if i == 0 {
      if k > 0 { ZeroBit(k - 1); }
    } else if k > 0 {
      ShiftBit(i - 1, k - 1);
    }
  }

  lemma {:induction false} NonZeroHasBit(a: nat) returns (k: nat)
    requires a != 0
    ensures Bit(a, k)
  {
    if a % 2 == 1 { k := 0; } else { var j := NonZeroHasBit(a / 2); k := j + 1; }
  }

  /** Containment of bits implies the numeric order ... */
  lemma {:induction false} BitsOrder(a: nat, b: nat)
    requires forall k: nat :: Bit(a, k) ==> Bit(b, k)
    ensures a <= b
    decreases a
  {
    if a != 0 {
      forall k: nat ensures Bit(a / 2, k) ==> Bit(b / 2, k) {
        assert Bit(a, k + 1) ==> Bit(b, k + 1);
      }
      BitsOrder(a / 2, b / 2);
      assert Bit(a, 0) ==> Bit(b, 0);
    }
  }

  /** ... so the bits determine the number. */
  lemma BitsDetermine(a: nat, b: nat)
    requires forall k: nat :: Bit(a, k) <==> Bit(b, k)
    ensures a == b
  {
    BitsOrder(a, b);
    BitsOrder(b, a);
  }

  ghost predicate NoBitsFrom(a: nat, n: nat) {
    forall k: nat :: k >= n ==> !Bit(a, k)
  }

  lemma HalfNoBits(a: nat, n: nat)
    requires n > 0
    ensures NoBitsFrom(a, n) <==> NoBitsFrom(a / 2, n - 1)
  {
    if NoBitsFrom(a, n) {
      forall k: nat | k >= n - 1 ensures !Bit(a / 2, k) { assert !Bit(a, k + 1); }
    }
    if NoBitsFrom(a / 2, n - 1) {
      forall k: nat | k >= n ensures !Bit(a, k) { assert !Bit(a / 2, k - 1); }
    }
  }

  lemma {:induction false} HighBitsClear(a: nat, n: nat)
    ensures a < Shift(n) <==> NoBitsFrom(a, n)
    decreases n
  {
    if n > 0 {
      HighBitsClear(a / 2, n - 1);
      HalfNoBits(a, n);
    } else if a == 0 {
      forall k: nat ensures !Bit(a, k) { ZeroBit(k); }
    } else {
      var k := NonZeroHasBit(a);
    }
  }

  /** `for m in ms: acc |= m` */
  function OrAll(ms: seq<nat>): nat {
    if ms == [] then 0 else Or(OrAll(ms[..|ms| - 1]), ms[|ms| - 1])
  }

  lemma {:induction false} OrAllBit(ms: seq<nat>, k: nat)
    ensures Bit(OrAll(ms), k) <==> exists i :: 0 <= i < |ms| && Bit(ms[i], k)
  {
    if ms == [] {
      ZeroBit(k);
    } else {
      OrAllBit(ms[..|ms| - 1], k);
      OrBit(OrAll(ms[..|ms| - 1]), ms[|ms| - 1], k);
    }
  }
}

/** `sources_mask`: the venue-to-bit index, encoding a set of venues and reading it back. */
module Provenance {
  import opened Orders
  import opened Bits
  import opened Seqs

  function Position<T(==)>(s: seq<T>, x: T): (i: nat)
    requires x in s
    ensures i < |s| && s[i] == x
  {
    if s[0] == x then 0 else 1 + Position(s[1..], x)
  }

  function SortedVenues(venues: set<string>): (r: seq<string>)
    ensures forall v :: v in r <==> v in venues
  {
    StringOrder();
    SortSetSorts(venues, StrLe);
    SortSet(venues, StrLe)
  }

  function SetOf<T(==)>(s: seq<T>): set<T> { set i | 0 <= i < |s| :: s[i] }

  /** `venue_bitmask_index`: bit number = rank among the sorted distinct venues. */
  function IndexOfSet(venues: set<string>): map<string, nat> {
    map v | v in venues :: Shift(Position(SortedVenues(venues), v))
  }

  function VenueBitmaskIndex(venues: seq<string>): map<string, nat> { IndexOfSet(SetOf(venues)) }

  lemma SameElements(a: seq<string>, b: seq<string>)
    requires forall v :: v in a <==> v in b
    ensures SetOf(a) == SetOf(b)
  {
    forall v ensures v in SetOf(a) <==> v in SetOf(b) {
      assert v in SetOf(a) <==> v in a;
      assert v in SetOf(b) <==> v in b;
    }
  }

  /** The index depends only on the set of venues: not on their order or repetitions. */
  lemma IndexDependsOnSet(a: seq<string>, b: seq<string>)
    requires forall v :: v in a <==> v in b
    ensures VenueBitmaskIndex(a) == VenueBitmaskIndex(b)
  {
    SameElements(a, b);
  }

  function Get(index: map<string, nat>, v: string): nat {
    if v in index then index[v] else 0
  }

  function Lookup(index: map<string, nat>): string -> nat { v => Get(index, v) }

  /** The mask of a list of venues; a venue the index does not know contributes nothing. */
  function MaskOf(venues: seq<string>, index: map<string, nat>): nat {
    OrAll(MapBy(venues, Lookup(index)))
  }

  /** The venues a reader finds in a mask: those whose bit overlaps it. */
  function Decode(mask: nat, index: map<string, nat>): set<string> {
    set v | v in index && And(mask, index[v]) != 0
  }

  lemma {:induction false} OverlapsShift(m: nat, i: nat)
    ensures And(m, Shift(i)) != 0 <==> Bit(m, i)
  {
    ShiftBit(i, i);
    if And(m, Shift(i)) != 0 {
      var k := NonZeroHasBit(And(m, Shift(i)));
      AndBit(m, Shift(i), k);
      ShiftBit(i, k);
    }
    if Bit(m, i) {
      AndBit(m, Shift(i), i);
      ZeroBit(i);
    }
  }

  /** Bit `rank(v)` of a mask is set iff `v` was encoded. */
  lemma {:induction false} MaskBit(venues: seq<string>, all: seq<string>, v: string)
    requires v in SetOf(all)
    requires forall u :: u in venues ==> u in SetOf(all)
    ensures Bit(MaskOf(venues, VenueBitmaskIndex(all)), Position(SortedVenues(SetOf(all)), v)) <==> v in venues
  {
    var index, order := VenueBitmaskIndex(all), SortedVenues(SetOf(all));
    var p := Position(order, v);
    var ms := MapBy(venues, Lookup(index));
    OrAllBit(ms, p);
    forall i | 0 <= i < |ms| ensures Bit(ms[i], p) <==> venues[i] == v {
      ShiftBit(Position(order, venues[i]), p);
    }
  }

  /** Provenance round trip: decoding a mask gives back exactly the venues encoded. */
  lemma DecodeEncode(venues: seq<string>, all: seq<string>)
    requires forall u :: u in venues ==> u in all
    ensures Decode(MaskOf(venues, VenueBitmaskIndex(all)), VenueBitmaskIndex(all)) == SetOf(venues)
  {
    var index, order := VenueBitmaskIndex(all), SortedVenues(SetOf(all));
    var m := MaskOf(venues, index);
    forall v ensures v in Decode(m, index) <==> v in SetOf(venues) {
      if v in index {
        OverlapsShift(m, Position(order, v));
        MaskBit(venues, all, v);
      } else {
        assert v !in venues;
      }
    }
  }

  /** A mask is determined by the set of venues encoded, whatever their order. */
  lemma MaskDependsOnSet(a: seq<string>, b: seq<string>, index: map<string, nat>)
    requires forall v :: v in a <==> v in b
    ensures MaskOf(a, index) == MaskOf(b, index)
  {
    forall k: nat ensures Bit(MaskOf(a, index), k) <==> Bit(MaskOf(b, index), k) {
      var ma, mb := MapBy(a, Lookup(index)), MapBy(b, Lookup(index));
      OrAllBit(ma, k);
      OrAllBit(mb, k);
      if i :| 0 <= i < |ma| && Bit(ma[i], k) {
        assert a[i] in b;
        var j :| 0 <= j < |b| && b[j] == a[i];
        assert Bit(mb[j], k);
      }
      if i :| 0 <= i < |mb| && Bit(mb[i], k) {
        assert b[i] in a;
        var j :| 0 <= j < |a| && a[j] == b[i];
        assert Bit(ma[j], k);
      }
    }
    BitsDetermine(MaskOf(a, index), MaskOf(b, index));
  }

  const INT32_BITS := 31

  /** Every mask over an index of `n` distinct venues is below `1 << n`. */
  lemma MaskBound(venues: seq<string>, all: seq<string>)
    ensures MaskOf(venues, VenueBitmaskIndex(all)) < Shift(|SetOf(all)|)
  {
    var index, order := VenueBitmaskIndex(all), SortedVenues(SetOf(all));
    var m := MaskOf(venues, index);
    forall k: nat | k >= |SetOf(all)| ensures !Bit(m, k) {
      var ms := MapBy(venues, Lookup(index));
      OrAllBit(ms, k);
      forall i | 0 <= i < |ms| ensures !Bit(ms[i], k) {
        ZeroBit(k);
        if venues[i] in index { ShiftBit(Position(order, venues[i]), k); }
      }
    }
    HighBitsClear(m, |SetOf(all)|);
  }

  lemma {:induction false} ShiftGrows(i: nat, j: nat)
    requires i <= j
    ensures Shift(i) <= Shift(j)
  {
    if i < j { ShiftGrows(i, j - 1); }
  }

  /** The venue with a given bit. */
  lemma VenueAt(all: seq<string>, i: nat) returns (v: string)
    requires i < |SetOf(all)|
    ensures v in SetOf(all) && Position(SortedVenues(SetOf(all)), v) == i
  {
    var order := SortedVenues(SetOf(all));
    StringOrder();
    SortSetSorts(SetOf(all), StrLe);
    v := order[i];
    assert v in order;
    var p := Position(order, v);
    assert order[p] == order[i];
  }

  /** All masks over an index fit the signed 32-bit column iff it has at most 31 venues. */
  lemma FitsInt32(all: seq<string>)
    ensures |SetOf(all)| <= INT32_BITS <==>
            forall venues: seq<string> :: MaskOf(venues, VenueBitmaskIndex(all)) < Shift(INT32_BITS)
  {
    if |SetOf(all)| <= INT32_BITS {
      forall venues: seq<string> ensures MaskOf(venues, VenueBitmaskIndex(all)) < Shift(INT32_BITS) {
        MaskBound(venues, all);
        ShiftGrows(|SetOf(all)|, INT32_BITS);
      }
    } else {
      var v := VenueAt(all, INT32_BITS);
      MaskBit([v], all, v);
      HighBitsClear(MaskOf([v], VenueBitmaskIndex(all)), INT32_BITS);
    }
  }

  lemma {:induction false} DistinctCard<T>(s: seq<T>)
    requires forall j, k :: 0 <= j < k < |s| ==> s[j] != s[k]
    ensures |set x | x in s| == |s|
  {
    if s != [] {
      var rest := Init(s);
      DistinctCard(rest);
      assert (set x | x in s) == (set x | x in rest) + {Last(s)};
      assert Last(s) !in rest;
    } else {
      assert (set x | x in s) == {};
    }
  }

  /** Which venue gets which bit: the number of its bit is the number of venues that sort before it. */
  lemma BitNumber(all: seq<string>, v: string)
    requires v in all
    ensures v in VenueBitmaskIndex(all)
    ensures VenueBitmaskIndex(all)[v] == Shift(|set u | u in all && u != v && Lexicographic(u, v)|)
  {
    var order := SortedVenues(SetOf(all));
    StringOrder();
    SortSetSorts(SetOf(all), StrLe);
    assert v in SetOf(all);
    var p := Position(order, v);
    var before := order[..p];
    DistinctCard(before);
    forall u ensures u in before <==> u in all && u != v && Lexicographic(u, v) {
      StrLeIsLexicographic(u, v);
      SortsBefore(order, p, u);
      assert u in SetOf(all) <==> u in all;
    }
    assert (set u | u in before) == set u | u in all && u != v && Lexicographic(u, v);
  }

  lemma {:induction false} SortsBefore(order: seq<string>, p: nat, u: string)
    requires p < |order| && StrictlySorted(order, StrLe)
    ensures u in order[..p] <==> u in order && u != order[p] && StrLe(u, order[p])
  {
    forall i | p < i < |order| ensures !StrLe(order[i], order[p]) { StrLeTotal(order[i], order[p]); }
    if u in order && u != order[p] && StrLe(u, order[p]) {
      var i :| 0 <= i < |order| && order[i] == u;
      assert order[..p][i] == u;
    }
  }

  lemma {:induction false} OrZero(m: nat)
    ensures Or(m, 0) == m
  {
    if m > 0 { OrZero(m / 2); }
  }

  /** A venue that the index does not know leaves the mask as it is; one it knows adds its entry. */
  lemma MaskOfOneMore(venues: seq<string>, v: string, index: map<string, nat>)
    ensures MaskOf(venues + [v], index)
         == if v in index then Or(MaskOf(venues, index), index[v]) else MaskOf(venues, index)
  {
    var ms := MapBy(venues + [v], Lookup(index));
    assert ms[..|ms| - 1] == MapBy(venues, Lookup(index));
    OrZero(MaskOf(venues, index));
  }
}
