/**
  The equality operators of tests/unit/comparison.cpp. They walk the
  count-and-pointer structures by mutual recursion and decide whether two of them
  mean the same tree.
*/
module Comparison {
  import opened FieldTree
  import opened Flatten
  import opened Durations

  /** Length, then the bytes (lines 44-46). */
  predicate EqualBytes(h: Heap, l: RawBytes, r: RawBytes)
    requires LiveBytes(h, l) && LiveBytes(h, r)
  {
    l.len == r.len && ReadBytes(h, l) == ReadBytes(h, r)
  }

  /**
    Equality of field values is equality of meaning, counts of lists without items
    included (lines 78-125). `d` bounds the depth of both; the code does not see it.
  */
  method EqualValue(h: Heap, l: RawValue, r: RawValue, ghost d: nat) returns (equal: bool)
    requires Live(h, l, d) && Live(h, r, d)
    ensures equal <==> ReadValue(h, l, d) == ReadValue(h, r, d)
    decreases d, 3
  {
    if RawTag(l) != RawTag(r) {
      return false;
    }
    match l {
      case RDecimal(decimals, value) => return value == r.value && decimals == r.decimals;
      case RText(_, b) => return EqualBytes(h, b, r.bytes);
      case RTable(t) => equal := EqualTable(h, t, r.table, d);
      case RArray(_, _) => equal := EqualArray(h, l, r, d);
      case RScalar(_, n) => return n == r.n;
    }
  }

  method EqualArray(h: Heap, l: RawValue, r: RawValue, ghost d: nat) returns (equal: bool)
    requires l.RArray? && r.RArray? && Live(h, l, d) && Live(h, r, d)
    ensures equal <==> ReadValue(h, l, d) == ReadValue(h, r, d)
    decreases d, 2
  {
    if l.count >= 0 && r.count >= 0 {
      ReadArrayAt(h, l, d);
      ReadArrayAt(h, r, d);
    }
    if l.count != r.count {
      return false;
    }
    var i := 0;
    while i < l.count
      invariant i == 0 || 0 < i <= l.count
      invariant forall j :: 0 <= j < i ==> ReadValue(h, l, d).items[j] == ReadValue(h, r, d).items[j]
    {
      var same := EqualValue(h, h[l.ptr].fields[i], h[r.ptr].fields[i], d - 1);
      if !same {
        assert ReadValue(h, l, d).items[i] != ReadValue(h, r, d).items[i];
        return false;
      }
      i := i + 1;
    }
    return true;
  }

  /** Lines 127-129. */
  method EqualEntry(h: Heap, l: RawEntry, r: RawEntry, ghost d: nat) returns (equal: bool)
    requires LiveBytes(h, l.key) && LiveBytes(h, r.key) && Live(h, l.value, d) && Live(h, r.value, d)
    ensures equal <==>
            ReadBytes(h, l.key) == ReadBytes(h, r.key) && ReadValue(h, l.value, d) == ReadValue(h, r.value, d)
    decreases d, 4
  {
    if EqualBytes(h, l.key, r.key) {
      equal := EqualValue(h, l.value, r.value, d);
    } else {
      equal := false;
    }
  }

  /** Lines 131-139. */
  method EqualTable(h: Heap, l: RawTable, r: RawTable, ghost d: nat) returns (equal: bool)
    requires LiveTable(h, l, d) && LiveTable(h, r, d)
    ensures equal <==> ReadValue(h, RTable(l), d) == ReadValue(h, RTable(r), d)
    decreases d, 1
  {
    ReadTableAt(h, l, d);
    ReadTableAt(h, r, d);
    if l.count != r.count {
      return false;
    }
    var i := 0;
    while i < l.count
      invariant i == 0 || 0 < i <= l.count
      invariant forall j :: 0 <= j < i ==> ReadTable(h, l, d)[j] == ReadTable(h, r, d)[j]
    {
      var same := EqualEntry(h, h[l.ptr].entries[i], h[r.ptr].entries[i], d - 1);
      if !same {
        assert ReadTable(h, l, d)[i] != ReadTable(h, r, d)[i];
        return false;
      }
      i := i + 1;
    }
    return true;
  }

  /** Built structures compare equal exactly when they were built from the same tree, wherever they lie in memory. */
  method CompareBuilt(m: Memory, a: Value, b: Value) returns (equal: bool)
    requires m.Valid() && Countable(a) && Countable(b)
    ensures equal <==> a == b
  {
    var (m1, l) := FlattenValue(m, a);
    var (m2, r) := FlattenValue(m1, b);
    FlattenPreservesMeaning(m, a);
    FlattenPreservesMeaning(m1, b);
    StandsLater(m1, m2, l, a);
    equal := EqualValue(m2.heap, l, r, m2.next);
  }

  // ---------------------------------------------------------------- timeval

  const WORD: int := 0x1_0000_0000_0000_0000

  /** A 64-bit unsigned result stored in a signed 64-bit count of microseconds. */
  function Wrap(x: int): int {
    var m := x % WORD;
    if m < WORD / 2 then m else m - WORD
  }

  function Abs(x: int): nat {
    if x >= 0 then x else -x
  }

  /** The distance the code computes from the wrapped times. */
  function Distance(l: Timeval, r: Timeval): nat {
    Abs(Wrap(Micros(l)) - Wrap(Micros(r)))
  }

  /** The larger wrapped time less the smaller overflows otherwise, which is undefined. */
  predicate DistanceFits(l: Timeval, r: Timeval) {
    Distance(l, r) < WORD / 2
  }

  /** `operator==` of `timeval`s (lines 35-42): closer than 100 microseconds. */
  predicate CloseTimevals(l: Timeval, r: Timeval)
    requires DistanceFits(l, r)
  {
    100 > Distance(l, r)
  }

  /** How many times a time wraps around. */
  function Turns(tv: Timeval): int {
    (Micros(tv) + WORD / 2) / WORD
  }

  lemma WrapTurns(tv: Timeval)
    ensures Wrap(Micros(tv)) == Micros(tv) - WORD * Turns(tv)
    ensures -(WORD / 2) <= Wrap(Micros(tv)) < WORD / 2
  {
  }

  /** The code measures the true distance exactly when both times wrap equally often. */
  lemma DistanceIsTrueIff(l: Timeval, r: Timeval)
    requires DistanceFits(l, r)
    ensures Distance(l, r) == Abs(Micros(l) - Micros(r)) <==> Turns(l) == Turns(r)
  {
    WrapTurns(l);
    WrapTurns(r);
  }

  /** Less than 100 microseconds apart, but for whole words. */
  predicate NearButForWords(l: Timeval, r: Timeval) {
    (Micros(l) - Micros(r) + 99) % WORD < 199
  }

  /** So it calls times close exactly when they are near but for whole words ... */
  lemma CloseIff(l: Timeval, r: Timeval)
    requires DistanceFits(l, r)
    ensures CloseTimevals(l, r) <==> NearButForWords(l, r)
  {
    WrapTurns(l);
    WrapTurns(r);
    var x, k := Wrap(Micros(l)) - Wrap(Micros(r)), Turns(l) - Turns(r);
    assert Micros(l) - Micros(r) == x + WORD * k;
    WholeWords(x + 99, k);
  }

  lemma WholeWords(x: int, k: int)
    ensures (x + WORD * k) % WORD == x % WORD
  {
  }

  /** ... and its answer is right exactly when they wrap equally often, or are not near even so. */
  lemma CloseIsRightIff(l: Timeval, r: Timeval)
    requires DistanceFits(l, r)
    ensures (CloseTimevals(l, r) <==> Abs(Micros(l) - Micros(r)) < 100)
       <==> Turns(l) == Turns(r) || !NearButForWords(l, r)
  {
    CloseIff(l, r);
    WrapTurns(l);
    WrapTurns(r);
  }

  ghost predicate FitsWord(tv: Timeval) {
    -(WORD / 2) <= Micros(tv) < WORD / 2
  }

  /** In particular for times that fit the word. */
  lemma CloseIsNear(l: Timeval, r: Timeval)
    requires FitsWord(l) && FitsWord(r) && DistanceFits(l, r)
    ensures CloseTimevals(l, r) <==> Abs(Micros(l) - Micros(r)) < 100
  {
    CloseIsRightIff(l, r);
  }

  /** 2^58 seconds look like none at all. Nor is closeness transitive. */
  lemma CloseAliases()
    ensures CloseTimevals(Timeval(0x400_0000_0000_0000, 0), Timeval(0, 0))
    ensures CloseTimevals(Timeval(0, 0), Timeval(0, 99)) && CloseTimevals(Timeval(0, 99), Timeval(0, 198))
    ensures !CloseTimevals(Timeval(0, 0), Timeval(0, 198))
  {
    assert 0x400_0000_0000_0000 * MILLION == 15625 * WORD;
  }
}
