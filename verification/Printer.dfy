/**
  The stream operators of tests/unit/comparison.cpp, and a parser that shows they
  lose nothing: the text of a field value determines the value. Numbers are
  printed as a stream with default formatting prints them.
*/
module Printer {
  import opened FieldTree

  // ---------------------------------------------------------------- the text of a tree

  const DIGITS := "0123456789"

  function PrintNat(n: nat): string {
    if n < 10 then [DIGITS[n]] else PrintNat(n / 10) + [DIGITS[n % 10]]
  }

  function PrintInt(n: int): string {
    if n < 0 then "-" + PrintNat(-n) else PrintNat(n)
  }

  function PrintBytes(s: string): string {
    "(" + PrintNat(|s|) + ") " + s
  }

  function PrintBody(v: Value): string
    decreases v, 0
  {
    match v
    case Scalar(_, n) => PrintInt(n)
    case Decimal(decimals, value) => PrintNat(value) + " decimals: " + PrintNat(decimals)
    case Text(_, data) => PrintBytes(data)
    case TableOf(entries) => "num_entries: " + PrintNat(|entries|) + PrintEntries(entries)
    case ArrayOf(items) => "num_entries: " + PrintNat(|items|) + PrintItems(items)
    case Hollow(_, count) => "num_entries: " + PrintInt(count)
  }

  function PrintValue(v: Value): string
    decreases v, 1
  {
    "(" + [Tag(v)] + ") " + PrintBody(v)
  }

  function PrintItems(items: seq<Value>): string
    decreases items, 1
  {
    if items == [] then "" else " " + PrintValue(items[0]) + PrintItems(items[1..])
  }

  function PrintEntry(e: Entry): string
    decreases e, 2
  {
    "key: " + PrintBytes(e.key) + " value: " + PrintValue(e.value)
  }

  function PrintEntries(entries: seq<Entry>): string
    decreases entries, 1
  {
    if entries == [] then "" else " " + PrintEntry(entries[0]) + PrintEntries(entries[1..])
  }

  lemma {:induction false} PrintItemsAppend(items: seq<Value>, v: Value)
    ensures PrintItems(items + [v]) == PrintItems(items) + (" " + PrintValue(v))
  {
    if items == [] {
      assert (items + [v])[1..] == [];
    } else {
      assert (items + [v])[1..] == items[1..] + [v];
      PrintItemsAppend(items[1..], v);
    }
  }

  lemma {:induction false} PrintEntriesAppend(entries: seq<Entry>, e: Entry)
    ensures PrintEntries(entries + [e]) == PrintEntries(entries) + (" " + PrintEntry(e))
  {
    if entries == [] {
      assert (entries + [e])[1..] == [];
    } else {
      assert (entries + [e])[1..] == entries[1..] + [e];
      PrintEntriesAppend(entries[1..], e);
    }
  }

  // ---------------------------------------------------------------- decimal numbers

  /** The number a text of digits stands for. */
  function NumberOf(s: string): int {
    if s == "" then 0 else NumberOf(s[..|s| - 1]) * 10 + (s[|s| - 1] as int - '0' as int)
  }

  ghost predicate AllDigits(s: string) {
    forall i :: 0 <= i < |s| ==> '0' <= s[i] <= '9'
  }

  /** Digits, and no zero in front but in "0" itself: what a stream prints for a number without sign. */
  ghost predicate IsDecimal(s: string) {
    s != "" && AllDigits(s) && (s[0] == '0' ==> s == "0")
  }

  lemma {:induction false} PrintNatIsDecimal(n: nat)
    ensures IsDecimal(PrintNat(n)) && NumberOf(PrintNat(n)) == n
  {
    var d := DIGITS[n % 10];
    assert d as int - '0' as int == n % 10;
    if n < 10 {
      assert PrintNat(n)[..0] == "";
    } else {
      PrintNatIsDecimal(n / 10);
      assert PrintNat(n)[..|PrintNat(n)| - 1] == PrintNat(n / 10);
      assert PrintNat(n / 10) != "0";
    }
  }

  lemma {:induction false} NotZero(s: string)
    requires IsDecimal(s) && s[0] != '0'
    ensures NumberOf(s) > 0
  {
    if |s| > 1 {
      NotZero(s[..|s| - 1]);
    } else {
      assert s[..0] == "";
    }
  }

  /** A decimal text without its last digit is one, too, or empty. */
  lemma WithoutLast(s: string) returns (a: string, c: int)
    requires IsDecimal(s)
    ensures s == a + [s[|s| - 1]] && c == s[|s| - 1] as int - '0' as int && 0 <= c < 10
    ensures NumberOf(s) == NumberOf(a) * 10 + c
    ensures a != "" ==> IsDecimal(a) && NumberOf(a) > 0
    ensures a == "" ==> NumberOf(a) == 0
  {
    a, c := s[..|s| - 1], s[|s| - 1] as int - '0' as int;
    if a != "" {
      NotZero(a);
    }
  }

  lemma SameQuotient(x: int, y: int, c: int, d: int)
    requires x * 10 + c == y * 10 + d && 0 <= c < 10 && 0 <= d < 10
    ensures x == y && c == d
  {
  }

  /** A number has one decimal text. */
  lemma {:induction false} DecimalIsUnique(s: string, t: string)
    requires IsDecimal(s) && IsDecimal(t) && NumberOf(s) == NumberOf(t)
    ensures s == t
    decreases |s|
  {
    var a, c := WithoutLast(s);
    var b, d := WithoutLast(t);
    SameQuotient(NumberOf(a), NumberOf(b), c, d);
    if a != "" && b != "" {
      DecimalIsUnique(a, b);
    }
  }

  /** So the text of a number is its decimal text, and nothing else is. */
  lemma PrintNatIff(n: nat, s: string)
    ensures PrintNat(n) == s <==> IsDecimal(s) && NumberOf(s) == n
  {
    PrintNatIsDecimal(n);
    if IsDecimal(s) && NumberOf(s) == n {
      DecimalIsUnique(PrintNat(n), s);
    }
  }

  lemma PrintIntIff(n: int, s: string)
    ensures n >= 0 ==> (PrintInt(n) == s <==> IsDecimal(s) && NumberOf(s) == n)
    ensures n < 0 ==> (PrintInt(n) == s <==> s != "" && s[0] == '-' && IsDecimal(s[1..]) && NumberOf(s[1..]) == -n)
  {
    if n >= 0 {
      PrintNatIff(n, s);
    } else {
      PrintNatIsDecimal(-n);
      assert PrintInt(n)[1..] == PrintNat(-n);
      if s != "" && s[0] == '-' {
        PrintNatIff(-n, s[1..]);
        assert s == "-" + s[1..];
      }
    }
  }

  // ---------------------------------------------------------------- texts

  lemma ScalarTexts(n: int)
    ensures PrintValue(Scalar(BOOLEAN, n)) == "(t) " + PrintInt(n)
    ensures PrintValue(Scalar(I8, n)) == "(b) " + PrintInt(n) && PrintValue(Scalar(U8, n)) == "(B) " + PrintInt(n)
    ensures PrintValue(Scalar(I16, n)) == "(s) " + PrintInt(n) && PrintValue(Scalar(U16, n)) == "(u) " + PrintInt(n)
    ensures PrintValue(Scalar(I32, n)) == "(I) " + PrintInt(n) && PrintValue(Scalar(U32, n)) == "(i) " + PrintInt(n)
    ensures PrintValue(Scalar(I64, n)) == "(l) " + PrintInt(n) && PrintValue(Scalar(U64, n)) == "(L) " + PrintInt(n)
  {
    forall k: ScalarKind ensures "(" + [ScalarTag(k)] + ") " == ['(', ScalarTag(k), ')', ' '] {
    }
  }

  lemma LeafTexts(decimals: nat, value: nat, s: string, count: Negative)
    ensures PrintValue(Decimal(decimals, value)) == "(D) " + PrintNat(value) + " decimals: " + PrintNat(decimals)
    ensures PrintValue(Text(true, s)) == "(S) (" + PrintNat(|s|) + ") " + s
    ensures PrintValue(Text(false, s)) == "(x) (" + PrintNat(|s|) + ") " + s
    ensures PrintValue(Hollow(true, count)) == "(F) num_entries: " + PrintInt(count)
    ensures PrintValue(Hollow(false, count)) == "(A) num_entries: " + PrintInt(count)
  {
    assert "(" + ['D'] + ") " == "(D) " && "(" + ['S'] + ") " == "(S) " && "(" + ['x'] + ") " == "(x) ";
    assert "(" + ['F'] + ") " == "(F) " && "(" + ['A'] + ") " == "(A) ";
    Regroup4("(D) ", PrintNat(value), " decimals: ", PrintNat(decimals));
    Regroup5("(S) ", "(", PrintNat(|s|), ") ", s);
    Regroup5("(x) ", "(", PrintNat(|s|), ") ", s);
    assert "(S) " + "(" == "(S) (" && "(x) " + "(" == "(x) (";
    assert "(F) " + "num_entries: " == "(F) num_entries: " && "(A) " + "num_entries: " == "(A) num_entries: ";
    Regroup("(F) ", "num_entries: ", PrintInt(count));
    Regroup("(A) ", "num_entries: ", PrintInt(count));
  }

  /**
    Lists have their count before their items; those follow one by one, as
    `PrintItemsAppend` and `PrintEntriesAppend` say.
  */
  lemma ListTexts(items: seq<Value>, entries: seq<Entry>)
    ensures PrintValue(ArrayOf(items)) == "(A) num_entries: " + PrintNat(|items|) + PrintItems(items)
    ensures PrintValue(TableOf(entries)) == "(F) num_entries: " + PrintNat(|entries|) + PrintEntries(entries)
    ensures PrintItems([]) == "" && PrintEntries([]) == ""
  {
    HeadText('A', PrintNat(|items|), PrintItems(items));
    HeadText('F', PrintNat(|entries|), PrintEntries(entries));
    assert "(" + ['A'] + ") num_entries: " == "(A) num_entries: ";
    assert "(" + ['F'] + ") num_entries: " == "(F) num_entries: ";
  }

  lemma HeadText(kind: char, count: string, list: string)
    ensures ("(" + [kind] + ") ") + ("num_entries: " + count + list)
         == "(" + [kind] + ") num_entries: " + count + list
  {
    assert ("(" + [kind] + ") ") + "num_entries: " == "(" + [kind] + ") num_entries: ";
    Regroup4("(" + [kind] + ") ", "num_entries: ", count, list);
  }

  lemma EntryText(e: Entry)
    ensures PrintEntry(e) == "key: (" + PrintNat(|e.key|) + ") " + e.key + " value: " + PrintValue(e.value)
  {
    KeyText(PrintNat(|e.key|), e.key, PrintValue(e.value));
  }

  lemma KeyText(digits: string, key: string, value: string)
    ensures "key: " + ("(" + digits + ") " + key) + " value: " + value
         == "key: (" + digits + ") " + key + " value: " + value
  {
    assert "key: " + "(" == "key: (";
    Regroup4("(", digits, ") ", key);
    Regroup5("key: ", "(", digits, ") ", key);
  }

  // ---------------------------------------------------------------- the operators

  /** An output stream. */
  class Stream {
    var text: string

    constructor ()
      ensures text == ""
    {
      text := "";
    }

    method Put(s: string)
      modifies this
      ensures text == old(text) + s
    {
      text := text + s;
    }

    /** Lines 158-160. */
    method PutBytes(h: Heap, b: RawBytes)
      requires LiveBytes(h, b)
      modifies this
      ensures text == old(text) + PrintBytes(ReadBytes(h, b))
    {
      Put("(" + PrintNat(b.len) + ") " + ReadBytes(h, b));
    }

    /** Lines 170-224: the kind, then what the switch prints. */
    method PutValue(h: Heap, v: RawValue, ghost d: nat)
      requires Live(h, v, d)
      modifies this
      ensures text == old(text) + PrintValue(ReadValue(h, v, d))
      decreases d, 4
    {
      var kind := "(" + [RawTag(v)] + ") ";
      Put(kind);
      PutBody(h, v, d);
      Regroup(old(text), kind, PrintBody(ReadValue(h, v, d)));
    }

    method PutBody(h: Heap, v: RawValue, ghost d: nat)
      requires Live(h, v, d)
      modifies this
      ensures text == old(text) + PrintBody(ReadValue(h, v, d))
      decreases d, 3, 1
    {
      match v {
        case RDecimal(decimals, value) => Put(PrintNat(value) + " decimals: " + PrintNat(decimals));
        case RText(_, b) => PutBytes(h, b);
        case RTable(t) => PutTable(h, t, d);
        case RArray(_, _) => PutArray(h, v, d);
        case RScalar(_, n) => Put(PrintInt(n));
      }
    }

    method PutArray(h: Heap, v: RawValue, ghost d: nat)
      requires v.RArray? && Live(h, v, d)
      modifies this
      ensures text == old(text) + PrintBody(ReadValue(h, v, d))
      decreases d, 3, 0
    {
      var count := "num_entries: " + PrintInt(v.count);
      Put(count);
      if v.count >= 0 {
        ReadArrayAt(h, v, d);
        PutItems(h, v, d);
        Regroup(old(text), count, PrintItems(ReadValue(h, v, d).items));
      }
    }

    method PutItems(h: Heap, v: RawValue, ghost d: nat)
      requires v.RArray? && v.count >= 0 && Live(h, v, d)
      modifies this
      ensures text == old(text) + PrintItems(ReadValue(h, v, d).items)
      decreases d, 2
    {
      ReadArrayAt(h, v, d);
      ghost var items := ReadValue(h, v, d).items;
      var i := 0;
      while i < v.count
        invariant 0 <= i <= |items|
        invariant text == old(text) + PrintItems(items[..i])
      {
        PutSpacedValue(h, h[v.ptr].fields[i], d - 1);
        PrintItemsStep(old(text), items, i);
        i := i + 1;
      }
      assert items[..i] == items;
    }

    method PutSpacedValue(h: Heap, v: RawValue, ghost d: nat)
      requires Live(h, v, d)
      modifies this
      ensures text == old(text) + (" " + PrintValue(ReadValue(h, v, d)))
      decreases d, 5
    {
      Put(" ");
      PutValue(h, v, d);
    }

    /** Lines 226-228. */
    method PutEntry(h: Heap, e: RawEntry, ghost d: nat)
      requires LiveBytes(h, e.key) && Live(h, e.value, d)
      modifies this
      ensures text == old(text) + PrintEntry(Entry(ReadBytes(h, e.key), ReadValue(h, e.value, d)))
      decreases d, 5
    {
      Put("key: ");
      PutBytes(h, e.key);
      Put(" value: ");
      PutValue(h, e.value, d);
      Regroup5(old(text), "key: ", PrintBytes(ReadBytes(h, e.key)), " value: ", PrintValue(ReadValue(h, e.value, d)));
    }

    method PutSpacedEntry(h: Heap, e: RawEntry, ghost d: nat)
      requires LiveBytes(h, e.key) && Live(h, e.value, d)
      modifies this
      ensures text == old(text) + (" " + PrintEntry(Entry(ReadBytes(h, e.key), ReadValue(h, e.value, d))))
      decreases d, 6
    {
      Put(" ");
      PutEntry(h, e, d);
    }

    /** Lines 162-168. */
    method PutTable(h: Heap, t: RawTable, ghost d: nat)
      requires LiveTable(h, t, d)
      modifies this
      ensures text == old(text) + PrintBody(ReadValue(h, RTable(t), d))
      decreases d, 3, 0
    {
      var count := "num_entries: " + PrintInt(t.count);
      Put(count);
      ReadTableAt(h, t, d);
      PutEntries(h, t, d);
      Regroup(old(text), count, PrintEntries(ReadTable(h, t, d)));
    }

    method PutEntries(h: Heap, t: RawTable, ghost d: nat)
      requires LiveTable(h, t, d)
      modifies this
      ensures text == old(text) + PrintEntries(ReadTable(h, t, d))
      decreases d, 2
    {
      ReadTableAt(h, t, d);
      ghost var entries := ReadTable(h, t, d);
      var i := 0;
      while i < t.count
        invariant 0 <= i <= |entries|
        invariant text == old(text) + PrintEntries(entries[..i])
      {
        assert h[t.ptr].entries[i] == EntriesOf(h, t, d)[i];
        PutSpacedEntry(h, h[t.ptr].entries[i], d - 1);
        PrintEntriesStep(old(text), entries, i);
        i := i + 1;
      }
      assert entries[..i] == entries;
    }
  }

  lemma Regroup(a: string, b: string, c: string)
    ensures (a + b) + c == a + (b + c)
  {
  }

  lemma Regroup4(a: string, b: string, c: string, d: string)
    ensures ((a + b) + c) + d == a + (b + (c + d))
    ensures a + ((b + c) + d) == a + (b + (c + d))
  {
    Regroup(a + b, c, d);
    Regroup(a, b, c + d);
    Regroup(b, c, d);
  }

  lemma Regroup5(a: string, b: string, c: string, d: string, e: string)
    ensures (((a + b) + c) + d) + e == a + (b + (c + (d + e)))
    ensures a + (((b + c) + d) + e) == a + (b + (c + (d + e)))
  {
    Regroup((a + b) + c, d, e);
    Regroup4(a, b, c, d + e);
    Regroup4(b, c, d, e);
  }

  /** The loops print one more element. */
  lemma PrintItemsStep(before: string, items: seq<Value>, i: nat)
    requires i < |items|
    ensures (before + PrintItems(items[..i])) + (" " + PrintValue(items[i])) == before + PrintItems(items[..i + 1])
  {
    assert items[..i + 1] == items[..i] + [items[i]];
    PrintItemsAppend(items[..i], items[i]);
    Regroup(before, PrintItems(items[..i]), " " + PrintValue(items[i]));
  }

  lemma PrintEntriesStep(before: string, entries: seq<Entry>, i: nat)
    requires i < |entries|
    ensures (before + PrintEntries(entries[..i])) + (" " + PrintEntry(entries[i]))
         == before + PrintEntries(entries[..i + 1])
  {
    assert entries[..i + 1] == entries[..i] + [entries[i]];
    PrintEntriesAppend(entries[..i], entries[i]);
    Regroup(before, PrintEntries(entries[..i]), " " + PrintEntry(entries[i]));
  }
}
