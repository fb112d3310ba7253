/**
  A parser for the text printed by the stream operators, and the proof that it
  inverts them: nothing of a tree is lost in its text.
*/
module Parser {
  import opened FieldTree
  import opened Printer
  import opened Flatten

  datatype Parsed<T> = Failure | Success(value: T, rest: string) {
    predicate IsFailure() { Failure? }
    function PropagateFailure<U>(): Parsed<U>
      requires Failure?
    {
      Parsed<U>.Failure
    }
    function Extract(): (T, string)
      requires Success?
    {
      (value, rest)
    }
  }

  /** Skip a fixed text. */
  function Expect(s: string, literal: string): (r: Parsed<()>)
    ensures r.Success? ==> |r.rest| == |s| - |literal|
  {
    if literal <= s then Success((), s[|literal|..]) else Failure
  }

  predicate IsDigit(c: char) {
    '0' <= c <= '9'
  }

  function DigitValue(c: char): nat
    requires IsDigit(c)
  {
    c as int - '0' as int
  }

  function ParseDigits(n: nat, s: string): (nat, string)
    decreases |s|
  {
    if s == "" || !IsDigit(s[0]) then (n, s) else ParseDigits(10 * n + DigitValue(s[0]), s[1..])
  }

  lemma {:induction false} ParseDigitsShrinks(n: nat, s: string)
    ensures |ParseDigits(n, s).1| <= |s|
    decreases |s|
  {
    if s != "" && IsDigit(s[0]) { ParseDigitsShrinks(10 * n + DigitValue(s[0]), s[1..]); }
  }

  function ParseNat(s: string): (r: Parsed<nat>)
    ensures r.Success? ==> |r.rest| < |s|
  {
    if s == "" || !IsDigit(s[0]) then Failure
    else
      ParseDigitsShrinks(DigitValue(s[0]), s[1..]);
      var (n, rest) := ParseDigits(DigitValue(s[0]), s[1..]);
      Success(n, rest)
  }

  function ParseInt(s: string): (r: Parsed<int>)
    ensures r.Success? ==> |r.rest| < |s|
  {
    if s != "" && s[0] == '-' then
      var (n, rest) :- ParseNat(s[1..]);
      Success(0 - n, rest)
    else
      var (n, rest) :- ParseNat(s);
      Success(n, rest)
  }

  function ParseBytes(s: string): (r: Parsed<string>)
    ensures r.Success? ==> |r.rest| < |s|
  {
    var (_, s) :- Expect(s, "(");
    var (n, s) :- ParseNat(s);
    var (_, s) :- Expect(s, ") ");
    if n <= |s| then Success(s[..n], s[n..]) else Failure
  }

  function ScalarOfTag(c: char): Parsed<ScalarKind> {
    match c
    case 't' => Success(BOOLEAN, "")
    case 'b' => Success(I8, "")
    case 'B' => Success(U8, "")
    case 's' => Success(I16, "")
    case 'u' => Success(U16, "")
    case 'I' => Success(I32, "")
    case 'i' => Success(U32, "")
    case 'l' => Success(I64, "")
    case 'L' => Success(U64, "")
    case _ => Failure
  }

  function ParseValue(s: string): (r: Parsed<Value>)
    ensures r.Success? ==> |r.rest| < |s|
    decreases |s|, 1
  {
    var (_, s1) :- Expect(s, "(");
    if s1 == "" then Failure
    else
      var (_, s2) :- Expect(s1[1..], ") ");
      ParseBody(s1[0], s2)
  }

  function ParseBody(kind: char, s: string): (r: Parsed<Value>)
    ensures r.Success? ==> |r.rest| < |s|
    decreases |s|, 0, 1
  {
    match kind
    case 'D' => ParseDecimal(s)
    case 'S' => ParseText(true, s)
    case 'x' => ParseText(false, s)
    case 'F' => ParseTable(s)
    case 'A' => ParseArray(s)
    case _ => ParseScalar(kind, s)
  }

  function ParseScalar(kind: char, s: string): (r: Parsed<Value>)
    ensures r.Success? ==> |r.rest| < |s|
  {
    var (k, _) :- ScalarOfTag(kind);
    var (n, s1) :- ParseInt(s);
    Success(Scalar(k, n), s1)
  }

  function ParseDecimal(s: string): (r: Parsed<Value>)
    ensures r.Success? ==> |r.rest| < |s|
  {
    var (value, s1) :- ParseNat(s);
    var (_, s2) :- Expect(s1, " decimals: ");
    var (decimals, s3) :- ParseNat(s2);
    Success(Decimal(decimals, value), s3)
  }

  function ParseText(utf8: bool, s: string): (r: Parsed<Value>)
    ensures r.Success? ==> |r.rest| < |s|
  {
    var (data, s1) :- ParseBytes(s);
    Success(Text(utf8, data), s1)
  }

  function ParseTable(s: string): (r: Parsed<Value>)
    ensures r.Success? ==> |r.rest| < |s|
    decreases |s|, 0, 0
  {
    var (_, s1) :- Expect(s, "num_entries: ");
    var (n, s2) :- ParseInt(s1);
    if n < 0 then Success(Hollow(true, n), s2)
    else
      var (entries, s3) :- ParseEntries(n, s2);
      Success(TableOf(entries), s3)
  }

  function ParseArray(s: string): (r: Parsed<Value>)
    ensures r.Success? ==> |r.rest| < |s|
    decreases |s|, 0, 0
  {
    var (_, s1) :- Expect(s, "num_entries: ");
    var (n, s2) :- ParseInt(s1);
    if n < 0 then Success(Hollow(false, n), s2)
    else
      var (items, s3) :- ParseItems(n, s2);
      Success(ArrayOf(items), s3)
  }

  function ParseItems(n: nat, s: string): (r: Parsed<seq<Value>>)
    ensures r.Success? ==> |r.rest| <= |s|
    decreases |s|, 2
  {
    if n == 0 then Success([], s)
    else
      var (_, s1) :- Expect(s, " ");
      var (v, s2) :- ParseValue(s1);
      var (vs, s3) :- ParseItems(n - 1, s2);
      Success([v] + vs, s3)
  }

  function ParseEntry(s: string): (r: Parsed<Entry>)
    ensures r.Success? ==> |r.rest| < |s|
    decreases |s|, 1
  {
    var (_, s1) :- Expect(s, "key: ");
    var (key, s2) :- ParseBytes(s1);
    var (_, s3) :- Expect(s2, " value: ");
    var (v, s4) :- ParseValue(s3);
    Success(Entry(key, v), s4)
  }

  function ParseEntries(n: nat, s: string): (r: Parsed<seq<Entry>>)
    ensures r.Success? ==> |r.rest| <= |s|
    decreases |s|, 2
  {
    if n == 0 then Success([], s)
    else
      var (_, s1) :- Expect(s, " ");
      var (e, s2) :- ParseEntry(s1);
      var (es, s3) :- ParseEntries(n - 1, s2);
      Success([e] + es, s3)
  }

  // ---------------------------------------------------------------- round trips

  /** What may follow a printed value. */
  ghost predicate Delimited(rest: string) {
    rest != "" ==> rest[0] == ' '
  }

  ghost predicate NoDigit(rest: string) {
    rest != "" ==> !IsDigit(rest[0])
  }

  lemma Expected(literal: string, rest: string)
    ensures Expect(literal + rest, literal) == Success((), rest)
  {
    assert (literal + rest)[|literal|..] == rest;
  }

  lemma {:induction false} DigitsInverted(n: nat, rest: string)
    ensures ParseDigits(0, PrintNat(n) + rest) == ParseDigits(n, rest)
  {
    var d := DIGITS[n % 10];
    assert IsDigit(d) && DigitValue(d) == n % 10;
    if n < 10 {
      assert (PrintNat(n) + rest)[1..] == rest;
    } else {
      Regroup(PrintNat(n / 10), [d], rest);
      DigitsInverted(n / 10, [d] + rest);
      assert ([d] + rest)[1..] == rest;
    }
  }

  lemma {:induction false} PrintNatHead(n: nat)
    ensures PrintNat(n) != "" && IsDigit(PrintNat(n)[0])
  {
    if n >= 10 { PrintNatHead(n / 10); }
  }

  lemma NatInverted(n: nat, rest: string)
    requires NoDigit(rest)
    ensures ParseNat(PrintNat(n) + rest) == Success(n, rest)
  {
    DigitsInverted(n, rest);
    PrintNatHead(n);
  }

  lemma IntInverted(n: int, rest: string)
    requires NoDigit(rest)
    ensures ParseInt(PrintInt(n) + rest) == Success(n, rest)
  {
    if n < 0 {
      NatInverted(-n, rest);
      MinusInverted(PrintNat(-n), -n, rest);
    } else {
      NatInverted(n, rest);
      PrintNatHead(n);
      NoMinus(PrintNat(n), n, rest);
    }
  }

  lemma NoMinus(digits: string, n: nat, rest: string)
    requires digits != "" && IsDigit(digits[0]) && ParseNat(digits + rest) == Success(n, rest)
    ensures ParseInt(digits + rest) == Success(n, rest)
  {
    assert (digits + rest)[0] == digits[0];
  }

  lemma MinusInverted(digits: string, n: nat, rest: string)
    requires ParseNat(digits + rest) == Success(n, rest)
    ensures ParseInt(("-" + digits) + rest) == Success(0 - n, rest)
  {
    assert (("-" + digits) + rest)[1..] == digits + rest;
  }

  lemma BytesInverted(data: string, rest: string)
    ensures ParseBytes(PrintBytes(data) + rest) == Success(data, rest)
  {
    var tail := ") " + (data + rest);
    Regroup5("(", PrintNat(|data|), ") ", data, rest);
    Expected("(", PrintNat(|data|) + tail);
    NatInverted(|data|, tail);
    Expected(") ", data + rest);
    CutAfter(data, rest);
  }

  lemma CutAfter(data: string, rest: string)
    ensures (data + rest)[..|data|] == data && (data + rest)[|data|..] == rest
  {
  }

  /** The parser reads back what was printed, and nothing more, whatever comes next. */
  lemma {:induction false} ValueInverted(v: Value, rest: string)
    requires Delimited(rest)
    ensures ParseValue(PrintValue(v) + rest) == Success(v, rest)
    decreases v, 1
  {
    BodyInverted(v, rest);
    KindInverted(Tag(v), PrintBody(v), v, rest);
  }

  lemma KindInverted(kind: char, body: string, v: Value, rest: string)
    requires ParseBody(kind, body + rest) == Success(v, rest)
    ensures ParseValue(("(" + [kind] + ") " + body) + rest) == Success(v, rest)
  {
    var s1 := [kind] + (") " + (body + rest));
    Regroup5("(", [kind], ") ", body, rest);
    Expected("(", s1);
    Expected([kind], ") " + (body + rest));
    Expected(") ", body + rest);
  }

  lemma {:induction false} BodyInverted(v: Value, rest: string)
    requires Delimited(rest)
    ensures ParseBody(Tag(v), PrintBody(v) + rest) == Success(v, rest)
    decreases v, 0
  {
    match v
    case Scalar(k, n) => ScalarInverted(k, n, rest);
    case Decimal(decimals, value) => DecimalInverted(decimals, value, rest);
    case Text(_, data) => BytesInverted(data, rest);
    case TableOf(entries) => TableInverted(entries, rest);
    case ArrayOf(items) => ArrayInverted(items, rest);
    case Hollow(table, count) => HollowInverted(table, count, rest);
  }

  lemma HollowInverted(table: bool, count: Negative, rest: string)
    requires Delimited(rest)
    ensures var v := Hollow(table, count);
            ParseBody(Tag(v), PrintBody(v) + rest) == Success(v, rest)
  {
    Regroup("num_entries: ", PrintInt(count), rest);
    Expected("num_entries: ", PrintInt(count) + rest);
    IntInverted(count, rest);
  }

  lemma ScalarInverted(k: ScalarKind, n: int, rest: string)
    requires Delimited(rest)
    ensures ParseBody(ScalarTag(k), PrintInt(n) + rest) == Success(Scalar(k, n), rest)
  {
    IntInverted(n, rest);
    TagInverted(k, PrintInt(n) + rest);
    ScalarParsed(ScalarTag(k), k, PrintInt(n) + rest, n, rest);
  }

  lemma TagInverted(k: ScalarKind, s: string)
    ensures ScalarOfTag(ScalarTag(k)) == Success(k, "")
    ensures ParseBody(ScalarTag(k), s) == ParseScalar(ScalarTag(k), s)
  {
  }

  lemma ScalarParsed(kind: char, k: ScalarKind, s: string, n: int, rest: string)
    requires ScalarOfTag(kind) == Success(k, "") && ParseInt(s) == Success(n, rest)
    ensures ParseScalar(kind, s) == Success(Scalar(k, n), rest)
  {
  }

  lemma {:induction false} TableInverted(entries: seq<Entry>, rest: string)
    requires Delimited(rest)
    ensures ParseTable(PrintBody(TableOf(entries)) + rest) == Success(TableOf(entries), rest)
    decreases entries, 2
  {
    EntriesInverted(entries, rest);
    CountInverted(|entries|, PrintEntries(entries), rest);
  }

  lemma {:induction false} ArrayInverted(items: seq<Value>, rest: string)
    requires Delimited(rest)
    ensures ParseArray(PrintBody(ArrayOf(items)) + rest) == Success(ArrayOf(items), rest)
    decreases items, 2
  {
    ItemsInverted(items, rest);
    CountInverted(|items|, PrintItems(items), rest);
  }

  lemma DecimalInverted(decimals: nat, value: nat, rest: string)
    requires Delimited(rest)
    ensures ParseDecimal(PrintBody(Decimal(decimals, value)) + rest) == Success(Decimal(decimals, value), rest)
  {
    var tail := PrintNat(decimals) + rest;
    Regroup4(PrintNat(value), " decimals: ", PrintNat(decimals), rest);
    NatInverted(value, " decimals: " + tail);
    Expected(" decimals: ", tail);
    NatInverted(decimals, rest);
  }

  /** A count, before a list that is empty or starts with a space. */
  lemma CountInverted(n: nat, list: string, rest: string)
    requires Delimited(list + rest)
    ensures var s := ("num_entries: " + PrintNat(n) + list) + rest;
            && Expect(s, "num_entries: ") == Success((), PrintNat(n) + (list + rest))
            && ParseInt(PrintNat(n) + (list + rest)) == Success(n, list + rest)
  {
    Regroup4("num_entries: ", PrintNat(n), list, rest);
    Expected("num_entries: ", PrintNat(n) + (list + rest));
    IntInverted(n, list + rest);
  }

  lemma {:induction false} ItemsInverted(items: seq<Value>, rest: string)
    requires Delimited(rest)
    ensures Delimited(PrintItems(items) + rest)
    ensures ParseItems(|items|, PrintItems(items) + rest) == Success(items, rest)
    decreases items, 1
  {
    if items == [] {
      assert PrintItems(items) + rest == rest;
    } else {
      var more := PrintItems(items[1..]);
      ItemsInverted(items[1..], rest);
      ValueInverted(items[0], more + rest);
      ItemsStep(PrintValue(items[0]), items[0], more, items[1..], rest);
      assert [items[0]] + items[1..] == items;
    }
  }

  lemma Spaced(first: string, more: string, rest: string)
    ensures (" " + first + more) + rest == " " + (first + (more + rest))
    ensures Delimited((" " + first + more) + rest)
  {
    Regroup4(" ", first, more, rest);
  }

  lemma ItemsStep(text: string, v: Value, more: string, vs: seq<Value>, rest: string)
    requires ParseValue(text + (more + rest)) == Success(v, more + rest)
    requires ParseItems(|vs|, more + rest) == Success(vs, rest)
    ensures ParseItems(|vs| + 1, (" " + text + more) + rest) == Success([v] + vs, rest)
    ensures Delimited((" " + text + more) + rest)
  {
    Spaced(text, more, rest);
    Expected(" ", text + (more + rest));
  }

  lemma {:induction false} EntryInverted(e: Entry, rest: string)
    requires Delimited(rest)
    ensures ParseEntry(PrintEntry(e) + rest) == Success(e, rest)
    decreases e, 2
  {
    var s3 := PrintValue(e.value) + rest;
    var s1 := PrintBytes(e.key) + (" value: " + s3);
    Regroup5("key: ", PrintBytes(e.key), " value: ", PrintValue(e.value), rest);
    Expected("key: ", s1);
    BytesInverted(e.key, " value: " + s3);
    Expected(" value: ", s3);
    ValueInverted(e.value, rest);
  }

  lemma {:induction false} EntriesInverted(entries: seq<Entry>, rest: string)
    requires Delimited(rest)
    ensures Delimited(PrintEntries(entries) + rest)
    ensures ParseEntries(|entries|, PrintEntries(entries) + rest) == Success(entries, rest)
    decreases entries, 1
  {
    if entries == [] {
      assert PrintEntries(entries) + rest == rest;
    } else {
      var more := PrintEntries(entries[1..]);
      EntriesInverted(entries[1..], rest);
      EntryInverted(entries[0], more + rest);
      EntriesStep(PrintEntry(entries[0]), entries[0], more, entries[1..], rest);
      assert [entries[0]] + entries[1..] == entries;
    }
  }

  lemma EntriesStep(text: string, e: Entry, more: string, es: seq<Entry>, rest: string)
    requires ParseEntry(text + (more + rest)) == Success(e, more + rest)
    requires ParseEntries(|es|, more + rest) == Success(es, rest)
    ensures ParseEntries(|es| + 1, (" " + text + more) + rest) == Success([e] + es, rest)
    ensures Delimited((" " + text + more) + rest)
  {
    Spaced(text, more, rest);
    Expected(" ", text + (more + rest));
  }

  /** Different values have different texts, even inside longer texts. */
  lemma TextDeterminesValue(a: Value, b: Value, restA: string, restB: string)
    requires Delimited(restA) && Delimited(restB)
    ensures PrintValue(a) + restA == PrintValue(b) + restB <==> a == b && restA == restB
  {
    ValueInverted(a, restA);
    ValueInverted(b, restB);
  }

  /** From a tree to memory, from memory to text, from text back to the tree. */
  method BuildPrintParse(m: Memory, v: Value) returns (text: string, parsed: Parsed<Value>)
    requires m.Valid() && Countable(v)
    ensures text == PrintValue(v) && parsed == ParseValue(text) == Success(v, "")
  {
    var (m', r) := FlattenValue(m, v);
    FlattenPreservesMeaning(m, v);
    var os := new Stream();
    os.PutValue(m'.heap, r, m'.next);
    text := os.text;
    parsed := ParseValue(text);
    ValueInverted(v, "");
    assert text == PrintValue(v) + "";
  }
}
