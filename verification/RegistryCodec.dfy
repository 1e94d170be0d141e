/**
 The attribute codec of the registry table: nested values to and from single-key wire objects, with
 integers printed in decimal. Dictionaries are kept as lists of entries, so the round trip also
 keeps their order.
 */
module RegistryCodec {
  import opened Types

  datatype Value =
    | Bool(truth: bool)
    | Str(text: string)
    | Int(number: int)
    | Null
    | Map(entries: seq<Entry>)
    | List(items: seq<Value>)

  datatype Entry = Entry(key: string, value: Value)

  /** What the table's client hands over. */
  datatype Wire =
    | Truth(truth: bool)
    | Text(text: string)
    | Object(fields: seq<Field>)
    | Array(elements: seq<Wire>)
    | Other

  datatype Field = Field(name: string, wire: Wire)

  // ---------------------------------------------------------------- decimal numbers

  function DigitChar(d: int): char
    requires 0 <= d < 10
  {
    ('0' as int + d) as char
  }

  predicate IsDigit(c: char) { '0' <= c <= '9' }

  function PrintNat(n: nat): string {
    if n < 10 then [DigitChar(n)] else PrintNat(n / 10) + [DigitChar(n % 10)]
  }

  function PrintInt(n: int): string { if n < 0 then "-" + PrintNat(-n) else PrintNat(n) }

  /** Digits with single underscores between them, as Python reads them. */
  function ParseDigits(s: string): Option<nat>
    decreases |s|
  {
    if s == "" || !IsDigit(s[|s| - 1]) then None
    else
      var last := s[|s| - 1] as int - '0' as int;
      if |s| == 1 then Some(last)
      else
        var rest := if s[|s| - 2] == '_' then s[..|s| - 2] else s[..|s| - 1];
        var high := ParseDigits(rest);
        if high.None? then None else Some(10 * high.value + last)
  }

  predicate IsSpace(c: char) {
    9 <= c as int <= 13 || 28 <= c as int <= 32 || c as int == 0x85 || c as int == 0xA0
  }

  function TrimLeft(s: string): string {
    if s != "" && IsSpace(s[0]) then TrimLeft(s[1..]) else s
  }

  function TrimRight(s: string): string
    decreases |s|
  {
    if s != "" && IsSpace(s[|s| - 1]) then TrimRight(s[..|s| - 1]) else s
  }

  /** A decimal integer with optional surrounding space and sign. */
  function ParseInt(text: string): Option<int> {
    var s := TrimRight(TrimLeft(text));
    if s == "" then None
    else if s[0] == '-' || s[0] == '+' then
      var digits := ParseDigits(s[1..]);
      if digits.None? then None
      else
        var magnitude: int := digits.value;
        Some(if s[0] == '-' then -magnitude else magnitude)
    else
      var digits := ParseDigits(s);
      if digits.None? then None else Some(digits.value)
  }

  // ---------------------------------------------------------------- the codec

  function Encode(v: Value): Wire
    decreases v
  {
    match v
    case Bool(truth) => Object([Field("BOOL", Truth(truth))])
    case Str(text) => Object([Field("S", Text(text))])
    case Int(number) => Object([Field("N", Text(PrintInt(number)))])
    case Null => Object([Field("NULL", Truth(true))])
    case Map(entries) => Object([Field("M", Object(EncodeEntries(entries)))])
    case List(items) => Object([Field("L", Array(EncodeItems(items)))])
  }

  function EncodeEntries(entries: seq<Entry>): seq<Field>
    decreases entries
  {
    if entries == [] then []
    else
      var first := entries[0];
      [Field(first.key, Encode(first.value))] + EncodeEntries(entries[1..])
  }

  function EncodeItems(items: seq<Value>): seq<Wire>
    decreases items
  {
    if items == [] then [] else [Encode(items[0])] + EncodeItems(items[1..])
  }

  /** None where the source refuses. */
  function Decode(w: Wire): Option<Value>
    decreases w
  {
    if !w.Object? || |w.fields| != 1 then None
    else
      var name, item := w.fields[0].name, w.fields[0].wire;
      if name == "BOOL" && item.Truth? then Some(Bool(item.truth))
      else if name == "S" && item.Text? then Some(Str(item.text))
      else if name == "N" && item.Text? then
        var number := ParseInt(item.text);
        if number.None? then None else Some(Int(number.value))
      else if name == "NULL" && item == Truth(true) then Some(Null)
      else if name == "M" && item.Object? then
        var entries := DecodeFields(item.fields);
        if entries.None? then None else Some(Map(entries.value))
      else if name == "L" && item.Array? then
        var items := DecodeElements(item.elements);
        if items.None? then None else Some(List(items.value))
      else None
  }

  function DecodeFields(fields: seq<Field>): Option<seq<Entry>>
    decreases fields
  {
    if fields == [] then Some([])
    else
      var first := fields[0];
      var value := Decode(first.wire);
      if value.None? then None
      else
        var rest := DecodeFields(fields[1..]);
        if rest.None? then None else Some([Entry(first.name, value.value)] + rest.value)
  }

  function DecodeElements(elements: seq<Wire>): Option<seq<Value>>
    decreases elements
  {
    if elements == [] then Some([])
    else
      var value := Decode(elements[0]);
      if value.None? then None
      else
        var rest := DecodeElements(elements[1..]);
        if rest.None? then None else Some([value.value] + rest.value)
  }

  // ---------------------------------------------------------------- numbers round-trip

  lemma {:induction false} PrintedDigits(n: nat)
    ensures PrintNat(n) != "" && forall c | c in PrintNat(n) :: IsDigit(c)
  {
    if n < 10 {
    } else {
      PrintedDigits(n / 10);
    }
  }

  lemma {:induction false} DigitsRoundTrip(n: nat)
    ensures ParseDigits(PrintNat(n)) == Some(n)
  {
    if n < 10 {
    } else {
      DigitsRoundTrip(n / 10);
      PrintedDigits(n / 10);
      var high, s := PrintNat(n / 10), PrintNat(n);
      assert s[..|s| - 1] == high && s[|s| - 2] == high[|high| - 1] && high[|high| - 1] in high;
      assert s[|s| - 1] == DigitChar(n % 10);
    }
  }

  lemma TrimKeeps(s: string)
    requires s != "" && !IsSpace(s[0]) && !IsSpace(s[|s| - 1])
    ensures TrimRight(TrimLeft(s)) == s
  {
  }

  /** Reading a printed integer gives it back, whatever its size and sign. */
  lemma IntRoundTrip(n: int)
    ensures ParseInt(PrintInt(n)) == Some(n)
  {
    hide PrintNat;
    hide ParseDigits;
    hide TrimLeft;
    hide TrimRight;
    var digits := PrintNat(if n < 0 then -n else n);
    var s := PrintInt(n);
    PrintedDigits(if n < 0 then -n else n);
    DigitsRoundTrip(if n < 0 then -n else n);
    assert digits[0] in digits && digits[|digits| - 1] in digits;
    assert s[|s| - 1] == digits[|digits| - 1];
    assert n < 0 ==> s[1..] == digits;
    TrimKeeps(s);
  }

  // ---------------------------------------------------------------- values round-trip

  /** Decoding an encoded value gives it back, at any depth. */
  lemma {:induction false} RoundTrip(v: Value)
    ensures Decode(Encode(v)) == Some(v)
    decreases v
  {
    match v
    case Int(number) => IntRoundTrip(number);
    case Map(entries) => EntriesRoundTrip(entries);
    case List(items) => ItemsRoundTrip(items);
    case _ =>
  }

  lemma {:induction false} EntriesRoundTrip(entries: seq<Entry>)
    ensures DecodeFields(EncodeEntries(entries)) == Some(entries)
    decreases entries
  {
    if entries == [] {
    } else {
      var first := entries[0];
      RoundTrip(first.value);
      EntriesRoundTrip(entries[1..]);
      assert EncodeEntries(entries)[1..] == EncodeEntries(entries[1..]);
      assert [Entry(first.key, first.value)] + entries[1..] == entries;
    }
  }

  lemma {:induction false} ItemsRoundTrip(items: seq<Value>)
    ensures DecodeElements(EncodeItems(items)) == Some(items)
    decreases items
  {
    if items == [] {
    } else {
      RoundTrip(items[0]);
      ItemsRoundTrip(items[1..]);
      assert EncodeItems(items)[1..] == EncodeItems(items[1..]);
      assert [items[0]] + items[1..] == items;
    }
  }

  /** Different values have different encodings. */
  lemma EncodingsAreDistinct(v: Value, w: Value)
    requires Encode(v) == Encode(w)
    ensures v == w
  {
    RoundTrip(v);
    RoundTrip(w);
  }

  // ---------------------------------------------------------------- what else decodes

  /** Two wire forms that differ at most in how they spell integers. */
  predicate SameButSpelling(a: Wire, b: Wire)
    decreases a
  {
    a.Object? && b.Object? && |a.fields| == 1 == |b.fields| && a.fields[0].name == b.fields[0].name
    && var x, y := a.fields[0].wire, b.fields[0].wire;
       match x
       case Truth(_) => x == y
       case Text(text) => if a.fields[0].name == "N" then y.Text? && ParseInt(text) == ParseInt(y.text) else x == y
       case Object(fields) => y.Object? && SameFields(fields, y.fields)
       case Array(elements) => y.Array? && SameElements(elements, y.elements)
       case Other => false
  }

  predicate SameFields(a: seq<Field>, b: seq<Field>)
    decreases a
  {
    if a == [] then b == []
    else
      var first := a[0];
      b != [] && first.name == b[0].name && SameButSpelling(first.wire, b[0].wire) && SameFields(a[1..], b[1..])
  }

  predicate SameElements(a: seq<Wire>, b: seq<Wire>)
    decreases a
  {
    if a == [] then b == [] else b != [] && SameButSpelling(a[0], b[0]) && SameElements(a[1..], b[1..])
  }

  /** Whatever decodes is the encoding of its value up to the spelling of integers; so decoding accepts
      nothing else. */
  lemma {:induction false} OnlyEncodingsDecode(w: Wire)
    requires Decode(w).Some?
    ensures SameButSpelling(w, Encode(Decode(w).value))
    decreases w
  {
    var item := w.fields[0].wire;
    match item
    case Text(text) => if w.fields[0].name == "N" { IntRoundTrip(ParseInt(text).value); }
    case Object(fields) => OnlyEncodedFieldsDecode(fields);
    case Array(elements) => OnlyEncodedElementsDecode(elements);
    case _ =>
  }

  lemma {:induction false} OnlyEncodedFieldsDecode(fields: seq<Field>)
    requires DecodeFields(fields).Some?
    ensures SameFields(fields, EncodeEntries(DecodeFields(fields).value))
    decreases fields
  {
    if fields == [] {
    } else {
      var first := fields[0];
      OnlyEncodingsDecode(first.wire);
      OnlyEncodedFieldsDecode(fields[1..]);
      var entries := DecodeFields(fields).value;
      assert entries[1..] == DecodeFields(fields[1..]).value;
      assert EncodeEntries(entries)[1..] == EncodeEntries(entries[1..]);
    }
  }

  lemma {:induction false} OnlyEncodedElementsDecode(elements: seq<Wire>)
    requires DecodeElements(elements).Some?
    ensures SameElements(elements, EncodeItems(DecodeElements(elements).value))
    decreases elements
  {
    if elements == [] {
    } else {
      OnlyEncodingsDecode(elements[0]);
      OnlyEncodedElementsDecode(elements[1..]);
      var items := DecodeElements(elements).value;
      assert items[1..] == DecodeElements(elements[1..]).value;
      assert EncodeItems(items)[1..] == EncodeItems(items[1..]);
    }
  }

  // ---------------------------------------------------------------- the wire format

  /** The decimal digit of ten to the k. */
  function DigitOf(n: nat, k: nat): int { if k == 0 then n % 10 else DigitOf(n / 10, k - 1) }

  /** A number is printed in decimal: its last character but k is the digit of ten to the k, and there is no
      leading zero. */
  lemma {:induction false} PrintedDigitsAreDecimal(n: nat, k: nat)
    requires k < |PrintNat(n)|
    ensures PrintNat(n)[|PrintNat(n)| - 1 - k] as int == 48 + DigitOf(n, k)
    ensures |PrintNat(n)| > 1 ==> PrintNat(n)[0] != '0'
    decreases n
  {
    if 10 <= n {
      var front := PrintNat(n / 10);
      PrintedDigitsAreDecimal(n / 10, if k == 0 then 0 else k - 1);
      if |front| == 1 { assert front[0] as int == 48 + n / 10; }
    }
  }

  lemma {:induction false} EncodedItemsAre(items: seq<Value>, i: nat)
    requires i < |items|
    ensures |EncodeItems(items)| == |items| && EncodeItems(items)[i] == Encode(items[i])
    decreases |items|
  {
    if i > 0 { EncodedItemsAre(items[1..], i - 1); } else if |items| > 1 { EncodedItemsAre(items[1..], 0); }
  }

  lemma {:induction false} EncodedEntriesAre(entries: seq<Entry>, i: nat)
    requires i < |entries|
    ensures |EncodeEntries(entries)| == |entries|
    ensures EncodeEntries(entries)[i] == Field(entries[i].key, Encode(entries[i].value))
    decreases |entries|
  {
    if i > 0 { EncodedEntriesAre(entries[1..], i - 1); } else if |entries| > 1 { EncodedEntriesAre(entries[1..], 0); }
  }

  /** The wire form of every kind of value: one field, named by the kind, that holds the value; entries and
      elements keep their order and their keys. */
  lemma WireFormat(v: Value)
    ensures Encode(v).Object? && |Encode(v).fields| == 1
    ensures var name, wire := Encode(v).fields[0].name, Encode(v).fields[0].wire;
            match v
            case Bool(truth) => name == "BOOL" && wire == Truth(truth)
            case Str(text) => name == "S" && wire == Text(text)
            case Int(number) =>
              name == "N" && wire.Text? && ParseInt(wire.text) == Some(number) && (0 <= number ==> wire.text == PrintNat(number))
            case Null => name == "NULL" && wire == Truth(true)
            case Map(entries) =>
              && name == "M" && wire.Object? && |wire.fields| == |entries|
              && forall i | 0 <= i < |entries| :: wire.fields[i] == Field(entries[i].key, Encode(entries[i].value))
            case List(items) =>
              && name == "L" && wire.Array? && |wire.elements| == |items|
              && forall i | 0 <= i < |items| :: wire.elements[i] == Encode(items[i])
  {
    match v
    case Bool(_) =>
    case Str(_) =>
    case Int(number) => IntRoundTrip(number);
    case Null =>
    case Map(entries) =>
      forall i | 0 <= i < |entries|
        ensures |EncodeEntries(entries)| == |entries| && EncodeEntries(entries)[i] == Field(entries[i].key, Encode(entries[i].value))
      {
        EncodedEntriesAre(entries, i);
      }
    case List(items) =>
      forall i | 0 <= i < |items| ensures |EncodeItems(items)| == |items| && EncodeItems(items)[i] == Encode(items[i]) {
        EncodedItemsAre(items, i);
      }
  }
}
