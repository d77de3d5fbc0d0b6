/** Bencoded values: the encoder (src/bencode/bencode_encoder.cpp) and, as functions of the bytes not
    yet read, the parser (src/bencode/bencode_parser.cpp). A byte is a char below 256. */
module Bencode {
  import opened Common

  const TWO63: int := 0x8000_0000_0000_0000
  const TWO64: int := 0x1_0000_0000_0000_0000

  /** A dictionary lists its entries in key order, as the std::map of the source does. */
  datatype BValue = BInt(n: int) | BStr(s: string) | BList(items: seq<BValue>) | BDict(entries: seq<Entry>)

  datatype Entry = Entry(key: string, value: BValue)

  datatype ParseError =
    | NoMoreData | BadLength | EmptyNumber | NumberRange | UnfinishedString | UnknownType | BadInteger | NotADictionary
    | OutsideBuffer       // the guard let a string through that ends outside the data: no defined behaviour

  /** A parsed value and the number of bytes it took. */
  datatype Step<+T> = Step(value: T, used: nat)

  type Parsed<+T> = Result<Step<T>, ParseError>

  // ---------------------------------------------------------------------------
  // Decimal numbers
  // ---------------------------------------------------------------------------

  predicate IsDigit(c: char) {
    '0' <= c <= '9'
  }

  predicate AllDigits(s: string) {
    forall i :: 0 <= i < |s| ==> IsDigit(s[i])
  }

  function Digit(d: nat): (c: char)
    requires d < 10
  {
    '0' + d as char
  }

  /** std::to_string of a natural number. */
  function Digits(n: nat): (s: string) {
    if n < 10 then [Digit(n)] else Digits(n / 10) + [Digit(n % 10)]
  }

  function ToString(n: int): (s: string) {
    if n < 0 then "-" + Digits(-n) else Digits(n)
  }

  function DecimalValue(s: string): (n: nat)
    requires AllDigits(s)
  {
    if s == "" then 0 else DecimalValue(s[..|s| - 1]) * 10 + (s[|s| - 1] - '0') as nat
  }

  lemma {:induction false} DigitsRoundTrip(n: nat)
    ensures AllDigits(Digits(n)) && |Digits(n)| >= 1
    ensures DecimalValue(Digits(n)) == n
  {
    if n < 10 {
      assert DecimalValue(Digits(n)[..0]) == 0;
    } else {
      DigitsRoundTrip(n / 10);
      var s := Digits(n);
      assert s[..|s| - 1] == Digits(n / 10);
    }
  }

  /** std::stoul on a string of digits. */
  function Stoul(s: string): (r: Result<nat, ParseError>)
    requires AllDigits(s)
  {
    if s == "" then Err(EmptyNumber)
    else if DecimalValue(s) >= TWO64 then Err(NumberRange)
    else Ok(DecimalValue(s))
  }

  function DigitPrefix(s: string): (r: string)
    ensures AllDigits(r) && r <= s
  {
    if s == "" || !IsDigit(s[0]) then "" else [s[0]] + DigitPrefix(s[1..])
  }

  /** std::stoll on a string of digits and minus signs: an optional sign, then the longest run of
      digits; what follows is ignored. */
  function Stoll(s: string): (r: Result<int, ParseError>) {
    var negative := s != "" && s[0] == '-';
    var digits := DigitPrefix(if negative then s[1..] else s);
    if digits == "" then Err(EmptyNumber)
    else
      var n: int := if negative then 0 - DecimalValue(digits) else DecimalValue(digits);
      if -TWO63 <= n < TWO63 then Ok(n) else Err(NumberRange)
  }

  // ---------------------------------------------------------------------------
  // Dictionaries
  // ---------------------------------------------------------------------------

  /** The order of std::string. */
  predicate Before(a: string, b: string) {
    b != "" && (a == "" || a[0] < b[0] || (a[0] == b[0] && Before(a[1..], b[1..])))
  }

  predicate SortedKeys(es: seq<Entry>) {
    forall i, j :: 0 <= i < j < |es| ==> Before(es[i].key, es[j].key)
  }

  /** Assignment to content[k]: keeps the entries in key order and replaces the value of a key. */
  function Assign(es: seq<Entry>, k: string, v: BValue): (r: seq<Entry>) {
    if es == [] then [Entry(k, v)]
    else if es[0].key == k then [Entry(k, v)] + es[1..]
    else if Before(k, es[0].key) then [Entry(k, v)] + es
    else [es[0]] + Assign(es[1..], k, v)
  }

  function At(es: seq<Entry>, k: string): (v: Option<BValue>) {
    if es == [] then None else if es[0].key == k then Some(es[0].value) else At(es[1..], k)
  }

  /** One key and value as read, with the bytes of the value. */
  datatype Item = Item(key: string, value: BValue, bytes: string)

  /** The dictionary built by assigning the items in turn. */
  function Collect(items: seq<Item>): (es: seq<Entry>) {
    if items == [] then []
    else
      var last := items[|items| - 1];
      Assign(Collect(items[..|items| - 1]), last.key, last.value)
  }

  // ---------------------------------------------------------------------------
  // The encoder
  // ---------------------------------------------------------------------------

  function EncodeInteger(n: int): (s: string) { "i" + ToString(n) + "e" }

  function EncodeString(x: string): (s: string) { Digits(|x|) + ":" + x }

  function Concat(items: seq<string>): (s: string) {
    if items == [] then "" else Concat(items[..|items| - 1]) + items[|items| - 1]
  }

  /** list, of elements already encoded. */
  function EncodeList(items: seq<string>): (s: string) { "l" + Concat(items) + "e" }

  datatype Field = Field(key: string, encoded: string)

  function ConcatFields(fields: seq<Field>): (s: string) {
    if fields == [] then ""
    else
      var last := fields[|fields| - 1];
      ConcatFields(fields[..|fields| - 1]) + (EncodeString(last.key) + last.encoded)
  }

  /** dict, of values already encoded, in key order. */
  function EncodeDict(fields: seq<Field>): (s: string) { "d" + ConcatFields(fields) + "e" }

  method ListLoop(items: seq<string>) returns (out: string)
    ensures out == EncodeList(items)
  {
    out := "l";
    for i := 0 to |items|
      invariant out == "l" + Concat(items[..i])
    {
      assert items[..i + 1][..i] == items[..i];
      ConcatAssoc("l", Concat(items[..i]), items[i]);
      out := out + items[i];
    }
    assert items[..|items|] == items;
    out := out + "e";
  }

  method DictLoop(fields: seq<Field>) returns (out: string)
    ensures out == EncodeDict(fields)
  {
    out := "d";
    for i := 0 to |fields|
      invariant out == "d" + ConcatFields(fields[..i])
    {
      var f := fields[i];
      assert fields[..i + 1][..i] == fields[..i];
      assert ConcatFields(fields[..i + 1]) == ConcatFields(fields[..i]) + (EncodeString(f.key) + f.encoded);
      ConcatAssoc("d", ConcatFields(fields[..i]), EncodeString(f.key) + f.encoded);
      ConcatAssoc(out, EncodeString(f.key), f.encoded);
      out := out + EncodeString(f.key);
      out := out + f.encoded;
    }
    assert fields[..|fields|] == fields;
    out := out + "e";
  }

  /** A whole value through the four encoders. */
  function Encode(v: BValue): (s: string)
    decreases v, 0
  {
    match v
    case BInt(n) => EncodeInteger(n)
    case BStr(x) => EncodeString(x)
    case BList(items) => EncodeList(EncodeAll(items))
    case BDict(entries) => EncodeDict(EncodeEntries(entries))
  }

  function EncodeAll(vs: seq<BValue>): (r: seq<string>)
    ensures |r| == |vs|
    decreases vs, 1
  {
    if vs == [] then [] else [Encode(vs[0])] + EncodeAll(vs[1..])
  }

  function EncodeEntries(es: seq<Entry>): (r: seq<Field>)
    ensures |r| == |es|
    decreases es, 1
  {
    if es == [] then [] else [Field(es[0].key, Encode(es[0].value))] + EncodeEntries(es[1..])
  }

  /** Integers of 64 bits, strings whose length fits size_t, dictionaries in strict key order. */
  predicate WellFormed(v: BValue)
    decreases v, 0
  {
    match v
    case BInt(n) => -TWO63 <= n < TWO63
    case BStr(x) => |x| < TWO64
    case BList(items) => forall i :: 0 <= i < |items| ==> WellFormed(items[i])
    case BDict(es) => SortedKeys(es) && forall i :: 0 <= i < |es| ==> |es[i].key| < TWO64 && WellFormed(es[i].value)
  }

  // ---------------------------------------------------------------------------
  // The parser
  // ---------------------------------------------------------------------------

  /** Digits up to the colon, or to the end of the data. */
  function ColonAt(s: string): (r: Result<nat, ParseError>)
    ensures r.Ok? ==> r.value <= |s| && AllDigits(s[..r.value])
    ensures r.Ok? && r.value < |s| ==> s[r.value] == ':'
  {
    if s == "" || s[0] == ':' then Ok(0)
    else if !IsDigit(s[0]) then Err(BadLength)
    else
      match ColonAt(s[1..])
      case Err(e) => Err(e)
      case Ok(i) =>
        assert s[..i + 1] == [s[0]] + s[1..][..i];
        Ok(i + 1)
  }

  /** The test of parse_byte_string that the string ends inside the data, in 64-bit arithmetic: `pos`
      is where the string starts and `size` the number of bytes of the data. */
  predicate GuardRefuses(pos: nat, length: nat, size: nat) {
    (pos + length) % TWO64 > size
  }

  /** parse_byte_string; `at` is the position of `s` in the data. */
  function ParseByteString(s: string, at: nat): (r: Parsed<string>)
    ensures r.Ok? ==> 1 <= r.value.used <= |s|
  {
    match ColonAt(s)
    case Err(e) => Err(e)
    case Ok(i) =>
      match Stoul(s[..i])
      case Err(e) => Err(e)
      case Ok(length) =>
        if i == |s| then Err(NoMoreData)
        else if GuardRefuses(at + i + 1, length, at + |s|) then Err(UnfinishedString)
        else if i + 1 + length > |s| then Err(OutsideBuffer)
        else Ok(Step(s[i + 1..i + 1 + length], i + 1 + length))
  }

  /** The index of the 'e' that ends an integer. */
  function IntegerEnd(s: string): (r: Result<nat, ParseError>)
    ensures r.Ok? ==> r.value < |s| && s[r.value] == 'e'
  {
    if s == "" then Err(NoMoreData)
    else if s[0] == 'e' then Ok(0)
    else if !IsDigit(s[0]) && s[0] != '-' then Err(BadInteger)
    else
      match IntegerEnd(s[1..])
      case Err(e) => Err(e)
      case Ok(i) => Ok(i + 1)
  }

  /** parse_integer, after the 'i'. */
  function ParseInteger(s: string): (r: Parsed<int>)
    ensures r.Ok? ==> 1 <= r.value.used <= |s|
  {
    match IntegerEnd(s)
    case Err(e) => Err(e)
    case Ok(i) =>
      match Stoll(s[..i])
      case Err(e) => Err(e)
      case Ok(n) => Ok(Step(n, i + 1))
  }

  /** parse_bencoding_type */
  function ParseValue(s: string, at: nat): (r: Parsed<BValue>)
    ensures r.Ok? ==> 1 <= r.value.used <= |s|
    decreases |s|, 0
  {
    if s == "" then Err(NoMoreData)
    else if s[0] == 'i' then
      match ParseInteger(s[1..])
      case Err(e) => Err(e)
      case Ok(step) => Ok(Step(BInt(step.value), 1 + step.used))
    else if s[0] == 'l' then
      match ParseItems(s[1..], at + 1)
      case Err(e) => Err(e)
      case Ok(step) => Ok(Step(BList(step.value), 1 + step.used))
    else if s[0] == 'd' then
      match ParsePairs(s[1..], at + 1)
      case Err(e) => Err(e)
      case Ok(step) => Ok(Step(BDict(Collect(step.value)), 1 + step.used))
    else if IsDigit(s[0]) then
      match ParseByteString(s, at)
      case Err(e) => Err(e)
      case Ok(step) => Ok(Step(BStr(step.value), step.used))
    else Err(UnknownType)
  }

  /** The loop of parse_list, with the closing 'e'. */
  function ParseItems(s: string, at: nat): (r: Parsed<seq<BValue>>)
    ensures r.Ok? ==> 1 <= r.value.used <= |s|
    decreases |s|, 1
  {
    if s == "" then Err(NoMoreData)
    else if s[0] == 'e' then Ok(Step([], 1))
    else
      match ParseValue(s, at)
      case Err(e) => Err(e)
      case Ok(first) =>
        match ParseItems(s[first.used..], at + first.used)
        case Err(e) => Err(e)
        case Ok(rest) => Ok(Step([first.value] + rest.value, first.used + rest.used))
  }

  /** One key and value of a dictionary. */
  function ParsePair(s: string, at: nat): (r: Parsed<Item>)
    ensures r.Ok? ==> 1 <= r.value.used <= |s|
    decreases |s|, 1
  {
    match ParseByteString(s, at)
    case Err(e) => Err(e)
    case Ok(key) =>
      match ParseValue(s[key.used..], at + key.used)
      case Err(e) => Err(e)
      case Ok(v) => Ok(Step(Item(key.value, v.value, s[key.used..key.used + v.used]), key.used + v.used))
  }

  /** The loop of parse_dictionary and of parse, with the closing 'e'. */
  function ParsePairs(s: string, at: nat): (r: Parsed<seq<Item>>)
    ensures r.Ok? ==> 1 <= r.value.used <= |s|
    decreases |s|, 2
  {
    if s == "" then Err(NoMoreData)
    else if s[0] == 'e' then Ok(Step([], 1))
    else
      match ParsePair(s, at)
      case Err(e) => Err(e)
      case Ok(first) =>
        match ParsePairs(s[first.used..], at + first.used)
        case Err(e) => Err(e)
        case Ok(rest) => Ok(Step([first.value] + rest.value, first.used + rest.used))
  }

  const INFO: string := "info"

  /** The bytes kept for `info`: those of its last value. */
  function InfoBytes(items: seq<Item>): (raw: string) {
    if items == [] then ""
    else if items[|items| - 1].key == INFO then items[|items| - 1].bytes
    else InfoBytes(items[..|items| - 1])
  }

  datatype Torrent = Torrent(entries: seq<Entry>, info: string)

  /** parse */
  function ParseTorrent(s: string): (r: Parsed<Torrent>) {
    if s == "" then Err(NoMoreData)
    else if s[0] != 'd' then Err(NotADictionary)
    else
      match ParsePairs(s[1..], 1)
      case Err(e) => Err(e)
      case Ok(step) => Ok(Step(Torrent(Collect(step.value), InfoBytes(step.value)), 1 + step.used))
  }
}
