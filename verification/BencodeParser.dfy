/** The parser as the mutable object of the source (src/bencode/bencode_parser.cpp): mutually recursive
    methods that advance a position, proved against the functions of module Bencode. */
module BencodeParser {
  import opened Common
  import opened Bencode

  class Parser {
    const data: string
    var pos: nat
    var infoBytes: string

    constructor (data: string)
      ensures this.data == data && pos == 0 && infoBytes == ""
    {
      this.data, pos, infoBytes := data, 0, "";
    }

    /** The bytes not yet read. */
    ghost function Rest(): (s: string)
      requires pos <= |data|
      reads this
    {
      data[pos..]
    }

    method Peek() returns (r: Result<char, ParseError>)
      requires pos <= |data|
      ensures r == if Rest() == "" then Err(NoMoreData) else Ok(Rest()[0])
    {
      if pos >= |data| {
        return Err(NoMoreData);
      }
      return Ok(data[pos]);
    }

    /** The scan for the colon that ends a length. */
    method FindColon() returns (r: Result<nat, ParseError>)
      requires pos <= |data|
      ensures r == Shifted(ColonAt(Rest()), pos)
    {
      hide ColonAt;
      var i := pos;
      while i < |data| && data[i] != ':'
        invariant pos <= i <= |data|
        invariant ColonAt(Rest()) == Shifted(ColonAt(data[i..]), i - pos)
      {
        ColonStep(data[i..]);
        assert data[i..][1..] == data[i + 1..];
        if !IsDigit(data[i]) {
          return Err(BadLength);
        }
        i := i + 1;
      }
      ColonHere(data[i..]);
      return Ok(i);
    }

    method ReadByteString() returns (r: Result<string, ParseError>)
      requires pos <= |data|
      modifies this`pos
      ensures pos <= |data|
      ensures match ParseByteString(old(Rest()), old(pos))
              case Err(e) => r == Err(e)
              case Ok(step) => r == Ok(step.value) && pos == old(pos) + step.used
    {
      hide ColonAt, Stoul;
      ghost var p := pos;
      var colon := FindColon();
      if colon.Err? {
        return Err(colon.error);
      }
      var i := colon.value;
      Slice(data, p, p, i);
      var number := Stoul(data[pos..i]);
      if number.Err? {
        return Err(number.error);
      }
      var length := number.value;
      pos := i;
      if pos >= |data| {
        return Err(NoMoreData);
      }
      pos := pos + 1;
      if (pos + length) % TWO64 > |data| {
        return Err(UnfinishedString);
      }
      if pos + length > |data| {
        return Err(OutsideBuffer);
      }
      r := Ok(data[pos..pos + length]);
      Slice(data, p, pos, pos + length);
      pos := pos + length;
    }

    /** The loop of parse_integer: up to the closing 'e'. */
    method SkipNumber() returns (r: Result<(), ParseError>)
      requires pos <= |data|
      modifies this`pos
      ensures old(pos) <= pos <= |data|
      ensures IntegerEnd(old(Rest())).Err? ==> r == Err(IntegerEnd(old(Rest())).error)
      ensures IntegerEnd(old(Rest())).Ok? ==> r == Ok(()) && pos == old(pos) + IntegerEnd(old(Rest())).value
    {
      hide IntegerEnd, ReadingNumber;
      ghost var start, end := pos, IntegerEnd(Rest());
      NumberBegins(data, pos);
      var c := Peek();
      while c.Ok? && c.value != 'e'
        invariant start <= pos <= |data|
        invariant c == if pos == |data| then Err(NoMoreData) else Ok(data[pos])
        invariant ReadingNumber(end, data, start, pos)
        decreases |data| - pos
      {
        NumberTurns(end, data, start, pos);
        if !IsDigit(c.value) && c.value != '-' {
          return Err(BadInteger);
        }
        pos := pos + 1;
        c := Peek();
      }
      NumberEnds(end, data, start, pos);
      return if c.Err? then Err(c.error) else Ok(());
    }

    method ReadInteger() returns (r: Result<int, ParseError>)
      requires pos <= |data| && Rest() != "" && Rest()[0] == 'i'
      modifies this`pos
      ensures pos <= |data|
      ensures match ParseInteger(old(Rest())[1..])
              case Err(e) => r == Err(e)
              case Ok(step) => r == Ok(step.value) && pos == old(pos) + 1 + step.used
    {
      hide IntegerEnd, Stoll;
      pos := pos + 1;
      var start := pos;
      Tail(data, start - 1, start);
      var skipped := SkipNumber();
      if skipped.Err? {
        return Err(skipped.error);
      }
      Slice(data, start, start, pos);
      var number := Stoll(data[start..pos]);
      pos := pos + 1;
      return number;
    }

    /** parse_bencoding_type */
    method ReadValue() returns (r: Result<BValue, ParseError>)
      requires pos <= |data|
      modifies this`pos
      ensures pos <= |data|
      ensures match ParseValue(old(Rest()), old(pos))
              case Err(e) => r == Err(e)
              case Ok(step) => r == Ok(step.value) && pos == old(pos) + step.used
      decreases |data| - pos, 1
    {
      hide ParseInteger, ParseItems, ParsePairs, ParseByteString, Collect;
      var c := Peek();
      if c.Err? {
        return Err(c.error);
      }
      if c.value == 'i' {
        var n := ReadInteger();
        return if n.Ok? then Ok(BInt(n.value)) else Err(n.error);
      }
      if c.value == 'l' {
        r := ReadList();
        return;
      }
      if c.value == 'd' {
        r := ReadDictionary();
        return;
      }
      if IsDigit(c.value) {
        var x := ReadByteString();
        return if x.Ok? then Ok(BStr(x.value)) else Err(x.error);
      }
      return Err(UnknownType);
    }

    method ReadList() returns (r: Result<BValue, ParseError>)
      requires pos <= |data| && Rest() != "" && Rest()[0] == 'l'
      modifies this`pos
      ensures pos <= |data|
      ensures match ParseItems(old(Rest())[1..], old(pos) + 1)
              case Err(e) => r == Err(e)
              case Ok(step) => r == Ok(BList(step.value)) && pos == old(pos) + 1 + step.used
      decreases |data| - pos, 0
    {
      hide ParseItems, ParseValue, ReadingList;
      ghost var all := ParseItems(Rest()[1..], pos + 1);
      ListBegins(data, pos);
      pos := pos + 1;
      ghost var start := pos;
      var items: seq<BValue> := [];
      var c := Peek();
      while c.Ok? && c.value != 'e'
        invariant start <= pos <= |data|
        invariant c == if pos == |data| then Err(NoMoreData) else Ok(data[pos])
        invariant ReadingList(all, data, start, items, pos)
        decreases |data| - pos
      {
        ListTurns(all, data, start, items, pos);
        var v := ReadValue();
        if v.Err? {
          return Err(v.error);
        }
        items := items + [v.value];
        c := Peek();
      }
      ListEnds(all, data, start, items, pos);
      if c.Err? {
        return Err(c.error);
      }
      pos := pos + 1;
      return Ok(BList(items));
    }

    /** One turn of the two dictionary loops: a key, a value and the bytes between. */
    method ReadPair() returns (r: Result<Item, ParseError>)
      requires pos <= |data|
      modifies this`pos
      ensures pos <= |data|
      ensures match ParsePair(old(Rest()), old(pos))
              case Err(e) => r == Err(e)
              case Ok(step) => r == Ok(step.value) && pos == old(pos) + step.used
      decreases |data| - pos, 2
    {
      hide ParseByteString, ParseValue;
      ghost var p := pos;
      var key := ReadByteString();
      if key.Err? {
        return Err(key.error);
      }
      Tail(data, p, pos);
      var start := pos;
      var v := ReadValue();
      if v.Err? {
        return Err(v.error);
      }
      var end := pos;
      Slice(data, p, start, end);
      return Ok(Item(key.value, v.value, data[start..end]));
    }

    method ReadDictionary() returns (r: Result<BValue, ParseError>)
      requires pos <= |data| && Rest() != "" && Rest()[0] == 'd'
      modifies this`pos
      ensures pos <= |data|
      ensures match ParsePairs(old(Rest())[1..], old(pos) + 1)
              case Err(e) => r == Err(e)
              case Ok(step) => r == Ok(BDict(Collect(step.value))) && pos == old(pos) + 1 + step.used
      decreases |data| - pos, 0
    {
      hide ParsePairs, ParsePair, Assign, Collect, ReadingDict;
      ghost var all, items: seq<Item> := ParsePairs(Rest()[1..], pos + 1), [];
      DictBegins(data, pos);
      pos := pos + 1;
      ghost var start := pos;
      var entries: seq<Entry> := [];
      var c := Peek();
      while c.Ok? && c.value != 'e'
        invariant start <= pos <= |data|
        invariant c == if pos == |data| then Err(NoMoreData) else Ok(data[pos])
        invariant ReadingDict(all, data, start, items, pos) && entries == Collect(items)
        decreases |data| - pos
      {
        DictTurns(all, data, start, items, pos);
        var pair := ReadPair();
        if pair.Err? {
          return Err(pair.error);
        }
        CollectMore(items, pair.value);
        entries := Assign(entries, pair.value.key, pair.value.value);
        items := items + [pair.value];
        c := Peek();
      }
      DictEnds(all, data, start, items, pos);
      if c.Err? {
        return Err(c.error);
      }
      pos := pos + 1;
      return Ok(BDict(entries));
    }

    /** parse: the dictionary of a whole .torrent file, saving the bytes of `info`. */
    method ReadTorrent() returns (r: Result<Torrent, ParseError>)
      requires pos == 0 && infoBytes == ""
      modifies this
      ensures match ParseTorrent(data)
              case Err(e) => r == Err(e)
              case Ok(step) => r == Ok(step.value) && pos == step.used && infoBytes == step.value.info
    {
      hide ParsePairs, ParsePair, Assign, Collect, InfoBytes, ReadingDict;
      var c := Peek();
      if c.Err? {
        return Err(c.error);
      }
      ghost var all, items: seq<Item> := ParsePairs(data[1..], 1), [];
      DictBegins(data, 0);
      pos := pos + 1;
      if c.value != 'd' {
        return Err(NotADictionary);
      }
      var entries: seq<Entry> := [];
      c := Peek();
      while c.Ok? && c.value != 'e'
        invariant 1 <= pos <= |data|
        invariant c == if pos == |data| then Err(NoMoreData) else Ok(data[pos])
        invariant ReadingDict(all, data, 1, items, pos)
        invariant entries == Collect(items) && infoBytes == InfoBytes(items)
        decreases |data| - pos
      {
        DictTurns(all, data, 1, items, pos);
        var pair := ReadPair();
        if pair.Err? {
          return Err(pair.error);
        }
        CollectMore(items, pair.value);
        entries := Assign(entries, pair.value.key, pair.value.value);
        if pair.value.key == INFO {
          infoBytes := pair.value.bytes;
        }
        items := items + [pair.value];
        c := Peek();
      }
      DictEnds(all, data, 1, items, pos);
      if c.Err? {
        return Err(c.error);
      }
      pos := pos + 1;
      return Ok(Torrent(entries, infoBytes));
    }
  }

  // ---------------------------------------------------------------------------
  // How the loops relate to the recursive functions
  // ---------------------------------------------------------------------------

  function Shifted(r: Result<nat, ParseError>, n: nat): (q: Result<nat, ParseError>) {
    match r case Err(e) => Err(e) case Ok(i) => Ok(i + n)
  }

  lemma Slice(s: string, p: nat, i: nat, j: nat)
    requires p <= i <= j <= |s|
    ensures s[p..][i - p..j - p] == s[i..j]
    ensures i == p ==> s[p..][..j - p] == s[i..j]
  {
  }

  lemma Tail(s: string, p: nat, q: nat)
    requires p <= q <= |s|
    ensures s[p..][q - p..] == s[q..]
  {
  }

  /** The loop over an integer stands at p; `end` is where the integer ends. */
  ghost predicate ReadingNumber(end: Result<nat, ParseError>, data: string, start: nat, p: nat) {
    start <= p <= |data| && end == Shifted(IntegerEnd(data[p..]), p - start)
  }

  lemma NumberBegins(data: string, p: nat)
    requires p <= |data|
    ensures ReadingNumber(IntegerEnd(data[p..]), data, p, p)
  {
    hide IntegerEnd;
  }

  lemma NumberTurns(end: Result<nat, ParseError>, data: string, start: nat, p: nat)
    requires ReadingNumber(end, data, start, p) && p < |data| && data[p] != 'e'
    ensures IsDigit(data[p]) || data[p] == '-' ==> ReadingNumber(end, data, start, p + 1)
    ensures !IsDigit(data[p]) && data[p] != '-' ==> end == Err(BadInteger)
  {
    hide IntegerEnd;
    EndStep(data[p..]);
    Tail(data, p, p + 1);
  }

  lemma NumberEnds(end: Result<nat, ParseError>, data: string, start: nat, p: nat)
    requires ReadingNumber(end, data, start, p)
    ensures p == |data| ==> end == Err(NoMoreData)
    ensures p < |data| && data[p] == 'e' ==> end == Ok(p - start)
  {
    hide IntegerEnd;
    EndHere(data[p..]);
  }

  lemma EndHere(s: string)
    ensures s == "" ==> IntegerEnd(s) == Err(NoMoreData)
    ensures s != "" && s[0] == 'e' ==> IntegerEnd(s) == Ok(0)
  {
  }

  lemma ColonHere(s: string)
    requires s == "" || s[0] == ':'
    ensures ColonAt(s) == Ok(0)
  {
  }

  lemma ColonStep(s: string)
    requires s != "" && s[0] != ':'
    ensures ColonAt(s) == if IsDigit(s[0]) then Shifted(ColonAt(s[1..]), 1) else Err(BadLength)
  {
  }

  lemma EndStep(s: string)
    requires s != "" && s[0] != 'e'
    ensures IntegerEnd(s) == if IsDigit(s[0]) || s[0] == '-' then Shifted(IntegerEnd(s[1..]), 1) else Err(BadInteger)
  {
  }

  /** A parse that has already read some elements. */
  ghost function Extended<T>(done: seq<T>, used: nat, rest: Parsed<seq<T>>): (r: Parsed<seq<T>>) {
    match rest case Err(e) => Err(e) case Ok(step) => Ok(Step(done + step.value, used + step.used))
  }

  lemma ExtendedNone<T>(r: Parsed<seq<T>>)
    ensures Extended([], 0, r) == r
  {
    if r.Ok? {
      assert [] + r.value.value == r.value.value;
    }
  }

  lemma ExtendedTwice<T>(a: seq<T>, i: nat, b: seq<T>, j: nat, r: Parsed<seq<T>>)
    ensures Extended(a, i, Extended(b, j, r)) == Extended(a + b, i + j, r)
  {
    if r.Ok? {
      ConcatAssoc(a, b, r.value.value);
    }
  }

  lemma ItemsTurn(s: string, at: nat)
    requires s != "" && s[0] != 'e'
    ensures ParseValue(s, at).Err? ==> ParseItems(s, at) == Err(ParseValue(s, at).error)
    ensures ParseValue(s, at).Ok? ==>
              ParseItems(s, at) == Extended([ParseValue(s, at).value.value], ParseValue(s, at).value.used, ParseItems(s[ParseValue(s, at).value.used..], at + ParseValue(s, at).value.used))
  {
    hide ParseValue;
  }

  lemma PairsTurn(s: string, at: nat)
    requires s != "" && s[0] != 'e'
    ensures ParsePair(s, at).Err? ==> ParsePairs(s, at) == Err(ParsePair(s, at).error)
    ensures ParsePair(s, at).Ok? ==>
              ParsePairs(s, at) == Extended([ParsePair(s, at).value.value], ParsePair(s, at).value.used, ParsePairs(s[ParsePair(s, at).value.used..], at + ParsePair(s, at).value.used))
  {
    hide ParsePair;
  }

  lemma ItemsEnd(s: string, at: nat)
    ensures s == "" ==> ParseItems(s, at) == Err(NoMoreData)
    ensures s != "" && s[0] == 'e' ==> ParseItems(s, at) == Ok(Step([], 1))
  {
  }

  lemma PairsEnd(s: string, at: nat)
    ensures s == "" ==> ParsePairs(s, at) == Err(NoMoreData)
    ensures s != "" && s[0] == 'e' ==> ParsePairs(s, at) == Ok(Step([], 1))
  {
  }

  lemma ExtendedAll<T>(done: seq<T>, used: nat)
    ensures Extended(done, used, Ok(Step([], 1))) == Ok(Step(done, used + 1))
  {
    assert done + [] == done;
  }

  lemma CollectMore(items: seq<Item>, item: Item)
    ensures Collect(items + [item]) == Assign(Collect(items), item.key, item.value)
    ensures InfoBytes(items + [item]) == if item.key == INFO then item.bytes else InfoBytes(items)
  {
    assert (items + [item])[..|items|] == items;
  }

  /** The list loop stands at p with `items` read; `all` is what the whole list parses to. */
  ghost predicate ReadingList(all: Parsed<seq<BValue>>, data: string, start: nat, items: seq<BValue>, p: nat) {
    start <= p <= |data| && all == Extended(items, p - start, ParseItems(data[p..], p))
  }

  lemma ListBegins(data: string, p: nat)
    requires p < |data|
    ensures ReadingList(ParseItems(data[p..][1..], p + 1), data, p + 1, [], p + 1)
  {
    hide ParseItems;
    Tail(data, p, p + 1);
    ExtendedNone(ParseItems(data[p + 1..], p + 1));
  }

  lemma ListTurns(all: Parsed<seq<BValue>>, data: string, start: nat, items: seq<BValue>, p: nat)
    requires ReadingList(all, data, start, items, p) && p < |data| && data[p] != 'e'
    ensures ParseValue(data[p..], p).Err? ==> all == Err(ParseValue(data[p..], p).error)
    ensures ParseValue(data[p..], p).Ok? ==>
              var first := ParseValue(data[p..], p).value;
              ReadingList(all, data, start, items + [first.value], p + first.used)
  {
    hide ParseItems, ParseValue;
    ItemsTurn(data[p..], p);
    if ParseValue(data[p..], p).Ok? {
      var first := ParseValue(data[p..], p).value;
      var q := p + first.used;
      Tail(data, p, q);
      ExtendedTwice(items, p - start, [first.value], first.used, ParseItems(data[q..], q));
    }
  }

  lemma ListEnds(all: Parsed<seq<BValue>>, data: string, start: nat, items: seq<BValue>, p: nat)
    requires ReadingList(all, data, start, items, p)
    ensures p == |data| ==> all == Err(NoMoreData)
    ensures p < |data| && data[p] == 'e' ==> all == Ok(Step(items, p - start + 1))
  {
    hide ParseItems;
    ItemsEnd(data[p..], p);
    ExtendedAll(items, p - start);
  }

  /** The same for the two dictionary loops. */
  ghost predicate ReadingDict(all: Parsed<seq<Item>>, data: string, start: nat, items: seq<Item>, p: nat) {
    start <= p <= |data| && all == Extended(items, p - start, ParsePairs(data[p..], p))
  }

  lemma DictBegins(data: string, p: nat)
    requires p < |data|
    ensures ReadingDict(ParsePairs(data[p..][1..], p + 1), data, p + 1, [], p + 1)
    ensures data[p..][1..] == data[p + 1..] && Collect([]) == [] && InfoBytes([]) == ""
  {
    hide ParsePairs;
    Tail(data, p, p + 1);
    ExtendedNone(ParsePairs(data[p + 1..], p + 1));
  }

  lemma DictTurns(all: Parsed<seq<Item>>, data: string, start: nat, items: seq<Item>, p: nat)
    requires ReadingDict(all, data, start, items, p) && p < |data| && data[p] != 'e'
    ensures ParsePair(data[p..], p).Err? ==> all == Err(ParsePair(data[p..], p).error)
    ensures ParsePair(data[p..], p).Ok? ==>
              var first := ParsePair(data[p..], p).value;
              ReadingDict(all, data, start, items + [first.value], p + first.used)
  {
    hide ParsePairs, ParsePair;
    PairsTurn(data[p..], p);
    if ParsePair(data[p..], p).Ok? {
      var first := ParsePair(data[p..], p).value;
      var q := p + first.used;
      Tail(data, p, q);
      ExtendedTwice(items, p - start, [first.value], first.used, ParsePairs(data[q..], q));
    }
  }

  lemma DictEnds(all: Parsed<seq<Item>>, data: string, start: nat, items: seq<Item>, p: nat)
    requires ReadingDict(all, data, start, items, p)
    ensures p == |data| ==> all == Err(NoMoreData)
    ensures p < |data| && data[p] == 'e' ==> all == Ok(Step(items, p - start + 1))
  {
    hide ParsePairs;
    PairsEnd(data[p..], p);
    ExtendedAll(items, p - start);
  }
}
