/** What the bencode codec promises: the round trip, locality, and the saved `info` bytes. */
module BencodeTheorems {
  import opened Common
  import opened Bencode

  // ---------------------------------------------------------------------------
  // Strings and integers
  // ---------------------------------------------------------------------------

  lemma {:induction false} ColonAfterDigits(d: string, t: string)
    requires AllDigits(d)
    ensures ColonAt(d + ":" + t) == Ok(|d|)
  {
    var s := d + ":" + t;
    if d == "" {
      assert s[0] == ':';
    } else {
      ColonAfterDigits(d[1..], t);
      assert s[1..] == d[1..] + ":" + t;
      assert IsDigit(s[0]);
    }
  }

  lemma StringRoundTrip(x: string, t: string, at: nat)
    requires |x| < TWO64
    ensures ParseByteString(EncodeString(x) + t, at) == Ok(Step(x, |EncodeString(x)|))
  {
    var d := Digits(|x|);
    DigitsRoundTrip(|x|);
    var s := EncodeString(x) + t;
    assert s == d + ":" + (x + t);
    ColonAfterDigits(d, x + t);
    hide Digits, ColonAt;
    assert s[..|d|] == d;
    assert s[|d| + 1..|d| + 1 + |x|] == x;
  }

  predicate NumberChars(d: string) {
    forall i :: 0 <= i < |d| ==> IsDigit(d[i]) || d[i] == '-'
  }

  lemma {:induction false} IntegerEndAfter(d: string, t: string)
    requires NumberChars(d)
    ensures IntegerEnd(d + "e" + t) == Ok(|d|)
  {
    var s := d + "e" + t;
    if d == "" {
      assert s[0] == 'e';
    } else {
      IntegerEndAfter(d[1..], t);
      assert s[1..] == d[1..] + "e" + t;
      assert s[0] == d[0];
    }
  }

  lemma {:induction false} DigitPrefixAll(d: string)
    requires AllDigits(d)
    ensures DigitPrefix(d) == d
  {
    if d != "" {
      DigitPrefixAll(d[1..]);
    }
  }

  lemma StollRoundTrip(n: int)
    requires -TWO63 <= n < TWO63
    ensures Stoll(ToString(n)) == Ok(n) && NumberChars(ToString(n))
  {
    var d := Digits(if n < 0 then -n else n);
    DigitsRoundTrip(if n < 0 then -n else n);
    DigitPrefixAll(d);
    var x := ToString(n);
    hide Digits, DigitPrefix, DecimalValue;
    if n < 0 {
      assert x[1..] == d;
    } else {
      assert IsDigit(x[0]);
    }
  }

  lemma IntegerRoundTrip(n: int, t: string)
    requires -TWO63 <= n < TWO63
    ensures ParseInteger(ToString(n) + "e" + t) == Ok(Step(n, |ToString(n)| + 1))
  {
    var x := ToString(n);
    StollRoundTrip(n);
    hide ToString, IntegerEnd, Stoll, NumberChars;
    IntegerEndAfter(x, t);
    assert (x + "e" + t)[..|x|] == x;
  }

  // ---------------------------------------------------------------------------
  // Lists and dictionaries
  // ---------------------------------------------------------------------------

  lemma {:induction false} ConcatCons(x: string, xs: seq<string>)
    ensures Concat([x] + xs) == x + Concat(xs)
  {
    if xs == [] {
      assert ([x] + xs)[..0] == [];
      assert Concat([x] + xs) == Concat([]) + x;
    } else {
      var n := |xs| - 1;
      ConcatCons(x, xs[..n]);
      assert ([x] + xs)[..n + 1] == [x] + xs[..n];
      ConcatAssoc(x, Concat(xs[..n]), xs[n]);
    }
  }

  lemma {:induction false} ConcatFieldsCons(f: Field, fs: seq<Field>)
    ensures ConcatFields([f] + fs) == EncodeString(f.key) + f.encoded + ConcatFields(fs)
  {
    hide EncodeString;
    if fs == [] {
      assert ([f] + fs)[..0] == [];
      assert ConcatFields([f] + fs) == ConcatFields([]) + (EncodeString(f.key) + f.encoded);
    } else {
      var n := |fs| - 1;
      ConcatFieldsCons(f, fs[..n]);
      assert ([f] + fs)[..n + 1] == [f] + fs[..n];
      ConcatAssoc(EncodeString(f.key) + f.encoded, ConcatFields(fs[..n]), EncodeString(fs[n].key) + fs[n].encoded);
    }
  }

  lemma FirstChar(v: BValue)
    ensures Encode(v) != "" && (Encode(v)[0] in ['i', 'l', 'd'] || IsDigit(Encode(v)[0]))
    ensures v.BStr? <==> IsDigit(Encode(v)[0])
    ensures Encode(v)[0] != 'e'
  {
    if v.BStr? {
      DigitsRoundTrip(|v.s|);
      assert Encode(v)[0] == Digits(|v.s|)[0];
    }
  }

  lemma KeyChar(x: string)
    ensures EncodeString(x) != "" && IsDigit(EncodeString(x)[0])
  {
    DigitsRoundTrip(|x|);
  }

  /** What parsing the encoding of a dictionary reads. */
  function ItemsOf(es: seq<Entry>): (r: seq<Item>) {
    if es == [] then [] else [Item(es[0].key, es[0].value, Encode(es[0].value))] + ItemsOf(es[1..])
  }

  /** Parsing the encoding of a value, whatever follows it, gives the value and takes exactly the
      bytes of the encoding. */
  lemma {:induction false} RoundTrip(v: BValue, t: string, at: nat)
    requires WellFormed(v)
    ensures ParseValue(Encode(v) + t, at) == Ok(Step(v, |Encode(v)|))
    decreases v, 0
  {
    hide Encode, ParseValue, ParseItems, ParsePairs, EncodeAll, EncodeEntries, Concat, ConcatFields, Before;
    match v {
      case BInt(n) => IntCase(n, t, at);
      case BStr(x) => StrCase(x, t, at);
      case BList(items) =>
        RoundTripItems(items, t, at + 1);
        ListCase(items, t, at);
      case BDict(es) =>
        RoundTripEntries(es, t, at + 1);
        DictCase(es, t, at);
    }
  }

  lemma IntCase(n: int, t: string, at: nat)
    requires -TWO63 <= n < TWO63
    ensures ParseValue(Encode(BInt(n)) + t, at) == Ok(Step(BInt(n), |Encode(BInt(n))|))
  {
    hide ParseInteger, ToString;
    IntegerRoundTrip(n, t);
    Tagged('i', ToString(n) + "e" + t);
    assert Encode(BInt(n)) + t == ['i'] + (ToString(n) + "e" + t);
  }

  lemma StrCase(x: string, t: string, at: nat)
    requires |x| < TWO64
    ensures ParseValue(Encode(BStr(x)) + t, at) == Ok(Step(BStr(x), |Encode(BStr(x))|))
  {
    hide ParseByteString, EncodeString;
    StringRoundTrip(x, t, at);
    KeyChar(x);
    assert (EncodeString(x) + t)[0] == EncodeString(x)[0];
  }

  lemma ListCase(items: seq<BValue>, t: string, at: nat)
    requires ParseItems(Concat(EncodeAll(items)) + ("e" + t), at + 1) == Ok(Step(items, |Concat(EncodeAll(items))| + 1))
    ensures ParseValue(Encode(BList(items)) + t, at) == Ok(Step(BList(items), |Encode(BList(items))|))
  {
    hide ParseItems, EncodeAll, Concat;
    var body := Concat(EncodeAll(items)) + ("e" + t);
    Tagged('l', body);
    assert Encode(BList(items)) + t == ['l'] + body;
  }

  lemma DictCase(es: seq<Entry>, t: string, at: nat)
    requires SortedKeys(es)
    requires ParsePairs(ConcatFields(EncodeEntries(es)) + ("e" + t), at + 1)
             == Ok(Step(ItemsOf(es), |ConcatFields(EncodeEntries(es))| + 1))
    ensures ParseValue(Encode(BDict(es)) + t, at) == Ok(Step(BDict(es), |Encode(BDict(es))|))
  {
    hide ParsePairs, EncodeEntries, ConcatFields, Collect, ItemsOf, SortedKeys;
    CollectSorted(es);
    var body := ConcatFields(EncodeEntries(es)) + ("e" + t);
    Tagged('d', body);
    assert Encode(BDict(es)) + t == ['d'] + body;
  }

  lemma Tagged(c: char, rest: string)
    ensures ([c] + rest)[0] == c && ([c] + rest)[1..] == rest
  {
  }

  lemma {:induction false} RoundTripItems(vs: seq<BValue>, t: string, at: nat)
    requires forall i :: 0 <= i < |vs| ==> WellFormed(vs[i])
    ensures ParseItems(Concat(EncodeAll(vs)) + ("e" + t), at) == Ok(Step(vs, |Concat(EncodeAll(vs))| + 1))
    decreases vs, 1
  {
    hide Concat, Encode, EncodeAll, WellFormed, ParseValue, ParseItems;
    if vs == [] {
      NoItems(t, at);
    } else {
      var first, rest := Encode(vs[0]), Concat(EncodeAll(vs[1..]));
      EncodeAllCons(vs);
      RoundTrip(vs[0], rest + ("e" + t), at);
      RoundTripItems(vs[1..], t, at + |first|);
      FirstChar(vs[0]);
      Joined(first, rest, "e" + t);
      ItemsStep(first, rest + ("e" + t), vs[0], vs[1..], |rest| + 1, at);
      assert [vs[0]] + vs[1..] == vs;
    }
  }

  lemma NoItems(t: string, at: nat)
    ensures Concat(EncodeAll([])) == "" && ParseItems("" + ("e" + t), at) == Ok(Step([], 1))
  {
    assert ("" + ("e" + t))[0] == 'e';
  }

  lemma EncodeAllCons(vs: seq<BValue>)
    requires vs != []
    ensures Concat(EncodeAll(vs)) == Encode(vs[0]) + Concat(EncodeAll(vs[1..]))
  {
    hide Concat;
    ConcatCons(Encode(vs[0]), EncodeAll(vs[1..]));
  }

  lemma EncodeEntriesCons(es: seq<Entry>)
    requires es != []
    ensures ConcatFields(EncodeEntries(es))
            == EncodeString(es[0].key) + Encode(es[0].value) + ConcatFields(EncodeEntries(es[1..]))
  {
    hide ConcatFields, EncodeString;
    ConcatFieldsCons(Field(es[0].key, Encode(es[0].value)), EncodeEntries(es[1..]));
  }

  lemma {:induction false} RoundTripEntries(es: seq<Entry>, t: string, at: nat)
    requires forall i :: 0 <= i < |es| ==> |es[i].key| < TWO64 && WellFormed(es[i].value)
    ensures ParsePairs(ConcatFields(EncodeEntries(es)) + ("e" + t), at)
            == Ok(Step(ItemsOf(es), |ConcatFields(EncodeEntries(es))| + 1))
    decreases es, 1
  {
    hide ConcatFields, Encode, EncodeString, WellFormed, ParseValue, ParsePair, EncodeEntries, ParsePairs;
    if es == [] {
      NoEntries(t, at);
    } else {
      var rest := ConcatFields(EncodeEntries(es[1..])) + ("e" + t);
      RoundTrip(es[0].value, rest, at + |EncodeString(es[0].key)|);
      PairRoundTrip(es[0], rest, at);
      RoundTripEntries(es[1..], t, at + |EncodeString(es[0].key) + Encode(es[0].value)|);
      EntriesStep(es, t, at);
    }
  }

  lemma NoEntries(t: string, at: nat)
    ensures ConcatFields(EncodeEntries([])) == "" && ParsePairs("" + ("e" + t), at) == Ok(Step([], 1))
  {
    assert ("" + ("e" + t))[0] == 'e';
  }

  lemma EntriesStep(es: seq<Entry>, t: string, at: nat)
    requires es != []
    requires var rest := ConcatFields(EncodeEntries(es[1..])) + ("e" + t);
             var e := es[0];
             && ParsePair(EncodeString(e.key) + Encode(e.value) + rest, at)
                == Ok(Step(Item(e.key, e.value, Encode(e.value)), |EncodeString(e.key) + Encode(e.value)|))
             && ParsePairs(rest, at + |EncodeString(e.key) + Encode(e.value)|)
                == Ok(Step(ItemsOf(es[1..]), |ConcatFields(EncodeEntries(es[1..]))| + 1))
    ensures ParsePairs(ConcatFields(EncodeEntries(es)) + ("e" + t), at)
            == Ok(Step(ItemsOf(es), |ConcatFields(EncodeEntries(es))| + 1))
  {
    hide ConcatFields, Encode, EncodeString, ParsePair, ParsePairs, EncodeEntries;
    var key, value := EncodeString(es[0].key), Encode(es[0].value);
    var rest := ConcatFields(EncodeEntries(es[1..]));
    EncodeEntriesCons(es);
    KeyChar(es[0].key);
    Joined(key + value, rest, "e" + t);
    assert (key + value)[0] == key[0];
    PairsStep(key + value, rest + ("e" + t), Item(es[0].key, es[0].value, value), ItemsOf(es[1..]), |rest| + 1, at);
  }

  /** One turn of the dictionary loop. */
  lemma PairsStep(first: string, rest: string, item: Item, items: seq<Item>, n: nat, at: nat)
    requires first != "" && first[0] != 'e'
    requires ParsePair(first + rest, at) == Ok(Step(item, |first|)) && ParsePairs(rest, at + |first|) == Ok(Step(items, n))
    ensures ParsePairs(first + rest, at) == Ok(Step([item] + items, |first| + n))
  {
    hide ParsePair;
    assert (first + rest)[0] == first[0] && (first + rest)[|first|..] == rest;
  }

  /** One turn of the list loop. */
  lemma ItemsStep(first: string, rest: string, v: BValue, vs: seq<BValue>, n: nat, at: nat)
    requires first != "" && first[0] != 'e'
    requires ParseValue(first + rest, at) == Ok(Step(v, |first|)) && ParseItems(rest, at + |first|) == Ok(Step(vs, n))
    ensures ParseItems(first + rest, at) == Ok(Step([v] + vs, |first| + n))
  {
    hide ParseValue;
    assert (first + rest)[0] == first[0] && (first + rest)[|first|..] == rest;
  }

  lemma Joined(a: string, b: string, c: string)
    requires a != ""
    ensures a + b + c == a + (b + c)
    ensures (a + b + c)[|a|..] == b + c && (a + b + c)[0] == a[0]
  {
  }

  lemma PairRoundTrip(e: Entry, t: string, at: nat)
    requires |e.key| < TWO64
    requires ParseValue(Encode(e.value) + t, at + |EncodeString(e.key)|) == Ok(Step(e.value, |Encode(e.value)|))
    ensures ParsePair(EncodeString(e.key) + Encode(e.value) + t, at)
            == Ok(Step(Item(e.key, e.value, Encode(e.value)), |EncodeString(e.key) + Encode(e.value)|))
  {
    var key, value := EncodeString(e.key), Encode(e.value);
    hide Encode, EncodeString, ParseValue, ParseByteString;
    ConcatAssoc(key, value, t);
    StringRoundTrip(e.key, value + t, at);
    var s := key + value + t;
    assert s[|key|..] == value + t;
    assert s[|key|..|key| + |value|] == value;
  }

  // ---------------------------------------------------------------------------
  // Dictionaries stay in key order
  // ---------------------------------------------------------------------------

  lemma {:induction false} BeforeTransitive(a: string, b: string, c: string)
    requires Before(a, b) && Before(b, c)
    ensures Before(a, c)
  {
    if a != "" && a[0] == b[0] && b[0] == c[0] {
      BeforeTransitive(a[1..], b[1..], c[1..]);
    }
  }

  lemma {:induction false} BeforeTotal(a: string, b: string)
    ensures a == b || Before(a, b) || Before(b, a)
  {
    if a != "" && b != "" && a[0] == b[0] {
      BeforeTotal(a[1..], b[1..]);
      assert a == [a[0]] + a[1..] && b == [b[0]] + b[1..];
    }
  }

  lemma {:induction false} BeforeIrreflexive(a: string)
    ensures !Before(a, a)
  {
    if a != "" {
      BeforeIrreflexive(a[1..]);
    }
  }

  /** Assigning a key after all others appends it. */
  lemma {:induction false} AssignLast(es: seq<Entry>, k: string, v: BValue)
    requires forall i :: 0 <= i < |es| ==> Before(es[i].key, k)
    ensures Assign(es, k, v) == es + [Entry(k, v)]
  {
    if es != [] {
      AssignLast(es[1..], k, v);
      BeforeIrreflexive(k);
      if Before(k, es[0].key) {
        BeforeTransitive(k, es[0].key, k);
      }
      assert [es[0]] + (es[1..] + [Entry(k, v)]) == es + [Entry(k, v)];
    }
  }

  lemma {:induction false} ItemsOfAt(es: seq<Entry>)
    ensures |ItemsOf(es)| == |es|
    ensures forall i :: 0 <= i < |es| ==> ItemsOf(es)[i] == Item(es[i].key, es[i].value, Encode(es[i].value))
  {
    if es != [] {
      ItemsOfAt(es[1..]);
    }
  }

  lemma CollectSorted(es: seq<Entry>)
    requires SortedKeys(es)
    ensures Collect(ItemsOf(es)) == es
  {
    ItemsOfAt(es);
    CollectPrefix(es, |es|);
    assert ItemsOf(es)[..|es|] == ItemsOf(es) && es[..|es|] == es;
  }

  lemma {:induction false} CollectPrefix(es: seq<Entry>, n: nat)
    requires SortedKeys(es) && n <= |es| && |ItemsOf(es)| == |es|
    ensures Collect(ItemsOf(es)[..n]) == es[..n]
  {
    hide ItemsOf, Before, Assign, Encode;
    if n > 0 {
      CollectPrefix(es, n - 1);
      ItemsOfAt(es);
      var items, last := ItemsOf(es), es[n - 1];
      assert items[..n][..n - 1] == items[..n - 1];
      assert Collect(items[..n]) == Assign(es[..n - 1], last.key, last.value);
      hide Collect;
      AssignLast(es[..n - 1], last.key, last.value);
      assert es[..n] == es[..n - 1] + [Entry(last.key, last.value)];
    }
  }

  lemma {:induction false} AssignKeys(es: seq<Entry>, k: string, v: BValue, x: Entry)
    requires x in Assign(es, k, v)
    ensures x == Entry(k, v) || x in es
  {
    if es != [] && es[0].key != k && !Before(k, es[0].key) && x != es[0] {
      AssignKeys(es[1..], k, v, x);
    }
  }

  lemma SortedCons(e: Entry, es: seq<Entry>)
    requires SortedKeys(es) && forall x :: x in es ==> Before(e.key, x.key)
    ensures SortedKeys([e] + es)
  {
    hide Before;
    var r := [e] + es;
    forall i, j | 0 <= i < j < |r|
      ensures Before(r[i].key, r[j].key)
    {
      assert r[j] == es[j - 1] && es[j - 1] in es;
    }
  }

  lemma {:induction false} AssignSorted(es: seq<Entry>, k: string, v: BValue)
    requires SortedKeys(es)
    ensures SortedKeys(Assign(es, k, v))
  {
    hide Before;
    if es != [] {
      var tail := es[1..];
      assert es == [es[0]] + tail;
      forall x | x in tail
        ensures Before(es[0].key, x.key)
      {
        var i :| 0 <= i < |tail| && tail[i] == x;
        assert es[i + 1] == x;
      }
      if es[0].key == k {
        SortedCons(Entry(k, v), tail);
      } else if Before(k, es[0].key) {
        forall x | x in es
          ensures Before(k, x.key)
        {
          if x != es[0] {
            BeforeTransitive(k, es[0].key, x.key);
          }
        }
        SortedCons(Entry(k, v), es);
      } else {
        BeforeTotal(k, es[0].key);
        AssignSorted(tail, k, v);
        forall x | x in Assign(tail, k, v)
          ensures Before(es[0].key, x.key)
        {
          AssignKeys(tail, k, v, x);
        }
        SortedCons(es[0], Assign(tail, k, v));
      }
    }
  }

  // ---------------------------------------------------------------------------
  // Locality: a parse depends only on the bytes it takes
  // ---------------------------------------------------------------------------

  predicate Agree(s: string, u: string, n: nat) {
    n <= |s| && n <= |u| && s[..n] == u[..n]
  }

  lemma AgreeTail(s: string, u: string, n: nat, k: nat)
    requires Agree(s, u, n) && k <= n
    ensures Agree(s[k..], u[k..], n - k) && Agree(s, u, k)
  {
    assert s[k..][..n - k] == s[..n][k..];
    assert u[k..][..n - k] == u[..n][k..];
    assert s[..k] == s[..n][..k];
    assert u[..k] == u[..n][..k];
  }

  lemma AgreeAt(s: string, u: string, n: nat)
    requires Agree(s, u, n) && n > 0
    ensures s != "" && u != "" && s[0] == u[0]
  {
    assert s[..n][0] == u[..n][0];
  }

  lemma AgreeSlice(s: string, u: string, n: nat, i: nat, j: nat)
    requires Agree(s, u, n) && i <= j <= n
    ensures s[i..j] == u[i..j]
  {
    assert s[..n][i..j] == s[i..j];
    assert u[..n][i..j] == u[i..j];
  }

  lemma {:induction false} LocalColon(s: string, u: string, i: nat)
    requires ColonAt(s) == Ok(i) && i < |s| && Agree(s, u, i + 1)
    ensures ColonAt(u) == Ok(i)
  {
    hide Agree;
    AgreeAt(s, u, i + 1);
    if s[0] != ':' {
      AgreeTail(s, u, i + 1, 1);
      LocalColon(s[1..], u[1..], i - 1);
    }
  }

  lemma LocalString(s: string, u: string, at: nat, bt: nat)
    requires ParseByteString(s, at).Ok? && Agree(s, u, ParseByteString(s, at).value.used)
    ensures ParseByteString(u, bt) == ParseByteString(s, at)
  {
    var n, i := ParseByteString(s, at).value.used, ColonAt(s).value;
    AgreeTail(s, u, n, i + 1);
    LocalColon(s, u, i);
    AgreeSlice(s, u, n, 0, i);
    AgreeSlice(s, u, n, i + 1, n);
    assert s[0..i] == s[..i] && u[0..i] == u[..i];
  }

  lemma {:induction false} LocalEnd(s: string, u: string, i: nat)
    requires IntegerEnd(s) == Ok(i) && Agree(s, u, i + 1)
    ensures IntegerEnd(u) == Ok(i)
  {
    hide Agree;
    AgreeAt(s, u, i + 1);
    if s[0] != 'e' {
      AgreeTail(s, u, i + 1, 1);
      LocalEnd(s[1..], u[1..], i - 1);
    }
  }

  lemma LocalInteger(s: string, u: string)
    requires ParseInteger(s).Ok? && Agree(s, u, ParseInteger(s).value.used)
    ensures ParseInteger(u) == ParseInteger(s)
  {
    var i := IntegerEnd(s).value;
    LocalEnd(s, u, i);
    AgreeTail(s, u, i + 1, i);
  }

  /** Two inputs that agree on the bytes a parse takes give the same parse. */
  lemma {:induction false} LocalValue(s: string, u: string, at: nat, bt: nat)
    requires ParseValue(s, at).Ok? && Agree(s, u, ParseValue(s, at).value.used)
    ensures ParseValue(u, bt) == ParseValue(s, at)
    decreases |s|, 0
  {
    hide Agree, ParseInteger, ParseByteString, ParseItems, ParsePairs, Collect;
    var n := ParseValue(s, at).value.used;
    AgreeAt(s, u, n);
    AgreeTail(s, u, n, 1);
    if s[0] == 'i' {
      LocalInteger(s[1..], u[1..]);
    } else if s[0] == 'l' {
      LocalItems(s[1..], u[1..], at + 1, bt + 1);
    } else if s[0] == 'd' {
      LocalPairs(s[1..], u[1..], at + 1, bt + 1);
    } else {
      LocalString(s, u, at, bt);
    }
  }

  lemma {:induction false} LocalItems(s: string, u: string, at: nat, bt: nat)
    requires ParseItems(s, at).Ok? && Agree(s, u, ParseItems(s, at).value.used)
    ensures ParseItems(u, bt) == ParseItems(s, at)
    decreases |s|, 1
  {
    hide Agree, ParseValue;
    var n := ParseItems(s, at).value.used;
    AgreeAt(s, u, n);
    if s[0] != 'e' {
      var k := ParseValue(s, at).value.used;
      AgreeTail(s, u, n, k);
      LocalValue(s, u, at, bt);
      LocalItems(s[k..], u[k..], at + k, bt + k);
    }
  }

  lemma {:induction false} LocalPair(s: string, u: string, at: nat, bt: nat)
    requires ParsePair(s, at).Ok? && Agree(s, u, ParsePair(s, at).value.used)
    ensures ParsePair(u, bt) == ParsePair(s, at)
    decreases |s|, 1
  {
    hide Agree, ParseValue, ParseByteString;
    var n, k := ParsePair(s, at).value.used, ParseByteString(s, at).value.used;
    AgreeTail(s, u, n, k);
    AgreeSlice(s, u, n, k, n);
    LocalString(s, u, at, bt);
    LocalValue(s[k..], u[k..], at + k, bt + k);
  }

  lemma {:induction false} LocalPairs(s: string, u: string, at: nat, bt: nat)
    requires ParsePairs(s, at).Ok? && Agree(s, u, ParsePairs(s, at).value.used)
    ensures ParsePairs(u, bt) == ParsePairs(s, at)
    decreases |s|, 2
  {
    hide Agree, ParsePair;
    var n := ParsePairs(s, at).value.used;
    AgreeAt(s, u, n);
    if s[0] != 'e' {
      var k := ParsePair(s, at).value.used;
      AgreeTail(s, u, n, k);
      LocalPair(s, u, at, bt);
      LocalPairs(s[k..], u[k..], at + k, bt + k);
    }
  }

  /** No encoding is a proper prefix of another. */
  lemma PrefixFree(v: BValue, w: BValue)
    requires WellFormed(v) && WellFormed(w) && Encode(v) <= Encode(w)
    ensures v == w
  {
    hide Encode, WellFormed, ParseValue;
    var t := Encode(w)[|Encode(v)|..];
    RoundTrip(v, t, 0);
    RoundTrip(w, "", 0);
    assert Encode(v) + t == Encode(w) && Encode(w) + "" == Encode(w);
  }

  // ---------------------------------------------------------------------------
  // The bytes saved for `info`
  // ---------------------------------------------------------------------------

  lemma {:induction false} AtMissing(es: seq<Entry>, k: string)
    requires forall i :: 0 <= i < |es| ==> es[i].key != k
    ensures At(es, k) == None
  {
    if es != [] {
      AtMissing(es[1..], k);
    }
  }

  lemma {:induction false} AssignAt(es: seq<Entry>, k: string, v: BValue, x: string)
    ensures At(Assign(es, k, v), x) == if x == k then Some(v) else At(es, x)
  {
    if es != [] {
      AssignAt(es[1..], k, v, x);
      var r := Assign(es, k, v);
      if es[0].key == k {
        assert r[1..] == es[1..];
      } else if Before(k, es[0].key) {
        assert r[1..] == es;
      } else {
        assert r[1..] == Assign(es[1..], k, v);
      }
    }
  }

  /** The bytes of an item alone parse to its value. */
  ghost predicate Faithful(item: Item) {
    ParseValue(item.bytes, 0) == Ok(Step(item.value, |item.bytes|))
  }

  /** The bytes a value took, alone, parse to it. */
  lemma Alone(s: string, at: nat)
    requires ParseValue(s, at).Ok?
    ensures var n := ParseValue(s, at).value.used; ParseValue(s[..n], 0) == ParseValue(s, at)
  {
    hide ParseValue;
    var n := ParseValue(s, at).value.used;
    assert s[..n][..n] == s[..n];
    LocalValue(s, s[..n], at, 0);
  }

  lemma PairFaithful(s: string, at: nat)
    requires ParsePair(s, at).Ok?
    ensures Faithful(ParsePair(s, at).value.value)
  {
    hide ParseValue, ParseByteString;
    var k := ParseByteString(s, at).value.used;
    var rest := s[k..];
    var n := ParseValue(rest, at + k).value.used;
    assert rest[..n] == s[k..k + n];
    Alone(rest, at + k);
  }

  lemma {:induction false} PairsFaithful(s: string, at: nat)
    requires ParsePairs(s, at).Ok?
    ensures forall item :: item in ParsePairs(s, at).value.value ==> Faithful(item)
    decreases |s|
  {
    hide ParsePair, Faithful;
    if s[0] != 'e' {
      PairFaithful(s, at);
      PairsFaithful(s[ParsePair(s, at).value.used..], at + ParsePair(s, at).value.used);
    }
  }

  lemma {:induction false} InfoOfItems(items: seq<Item>)
    requires forall item :: item in items ==> Faithful(item)
    ensures match At(Collect(items), INFO)
            case None => InfoBytes(items) == ""
            case Some(v) => ParseValue(InfoBytes(items), 0) == Ok(Step(v, |InfoBytes(items)|))
  {
    hide ParseValue, Assign;
    if items != [] {
      var n := |items| - 1;
      var last := items[n];
      InfoOfItems(items[..n]);
      AssignAt(Collect(items[..n]), last.key, last.value, INFO);
      assert Faithful(last);
    }
  }

  /** The bytes saved for `info` parse, alone, to the value stored under it; without an `info` key
      none are saved. */
  lemma InfoReparses(s: string)
    requires ParseTorrent(s).Ok?
    ensures var t := ParseTorrent(s).value.value;
            match At(t.entries, INFO)
            case None => t.info == ""
            case Some(v) => ParseValue(t.info, 0) == Ok(Step(v, |t.info|))
  {
    hide ParseValue, ParsePairs;
    PairsFaithful(s[1..], 1);
    InfoOfItems(ParsePairs(s[1..], 1).value.value);
  }

  // ---------------------------------------------------------------------------
  // What is parsed can be encoded
  // ---------------------------------------------------------------------------

  lemma StringFits(s: string, at: nat)
    requires ParseByteString(s, at).Ok?
    ensures |ParseByteString(s, at).value.value| < TWO64
  {
  }

  lemma {:induction false} ParsedIsWellFormed(s: string, at: nat)
    requires ParseValue(s, at).Ok?
    ensures WellFormed(ParseValue(s, at).value.value)
    decreases |s|, 0
  {
    hide ParseInteger, ParseByteString, ParseItems, ParsePairs, Collect, SortedKeys;
    if s[0] == 'i' {
      IntegerFits(s[1..]);
    } else if s[0] == 'l' {
      ParsedItems(s[1..], at + 1);
    } else if s[0] == 'd' {
      ParsedPairs(s[1..], at + 1);
      CollectWellFormed(ParsePairs(s[1..], at + 1).value.value);
    } else {
      StringFits(s, at);
    }
  }

  lemma IntegerFits(s: string)
    requires ParseInteger(s).Ok?
    ensures -TWO63 <= ParseInteger(s).value.value < TWO63
  {
  }

  lemma {:induction false} ParsedItems(s: string, at: nat)
    requires ParseItems(s, at).Ok?
    ensures forall v :: v in ParseItems(s, at).value.value ==> WellFormed(v)
    decreases |s|, 1
  {
    hide ParseValue, WellFormed;
    if s[0] != 'e' {
      ParsedIsWellFormed(s, at);
      ParsedItems(s[ParseValue(s, at).value.used..], at + ParseValue(s, at).value.used);
    }
  }

  ghost predicate ItemOk(item: Item) {
    |item.key| < TWO64 && WellFormed(item.value)
  }

  ghost predicate EntryOk(e: Entry) {
    |e.key| < TWO64 && WellFormed(e.value)
  }

  lemma {:induction false} ParsedPairs(s: string, at: nat)
    requires ParsePairs(s, at).Ok?
    ensures forall item :: item in ParsePairs(s, at).value.value ==> ItemOk(item)
    decreases |s|, 2
  {
    hide ParseValue, WellFormed, ParseByteString;
    if s[0] != 'e' {
      StringFits(s, at);
      ParsedIsWellFormed(s[ParseByteString(s, at).value.used..], at + ParseByteString(s, at).value.used);
      ParsedPairs(s[ParsePair(s, at).value.used..], at + ParsePair(s, at).value.used);
    }
  }

  lemma {:induction false} CollectOk(items: seq<Item>)
    requires forall item :: item in items ==> ItemOk(item)
    ensures SortedKeys(Collect(items))
    ensures forall e :: e in Collect(items) ==> EntryOk(e)
  {
    hide WellFormed, Before, Assign;
    if items != [] {
      var n := |items| - 1;
      var last, before := items[n], Collect(items[..n]);
      CollectOk(items[..n]);
      AssignSorted(before, last.key, last.value);
      assert ItemOk(last);
      forall e | e in Collect(items)
        ensures EntryOk(e)
      {
        AssignKeys(before, last.key, last.value, e);
      }
    }
  }

  lemma CollectWellFormed(items: seq<Item>)
    requires forall item :: item in items ==> ItemOk(item)
    ensures WellFormed(BDict(Collect(items)))
  {
    CollectOk(items);
    var es := Collect(items);
    hide SortedKeys, Collect;
    forall i | 0 <= i < |es|
      ensures |es[i].key| < TWO64 && WellFormed(es[i].value)
    {
      assert EntryOk(es[i]);
    }
  }

  /** Whatever was parsed, canonical or not, its canonical encoding parses back to it. */
  lemma ReencodeParses(s: string, t: string, at: nat, bt: nat)
    requires ParseValue(s, at).Ok?
    ensures var v := ParseValue(s, at).value.value; ParseValue(Encode(v) + t, bt) == Ok(Step(v, |Encode(v)|))
  {
    hide ParseValue, Encode, WellFormed;
    ParsedIsWellFormed(s, at);
    RoundTrip(ParseValue(s, at).value.value, t, bt);
  }

  // ---------------------------------------------------------------------------
  // Where the guard of parse_byte_string fails
  // ---------------------------------------------------------------------------

  /** A length at the front of `s`, followed by its colon, that carries the end of the string past
      the largest 64-bit position. */
  predicate LengthWraps(s: string, at: nat) {
    && ColonAt(s).Ok? && ColonAt(s).value < |s|
    && Stoul(s[..ColonAt(s).value]).Ok?
    && at + ColonAt(s).value + 1 + Stoul(s[..ColonAt(s).value]).value >= TWO64
  }

  /** For data that fits the address space, what happens to a string with a readable length: it is
      read exactly when it ends inside the data; otherwise the guard refuses it, except exactly when
      its end wraps, where the read leaves the buffer. */
  lemma GuardIsExact(s: string, at: nat, i: nat, length: nat)
    requires at + |s| < TWO64 && ColonAt(s) == Ok(i) && i < |s| && Stoul(s[..i]) == Ok(length)
    ensures ParseByteString(s, at).Ok? <==> i + 1 + length <= |s|
    ensures ParseByteString(s, at) == Err(UnfinishedString) <==> |s| < i + 1 + length && at + i + 1 + length < TWO64
    ensures ParseByteString(s, at) == Err(OutsideBuffer) <==> at + i + 1 + length >= TWO64
  {
    hide ColonAt, Stoul, GuardRefuses, DecimalValue, AllDigits;
    StoulFits(s[..i]);
    GuardMeans(at + i + 1, length, at + |s|);
  }

  lemma StoulFits(s: string)
    requires AllDigits(s) && Stoul(s).Ok?
    ensures Stoul(s).value < TWO64
  {
  }

  /** The guard refuses what ends outside the data, unless the sum wraps. */
  lemma GuardMeans(pos: nat, length: nat, size: nat)
    requires pos <= size < TWO64 && length < TWO64
    ensures GuardRefuses(pos, length, size) <==> size < pos + length < TWO64
  {
    if pos + length >= TWO64 {
      assert (pos + length) % TWO64 == pos + length - TWO64;
    }
  }

  lemma OutsideIff(s: string, at: nat)
    requires at + |s| < TWO64
    ensures ParseByteString(s, at) == Err(OutsideBuffer) <==> LengthWraps(s, at)
  {
    ErrorsOfNumbers(s);
    hide ColonAt, Stoul;
    if ColonAt(s).Ok? && ColonAt(s).value < |s| && Stoul(s[..ColonAt(s).value]).Ok? {
      GuardIsExact(s, at, ColonAt(s).value, Stoul(s[..ColonAt(s).value]).value);
    }
  }

  lemma {:induction false} ErrorsOfNumbers(s: string)
    ensures ColonAt(s) != Err(OutsideBuffer)
    ensures ColonAt(s).Ok? ==> Stoul(s[..ColonAt(s).value]) != Err(OutsideBuffer)
  {
    if s != "" && s[0] != ':' && IsDigit(s[0]) {
      ErrorsOfNumbers(s[1..]);
    }
  }

  lemma {:induction false} ErrorsOfIntegers(s: string)
    ensures IntegerEnd(s) != Err(OutsideBuffer) && ParseInteger(s) != Err(OutsideBuffer)
  {
    if s != "" && s[0] != 'e' {
      ErrorsOfIntegers(s[1..]);
    }
  }

  /** The largest length there is: the sum wraps to 20, which is within the 21 bytes. */
  lemma GuardFails()
    ensures var data := Digits(TWO64 - 1) + ":";
            |data| == 21 && ParseByteString(data, 0) == Err(OutsideBuffer) && ParseValue(data, 0) == Err(OutsideBuffer)
  {
    var d := Digits(TWO64 - 1);
    DigitsRoundTrip(TWO64 - 1);
    TwentyDigits();
    ColonAfterDigits(d, "");
    assert d + ":" + "" == d + ":";
    assert (d + ":")[..|d|] == d && (d + ":")[0] == d[0];
    hide Digits, ColonAt, DecimalValue;
    GuardIsExact(d + ":", 0, |d|, TWO64 - 1);
  }

  lemma TwentyDigits()
    ensures |Digits(TWO64 - 1)| == 20
  {
    assert Pow10(1) == 10 && Pow10(2) == 100;
    assert Pow10(3) == 1000 && Pow10(4) == 10000;
    Pow10Sum(4, 4);
    Pow10Sum(8, 8);
    Pow10Sum(16, 3);
    Pow10Sum(16, 4);
    DigitCount(TWO64 - 1, 20);
  }

  lemma {:induction false} Pow10Sum(a: nat, b: nat)
    ensures Pow10(a + b) == Pow10(a) * Pow10(b)
  {
    if b > 0 {
      Pow10Sum(a, b - 1);
    }
  }

  /** A number from 10^(k-1) up to 10^k has k digits. */
  lemma {:induction false} DigitCount(n: nat, k: nat)
    requires k > 0 && n < Pow10(k) && (k == 1 || n >= Pow10(k - 1))
    ensures |Digits(n)| == k
  {
    if k > 1 {
      Pow10Step(k);
      DigitCount(n / 10, k - 1);
    }
  }

  function Pow10(k: nat): (n: nat)
    ensures n > 0
  {
    if k == 0 then 1 else 10 * Pow10(k - 1)
  }

  lemma Pow10Step(k: nat)
    requires k > 1
    ensures Pow10(k) == 10 * Pow10(k - 1) && Pow10(k - 1) == 10 * Pow10(k - 2)
  {
  }

  // ---------------------------------------------------------------------------
  // Where the parser starts to read a string
  // ---------------------------------------------------------------------------

  /** The positions at which parsing the value at p calls parse_byte_string, up to the first error. */
  function ValueStarts(data: string, p: nat): (starts: seq<nat>)
    requires p <= |data|
    decreases |data| - p, 0
  {
    if p == |data| then []
    else if data[p] == 'l' then ItemStarts(data, p + 1)
    else if data[p] == 'd' then PairStarts(data, p + 1)
    else if IsDigit(data[p]) then [p]
    else []
  }

  function ItemStarts(data: string, p: nat): (starts: seq<nat>)
    requires p <= |data|
    decreases |data| - p, 1
  {
    if p == |data| || data[p] == 'e' then []
    else
      ValueStarts(data, p) +
      match ParseValue(data[p..], p)
      case Ok(step) => ItemStarts(data, p + step.used)
      case Err(_) => []
  }

  function OnePairStarts(data: string, p: nat): (starts: seq<nat>)
    requires p <= |data|
    decreases |data| - p, 1
  {
    [p] +
    match ParseByteString(data[p..], p)
    case Ok(key) => ValueStarts(data, p + key.used)
    case Err(_) => []
  }

  function PairStarts(data: string, p: nat): (starts: seq<nat>)
    requires p <= |data|
    decreases |data| - p, 2
  {
    if p == |data| || data[p] == 'e' then []
    else
      OnePairStarts(data, p) +
      match ParsePair(data[p..], p)
      case Ok(step) => PairStarts(data, p + step.used)
      case Err(_) => []
  }

  /** Some string that the parser starts to read has a length that wraps. */
  ghost predicate SomeWraps(data: string, starts: seq<nat>) {
    exists i :: 0 <= i < |starts| && starts[i] <= |data| && LengthWraps(data[starts[i]..], starts[i])
  }

  lemma SomeWrapsConcat(data: string, a: seq<nat>, b: seq<nat>)
    ensures SomeWraps(data, a + b) <==> SomeWraps(data, a) || SomeWraps(data, b)
  {
    hide LengthWraps;
    if SomeWraps(data, a) {
      var i :| 0 <= i < |a| && a[i] <= |data| && LengthWraps(data[a[i]..], a[i]);
      assert (a + b)[i] == a[i];
    }
    if SomeWraps(data, b) {
      var i :| 0 <= i < |b| && b[i] <= |data| && LengthWraps(data[b[i]..], b[i]);
      assert (a + b)[|a| + i] == b[i];
    }
    if SomeWraps(data, a + b) {
      var i :| 0 <= i < |a + b| && (a + b)[i] <= |data| && LengthWraps(data[(a + b)[i]..], (a + b)[i]);
      if i < |a| {
        assert a[i] == (a + b)[i];
      } else {
        assert b[i - |a|] == (a + b)[i];
      }
    }
  }

  lemma SomeWrapsOne(data: string, p: nat)
    requires p <= |data|
    ensures SomeWraps(data, [p]) <==> LengthWraps(data[p..], p)
  {
    assert [p][0] == p;
  }

  lemma NoneWraps(data: string)
    ensures !SomeWraps(data, [])
  {
  }

  lemma Suffix(data: string, p: nat, k: nat)
    requires p <= |data| && k <= |data[p..]|
    ensures p + k <= |data| && data[p..][k..] == data[p + k..]
  {
  }

  /** A read leaves the buffer if and only if one of the strings the parser starts to read has a length
      that wraps. */
  lemma {:induction false} OutsideIffSomeWraps(data: string, p: nat)
    requires |data| < TWO64 && p <= |data|
    ensures ParseValue(data[p..], p) == Err(OutsideBuffer) <==> SomeWraps(data, ValueStarts(data, p))
    decreases |data| - p, 0
  {
    hide SomeWraps, ParseByteString, ParseItems, ParsePairs, ParseInteger, Collect, ItemStarts, PairStarts, LengthWraps;
    NoneWraps(data);
    if p < |data| {
      Suffix(data, p, 1);
      assert data[p..][0] == data[p];
      if data[p] == 'i' {
        ErrorsOfIntegers(data[p..][1..]);
      } else if data[p] == 'l' {
        ItemsOutside(data, p + 1);
      } else if data[p] == 'd' {
        PairsOutside(data, p + 1);
      } else if IsDigit(data[p]) {
        OutsideIff(data[p..], p);
        SomeWrapsOne(data, p);
      }
    }
  }

  lemma {:induction false} ItemsOutside(data: string, p: nat)
    requires |data| < TWO64 && p <= |data|
    ensures ParseItems(data[p..], p) == Err(OutsideBuffer) <==> SomeWraps(data, ItemStarts(data, p))
    decreases |data| - p, 1
  {
    hide SomeWraps, ParseValue, ValueStarts;
    NoneWraps(data);
    if p < |data| && data[p] != 'e' {
      assert data[p..][0] == data[p];
      OutsideIffSomeWraps(data, p);
      ItemsOutsideStep(data, p);
      hide ParseItems, ItemStarts;
      if ParseValue(data[p..], p).Ok? {
        var q := p + ParseValue(data[p..], p).value.used;
        ItemsOutside(data, q);
        SomeWrapsConcat(data, ValueStarts(data, p), ItemStarts(data, q));
      }
    }
  }

  lemma ItemsOutsideStep(data: string, p: nat)
    requires p < |data| && data[p] != 'e'
    ensures var first := ParseValue(data[p..], p);
            && (first.Err? ==> ParseItems(data[p..], p) == Err(first.error) && ItemStarts(data, p) == ValueStarts(data, p))
            && (first.Ok? ==>
                  var q := p + first.value.used;
                  && q <= |data| && ItemStarts(data, p) == ValueStarts(data, p) + ItemStarts(data, q)
                  && (ParseItems(data[p..], p) == Err(OutsideBuffer) <==> ParseItems(data[q..], q) == Err(OutsideBuffer)))
  {
    hide ParseValue, ValueStarts;
    assert data[p..][0] == data[p];
    if ParseValue(data[p..], p).Ok? {
      Suffix(data, p, ParseValue(data[p..], p).value.used);
    } else {
      assert ValueStarts(data, p) + [] == ValueStarts(data, p);
    }
  }

  lemma {:induction false} PairOutside(data: string, p: nat)
    requires |data| < TWO64 && p <= |data|
    ensures ParsePair(data[p..], p) == Err(OutsideBuffer) <==> SomeWraps(data, OnePairStarts(data, p))
    decreases |data| - p, 1
  {
    hide SomeWraps, ParseValue, ValueStarts, ParseByteString, LengthWraps;
    OutsideIff(data[p..], p);
    SomeWrapsOne(data, p);
    match ParseByteString(data[p..], p)
    case Err(_) => assert [p] + [] == [p];
    case Ok(key) =>
      Suffix(data, p, key.used);
      OutsideIffSomeWraps(data, p + key.used);
      SomeWrapsConcat(data, [p], ValueStarts(data, p + key.used));
  }

  lemma {:induction false} PairsOutside(data: string, p: nat)
    requires |data| < TWO64 && p <= |data|
    ensures ParsePairs(data[p..], p) == Err(OutsideBuffer) <==> SomeWraps(data, PairStarts(data, p))
    decreases |data| - p, 2
  {
    hide SomeWraps, ParsePair, OnePairStarts;
    NoneWraps(data);
    if p < |data| && data[p] != 'e' {
      assert data[p..][0] == data[p];
      PairOutside(data, p);
      PairsOutsideStep(data, p);
      hide ParsePairs, PairStarts;
      if ParsePair(data[p..], p).Ok? {
        var q := p + ParsePair(data[p..], p).value.used;
        PairsOutside(data, q);
        SomeWrapsConcat(data, OnePairStarts(data, p), PairStarts(data, q));
      }
    }
  }

  lemma PairsOutsideStep(data: string, p: nat)
    requires p < |data| && data[p] != 'e'
    ensures var first := ParsePair(data[p..], p);
            && (first.Err? ==> ParsePairs(data[p..], p) == Err(first.error) && PairStarts(data, p) == OnePairStarts(data, p))
            && (first.Ok? ==>
                  var q := p + first.value.used;
                  && q <= |data| && PairStarts(data, p) == OnePairStarts(data, p) + PairStarts(data, q)
                  && (ParsePairs(data[p..], p) == Err(OutsideBuffer) <==> ParsePairs(data[q..], q) == Err(OutsideBuffer)))
  {
    hide ParsePair, OnePairStarts;
    assert data[p..][0] == data[p];
    if ParsePair(data[p..], p).Ok? {
      Suffix(data, p, ParsePair(data[p..], p).value.used);
    } else {
      assert OnePairStarts(data, p) + [] == OnePairStarts(data, p);
    }
  }
}
