/** The texts that stand for a bencoded value, canonical or not, and that the parser reads exactly
    those (src/bencode/bencode_parser.cpp). */
module BencodeGrammar {
  import opened Common
  import opened Bencode
  import opened BencodeTheorems

  // ---------------------------------------------------------------------------
  // The grammar
  // ---------------------------------------------------------------------------

  /** Any number of digits, leading zeros allowed, that give the length; a colon; the bytes. */
  predicate StringText(text: string, x: string) {
    exists k :: 0 < k < |text| && ColonSplits(text, k, x)
  }

  predicate ColonSplits(text: string, k: nat, x: string)
    requires k < |text|
  {
    AllDigits(text[..k]) && text[k] == ':' && text[k + 1..] == x && DecimalValue(text[..k]) == |x| < TWO64
  }

  /** The first k characters are all the digits before a minus sign or the end. */
  predicate Leading(rest: string, k: nat) {
    0 < k <= |rest| && AllDigits(rest[..k]) && (k == |rest| || rest[k] == '-')
  }

  ghost predicate Reads(rest: string, negative: bool, n: int) {
    exists k: nat :: Leading(rest, k) && n == (if negative then -1 else 1) * DecimalValue(rest[..k])
  }

  /** An optional minus sign and digits that fit 64 bits. Digits and signs from a second minus sign on
      are read and ignored. */
  ghost predicate IntegerText(body: string, n: int) {
    && NumberChars(body) && -TWO63 <= n < TWO63
    && if body != "" && body[0] == '-' then Reads(body[1..], true, n) else Reads(body, false, n)
  }

  predicate Wrapped(text: string, tag: char) {
    |text| >= 2 && text[0] == tag && text[|text| - 1] == 'e'
  }

  function Body(text: string): (body: string)
    requires |text| >= 2
  {
    text[1..|text| - 1]
  }

  ghost predicate Denotes(text: string, v: BValue)
    decreases |text|, 0
  {
    match v
    case BInt(n) => Wrapped(text, 'i') && IntegerText(Body(text), n)
    case BStr(x) => StringText(text, x)
    case BList(vs) => Wrapped(text, 'l') && ItemsText(Body(text), vs)
    case BDict(es) => Wrapped(text, 'd') && exists pairs :: PairsText(Body(text), pairs) && Merges(pairs, es)
  }

  ghost predicate ItemsText(text: string, vs: seq<BValue>)
    decreases |text|, 1
  {
    if vs == [] then text == ""
    else exists n :: 0 < n <= |text| && Denotes(text[..n], vs[0]) && ItemsText(text[n..], vs[1..])
  }

  /** Keys in any order, repeated or not. */
  ghost predicate PairsText(text: string, pairs: seq<Entry>)
    decreases |text|, 1
  {
    if pairs == [] then text == ""
    else exists k, n :: 0 < k < n <= |text| && StringText(text[..k], pairs[0].key)
                     && Denotes(text[k..n], pairs[0].value) && PairsText(text[n..], pairs[1..])
  }

  /** The value given last to a key. */
  function LastValue(pairs: seq<Entry>, k: string): (v: Option<BValue>) {
    if pairs == [] then None
    else
      var last := pairs[|pairs| - 1];
      if last.key == k then Some(last.value) else LastValue(pairs[..|pairs| - 1], k)
  }

  /** The dictionary is in key order and holds, for each key, the value given last. */
  ghost predicate Merges(pairs: seq<Entry>, es: seq<Entry>) {
    SortedKeys(es) && forall k :: At(es, k) == LastValue(pairs, k)
  }

  // ---------------------------------------------------------------------------
  // Dictionaries
  // ---------------------------------------------------------------------------

  predicate SamePairs(items: seq<Item>, pairs: seq<Entry>) {
    |items| == |pairs| && forall i :: 0 <= i < |items| ==> items[i].key == pairs[i].key && items[i].value == pairs[i].value
  }

  lemma {:induction false} CollectMerges(items: seq<Item>, pairs: seq<Entry>)
    requires SamePairs(items, pairs)
    ensures Merges(pairs, Collect(items))
  {
    hide Before;
    if items != [] {
      var n := |items| - 1;
      var last := items[n];
      assert SamePairs(items[..n], pairs[..n]);
      CollectMerges(items[..n], pairs[..n]);
      var before := Collect(items[..n]);
      AssignSorted(before, last.key, last.value);
      forall k
        ensures At(Collect(items), k) == LastValue(pairs, k)
      {
        AssignAt(before, last.key, last.value, k);
      }
    }
  }

  lemma BelowAll(es: seq<Entry>, k: string)
    requires SortedKeys(es) && (es == [] || Before(k, es[0].key))
    ensures At(es, k) == None
  {
    hide Before;
    forall i | 0 <= i < |es|
      ensures es[i].key != k
    {
      BeforeIrreflexive(k);
      if i > 0 {
        BeforeTransitive(k, es[0].key, es[i].key);
      }
    }
    AtMissing(es, k);
  }

  /** Two dictionaries in key order with the same answers are the same. */
  lemma {:induction false} SameAnswers(a: seq<Entry>, b: seq<Entry>)
    requires SortedKeys(a) && SortedKeys(b) && forall k :: At(a, k) == At(b, k)
    ensures a == b
  {
    hide Before, At;
    if a == [] && b == [] {
    } else if a == [] || b == [] || a[0].key != b[0].key {
      FirstDiffers(a, b);
    } else {
      var k := a[0].key;
      assert At(a, k) == At(b, k);
      assert a[0] == b[0] by { FirstAnswer(a); FirstAnswer(b); }
      forall x
        ensures At(a[1..], x) == At(b[1..], x)
      {
        assert At(a, x) == At(b, x);
        TailAnswer(a, x);
        TailAnswer(b, x);
      }
      SameAnswers(a[1..], b[1..]);
      assert a == [a[0]] + a[1..] && b == [b[0]] + b[1..];
    }
  }

  lemma FirstAnswer(es: seq<Entry>)
    requires es != []
    ensures At(es, es[0].key) == Some(es[0].value)
  {
  }

  lemma TailAnswer(es: seq<Entry>, x: string)
    requires SortedKeys(es) && es != []
    ensures At(es[1..], x) == if x == es[0].key then None else At(es, x)
  {
    if x == es[0].key {
      BelowAll(es[1..], x);
    }
  }

  lemma FirstDiffers(a: seq<Entry>, b: seq<Entry>)
    requires SortedKeys(a) && SortedKeys(b) && (a != [] || b != [])
    requires a != [] && b != [] ==> a[0].key != b[0].key
    ensures exists k :: At(a, k) != At(b, k)
  {
    hide Before, At;
    if b == [] || (a != [] && Before(a[0].key, b[0].key)) {
      FirstAnswer(a);
      BelowAll(b, a[0].key);
      assert At(a, a[0].key) != At(b, a[0].key);
    } else {
      if a != [] {
        BeforeTotal(a[0].key, b[0].key);
      }
      FirstAnswer(b);
      BelowAll(a, b[0].key);
      assert At(a, b[0].key) != At(b, b[0].key);
    }
  }

  // ---------------------------------------------------------------------------
  // Strings and integers
  // ---------------------------------------------------------------------------

  lemma StringSound(s: string, at: nat)
    requires ParseByteString(s, at).Ok?
    ensures var r := ParseByteString(s, at).value; StringText(s[..r.used], r.value)
  {
    var i, r := ColonAt(s).value, ParseByteString(s, at).value;
    var text := s[..r.used];
    hide ColonAt, DecimalValue;
    assert text[..i] == s[..i] && text[i] == ':' && text[i + 1..] == r.value;
    assert ColonSplits(text, i, r.value);
  }

  lemma StringComplete(text: string, x: string, t: string, at: nat)
    requires StringText(text, x)
    ensures ParseByteString(text + t, at) == Ok(Step(x, |text|)) && IsDigit(text[0])
  {
    hide ParseByteString, ColonSplits;
    var k :| 0 < k < |text| && ColonSplits(text, k, x);
    SplitComplete(text, k, x, t, at);
  }

  lemma SplitComplete(text: string, k: nat, x: string, t: string, at: nat)
    requires 0 < k < |text| && ColonSplits(text, k, x)
    ensures ParseByteString(text + t, at) == Ok(Step(x, |text|)) && IsDigit(text[0])
  {
    var d, s := text[..k], text + t;
    assert IsDigit(d[0]);
    assert s == d + ":" + (x + t);
    ColonAfterDigits(d, x + t);
    hide ColonAt, DecimalValue, IsDigit;
    assert s[..k] == d;
    assert s[k + 1..k + 1 + |x|] == x;
  }

  lemma {:induction false} EndOfNumber(s: string)
    requires IntegerEnd(s).Ok?
    ensures NumberChars(s[..IntegerEnd(s).value])
  {
    if s[0] != 'e' {
      EndOfNumber(s[1..]);
      var i := IntegerEnd(s).value;
      assert s[..i] == [s[0]] + s[1..][..i - 1];
    }
  }

  lemma {:induction false} PrefixIsLeading(rest: string)
    requires NumberChars(rest)
    ensures DigitPrefix(rest) != "" ==> Leading(rest, |DigitPrefix(rest)|) && rest[..|DigitPrefix(rest)|] == DigitPrefix(rest)
    ensures DigitPrefix(rest) == "" ==> rest == "" || rest[0] == '-'
  {
    if rest != "" && IsDigit(rest[0]) {
      PrefixIsLeading(rest[1..]);
      var d := DigitPrefix(rest[1..]);
      assert DigitPrefix(rest) == [rest[0]] + d;
      assert rest == [rest[0]] + rest[1..];
    }
  }

  lemma {:induction false} LeadingIsPrefix(rest: string, k: nat)
    requires Leading(rest, k)
    ensures DigitPrefix(rest) == rest[..k]
  {
    assert IsDigit(rest[..k][0]);
    assert rest[..k] == [rest[0]] + rest[1..][..k - 1];
    if k > 1 {
      var d := rest[1..][..k - 1];
      forall i | 0 <= i < |d|
        ensures IsDigit(d[i])
      {
        assert d[i] == rest[..k][i + 1];
      }
      LeadingIsPrefix(rest[1..], k - 1);
    } else {
      assert DigitPrefix(rest[1..]) == "";
    }
  }

  lemma RestOfNumber(body: string)
    requires NumberChars(body) && body != ""
    ensures NumberChars(body[1..])
  {
    var rest := body[1..];
    forall i | 0 <= i < |rest|
      ensures IsDigit(rest[i]) || rest[i] == '-'
    {
      assert rest[i] == body[i + 1];
    }
  }

  lemma StollIff(body: string, n: int)
    requires NumberChars(body)
    ensures Stoll(body) == Ok(n) <==> IntegerText(body, n)
  {
    hide Stoll, IntegerText;
    if Stoll(body) == Ok(n) {
      StollSound(body, n);
    }
    if IntegerText(body, n) {
      StollComplete(body, n);
    }
  }

  lemma StollSound(body: string, n: int)
    requires NumberChars(body) && Stoll(body) == Ok(n)
    ensures IntegerText(body, n)
  {
    var negative := body != "" && body[0] == '-';
    var rest := if negative then body[1..] else body;
    assert NumberChars(rest) by { if negative { RestOfNumber(body); } }
    PrefixIsLeading(rest);
    hide DigitPrefix, DecimalValue, Leading, NumberChars;
    assert Reads(rest, negative, n) by {
      assert rest[..|DigitPrefix(rest)|] == DigitPrefix(rest);
    }
  }

  lemma StollComplete(body: string, n: int)
    requires IntegerText(body, n)
    ensures Stoll(body) == Ok(n)
  {
    hide DigitPrefix, DecimalValue, NumberChars;
    var negative := body != "" && body[0] == '-';
    var rest := if negative then body[1..] else body;
    assert Reads(rest, negative, n);
    var k: nat :| Leading(rest, k) && n == (if negative then -1 else 1) * DecimalValue(rest[..k]);
    LeadingIsPrefix(rest, k);
  }

  lemma IntegerSound(s: string)
    requires ParseInteger(s).Ok?
    ensures var r := ParseInteger(s).value; s[r.used - 1] == 'e' && IntegerText(s[..r.used - 1], r.value)
  {
    EndOfNumber(s);
    StollIff(s[..IntegerEnd(s).value], ParseInteger(s).value.value);
  }

  lemma IntegerComplete(body: string, n: int, t: string)
    requires IntegerText(body, n)
    ensures ParseInteger(body + ("e" + t)) == Ok(Step(n, |body| + 1))
  {
    assert NumberChars(body);
    StollIff(body, n);
    IntegerEndAfter(body, t);
    hide IntegerText, Stoll, IntegerEnd, NumberChars;
    assert body + ("e" + t) == body + "e" + t;
    assert (body + ("e" + t))[..|body|] == body;
  }

  // ---------------------------------------------------------------------------
  // Whatever is read stands for the value
  // ---------------------------------------------------------------------------

  lemma WrapsBody(s: string, n: nat)
    requires 1 <= n < |s| && s[n] == 'e'
    ensures Wrapped(s[..n + 1], s[0]) && Body(s[..n + 1]) == s[1..][..n - 1]
  {
  }

  lemma {:induction false} Sound(s: string, at: nat)
    requires ParseValue(s, at).Ok?
    ensures var r := ParseValue(s, at).value; Denotes(s[..r.used], r.value)
    decreases |s|, 0
  {
    hide Before, IsDigit, ParseByteString, ParseInteger, ParseItems, ParsePairs, IntegerText, StringText, ItemsText, PairsText,
         Collect, Merges, Denotes, Wrapped;
    if s[0] == 'i' {
      IntegerCase(s);
    } else if s[0] == 'l' {
      ItemsSound(s[1..], at + 1);
      ListText(s, at);
    } else if s[0] == 'd' {
      var pairs := PairsSound(s[1..], at + 1);
      DictText(s, at, pairs);
    } else {
      StringSound(s, at);
      DenotesString(s[..ParseByteString(s, at).value.used], ParseByteString(s, at).value.value);
    }
  }

  lemma IntegerCase(s: string)
    requires s != "" && s[0] == 'i' && ParseInteger(s[1..]).Ok?
    ensures var r := ParseInteger(s[1..]).value; Denotes(s[..1 + r.used], BInt(r.value))
  {
    hide ParseInteger, IntegerText, Wrapped;
    var r := ParseInteger(s[1..]).value;
    IntegerSound(s[1..]);
    WrapsBody(s, r.used);
    DenotesInteger(s[..1 + r.used], r.value);
  }

  lemma ListText(s: string, at: nat)
    requires s != "" && s[0] == 'l' && ParseItems(s[1..], at + 1).Ok?
    requires var r := ParseItems(s[1..], at + 1).value; s[1..][r.used - 1] == 'e' && ItemsText(s[1..][..r.used - 1], r.value)
    ensures var r := ParseItems(s[1..], at + 1).value; Denotes(s[..1 + r.used], BList(r.value))
  {
    hide ParseItems, ItemsText, Wrapped;
    var r := ParseItems(s[1..], at + 1).value;
    WrapsBody(s, r.used);
    DenotesList(s[..1 + r.used], r.value);
  }

  lemma DictText(s: string, at: nat, pairs: seq<Entry>)
    requires s != "" && s[0] == 'd' && ParsePairs(s[1..], at + 1).Ok?
    requires var r := ParsePairs(s[1..], at + 1).value;
             s[1..][r.used - 1] == 'e' && PairsText(s[1..][..r.used - 1], pairs) && SamePairs(r.value, pairs)
    ensures var r := ParsePairs(s[1..], at + 1).value; Denotes(s[..1 + r.used], BDict(Collect(r.value)))
  {
    hide ParsePairs, PairsText, Wrapped, SamePairs, Merges, Collect;
    var r := ParsePairs(s[1..], at + 1).value;
    CollectMerges(r.value, pairs);
    WrapsBody(s, r.used);
    DenotesDict(s[..1 + r.used], pairs, Collect(r.value));
  }

  lemma DenotesInteger(text: string, n: int)
    requires Wrapped(text, 'i') && IntegerText(Body(text), n)
    ensures Denotes(text, BInt(n))
  {
  }

  lemma DenotesString(text: string, x: string)
    requires StringText(text, x)
    ensures Denotes(text, BStr(x))
  {
  }

  lemma DenotesList(text: string, vs: seq<BValue>)
    requires Wrapped(text, 'l') && ItemsText(Body(text), vs)
    ensures Denotes(text, BList(vs))
  {
  }

  lemma DenotesDict(text: string, pairs: seq<Entry>, es: seq<Entry>)
    requires Wrapped(text, 'd') && PairsText(Body(text), pairs) && Merges(pairs, es)
    ensures Denotes(text, BDict(es))
  {
  }

  lemma {:induction false} ItemsSound(s: string, at: nat)
    requires ParseItems(s, at).Ok?
    ensures var r := ParseItems(s, at).value; s[r.used - 1] == 'e' && ItemsText(s[..r.used - 1], r.value)
    decreases |s|, 1
  {
    hide ParseValue, Denotes, ParseItems, ItemsText;
    ItemsTail(s, at);
    if s[0] == 'e' {
      NoItemsText();
    } else {
      var n, r := ParseValue(s, at).value.used, ParseItems(s, at).value;
      Sound(s, at);
      ItemsSound(s[n..], at + n);
      var text := s[..r.used - 1];
      assert text[..n] == s[..n] && text[n..] == s[n..][..r.used - n - 1];
      ItemsTextCons(text, n, ParseValue(s, at).value.value, ParseItems(s[n..], at + n).value.value);
    }
  }

  lemma NoItemsText()
    ensures ItemsText("", []) && PairsText("", [])
  {
  }

  lemma ItemsTextCons(text: string, n: nat, v: BValue, vs: seq<BValue>)
    requires 0 < n <= |text| && Denotes(text[..n], v) && ItemsText(text[n..], vs)
    ensures ItemsText(text, [v] + vs)
  {
    hide Denotes;
    assert ([v] + vs)[0] == v && ([v] + vs)[1..] == vs;
  }

  lemma ItemsTail(s: string, at: nat)
    requires ParseItems(s, at).Ok?
    ensures s != ""
    ensures s[0] == 'e' ==> ParseItems(s, at) == Ok(Step([], 1))
    ensures s[0] != 'e' ==>
              && ParseValue(s, at).Ok?
              && var first := ParseValue(s, at).value;
                 && ParseItems(s[first.used..], at + first.used).Ok?
                 && var rest := ParseItems(s[first.used..], at + first.used).value;
                    ParseItems(s, at) == Ok(Step([first.value] + rest.value, first.used + rest.used))
  {
  }

  lemma {:induction false} PairsSound(s: string, at: nat) returns (pairs: seq<Entry>)
    requires ParsePairs(s, at).Ok?
    ensures var r := ParsePairs(s, at).value;
            s[r.used - 1] == 'e' && PairsText(s[..r.used - 1], pairs) && SamePairs(r.value, pairs)
    decreases |s|, 2
  {
    hide ParseValue, Denotes, ParsePairs, ParsePair, ParseByteString, StringText, PairsText;
    PairsTail(s, at);
    if s[0] == 'e' {
      pairs := [];
      NoItemsText();
    } else {
      PairParts(s, at);
      var first, r := ParsePair(s, at).value, ParsePairs(s, at).value;
      var k, n := ParseByteString(s, at).value.used, first.used;
      StringSound(s, at);
      Sound(s[k..], at + k);
      var rest := PairsSound(s[n..], at + n);
      var e := Entry(first.value.key, first.value.value);
      pairs := [e] + rest;
      var text := s[..r.used - 1];
      assert text[..k] == s[..k] && text[k..n] == s[k..][..n - k] && text[n..] == s[n..][..r.used - n - 1];
      PairsTextCons(text, k, n, e, rest);
    }
  }

  lemma PairsTextCons(text: string, k: nat, n: nat, e: Entry, rest: seq<Entry>)
    requires 0 < k < n <= |text| && StringText(text[..k], e.key) && Denotes(text[k..n], e.value) && PairsText(text[n..], rest)
    ensures PairsText(text, [e] + rest)
  {
    hide Denotes, StringText;
    assert ([e] + rest)[0] == e && ([e] + rest)[1..] == rest;
  }

  lemma PairParts(s: string, at: nat)
    requires ParsePair(s, at).Ok?
    ensures ParseByteString(s, at).Ok?
    ensures var key := ParseByteString(s, at).value;
            && ParseValue(s[key.used..], at + key.used).Ok?
            && var v := ParseValue(s[key.used..], at + key.used).value;
               && ParsePair(s, at).value.used == key.used + v.used
               && ParsePair(s, at).value.value.key == key.value && ParsePair(s, at).value.value.value == v.value
  {
    hide ParseByteString, ParseValue;
  }

  lemma PairsTail(s: string, at: nat)
    requires ParsePairs(s, at).Ok?
    ensures s != ""
    ensures s[0] == 'e' ==> ParsePairs(s, at) == Ok(Step([], 1))
    ensures s[0] != 'e' ==>
              && ParsePair(s, at).Ok?
              && var first := ParsePair(s, at).value;
                 && ParsePairs(s[first.used..], at + first.used).Ok?
                 && var rest := ParsePairs(s[first.used..], at + first.used).value;
                    ParsePairs(s, at) == Ok(Step([first.value] + rest.value, first.used + rest.used))
  {
    hide ParsePair;
  }

  // ---------------------------------------------------------------------------
  // Whatever stands for a value is read
  // ---------------------------------------------------------------------------

  lemma FirstOf(text: string, v: BValue)
    requires Denotes(text, v)
    ensures text != "" && text[0] != 'e'
  {
    if v.BStr? {
      StringComplete(text, v.s, "", 0);
    }
  }

  lemma Unwrap(text: string, tag: char, t: string)
    requires Wrapped(text, tag)
    ensures (text + t)[0] == tag && (text + t)[1..] == Body(text) + ("e" + t)
  {
    assert text == [tag] + Body(text) + "e";
  }

  lemma {:induction false} Complete(text: string, v: BValue, t: string, at: nat)
    requires Denotes(text, v)
    ensures ParseValue(text + t, at) == Ok(Step(v, |text|))
    decreases |text|, 0
  {
    hide ParseByteString, ParseInteger, ParseItems, ParsePairs, IntegerText, StringText, ItemsText, PairsText, Collect;
    match v
    case BInt(n) =>
      Unwrap(text, 'i', t);
      IntegerComplete(Body(text), n, t);
    case BStr(x) =>
      StringComplete(text, x, t, at);
    case BList(vs) =>
      Unwrap(text, 'l', t);
      ItemsComplete(Body(text), vs, t, at + 1);
    case BDict(es) =>
      Unwrap(text, 'd', t);
      var pairs :| PairsText(Body(text), pairs) && Merges(pairs, es);
      var items := PairsComplete(Body(text), pairs, t, at + 1);
      CollectMerges(items, pairs);
      SameAnswers(Collect(items), es);
  }

  lemma {:induction false} ItemsComplete(text: string, vs: seq<BValue>, t: string, at: nat)
    requires ItemsText(text, vs)
    ensures ParseItems(text + ("e" + t), at) == Ok(Step(vs, |text| + 1))
    decreases |text|, 1
  {
    hide ParseValue, ParseItems, Denotes;
    if vs == [] {
      NoItems(t, at);
    } else {
      var n :| 0 < n <= |text| && Denotes(text[..n], vs[0]) && ItemsText(text[n..], vs[1..]);
      var first, rest := text[..n], text[n..] + ("e" + t);
      FirstOf(first, vs[0]);
      Complete(first, vs[0], rest, at);
      ItemsComplete(text[n..], vs[1..], t, at + n);
      ItemsStep(first, rest, vs[0], vs[1..], |text[n..]| + 1, at);
      assert first + rest == text + ("e" + t);
      assert [vs[0]] + vs[1..] == vs;
    }
  }

  lemma {:induction false} PairsComplete(text: string, pairs: seq<Entry>, t: string, at: nat) returns (items: seq<Item>)
    requires PairsText(text, pairs)
    ensures ParsePairs(text + ("e" + t), at) == Ok(Step(items, |text| + 1)) && SamePairs(items, pairs)
    decreases |text|, 1
  {
    hide ParsePair, ParsePairs, ParseValue, Denotes, StringText, PairsText;
    if pairs == [] {
      items := [];
      NoPairsText(text);
      NoEntries(t, at);
    } else {
      var k, n := PairsTextSplit(text, pairs);
      var rest := text[n..] + ("e" + t);
      var e := pairs[0];
      Complete(text[k..n], e.value, rest, at + k);
      PairComplete(text[..k], text[k..n], e, rest, at);
      var others := PairsComplete(text[n..], pairs[1..], t, at + n);
      var item := Item(e.key, e.value, text[k..n]);
      assert text[..k] + text[k..n] == text[..n];
      PairsStep(text[..n], rest, item, others, |text[n..]| + 1, at);
      assert text[..n] + rest == text + ("e" + t);
      items := [item] + others;
    }
  }

  lemma NoPairsText(text: string)
    requires PairsText(text, [])
    ensures text == ""
  {
  }

  lemma PairsTextSplit(text: string, pairs: seq<Entry>) returns (k: nat, n: nat)
    requires PairsText(text, pairs) && pairs != []
    ensures 0 < k < n <= |text| && StringText(text[..k], pairs[0].key)
    ensures Denotes(text[k..n], pairs[0].value) && PairsText(text[n..], pairs[1..])
  {
    hide Denotes, StringText;
    k, n :| 0 < k < n <= |text| && StringText(text[..k], pairs[0].key)
         && Denotes(text[k..n], pairs[0].value) && PairsText(text[n..], pairs[1..]);
  }

  lemma PairComplete(key: string, value: string, e: Entry, t: string, at: nat)
    requires StringText(key, e.key) && ParseValue(value + t, at + |key|) == Ok(Step(e.value, |value|))
    ensures key != "" && key[0] != 'e'
    ensures ParsePair(key + value + t, at) == Ok(Step(Item(e.key, e.value, value), |key + value|))
  {
    hide ParseValue, ParseByteString, StringText;
    StringComplete(key, e.key, value + t, at);
    var s := key + value + t;
    assert s == key + (value + t);
    assert s[|key|..] == value + t && s[|key|..|key| + |value|] == value;
  }

  // ---------------------------------------------------------------------------
  // The theorem
  // ---------------------------------------------------------------------------

  /** The parser reads a value from the first n bytes, at any position and whatever follows, exactly if
      those bytes stand for it. */
  lemma ReadsExactly(s: string, at: nat, v: BValue, n: nat)
    ensures ParseValue(s, at) == Ok(Step(v, n)) <==> n <= |s| && Denotes(s[..n], v)
  {
    hide ParseValue, Denotes;
    if ParseValue(s, at) == Ok(Step(v, n)) {
      Sound(s, at);
    }
    if n <= |s| && Denotes(s[..n], v) {
      Complete(s[..n], v, s[n..], at);
      assert s[..n] + s[n..] == s;
    }
  }

  /** The same for a .torrent file, which must be a dictionary. */
  lemma TorrentReadsExactly(s: string, es: seq<Entry>, n: nat)
    ensures ParseTorrent(s).Ok? && ParseTorrent(s).value.used == n && ParseTorrent(s).value.value.entries == es
            <==> n <= |s| && Denotes(s[..n], BDict(es))
  {
    ReadsExactly(s, 0, BDict(es), n);
    hide ParsePairs, ParseItems, ParseInteger, ParseByteString, Denotes, Collect;
  }
}
