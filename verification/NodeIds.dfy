/** 160-bit node ids and the XOR metric (src/dht/node_id.cpp). */
module NodeIds {

  type Octet = n: nat | n < 256

  type NodeId = s: seq<Octet> | |s| == 20 witness seq(20, _ => 0)

  // ---------------------------------------------------------------------------
  // Bits of a number
  // ---------------------------------------------------------------------------

  function Pow2(k: nat): (p: nat)
    ensures p > 0
  {
    if k == 0 then 1 else 2 * Pow2(k - 1)
  }

  /** n & (1 << k) */
  predicate Bit(n: nat, k: nat) {
    if k == 0 then n % 2 == 1 else Bit(n / 2, k - 1)
  }

  /** n >> k */
  function Upper(n: nat, k: nat): (u: nat) {
    if k == 0 then n else Upper(n / 2, k - 1)
  }

  /** n with bit k set or cleared: n | (1 << k), n & ~(1 << k) */
  function WithBit(n: nat, k: nat, v: bool): (r: nat) {
    if k == 0 then 2 * (n / 2) + (if v then 1 else 0) else 2 * WithBit(n / 2, k - 1, v) + n % 2
  }

  /** a ^ b */
  function Xor(a: nat, b: nat): (x: nat) {
    if a == 0 && b == 0 then 0 else 2 * Xor(a / 2, b / 2) + (a % 2 + b % 2) % 2
  }

  lemma {:induction false} XorBound(a: nat, b: nat, k: nat)
    requires a < Pow2(k) && b < Pow2(k)
    ensures Xor(a, b) < Pow2(k)
  {
    if k > 0 {
      XorBound(a / 2, b / 2, k - 1);
    }
  }

  lemma {:induction false} XorZero(a: nat, b: nat)
    ensures Xor(a, b) == 0 <==> a == b
  {
    if a != 0 || b != 0 {
      XorZero(a / 2, b / 2);
    }
  }

  /** XOR with the same id loses nothing. */
  lemma {:induction false} XorCancels(t: nat, a: nat, b: nat)
    requires Xor(t, a) == Xor(t, b)
    ensures a == b
    decreases t + a + b
  {
    hide Xor;
    if t != 0 || a != 0 || b != 0 {
      XorHalf(t, a);
      XorHalf(t, b);
      XorCancels(t / 2, a / 2, b / 2);
      SameParity(t, a, b);
    }
  }

  lemma SameParity(t: nat, a: nat, b: nat)
    requires (t % 2 + a % 2) % 2 == (t % 2 + b % 2) % 2 && a / 2 == b / 2
    ensures a == b
  {
  }

  lemma XorHalf(a: nat, b: nat)
    ensures Xor(a, b) / 2 == Xor(a / 2, b / 2)
    ensures Xor(a, b) % 2 == (a % 2 + b % 2) % 2
  {
  }

  /** Numbers that agree above bit k and differ at bit k are 2^k .. 2^(k+1) apart. */
  lemma {:induction false} XorTopBit(a: nat, b: nat, k: nat)
    requires Upper(a, k + 1) == Upper(b, k + 1) && Bit(a, k) != Bit(b, k)
    ensures Pow2(k) <= Xor(a, b) < Pow2(k + 1)
  {
    XorHalf(a, b);
    if k == 0 {
      XorZero(a / 2, b / 2);
      assert Upper(a, 1) == Upper(a / 2, 0) && Upper(b, 1) == Upper(b / 2, 0);
      assert Pow2(1) == 2 * Pow2(0);
    } else {
      XorTopBit(a / 2, b / 2, k - 1);
    }
  }

  lemma {:induction false} TopBit(n: nat, k: nat)
    requires n < Pow2(k + 1)
    ensures Bit(n, k) <==> Pow2(k) <= n
  {
    if k > 0 {
      TopBit(n / 2, k - 1);
    } else {
      assert Pow2(1) == 2 * Pow2(0);
    }
  }

  /** Changing a bit keeps every higher bit, and sets the bit it names. */
  lemma {:induction false} WithBitEffect(n: nat, k: nat, v: bool, j: nat)
    ensures Bit(WithBit(n, k, v), k) == v
    ensures j > k ==> Upper(WithBit(n, k, v), j) == Upper(n, j)
    ensures j > k ==> Bit(WithBit(n, k, v), j) == Bit(n, j)
  {
    var r := WithBit(n, k, v);
    if k == 0 {
      assert r / 2 == n / 2;
    } else {
      WithBitEffect(n / 2, k - 1, v, if j > 0 then j - 1 else 0);
      assert r / 2 == WithBit(n / 2, k - 1, v);
    }
  }

  lemma {:induction false} WithBitBound(n: nat, k: nat, v: bool, width: nat)
    requires n < Pow2(width) && k < width
    ensures WithBit(n, k, v) < Pow2(width)
  {
    if k > 0 {
      WithBitBound(n / 2, k - 1, v, width - 1);
    }
  }

  lemma {:induction false} Pow2Add(a: nat, b: nat)
    ensures Pow2(a + b) == Pow2(a) * Pow2(b)
  {
    if a > 0 {
      Pow2Add(a - 1, b);
    }
  }

  lemma Pow2Of8()
    ensures Pow2(8) == 256
  {
    assert Pow2(4) == 16;
    Pow2Add(4, 4);
  }

  lemma MulMonotone(a: nat, b: nat, p: nat)
    requires a <= b
    ensures a * p <= b * p
  {
    assert b * p == a * p + (b - a) * p;
  }

  // ---------------------------------------------------------------------------
  // Ids
  // ---------------------------------------------------------------------------

  function XorOctet(a: Octet, b: Octet): (x: Octet) {
    Pow2Of8();
    XorBound(a, b, 8);
    Xor(a, b)
  }

  function XorIds(a: NodeId, b: NodeId): (x: NodeId) {
    seq(20, i requires 0 <= i < 20 => XorOctet(a[i], b[i]))
  }

  /** operator^ fills the result byte by byte. */
  method XorLoop(a: NodeId, b: NodeId) returns (x: NodeId)
    ensures x == XorIds(a, b)
  {
    var bytes: seq<Octet> := [];
    for i := 0 to 20
      invariant |bytes| == i
      invariant forall j :: 0 <= j < i ==> bytes[j] == XorOctet(a[j], b[j])
    {
      bytes := bytes + [XorOctet(a[i], b[i])];
    }
    x := bytes;
  }

  predicate IsZero(id: NodeId) {
    forall i :: 0 <= i < 20 ==> id[i] == 0
  }

  /** operator< on std::array: lexicographic. */
  predicate Less(a: seq<Octet>, b: seq<Octet>)
    requires |a| == |b|
  {
    a != [] && (a[0] < b[0] || (a[0] == b[0] && Less(a[1..], b[1..])))
  }

  /** The big-endian number a byte string stands for. */
  function Value(s: seq<Octet>): (v: nat) {
    if s == [] then 0 else s[0] * Pow2(8 * (|s| - 1)) + Value(s[1..])
  }

  function Distance(a: NodeId, b: NodeId): (d: nat) {
    Value(XorIds(a, b))
  }

  lemma {:induction false} ValueBound(s: seq<Octet>)
    ensures Value(s) < Pow2(8 * |s|)
  {
    if s != [] {
      ValueBound(s[1..]);
      hide Pow2;
      Pow2Of8();
      Pow2Add(8, 8 * (|s| - 1));
      MulMonotone(s[0], 255, Pow2(8 * (|s| - 1)));
    }
  }

  /** A smaller leading digit outweighs everything below it. */
  lemma LeadingDigit(x: nat, y: nat, p: nat, u: nat, v: nat)
    requires x < y && u < p
    ensures x * p + u < y * p + v
  {
    MulMonotone(x + 1, y, p);
  }

  /** Comparing ids byte by byte is comparing them as 160-bit numbers. */
  lemma {:induction false} LessIsNumeric(a: seq<Octet>, b: seq<Octet>)
    requires |a| == |b|
    ensures Less(a, b) <==> Value(a) < Value(b)
  {
    if a != [] {
      LessIsNumeric(a[1..], b[1..]);
      ValueBound(a[1..]);
      ValueBound(b[1..]);
      hide Pow2;
      var p := Pow2(8 * (|a| - 1));
      if a[0] < b[0] {
        LeadingDigit(a[0], b[0], p, Value(a[1..]), Value(b[1..]));
      } else if a[0] > b[0] {
        LeadingDigit(b[0], a[0], p, Value(b[1..]), Value(a[1..]));
      }
    }
  }

  lemma {:induction false} ValueInjective(a: seq<Octet>, b: seq<Octet>)
    requires |a| == |b| && Value(a) == Value(b)
    ensures a == b
  {
    if a != [] {
      ValueBound(a[1..]);
      ValueBound(b[1..]);
      hide Pow2;
      var p := Pow2(8 * (|a| - 1));
      if a[0] < b[0] {
        LeadingDigit(a[0], b[0], p, Value(a[1..]), Value(b[1..]));
      } else if a[0] > b[0] {
        LeadingDigit(b[0], a[0], p, Value(b[1..]), Value(a[1..]));
      }
      ValueInjective(a[1..], b[1..]);
      assert a == [a[0]] + a[1..] && b == [b[0]] + b[1..];
    }
  }

  /** Distinct ids are at distinct distances from any target. */
  lemma DistanceInjective(t: NodeId, a: NodeId, b: NodeId)
    ensures Distance(t, a) == Distance(t, b) <==> a == b
  {
    if Distance(t, a) == Distance(t, b) {
      ValueInjective(XorIds(t, a), XorIds(t, b));
      forall i | 0 <= i < 20
        ensures a[i] == b[i]
      {
        assert XorIds(t, a)[i] == XorIds(t, b)[i];
        XorCancels(t[i], a[i], b[i]);
      }
    }
  }

  /** The distance is zero only between an id and itself. */
  lemma DistanceZero(a: NodeId, b: NodeId)
    ensures IsZero(XorIds(a, b)) <==> a == b
  {
    forall i | 0 <= i < 20
      ensures XorIds(a, b)[i] == 0 <==> a[i] == b[i]
    {
      XorZero(a[i], b[i]);
    }
  }

  /** The first non-zero byte fixes the magnitude of a number. */
  lemma {:induction false} LeadingByte(s: seq<Octet>, i: nat, top: nat)
    requires i < |s| && s[i] == top && forall j :: 0 <= j < i ==> s[j] == 0
    ensures top * Pow2(8 * (|s| - 1 - i)) <= Value(s) < (top + 1) * Pow2(8 * (|s| - 1 - i))
  {
    hide Pow2;
    if i > 0 {
      LeadingByte(s[1..], i - 1, top);
    } else {
      ValueBound(s[1..]);
    }
  }

  /** The highest set bit of the first non-zero byte is the exponent of the number. */
  lemma LeadingBit(s: seq<Octet>, i: nat, bit: nat)
    requires i < |s| && forall j :: 0 <= j < i ==> s[j] == 0
    requires Pow2(bit) <= s[i] < Pow2(bit + 1)
    ensures Pow2(8 * (|s| - 1 - i) + bit) <= Value(s) < Pow2(8 * (|s| - 1 - i) + bit + 1)
  {
    hide Pow2, Value;
    var m, top: nat := 8 * (|s| - 1 - i), s[i];
    LeadingByte(s, i, top);
    Pow2Add(bit, m);
    Pow2Add(bit + 1, m);
    MulMonotone(Pow2(bit), top, Pow2(m));
    MulMonotone(top + 1, Pow2(bit + 1), Pow2(m));
  }

  lemma {:induction false} Pow2Monotone(a: nat, b: nat)
    requires a < b
    ensures 2 * Pow2(a) <= Pow2(b)
  {
    if b > a + 1 {
      Pow2Monotone(a, b - 1);
    }
  }

  /** A number has only one exponent. */
  lemma ExponentUnique(v: nat, a: nat, b: nat)
    requires Pow2(a) <= v < Pow2(a + 1) && Pow2(b) <= v < Pow2(b + 1)
    ensures a == b
  {
    if a < b {
      Pow2Monotone(a, b);
    } else if b < a {
      Pow2Monotone(b, a);
    }
  }
}
