/** Kademlia identifiers: 20-byte big-endian strings, their XOR distance and their
    160-bit numeric reading.  The byte-level loops are proved against the numbers,
    so the rest of the project reasons about distances as numbers. */
module Ids {
  const ID_BITS := 160
  const ID_BYTES := 20

  type Bytes = seq<bv8>
  type Id = s: Bytes | |s| == ID_BYTES witness seq(ID_BYTES, _ => 0)

  function Min(a: int, b: int): int {
    if a <= b then a else b
  }

  // ---------- numeric reading ----------

  function Pow2(n: nat): (p: nat)
    ensures p >= 1
  {
    if n == 0 then 1 else 2 * Pow2(n - 1)
  }

  lemma {:induction false} Pow2Add(a: nat, b: nat)
    ensures Pow2(a + b) == Pow2(a) * Pow2(b)
  {
    if a > 0 { Pow2Add(a - 1, b); }
  }

  lemma {:induction false} Pow2Monotone(a: nat, b: nat)
    requires a <= b
    ensures Pow2(a) <= Pow2(b)
  {
    if a < b { Pow2Monotone(a, b - 1); }
  }

  /** A byte string read as a big-endian number. */
  function Value(s: Bytes): nat {
    if s == [] then 0 else (s[0] as nat) * Pow2(8 * (|s| - 1)) + Value(s[1..])
  }

  lemma {:induction false} ValueBound(s: Bytes)
    ensures Value(s) < Pow2(8 * |s|)
  {
    if s != [] {
      ValueBound(s[1..]);
      Pow2UpTo8();
      Pow2Add(8, 8 * (|s| - 1));
      MulStep(s[0] as nat, 256, Pow2(8 * (|s| - 1)));
    }
  }

  lemma MulStep(a: nat, b: nat, p: nat)
    requires a < b
    ensures a * p + p <= b * p
  {
    MulLe(a + 1, b, p);
    assert (a + 1) * p == a * p + p;
  }

  lemma MulLe(a: nat, b: nat, p: nat)
    requires a <= b
    ensures a * p <= b * p
  {
  }

  lemma SumTimes(x: nat, a: nat, b: nat, p: nat)
    requires x <= a + b
    ensures x * p <= a * p + b * p
  {
    MulLe(x, a + b, p);
    assert (a + b) * p == a * p + b * p;
  }

  lemma Pow2UpTo8()
    ensures Pow2(0) == 1 && Pow2(1) == 2 && Pow2(2) == 4 && Pow2(3) == 8 && Pow2(4) == 16
    ensures Pow2(5) == 32 && Pow2(6) == 64 && Pow2(7) == 128 && Pow2(8) == 256
  {
    assert Pow2(3) == 8;
    assert Pow2(6) == 64;
  }

  /** The first differing byte decides the order of the numbers. */
  lemma {:induction false} FirstDifferenceDecides(a: Bytes, b: Bytes, i: nat)
    requires |a| == |b| && i < |a| && a[..i] == b[..i] && a[i] < b[i]
    ensures Value(a) < Value(b)
  {
    if i == 0 {
      ByteOrder(a[0], b[0]);
      ValueBound(a[1..]);
      MulStep(a[0] as nat, b[0] as nat, Pow2(8 * (|a| - 1)));
    } else {
      assert a[0] == a[..i][0] == b[..i][0] == b[0];
      assert a[1..][..i - 1] == a[..i][1..] == b[..i][1..] == b[1..][..i - 1];
      FirstDifferenceDecides(a[1..], b[1..], i - 1);
    }
  }

  lemma ByteOrder(a: bv8, b: bv8)
    ensures a < b <==> (a as nat) < (b as nat)
  {
  }

  lemma {:induction false} ValueInjective(a: Bytes, b: Bytes)
    requires |a| == |b| && Value(a) == Value(b)
    ensures a == b
  {
    if a != [] {
      if a[0] < b[0] {
        FirstDifferenceDecides(a, b, 0);
      } else if b[0] < a[0] {
        FirstDifferenceDecides(b, a, 0);
      } else {
        ValueInjective(a[1..], b[1..]);
        assert a == [a[0]] + a[1..] && b == [b[0]] + b[1..];
      }
    }
  }

  // ---------- XOR distance ----------

  function XorBytes(a: Bytes, b: Bytes): (x: Bytes)
    requires |a| == |b|
    ensures |x| == |a|
    ensures forall i :: 0 <= i < |a| ==> x[i] == a[i] ^ b[i]
  {
    seq(|a|, i requires 0 <= i < |a| => a[i] ^ b[i])
  }

  function Xor(a: Id, b: Id): Id {
    XorBytes(a, b)
  }

  /** The distance of two identifiers as a number. */
  function Distance(a: Id, b: Id): nat {
    Value(Xor(a, b))
  }

  lemma {:induction false} ZeroValue(s: Bytes)
    ensures Value(s) == 0 <==> forall i :: 0 <= i < |s| ==> s[i] == 0
  {
    var zeros: Bytes := seq(|s|, _ => 0);
    ZerosHaveValueZero(|s|);
    if forall i :: 0 <= i < |s| ==> s[i] == 0 {
      assert s == zeros;
    } else if Value(s) == 0 {
      ValueInjective(s, zeros);
      assert false;
    }
  }

  lemma {:induction false} ZerosHaveValueZero(n: nat)
    ensures Value(seq(n, _ => 0 as bv8)) == 0
  {
    if n > 0 {
      ZerosHaveValueZero(n - 1);
      assert seq(n, _ => 0 as bv8)[1..] == seq(n - 1, _ => 0 as bv8);
    }
  }

  lemma DistanceSymmetric(a: Id, b: Id)
    ensures Distance(a, b) == Distance(b, a)
  {
    assert Xor(a, b) == Xor(b, a);
  }

  lemma DistanceZeroIffEqual(a: Id, b: Id)
    ensures Distance(a, b) == 0 <==> a == b
  {
    ZeroValue(Xor(a, b));
    if Distance(a, b) == 0 {
      forall i | 0 <= i < ID_BYTES
        ensures a[i] == b[i]
      {
        assert Xor(a, b)[i] == 0;
      }
    }
  }

  /** XOR-ing with the target twice gives the other argument back. */
  lemma XorCancels(t: Id, a: Id)
    ensures Xor(t, Xor(t, a)) == a
  {
  }

  /** For a fixed target every distance belongs to exactly one identifier. */
  lemma DistanceOneToOne(t: Id, a: Id, b: Id)
    requires Distance(t, a) == Distance(t, b)
    ensures a == b
  {
    ValueInjective(Xor(t, a), Xor(t, b));
    XorCancels(t, a);
    XorCancels(t, b);
  }

  lemma TriangleInequality(a: Id, b: Id, c: Id)
    ensures Distance(a, c) <= Distance(a, b) + Distance(b, c)
  {
    assert Xor(a, c) == XorBytes(Xor(a, b), Xor(b, c));
    XorAtMostSum(Xor(a, b), Xor(b, c));
  }

  lemma {:induction false} XorAtMostSum(a: Bytes, b: Bytes)
    requires |a| == |b|
    ensures Value(XorBytes(a, b)) <= Value(a) + Value(b)
  {
    if a != [] {
      var x := XorBytes(a, b);
      XorAtMostSum(a[1..], b[1..]);
      assert x[1..] == XorBytes(a[1..], b[1..]);
      assert x[0] as nat <= (a[0] as nat) + (b[0] as nat) by { ByteXorAtMostSum(a[0], b[0]); }
      StepAtMostSum(x, a, b);
    }
  }

  lemma StepAtMostSum(x: Bytes, a: Bytes, b: Bytes)
    requires |x| == |a| == |b| > 0
    requires x[0] as nat <= (a[0] as nat) + (b[0] as nat)
    requires Value(x[1..]) <= Value(a[1..]) + Value(b[1..])
    ensures Value(x) <= Value(a) + Value(b)
  {
    SumTimes(x[0] as nat, a[0] as nat, b[0] as nat, Pow2(8 * (|a| - 1)));
  }

  function Bit(b: bv8, mask: bv8, weight: nat): nat {
    if b & mask != 0 then weight else 0
  }

  lemma ByteIsSumOfBits(b: bv8)
    ensures b as nat == Bit(b, 128, 128) + Bit(b, 64, 64) + Bit(b, 32, 32) + Bit(b, 16, 16)
                        + Bit(b, 8, 8) + Bit(b, 4, 4) + Bit(b, 2, 2) + Bit(b, 1, 1)
  {
  }

  lemma BitXor(a: bv8, b: bv8, mask: bv8, weight: nat)
    ensures Bit(a ^ b, mask, weight) <= Bit(a, mask, weight) + Bit(b, mask, weight)
  {
  }

  lemma ByteXorAtMostSum(a: bv8, b: bv8)
    ensures (a ^ b) as nat <= (a as nat) + (b as nat)
  {
    ByteIsSumOfBits(a);
    ByteIsSumOfBits(b);
    ByteIsSumOfBits(a ^ b);
    BitXor(a, b, 128, 128); BitXor(a, b, 64, 64); BitXor(a, b, 32, 32); BitXor(a, b, 16, 16);
    BitXor(a, b, 8, 8); BitXor(a, b, 4, 4); BitXor(a, b, 2, 2); BitXor(a, b, 1, 1);
  }

  // ---------- prefix length ----------

  /** The mask 1 << j of one bit of a byte. */
  function Mask(j: nat): bv8
    requires j < 8
  {
    [1, 2, 4, 8, 0x10, 0x20, 0x40, 0x80][j]
  }

  function LeadingZeroBits(b: bv8): (c: nat)
    ensures c <= 8
    ensures c == 8 <==> b == 0
  {
    if b & 0x80 != 0 then 0 else if b & 0x40 != 0 then 1
    else if b & 0x20 != 0 then 2 else if b & 0x10 != 0 then 3
    else if b & 8 != 0 then 4 else if b & 4 != 0 then 5
    else if b & 2 != 0 then 6 else if b & 1 != 0 then 7 else 8
  }

  function LeadingZeros(s: Bytes): (p: nat)
    ensures p <= 8 * |s|
  {
    if s == [] then 0 else Leading(LeadingZeroBits(s[0]), LeadingZeros(s[1..]))
  }

  /** A zero byte adds eight and passes on to the rest; any other byte ends the prefix. */
  function Leading(bits: nat, rest: nat): nat {
    if bits == 8 then 8 + rest else bits
  }

  lemma ByteRange(b: bv8)
    requires b != 0
    ensures var c := LeadingZeroBits(b); Pow2(7 - c) <= b as nat < Pow2(8 - c)
  {
    Pow2UpTo8();
  }

  lemma ScaledRange(b: nat, c: nat, rest: nat)
    requires c < 8 && Pow2(7 - c) <= b < Pow2(8 - c)
    ensures Pow2(7 - c + rest) <= b * Pow2(rest)
    ensures b * Pow2(rest) + Pow2(rest) <= Pow2(8 - c + rest)
  {
    Pow2Add(7 - c, rest);
    Pow2Add(8 - c, rest);
    MulLe(Pow2(7 - c), b, Pow2(rest));
    MulStep(b, Pow2(8 - c), Pow2(rest));
  }

  lemma {:induction false} LeadingZerosGiveRange(s: Bytes)
    ensures var p := LeadingZeros(s);
            if p == 8 * |s| then Value(s) == 0
            else Pow2(8 * |s| - 1 - p) <= Value(s) < Pow2(8 * |s| - p)
  {
    if s == [] {
    } else if LeadingZeroBits(s[0]) == 8 {
      LeadingZerosGiveRange(s[1..]);
    } else {
      var c, rest := LeadingZeroBits(s[0]), 8 * (|s| - 1);
      ByteRange(s[0]);
      ValueBound(s[1..]);
      ScaledRange(s[0] as nat, c, rest);
    }
  }

  /** The prefix length is p exactly when the number has its highest one at bit 159 - p. */
  lemma PrefixLenIsNumericRange(id: Id, p: nat)
    requires p < ID_BITS
    ensures LeadingZeros(id) == p <==> Pow2(159 - p) <= Value(id) < Pow2(160 - p)
  {
    var q := LeadingZeros(id);
    LeadingZerosGiveRange(id);
    if q < p {
      Pow2Monotone(160 - p, 159 - q);
    } else if p < q < ID_BITS {
      Pow2Monotone(160 - q, 159 - p);
    }
  }

  lemma ByteXorPrefix(a: bv8, b: bv8)
    ensures var p, q := LeadingZeroBits(a), LeadingZeroBits(b);
            && (p != q ==> LeadingZeroBits(a ^ b) == if p < q then p else q)
            && (p == q < 8 ==> LeadingZeroBits(a ^ b) > p)
            && (p == q == 8 ==> LeadingZeroBits(a ^ b) == 8)
  {
  }

  /** The same rule for one byte and the rest gives the rule for the whole. */
  lemma LeadingStep(p: nat, q: nat, r: nat, p': nat, q': nat, r': nat, n: nat)
    requires p <= 8 && q <= 8 && r <= 8 && p' <= n && q' <= n
    requires (p != q ==> r == if p < q then p else q) && (p == q < 8 ==> r > p) && (p == q == 8 ==> r == 8)
    requires (p' != q' ==> r' == if p' < q' then p' else q') && (p' == q' < n ==> r' > p')
    ensures Leading(p, p') != Leading(q, q') ==>
              Leading(r, r') == if Leading(p, p') < Leading(q, q') then Leading(p, p') else Leading(q, q')
    ensures Leading(p, p') == Leading(q, q') < 8 + n ==> Leading(r, r') > Leading(p, p')
  {
  }

  /** XOR of strings with different prefix lengths keeps the shorter one; equal prefix lengths grow. */
  lemma {:induction false} XorPrefix(a: Bytes, b: Bytes)
    requires |a| == |b|
    ensures var p, q, r := LeadingZeros(a), LeadingZeros(b), LeadingZeros(XorBytes(a, b));
            && (p != q ==> r == if p < q then p else q)
            && (p == q < 8 * |a| ==> r > p)
  {
    if a != [] {
      var x := XorBytes(a, b);
      assert x[1..] == XorBytes(a[1..], b[1..]);
      XorPrefix(a[1..], b[1..]);
      ByteXorPrefix(a[0], b[0]);
      LeadingStep(LeadingZeroBits(a[0]), LeadingZeroBits(b[0]), LeadingZeroBits(x[0]),
                  LeadingZeros(a[1..]), LeadingZeros(b[1..]), LeadingZeros(x[1..]), 8 * (|a| - 1));
    }
  }

  // ---------- the loops of the ID type ----------

  /** ID.XOR: fills the result byte by byte. */
  method XOR(id: Id, other: Id) returns (out: Id)
    ensures out == Xor(id, other)
  {
    var a := new bv8[ID_BYTES](_ => 0);
    for i := 0 to ID_BYTES
      invariant forall k :: 0 <= k < i ==> a[k] == id[k] ^ other[k]
    {
      a[i] := id[i] ^ other[i];
    }
    out := a[..];
    assert out == Xor(id, other);
  }

  /** ID.Equals. */
  method Equals(id: Id, other: Id) returns (equal: bool)
    ensures equal <==> id == other
  {
    for i := 0 to ID_BYTES
      invariant id[..i] == other[..i]
    {
      if id[i] != other[i] {
        return false;
      }
      assert id[..i + 1] == id[..i] + [id[i]] == other[..i + 1];
    }
    assert id == id[..ID_BYTES] == other[..ID_BYTES] == other;
    return true;
  }

  /** ID.Less: the byte loop decides the order of the 160-bit numbers. */
  method Less(id: Id, other: Id) returns (less: bool)
    ensures less <==> Value(id) < Value(other)
  {
    for i := 0 to ID_BYTES
      invariant id[..i] == other[..i]
    {
      if id[i] < other[i] {
        FirstDifferenceDecides(id, other, i);
        return true;
      }
      if id[i] > other[i] {
        FirstDifferenceDecides(other, id, i);
        return false;
      }
      assert id[..i + 1] == id[..i] + [id[i]] == other[..i + 1];
    }
    assert id == id[..ID_BYTES] == other[..ID_BYTES] == other;
    return false;
  }

  /** The inner loop of PrefixLen: zero bits of one byte before its first one, from the highest bit down. */
  method CountZeroBits(b: bv8) returns (count: nat)
    ensures count == LeadingZeroBits(b)
  {
    count := 0;
    var j := 7;
    while j >= 0
      invariant -1 <= j <= 7
      invariant count == 7 - j
      invariant LeadingZeroBits(b) >= 7 - j
    {
      if b & Mask(j) == 0 {
        count := count + 1;
      } else {
        return;
      }
      j := j - 1;
    }
  }

  /** ID.PrefixLen: the byte and bit loops find the highest one of the number. */
  method PrefixLen(id: Id) returns (count: nat)
    ensures count == LeadingZeros(id)
    ensures if count == ID_BITS then Value(id) == 0
            else count < ID_BITS && Pow2(159 - count) <= Value(id) < Pow2(160 - count)
  {
    LeadingZerosGiveRange(id);
    count := 0;
    for i := 0 to ID_BYTES
      invariant count == 8 * i
      invariant LeadingZeros(id) == count + LeadingZeros(id[i..])
    {
      assert id[i..][1..] == id[i + 1..];
      if id[i] == 0x00 {
        count := count + 8;
        continue;
      }
      var bits := CountZeroBits(id[i]);
      count := count + bits;
      return;
    }
  }
}
