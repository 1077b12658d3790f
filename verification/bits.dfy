/** Bytes, and the strings of bits they spell, most significant bit first. */
module Bits {

  datatype Option<+T> = None | Some(value: T)

  type Byte = bv8

  /** The byte whose only one bit is bit `i`, counted from the most significant: `0x80 >> i`. */
  function Mask(i: nat): (m: Byte)
    requires i < 8
  {
    if i == 0 then 0x80 else if i == 1 then 0x40 else if i == 2 then 0x20 else if i == 3 then 0x10
    else if i == 4 then 0x08 else if i == 5 then 0x04 else if i == 6 then 0x02 else 0x01
  }

  /** Bit `i` of a byte, counted from the most significant one. */
  predicate Bit(b: Byte, i: nat)
    requires i < 8
  {
    b & Mask(i) != 0
  }

  /** Bit `j` of a byte string. */
  predicate BitAt(s: seq<Byte>, j: nat)
    requires j < 8 * |s|
  {
    Bit(s[j / 8], j % 8)
  }

  /** The byte whose eight bits are given. */
  function PackByte(b: seq<bool>): (r: Byte)
    requires |b| == 8
    ensures forall i | 0 <= i < 8 :: Bit(r, i) == b[i]
  {
    (if b[0] then 0x80 else 0) | (if b[1] then 0x40 else 0) | (if b[2] then 0x20 else 0) | (if b[3] then 0x10 else 0)
    | (if b[4] then 0x08 else 0) | (if b[5] then 0x04 else 0) | (if b[6] then 0x02 else 0) | (if b[7] then 0x01 else 0)
  }

  /** The byte string whose bits are given; bits that do not fill a byte are dropped. */
  function Pack(b: seq<bool>): (r: seq<Byte>)
    ensures |r| == |b| / 8
    ensures forall j | 0 <= j < |b| / 8 * 8 :: BitAt(r, j) == b[j]
  {
    seq(|b| / 8, i requires 0 <= i < |b| / 8 => PackByte(b[8 * i..8 * i + 8]))
  }

  /** `copy` into a zeroed array of length `n`: pads with zeros or cuts off. */
  function Fit(s: seq<Byte>, n: nat): (r: seq<Byte>)
    ensures |r| == n
    ensures forall i | 0 <= i < n :: r[i] == if i < |s| then s[i] else 0
  {
    if n <= |s| then s[..n] else s + seq(n - |s|, _ => 0)
  }

  lemma BitOfOr(b: Byte, c: Byte, i: nat)
    requires i < 8
    ensures Bit(b | c, i) == (Bit(b, i) || Bit(c, i))
  {
  }

  lemma BitOfNot(b: Byte, i: nat)
    requires i < 8
    ensures Bit(!b, i) == !Bit(b, i)
  {
    if i == 0 {} else if i == 1 {} else if i == 2 {} else if i == 3 {} else if i == 4 {}
    else if i == 5 {} else if i == 6 {} else {}
  }

  lemma BitOfMask(i: nat, j: nat)
    requires i < 8 && j < 8
    ensures Bit(0x80 >> i, j) == (i == j)
  {
  }

  /** What `bits = (bits << 1) | bit` does to each bit. */
  lemma BitOfShiftIn(b: Byte, bit: Byte, i: nat)
    requires i < 8 && (bit == 0 || bit == 1)
    ensures Bit((b << 1) | bit, i) == if i == 7 then bit == 1 else Bit(b, i + 1)
  {
    if i == 0 {} else if i == 1 {} else if i == 2 {} else if i == 3 {} else if i == 4 {}
    else if i == 5 {} else if i == 6 {} else {}
  }

  /** Extracting one bit to the lowest place. */
  lemma ExtractBit(b: Byte, i: nat)
    requires i < 8
    ensures (b & (0x80 >> i)) >> (7 - i) == if Bit(b, i) then 1 else 0
  {
    if i == 0 {} else if i == 1 {} else if i == 2 {} else if i == 3 {} else if i == 4 {}
    else if i == 5 {} else if i == 6 {} else {}
  }

  /** Moving one bit of a byte to another place of an otherwise zero byte. */
  lemma MoveBit(b: Byte, i: nat, k: nat, j: nat)
    requires i < 8 && k < 8 && j < 8
    ensures Bit(((b & (0x80 >> i)) << i) >> k, j) == (j == k && Bit(b, i))
  {
    var top := (b & (0x80 >> i)) << i;
    assert top == if Bit(b, i) then 0x80 else 0 by {
      if i == 0 {} else if i == 1 {} else if i == 2 {} else if i == 3 {} else if i == 4 {}
      else if i == 5 {} else if i == 6 {} else {}
    }
    if Bit(b, i) {
      BitOfMask(k, j);
    } else {
      assert top >> k == 0;
    }
  }

  /** Or-ing a byte that has at most bit `j % 8` set into place `j / 8`. */
  lemma OrAtBit(s: seq<Byte>, j: nat, m: Byte, b: bool)
    requires j < 8 * |s|
    requires forall i | 0 <= i < 8 :: Bit(m, i) == (i == j % 8 && b)
    ensures forall i | 0 <= i < 8 * |s| :: BitAt(s[j / 8 := s[j / 8] | m], i) == (BitAt(s, i) || (i == j && b))
  {
    forall i | 0 <= i < 8 * |s|
      ensures BitAt(s[j / 8 := s[j / 8] | m], i) == (BitAt(s, i) || (i == j && b))
    {
      if i / 8 == j / 8 {
        BitOfOr(s[j / 8], m, i % 8);
      }
    }
  }

  lemma ByteExtensional(b: Byte, c: Byte)
    requires forall i | 0 <= i < 8 :: Bit(b, i) == Bit(c, i)
    ensures b == c
  {
    assert Bit(b, 0) == Bit(c, 0) && Bit(b, 1) == Bit(c, 1) && Bit(b, 2) == Bit(c, 2) && Bit(b, 3) == Bit(c, 3);
    assert Bit(b, 4) == Bit(c, 4) && Bit(b, 5) == Bit(c, 5) && Bit(b, 6) == Bit(c, 6) && Bit(b, 7) == Bit(c, 7);
  }

  /** Byte strings of one length are equal when their bits are. */
  lemma Extensional(s: seq<Byte>, t: seq<Byte>)
    requires |s| == |t|
    requires forall j | 0 <= j < 8 * |s| :: BitAt(s, j) == BitAt(t, j)
    ensures s == t
  {
    forall k | 0 <= k < |s|
      ensures s[k] == t[k]
    {
      forall i | 0 <= i < 8
        ensures Bit(s[k], i) == Bit(t[k], i)
      {
        assert BitAt(s, 8 * k + i) == BitAt(t, 8 * k + i);
      }
      ByteExtensional(s[k], t[k]);
    }
  }

  /** A byte is smaller exactly when it has a zero where the other first has a one. */
  lemma ByteOrder(b: Byte, c: Byte)
    ensures b < c <==> exists i | 0 <= i < 8 :: !Bit(b, i) && Bit(c, i) && forall j | 0 <= j < i ::
            Bit(b, j) == Bit(c, j)
  {
    var i := FirstDifference(b, c);
    if i < 8 {
      OrderAtDifference(b, c, i);
    }
  }

  lemma OrderAtDifference(b: Byte, c: Byte, i: nat)
    requires i < 8 && Bit(b, i) != Bit(c, i)
    requires forall j | 0 <= j < i :: Bit(b, j) == Bit(c, j)
    ensures b < c <==> Bit(c, i)
  {
    if i > 0 { assert Bit(b, 0) == Bit(c, 0); }
    if i > 1 { assert Bit(b, 1) == Bit(c, 1); }
    if i > 2 { assert Bit(b, 2) == Bit(c, 2); }
    if i > 3 { assert Bit(b, 3) == Bit(c, 3); }
    if i > 4 { assert Bit(b, 4) == Bit(c, 4); }
    if i > 5 { assert Bit(b, 5) == Bit(c, 5); }
    if i > 6 { assert Bit(b, 6) == Bit(c, 6); }
    OrderAtTopDifference(b, c, i);
  }

  lemma OrderAtTopDifference(b: Byte, c: Byte, i: nat)
    requires i < 8
    requires (i > 0 ==> b & 0x80 == c & 0x80) && (i > 1 ==> b & 0x40 == c & 0x40)
    requires (i > 2 ==> b & 0x20 == c & 0x20) && (i > 3 ==> b & 0x10 == c & 0x10)
    requires (i > 4 ==> b & 0x08 == c & 0x08) && (i > 5 ==> b & 0x04 == c & 0x04)
    requires i > 6 ==> b & 0x02 == c & 0x02
    requires Bit(b, i) != Bit(c, i)
    ensures b < c <==> Bit(c, i)
  {
    if i == 0 {} else if i == 1 {} else if i == 2 {} else if i == 3 {} else if i == 4 {}
    else if i == 5 {} else if i == 6 {} else {}
  }

  lemma FirstDifference(b: Byte, c: Byte) returns (i: nat)
    ensures i <= 8
    ensures forall j | 0 <= j < i :: Bit(b, j) == Bit(c, j)
    ensures i < 8 ==> Bit(b, i) != Bit(c, i)
    ensures i == 8 ==> b == c
  {
    i := 0;
    while i < 8 && Bit(b, i) == Bit(c, i)
      invariant i <= 8
      invariant forall j | 0 <= j < i :: Bit(b, j) == Bit(c, j)
    {
      i := i + 1;
    }
    if i == 8 {
      ByteExtensional(b, c);
    }
  }
}

/** Bytes as numbers, for code that compares them and does arithmetic on them. */
module Octets {

  type Octet = x: int | 0 <= x < 256

  /** A big-endian 16-bit number. */
  function U16(hi: Octet, lo: Octet): (r: nat)
    ensures r < 0x1_0000
  {
    256 * hi + lo
  }

  /** Its two bytes, the higher one first. */
  function PutU16(n: nat): (r: seq<Octet>)
    requires n < 0x1_0000
    ensures |r| == 2 && U16(r[0], r[1]) == n && 256 * (r[0] as nat) + r[1] as nat == n
  {
    [n / 256, n % 256]
  }
}
