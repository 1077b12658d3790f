/** Addresses and subnets derived from public keys, and the partial keys read back from them. */
module Addresses {
  import opened Bits

  const KEY_SIZE := 32
  const ADDRESS_SIZE := 16
  const SUBNET_SIZE := 8
  const PREFIX: Byte := 0x02

  type Key = k: seq<Byte> | |k| == KEY_SIZE witness Fit([], KEY_SIZE)
  type Address = a: seq<Byte> | |a| == ADDRESS_SIZE witness Fit([], ADDRESS_SIZE)
  type Subnet = s: seq<Byte> | |s| == SUBNET_SIZE witness Fit([], SUBNET_SIZE)

  const ZERO_KEY: Key := Fit([], KEY_SIZE)

  // ----- What the conversions compute, bit by bit -----

  /** The number of zero bits of `k` starting at bit `i`. */
  function ZerosFrom(k: Key, i: nat): (n: nat)
    requires i <= 256
    ensures i + n <= 256
    ensures forall j | i <= j < i + n :: !BitAt(k, j)
    ensures i + n < 256 ==> BitAt(k, i + n)
    decreases 256 - i
  {
    if i < 256 && !BitAt(k, i) then 1 + ZerosFrom(k, i + 1) else 0
  }

  /** The leading ones of the inverted key are the leading zeros of the key. */
  function Lead(k: Key): (n: nat)
    ensures n <= 256
    ensures forall j | 0 <= j < n :: !BitAt(k, j)
    ensures n < 256 ==> BitAt(k, n)
  {
    ZerosFrom(k, 0)
  }

  /** How many inverted key bits follow the first one bit of a key. */
  function RestLength(n: nat): nat {
    if n < 256 then 255 - n else 0
  }

  /** The inverted bits that follow the first one bit. */
  function Rest(k: Key): seq<bool> {
    var n := Lead(k);
    seq(RestLength(n), i requires 0 <= i < RestLength(n) => !BitAt(k, n + 1 + i))
  }

  /** `ones++` on a byte. */
  function Increment(b: Byte): Byte {
    b + 1
  }

  lemma IncrementWraps(b: Byte)
    ensures Increment(b) as nat == if b as nat == 255 then 0 else b as nat + 1
  {
  }

  /** The one-byte counter after `n` increments. */
  function Counter(n: nat): Byte {
    if n == 0 then 0 else Increment(Counter(n - 1))
  }

  /** It is exact until all 256 bits of the key are zero, when it wraps. */
  lemma {:induction false} CounterWraps(n: nat)
    requires n <= 256
    ensures Counter(n) as nat == if n == 256 then 0 else n
  {
    if n > 0 {
      CounterWraps(n - 1);
      IncrementWraps(Counter(n - 1));
    }
  }

  /** Prefix, run length, then as many whole bytes of the rest as there are, cut or zero-padded to size. */
  function AddrOf(k: Key): Address {
    Fit([PREFIX, Counter(Lead(k))] + Pack(Rest(k)), ADDRESS_SIZE)
  }

  function SubnetOf(k: Key): Subnet {
    var s := Fit(AddrOf(k), SUBNET_SIZE);
    s[0 := s[0] | 0x01]
  }

  /** Bit `i` of the partial key: the run length gives zeros and then a one, the address gives inverted
      bits, and what the address does not determine is one. */
  predicate KeyBit(a: Address, i: nat)
    requires i < 256
  {
    var n := a[1] as nat;
    if i < n then false
    else if n < i < n + 113 then !BitAt(a, 16 + (i - n - 1))
    else true
  }

  function KeyOf(a: Address): Key {
    Pack(seq(256, i requires 0 <= i < 256 => KeyBit(a, i)))
  }

  function SubnetKeyOf(s: Subnet): Key {
    KeyOf(Fit(s, ADDRESS_SIZE))
  }

  /** An address in the range of nodes, and a subnet in the range of /64 prefixes. */
  predicate AddressValid(a: Address) {
    a[0] == PREFIX
  }

  predicate SubnetValid(s: Subnet) {
    s[0] == PREFIX | 0x01
  }

  /** The transform under which keys are looked up. */
  function BloomTransform(k: Key): Key {
    SubnetKeyOf(SubnetOf(k))
  }

  // ----- The loops -----

  /** `copy(dst[at:], src)`. */
  method CopyInto(dst: array<Byte>, at: nat, src: seq<Byte>)
    requires at <= dst.Length
    modifies dst
    ensures forall i | 0 <= i < dst.Length :: dst[i] == if at <= i < at + |src| then src[i - at] else old(dst[i])
  {
    var i := 0;
    while i < |src| && at + i < dst.Length
      invariant 0 <= i <= |src| && at + i <= dst.Length
      invariant forall j | 0 <= j < dst.Length :: dst[j] == if at <= j < at + i then src[j - at] else old(dst[j])
    {
      dst[at + i] := src[i];
      i := i + 1;
    }
  }

  /** The bits collected so far: whole bytes in `temp`, the last `nBits` at the low end of `bits`. */
  ghost predicate Collected(acc: seq<bool>, temp: seq<Byte>, bits: Byte, nBits: nat) {
    && nBits <= 8
    && |acc| == 8 * |temp| + nBits
    && (forall j | 0 <= j < 8 * |temp| :: BitAt(temp, j) == acc[j])
    && (forall i | 8 - nBits <= i < 8 :: Bit(bits, i) == acc[|acc| - 8 + i])
  }

  function ShiftIn(bits: Byte, b: bool): Byte {
    (bits << 1) | (if b then 1 else 0)
  }

  lemma CollectBit(acc: seq<bool>, temp: seq<Byte>, bits: Byte, nBits: nat, b: bool)
    requires Collected(acc, temp, bits, nBits) && nBits < 8
    ensures Collected(acc + [b], temp, ShiftIn(bits, b), nBits + 1)
  {
    var shifted := ShiftIn(bits, b);
    var acc' := acc + [b];
    forall i | 7 - nBits <= i < 8
      ensures Bit(shifted, i) == acc'[|acc'| - 8 + i]
    {
      BitOfShiftIn(bits, if b then 1 else 0, i);
    }
    assert forall j | 0 <= j < 8 * |temp| :: BitAt(temp, j) == acc'[j];
  }

  lemma CollectByte(acc: seq<bool>, temp: seq<Byte>, bits: Byte)
    requires Collected(acc, temp, bits, 8)
    ensures Collected(acc, temp + [bits], bits, 0)
  {
    forall j | 0 <= j < 8 * |temp + [bits]|
      ensures BitAt(temp + [bits], j) == acc[j]
    {
      if j < 8 * |temp| {
        assert BitAt(temp, j) == acc[j];
      } else {
        assert Bit(bits, j - 8 * |temp|) == acc[j];
      }
    }
  }

  lemma CollectedIsPack(acc: seq<bool>, temp: seq<Byte>, bits: Byte, nBits: nat)
    requires Collected(acc, temp, bits, nBits) && nBits < 8
    ensures temp == Pack(acc)
  {
    Extensional(temp, Pack(acc));
  }

  method PushBit(ghost acc: seq<bool>, temp: seq<Byte>, bits: Byte, nBits: nat, b: bool)
    returns (temp': seq<Byte>, bits': Byte, nBits': nat)
    requires Collected(acc, temp, bits, nBits) && nBits < 8
    ensures Collected(acc + [b], temp', bits', nBits') && nBits' < 8
  {
    CollectBit(acc, temp, bits, nBits, b);
    temp', bits', nBits' := temp, ShiftIn(bits, b), nBits + 1;
    if nBits' == 8 {
      CollectByte(acc + [b], temp, bits');
      temp', nBits' := temp' + [bits'], 0;
    }
  }

  ghost predicate Inverted(s: seq<Byte>, k: seq<Byte>) {
    |s| == |k| && forall j | 0 <= j < 8 * |k| :: BitAt(s, j) == !BitAt(k, j)
  }

  method ReadBit(buf: array<Byte>, ghost k: Key, idx: nat) returns (bit: Byte)
    requires idx < 256 && Inverted(buf[..], k)
    ensures bit != 0 <==> !BitAt(k, idx)
  {
    assert buf[idx / 8] == buf[..][idx / 8];
    bit := (buf[idx / 8] & (0x80 >> (idx % 8))) >> (7 - idx % 8);
    ExtractBit(buf[idx / 8], idx % 8);
  }

  /** The bit loop of AddrForKey over the inverted key. */
  method SplitInverted(buf: array<Byte>, ghost k: Key) returns (ones: Byte, temp: seq<Byte>)
    requires Inverted(buf[..], k)
    ensures ones == Counter(Lead(k))
    ensures temp == Pack(Rest(k))
  {
    hide BitAt;
    ghost var n := Lead(k);
    temp := [];
    var done := false;
    ones := 0;
    var bits: Byte := 0;
    var nBits := 0;
    ghost var acc: seq<bool> := [];
    for idx := 0 to 8 * buf.Length
      invariant !done ==> idx <= n && ones == Counter(idx) && acc == [] && temp == [] && nBits == 0
      invariant done ==> n < idx && ones == Counter(n) && acc == Rest(k)[..idx - n - 1]
      invariant nBits < 8 && Collected(acc, temp, bits, nBits)
    {
      var bit := ReadBit(buf, k, idx);
      if !done && bit != 0 {
        ones := Increment(ones);
        continue;
      }
      if !done && bit == 0 {
        assert idx == n;
        done := true;
        continue;
      }
      assert acc + [bit != 0] == Rest(k)[..idx - n];
      temp, bits, nBits := PushBit(acc, temp, bits, nBits, bit != 0);
      acc := acc + [bit != 0];
    }
    assert acc == Rest(k);
    CollectedIsPack(acc, temp, bits, nBits);
  }

  method AddrForKey(publicKey: seq<Byte>) returns (r: Option<Address>)
    ensures |publicKey| != KEY_SIZE ==> r == None
    ensures |publicKey| == KEY_SIZE ==> r == Some(AddrOf(publicKey))
  {
    if |publicKey| != KEY_SIZE {
      return None;
    }
    var buf := new Byte[KEY_SIZE](i requires 0 <= i < KEY_SIZE => publicKey[i]);
    assert buf[..] == publicKey;
    InvertInPlace(buf);
    var ones, temp := SplitInverted(buf, publicKey);
    var addr := Assemble(ones, temp);
    return Some(addr);
  }

  method Assemble(ones: Byte, temp: seq<Byte>) returns (a: Address)
    ensures a == Fit([PREFIX, ones] + temp, ADDRESS_SIZE)
  {
    var addr := new Byte[ADDRESS_SIZE](_ => 0);
    CopyInto(addr, 0, [PREFIX]);
    addr[1] := ones;
    CopyInto(addr, 2, temp);
    return addr[..];
  }

  /** `buf[idx] = ^buf[idx]` for every index. */
  method InvertInPlace(buf: array<Byte>)
    modifies buf
    ensures Inverted(buf[..], old(buf[..]))
  {
    var idx := 0;
    while idx < buf.Length
      invariant 0 <= idx <= buf.Length
      invariant forall i | 0 <= i < idx :: buf[i] == !old(buf[i])
      invariant forall i | idx <= i < buf.Length :: buf[i] == old(buf[i])
    {
      buf[idx] := !buf[idx];
      idx := idx + 1;
    }
    forall j | 0 <= j < 8 * buf.Length
      ensures BitAt(buf[..], j) == !BitAt(old(buf[..]), j)
    {
      BitOfNot(old(buf[j / 8]), j % 8);
    }
  }

  method SubnetForKey(publicKey: seq<Byte>) returns (r: Option<Subnet>)
    ensures |publicKey| != KEY_SIZE ==> r == None
    ensures |publicKey| == KEY_SIZE ==> r == Some(SubnetOf(publicKey))
  {
    hide AddrOf;
    var addr := AddrForKey(publicKey);
    if addr == None {
      return None;
    }
    var snet := new Byte[SUBNET_SIZE](_ => 0);
    CopyInto(snet, 0, addr.value);
    assert snet[..] == Fit(addr.value, SUBNET_SIZE);
    snet[0] := snet[0] | 0x01;
    assert snet[..] == SubnetOf(publicKey);
    return Some(snet[..]);
  }

  /** `key[j/8] |= m`. */
  method OrInto(key: array<Byte>, j: nat, m: Byte, ghost b: bool)
    requires j < 8 * key.Length
    requires forall i | 0 <= i < 8 :: Bit(m, i) == (i == j % 8 && b)
    modifies key
    ensures forall i | 0 <= i < 8 * key.Length :: BitAt(key[..], i) == (BitAt(old(key[..]), i) || (i == j && b))
  {
    OrAtBit(key[..], j, m, b);
    key[j / 8] := key[j / 8] | m;
    assert key[..] == old(key[..])[j / 8 := old(key[j / 8]) | m];
  }

  /** `key[idx/8] |= 0x80 >> (idx%8)`. */
  method SetBit(key: array<Byte>, idx: nat)
    requires idx < 8 * key.Length
    modifies key
    ensures forall j | 0 <= j < 8 * key.Length :: BitAt(key[..], j) == (BitAt(old(key[..]), j) || j == idx)
  {
    var m := 0x80 >> (idx % 8);
    forall i | 0 <= i < 8
      ensures Bit(m, i) == (i == idx % 8)
    {
      BitOfMask(idx % 8, i);
    }
    OrInto(key, idx, m, true);
  }

  /** Bit `idx` of the address, moved to where bit `keyIdx` of a key stands in its byte. */
  method MovedBit(a: Address, idx: nat, keyIdx: nat) returns (bits: Byte)
    requires idx < 128
    ensures forall i | 0 <= i < 8 :: Bit(bits, i) == (i == keyIdx % 8 && BitAt(a, idx))
  {
    bits := a[idx / 8] & (0x80 >> (idx % 8));
    bits := bits << (idx % 8);
    bits := bits >> (keyIdx % 8);
    forall i | 0 <= i < 8
      ensures Bit(bits, i) == (i == keyIdx % 8 && BitAt(a, idx))
    {
      MoveBit(a[idx / 8], idx % 8, keyIdx % 8, i);
    }
  }

  method GetKey(a: Address) returns (r: Key)
    ensures r == KeyOf(a)
  {
    var key := new Byte[KEY_SIZE](_ => 0);
    FillInverse(a, key);
    InvertInPlace(key);
    forall j | 0 <= j < 256
      ensures BitAt(key[..], j) == BitAt(KeyOf(a), j)
    {
      assert BitAt(KeyOf(a), j) == KeyBit(a, j);
    }
    Extensional(key[..], KeyOf(a));
    return key[..];
  }

  /** The two loops of GetKey, before the final inversion. */
  method FillInverse(a: Address, key: array<Byte>)
    requires key.Length == KEY_SIZE && forall j | 0 <= j < KEY_SIZE :: key[j] == 0
    modifies key
    ensures forall j | 0 <= j < 256 :: BitAt(key[..], j) == !KeyBit(a, j)
  {
    assert forall j | 0 <= j < 256 :: !BitAt(key[..], j);
    hide BitAt;
    var ones := a[1] as int;
    for idx := 0 to ones
      invariant forall j | 0 <= j < 256 :: BitAt(key[..], j) == (j < idx)
    {
      SetBit(key, idx);
    }
    var keyOffset := ones + 1;
    var addrOffset := 16;
    var idx := addrOffset;
    while idx < 8 * |a|
      invariant 16 <= idx <= 128
      invariant forall j | 0 <= j < 256 ::
                  BitAt(key[..], j) == (j < ones || (ones < j <= ones + idx - 16 && BitAt(a, 15 + j - ones)))
    {
      var keyIdx := keyOffset + (idx - addrOffset);
      var bits := MovedBit(a, idx, keyIdx);
      if keyIdx / 8 >= key.Length {
        break;
      }
      OrInto(key, keyIdx, bits, BitAt(a, idx));
      idx := idx + 1;
    }
  }

  /** What keys are looked up by: the partial key of the key's subnet. */
  method KeyXform(key: Key) returns (r: Key)
    ensures r == BloomTransform(key)
  {
    hide AddrOf, KeyOf;
    var s := SubnetForKey(key);
    r := SubnetGetKey(s.value);
  }

  method SubnetGetKey(s: Subnet) returns (r: Key)
    ensures r == SubnetKeyOf(s)
  {
    var addr := new Byte[ADDRESS_SIZE](_ => 0);
    CopyInto(addr, 0, s);
    assert addr[..] == Fit(s, ADDRESS_SIZE);
    r := GetKey(addr[..]);
  }
}
