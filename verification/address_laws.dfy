/** What survives the trip from a key to its address or subnet and back. */
module AddressLaws {
  import opened Bits
  import opened Addresses

  /** The whole bytes of key bits that an address with run length `n` keeps. */
  function KeptBytes(n: nat): (l: nat)
    requires n < 256
    ensures l <= 14
  {
    if (255 - n) / 8 < 14 then (255 - n) / 8 else 14
  }

  lemma LeadUnique(k: Key, n: nat)
    requires n < 256 && BitAt(k, n) && forall j | 0 <= j < n :: !BitAt(k, j)
    ensures Lead(k) == n
  {
    var m := Lead(k);
    assert m < 256 ==> BitAt(k, m);
  }

  lemma ZeroKeyLead(k: Key)
    ensures k == ZERO_KEY <==> Lead(k) == 256
  {
    if Lead(k) == 256 {
      forall j | 0 <= j < 8 * |k|
        ensures BitAt(k, j) == BitAt(ZERO_KEY, j)
      {
        ZeroByteBits(j % 8);
      }
      Extensional(k, ZERO_KEY);
    } else if k == ZERO_KEY {
      ZeroByteBits(Lead(k) % 8);
    }
  }

  lemma ZeroByteBits(i: nat)
    requires i < 8
    ensures !Bit(0, i)
  {
  }

  /** The run length byte of an address. */
  lemma RunByte(k: Key)
    ensures AddrOf(k)[0] == PREFIX
    ensures AddrOf(k)[1] as nat == if Lead(k) == 256 then 0 else Lead(k)
  {
    CounterWraps(Lead(k));
  }

  /** Bit `j` of an address after the prefix and the run length. */
  predicate TailBit(a: Address, j: nat)
    requires j < 112
  {
    BitAt(a, 16 + j)
  }

  /** Every bit of an address after the run length. */
  lemma AddressBit(k: Key, j: nat)
    requires j < 112
    ensures TailBit(AddrOf(k), j) <==>
            Lead(k) < 256 && j < 8 * ((255 - Lead(k)) / 8) && !BitAt(k, Lead(k) + 1 + j)
  {
    AddressTail(k, j);
    RestBits(k);
    hide BitAt, TailBit, Lead, AddrOf, Rest, Pack;
  }

  lemma AddressTail(k: Key, j: nat)
    requires j < 112
    ensures TailBit(AddrOf(k), j) <==> j < 8 * |Pack(Rest(k))| && BitAt(Pack(Rest(k)), j)
  {
    AddressByte(k, j / 8);
    ZeroByteBits(j % 8);
    hide AddrOf, Rest, Pack, Bit;
    assert (16 + j) / 8 == 2 + j / 8 && (16 + j) % 8 == j % 8;
  }

  lemma AddressByte(k: Key, i: nat)
    requires i < 14
    ensures AddrOf(k)[2 + i] == if i < |Pack(Rest(k))| then Pack(Rest(k))[i] else 0
  {
    hide Pack, Rest, Lead;
  }

  lemma RestBits(k: Key)
    ensures |Pack(Rest(k))| == RestLength(Lead(k)) / 8
    ensures forall j | 0 <= j < 8 * |Pack(Rest(k))| :: BitAt(Pack(Rest(k)), j) == !BitAt(k, Lead(k) + 1 + j)
  {
    hide BitAt, Pack, Lead;
  }

  lemma KeyOfBit(a: Address, i: nat)
    requires i < 256
    ensures BitAt(KeyOf(a), i) == (if i < a[1] as int then false
                                   else if a[1] as int < i < a[1] as int + 113 then !TailBit(a, i - a[1] as int - 1)
                                   else true)
  {
    assert BitAt(KeyOf(a), i) == KeyBit(a, i);
  }

  lemma LeadOfKeyOf(a: Address)
    ensures Lead(KeyOf(a)) == a[1] as nat
  {
    hide KeyOf, TailBit, Lead, BitAt;
    var n := a[1] as nat;
    forall j | 0 <= j <= n
      ensures BitAt(KeyOf(a), j) == (j == n)
    {
      KeyOfBit(a, j);
    }
    LeadUnique(KeyOf(a), n);
  }

  /** A partial key agrees with the key on the run, the first one bit and every whole byte that fits the
      address; what the address does not determine reads as ones. */
  lemma PartialKey(k: Key, i: nat)
    requires k != ZERO_KEY && i < 256
    ensures Lead(k) < 256
    ensures BitAt(KeyOf(AddrOf(k)), i) == if i < Lead(k) + 1 + 8 * KeptBytes(Lead(k)) then BitAt(k, i) else true
  {
    hide BitAt, Lead, AddrOf, KeyOf, TailBit;
    ZeroKeyLead(k);
    RunByte(k);
    KeyOfBit(AddrOf(k), i);
    var n := Lead(k);
    if n < i < n + 113 {
      AddressBit(k, i - n - 1);
    }
  }

  /** The key of 256 zero bits overflows the run length, and reads back as the key of all ones. */
  lemma ZeroKeyReadsBack(i: nat)
    requires i < 256
    ensures BitAt(KeyOf(AddrOf(ZERO_KEY)), i)
  {
    ZeroKeyLead(ZERO_KEY);
    RunByte(ZERO_KEY);
    KeyOfBit(AddrOf(ZERO_KEY), i);
    if 0 < i < 113 {
      AddressBit(ZERO_KEY, i - 1);
    }
  }

  /** Two addresses with one prefix, run length and tail. */
  lemma SameAddress(a: Address, b: Address)
    requires a[0] == b[0] && a[1] == b[1]
    requires forall j | 0 <= j < 112 :: TailBit(a, j) == TailBit(b, j)
    ensures a == b
  {
    forall j | 0 <= j < 8 * |a|
      ensures BitAt(a, j) == BitAt(b, j)
    {
      if j >= 16 {
        assert TailBit(a, j - 16) == TailBit(b, j - 16);
      }
    }
    Extensional(a, b);
  }

  /** Bytes past the last whole byte of key bits are zero. */
  predicate ZeroTail(s: seq<Byte>)
    requires |s| >= 2
  {
    forall i | 2 + (255 - s[1] as int) / 8 <= i < |s| :: s[i] == 0
  }

  lemma ZeroTailBit(a: Address, j: nat)
    requires ZeroTail(a) && j < 112 && j >= 8 * ((255 - a[1] as int) / 8)
    ensures !TailBit(a, j)
  {
    assert a[2 + j / 8] == 0;
    ZeroByteBits(j % 8);
  }

  /** Every bit of the address derived from a partial key. */
  lemma ReturnBit(a: Address, j: nat)
    requires j < 112
    ensures TailBit(AddrOf(KeyOf(a)), j) <==> j < 8 * ((255 - a[1] as int) / 8) && TailBit(a, j)
  {
    hide BitAt, Lead, AddrOf, KeyOf, TailBit;
    var n := a[1] as nat;
    LeadOfKeyOf(a);
    AddressBit(KeyOf(a), j);
    if j < 8 * ((255 - n) / 8) {
      KeyOfBit(a, n + 1 + j);
    }
  }

  /** Looking up the partial key of an address leads back to that address exactly when the address carries
      the node prefix and no bits past the last whole byte. */
  lemma AddressRoundTrip(a: Address)
    ensures AddrOf(KeyOf(a)) == a <==> AddressValid(a) && ZeroTail(a)
  {
    var b := AddrOf(KeyOf(a));
    LeadOfKeyOf(a);
    RunByte(KeyOf(a));
    ByteValueInjective(a[1], b[1]);
    if AddressValid(a) && ZeroTail(a) {
      forall j | 0 <= j < 112
        ensures TailBit(a, j) == TailBit(b, j)
      {
        ReturnBit(a, j);
        if j >= 8 * ((255 - a[1] as int) / 8) {
          ZeroTailBit(a, j);
        }
      }
      SameAddress(a, b);
    }
    if b == a {
      DerivedZeroTail(KeyOf(a));
    }
  }

  lemma ByteValueInjective(b: Byte, c: Byte)
    ensures b as nat == c as nat <==> b == c
  {
  }

  lemma DerivedZeroTail(k: Key)
    ensures ZeroTail(AddrOf(k))
  {
    RunByte(k);
    var a := AddrOf(k);
    forall i | 2 + (255 - a[1] as int) / 8 <= i < |a|
      ensures a[i] == 0
    {
      assert |Pack(Rest(k))| <= (255 - a[1] as int) / 8;
    }
  }

  /** In particular for every address with a run length of at most 143, where all 112 tail bits are key bits. */
  lemma ShortRunAddressRoundTrip(a: Address)
    requires AddressValid(a) && a[1] as int <= 143
    ensures AddrOf(KeyOf(a)) == a
  {
    AddressRoundTrip(a);
  }

  /** An address is a fixed point of reading its partial key and deriving again, for every key. */
  lemma AddressStable(k: Key)
    ensures AddrOf(KeyOf(AddrOf(k))) == AddrOf(k)
  {
    AddressRoundTrip(AddrOf(k));
    RunByte(k);
    DerivedZeroTail(k);
  }

  lemma SubnetBytes(k: Key)
    ensures SubnetValid(SubnetOf(k))
    ensures forall i | 1 <= i < SUBNET_SIZE :: SubnetOf(k)[i] == AddrOf(k)[i]
    ensures ZeroTail(SubnetOf(k))
  {
    RunByte(k);
    DerivedZeroTail(k);
    hide AddrOf;
  }

  /** The partial key of a subnet is that of the address with the same run and tail, zero-filled. */
  lemma SubnetKeyAsAddress(s: Subnet)
    ensures SubnetKeyOf(s) == KeyOf(Fit(s, ADDRESS_SIZE)[0 := PREFIX])
  {
    KeyIgnoresPrefix(Fit(s, ADDRESS_SIZE), Fit(s, ADDRESS_SIZE)[0 := PREFIX]);
  }

  lemma KeyIgnoresPrefix(a: Address, b: Address)
    requires forall i | 1 <= i < 16 :: a[i] == b[i]
    ensures KeyOf(a) == KeyOf(b)
  {
    hide Bit, Pack;
    forall i | 0 <= i < 256
      ensures KeyBit(a, i) == KeyBit(b, i)
    {
      var n := a[1] as int;
      if n < i < n + 113 {
        var j := 16 + (i - n - 1);
        assert 1 <= j / 8 < 16;
        assert a[j / 8] == b[j / 8];
      }
    }
    assert seq(256, i requires 0 <= i < 256 => KeyBit(a, i)) == seq(256, i requires 0 <= i < 256 => KeyBit(b, i));
  }

  /** Looking up the partial key of a subnet leads back to that subnet exactly when it carries the subnet
      prefix and no bits past the last whole byte. */
  lemma SubnetRoundTrip(s: Subnet)
    ensures SubnetOf(SubnetKeyOf(s)) == s <==> SubnetValid(s) && ZeroTail(s)
  {
    var a: Address := Fit(s, ADDRESS_SIZE)[0 := PREFIX];
    SubnetKeyAsAddress(s);
    var t := SubnetOf(KeyOf(a));
    SubnetBytes(KeyOf(a));
    AddressRoundTrip(a);
    hide AddrOf, KeyOf, SubnetOf;
    if SubnetValid(s) && ZeroTail(s) {
      assert ZeroTail(a) by {
        assert a[1] == s[1];
      }
      assert AddrOf(KeyOf(a)) == a;
      hide ZeroTail;
      assert forall i | 0 <= i < SUBNET_SIZE :: t[i] == s[i];
    }
  }

  lemma ShortRunSubnetRoundTrip(s: Subnet)
    requires SubnetValid(s) && s[1] as int <= 207
    ensures SubnetOf(SubnetKeyOf(s)) == s
  {
    SubnetRoundTrip(s);
  }

  lemma SubnetStable(k: Key)
    ensures SubnetOf(SubnetKeyOf(SubnetOf(k))) == SubnetOf(k)
  {
    SubnetRoundTrip(SubnetOf(k));
    SubnetBytes(k);
  }

  /** Equal addresses give equal subnets. */
  lemma SubnetOfAddress(k: Key, k': Key)
    requires AddrOf(k) == AddrOf(k')
    ensures SubnetOf(k) == SubnetOf(k')
  {
  }

  /** A lookup by a partial key is transformed like the full key: whether the partial key comes from the
      address, from the subnet or from the transform itself. */
  lemma BloomTransformAgrees(k: Key)
    ensures BloomTransform(BloomTransform(k)) == BloomTransform(k)
    ensures BloomTransform(KeyOf(AddrOf(k))) == BloomTransform(k)
    ensures BloomTransform(SubnetKeyOf(SubnetOf(k))) == BloomTransform(k)
  {
    SubnetStable(k);
    AddressStable(k);
    SubnetOfAddress(KeyOf(AddrOf(k)), k);
  }

  /** The transform keeps the run, the first one bit and every whole byte that fits the subnet, six at most, and sets
      all the rest. */
  lemma TransformBits(k: Key, i: nat)
    requires k != ZERO_KEY && i < 256
    ensures Lead(k) < 256
    ensures BitAt(BloomTransform(k), i) == if i < Lead(k) + 1 + 8 * SubnetKept(Lead(k)) then BitAt(k, i) else true
  {
    hide BitAt, Lead, AddrOf, SubnetOf, KeyOf, TailBit, Fit, SubnetKept;
    var a, n := Fit(SubnetOf(k), ADDRESS_SIZE), Lead(k);
    ZeroKeyLead(k);
    RunByte(k);
    SubnetTail(k);
    KeyOfBit(a, i);
    if i <= n {
      RunBits(k, i);
    } else if i < n + 113 {
      AddressBit(k, i - n - 1);
      KeptBits(n, i - n - 1);
    } else {
      KeptBits(n, 48);
    }
  }

  function SubnetKept(n: nat): (l: nat)
    requires n < 256
    ensures l <= 6
  {
    if (255 - n) / 8 < 6 then (255 - n) / 8 else 6
  }

  lemma KeptBits(n: nat, j: nat)
    requires n < 256
    ensures j < 8 * SubnetKept(n) <==> j < 48 && j < 8 * ((255 - n) / 8)
  {
  }

  lemma RunBits(k: Key, i: nat)
    requires i <= Lead(k) < 256
    ensures BitAt(k, i) == (i == Lead(k))
  {
  }

  lemma SubnetTail(k: Key)
    ensures var a := Fit(SubnetOf(k), ADDRESS_SIZE);
            && a[1] == AddrOf(k)[1]
            && (forall j | 0 <= j < 48 :: TailBit(a, j) == TailBit(AddrOf(k), j))
            && (forall j | 48 <= j < 112 :: !TailBit(a, j))
  {
    hide AddrOf;
    var a := Fit(SubnetOf(k), ADDRESS_SIZE);
    forall j | 48 <= j < 112
      ensures !TailBit(a, j)
    {
      assert a[2 + j / 8] == 0;
      ZeroHasNoBits(j % 8);
    }
  }

  lemma ZeroHasNoBits(i: nat)
    requires i < 8
    ensures !Bit(0, i)
  {
  }
}
