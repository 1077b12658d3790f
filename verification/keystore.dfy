/** The key store with its five maps updated in place, step for step as the state machine. A record or a
    buffer is a value with an identity number, so that comparing pointers is comparing identities. */
module KeyStores {
  import opened Bits
  import opened Addresses
  import opened KeyStoreSpec
  import opened KeyStoreLaws
  import opened KeyStoreFates

  /** Every record carries the address and subnet of the key it is filed under. */
  ghost predicate Known(m: map<Key, Info>) {
    forall k | k in m :: m[k].address == AddrOf(k) && m[k].subnet == SubnetOf(k)
  }

  lemma KnownMore(m: map<Key, Info>, info: Info)
    requires Known(m) && info.address == AddrOf(info.key) && info.subnet == SubnetOf(info.key)
    ensures Known(m[info.key := info])
  {
  }

  // ----- Two maps seen as one -----

  ghost function Merge<A(!new), N(!new), V>(am: map<A, V>, sm: map<N, V>): map<Tagged<A, N>, V> {
    (map a | a in am :: ToAddress(a) := am[a]) + (map n | n in sm :: ToSubnet(n) := sm[n])
  }

  lemma MergeAt<A(!new), N(!new), V>(am: map<A, V>, sm: map<N, V>)
    ensures forall a :: ToAddress(a) in Merge(am, sm) <==> a in am
    ensures forall n :: ToSubnet(n) in Merge(am, sm) <==> n in sm
    ensures forall a | a in am :: Merge(am, sm)[ToAddress(a)] == am[a]
    ensures forall n | n in sm :: Merge(am, sm)[ToSubnet(n)] == sm[n]
  {
  }

  lemma MergeNothing<A(!new), N(!new), V>()
    ensures Merge<A, N, V>(map[], map[]) == map[]
  {
  }

  lemma MergeSetAddress<A(!new), N(!new), V>(am: map<A, V>, sm: map<N, V>, a: A, v: V)
    ensures Merge(am[a := v], sm) == Merge(am, sm)[ToAddress(a) := v]
  {
  }

  lemma MergeSetSubnet<A(!new), N(!new), V>(am: map<A, V>, sm: map<N, V>, n: N, v: V)
    ensures Merge(am, sm[n := v]) == Merge(am, sm)[ToSubnet(n) := v]
  {
  }

  lemma MergeDropAddress<A(!new), N(!new), V>(am: map<A, V>, sm: map<N, V>, a: A)
    ensures Merge(am - {a}, sm) == Merge(am, sm) - {ToAddress(a)}
  {
  }

  lemma MergeDropSubnet<A(!new), N(!new), V>(am: map<A, V>, sm: map<N, V>, n: N)
    ensures Merge(am, sm - {n}) == Merge(am, sm) - {ToSubnet(n)}
  {
  }

  class KeyStore {
    const own: Key
    const address: Address
    const subnet: Subnet
    var mtu: nat
    var keyToInfo: map<Key, Info>
    var addrToInfo: map<Address, Info>
    var addrBuffer: map<Address, Held>
    var subnetToInfo: map<Subnet, Info>
    var subnetBuffer: map<Subnet, Held>
    var nextId: nat
    var written: seq<Sent>  // packets given to the core, with the key they go to
    var lookups: seq<Key>  // partial keys the core was asked to look up

    ghost var timers: seq<Timer>  // every arming of a timer, in order
    ghost var accepted: seq<Packet>
    ghost var superseded: seq<nat>
    ghost var expired: seq<nat>
    var serial: nat

    ghost predicate Valid()
      reads this
    {
      address == AddrOf(own) && subnet == SubnetOf(own) && serial == |accepted| && Known(keyToInfo)
    }

    ghost function Model(): State
      reads this
    {
      State(own, mtu, keyToInfo, Merge(addrToInfo, subnetToInfo), Merge(addrBuffer, subnetBuffer),
            timers, nextId, accepted, written, superseded, expired, lookups)
    }

    constructor (publicKey: Key)
      ensures Valid() && Model() == Init(publicKey)
    {
      hide AddrOf, SubnetOf, Merge;
      MergeNothing<Address, Subnet, Info>();
      MergeNothing<Address, Subnet, Held>();
      var a := AddrForKey(publicKey);
      var n := SubnetForKey(publicKey);
      own, address, subnet := publicKey, a.value, n.value;
      mtu, nextId, serial := 1280, 0, 0;
      keyToInfo, addrToInfo, addrBuffer, subnetToInfo, subnetBuffer := map[], map[], map[], map[], map[];
      written, lookups, timers, accepted, superseded, expired := [], [], [], [], [], [];
    }

    /** Arms a new timeout. Stopping the old one promises nothing, as it may be waiting for the lock already. */
    method ResetTimeout(info: Info)
      modifies this`timers
      ensures timers == old(timers) + [InfoTimer(info)]
    {
      timers := timers + [InfoTimer(info)];
    }

    method SendToAddress(addr: Address, bs: Packet, n: nat)
      requires Valid()
      modifies this
      ensures Valid() && Model() == SendTo(old(Model()), ToAddress(addr), bs, n)
    {
      hide AddrOf, SubnetOf, KeyOf, SubnetKeyOf, Merge;
      MergeAt(addrToInfo, subnetToInfo);
      MergeAt(addrBuffer, subnetBuffer);
      if addr in addrToInfo {
        var info := addrToInfo[addr];
        ResetTimeout(info);
        written := written + [Sent(bs, info.key, n)];
      } else {
        HoldAddress(addr, bs, n);
        timers := timers + [BufferTimer(ToAddress(addr), addrBuffer[addr].buf)];
        var partial := GetKey(addr);
        lookups := lookups + [partial];
      }
    }

    /** Puts the packet into the buffer of its address, making one if there is none. */
    method HoldAddress(addr: Address, bs: Packet, n: nat)
      modifies this`addrBuffer, this`nextId, this`superseded
      ensures addr in addrBuffer
      ensures addrBuffer[addr] == Held(if addr in old(addrBuffer) then old(addrBuffer[addr].buf)
              else old(nextId), bs, n)
      ensures Merge(addrBuffer, subnetBuffer) ==
              old(Merge(addrBuffer, subnetBuffer))[ToAddress(addr) := addrBuffer[addr]]
      ensures nextId == if addr in old(addrBuffer) then old(nextId) else old(nextId) + 1
      ensures superseded == if addr in old(addrBuffer) then old(superseded) + [old(addrBuffer[addr].serial)]
              else old(superseded)
    {
      hide Merge;
      var buf := nextId;
      if addr in addrBuffer {
        buf := addrBuffer[addr].buf;
        superseded := superseded + [addrBuffer[addr].serial];
      } else {
        nextId := nextId + 1;
      }
      MergeSetAddress(addrBuffer, subnetBuffer, addr, Held(buf, bs, n));
      addrBuffer := addrBuffer[addr := Held(buf, bs, n)];
    }

    method SendToSubnet(net: Subnet, bs: Packet, n: nat)
      requires Valid()
      modifies this
      ensures Valid() && Model() == SendTo(old(Model()), ToSubnet(net), bs, n)
    {
      hide AddrOf, SubnetOf, KeyOf, SubnetKeyOf, Merge;
      MergeAt(addrToInfo, subnetToInfo);
      MergeAt(addrBuffer, subnetBuffer);
      if net in subnetToInfo {
        var info := subnetToInfo[net];
        ResetTimeout(info);
        written := written + [Sent(bs, info.key, n)];
      } else {
        HoldSubnet(net, bs, n);
        timers := timers + [BufferTimer(ToSubnet(net), subnetBuffer[net].buf)];
        var partial := SubnetGetKey(net);
        lookups := lookups + [partial];
      }
    }

    /** Puts the packet into the buffer of its subnet, making one if there is none. */
    method HoldSubnet(net: Subnet, bs: Packet, n: nat)
      modifies this`subnetBuffer, this`nextId, this`superseded
      ensures net in subnetBuffer
      ensures subnetBuffer[net] ==
              Held(if net in old(subnetBuffer) then old(subnetBuffer[net].buf) else old(nextId), bs, n)
      ensures Merge(addrBuffer, subnetBuffer) ==
              old(Merge(addrBuffer, subnetBuffer))[ToSubnet(net) := subnetBuffer[net]]
      ensures nextId == if net in old(subnetBuffer) then old(nextId) else old(nextId) + 1
      ensures superseded == if net in old(subnetBuffer) then old(superseded) + [old(subnetBuffer[net].serial)]
              else old(superseded)
    {
      hide Merge;
      var buf := nextId;
      if net in subnetBuffer {
        buf := subnetBuffer[net].buf;
        superseded := superseded + [subnetBuffer[net].serial];
      } else {
        nextId := nextId + 1;
      }
      MergeSetSubnet(addrBuffer, subnetBuffer, net, Held(buf, bs, n));
      subnetBuffer := subnetBuffer[net := Held(buf, bs, n)];
    }

    method WritePC(bs: Packet) returns (r: WriteResult)
      requires Valid()
      modifies this
      ensures Valid() && Model() == Write(old(Model()), bs) && r == WriteOutcome(own, bs)
    {
      hide AddrOf, SubnetOf, SendTo, Merge, Known;
      r := Validate(bs);
      if !r.Wrote? {
        return;
      }
      var srcAddr, dstAddr := Source(bs), Destination(bs);
      var srcSubnet, dstSubnet := SubnetPart(srcAddr), SubnetPart(dstAddr);
      if srcAddr != address && srcSubnet != subnet {
        return BadSource;
      }
      if AddressValid(dstAddr) {
        accepted := accepted + [bs];
        serial := serial + 1;
        SendToAddress(dstAddr, bs, serial - 1);
      } else if SubnetValid(dstSubnet) {
        accepted := accepted + [bs];
        serial := serial + 1;
        SendToSubnet(dstSubnet, bs, serial - 1);
      } else {
        return BadDestination;
      }
    }

    method FlushAddress(addr: Address, key: Key)
      requires Valid()
      modifies this`addrBuffer, this`written
      ensures Valid() && Model() == Flush(old(Model()), ToAddress(addr), key)
    {
      hide AddrOf, SubnetOf, Merge;
      MergeAt(addrBuffer, subnetBuffer);
      if addr in addrBuffer {
        var held := addrBuffer[addr];
        MergeDropAddress(addrBuffer, subnetBuffer, addr);
        addrBuffer := addrBuffer - {addr};
        written := written + [Sent(held.packet, key, held.serial)];
      }
    }

    method FlushSubnet(net: Subnet, key: Key)
      requires Valid()
      modifies this`subnetBuffer, this`written
      ensures Valid() && Model() == Flush(old(Model()), ToSubnet(net), key)
    {
      hide AddrOf, SubnetOf, Merge;
      MergeAt(addrBuffer, subnetBuffer);
      if net in subnetBuffer {
        var held := subnetBuffer[net];
        MergeDropSubnet(addrBuffer, subnetBuffer, net);
        subnetBuffer := subnetBuffer - {net};
        written := written + [Sent(held.packet, key, held.serial)];
      }
    }

    method UpdateKey(key: Key) returns (info: Info)
      requires Valid()
      modifies this
      ensures Valid() && Model() == Update(old(Model()), key)
      ensures info.address == AddrOf(key) && info.subnet == SubnetOf(key)
      ensures key in keyToInfo && keyToInfo[key] == info && InfoTimer(info) in timers
      ensures key !in old(keyToInfo) ==> superseded == old(superseded) && expired == old(expired)
      ensures key !in old(keyToInfo) ==> old(written) <= written
      ensures key !in old(keyToInfo) ==>
                forall d | d in old(Model()).buffers && Derives(key, d) ::
                  && d !in Model().buffers
                  && Sent(old(Model()).buffers[d].packet, key, old(Model()).buffers[d].serial) in written
    {
      hide Flush, AddrOf, SubnetOf, Merge;
      UpdatePays(Model(), key);
      if key in keyToInfo {
        info := keyToInfo[key];
        ResetTimeout(info);
      } else {
        info := AddKey(key);
        FlushAddress(info.address, info.key);
        FlushSubnet(info.subnet, info.key);
      }
    }

    method AddKey(key: Key) returns (info: Info)
      requires Valid()
      modifies this
      ensures Valid() && info == NewInfo(old(Model()), key) && Model() == Learn(old(Model()), info)
    {
      var a := AddrForKey(key);
      var n := SubnetForKey(key);
      hide AddrOf, SubnetOf, Merge, Known;
      info := Info(nextId, key, a.value, n.value);
      nextId := nextId + 1;
      KnownMore(keyToInfo, info);
      TrackInfo(info);
    }

    method TrackInfo(info: Info)
      modifies this`keyToInfo, this`addrToInfo, this`subnetToInfo, this`timers
      ensures Model() == old(Model()).(keyToInfo := keyToInfo, timers := timers,
              index := Merge(addrToInfo, subnetToInfo))
      ensures keyToInfo == old(keyToInfo)[info.key := info] && timers == old(timers) + [InfoTimer(info)]
      ensures Merge(addrToInfo, subnetToInfo) ==
              old(Merge(addrToInfo, subnetToInfo))[ToAddress(info.address) := info][ToSubnet(info.subnet) := info]
    {
      hide Merge;
      keyToInfo := keyToInfo[info.key := info];
      IndexInfo(info);
      ResetTimeout(info);
    }

    method IndexInfo(info: Info)
      modifies this`addrToInfo, this`subnetToInfo
      ensures Merge(addrToInfo, subnetToInfo) ==
              old(Merge(addrToInfo, subnetToInfo))[ToAddress(info.address) := info][ToSubnet(info.subnet) := info]
    {
      hide Merge;
      MergeSetAddress(addrToInfo, subnetToInfo, info.address, info);
      addrToInfo := addrToInfo[info.address := info];
      MergeSetSubnet(addrToInfo, subnetToInfo, info.subnet, info);
      subnetToInfo := subnetToInfo[info.subnet := info];
    }

    /** The callback of a record's timeout. */
    method InfoTimedOut(info: Info)
      requires Valid() && InfoTimer(info) in timers
      modifies this
      ensures Valid() && Model() == Fire(old(Model()), InfoTimer(info))
    {
      hide AddrOf, SubnetOf, Merge;
      if info.key in keyToInfo && keyToInfo[info.key] == info {
        keyToInfo := keyToInfo - {info.key};
      }
      ForgetAddress(info);
      ForgetSubnet(info);
    }

    method ForgetAddress(info: Info)
      modifies this`addrToInfo
      ensures Merge(addrToInfo, subnetToInfo) ==
              Without(old(Merge(addrToInfo, subnetToInfo)), ToAddress(info.address), info)
    {
      hide Merge;
      MergeAt(addrToInfo, subnetToInfo);
      if info.address in addrToInfo && addrToInfo[info.address] == info {
        MergeDropAddress(addrToInfo, subnetToInfo, info.address);
        addrToInfo := addrToInfo - {info.address};
      }
    }

    method ForgetSubnet(info: Info)
      modifies this`subnetToInfo
      ensures Merge(addrToInfo, subnetToInfo) ==
              Without(old(Merge(addrToInfo, subnetToInfo)), ToSubnet(info.subnet), info)
    {
      hide Merge;
      MergeAt(addrToInfo, subnetToInfo);
      if info.subnet in subnetToInfo && subnetToInfo[info.subnet] == info {
        MergeDropSubnet(addrToInfo, subnetToInfo, info.subnet);
        subnetToInfo := subnetToInfo - {info.subnet};
      }
    }

    /** The callback of the timeout of a buffer for one address. */
    method AddressBufferTimedOut(addr: Address, buf: nat)
      requires Valid() && BufferTimer(ToAddress(addr), buf) in timers
      modifies this
      ensures Valid() && Model() == Fire(old(Model()), BufferTimer(ToAddress(addr), buf))
    {
      hide AddrOf, SubnetOf, Merge;
      MergeAt(addrBuffer, subnetBuffer);
      if addr in addrBuffer && addrBuffer[addr].buf == buf {
        expired := expired + [addrBuffer[addr].serial];
        MergeDropAddress(addrBuffer, subnetBuffer, addr);
        addrBuffer := addrBuffer - {addr};
      }
    }

    /** The callback of the timeout of a buffer for one subnet. */
    method SubnetBufferTimedOut(net: Subnet, buf: nat)
      requires Valid() && BufferTimer(ToSubnet(net), buf) in timers
      modifies this
      ensures Valid() && Model() == Fire(old(Model()), BufferTimer(ToSubnet(net), buf))
    {
      hide AddrOf, SubnetOf, Merge;
      MergeAt(addrBuffer, subnetBuffer);
      if net in subnetBuffer && subnetBuffer[net].buf == buf {
        expired := expired + [subnetBuffer[net].serial];
        MergeDropSubnet(addrBuffer, subnetBuffer, net);
        subnetBuffer := subnetBuffer - {net};
      }
    }

    method SetMTU(m: nat, maxMTU: nat)
      requires Valid()
      modifies this`mtu
      ensures Valid() && Model() == Step(old(Model()), KeyStoreSpec.SetMTU(m, maxMTU))
      ensures mtu >= 1280 && (maxMTU >= 1280 ==> mtu <= maxMTU) && (1280 <= m <= maxMTU ==> mtu == m)
      ensures m > maxMTU >= 1280 ==> mtu == maxMTU
    {
      hide AddrOf, SubnetOf, Merge;
      var mtu' := m;
      if mtu' > maxMTU {
        mtu' := maxMTU;
      }
      if mtu' < 1280 {
        mtu' := 1280;
      }
      mtu := mtu';
    }

    /** Reads from the core until a packet may be passed up or the core fails; here, for what the core has to give
        and then a failure or nothing. The first packet is passed up that is for this node and comes from an
        address of the key that sent it, cut to the room there is; all before it are dropped. */
    method ReadPC(room: nat, incoming: seq<CoreRead>, fails: bool) returns (r: ReadResult, n: nat)
      requires Valid()
      modifies this
      ensures Valid() && n <= |incoming| && Model() == Run(old(Model()), CoreEvents(incoming[..n]))
      ensures r.Passed? ==> n > 0 && DeliveredAt(old(Model()), incoming, n - 1)
                            && r.bytes == Cut(incoming[n - 1].packet, room) && WellFormed(incoming[n - 1].packet)
                            && Belongs(Destination(incoming[n - 1].packet), own)
                            && Belongs(Source(incoming[n - 1].packet), incoming[n - 1].from)
      ensures forall i | 0 <= i < if r.Passed? then n - 1 else n :: !DeliveredAt(old(Model()), incoming, i)
      ensures !r.Passed? ==> n == |incoming| && r == if fails then CoreFailed else Waiting
    {
      hide Receive, AddrOf, SubnetOf, CoreEvents, Run, Merge, Known;
      n := 0;
      RunNone(Model(), incoming);
      while n < |incoming|
        invariant Valid() && n <= |incoming|
        invariant Model() == Run(old(Model()), CoreEvents(incoming[..n]))
        invariant forall i | 0 <= i < n :: !DeliveredAt(old(Model()), incoming, i)
      {
        var delivered := ReadOne(incoming[n]);
        RunOneMore(old(Model()), incoming, n);
        n := n + 1;
        if delivered {
          return Passed(Cut(incoming[n - 1].packet, room)), n;
        }
      }
      return if fails then CoreFailed else Waiting, n;
    }

    /** One iteration of that loop. */
    method ReadOne(read: CoreRead) returns (delivered: bool)
      requires Valid()
      modifies this
      ensures Valid() && Model() == Receive(old(Model()), read)
      ensures delivered <==> Delivered(old(Model()), read)
    {
      hide Update, Write, AddrOf, SubnetOf, Merge, Known;
      var bs := read.packet;
      if !IsIPv6(bs) || |bs| < 40 {
        return false;
      }
      if |bs| > mtu {
        if read.tooBig.Some? {
          var _ := WritePC(read.tooBig.value);
        }
        return false;
      }
      var srcAddr, dstAddr := Source(bs), Destination(bs);
      if dstAddr != address && SubnetPart(dstAddr) != subnet {
        return false;
      }
      var info := UpdateKey(read.from);
      return srcAddr == info.address || SubnetPart(srcAddr) == info.subnet;
    }
  }

  lemma UpdatePays(s: State, key: Key)
    ensures var s' := Update(s, key);
            && key in s'.keyToInfo && s'.timers == s.timers + [InfoTimer(s'.keyToInfo[key])]
            && (key !in s.keyToInfo ==>
                  && s'.superseded == s.superseded && s'.expired == s.expired && s.sent <= s'.sent
                  && forall d | d in s.buffers && Derives(key, d) ::
                       d !in s'.buffers && Sent(s.buffers[d].packet, key, s.buffers[d].serial) in s'.sent)
  {
    hide Update;
    if key in s.keyToInfo {
      KnownKeyIsRearmed(s, key);
    } else {
      NewKeyGetsItsPackets(s, key);
    }
  }

  datatype ReadResult = Passed(bytes: Packet) | CoreFailed | Waiting

  function Cut(p: Packet, room: nat): (r: Packet)
    ensures r <= p && |r| == if |p| < room then |p| else room
  {
    if |p| <= room then p else p[..room]
  }

  /** The packet numbered `i` may be passed up when its turn comes. */
  ghost predicate DeliveredAt(s: State, incoming: seq<CoreRead>, i: nat)
    requires i < |incoming|
  {
    Delivered(Run(s, CoreEvents(incoming[..i])), incoming[i])
  }

  ghost function CoreEvents(incoming: seq<CoreRead>): seq<Event> {
    seq(|incoming|, i requires 0 <= i < |incoming| => CoreEvent(incoming[i]))
  }

  lemma RunNone(s: State, incoming: seq<CoreRead>)
    ensures Run(s, CoreEvents(incoming[..0])) == s
  {
  }

  lemma RunOneMore(s: State, incoming: seq<CoreRead>, n: nat)
    requires n < |incoming|
    ensures Run(s, CoreEvents(incoming[..n + 1])) == Receive(Run(s, CoreEvents(incoming[..n])), incoming[n])
  {
    assert CoreEvents(incoming[..n + 1]) == CoreEvents(incoming[..n]) + [CoreEvent(incoming[n])];
    RunAppend(s, CoreEvents(incoming[..n]), CoreEvent(incoming[n]));
  }
}
