/** The key store as a state machine: which key a destination is known to belong to, the one packet held
    back for each unknown destination, and the timers that may still go off. */
module KeyStoreSpec {
  import opened Bits
  import opened Addresses

  type Packet = seq<Byte>

  /** A destination is a single address or a whole subnet. The store keeps one map for each kind; here, and in
      what is proved, the two are one map over destinations. */
  datatype Tagged<+A, +N> = ToAddress(addr: A) | ToSubnet(subnet: N)

  type Dest = Tagged<Address, Subnet>

  /** What is known about a key. `id` stands for the identity of the record. */
  datatype Info = Info(id: nat, key: Key, address: Address, subnet: Subnet)

  /** A held-back packet; `serial` counts the packets accepted for sending. */
  datatype Held = Held(buf: nat, packet: Packet, serial: nat)

  datatype Sent = Sent(packet: Packet, key: Key, serial: nat)

  datatype Timer = InfoTimer(info: Info) | BufferTimer(dest: Dest, buf: nat)

  datatype State = State(
    own: Key,
    mtu: nat,
    keyToInfo: map<Key, Info>,
    index: map<Dest, Info>,
    buffers: map<Dest, Held>,
    timers: seq<Timer>,
    nextId: nat,
    accepted: seq<Packet>,
    sent: seq<Sent>,
    superseded: seq<nat>,
    expired: seq<nat>,
    lookups: seq<Key>)

  function Init(own: Key): State {
    State(own, 1280, map[], map[], map[], [], 0, [], [], [], [], [])
  }

  // ----- Packets -----

  predicate IsIPv6(p: Packet) {
    |p| > 0 && p[0] & 0xf0 == 0x60
  }

  predicate WellFormed(p: Packet) {
    IsIPv6(p) && |p| >= 40
  }

  function Source(p: Packet): Address
    requires WellFormed(p)
  {
    p[8..24]
  }

  function Destination(p: Packet): Address
    requires WellFormed(p)
  {
    p[24..40]
  }

  function SubnetPart(a: Address): Subnet {
    a[..8]
  }

  /** The address or its subnet is one of those derived from the key. */
  predicate Belongs(a: Address, k: Key) {
    a == AddrOf(k) || SubnetPart(a) == SubnetOf(k)
  }

  /** Where a packet goes: by address, by subnet, or nowhere. */
  function Target(a: Address): Option<Dest> {
    if AddressValid(a) then Some(ToAddress(a))
    else if SubnetValid(SubnetPart(a)) then Some(ToSubnet(SubnetPart(a)))
    else None
  }

  function PartialKeyOf(d: Dest): Key {
    match d
    case ToAddress(a) => KeyOf(a)
    case ToSubnet(n) => SubnetKeyOf(n)
  }

  // ----- Steps -----

  /** sendToAddress and sendToSubnet for the packet accepted last. */
  function SendTo(s: State, d: Dest, p: Packet, serial: nat): State {
    if d in s.index then
      var info := s.index[d];
      s.(timers := s.timers + [InfoTimer(info)], sent := s.sent + [Sent(p, info.key, serial)])
    else if d in s.buffers then
      var buf := s.buffers[d].buf;
      s.(buffers := s.buffers[d := Held(buf, p, serial)],
         superseded := s.superseded + [s.buffers[d].serial],
         timers := s.timers + [BufferTimer(d, buf)],
         lookups := s.lookups + [PartialKeyOf(d)])
    else
      s.(buffers := s.buffers[d := Held(s.nextId, p, serial)],
         timers := s.timers + [BufferTimer(d, s.nextId)],
         nextId := s.nextId + 1,
         lookups := s.lookups + [PartialKeyOf(d)])
  }

  datatype WriteResult = Wrote(n: nat) | Empty | NotIPv6 | Undersized | BadSource | BadDestination

  function Validate(p: Packet): WriteResult {
    if |p| == 0 then Empty
    else if !IsIPv6(p) then NotIPv6
    else if |p| < 40 then Undersized
    else Wrote(|p|)
  }

  function WriteOutcome(own: Key, p: Packet): WriteResult {
    if !Validate(p).Wrote? then Validate(p)
    else if !Belongs(Source(p), own) then BadSource
    else if Target(Destination(p)) == None then BadDestination
    else Wrote(|p|)
  }

  function Write(s: State, p: Packet): State {
    if WriteOutcome(s.own, p).Wrote? then
      SendTo(s.(accepted := s.accepted + [p]), Target(Destination(p)).value, p, |s.accepted|)
    else s
  }

  function Flush(s: State, d: Dest, key: Key): State {
    if d in s.buffers then
      s.(buffers := s.buffers - {d}, sent := s.sent + [Sent(s.buffers[d].packet, key, s.buffers[d].serial)])
    else s
  }

  function NewInfo(s: State, key: Key): Info {
    Info(s.nextId, key, AddrOf(key), SubnetOf(key))
  }

  function Learn(s: State, info: Info): State {
    s.(keyToInfo := s.keyToInfo[info.key := info],
       index := s.index[ToAddress(info.address) := info][ToSubnet(info.subnet) := info],
       timers := s.timers + [InfoTimer(info)],
       nextId := s.nextId + 1)
  }

  /** A path to `key` became known, or a packet came from it. */
  function Update(s: State, key: Key): State {
    if key in s.keyToInfo then s.(timers := s.timers + [InfoTimer(s.keyToInfo[key])])
    else
      var info := NewInfo(s, key);
      Flush(Flush(Learn(s, info), ToAddress(info.address), key), ToSubnet(info.subnet), key)
  }

  function Without<K>(m: map<K, Info>, k: K, info: Info): map<K, Info> {
    if k in m && m[k] == info then m - {k} else m
  }

  /** A timer goes off: possibly one that was stopped after it had been released. */
  function Fire(s: State, t: Timer): State {
    if t !in s.timers then s
    else match t
      case InfoTimer(info) =>
        s.(keyToInfo := Without(s.keyToInfo, info.key, info),
           index := Without(Without(s.index, ToAddress(info.address), info), ToSubnet(info.subnet), info))
      case BufferTimer(d, buf) =>
        if d in s.buffers && s.buffers[d].buf == buf then
          s.(buffers := s.buffers - {d}, expired := s.expired + [s.buffers[d].serial])
        else s
  }

  /** One packet read from the core. `tooBig` is the ICMPv6 answer to an oversized packet, if one could be built. */
  datatype CoreRead = CoreRead(packet: Packet, from: Key, tooBig: Option<Packet>)

  predicate TooBig(s: State, r: CoreRead) {
    WellFormed(r.packet) && |r.packet| > s.mtu
  }

  predicate ForUs(s: State, r: CoreRead) {
    WellFormed(r.packet) && |r.packet| <= s.mtu && Belongs(Destination(r.packet), s.own)
  }

  predicate Delivered(s: State, r: CoreRead) {
    ForUs(s, r) && Belongs(Source(r.packet), r.from)
  }

  function Receive(s: State, r: CoreRead): State {
    if TooBig(s, r) then (if r.tooBig.Some? then Write(s, r.tooBig.value) else s)
    else if ForUs(s, r) then Update(s, r.from)
    else s
  }

  /** The requested MTU, capped by the core's and never under 1280. */
  function ClampMTU(mtu: nat, maxMTU: nat): nat {
    if mtu < 1280 || maxMTU < 1280 then 1280 else if mtu > maxMTU then maxMTU else mtu
  }

  datatype Event =
    | WriteEvent(packet: Packet)
    | PathNotify(key: Key)
    | CoreEvent(read: CoreRead)
    | TimerEvent(timer: Timer)
    | SetMTU(mtu: nat, maxMTU: nat)

  function Step(s: State, e: Event): State {
    match e
    case WriteEvent(p) => Write(s, p)
    case PathNotify(key) => Update(s, key)
    case CoreEvent(r) => Receive(s, r)
    case TimerEvent(t) => Fire(s, t)
    case SetMTU(mtu, maxMTU) => s.(mtu := ClampMTU(mtu, maxMTU))
  }

  function Run(s: State, es: seq<Event>): State
    decreases |es|
  {
    if es == [] then s else Run(Step(s, es[0]), es[1..])
  }

  lemma {:induction false} RunAppend(s: State, es: seq<Event>, e: Event)
    ensures Run(s, es + [e]) == Step(Run(s, es), e)
    decreases |es|
  {
    hide Step;
    if es == [] {
      assert [e][1..] == [];
      assert es + [e] == [e];
    } else {
      assert (es + [e])[1..] == es[1..] + [e];
      RunAppend(Step(s, es[0]), es[1..], e);
    }
  }
}
