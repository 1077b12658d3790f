/** The firewall's walk over IPv6 extension headers (RFC 8200 sections 3 and 4; RFC 4302 section 2.2). */
module PacketParser {
  import opened Bits
  import opened Octets

  const HOP_BY_HOP: Octet := 0
  const TCP: Octet := 6
  const UDP: Octet := 17
  const ROUTING: Octet := 43
  const FRAGMENT: Octet := 44
  const AH: Octet := 51
  const ICMPV6: Octet := 58
  const DST_OPTS: Octet := 60

  type Packet = seq<Octet>

  datatype Parsed = Parsed(src: seq<Octet>, dst: seq<Octet>, proto: Octet, srcPort: nat, dstPort: nat,
                           tcpFlags: Octet, hasPorts: bool, allowICMP: bool)

  predicate IsOptions(proto: Octet) {
    proto == HOP_BY_HOP || proto == ROUTING || proto == DST_OPTS
  }

  function At16(packet: Packet, i: nat): nat
    requires i + 1 < |packet|
  {
    U16(packet[i], packet[i + 1])
  }

  /** Bytes taken by an options or routing header, and by an authentication header, of this length field. */
  function OptionsLength(len: Octet): nat {
    (len as int + 1) * 8
  }

  function AuthLength(len: Octet): nat {
    (len as int + 2) * 4
  }

  predicate IsExtension(proto: Octet) {
    IsOptions(proto) || proto == FRAGMENT || proto == AH
  }

  /** The length of the extension header at `offset`, if the walk may pass over it. */
  function Extent(packet: Packet, offset: nat, limit: nat, proto: Octet): (n: Option<nat>)
    requires offset <= limit <= |packet| && IsExtension(proto)
    ensures n.Some? ==> 8 <= n.value <= limit - offset
  {
    var left := limit - offset;
    if proto == FRAGMENT then
      if left < 8 || At16(packet, offset + 2) / 8 != 0 || At16(packet, offset + 2) % 2 != 0 then None else Some(8)
    else if left < 2 then None
    else
      var n := if proto == AH then AuthLength(packet[offset + 1]) else OptionsLength(packet[offset + 1]);
      if left < n then None else Some(n)
  }

  /** What is read from the upper-layer header. */
  function Upper(packet: Packet, offset: nat, limit: nat, p: Parsed): (r: Option<Parsed>)
    requires offset <= limit <= |packet|
    ensures r.Some? ==> r.value.proto == p.proto
  {
    var left := limit - offset;
    if p.proto == ICMPV6 then Some(p.(allowICMP := true))
    else if p.proto == TCP then
      if left < 20 then None
      else Some(p.(srcPort := At16(packet, offset), dstPort := At16(packet, offset + 2),
                   tcpFlags := packet[offset + 13], hasPorts := true))
    else if p.proto == UDP then
      if left < 8 then None
      else Some(p.(srcPort := At16(packet, offset), dstPort := At16(packet, offset + 2), hasPorts := true))
    else Some(p)
  }

  /** What the walk finds from `offset` on, having read `p` so far. */
  function Walk(packet: Packet, offset: nat, limit: nat, p: Parsed): Option<Parsed>
    requires offset <= limit <= |packet|
    decreases limit - offset
  {
    if IsExtension(p.proto) then
      match Extent(packet, offset, limit, p.proto)
      case None => None
      case Some(n) => Walk(packet, offset + n, limit, p.(proto := packet[offset]))
    else Upper(packet, offset, limit, p)
  }

  /** The fixed header is there, and the payload it announces. */
  predicate Complete(packet: Packet) {
    |packet| >= 40 && packet[0] / 16 == 6 && At16(packet, 4) <= |packet| - 40
  }

  function Start(packet: Packet): Parsed
    requires |packet| >= 40
  {
    Parsed(packet[8..24], packet[24..40], packet[6], 0, 0, 0, false, false)
  }

  function Parse(packet: Packet): Option<Parsed> {
    if Complete(packet) then Walk(packet, 40, 40 + At16(packet, 4), Start(packet)) else None
  }

  method ParseIPv6Packet(packet: Packet) returns (r: Option<Parsed>)
    ensures r == Parse(packet)
  {
    if |packet| < 40 || packet[0] / 16 != 6 {
      return None;
    }
    var payloadLen := At16(packet, 4);
    if payloadLen > |packet| - 40 {
      return None;
    }
    var p := Start(packet);
    var offset := 40;
    var limit := 40 + payloadLen;
    while true
      invariant 40 <= offset <= limit <= |packet|
      invariant Walk(packet, offset, limit, p) == Parse(packet)
      decreases limit - offset
    {
      if p.proto == ICMPV6 {
        return Some(p.(allowICMP := true));
      } else if p.proto == TCP {
        if limit - offset < 20 {
          return None;
        }
        p := p.(srcPort := At16(packet, offset), dstPort := At16(packet, offset + 2));
        p := p.(tcpFlags := packet[offset + 13], hasPorts := true);
        return Some(p);
      } else if p.proto == UDP {
        if limit - offset < 8 {
          return None;
        }
        p := p.(srcPort := At16(packet, offset), dstPort := At16(packet, offset + 2));
        p := p.(hasPorts := true);
        return Some(p);
      } else if IsOptions(p.proto) {
        if limit - offset < 2 {
          return None;
        }
        var headerLen := OptionsLength(packet[offset + 1]);
        if limit - offset < headerLen {
          return None;
        }
        p := p.(proto := packet[offset]);
        offset := offset + headerLen;
      } else if p.proto == FRAGMENT {
        if limit - offset < 8 {
          return None;
        }
        var fragment := At16(packet, offset + 2);
        if fragment / 8 != 0 || fragment % 2 != 0 {
          return None;
        }
        p := p.(proto := packet[offset]);
        offset := offset + 8;
      } else if p.proto == AH {
        if limit - offset < 2 {
          return None;
        }
        var headerLen := AuthLength(packet[offset + 1]);
        if limit - offset < headerLen {
          return None;
        }
        p := p.(proto := packet[offset]);
        offset := offset + headerLen;
      } else {
        return Some(p);
      }
    }
  }

  // ----- What the walk depends on -----

  /** The walk depends on the bytes between offset and limit only, wherever they stand. */
  lemma {:induction false} WalkMoves(a: Packet, i: nat, la: nat, b: Packet, j: nat, lb: nat, p: Parsed)
    requires i <= la <= |a| && j <= lb <= |b| && a[i..la] == b[j..lb]
    ensures Walk(a, i, la, p) == Walk(b, j, lb, p)
    decreases la - i
  {
    if IsExtension(p.proto) {
      ExtentMoves(a, i, la, b, j, lb, p.proto);
      var n := Extent(a, i, la, p.proto);
      if n.Some? {
        assert a[i + n.value..la] == a[i..la][n.value..] == b[j..lb][n.value..] == b[j + n.value..lb];
        assert a[i] == a[i..la][0] == b[j..lb][0] == b[j];
        WalkMoves(a, i + n.value, la, b, j + n.value, lb, p.(proto := a[i]));
      }
    } else {
      SameBytes(a, i, la, b, j, lb);
    }
  }

  lemma SameBytes(a: Packet, i: nat, la: nat, b: Packet, j: nat, lb: nat)
    requires i <= la <= |a| && j <= lb <= |b| && a[i..la] == b[j..lb]
    ensures la - i == lb - j && forall k | i <= k < la :: a[k] == b[j + (k - i)]
  {
    assert |a[i..la]| == |b[j..lb]|;
    assert forall k | i <= k < la :: a[k] == a[i..la][k - i] == b[j..lb][k - i] == b[j + (k - i)];
  }

  lemma ExtentMoves(a: Packet, i: nat, la: nat, b: Packet, j: nat, lb: nat, proto: Octet)
    requires i <= la <= |a| && j <= lb <= |b| && a[i..la] == b[j..lb] && IsExtension(proto)
    ensures Extent(a, i, la, proto) == Extent(b, j, lb, proto)
  {
    SameBytes(a, i, la, b, j, lb);
  }

  /** Only the fixed header and the payload it announces matter. */
  lemma ParseIgnoresTrailing(a: Packet, b: Packet)
    requires Complete(a) && 40 + At16(a, 4) <= |b| && a[..40 + At16(a, 4)] == b[..40 + At16(a, 4)]
    ensures Parse(a) == Parse(b)
  {
    var n := 40 + At16(a, 4);
    assert forall k | 0 <= k < n :: a[k] == a[..n][k] == b[..n][k] == b[k];
    assert a[8..24] == b[8..24] && a[24..40] == b[24..40];
    assert a[40..n] == a[..n][40..] == b[..n][40..] == b[40..n];
    WalkMoves(a, 40, n, b, 40, n, Start(a));
  }

  // ----- Extension headers that the walk passes over -----

  /** A header without its leading next-header byte. Options and routing headers are as many times eight bytes long as
      their length field says and once more, authentication headers as many times four bytes and twice more. `code`
      in a fragment header is the low byte of the offset and flags field: offset zero, no more fragments, reserved
      bits as they may be. */
  datatype Extension =
    | Options(kind: Octet, len: Octet, body: seq<Octet>)
    | LastFragment(reserved: Octet, code: Octet, id: seq<Octet>)
    | Authentication(len: Octet, body: seq<Octet>)
  {
    predicate Valid() {
      match this
      case Options(kind, len, body) => kind in {0, 43, 60} && 2 + |body| == 8 * (len as nat + 1)
      case LastFragment(_, code, id) => code < 8 && code % 2 == 0 && |id| == 4
      case Authentication(len, body) => 2 + |body| == 4 * (len as nat + 2)
    }

    function Type(): Octet {
      match this
      case Options(kind, _, _) => kind
      case LastFragment(_, _, _) => 44
      case Authentication(_, _) => 51
    }

    function Print(next: Octet): seq<Octet> {
      match this
      case Options(_, len, body) => [next, len] + body
      case LastFragment(reserved, code, id) => [next, reserved, 0, code] + id
      case Authentication(len, body) => [next, len] + body
    }
  }

  predicate ValidChain(hs: seq<Extension>) {
    forall h | h in hs :: h.Valid()
  }

  function FirstType(hs: seq<Extension>, upper: Octet): Octet {
    if hs == [] then upper else hs[0].Type()
  }

  function PrintChain(hs: seq<Extension>, upper: Octet): seq<Octet> {
    if hs == [] then [] else hs[0].Print(FirstType(hs[1..], upper)) + PrintChain(hs[1..], upper)
  }

  /** The fields of the fixed header that do not depend on what follows it. */
  datatype Fixed = Fixed(first: seq<Octet>, hopLimit: Octet, src: seq<Octet>, dst: seq<Octet>) {
    predicate Valid() {
      |first| == 4 && first[0] / 16 == 6 && |src| == 16 && |dst| == 16
    }
  }

  function PrintPacket(f: Fixed, hs: seq<Extension>, upper: Octet, payload: seq<Octet>): Packet
    requires |PrintChain(hs, upper)| + |payload| < 0x1_0000
  {
    var rest := PrintChain(hs, upper) + payload;
    f.first + PutU16(|rest|) + [FirstType(hs, upper), f.hopLimit] + f.src + f.dst + rest
  }

  function PrintFixed(f: Fixed, len: nat, next: Octet): Packet
    requires len < 0x1_0000
  {
    f.first + PutU16(len) + [next, f.hopLimit] + f.src + f.dst
  }

  lemma FixedFields(f: Fixed, len: nat, next: Octet)
    requires f.Valid() && len < 0x1_0000
    ensures var h := PrintFixed(f, len, next);
            && |h| == 40 && h[0] / 16 == 6 && h[4] == PutU16(len)[0] && h[5] == PutU16(len)[1] && h[6] == next
            && h[8..24] == f.src && h[24..40] == f.dst
  {
    hide PutU16;
  }

  lemma PacketFields(f: Fixed, hs: seq<Extension>, upper: Octet, payload: seq<Octet>)
    requires f.Valid() && |PrintChain(hs, upper)| + |payload| < 0x1_0000
    ensures var packet := PrintPacket(f, hs, upper, payload);
            && Complete(packet) && 40 + At16(packet, 4) == |packet|
            && Start(packet) == Parsed(f.src, f.dst, FirstType(hs, upper), 0, 0, 0, false, false)
            && packet[40..] == PrintChain(hs, upper) + payload
  {
    var rest := PrintChain(hs, upper) + payload;
    var h := PrintFixed(f, |rest|, FirstType(hs, upper));
    var packet := PrintPacket(f, hs, upper, payload);
    FixedFields(f, |rest|, FirstType(hs, upper));
    assert packet == h + rest;
    hide PrintFixed, PrintPacket, PrintChain, PutU16;
    assert packet[8..24] == h[8..24] && packet[24..40] == h[24..40];
    assert forall k | 0 <= k < 40 :: packet[k] == h[k];
  }

  /** Walking over one printed header. */
  lemma WalkOver(h: Extension, next: Octet, rest: seq<Octet>, p: Parsed)
    requires h.Valid() && p.proto == h.Type()
    ensures Walk(h.Print(next) + rest, 0, |h.Print(next) + rest|, p) == Walk(rest, 0, |rest|, p.(proto := next))
  {
    var s := h.Print(next) + rest;
    var n := |h.Print(next)|;
    PrintedExtent(h, next, rest);
    hide Extent;
    assert s[n..|s|] == rest[0..|rest|];
    WalkMoves(s, n, |s|, rest, 0, |rest|, p.(proto := next));
  }

  lemma PrintedExtent(h: Extension, next: Octet, rest: seq<Octet>)
    requires h.Valid()
    ensures IsExtension(h.Type()) && h.Print(next)[0] == next
    ensures Extent(h.Print(next) + rest, 0, |h.Print(next) + rest|, h.Type()) == Some(|h.Print(next)|)
  {
    var s, t := h.Print(next) + rest, h.Print(next);
    assert s[1] == t[1] && s[2] == t[2] && s[3] == t[3];
  }

  lemma {:induction false} WalkOverChain(hs: seq<Extension>, upper: Octet, payload: seq<Octet>, p: Parsed)
    requires ValidChain(hs) && p.proto == FirstType(hs, upper)
    ensures var s := PrintChain(hs, upper) + payload;
            Walk(s, 0, |s|, p) == Walk(payload, 0, |payload|, p.(proto := upper))
    decreases |hs|
  {
    if hs == [] {
      assert PrintChain(hs, upper) + payload == payload;
    } else {
      var next := FirstType(hs[1..], upper);
      var rest := PrintChain(hs[1..], upper) + payload;
      assert PrintChain(hs, upper) + payload == hs[0].Print(next) + rest;
      WalkOver(hs[0], next, rest, p);
      WalkOverChain(hs[1..], upper, payload, p.(proto := next));
    }
  }

  /** A chain of extension headers changes nothing about what the firewall sees. */
  lemma ChainIsTransparent(f: Fixed, hs: seq<Extension>, upper: Octet, payload: seq<Octet>)
    requires f.Valid() && ValidChain(hs) && |PrintChain(hs, upper)| + |payload| < 0x1_0000
    ensures Parse(PrintPacket(f, hs, upper, payload)) == Parse(PrintPacket(f, [], upper, payload))
  {
    hide PrintPacket, Walk, Parse;
    assert PrintChain([], upper) + payload == payload;
    ParsePrinted(f, hs, upper, payload);
    ParsePrinted(f, [], upper, payload);
    WalkOverChain(hs, upper, payload, Parsed(f.src, f.dst, FirstType(hs, upper), 0, 0, 0, false, false));
  }

  lemma ParsePrinted(f: Fixed, hs: seq<Extension>, upper: Octet, payload: seq<Octet>)
    requires f.Valid() && |PrintChain(hs, upper)| + |payload| < 0x1_0000
    ensures var s := PrintChain(hs, upper) + payload;
            Parse(PrintPacket(f, hs, upper, payload)) ==
              Walk(s, 0, |s|, Parsed(f.src, f.dst, FirstType(hs, upper), 0, 0, 0, false, false))
  {
    hide PrintChain, PrintPacket, PrintFixed, Walk, Start, At16, FirstType;
    PacketFields(f, hs, upper, payload);
    var packet, s := PrintPacket(f, hs, upper, payload), PrintChain(hs, upper) + payload;
    assert packet[40..|packet|] == packet[40..] == s == s[0..|s|];
    WalkMoves(packet, 40, |packet|, s, 0, |s|, Start(packet));
  }

  // ----- And conversely -----

  /** Whatever the walk accepts is such a chain, followed by an upper protocol that is not an extension header
      it passes over; the walk's answer is read off there. */
  lemma {:induction false} WalkFindsChain(packet: Packet, offset: nat, limit: nat, p: Parsed)
    returns (hs: seq<Extension>, payload: seq<Octet>)
    requires offset <= limit <= |packet| && Walk(packet, offset, limit, p).Some?
    ensures var q := Walk(packet, offset, limit, p).value;
            && ValidChain(hs) && p.proto == FirstType(hs, q.proto)
            && packet[offset..limit] == PrintChain(hs, q.proto) + payload
            && !IsExtension(q.proto) && Upper(payload, 0, |payload|, p.(proto := q.proto)) == Some(q)
    decreases limit - offset
  {
    hide Upper, Walk, Extent;
    if IsExtension(p.proto) {
      var h, n := NextHeader(packet, offset, limit, p);
      hs, payload := WalkFindsChain(packet, offset + n, limit, p.(proto := packet[offset]));
      assert packet[offset..limit][n..] == packet[offset + n..limit];
      PrependHeader(h, hs, Walk(packet, offset, limit, p).value.proto, payload, packet[offset..limit], n);
      hs := [h] + hs;
    } else {
      hs, payload := [], packet[offset..limit];
      WalkStops(packet, offset, limit, p);
    }
  }

  lemma NextHeader(packet: Packet, offset: nat, limit: nat, p: Parsed) returns (h: Extension, n: nat)
    requires offset <= limit <= |packet| && Walk(packet, offset, limit, p).Some? && IsExtension(p.proto)
    ensures 0 < n <= limit - offset && h.Valid() && h.Type() == p.proto
    ensures h.Print(packet[offset]) == packet[offset..limit][..n]
    ensures Walk(packet, offset, limit, p) == Walk(packet, offset + n, limit, p.(proto := packet[offset]))
  {
    var s := packet[offset..limit];
    ExtentMoves(packet, offset, limit, s, 0, |s|, p.proto);
    n := Extent(packet, offset, limit, p.proto).value;
    hide Extent;
    h := ReadExtension(s, n, p.proto);
  }

  lemma WalkStops(packet: Packet, offset: nat, limit: nat, p: Parsed)
    requires offset <= limit <= |packet| && !IsExtension(p.proto)
    ensures var payload := packet[offset..limit];
            Walk(packet, offset, limit, p) == Upper(payload, 0, |payload|, p)
  {
    WalkMoves(packet, offset, limit, packet[offset..limit], 0, limit - offset, p);
    hide Upper;
  }

  lemma PrependHeader(h: Extension, hs: seq<Extension>, upper: Octet, payload: seq<Octet>, s: seq<Octet>, n: nat)
    requires n <= |s| && h.Print(FirstType(hs, upper)) == s[..n] && s[n..] == PrintChain(hs, upper) + payload
    ensures s == PrintChain([h] + hs, upper) + payload
  {
    assert ([h] + hs)[1..] == hs;
    assert s == s[..n] + s[n..];
  }

  lemma ReadExtension(s: seq<Octet>, n: nat, kind: Octet) returns (h: Extension)
    requires IsExtension(kind) && Extent(s, 0, |s|, kind) == Some(n)
    ensures h.Valid() && h.Type() == kind && h.Print(s[0]) == s[..n]
  {
    h := if IsOptions(kind) then Options(kind, s[1], s[2..n])
         else if kind == FRAGMENT then LastFragment(s[1], s[3], s[4..n])
         else Authentication(s[1], s[2..n]);
    if kind == FRAGMENT {
      assert s[2] == 0;
    }
  }

  /** What can be read is ICMPv6, or TCP or UDP with ports, or has neither. */
  lemma {:induction false} WalkKinds(packet: Packet, offset: nat, limit: nat, p: Parsed)
    requires offset <= limit <= |packet| && !p.hasPorts && !p.allowICMP && Walk(packet, offset, limit, p).Some?
    ensures var q := Walk(packet, offset, limit, p).value;
            (q.allowICMP <==> q.proto == 58) && (q.hasPorts <==> q.proto == 6 || q.proto == 17)
    decreases limit - offset
  {
    if IsExtension(p.proto) {
      var n := Extent(packet, offset, limit, p.proto).value;
      hide Extent;
      WalkKinds(packet, offset + n, limit, p.(proto := packet[offset]));
    }
  }

  lemma ParsedKinds(packet: Packet)
    requires Parse(packet).Some?
    ensures var q := Parse(packet).value;
            (q.allowICMP <==> q.proto == 58) && (q.hasPorts <==> q.proto == 6 || q.proto == 17)
  {
    WalkKinds(packet, 40, 40 + At16(packet, 4), Start(packet));
  }

  // ----- What is read, in bytes -----

  /** A printed packet, whatever follows it, is read like its upper-layer header alone. */
  lemma ReadsUpper(f: Fixed, hs: seq<Extension>, upper: Octet, payload: seq<Octet>, extra: seq<Octet>)
    requires f.Valid() && ValidChain(hs) && |PrintChain(hs, upper)| + |payload| < 0x1_0000
    ensures Parse(PrintPacket(f, hs, upper, payload) + extra) ==
            Walk(payload, 0, |payload|, Parsed(f.src, f.dst, upper, 0, 0, 0, false, false))
  {
    var packet := PrintPacket(f, hs, upper, payload);
    PacketFields(f, hs, upper, payload);
    assert packet == packet[..40 + At16(packet, 4)] == (packet + extra)[..40 + At16(packet, 4)];
    hide PrintPacket, Walk, Start;
    ParseIgnoresTrailing(packet, packet + extra);
    hide Parse, Complete;
    ParsePrinted(f, hs, upper, payload);
    WalkOverChain(hs, upper, payload, Parsed(f.src, f.dst, FirstType(hs, upper), 0, 0, 0, false, false));
  }

  /** Two bytes, the higher one first. */
  function Word(bs: seq<Octet>, i: nat): nat
    requires i + 1 < |bs|
  {
    256 * (bs[i] as nat) + bs[i + 1] as nat
  }

  /** TCP is protocol 6: the ports are the first two words of its header, which has at least twenty bytes, and the flags
      are its fourteenth byte. */
  lemma ReadsTCP(f: Fixed, hs: seq<Extension>, payload: seq<Octet>, extra: seq<Octet>)
    requires f.Valid() && ValidChain(hs) && |payload| >= 20 && |PrintChain(hs, 6)| + |payload| < 0x1_0000
    ensures Parse(PrintPacket(f, hs, 6, payload) + extra) ==
            Some(Parsed(f.src, f.dst, 6, Word(payload, 0), Word(payload, 2), payload[13], true, false))
  {
    ReadsUpper(f, hs, 6, payload, extra);
    hide Parse, PrintPacket, PrintChain;
    WalkEnds(payload, Parsed(f.src, f.dst, 6, 0, 0, 0, false, false));
  }

  /** UDP is protocol 17: the ports are the first two words of its eight bytes. */
  lemma ReadsUDP(f: Fixed, hs: seq<Extension>, payload: seq<Octet>, extra: seq<Octet>)
    requires f.Valid() && ValidChain(hs) && |payload| >= 8 && |PrintChain(hs, 17)| + |payload| < 0x1_0000
    ensures Parse(PrintPacket(f, hs, 17, payload) + extra) ==
            Some(Parsed(f.src, f.dst, 17, Word(payload, 0), Word(payload, 2), 0, true, false))
  {
    ReadsUpper(f, hs, 17, payload, extra);
    hide Parse, PrintPacket, PrintChain;
    WalkEnds(payload, Parsed(f.src, f.dst, 17, 0, 0, 0, false, false));
  }

  lemma WalkEnds(payload: seq<Octet>, p: Parsed)
    ensures p.proto == 6 && |payload| >= 20 ==>
              Walk(payload, 0, |payload|, p) ==
              Some(p.(srcPort := Word(payload, 0), dstPort := Word(payload, 2), tcpFlags := payload[13],
                  hasPorts := true))
    ensures p.proto == 17 && |payload| >= 8 ==>
              Walk(payload, 0, |payload|, p) ==
              Some(p.(srcPort := Word(payload, 0), dstPort := Word(payload, 2), hasPorts := true))
  {
  }

  /** Too little left for the header refuses the packet. */
  lemma ShortHeaderIsRefused(f: Fixed, hs: seq<Extension>, upper: Octet, payload: seq<Octet>, extra: seq<Octet>)
    requires f.Valid() && ValidChain(hs) && |PrintChain(hs, upper)| + |payload| < 0x1_0000
    requires (upper == 6 && |payload| < 20) || (upper == 17 && |payload| < 8)
    ensures Parse(PrintPacket(f, hs, upper, payload) + extra) == None
  {
    ReadsUpper(f, hs, upper, payload, extra);
    hide Parse, PrintPacket;
  }

  /** ICMPv6 is protocol 58 and needs no ports; any other protocol has none. */
  lemma ReadsOther(f: Fixed, hs: seq<Extension>, upper: Octet, payload: seq<Octet>, extra: seq<Octet>)
    requires f.Valid() && ValidChain(hs) && |PrintChain(hs, upper)| + |payload| < 0x1_0000
    requires upper !in {0, 6, 17, 43, 44, 51, 60}
    ensures Parse(PrintPacket(f, hs, upper, payload) + extra) ==
            Some(Parsed(f.src, f.dst, upper, 0, 0, 0, false, upper == 58))
  {
    ReadsUpper(f, hs, upper, payload, extra);
    hide Parse, PrintPacket;
  }

  /** And nothing else is accepted: any packet that can be read is printed like that, with something after it. */
  lemma AcceptedIsPrinted(packet: Packet) returns (f: Fixed, hs: seq<Extension>, payload: seq<Octet>, extra: seq<Octet>)
    requires Parse(packet).Some?
    ensures var upper := Parse(packet).value.proto;
            && f.Valid() && ValidChain(hs) && |PrintChain(hs, upper)| + |payload| < 0x1_0000
            && packet == PrintPacket(f, hs, upper, payload) + extra && upper !in {0, 43, 44, 51, 60}
  {
    var n := 40 + At16(packet, 4);
    var q := Parse(packet).value;
    f := Fixed(packet[..4], packet[7], packet[8..24], packet[24..40]);
    hs, payload := WalkFindsChain(packet, 40, n, Start(packet));
    extra := packet[n..];
    assert |packet[40..n]| == At16(packet, 4);
    PutBack16(packet[4], packet[5]);
    hide PrintChain, Walk, Parse, PutU16, U16, Upper;
    CutPacket(packet, n);
  }

  lemma CutPacket(packet: Packet, n: nat)
    requires 40 <= n <= |packet|
    ensures packet == packet[..4] + [packet[4], packet[5]] + [packet[6], packet[7]] + packet[8..24] + packet[24..40]
                      + packet[40..n] + packet[n..]
  {
  }

  lemma PutBack16(hi: Octet, lo: Octet)
    ensures PutU16(U16(hi, lo)) == [hi, lo]
  {
  }
}
