/** The firewall's flow table, which forgets expired flows, against the history it stands for, which forgets nothing. */
module Firewalls {
  import opened Bits
  import opened Octets
  import opened PacketParser

  type Time = int  // nanoseconds

  const UDP_FLOW_TTL: Time := 2 * 60 * 1_000_000_000
  const TCP_FLOW_TTL: Time := 10 * 60 * 1_000_000_000

  datatype FlowKey = FlowKey(proto: Octet, src: seq<Octet>, dst: seq<Octet>, srcPort: nat, dstPort: nat)

  function ReverseFlow(p: Parsed): FlowKey {
    FlowKey(p.proto, p.dst, p.src, p.dstPort, p.srcPort)
  }

  function PacketFlow(p: Parsed): FlowKey {
    FlowKey(p.proto, p.src, p.dst, p.srcPort, p.dstPort)
  }

  function FlowTTL(p: Parsed): Time {
    if p.proto == UDP then UDP_FLOW_TTL else TCP_FLOW_TTL
  }

  /** A TCP packet that ends its flow: FIN or RST. */
  predicate EndsFlow(p: Parsed) {
    p.proto == TCP && (p.tcpFlags % 2 != 0 || p.tcpFlags / 4 % 2 != 0)
  }

  predicate Tracked(p: Parsed) {
    p.hasPorts && (p.proto == TCP || p.proto == UDP)
  }

  datatype Config = Config(enabled: bool, tcpPorts: set<nat>, udpPorts: set<nat>)

  // ----- The reference: what the history since the last configuration says -----

  /** The packets with ports seen since then, going out or coming in. */
  datatype Passage = Outgoing(packet: Parsed, now: Time) | Incoming(packet: Parsed, now: Time)

  type History = seq<Passage>

  /** When flow `k` expires after one more passage: refreshed by a packet out the other way, or by one in while it
      has not expired; ended by a FIN or RST in while it has not expired. */
  function ExpiryAfter(prior: Option<Time>, e: Passage, k: FlowKey): Option<Time> {
    if e.Outgoing? then
      if ReverseFlow(e.packet) == k then Some(e.now + FlowTTL(e.packet)) else prior
    else if PacketFlow(e.packet) == k && prior.Some? && e.now < prior.value then
      if EndsFlow(e.packet) then None else Some(e.now + FlowTTL(e.packet))
    else prior
  }

  function Expiry(h: History, k: FlowKey): Option<Time> {
    if h == [] then None else ExpiryAfter(Expiry(h[..|h| - 1], k), h[|h| - 1], k)
  }

  predicate Live(h: History, k: FlowKey, now: Time) {
    Expiry(h, k).Some? && now < Expiry(h, k).value
  }

  predicate PortAllowed(c: Config, p: Parsed) {
    (p.proto == TCP && p.dstPort in c.tcpPorts) || (p.proto == UDP && p.dstPort in c.udpPorts)
  }

  /** Whether a packet may go out, and whether it becomes part of the history. */
  function LetsOut(c: Config, packet: Packet): bool {
    !c.enabled || (Parse(packet).Some? && (Parse(packet).value.allowICMP || Tracked(Parse(packet).value)))
  }

  function LetsIn(c: Config, h: History, packet: Packet, now: Time): bool {
    !c.enabled
    || (Parse(packet).Some?
        && (Parse(packet).value.allowICMP
            || (Tracked(Parse(packet).value)
                && (Live(h, PacketFlow(Parse(packet).value), now) || PortAllowed(c, Parse(packet).value)))))
  }

  /** The packets the flow table looks at. */
  predicate Counts(c: Config, packet: Packet) {
    c.enabled && Parse(packet).Some? && !Parse(packet).value.allowICMP && Tracked(Parse(packet).value)
  }

  function AfterOut(c: Config, h: History, packet: Packet, now: Time): History {
    if Counts(c, packet) then h + [Outgoing(Parse(packet).value, now)] else h
  }

  function AfterIn(c: Config, h: History, packet: Packet, now: Time): History {
    if Counts(c, packet) then h + [Incoming(Parse(packet).value, now)] else h
  }

  /** Time does not run backwards. */
  ghost predicate Ordered(h: History) {
    forall i, j | 0 <= i < j < |h| :: h[i].now <= h[j].now
  }

  // ----- The table -----

  /** Every entry of the table is a flow of the history with the same expiry, and, if time has not run backwards,
      every flow that has not expired is in the table. */
  ghost predicate Represents(flows: map<FlowKey, Time>, h: History) {
    && (forall k | k in flows :: Expiry(h, k) == Some(flows[k]))
    && (Ordered(h) ==> forall k | h != [] && Live(h, k, h[|h| - 1].now) :: k in flows)
    && (h == [] ==> flows == map[])
  }

  /** The table is no flow more than packets let out have opened. */
  lemma {:induction false} FlowWasOpened(h: History, k: FlowKey)
    requires Expiry(h, k).Some?
    ensures exists i | 0 <= i < |h| :: h[i].Outgoing? && ReverseFlow(h[i].packet) == k
  {
    var last := h[|h| - 1];
    if !(last.Outgoing? && ReverseFlow(last.packet) == k) {
      FlowWasOpened(h[..|h| - 1], k);
    }
  }

  lemma TableFlowsWereOpened(flows: map<FlowKey, Time>, h: History, k: FlowKey)
    requires Represents(flows, h) && k in flows
    ensures exists i | 0 <= i < |h| :: h[i].Outgoing? && ReverseFlow(h[i].packet) == k
  {
    FlowWasOpened(h, k);
  }

  /** A packet to a port that is not open gets in only as an answer to something that was let out. */
  lemma UnsolicitedStaysOut(c: Config, h: History, packet: Packet, now: Time)
    requires Counts(c, packet) && !PortAllowed(c, Parse(packet).value) && LetsIn(c, h, packet, now)
    ensures exists i | 0 <= i < |h| :: h[i].Outgoing? && ReverseFlow(h[i].packet) == PacketFlow(Parse(packet).value)
  {
    FlowWasOpened(h, PacketFlow(Parse(packet).value));
  }

  // ----- What is let in and out, said without the functions above -----

  /** Whether a packet can be read, and then is of one of these protocols. */
  predicate Reads(packet: Packet, protos: set<int>) {
    Parse(packet).Some? && Parse(packet).value.proto in protos
  }

  /** An enabled firewall lets out ICMPv6, TCP and UDP. */
  lemma OutExactly(c: Config, packet: Packet)
    ensures LetsOut(c, packet) <==> !c.enabled || Reads(packet, {6, 17, 58})
    ensures Counts(c, packet) <==> c.enabled && Reads(packet, {6, 17})
  {
    hide Parse;
    if Parse(packet).Some? {
      ParsedKinds(packet);
    }
  }

  /** An enabled firewall lets in ICMPv6, TCP and UDP to an open port, and TCP and UDP on a flow that is live. */
  lemma InExactly(c: Config, h: History, packet: Packet, now: Time)
    ensures LetsIn(c, h, packet, now) <==>
              || !c.enabled || Reads(packet, {58})
              || (Reads(packet, {6}) && Parse(packet).value.dstPort in c.tcpPorts)
              || (Reads(packet, {17}) && Parse(packet).value.dstPort in c.udpPorts)
              || (Reads(packet, {6, 17}) && Live(h, PacketFlow(Parse(packet).value), now))
  {
    hide Parse, Expiry;
    if Parse(packet).Some? {
      ParsedKinds(packet);
    }
  }

  /** An answer has the addresses and the ports of what it answers, swapped. */
  predicate Answers(q: Parsed, p: Parsed) {
    q.proto == p.proto && q.src == p.dst && q.dst == p.src && q.srcPort == p.dstPort && q.dstPort == p.srcPort
  }

  lemma AnswersFlow(q: Parsed, p: Parsed)
    ensures PacketFlow(q) == ReverseFlow(p) <==> Answers(q, p)
  {
  }

  /** Two minutes for UDP and ten for TCP. */
  lemma TimesToLive(p: Parsed)
    ensures p.proto == 17 ==> FlowTTL(p) == 120_000_000_000
    ensures p.proto == 6 ==> FlowTTL(p) == 600_000_000_000
  {
  }

  /** The FIN bit is the lowest of the flags, and RST the third. */
  lemma EndingFlags(p: Parsed)
    ensures EndsFlow(p) <==> p.proto == 6 && (p.tcpFlags % 2 == 1 || p.tcpFlags % 8 >= 4)
  {
  }

  /** Once a TCP or UDP packet is let out, an answer to it is let in for two minutes, or ten, whatever else happens in
      between, unless an answer with FIN or RST came first. */
  lemma AnswerIsLetIn(c: Config, h: History, out: Packet, sent: Time, later: History, answer: Packet, now: Time)
    requires c.enabled && Reads(out, {6, 17}) && Parse(answer).Some? && Answers(Parse(answer).value, Parse(out).value)
    requires now < sent + if Reads(out, {17}) then 120_000_000_000 else 600_000_000_000
    requires forall i | 0 <= i < |later| :: later[i].now >= sent
    requires forall i | 0 <= i < |later| && later[i].Incoming? && Answers(later[i].packet, Parse(out).value) ::
               !(later[i].packet.proto == 6 && (later[i].packet.tcpFlags % 2 == 1 || later[i].packet.tcpFlags % 8 >= 4))
    ensures LetsIn(c, AfterOut(c, h, out, sent) + later, answer, now)
  {
    hide Parse, Expiry;
    var p := Parse(out).value;
    TimesToLive(p);
    OutExactly(c, out);
    InExactly(c, AfterOut(c, h, out, sent) + later, answer, now);
    AnswersFlow(Parse(answer).value, p);
    forall i | 0 <= i < |later| && later[i].Incoming? && PacketFlow(later[i].packet) == ReverseFlow(p)
      ensures !EndsFlow(later[i].packet)
    {
      AnswersFlow(later[i].packet, p);
      EndingFlags(later[i].packet);
    }
    AnswerGetsIn(h, p, sent, later, ReverseFlow(p), now);
  }

  /** After a FIN or RST came in on a live flow, nothing gets in on it until something is let out again. */
  lemma {:induction false} EndedFlowStaysOut(h: History, p: Parsed, at: Time, later: History, now: Time)
    requires EndsFlow(p) && Live(h, PacketFlow(p), at)
    requires forall i | 0 <= i < |later| && later[i].Outgoing? :: !Answers(p, later[i].packet)
    ensures Expiry(h + [Incoming(p, at)] + later, PacketFlow(p)) == None
    ensures !Live(h + [Incoming(p, at)] + later, PacketFlow(p), now)
    decreases |later|
  {
    var start := h + [Incoming(p, at)];
    if later == [] {
      assert start + later == start;
      ExpiryStep(h, Incoming(p, at), PacketFlow(p));
    } else {
      var n := |later| - 1;
      EndedFlowStaysOut(h, p, at, later[..n], now);
      assert start + later == (start + later[..n]) + [later[n]];
      ExpiryStep(start + later[..n], later[n], PacketFlow(p));
      AnswersFlow(p, later[n].packet);
    }
  }

  /** A live flow has seen a packet, out or in, less than a time to live ago. */
  lemma {:induction false} LiveIsRecent(h: History, k: FlowKey, now: Time)
    requires Live(h, k, now)
    ensures exists i | 0 <= i < |h| ::
              && (if h[i].Outgoing? then ReverseFlow(h[i].packet) == k else PacketFlow(h[i].packet) == k)
              && now < h[i].now + FlowTTL(h[i].packet)
  {
    var n := |h| - 1;
    assert h == h[..n] + [h[n]];
    ExpiryStep(h[..n], h[n], k);
    if Expiry(h[..n], k) == Expiry(h, k) {
      LiveIsRecent(h[..n], k, now);
    }
  }

  /** A packet in on a live flow keeps it open. */
  lemma AnswerKeepsOpen(h: History, p: Parsed, at: Time, now: Time)
    requires !EndsFlow(p) && Live(h, PacketFlow(p), at)
    ensures Live(h + [Incoming(p, at)], PacketFlow(p), now) <==> now < at + FlowTTL(p)
  {
    ExpiryStep(h, Incoming(p, at), PacketFlow(p));
  }

  /** An answer gets in for as long as the flow's time to live, whatever other flows do in between. */
  lemma {:induction false} AnswerGetsIn(h: History, p: Parsed, sent: Time, later: History, k: FlowKey, now: Time)
    requires k == ReverseFlow(p) && now < sent + FlowTTL(p)
    requires forall i | 0 <= i < |later| :: later[i].now >= sent
    requires forall i | 0 <= i < |later| :: later[i].Incoming? && PacketFlow(later[i].packet) == k ==>
             !EndsFlow(later[i].packet)
    ensures Live(h + [Outgoing(p, sent)] + later, k, now)
    decreases |later|
  {
    var start := h + [Outgoing(p, sent)];
    if later == [] {
      assert start + later == start;
      ExpiryStep(h, Outgoing(p, sent), k);
    } else {
      var n := |later| - 1;
      AnswerGetsIn(h, p, sent, later[..n], k, now);
      assert start + later == (start + later[..n]) + [later[n]];
      ExpiryStep(start + later[..n], later[n], k);
    }
  }

  function Pruned(flows: map<FlowKey, Time>, now: Time): map<FlowKey, Time> {
    map k | k in flows && now < flows[k] :: flows[k]
  }

  /** Pruning loses nothing that is live now, as far as the history goes up to now. */
  lemma PruneRepresents(flows: map<FlowKey, Time>, h: History, now: Time, k: FlowKey)
    requires Represents(flows, h)
    ensures k in Pruned(flows, now) ==> Live(h, k, now) && flows[k] == Expiry(h, k).value
    ensures Ordered(h) && (h == [] || h[|h| - 1].now <= now) && Live(h, k, now) ==> k in Pruned(flows, now)
  {
  }

  lemma OrderedPrefix(h: History, e: Passage)
    requires Ordered(h + [e])
    ensures Ordered(h) && (h == [] || h[|h| - 1].now <= e.now)
  {
    assert forall i | 0 <= i < |h| :: (h + [e])[i] == h[i];
    assert (h + [e])[|h|] == e;
  }

  lemma ExpiryStep(h: History, e: Passage, k: FlowKey)
    ensures Expiry(h + [e], k) == ExpiryAfter(Expiry(h, k), e, k)
  {
    assert (h + [e])[..|h|] == h;
  }

  lemma OutgoingRepresents(flows: map<FlowKey, Time>, h: History, p: Parsed, now: Time)
    requires Represents(flows, h)
    ensures Represents(Pruned(flows, now)[ReverseFlow(p) := now + FlowTTL(p)], h + [Outgoing(p, now)])
  {
    var e := Outgoing(p, now);
    var flows' := Pruned(flows, now)[ReverseFlow(p) := now + FlowTTL(p)];
    forall k
      ensures k in flows' ==> Expiry(h + [e], k) == Some(flows'[k])
      ensures Ordered(h + [e]) && Live(h + [e], k, now) ==> k in flows'
    {
      ExpiryStep(h, e, k);
      PruneRepresents(flows, h, now, k);
      if Ordered(h + [e]) {
        OrderedPrefix(h, e);
      }
    }
  }

  /** The table after a packet in. */
  function TableAfterIn(flows: map<FlowKey, Time>, p: Parsed, now: Time): map<FlowKey, Time> {
    var pruned, k := Pruned(flows, now), PacketFlow(p);
    if k in pruned then (if EndsFlow(p) then pruned - {k} else pruned[k := now + FlowTTL(p)]) else pruned
  }

  lemma IncomingRepresents(flows: map<FlowKey, Time>, h: History, p: Parsed, now: Time)
    requires Represents(flows, h)
    ensures Represents(TableAfterIn(flows, p, now), h + [Incoming(p, now)])
  {
    var e := Incoming(p, now);
    var flows' := TableAfterIn(flows, p, now);
    forall k
      ensures k in flows' ==> Expiry(h + [e], k) == Some(flows'[k])
      ensures Ordered(h + [e]) && Live(h + [e], k, now) ==> k in flows'
    {
      ExpiryStep(h, e, k);
      PruneRepresents(flows, h, now, k);
      if Ordered(h + [e]) {
        OrderedPrefix(h, e);
      }
    }
  }

  class Firewall {
    var config: Config
    var flows: map<FlowKey, Time>
    ghost var history: History  // since the last configuration

    ghost predicate Valid()
      reads this
    {
      Represents(flows, history) && (!config.enabled ==> flows == map[] && history == [])
    }

    constructor (c: Config)
      ensures Valid() && config == c && history == []
    {
      config, flows, history := c, map[], [];
    }

    method SetConfig(c: Config)
      modifies this
      ensures Valid() && config == c && flows == map[] && history == []
    {
      config, flows, history := c, map[], [];
    }

    method Prune(now: Time)
      modifies this`flows
      ensures flows == Pruned(old(flows), now)
    {
      var todo := flows.Keys;
      while todo != {}
        invariant todo <= old(flows).Keys
        invariant forall k | k in old(flows) :: k in flows <==> k in todo || now < old(flows)[k]
        invariant forall k | k in flows :: k in old(flows) && flows[k] == old(flows)[k]
        decreases todo
      {
        var key :| key in todo;
        todo := todo - {key};
        if !(now < flows[key]) {
          flows := flows - {key};
        }
      }
    }

    /** Lets a packet out and remembers to let its answers in. */
    method AllowOutgoing(packet: Packet, now: Time) returns (ok: bool)
      requires Valid()
      modifies this
      ensures Valid() && config == old(config)
      ensures ok == LetsOut(config, packet)
      ensures history == AfterOut(config, old(history), packet, now)
      ensures ok <==> !config.enabled || Reads(packet, {6, 17, 58})
      ensures history ==
              if config.enabled && Reads(packet, {6, 17}) then old(history) + [Outgoing(Parse(packet).value, now)]
              else old(history)
    {
      OutExactly(config, packet);
      hide Parse, Expiry;
      if !config.enabled {
        return true;
      }
      var parsed := ParseIPv6Packet(packet);
      if parsed == None {
        return false;
      }
      var p := parsed.value;
      if p.allowICMP {
        return true;
      }
      if !p.hasPorts || (p.proto != TCP && p.proto != UDP) {
        return false;
      }
      OutgoingRepresents(flows, history, p, now);
      Prune(now);
      flows := flows[ReverseFlow(p) := now + FlowTTL(p)];
      history := history + [Outgoing(p, now)];
      return true;
    }

    /** Never lets in more than the history justifies, and exactly that if time does not run backwards. */
    method AllowIncoming(packet: Packet, now: Time) returns (ok: bool)
      requires Valid()
      modifies this
      ensures Valid() && config == old(config)
      ensures ok ==> LetsIn(config, old(history), packet, now)
      ensures Ordered(history) ==> ok == LetsIn(config, old(history), packet, now)
      ensures history == AfterIn(config, old(history), packet, now)
      ensures !config.enabled || Reads(packet, {58}) ==> ok
      ensures Reads(packet, {6}) && Parse(packet).value.dstPort in config.tcpPorts ==> ok
      ensures Reads(packet, {17}) && Parse(packet).value.dstPort in config.udpPorts ==> ok
      ensures config.enabled && !Reads(packet, {6, 17, 58}) ==> !ok
      ensures Ordered(history) && Reads(packet, {6, 17}) ==>
                Live(old(history), PacketFlow(Parse(packet).value), now) ==> ok
      ensures config.enabled && ok && Reads(packet, {6}) && Parse(packet).value.dstPort !in config.tcpPorts ==>
                Live(old(history), PacketFlow(Parse(packet).value), now)
      ensures config.enabled && ok && Reads(packet, {17}) && Parse(packet).value.dstPort !in config.udpPorts ==>
                Live(old(history), PacketFlow(Parse(packet).value), now)
      ensures history ==
              if config.enabled && Reads(packet, {6, 17}) then old(history) + [Incoming(Parse(packet).value, now)]
              else old(history)
    {
      OutExactly(config, packet);
      InExactly(config, history, packet, now);
      hide Parse, Expiry;
      if !config.enabled {
        return true;
      }
      var parsed := ParseIPv6Packet(packet);
      if parsed == None {
        return false;
      }
      var p := parsed.value;
      if p.allowICMP {
        return true;
      }
      if !p.hasPorts || (p.proto != TCP && p.proto != UDP) {
        return false;
      }
      IncomingRepresents(flows, history, p, now);
      Prune(now);
      var key := PacketFlow(p);
      PruneRepresents(old(flows), history, now, key);
      if Ordered(history + [Incoming(p, now)]) {
        OrderedPrefix(history, Incoming(p, now));
      }
      history := history + [Incoming(p, now)];
      if key in flows && now < flows[key] {
        if p.proto == TCP && (p.tcpFlags % 2 != 0 || p.tcpFlags / 4 % 2 != 0) {
          flows := flows - {key};
        } else {
          flows := flows[key := now + FlowTTL(p)];
        }
        return true;
      }
      return if p.proto == TCP then p.dstPort in config.tcpPorts else p.dstPort in config.udpPorts;
    }
  }
}
