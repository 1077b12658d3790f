/** Which packets the key store takes and passes up, byte for byte, and why each packet ends where it does. */
module KeyStoreFates {
  import opened Bits
  import opened Addresses
  import opened KeyStoreSpec
  import opened KeyStoreLaws

  // ----- What is accepted and what is passed up -----

  /** At least a header, of version 6. */
  predicate HasHeader(p: Packet) {
    |p| >= 40 && p[0] & 0xf0 == 0x60
  }

  /** The sixteen bytes at `i` are the key's address, or the first eight of them its subnet. */
  predicate IsAddressOf(p: Packet, i: nat, key: Key)
    requires i + 16 <= |p|
  {
    p[i..i + 16] == AddrOf(key) || p[i..i + 8] == SubnetOf(key)
  }

  /** The answer to a write, and exactly when it is given. */
  lemma WriteAnswers(own: Key, p: Packet)
    ensures var r := WriteOutcome(own, p);
            && (r == Empty <==> p == [])
            && (r == NotIPv6 <==> p != [] && p[0] & 0xf0 != 0x60)
            && (r == Undersized <==> p != [] && p[0] & 0xf0 == 0x60 && |p| < 40)
            && (r == BadSource <==> HasHeader(p) && !IsAddressOf(p, 8, own))
            && (r == BadDestination <==> HasHeader(p) && IsAddressOf(p, 8, own) && p[24] != 0x02 && p[24] != 0x03)
            && (r.Wrote? <==> HasHeader(p) && IsAddressOf(p, 8, own) && (p[24] == 0x02 || p[24] == 0x03))
            && (r.Wrote? ==> r.n == |p|)
  {
    hide AddrOf, SubnetOf;
    if |p| >= 40 {
      SameSlices(p);
    }
  }

  lemma SameSlices(p: Packet)
    requires |p| >= 40
    ensures p[8..24][..8] == p[8..16] && p[24..40][..8] == p[24..32] && p[24..40][0] == p[24] == p[24..32][0]
  {
  }

  /** Where a packet is addressed to, by the first byte of its destination. */
  lemma TargetInBytes(p: Packet)
    requires WellFormed(p)
    ensures Target(Destination(p)) == if p[24] == 0x02 then Some(ToAddress(p[24..40]))
                                      else if p[24] == 0x03 then Some(ToSubnet(p[24..32]))
                                      else None
  {
    SameSlices(p);
  }

  /** A packet from the core is passed up exactly if it fits the MTU, is for this node's address or subnet, and comes
      from the address or the subnet of the key that sent it. */
  lemma DeliveredExactly(s: State, r: CoreRead)
    ensures Delivered(s, r) <==> HasHeader(r.packet) && |r.packet| <= s.mtu && IsAddressOf(r.packet, 24, s.own)
                                 && IsAddressOf(r.packet, 8, r.from)
  {
    hide AddrOf, SubnetOf;
    if |r.packet| >= 40 {
      SameSlices(r.packet);
    }
  }

  /** What reading a packet does to the store: one that is too big is answered, one for this node makes its sender
      known, and any other does nothing. */
  lemma ReceiveDecides(s: State, r: CoreRead)
    ensures HasHeader(r.packet) && |r.packet| > s.mtu ==>
              Receive(s, r) == (if r.tooBig.Some? then Write(s, r.tooBig.value) else s)
    ensures HasHeader(r.packet) && |r.packet| <= s.mtu && IsAddressOf(r.packet, 24, s.own) ==>
              Receive(s, r) == Update(s, r.from)
    ensures !HasHeader(r.packet) || (|r.packet| <= s.mtu && !IsAddressOf(r.packet, 24, s.own)) ==> Receive(s, r) == s
  {
    hide AddrOf, SubnetOf, Write, Update;
    if |r.packet| >= 40 {
      SameSlices(r.packet);
    }
  }

  // ----- Where a packet goes -----

  /** An accepted packet goes to the key of its destination, whose record is re-armed; or it is held back, alone, with
      a timer and a lookup of its own, in the buffer there was or in a new one. */
  lemma WriteGoes(s: State, p: Packet, d: Dest)
    requires WriteOutcome(s.own, p).Wrote? && AddressedTo(p, d)
    ensures var s', n := Write(s, p), |s.accepted|;
            && s'.accepted == s.accepted + [p]
            && s'.(accepted := s.accepted, sent := s.sent, buffers := s.buffers, timers := s.timers,
                   lookups := s.lookups, superseded := s.superseded, nextId := s.nextId) == s
            && if d in s.index then
                 && s'.sent == s.sent + [Sent(p, s.index[d].key, n)] && s'.timers == s.timers + [InfoTimer(s.index[d])]
                 && s'.buffers == s.buffers && s'.superseded == s.superseded && s'.lookups == s.lookups
               else
                 && s'.sent == s.sent && s'.lookups == s.lookups + [PartialKeyOf(d)]
                 && d in s'.buffers && s'.buffers[d].packet == p && s'.buffers[d].serial == n
                 && s'.buffers == s.buffers[d := s'.buffers[d]]
                 && s'.timers == s.timers + [BufferTimer(d, s'.buffers[d].buf)]
                 && s'.buffers[d].buf == (if d in s.buffers then s.buffers[d].buf else s.nextId)
                 && s'.superseded == s.superseded + if d in s.buffers then [s.buffers[d].serial] else []
  {
    hide AddrOf, SubnetOf, PartialKeyOf, Belongs;
  }

  lemma RefusedChangesNothing(s: State, p: Packet)
    requires !WriteOutcome(s.own, p).Wrote?
    ensures Write(s, p) == s
  {
    hide AddrOf, SubnetOf, Belongs;
  }

  // ----- What becoming known does -----

  /** A new key is known from then on by its address and its subnet, under a timer; whatever was held back for either
      goes out to it, and nothing else does; nothing is given up, and no other destination is touched. */
  lemma NewKeyGetsItsPackets(s: State, key: Key)
    requires key !in s.keyToInfo
    ensures var s' := Update(s, key);
            && key in s'.keyToInfo && s'.keyToInfo[key].key == key
            && s'.keyToInfo == s.keyToInfo[key := s'.keyToInfo[key]]
            && s'.timers == s.timers + [InfoTimer(s'.keyToInfo[key])]
            && (forall d | Derives(key, d) :: d in s'.index && s'.index[d] == s'.keyToInfo[key] && d !in s'.buffers)
            && (forall d | !Derives(key, d) ::
                  (d in s'.index <==> d in s.index) && (d in s.index ==> s'.index[d] == s.index[d]))
            && (forall d | !Derives(key, d) ::
                  (d in s'.buffers <==> d in s.buffers) && (d in s.buffers ==> s'.buffers[d] == s.buffers[d]))
            && (forall d | Derives(key, d) && d in s.buffers ::
                  Sent(s.buffers[d].packet, key, s.buffers[d].serial) in s'.sent)
            && s.sent <= s'.sent
            && (forall i | |s.sent| <= i < |s'.sent| ::
                  exists d :: Derives(key, d) && d in s.buffers
                              && s'.sent[i] == Sent(s.buffers[d].packet, key, s.buffers[d].serial))
            && s'.superseded == s.superseded && s'.expired == s.expired
            && s'.accepted == s.accepted && s'.lookups == s.lookups
  {
    hide AddrOf, SubnetOf, Flush;
    var info := NewInfo(s, key);
    var d, e := ToAddress(info.address), ToSubnet(info.subnet);
    var s1 := Learn(s, info);
    Flushed(s1, d, key);
    Flushed(Flush(s1, d, key), e, key);
    forall x | Derives(key, x)
      ensures x == d || x == e
    {
    }
  }

  lemma Flushed(s: State, d: Dest, key: Key)
    ensures var s' := Flush(s, d, key);
            && s'.(buffers := s.buffers, sent := s.sent) == s && s'.buffers == s.buffers - {d}
            && s'.sent ==
               s.sent + if d in s.buffers then [Sent(s.buffers[d].packet, key, s.buffers[d].serial)] else []
  {
  }

  /** A key that is known already is only re-armed. */
  lemma KnownKeyIsRearmed(s: State, key: Key)
    requires key in s.keyToInfo
    ensures Update(s, key) == s.(timers := s.timers + [InfoTimer(s.keyToInfo[key])])
  {
  }

  /** A timer that goes off takes its own record out of every map, or its own buffer, and touches nothing else. */
  lemma TimerTakesItsOwn(s: State, t: Timer)
    requires RoutingInv(s) && t in s.timers && Live(s, t)
    ensures var s' := Fire(s, t);
            match t
            case InfoTimer(info) =>
              && s'.keyToInfo == s.keyToInfo - {info.key}
              && s'.index == (map d | d in s.index && s.index[d] != info :: s.index[d])
              && s'.(keyToInfo := s.keyToInfo, index := s.index) == s
            case BufferTimer(d, _) =>
              && s'.buffers == s.buffers - {d} && s'.expired == s.expired + [s.buffers[d].serial]
              && s'.(buffers := s.buffers, expired := s.expired) == s
  {
    hide AddrOf, SubnetOf;
  }

  // ----- Why a packet ended where it did -----

  /** This step put packet `n` into a place for good, and rightly: it went out to the key that its destination was
      known to belong to, or to one that became known while the packet was held back for it; or it was replaced
      by a packet to the same destination accepted just then; or the timer of its own buffer went off. */
  ghost predicate Causes(s: State, e: Event, p: Place, n: nat) {
    !Occupied(s, p) && At(Step(s, e), p, n)
    && match p
       case AtCore(i) => SentFresh(s, Step(s, e), i, n) || SentFromBuffer(s, Step(s, e), i, n)
       case Replaced(_) => ReplacedNow(s, Step(s, e), n)
       case TimedOut(_) =>
         && e.TimerEvent? && e.timer.BufferTimer? && e.timer in s.timers && Live(s, e.timer)
         && s.buffers[e.timer.dest].serial == n
       case InBuffer(_) => true
  }

  ghost predicate SentFresh(s: State, s': State, i: nat, n: nat)
    requires i < |s'.sent|
  {
    && n == |s.accepted|
    && exists d :: d in s.index && AddressedTo(s'.sent[i].packet, d) && s'.sent[i].key == s.index[d].key
  }

  ghost predicate SentFromBuffer(s: State, s': State, i: nat, n: nat)
    requires i < |s'.sent|
  {
    && s'.sent[i].key !in s.keyToInfo && s'.sent[i].key in s'.keyToInfo
    && exists d :: d in s.buffers && s.buffers[d].serial == n && Derives(s'.sent[i].key, d)
  }

  ghost predicate ReplacedNow(s: State, s': State, n: nat) {
    && |s'.accepted| == |s.accepted| + 1
    && exists d :: d in s.buffers && s.buffers[d].serial == n && AddressedTo(s'.accepted[|s.accepted|], d)
  }

  lemma StepCauses(s: State, e: Event, p: Place)
    requires !p.InBuffer? && !Occupied(s, p) && Occupied(Step(s, e), p)
    ensures Causes(s, e, p, Occupant(Step(s, e), p))
  {
    hide Write, Update, Fire, Causes;
    match e
    case WriteEvent(x) => WriteCauses(s, e, x, p);
    case PathNotify(key) => UpdateCauses(s, e, key, p);
    case CoreEvent(r) =>
      if TooBig(s, r) {
        if r.tooBig.Some? { WriteCauses(s, e, r.tooBig.value, p); }
      } else if ForUs(s, r) {
        UpdateCauses(s, e, r.from, p);
      }
    case TimerEvent(t) => FireCauses(s, t, p);
    case SetMTU(_, _) =>
  }

  lemma WriteCauses(s: State, e: Event, x: Packet, p: Place)
    requires Step(s, e) == Write(s, x) && !p.InBuffer? && !Occupied(s, p) && Occupied(Step(s, e), p)
    ensures Causes(s, e, p, Occupant(Step(s, e), p))
  {
    hide AddrOf, SubnetOf, PartialKeyOf, Belongs, Step;
    if WriteOutcome(s.own, x).Wrote? {
      var d := Target(Destination(x)).value;
      WriteGoes(s, x, d);
      hide Write;
      assert AddressedTo(x, d);
    }
  }

  lemma UpdateCauses(s: State, e: Event, key: Key, p: Place)
    requires Step(s, e) == Update(s, key) && !p.InBuffer? && !Occupied(s, p) && Occupied(Step(s, e), p)
    ensures Causes(s, e, p, Occupant(Step(s, e), p))
  {
    hide AddrOf, SubnetOf, Step;
    if key in s.keyToInfo {
      KnownKeyIsRearmed(s, key);
    } else {
      NewKeyGetsItsPackets(s, key);
    }
    hide Update;
  }

  lemma FireCauses(s: State, t: Timer, p: Place)
    requires !p.InBuffer? && !Occupied(s, p) && Occupied(Step(s, TimerEvent(t)), p)
    ensures Causes(s, TimerEvent(t), p, Occupant(Step(s, TimerEvent(t)), p))
  {
    hide AddrOf, SubnetOf;
  }

  /** In every run, a packet that is not held back any more got where it is at one moment and for one of those
      reasons. */
  lemma FatesHaveCauses(own: Key, es: seq<Event>, p: Place)
    requires !p.InBuffer? && Occupied(Run(Init(own), es), p)
    ensures exists k | 0 <= k < |es| ::
              Causes(Run(Init(own), es[..k]), es[k], p, Occupant(Run(Init(own), es), p))
  {
    NothingAtStart(own, p);
    hide Run, Occupied, Causes, Init;
    FateFrom(Init(own), es, p);
  }

  lemma NothingAtStart(own: Key, p: Place)
    requires !p.InBuffer?
    ensures !Occupied(Init(own), p)
  {
  }

  lemma {:induction false} FateFrom(s0: State, es: seq<Event>, p: Place)
    requires !p.InBuffer? && !Occupied(s0, p) && Occupied(Run(s0, es), p)
    ensures exists k | 0 <= k < |es| :: Causes(Run(s0, es[..k]), es[k], p, Occupant(Run(s0, es), p))
    decreases |es|
  {
    hide Step, Causes;
    assert es != [];
    var i := |es| - 1;
    var s := Run(s0, es[..i]);
    assert es == es[..i] + [es[i]];
    RunAppend(s0, es[..i], es[i]);
    hide Run;
    if Occupied(s, p) {
      StepGrows(s, es[i]);
      FateFrom(s0, es[..i], p);
      var k :| 0 <= k < i && Causes(Run(s0, es[..i][..k]), es[..i][k], p, Occupant(s, p));
      assert es[..i][..k] == es[..k];
    } else {
      StepCauses(s, es[i], p);
    }
  }
}
