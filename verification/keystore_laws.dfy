/** What every run of the key store keeps. */
module KeyStoreLaws {
  import opened Bits
  import opened Addresses
  import opened AddressLaws
  import opened KeyStoreSpec

  /** The destination is the address or the subnet of the key. */
  predicate Derives(k: Key, d: Dest) {
    match d
    case ToAddress(a) => AddrOf(k) == a
    case ToSubnet(n) => SubnetOf(k) == n
  }

  /** The packet is addressed to this destination. */
  predicate AddressedTo(p: Packet, d: Dest) {
    WellFormed(p) && Target(Destination(p)) == Some(d)
  }

  predicate Faithful(info: Info) {
    info.address == AddrOf(info.key) && info.subnet == SubnetOf(info.key)
  }

  // ----- Invariant: the index and the buffers -----

  /** An indexed destination is derived from its key, and the record is the live one of that key. */
  ghost predicate IndexInv(s: State) {
    && (forall k | k in s.keyToInfo :: s.keyToInfo[k].key == k && Faithful(s.keyToInfo[k]))
    && (forall d | d in s.index :: Derives(s.index[d].key, d) && s.index[d].key in s.keyToInfo
                                   && s.keyToInfo[s.index[d].key] == s.index[d])
  }

  /** Every live record and every held-back packet has a timer that will go off. */
  ghost predicate TimersInv(s: State) {
    && (forall t | t in s.timers && t.InfoTimer? :: Faithful(t.info))
    && (forall k | k in s.keyToInfo :: InfoTimer(s.keyToInfo[k]) in s.timers)
    && (forall d | d in s.buffers :: BufferTimer(d, s.buffers[d].buf) in s.timers)
  }

  /** A packet is held back only for its own destination, only while that destination is unknown, and
      only after a lookup for its partial key went out. */
  ghost predicate BuffersInv(s: State) {
    forall d | d in s.buffers ::
      d !in s.index && AddressedTo(s.buffers[d].packet, d) && PartialKeyOf(d) in s.lookups
  }

  /** Every packet handed to the core goes to a key that its destination is derived from. */
  ghost predicate SentInv(s: State) {
    forall i | 0 <= i < |s.sent| :: RightlySent(s.sent[i])
  }

  ghost predicate RightlySent(x: Sent) {
    WellFormed(x.packet) && Belongs(Destination(x.packet), x.key)
  }

  ghost predicate RoutingInv(s: State) {
    IndexInv(s) && TimersInv(s) && BuffersInv(s) && SentInv(s)
  }

  lemma SendToKeepsRouting(s: State, d: Dest, p: Packet, n: nat)
    requires RoutingInv(s) && AddressedTo(p, d)
    ensures RoutingInv(SendTo(s, d, p, n))
  {
    hide AddrOf, SubnetOf, PartialKeyOf;
    if d in s.index {
      OwnerIsRight(p, d, s.index[d].key, n);
      hide Derives, AddressedTo, RightlySent, Faithful;
      var s' := SendTo(s, d, p, n);
      assert forall i | 0 <= i < |s.sent| :: s'.sent[i] == s.sent[i];
    } else {
      hide RightlySent;
      HoldKeepsRouting(s, d, p, n);
    }
  }

  lemma HoldKeepsRouting(s: State, d: Dest, p: Packet, n: nat)
    requires RoutingInv(s) && AddressedTo(p, d) && d !in s.index
    ensures RoutingInv(SendTo(s, d, p, n))
  {
    hide AddrOf, SubnetOf, PartialKeyOf, Derives, AddressedTo, RightlySent, Faithful;
  }

  lemma OwnerIsRight(p: Packet, d: Dest, key: Key, n: nat)
    requires AddressedTo(p, d) && Derives(key, d)
    ensures RightlySent(Sent(p, key, n))
  {
  }

  lemma FlushKeepsRouting(s: State, d: Dest, key: Key)
    requires IndexInv(s) && TimersInv(s) && SentInv(s)
    requires forall x | x in s.buffers :: AddressedTo(s.buffers[x].packet, x)
    requires Derives(key, d)
    ensures IndexInv(Flush(s, d, key)) && TimersInv(Flush(s, d, key)) && SentInv(Flush(s, d, key))
  {
    hide AddrOf, SubnetOf, PartialKeyOf;
    var s' := Flush(s, d, key);
    assert forall i | 0 <= i < |s.sent| :: s'.sent[i] == s.sent[i];
  }

  lemma LearnKeepsIndex(s: State, key: Key)
    requires IndexInv(s) && TimersInv(s) && key !in s.keyToInfo
    ensures IndexInv(Learn(s, NewInfo(s, key))) && TimersInv(Learn(s, NewInfo(s, key)))
  {
    hide AddrOf, SubnetOf, PartialKeyOf;
  }

  lemma UpdateKeepsRouting(s: State, key: Key)
    requires RoutingInv(s)
    ensures RoutingInv(Update(s, key))
  {
    hide AddrOf, SubnetOf, PartialKeyOf, AddressedTo, RightlySent, Flush, Faithful;
    if key !in s.keyToInfo {
      LearnKeepsIndex(s, key);
      var s1 := Learn(s, NewInfo(s, key));
      BuffersAfterFlush(s, key);
      LearnedThenFlushed(s1, key, ToAddress(AddrOf(key)), ToSubnet(SubnetOf(key)));
    } else {
      KnownTimer(s, key);
    }
  }

  lemma KnownTimer(s: State, key: Key)
    requires RoutingInv(s) && key in s.keyToInfo
    ensures RoutingInv(Update(s, key))
  {
    hide AddrOf, SubnetOf, PartialKeyOf, AddressedTo, RightlySent;
  }

  lemma LearnedThenFlushed(s: State, key: Key, d: Dest, e: Dest)
    requires IndexInv(s) && TimersInv(s) && SentInv(s)
    requires forall x | x in s.buffers :: AddressedTo(s.buffers[x].packet, x)
    requires Derives(key, d) && Derives(key, e)
    ensures IndexInv(Flush(Flush(s, d, key), e, key)) && TimersInv(Flush(Flush(s, d, key), e, key))
    ensures SentInv(Flush(Flush(s, d, key), e, key))
  {
    FlushKeepsRouting(s, d, key);
    FlushKeepsRouting(Flush(s, d, key), e, key);
  }

  lemma BuffersAfterFlush(s: State, key: Key)
    requires BuffersInv(s) && key !in s.keyToInfo
    ensures BuffersInv(Update(s, key))
  {
    hide AddrOf, SubnetOf, PartialKeyOf;
  }

  lemma FireKeepsRouting(s: State, t: Timer)
    requires RoutingInv(s)
    ensures RoutingInv(Fire(s, t))
  {
    hide AddrOf, SubnetOf, PartialKeyOf;
  }

  lemma StepKeepsRouting(s: State, e: Event)
    requires RoutingInv(s)
    ensures RoutingInv(Step(s, e))
  {
    match e
    case WriteEvent(p) => WriteKeepsRouting(s, p);
    case PathNotify(key) => UpdateKeepsRouting(s, key);
    case CoreEvent(r) =>
      if TooBig(s, r) {
        if r.tooBig.Some? {
          WriteKeepsRouting(s, r.tooBig.value);
        }
      } else if ForUs(s, r) {
        UpdateKeepsRouting(s, r.from);
      }
    case TimerEvent(t) => FireKeepsRouting(s, t);
    case SetMTU(_, _) =>
  }

  lemma WriteKeepsRouting(s: State, p: Packet)
    requires RoutingInv(s)
    ensures RoutingInv(Write(s, p))
  {
    hide AddrOf, SubnetOf, SendTo;
    if WriteOutcome(s.own, p).Wrote? {
      SendToKeepsRouting(s.(accepted := s.accepted + [p]), Target(Destination(p)).value, p, |s.accepted|);
    }
  }

  /** In every run, however late timers go off. */
  lemma {:induction false} RunKeepsRouting(s: State, es: seq<Event>)
    requires RoutingInv(s)
    ensures RoutingInv(Run(s, es))
    decreases |es|
  {
    if es != [] {
      StepKeepsRouting(s, es[0]);
      RunKeepsRouting(Step(s, es[0]), es[1..]);
    }
  }

  /** The lookup for a destination is transformed like the full key of whoever owns the destination. */
  lemma LookupFindsOwner(k: Key, d: Dest)
    requires Derives(k, d)
    ensures BloomTransform(PartialKeyOf(d)) == BloomTransform(k)
  {
    BloomTransformAgrees(k);
  }

  // ----- Late timers -----

  function TimerId(t: Timer): nat {
    match t
    case InfoTimer(info) => info.id
    case BufferTimer(_, buf) => buf
  }

  /** Records and buffers made so far, and those that timers are for, have smaller identities than those to come. */
  ghost predicate IdsInv(s: State) {
    && (forall k | k in s.keyToInfo :: s.keyToInfo[k].id < s.nextId)
    && (forall d | d in s.index :: s.index[d].id < s.nextId)
    && (forall d | d in s.buffers :: s.buffers[d].buf < s.nextId)
    && (forall t | t in s.timers :: TimerId(t) < s.nextId)
  }

  /** The timer is for the record its key has now, or for the buffer its destination has now. */
  predicate Live(s: State, t: Timer) {
    match t
    case InfoTimer(info) => info.key in s.keyToInfo && s.keyToInfo[info.key] == info
    case BufferTimer(d, buf) => d in s.buffers && s.buffers[d].buf == buf
  }

  /** The record or buffer of this timer is gone. */
  predicate Dead(s: State, t: Timer) {
    TimerId(t) < s.nextId && !Live(s, t)
  }

  lemma SendToKeepsDead(s: State, d: Dest, p: Packet, n: nat, t: Timer)
    requires IdsInv(s)
    ensures IdsInv(SendTo(s, d, p, n)) && (Dead(s, t) ==> Dead(SendTo(s, d, p, n), t))
  {
    hide AddrOf, SubnetOf, PartialKeyOf;
  }

  lemma FlushKeepsDead(s: State, d: Dest, key: Key, t: Timer)
    requires IdsInv(s)
    ensures IdsInv(Flush(s, d, key)) && (Dead(s, t) ==> Dead(Flush(s, d, key), t))
  {
  }

  lemma LearnKeepsDead(s: State, key: Key, t: Timer)
    requires IdsInv(s)
    ensures IdsInv(Learn(s, NewInfo(s, key))) && (Dead(s, t) ==> Dead(Learn(s, NewInfo(s, key)), t))
  {
    hide AddrOf, SubnetOf;
  }

  lemma UpdateKeepsDead(s: State, key: Key, t: Timer)
    requires IdsInv(s)
    ensures IdsInv(Update(s, key)) && (Dead(s, t) ==> Dead(Update(s, key), t))
  {
    hide AddrOf, SubnetOf, Flush, Learn;
    if key !in s.keyToInfo {
      var info := NewInfo(s, key);
      LearnKeepsDead(s, key, t);
      FlushKeepsDead(Learn(s, info), ToAddress(info.address), key, t);
      FlushKeepsDead(Flush(Learn(s, info), ToAddress(info.address), key), ToSubnet(info.subnet), key, t);
      hide IdsInv, Dead;
    }
  }

  lemma FireKeepsDead(s: State, u: Timer, t: Timer)
    requires IdsInv(s)
    ensures IdsInv(Fire(s, u)) && (Dead(s, t) ==> Dead(Fire(s, u), t))
  {
    hide AddrOf, SubnetOf, PartialKeyOf;
  }

  lemma WriteKeepsDead(s: State, p: Packet, t: Timer)
    requires IdsInv(s)
    ensures IdsInv(Write(s, p)) && (Dead(s, t) ==> Dead(Write(s, p), t))
  {
    hide AddrOf, SubnetOf, SendTo, Belongs;
    if WriteOutcome(s.own, p).Wrote? {
      SendToKeepsDead(s.(accepted := s.accepted + [p]), Target(Destination(p)).value, p, |s.accepted|, t);
    }
  }

  lemma StepKeepsDead(s: State, e: Event, t: Timer)
    requires IdsInv(s)
    ensures IdsInv(Step(s, e)) && (Dead(s, t) ==> Dead(Step(s, e), t))
  {
    hide Write, Update, Fire;
    match e
    case WriteEvent(p) => WriteKeepsDead(s, p, t);
    case PathNotify(key) => UpdateKeepsDead(s, key, t);
    case CoreEvent(r) =>
      if r.tooBig.Some? {
        WriteKeepsDead(s, r.tooBig.value, t);
      }
      UpdateKeepsDead(s, r.from, t);
    case TimerEvent(u) => FireKeepsDead(s, u, t);
    case SetMTU(_, _) =>
  }

  lemma {:induction false} RunKeepsDead(s: State, es: seq<Event>, t: Timer)
    requires IdsInv(s)
    ensures IdsInv(Run(s, es)) && (Dead(s, t) ==> Dead(Run(s, es), t))
    decreases |es|
  {
    hide Step, IdsInv, Dead;
    if es != [] {
      StepKeepsDead(s, es[0], t);
      RunKeepsDead(Step(s, es[0]), es[1..], t);
    }
  }

  /** In every run, an armed timer whose record or buffer is gone stays without one, so however late it goes off it
      does nothing: it never touches a newer record of the same key or a newer packet for the same place. A
      timer that goes off does something exactly if its record or buffer is still there. */
  lemma LateTimersAreHarmless(own: Key, es: seq<Event>, later: seq<Event>, t: Timer)
    requires t in Run(Init(own), es).timers
    ensures var s := Run(Init(own), es);
            && (Fire(s, t) == s <==> !Live(s, t))
            && (!Live(s, t) ==> !Live(Run(s, later), t) && Fire(Run(s, later), t) == Run(s, later))
  {
    var s := Run(Init(own), es);
    RunKeepsDead(Init(own), es, t);
    RunKeepsRouting(Init(own), es);
    RunKeepsDead(s, later, t);
    RunKeepsRouting(s, later);
    hide Run, RoutingInv, IdsInv;
    FireNeedsLive(s, t);
    FireNeedsLive(Run(s, later), t);
  }

  lemma FireNeedsLive(s: State, t: Timer)
    requires RoutingInv(s)
    ensures !Live(s, t) ==> Fire(s, t) == s
    ensures t in s.timers && Live(s, t) ==> Fire(s, t) != s
  {
    hide AddrOf, SubnetOf;
    if t in s.timers && Live(s, t) {
      assert t.InfoTimer? ==> t.info.key !in Fire(s, t).keyToInfo;
      assert t.BufferTimer? ==> t.dest !in Fire(s, t).buffers;
    }
  }

  // ----- Invariant: one fate for every packet -----

  /** The places an accepted packet can be in: handed to the core, held back, or given up. */
  datatype Place = AtCore(i: nat) | InBuffer(d: Dest) | Replaced(i: nat) | TimedOut(i: nat)

  ghost predicate Occupied(s: State, p: Place) {
    match p
    case AtCore(i) => i < |s.sent|
    case InBuffer(d) => d in s.buffers
    case Replaced(i) => i < |s.superseded|
    case TimedOut(i) => i < |s.expired|
  }

  /** The serial number of the packet in a place. */
  ghost function Occupant(s: State, p: Place): nat
    requires Occupied(s, p)
  {
    match p
    case AtCore(i) => s.sent[i].serial
    case InBuffer(d) => s.buffers[d].serial
    case Replaced(i) => s.superseded[i]
    case TimedOut(i) => s.expired[i]
  }

  ghost predicate At(s: State, p: Place, n: nat) {
    Occupied(s, p) && Occupant(s, p) == n
  }

  /** Places that still carry the packet carry the bytes that were accepted. */
  ghost predicate Intact(s: State, p: Place)
    requires Occupied(s, p) && Occupant(s, p) < |s.accepted|
  {
    match p
    case AtCore(i) => s.sent[i].packet == s.accepted[s.sent[i].serial]
    case InBuffer(d) => s.buffers[d].packet == s.accepted[s.buffers[d].serial]
    case _ => true
  }

  /** Each of the first `n` accepted packets is in exactly one place, and nothing else is anywhere. */
  ghost predicate OnePlaceEach(s: State, n: nat) {
    && n <= |s.accepted|
    && (forall p | Occupied(s, p) :: Occupant(s, p) < n && Intact(s, p))
    && (forall p, q | Occupied(s, p) && Occupied(s, q) && Occupant(s, p) == Occupant(s, q) :: p == q)
    && (forall k | 0 <= k < n :: Somewhere(s, k))
  }

  ghost predicate Somewhere(s: State, n: nat) {
    exists p :: At(s, p, n)
  }

  /** The held-back packet of `d` moves to the end of one of the logs. */
  ghost predicate MovesOut(s: State, s': State, d: Dest, to: Place) {
    && d in s.buffers && s'.buffers == s.buffers - {d} && s'.accepted == s.accepted
    && match to
       case AtCore(i) =>
         && i == |s.sent| && s'.superseded == s.superseded && s'.expired == s.expired
         && |s'.sent| == i + 1 && s'.sent[..i] == s.sent
         && s'.sent[i].packet == s.buffers[d].packet && s'.sent[i].serial == s.buffers[d].serial
       case InBuffer(_) => false
       case Replaced(i) =>
         i == |s.superseded| && s'.sent == s.sent && s'.expired == s.expired
             && s'.superseded == s.superseded + [s.buffers[d].serial]
       case TimedOut(i) =>
         i == |s.expired| && s'.sent == s.sent && s'.superseded == s.superseded
             && s'.expired == s.expired + [s.buffers[d].serial]
  }

  lemma MovesOutFrom(s: State, s': State, d: Dest, to: Place, p: Place)
    requires MovesOut(s, s', d, to) && Occupied(s', p)
    ensures var q := if p == to then InBuffer(d) else p;
            Occupied(s, q) && Occupant(s, q) == Occupant(s', p)
    ensures p.AtCore? && p != to ==> s'.sent[p.i] == s.sent[p.i]
    ensures p == to || p != InBuffer(d)
  {
    assert to.AtCore? && p.AtCore? && p != to ==> s'.sent[p.i] == s'.sent[..to.i][p.i];
  }

  lemma MovesOutTo(s: State, s': State, d: Dest, to: Place, p: Place)
    requires MovesOut(s, s', d, to) && Occupied(s, p)
    ensures At(s', if p == InBuffer(d) then to else p, Occupant(s, p))
  {
    assert to.AtCore? && p.AtCore? ==> s'.sent[p.i] == s'.sent[..to.i][p.i];
  }

  lemma MovingOutKeepsPlaces(s: State, s': State, d: Dest, to: Place, n: nat)
    requires OnePlaceEach(s, n) && MovesOut(s, s', d, to)
    ensures OnePlaceEach(s', n)
  {
    forall p | Occupied(s', p)
      ensures Occupant(s', p) < n && Intact(s', p)
    {
      MovesOutFrom(s, s', d, to, p);
      var q := if p == to then InBuffer(d) else p;
      assert Intact(s, q);
    }
    forall p, q | Occupied(s', p) && Occupied(s', q) && Occupant(s', p) == Occupant(s', q)
      ensures p == q
    {
      MovesOutFrom(s, s', d, to, p);
      MovesOutFrom(s, s', d, to, q);
    }
    forall k | 0 <= k < n
      ensures Somewhere(s', k)
    {
      assert Somewhere(s, k);
      var p :| At(s, p, k);
      MovesOutTo(s, s', d, to, p);
    }
  }

  /** Packet number `n` appears in a place that was free. */
  ghost predicate Appears(s: State, s': State, at: Place, n: nat) {
    && n < |s.accepted| && s'.accepted == s.accepted && s'.superseded == s.superseded && s'.expired == s.expired
    && match at
       case AtCore(i) =>
         && i == |s.sent| && s'.buffers == s.buffers && |s'.sent| == i + 1 && s'.sent[..i] == s.sent
         && s'.sent[i].packet == s.accepted[n] && s'.sent[i].serial == n
       case InBuffer(d) =>
         && d !in s.buffers && s'.sent == s.sent && d in s'.buffers && s'.buffers == s.buffers[d := s'.buffers[d]]
         && s'.buffers[d].packet == s.accepted[n] && s'.buffers[d].serial == n
       case _ => false
  }

  lemma AppearsFrom(s: State, s': State, at: Place, n: nat, p: Place)
    requires Appears(s, s', at, n) && Occupied(s', p)
    ensures if p == at then Occupant(s', p) == n && Intact(s', p)
            else Occupied(s, p) && Occupant(s, p) == Occupant(s', p)
                 && (Occupant(s, p) < n && Intact(s, p) ==> Intact(s', p))
  {
    assert at.AtCore? && p.AtCore? && p != at ==> s'.sent[p.i] == s'.sent[..at.i][p.i];
  }

  lemma AppearingKeepsPlaces(s: State, s': State, at: Place, n: nat)
    requires OnePlaceEach(s, n) && Appears(s, s', at, n)
    ensures OnePlaceEach(s', n + 1)
  {
    forall p | Occupied(s', p)
      ensures Occupant(s', p) < n + 1 && Intact(s', p)
    {
      AppearsFrom(s, s', at, n, p);
    }
    forall p, q | Occupied(s', p) && Occupied(s', q) && Occupant(s', p) == Occupant(s', q)
      ensures p == q
    {
      AppearsFrom(s, s', at, n, p);
      AppearsFrom(s, s', at, n, q);
    }
    forall k | 0 <= k < n + 1
      ensures Somewhere(s', k)
    {
      if k == n {
        assert At(s', at, n);
      } else {
        assert Somewhere(s, k);
        var p :| At(s, p, k);
        assert p.AtCore? && at.AtCore? ==> s'.sent[p.i] == s'.sent[..at.i][p.i];
        assert At(s', p, k);
      }
    }
  }

  lemma SendToKeepsPlaces(s: State, d: Dest, p: Packet, n: nat)
    requires OnePlaceEach(s, n) && n < |s.accepted| && s.accepted[n] == p
    ensures OnePlaceEach(SendTo(s, d, p, n), n + 1)
  {
    hide AddrOf, SubnetOf, KeyOf, PartialKeyOf, OnePlaceEach;
    var s' := SendTo(s, d, p, n);
    if d in s.index {
      AppearingKeepsPlaces(s, s', AtCore(|s.sent|), n);
    } else if d in s.buffers {
      var s1 := s.(buffers := s.buffers - {d}, superseded := s.superseded + [s.buffers[d].serial]);
      MovingOutKeepsPlaces(s, s1, d, Replaced(|s.superseded|), n);
      assert s'.buffers == s1.buffers[d := s'.buffers[d]];
      AppearingKeepsPlaces(s1, s', InBuffer(d), n);
    } else {
      AppearingKeepsPlaces(s, s', InBuffer(d), n);
    }
  }

  lemma FlushKeepsPlaces(s: State, d: Dest, key: Key, n: nat)
    requires OnePlaceEach(s, n)
    ensures OnePlaceEach(Flush(s, d, key), n)
  {
    if d in s.buffers {
      MovingOutKeepsPlaces(s, Flush(s, d, key), d, AtCore(|s.sent|), n);
    }
  }

  lemma SamePlaces(s: State, s': State, n: nat)
    requires OnePlaceEach(s, n)
    requires s'.sent == s.sent && s'.buffers == s.buffers && s'.superseded == s.superseded && s'.expired == s.expired
    requires s.accepted <= s'.accepted
    ensures OnePlaceEach(s', n)
  {
    forall p | Occupied(s', p)
      ensures Occupant(s', p) < n && Intact(s', p)
    {
      assert Occupied(s, p) && Intact(s, p);
    }
    forall p, q | Occupied(s', p) && Occupied(s', q) && Occupant(s', p) == Occupant(s', q)
      ensures p == q
    {
      assert Occupied(s, p) && Occupied(s, q) && Occupant(s, p) == Occupant(s, q);
    }
    forall k | 0 <= k < n
      ensures Somewhere(s', k)
    {
      assert Somewhere(s, k);
      var p :| At(s, p, k);
      assert At(s', p, k);
    }
  }

  lemma FireKeepsPlaces(s: State, t: Timer, n: nat)
    requires OnePlaceEach(s, n)
    ensures OnePlaceEach(Fire(s, t), n)
  {
    if t in s.timers && t.BufferTimer? && t.dest in s.buffers && s.buffers[t.dest].buf == t.buf {
      MovingOutKeepsPlaces(s, Fire(s, t), t.dest, TimedOut(|s.expired|), n);
    } else {
      SamePlaces(s, Fire(s, t), n);
    }
  }

  lemma UpdateKeepsPlaces(s: State, key: Key, n: nat)
    requires OnePlaceEach(s, n)
    ensures OnePlaceEach(Update(s, key), n)
  {
    hide AddrOf, SubnetOf;
    if key in s.keyToInfo {
      SamePlaces(s, Update(s, key), n);
    } else {
      var info := NewInfo(s, key);
      var s1 := Learn(s, info);
      SamePlaces(s, s1, n);
      FlushKeepsPlaces(s1, ToAddress(info.address), key, n);
      FlushKeepsPlaces(Flush(s1, ToAddress(info.address), key), ToSubnet(info.subnet), key, n);
    }
  }

  lemma WriteKeepsPlaces(s: State, p: Packet)
    requires OnePlaceEach(s, |s.accepted|)
    ensures OnePlaceEach(Write(s, p), |Write(s, p).accepted|)
  {
    hide AddrOf, SubnetOf, Occupied, Belongs;
    if WriteOutcome(s.own, p).Wrote? {
      var s1 := s.(accepted := s.accepted + [p]);
      SamePlaces(s, s1, |s.accepted|);
      SendToKeepsPlaces(s1, Target(Destination(p)).value, p, |s.accepted|);
    }
  }

  lemma StepKeepsPlaces(s: State, e: Event)
    requires OnePlaceEach(s, |s.accepted|)
    ensures OnePlaceEach(Step(s, e), |Step(s, e).accepted|)
  {
    match e
    case WriteEvent(p) => WriteKeepsPlaces(s, p);
    case PathNotify(key) => UpdateKeepsPlaces(s, key, |s.accepted|);
    case CoreEvent(r) =>
      if TooBig(s, r) {
        if r.tooBig.Some? {
          WriteKeepsPlaces(s, r.tooBig.value);
        }
      } else if ForUs(s, r) {
        UpdateKeepsPlaces(s, r.from, |s.accepted|);
      }
    case TimerEvent(t) => FireKeepsPlaces(s, t, |s.accepted|);
    case SetMTU(_, _) => SamePlaces(s, Step(s, e), |s.accepted|);
  }

  lemma {:induction false} RunKeepsPlaces(s: State, es: seq<Event>)
    requires OnePlaceEach(s, |s.accepted|)
    ensures OnePlaceEach(Run(s, es), |Run(s, es).accepted|)
    decreases |es|
  {
    if es != [] {
      StepKeepsPlaces(s, es[0]);
      RunKeepsPlaces(Step(s, es[0]), es[1..]);
    }
  }

  // ----- From the start -----

  /** Whatever happens and in whatever order: every packet the core is given goes to a key whose address or
      subnet is the packet's destination, and every indexed destination belongs to a live key. */
  lemma PacketsReachTheirKey(own: Key, es: seq<Event>)
    ensures var s := Run(Init(own), es);
            && (forall i | 0 <= i < |s.sent| :: RightlySent(s.sent[i]))
            && (forall d | d in s.index :: Derives(s.index[d].key, d) && s.index[d].key in s.keyToInfo
                                           && s.keyToInfo[s.index[d].key] == s.index[d])
            && (forall d | d in s.buffers :: d !in s.index && AddressedTo(s.buffers[d].packet, d)
                                             && PartialKeyOf(d) in s.lookups)
  {
    RunKeepsRouting(Init(own), es);
  }

  /** Every accepted packet has exactly one fate: given to the core once, held back, replaced or timed out. */
  lemma PacketsAreConserved(own: Key, es: seq<Event>, n: nat)
    requires n < |Run(Init(own), es).accepted|
    ensures exists p :: At(Run(Init(own), es), p, n) && Intact(Run(Init(own), es), p)
                        && forall q | At(Run(Init(own), es), q, n) :: q == p
  {
    var s := Run(Init(own), es);
    RunKeepsPlaces(Init(own), es);
    assert Somewhere(s, n);
    var p :| At(s, p, n);
  }

  /** A fate other than being held back is final. */
  ghost predicate Grown(s: State, s': State) {
    s.accepted <= s'.accepted && s.sent <= s'.sent && s.superseded <= s'.superseded && s.expired <= s'.expired
  }

  lemma {:induction false} FatesAreFinal(s: State, es: seq<Event>)
    ensures Grown(s, Run(s, es))
    decreases |es|
  {
    if es != [] {
      StepGrows(s, es[0]);
      FatesAreFinal(Step(s, es[0]), es[1..]);
    }
  }

  lemma StepGrows(s: State, e: Event)
    ensures Grown(s, Step(s, e))
  {
    hide Write, Update;
    match e
    case WriteEvent(p) => WriteGrows(s, p);
    case PathNotify(key) => UpdateGrows(s, key);
    case CoreEvent(r) =>
      UpdateGrows(s, r.from);
      if r.tooBig.Some? {
        WriteGrows(s, r.tooBig.value);
      }
    case _ =>
  }

  lemma WriteGrows(s: State, p: Packet)
    ensures Grown(s, Write(s, p))
  {
    hide AddrOf, SubnetOf, PartialKeyOf, Belongs;
  }

  lemma UpdateGrows(s: State, key: Key)
    ensures Grown(s, Update(s, key))
  {
    hide AddrOf, SubnetOf;
  }
}
