/** The way of a packet from the core to a TUN device, in buffers that go back to a pool. One step is one
    operation on a channel, the pool, a buffer or a device; the goroutines' steps interleave freely. */
module TunPipeline {
  import opened Bits

  type Packet = seq<Byte>
  type Buffer = nat

  const QUEUE_SIZE := 256

  /** A buffer holding a packet; `serial` counts the packets read from the core. */
  datatype Slice = Slice(buf: Buffer, serial: nat)

  /** A packet copied out of its buffer. */
  datatype Copy = Copy(packet: Packet, serial: nat)

  /** One device session: its channel, the batch its writer has taken, the part of it that is copied but whose
      buffers are still to be given back, the copies still to be written, and what the device has been given. */
  datatype Lane = Lane(mtu: nat, batchSize: nat, chan: seq<Slice>, batch: seq<Slice>, returning: seq<Slice>,
                       copies: seq<Copy>, written: seq<Copy>)

  /** `memory` is what each buffer contains up to the length of its packet. `fromCore` are the packets read from the
      core, `busy` tells for a buffer in use which packet it was taken for, and `routed` which session was
      current when a packet was handed on. */
  datatype State = State(
    memory: map<Buffer, Packet>,
    pool: set<Buffer>,
    reader: Option<Slice>,
    queue: seq<Slice>,
    current: Option<nat>,
    enabled: bool,
    lanes: map<nat, Lane>,
    fromCore: seq<Packet>,
    busy: map<Buffer, nat>,
    routed: map<nat, nat>)

  function Init(): State {
    State(map[], {}, None, [], None, false, map[], [], map[], map[])
  }

  datatype Step =
    | ReadCore(buf: Buffer, packet: Packet)
    | ReadFails(buf: Buffer)
    | Enqueue
    | DropRead
    | Route(allowed: bool)
    | Attach(id: nat, mtu: nat, batchSize: nat)
    | Detach
    | SetEnabled(on: bool)
    | SetMTU(newMTU: nat)
    | Take(session: nat)
    | CopyOut(writer: nat)
    | GiveBack(writer: nat)
    | WriteDevice(device: nat, n: nat)
    | PoolDrops(buf: Buffer)

  predicate CanRead(s: State, buf: Buffer) {
    s.reader == None && (buf in s.pool || buf !in s.memory)
  }

  /** A buffer comes from the pool or is made; the core's packet is read into it. */
  function AfterRead(s: State, buf: Buffer, packet: Packet): State {
    if !CanRead(s, buf) then s
    else
      s.(memory := s.memory[buf := packet], pool := s.pool - {buf}, reader := Some(Slice(buf, |s.fromCore|)),
         fromCore := s.fromCore + [packet], busy := s.busy[buf := |s.fromCore|])
  }

  /** The core gives an error instead, and the buffer goes back. */
  function AfterFailedRead(s: State, buf: Buffer): State {
    if !CanRead(s, buf) then s else s.(memory := s.memory[buf := []], pool := s.pool + {buf})
  }

  function Release(s: State, buf: Buffer): State {
    s.(pool := s.pool + {buf}, busy := s.busy - {buf})
  }

  /** Whether a packet is handed to the current session, with room for four batches in its channel. */
  predicate Passes(s: State, x: Slice, allowed: bool) {
    && s.current.Some? && s.enabled && s.current.value in s.lanes && allowed
    && (x.buf in s.memory ==>
          s.lanes[s.current.value].mtu == 0 || |s.memory[x.buf]| <= s.lanes[s.current.value].mtu)
    && |s.lanes[s.current.value].chan| < 4 * s.lanes[s.current.value].batchSize
  }

  function AfterRoute(s: State, allowed: bool): State {
    if s.queue == [] then s
    else
      var x, s' := s.queue[0], s.(queue := s.queue[1..]);
      if Passes(s, x, allowed) then
        var id := s.current.value;
        s'.(lanes := s.lanes[id := s.lanes[id].(chan := s.lanes[id].chan + [x])], routed := s.routed[x.serial := id])
      else Release(s', x.buf)
  }

  /** The writer takes a packet from its channel, unless it is busy with a batch. */
  function AfterTake(s: State, id: nat): State {
    if id !in s.lanes || s.lanes[id].chan == [] || s.lanes[id].copies != [] || s.lanes[id].returning != []
       || |s.lanes[id].batch| >= s.lanes[id].batchSize
    then s
    else
      var l := s.lanes[id];
      s.(lanes := s.lanes[id := l.(chan := l.chan[1..], batch := l.batch + [l.chan[0]])])
  }

  function CopyOf(memory: map<Buffer, Packet>, x: Slice): Copy {
    Copy(if x.buf in memory then memory[x.buf] else [], x.serial)
  }

  function CopiesOf(memory: map<Buffer, Packet>, xs: seq<Slice>): seq<Copy> {
    seq(|xs|, i requires 0 <= i < |xs| => CopyOf(memory, xs[i]))
  }

  /** The writer copies the next packet of its batch, as its buffer is now. */
  function AfterCopy(s: State, id: nat): State {
    if id !in s.lanes || s.lanes[id].batch == [] then s
    else
      var l := s.lanes[id];
      s.(lanes := s.lanes[id := l.(batch := l.batch[1..], returning := l.returning + [l.batch[0]],
                                   copies := l.copies + [CopyOf(s.memory, l.batch[0])])])
  }

  /** Once the batch is copied, the writer gives back one buffer after the other. */
  predicate GivesBack(s: State, id: nat) {
    id in s.lanes && s.lanes[id].batch == [] && s.lanes[id].returning != []
  }

  function AfterGiveBack(s: State, id: nat): State {
    if !GivesBack(s, id) then s
    else
      var l := s.lanes[id];
      Release(s.(lanes := s.lanes[id := l.(returning := l.returning[1..])]), l.returning[0].buf)
  }

  /** The device takes the first `n` of what it is offered, or all if it claims more. */
  function AfterWrite(s: State, id: nat, n: nat): State {
    if id !in s.lanes || s.lanes[id].batch != [] || s.lanes[id].returning != [] then s
    else
      var l := s.lanes[id];
      var k := if n < |l.copies| then n else |l.copies|;
      s.(lanes := s.lanes[id := l.(copies := l.copies[k..], written := l.written + l.copies[..k])])
  }

  /** A device that names no batch size gets packets one by one. */
  function NewLane(mtu: nat, batchSize: nat): Lane {
    Lane(mtu, if batchSize == 0 then 1 else batchSize, [], [], [], [], [])
  }

  function Next(s: State, e: Step): State {
    match e
    case ReadCore(buf, packet) => AfterRead(s, buf, packet)
    case ReadFails(buf) => AfterFailedRead(s, buf)
    case Enqueue =>
      if s.reader.Some? && |s.queue| < QUEUE_SIZE then s.(reader := None, queue := s.queue + [s.reader.value]) else s
    case DropRead => if s.reader.Some? then Release(s.(reader := None), s.reader.value.buf) else s
    case Route(allowed) => AfterRoute(s, allowed)
    case Attach(id, mtu, batchSize) =>
      if id in s.lanes then s
      else s.(lanes := s.lanes[id := NewLane(mtu, batchSize)], current := Some(id), enabled := true)
    case Detach => s.(current := None, enabled := false)
    case SetEnabled(on) => s.(enabled := on)
    case SetMTU(m) =>
      if s.current.Some? && s.current.value in s.lanes then
        s.(lanes := s.lanes[s.current.value := s.lanes[s.current.value].(mtu := m)])
      else s
    case Take(id) => AfterTake(s, id)
    case CopyOut(id) => AfterCopy(s, id)
    case GiveBack(id) => AfterGiveBack(s, id)
    case WriteDevice(id, n) => AfterWrite(s, id, n)
    case PoolDrops(buf) => s.(pool := s.pool - {buf})
  }

  function Run(s: State, es: seq<Step>): State
    decreases |es|
  {
    if es == [] then s else Run(Next(s, es[0]), es[1..])
  }

  // ----- Who owns a buffer -----

  /** The buffer is in use for this packet and still contains it. */
  ghost predicate Owned(s: State, x: Slice) {
    && x.buf in s.busy && s.busy[x.buf] == x.serial
    && x.serial < |s.fromCore| && x.buf in s.memory && s.memory[x.buf] == s.fromCore[x.serial]
  }

  /** The packets waiting to be routed, oldest first. */
  ghost function Waiting(s: State): seq<Slice> {
    s.queue + if s.reader.Some? then [s.reader.value] else []
  }

  ghost function Held(l: Lane): seq<Slice> {
    l.returning + l.batch + l.chan
  }

  ghost predicate OwnershipInv(s: State) {
    && (forall b | b in s.busy :: b in s.memory && b !in s.pool)
    && (forall i | 0 <= i < |Waiting(s)| :: Owned(s, Waiting(s)[i]) && Waiting(s)[i].serial !in s.routed)
    && (forall id | id in s.lanes :: LaneOwned(s, id))
  }

  ghost predicate LaneOwned(s: State, id: nat)
    requires id in s.lanes
  {
    forall i | 0 <= i < |Held(s.lanes[id])| ::
      Owned(s, Held(s.lanes[id])[i]) && Held(s.lanes[id])[i].serial in s.routed
          && s.routed[Held(s.lanes[id])[i].serial] == id
  }

  // ----- In what order packets arrive -----

  ghost function SliceSerials(xs: seq<Slice>): seq<nat> {
    seq(|xs|, i requires 0 <= i < |xs| => xs[i].serial)
  }

  ghost function CopySerials(xs: seq<Copy>): seq<nat> {
    seq(|xs|, i requires 0 <= i < |xs| => xs[i].serial)
  }

  /** Everything routed to a session, in the order it is written, written or not. */
  ghost function LaneSerials(l: Lane): seq<nat> {
    CopySerials(l.written) + CopySerials(l.copies) + SliceSerials(l.batch) + SliceSerials(l.chan)
  }

  ghost predicate Increasing(xs: seq<nat>) {
    forall i, j | 0 <= i < j < |xs| :: xs[i] < xs[j]
  }

  ghost predicate InOrder(xs: seq<Slice>) {
    forall i, j | 0 <= i < j < |xs| :: xs[i].serial < xs[j].serial
  }

  /** Packets wait in the order they were read, behind everything that has been routed; a session gets what is
      routed to it in that order. */
  ghost predicate OrderInv(s: State) {
    && InOrder(Waiting(s))
    && (forall n, i | n in s.routed && 0 <= i < |Waiting(s)| :: n < Waiting(s)[i].serial)
    && (forall n | n in s.routed :: n < |s.fromCore|)
    && (forall id | id in s.lanes :: LaneOrdered(s, id))
  }

  /** The buffers still to be given back are those of the last copies. */
  ghost predicate Returns(l: Lane) {
    && |l.returning| <= |l.copies|
    && forall i | 0 <= i < |l.returning| :: l.copies[|l.copies| - |l.returning| + i].serial == l.returning[i].serial
  }

  ghost predicate LaneOrdered(s: State, id: nat)
    requires id in s.lanes
  {
    && Returns(s.lanes[id])
    && Increasing(LaneSerials(s.lanes[id]))
    && forall x | x in LaneSerials(s.lanes[id]) :: x in s.routed && s.routed[x] == id
  }

  /** A copy is the packet as it was read. */
  ghost predicate CopiesInv(s: State) {
    forall id | id in s.lanes :: CopiesIntact(s, s.lanes[id].written) && CopiesIntact(s, s.lanes[id].copies)
  }

  ghost predicate CopiesIntact(s: State, cs: seq<Copy>) {
    forall i | 0 <= i < |cs| :: cs[i].serial < |s.fromCore| && cs[i].packet == s.fromCore[cs[i].serial]
  }

  ghost predicate Inv(s: State) {
    OwnershipInv(s) && OrderInv(s) && CopiesInv(s)
  }

  // ----- Steps that leave a lane alone -----

  /** The buffer is still in use for the same packet, with the same contents. */
  ghost predicate Kept(s: State, s': State, x: Slice) {
    x.buf in s.busy && s.busy[x.buf] == x.serial && x.buf in s.memory ==>
      x.buf in s'.busy && s'.busy[x.buf] == x.serial && x.buf in s'.memory && s'.memory[x.buf] == s.memory[x.buf]
  }

  ghost predicate Extends(s: State, s': State) {
    && s.fromCore <= s'.fromCore
    && (forall n | n in s.routed :: n in s'.routed && s'.routed[n] == s.routed[n])
  }

  /** The lanes hold the same slices and carry the same packets in the same order. */
  ghost predicate SameLoad(l: Lane, l': Lane) {
    Held(l') == Held(l) && LaneSerials(l') == LaneSerials(l) && Returns(l')
  }

  /** A session that holds the same slices still owns them, if nobody else took or freed them. */
  lemma LaneFrame(s: State, s': State, id: nat)
    requires id in s.lanes && id in s'.lanes && LaneOwned(s, id) && LaneOrdered(s, id) && Extends(s, s')
    requires SameLoad(s.lanes[id], s'.lanes[id])
    requires forall i | 0 <= i < |Held(s.lanes[id])| :: Kept(s, s', Held(s.lanes[id])[i])
    ensures LaneOwned(s', id) && LaneOrdered(s', id)
  {
    forall i | 0 <= i < |Held(s'.lanes[id])|
      ensures Owned(s', Held(s'.lanes[id])[i]) && Held(s'.lanes[id])[i].serial in s'.routed
              && s'.routed[Held(s'.lanes[id])[i].serial] == id
    {
      var x := Held(s.lanes[id])[i];
      assert Owned(s, x) && Kept(s, s', x);
    }
  }

  lemma CopiesFrame(s: State, s': State, cs: seq<Copy>)
    requires CopiesIntact(s, cs) && s.fromCore <= s'.fromCore
    ensures CopiesIntact(s', cs)
  {
  }

  /** Steps that change neither buffers nor what anyone holds. */
  lemma NothingMoves(s: State, s': State)
    requires Inv(s) && Waiting(s') == Waiting(s)
    requires s'.memory == s.memory && s'.busy == s.busy && s'.fromCore == s.fromCore && s'.routed == s.routed
             && s'.pool <= s.pool
    requires forall id | id in s'.lanes ::
               id in s.lanes && (s'.lanes[id] == s.lanes[id] || SameLoad(s.lanes[id], s'.lanes[id]))
    requires CopiesInv(s')
    ensures Inv(s')
  {
    forall id | id in s'.lanes
      ensures LaneOwned(s', id) && LaneOrdered(s', id)
    {
      assert LaneOrdered(s, id);
      LaneFrame(s, s', id);
    }
    assert forall i | 0 <= i < |Waiting(s)| :: Owned(s, Waiting(s)[i]) ==> Owned(s', Waiting(s)[i]);
  }

  // ----- Reading from the core -----

  lemma ReadKeeps(s: State, buf: Buffer, packet: Packet)
    requires Inv(s)
    ensures Inv(AfterRead(s, buf, packet))
  {
    var s' := AfterRead(s, buf, packet);
    if CanRead(s, buf) {
      ReadWaiting(s, buf, packet);
      forall id | id in s'.lanes
        ensures LaneOwned(s', id) && LaneOrdered(s', id)
      {
        LaneFrame(s, s', id);
      }
      forall id | id in s'.lanes
        ensures CopiesIntact(s', s'.lanes[id].written) && CopiesIntact(s', s'.lanes[id].copies)
      {
        CopiesFrame(s, s', s.lanes[id].written);
        CopiesFrame(s, s', s.lanes[id].copies);
      }
    }
  }

  lemma ReadWaiting(s: State, buf: Buffer, packet: Packet)
    requires Inv(s) && CanRead(s, buf)
    ensures var s' := AfterRead(s, buf, packet);
            && (forall i | 0 <= i < |Waiting(s')| :: Owned(s', Waiting(s')[i]) && Waiting(s')[i].serial !in s'.routed)
            && InOrder(Waiting(s'))
            && forall n, i | n in s'.routed && 0 <= i < |Waiting(s')| :: n < Waiting(s')[i].serial
  {
    var s', x := AfterRead(s, buf, packet), Slice(buf, |s.fromCore|);
    assert Waiting(s') == Waiting(s) + [x];
    forall i | 0 <= i < |Waiting(s')|
      ensures Owned(s', Waiting(s')[i]) && Waiting(s')[i].serial !in s'.routed
      ensures i < |Waiting(s)| ==> Waiting(s')[i] == Waiting(s)[i] && Waiting(s)[i].serial < x.serial
    {
      assert i < |Waiting(s)| ==> Owned(s, Waiting(s)[i]);
    }
  }

  lemma FailedReadKeeps(s: State, buf: Buffer)
    requires Inv(s)
    ensures Inv(AfterFailedRead(s, buf))
  {
    var s' := AfterFailedRead(s, buf);
    if CanRead(s, buf) {
      assert buf !in s.busy;
      assert Waiting(s') == Waiting(s);
      forall i | 0 <= i < |Waiting(s')|
        ensures Owned(s', Waiting(s')[i]) && Waiting(s')[i].serial !in s'.routed
      {
        assert Owned(s, Waiting(s)[i]);
      }
      forall id | id in s'.lanes
        ensures LaneOwned(s', id) && LaneOrdered(s', id)
      {
        LaneFrame(s, s', id);
      }
      SameCopies(s, s');
    }
  }

  // ----- Giving buffers back -----

  /** A buffer that waits is held by nobody else. */
  lemma WaitingAlone(s: State, i: nat)
    requires Inv(s) && i < |Waiting(s)|
    ensures forall j | 0 <= j < |Waiting(s)| && j != i :: Waiting(s)[j].buf != Waiting(s)[i].buf
    ensures forall id, j | id in s.lanes && 0 <= j < |Held(s.lanes[id])| ::
            Held(s.lanes[id])[j].buf != Waiting(s)[i].buf
  {
    var x := Waiting(s)[i];
    assert Owned(s, x);
    forall j | 0 <= j < |Waiting(s)| && j != i
      ensures Waiting(s)[j].buf != x.buf
    {
      assert Owned(s, Waiting(s)[j]);
    }
    forall id, j | id in s.lanes && 0 <= j < |Held(s.lanes[id])|
      ensures Held(s.lanes[id])[j].buf != x.buf
    {
      assert LaneOwned(s, id);
      assert Owned(s, Held(s.lanes[id])[j]);
    }
  }

  /** The first or the last that waits is given up. */
  lemma ReleaseKeeps(s: State, s': State, i: nat)
    requires Inv(s) && i < |Waiting(s)| && Waiting(s') == Waiting(s)[..i] + Waiting(s)[i + 1..]
    requires s'.pool == s.pool + {Waiting(s)[i].buf} && s'.busy == s.busy - {Waiting(s)[i].buf}
    requires s'.memory == s.memory && s'.fromCore == s.fromCore && s'.routed == s.routed && s'.lanes == s.lanes
    ensures Inv(s')
  {
    WaitingAlone(s, i);
    var w, w' := Waiting(s), Waiting(s');
    forall j | 0 <= j < |w'|
      ensures Owned(s', w'[j]) && w'[j].serial !in s'.routed && w'[j] == w[if j < i then j else j + 1]
    {
      assert Owned(s, w[if j < i then j else j + 1]);
    }
    forall id | id in s'.lanes
      ensures LaneOwned(s', id) && LaneOrdered(s', id)
    {
      LaneFrame(s, s', id);
    }
  }

  // ----- Routing -----

  lemma PassKeeps(s: State, allowed: bool)
    requires Inv(s) && s.queue != [] && Passes(s, s.queue[0], allowed)
    ensures Inv(AfterRoute(s, allowed))
  {
    var s' := AfterRoute(s, allowed);
    PassWaiting(s, allowed);
    forall y | y in s'.lanes
      ensures LaneOwned(s', y) && LaneOrdered(s', y)
      ensures CopiesIntact(s', s'.lanes[y].written) && CopiesIntact(s', s'.lanes[y].copies)
    {
      PassLane(s, allowed, y);
    }
    assert Waiting(s)[0] == s.queue[0] && Owned(s, s.queue[0]);
    hide LaneOwned, LaneOrdered, CopiesIntact, Waiting;
  }

  lemma PassLane(s: State, allowed: bool, y: nat)
    requires Inv(s) && s.queue != [] && Passes(s, s.queue[0], allowed) && y in s.lanes
    ensures var s' := AfterRoute(s, allowed);
            && LaneOwned(s', y) && LaneOrdered(s', y)
            && CopiesIntact(s', s'.lanes[y].written) && CopiesIntact(s', s'.lanes[y].copies)
  {
    var s', x, id := AfterRoute(s, allowed), s.queue[0], s.current.value;
    CopiesOfLane(s, y);
    assert Waiting(s)[0] == x && Owned(s, x);
    if y == id {
      assert LaneOwned(s, id) && LaneOrdered(s, id);
      PassedLane(s, s', x, id);
    } else {
      LaneFrame(s, s', y);
    }
  }

  lemma PassWaiting(s: State, allowed: bool)
    requires Inv(s) && s.queue != [] && Passes(s, s.queue[0], allowed)
    ensures var s' := AfterRoute(s, allowed);
            && (forall i | 0 <= i < |Waiting(s')| :: Owned(s', Waiting(s')[i]) && Waiting(s')[i].serial !in s'.routed)
            && InOrder(Waiting(s'))
            && forall n, i | n in s'.routed && 0 <= i < |Waiting(s')| :: n < Waiting(s')[i].serial
  {
    var s', x := AfterRoute(s, allowed), s.queue[0];
    assert Waiting(s) == [x] + Waiting(s');
    forall i | 0 <= i < |Waiting(s')|
      ensures Owned(s', Waiting(s')[i]) && Waiting(s')[i] == Waiting(s)[i + 1] && Waiting(s')[i].serial > x.serial
    {
      assert Owned(s, Waiting(s)[i + 1]);
      assert Waiting(s)[0] == x;
    }
  }

  lemma PassedLane(s: State, s': State, x: Slice, id: nat)
    requires id in s.lanes && LaneOwned(s, id) && LaneOrdered(s, id) && Owned(s, x) && x.serial !in s.routed
    requires forall n | n in s.routed :: n < x.serial
    requires s' == s.(queue := s'.queue, lanes := s.lanes[id := s.lanes[id].(chan := s.lanes[id].chan + [x])],
                      routed := s.routed[x.serial := id])
    ensures LaneOwned(s', id) && LaneOrdered(s', id)
  {
    var l, l' := s.lanes[id], s'.lanes[id];
    assert Held(l') == Held(l) + [x];
    assert LaneSerials(l') == LaneSerials(l) + [x.serial];
    assert forall i | 0 <= i < |Held(l)| :: Owned(s, Held(l)[i]);
    assert forall i | 0 <= i < |LaneSerials(l)| :: LaneSerials(l)[i] in LaneSerials(l);
  }

  // ----- Writing -----

  /** One session's slices and copies move on within its lane. */
  lemma LaneMovesOn(s: State, id: nat, l': Lane)
    requires Inv(s) && id in s.lanes && SameLoad(s.lanes[id], l')
    requires CopiesIntact(s, l'.written) && CopiesIntact(s, l'.copies)
    ensures Inv(s.(lanes := s.lanes[id := l']))
  {
    NothingMoves(s, s.(lanes := s.lanes[id := l']));
  }

  lemma LaneSerialsSame(l: Lane, l': Lane)
    requires CopySerials(l'.written) + CopySerials(l'.copies) == CopySerials(l.written) + CopySerials(l.copies)
    requires SliceSerials(l'.batch) + SliceSerials(l'.chan) == SliceSerials(l.batch) + SliceSerials(l.chan)
    ensures LaneSerials(l') == LaneSerials(l)
  {
    assert LaneSerials(l') == (CopySerials(l'.written) + CopySerials(l'.copies))
           + (SliceSerials(l'.batch) + SliceSerials(l'.chan));
    assert LaneSerials(l) == (CopySerials(l.written) + CopySerials(l.copies))
           + (SliceSerials(l.batch) + SliceSerials(l.chan));
  }

  lemma CopiesOfLane(s: State, id: nat)
    requires Inv(s) && id in s.lanes
    ensures CopiesIntact(s, s.lanes[id].written) && CopiesIntact(s, s.lanes[id].copies)
  {
  }

  lemma ReturnsOfLane(s: State, id: nat)
    requires Inv(s) && id in s.lanes
    ensures Returns(s.lanes[id])
  {
    assert LaneOrdered(s, id);
  }

  lemma TakeKeeps(s: State, id: nat)
    requires Inv(s)
    ensures Inv(AfterTake(s, id))
  {
    hide Inv, CopiesIntact;
    if AfterTake(s, id) != s {
      CopiesOfLane(s, id);
      ReturnsOfLane(s, id);
      TakeKeepsLoad(s.lanes[id]);
      hide SameLoad;
      LaneMovesOn(s, id, AfterTake(s, id).lanes[id]);
    }
  }

  lemma TakeKeepsLoad(l: Lane)
    requires Returns(l) && l.chan != []
    ensures SameLoad(l, l.(chan := l.chan[1..], batch := l.batch + [l.chan[0]]))
  {
    var l' := l.(chan := l.chan[1..], batch := l.batch + [l.chan[0]]);
    assert Held(l') == Held(l);
    assert SliceSerials(l'.batch) + SliceSerials(l'.chan) == SliceSerials(l.batch) + SliceSerials(l.chan);
    LaneSerialsSame(l, l');
  }

  lemma WriteKeeps(s: State, id: nat, n: nat)
    requires Inv(s)
    ensures Inv(AfterWrite(s, id, n))
  {
    hide Inv;
    if AfterWrite(s, id, n) != s {
      CopiesOfLane(s, id);
      WriteKeepsLoad(s.lanes[id], if n < |s.lanes[id].copies| then n else |s.lanes[id].copies|);
      hide SameLoad;
      LaneMovesOn(s, id, AfterWrite(s, id, n).lanes[id]);
    }
  }

  lemma WriteKeepsLoad(l: Lane, k: nat)
    requires l.returning == [] && k <= |l.copies|
    ensures SameLoad(l, l.(copies := l.copies[k..], written := l.written + l.copies[..k]))
  {
    var l' := l.(copies := l.copies[k..], written := l.written + l.copies[..k]);
    assert l.copies == l.copies[..k] + l'.copies;
    assert CopySerials(l'.written) + CopySerials(l'.copies) == CopySerials(l.written) + CopySerials(l.copies);
    LaneSerialsSame(l, l');
  }

  lemma CopyKeeps(s: State, id: nat)
    requires Inv(s)
    ensures Inv(AfterCopy(s, id))
  {
    if id in s.lanes && s.lanes[id].batch != [] {
      var l, l' := s.lanes[id], AfterCopy(s, id).lanes[id];
      CopiesOfLane(s, id);
      ReturnsOfLane(s, id);
      NextOfBatch(s, id);
      CopyKeepsLoad(l, CopyOf(s.memory, l.batch[0]));
      hide Inv, SameLoad, Returns;
      LaneMovesOn(s, id, l');
    }
  }

  lemma CopyKeepsLoad(l: Lane, c: Copy)
    requires Returns(l) && l.batch != [] && c.serial == l.batch[0].serial
    ensures SameLoad(l, l.(batch := l.batch[1..], returning := l.returning + [l.batch[0]], copies := l.copies + [c]))
  {
    var l' := l.(batch := l.batch[1..], returning := l.returning + [l.batch[0]], copies := l.copies + [c]);
    assert Held(l') == Held(l);
    assert SliceSerials(l.batch) == [c.serial] + SliceSerials(l'.batch);
    assert CopySerials(l'.copies) == CopySerials(l.copies) + [c.serial];
    assert LaneSerials(l') == LaneSerials(l);
  }

  lemma NextOfBatch(s: State, id: nat)
    requires Inv(s) && id in s.lanes && s.lanes[id].batch != []
    ensures var c := CopyOf(s.memory, s.lanes[id].batch[0]);
            c.serial < |s.fromCore| && c.packet == s.fromCore[c.serial]
  {
    var l := s.lanes[id];
    assert LaneOwned(s, id);
    assert Held(l)[|l.returning|] == l.batch[0];
  }

  /** The buffer to be given back next is held by nobody else. */
  lemma ReturningAlone(s: State, id: nat)
    requires Inv(s) && id in s.lanes && s.lanes[id].returning != []
    ensures forall i | 0 <= i < |Waiting(s)| :: Waiting(s)[i].buf != s.lanes[id].returning[0].buf
    ensures forall y, i | y in s.lanes && 0 <= i < |Held(s.lanes[y])| && (y == id ==> i > 0) ::
              Held(s.lanes[y])[i].buf != s.lanes[id].returning[0].buf
  {
    var l, x := s.lanes[id], s.lanes[id].returning[0];
    assert LaneOwned(s, id) && LaneOrdered(s, id);
    assert Held(l)[0] == x && Owned(s, x);
    forall i | 0 <= i < |Waiting(s)|
      ensures Waiting(s)[i].buf != x.buf
    {
      assert Owned(s, Waiting(s)[i]);
    }
    forall y, i | y in s.lanes && 0 <= i < |Held(s.lanes[y])| && (y == id ==> i > 0)
      ensures Held(s.lanes[y])[i].buf != x.buf
    {
      assert LaneOwned(s, y);
      assert Owned(s, Held(s.lanes[y])[i]);
      if y == id {
        HeldSerial(l, 0);
        HeldSerial(l, i);
      }
    }
  }

  /** What is held is in the lane's order, from the first copy whose buffer is still to be given back. */
  lemma HeldSerial(l: Lane, i: nat)
    requires Returns(l) && i < |Held(l)|
    ensures var n := |l.written| + |l.copies| - |l.returning|;
            n + i < |LaneSerials(l)| && LaneSerials(l)[n + i] == Held(l)[i].serial
  {
  }

  lemma GiveBackKeeps(s: State, id: nat)
    requires Inv(s)
    ensures Inv(AfterGiveBack(s, id))
  {
    var s' := AfterGiveBack(s, id);
    if GivesBack(s, id) {
      GiveBackWaiting(s, id);
      hide LaneOwned, LaneOrdered, CopiesIntact, Held, LaneSerials, Waiting, Owned, InOrder;
      forall y | y in s'.lanes
        ensures LaneOwned(s', y) && LaneOrdered(s', y)
        ensures CopiesIntact(s', s'.lanes[y].written) && CopiesIntact(s', s'.lanes[y].copies)
      {
        GiveBackLane(s, id, y);
      }
    }
  }

  lemma GiveBackWaiting(s: State, id: nat)
    requires Inv(s) && GivesBack(s, id)
    ensures var s' := AfterGiveBack(s, id);
            && (forall i | 0 <= i < |Waiting(s')| :: Owned(s', Waiting(s')[i]) && Waiting(s')[i].serial !in s'.routed)
            && InOrder(Waiting(s'))
            && forall n, i | n in s'.routed && 0 <= i < |Waiting(s')| :: n < Waiting(s')[i].serial
  {
    ReturningAlone(s, id);
    forall i | 0 <= i < |Waiting(s)|
      ensures Owned(AfterGiveBack(s, id), Waiting(s)[i])
    {
      assert Owned(s, Waiting(s)[i]);
    }
  }

  lemma GiveBackLane(s: State, id: nat, y: nat)
    requires Inv(s) && GivesBack(s, id) && y in s.lanes
    ensures var s' := AfterGiveBack(s, id);
            && LaneOwned(s', y) && LaneOrdered(s', y)
            && CopiesIntact(s', s'.lanes[y].written) && CopiesIntact(s', s'.lanes[y].copies)
  {
    CopiesOfLane(s, y);
    ReturningAlone(s, id);
    if y == id {
      GivenBackLane(s, id);
    } else {
      LaneFrame(s, AfterGiveBack(s, id), y);
    }
  }

  lemma GivenBackLane(s: State, id: nat)
    requires Inv(s) && GivesBack(s, id)
    ensures LaneOwned(AfterGiveBack(s, id), id) && LaneOrdered(AfterGiveBack(s, id), id)
  {
    var s' := AfterGiveBack(s, id);
    var l, l' := s.lanes[id], s'.lanes[id];
    assert LaneOwned(s, id) && LaneOrdered(s, id);
    ReturningAlone(s, id);
    assert Held(l') == Held(l)[1..];
    assert LaneSerials(l') == LaneSerials(l);
    forall i | 0 <= i < |Held(l')|
      ensures Owned(s', Held(l')[i]) && Held(l')[i].serial in s'.routed && s'.routed[Held(l')[i].serial] == id
    {
      assert Held(l')[i] == Held(l)[i + 1];
    }
  }

  // ----- All steps -----

  lemma NextKeeps(s: State, e: Step)
    requires Inv(s)
    ensures Inv(Next(s, e))
  {
    match e
    case ReadCore(buf, packet) => ReadKeeps(s, buf, packet);
    case ReadFails(buf) => FailedReadKeeps(s, buf);
    case Enqueue => EnqueueKeeps(s);
    case DropRead => if s.reader.Some? { DropKeeps(s); }
    case Route(allowed) => RouteKeeps(s, allowed);
    case Take(id) => TakeKeeps(s, id);
    case CopyOut(id) => CopyKeeps(s, id);
    case GiveBack(id) => GiveBackKeeps(s, id);
    case WriteDevice(id, n) => WriteKeeps(s, id, n);
    case Attach(id, mtu, batchSize) => AttachKeeps(s, id, mtu, batchSize);
    case _ => SettingsKeep(s, e);
  }

  lemma EnqueueKeeps(s: State)
    requires Inv(s)
    ensures Inv(Next(s, Enqueue))
  {
    EnqueuedStillWaits(s);
    hide Inv, CopiesInv, CopiesIntact, LaneSerials, Held, Waiting;
    if s.reader.Some? && |s.queue| < QUEUE_SIZE {
      var s' := s.(reader := None, queue := s.queue + [s.reader.value]);
      assert Next(s, Enqueue) == s';
      hide Next;
      SameCopies(s, s');
      NothingMoves(s, s');
    }
  }

  lemma EnqueuedStillWaits(s: State)
    ensures Waiting(Next(s, Enqueue)) == Waiting(s)
  {
    assert s.reader.Some? ==> s.queue + [s.reader.value] + [] == s.queue + [s.reader.value];
  }

  lemma DropKeeps(s: State)
    requires Inv(s) && s.reader.Some?
    ensures Inv(Next(s, DropRead))
  {
    var s' := Next(s, DropRead);
    var n := |s.queue|;
    assert Waiting(s)[n] == s.reader.value;
    assert Waiting(s') == Waiting(s)[..n] + Waiting(s)[n + 1..];
    ReleaseKeeps(s, s', n);
  }

  lemma RouteKeeps(s: State, allowed: bool)
    requires Inv(s)
    ensures Inv(AfterRoute(s, allowed))
  {
    if s.queue != [] {
      if Passes(s, s.queue[0], allowed) {
        PassKeeps(s, allowed);
      } else {
        var s' := AfterRoute(s, allowed);
        assert Waiting(s)[0] == s.queue[0];
        assert Waiting(s') == Waiting(s)[..0] + Waiting(s)[1..];
        ReleaseKeeps(s, s', 0);
      }
    }
  }

  lemma AttachKeeps(s: State, id: nat, mtu: nat, batchSize: nat)
    requires Inv(s)
    ensures Inv(Next(s, Attach(id, mtu, batchSize)))
  {
    hide LaneOwned, LaneOrdered, CopiesIntact, Owned, Waiting, InOrder;
    var s' := Next(s, Attach(id, mtu, batchSize));
    if id !in s.lanes {
      SameWaiting(s, s');
      forall y | y in s'.lanes
        ensures LaneOwned(s', y) && LaneOrdered(s', y)
        ensures CopiesIntact(s', s'.lanes[y].written) && CopiesIntact(s', s'.lanes[y].copies)
      {
        AttachLane(s, id, mtu, batchSize, y);
      }
    }
  }

  lemma AttachLane(s: State, id: nat, mtu: nat, batchSize: nat, y: nat)
    requires Inv(s) && id !in s.lanes && y in Next(s, Attach(id, mtu, batchSize)).lanes
    ensures var s' := Next(s, Attach(id, mtu, batchSize));
            && LaneOwned(s', y) && LaneOrdered(s', y)
            && CopiesIntact(s', s'.lanes[y].written) && CopiesIntact(s', s'.lanes[y].copies)
  {
    var s' := Next(s, Attach(id, mtu, batchSize));
    if y == id {
      assert LaneSerials(s'.lanes[id]) == [] && Held(s'.lanes[id]) == [];
    } else {
      CopiesOfLane(s, y);
      LaneFrame(s, s', y);
    }
  }

  lemma SameWaiting(s: State, s': State)
    requires Inv(s) && s'.queue == s.queue && s'.reader == s.reader && s'.memory == s.memory
    requires s'.busy == s.busy && s'.fromCore == s.fromCore && s'.routed == s.routed
    ensures forall i | 0 <= i < |Waiting(s')| :: Owned(s', Waiting(s')[i]) && Waiting(s')[i].serial !in s'.routed
    ensures InOrder(Waiting(s')) && forall n, i | n in s'.routed && 0 <= i < |Waiting(s')| :: n < Waiting(s')[i].serial
  {
    assert Waiting(s') == Waiting(s);
    assert forall i | 0 <= i < |Waiting(s)| :: Owned(s, Waiting(s)[i]) ==> Owned(s', Waiting(s)[i]);
  }

  lemma SettingsKeep(s: State, e: Step)
    requires Inv(s) && (e == Detach || e.SetEnabled? || e.SetMTU? || e.PoolDrops?)
    ensures Inv(Next(s, e))
  {
    hide Inv, CopiesInv, CopiesIntact, LaneSerials, Held;
    if e.SetMTU? {
      if s.current.Some? && s.current.value in s.lanes {
        var id := s.current.value;
        var l' := s.lanes[id].(mtu := e.newMTU);
        CopiesOfLane(s, id);
        ReturnsOfLane(s, id);
        SameLane(s.lanes[id], l');
        LaneMovesOn(s, id, l');
      }
    } else {
      var s' := Next(s, e);
      assert Waiting(s') == Waiting(s);
      SameCopies(s, s');
      NothingMoves(s, s');
    }
  }

  lemma SameLane(l: Lane, l': Lane)
    requires l' == l.(mtu := l'.mtu) && Returns(l)
    ensures SameLoad(l, l')
  {
  }

  lemma SameCopies(s: State, s': State)
    requires Inv(s) && s'.fromCore == s.fromCore
    requires forall id | id in s'.lanes ::
               id in s.lanes && s'.lanes[id].written == s.lanes[id].written && s'.lanes[id].copies == s.lanes[id].copies
    ensures CopiesInv(s')
  {
    forall y | y in s'.lanes
      ensures CopiesIntact(s', s'.lanes[y].written) && CopiesIntact(s', s'.lanes[y].copies)
    {
      CopiesOfLane(s, y);
    }
  }

  lemma {:induction false} RunKeeps(s: State, es: seq<Step>)
    requires Inv(s)
    ensures Inv(Run(s, es))
    decreases |es|
  {
    hide Inv, Next;
    if es != [] {
      NextKeeps(s, es[0]);
      RunKeeps(Next(s, es[0]), es[1..]);
    }
  }

  // ----- What a device gets -----

  lemma {:induction false} RunAppend(s: State, es: seq<Step>, e: Step)
    ensures Run(s, es + [e]) == Next(Run(s, es), e)
    decreases |es|
  {
    hide Next;
    if es == [] {
      assert [e][1..] == [];
      assert es + [e] == [e];
    } else {
      assert (es + [e])[1..] == es[1..] + [e];
      RunAppend(Next(s, es[0]), es[1..], e);
    }
  }

  /** In this state the step hands packet `n` to session `id`: it is the oldest that waits, the session is current and
      enabled, the firewall lets the packet in, and it fits the session's MTU. */
  ghost predicate RoutedBy(s: State, e: Step, n: nat, id: nat) {
    && e == Route(true) && s.current == Some(id) && s.enabled && s.queue != [] && s.queue[0].serial == n
    && id in s.lanes && n < |s.fromCore| && (s.lanes[id].mtu == 0 || |s.fromCore[n]| <= s.lanes[id].mtu)
  }

  /** Only this hands packets on, and they go to the end of what the session has. */
  lemma NextRoutes(s: State, e: Step, n: nat)
    requires Inv(s) && n in Next(s, e).routed && n !in s.routed
    ensures var s', id := Next(s, e), Next(s, e).routed[n];
            && RoutedBy(s, e, n, id) && id in s'.lanes && n in LaneSerials(s'.lanes[id])
  {
    assert e.Route? && s.queue != [];
    var x, l' := s.queue[0], Next(s, e).lanes[s.current.value];
    assert Waiting(s)[0] == x && Owned(s, x);
    hide Inv;
    assert SliceSerials(l'.chan)[|l'.chan| - 1] == x.serial;
    assert LaneSerials(l')[|LaneSerials(l')| - 1] == x.serial;
  }

  /** Each step leaves a session what has been routed to it. */
  lemma NextKeepsSerials(s: State, e: Step, id: nat)
    requires Inv(s) && id in s.lanes
    ensures id in Next(s, e).lanes && LaneSerials(s.lanes[id]) <= LaneSerials(Next(s, e).lanes[id])
  {
    ReturnsOfLane(s, id);
    hide Inv, LaneSerials, Held, Returns, Next;
    match e
    case Route(allowed) => RouteKeepsSerials(s, allowed, id);
    case SetMTU(m) => MTUKeepsSerials(s, m, id);
    case Take(x) => TakeKeepsSerials(s, x, id);
    case CopyOut(x) => CopyKeepsSerials(s, x, id);
    case GiveBack(x) => GiveBackKeepsSerials(s, x, id);
    case WriteDevice(x, n) => WriteKeepsSerials(s, x, n, id);
    case _ => OthersKeepLanes(s, e, id);
  }

  lemma OthersKeepLanes(s: State, e: Step, id: nat)
    requires id in s.lanes && !(e.Route? || e.SetMTU? || e.Take? || e.CopyOut? || e.GiveBack? || e.WriteDevice?)
    ensures id in Next(s, e).lanes && Next(s, e).lanes[id] == s.lanes[id]
  {
  }

  lemma MTUKeepsSerials(s: State, mtu: nat, id: nat)
    requires id in s.lanes
    ensures id in Next(s, SetMTU(mtu)).lanes && LaneSerials(Next(s, SetMTU(mtu)).lanes[id]) == LaneSerials(s.lanes[id])
  {
    assert LaneSerials(s.lanes[id].(mtu := mtu)) == LaneSerials(s.lanes[id]);
    hide LaneSerials;
  }

  lemma RouteKeepsSerials(s: State, allowed: bool, id: nat)
    requires id in s.lanes
    ensures id in Next(s, Route(allowed)).lanes
    ensures LaneSerials(s.lanes[id]) <= LaneSerials(Next(s, Route(allowed)).lanes[id])
  {
    if s.queue != [] {
      MoreInChannel(s.lanes[id], s.queue[0]);
    }
    hide LaneSerials;
  }

  lemma TakeKeepsSerials(s: State, x: nat, id: nat)
    requires id in s.lanes && Returns(s.lanes[id])
    ensures id in Next(s, Take(x)).lanes && LaneSerials(Next(s, Take(x)).lanes[id]) == LaneSerials(s.lanes[id])
  {
    if s.lanes[id].chan != [] {
      TakeKeepsLoad(s.lanes[id]);
    }
    hide LaneSerials;
  }

  lemma CopyKeepsSerials(s: State, x: nat, id: nat)
    requires id in s.lanes && Returns(s.lanes[id])
    ensures id in Next(s, CopyOut(x)).lanes && LaneSerials(Next(s, CopyOut(x)).lanes[id]) == LaneSerials(s.lanes[id])
  {
    if s.lanes[id].batch != [] {
      CopyKeepsLoad(s.lanes[id], CopyOf(s.memory, s.lanes[id].batch[0]));
    }
    hide LaneSerials;
  }

  lemma GiveBackKeepsSerials(s: State, x: nat, id: nat)
    requires id in s.lanes
    ensures id in Next(s, GiveBack(x)).lanes && LaneSerials(Next(s, GiveBack(x)).lanes[id]) == LaneSerials(s.lanes[id])
  {
  }

  lemma WriteKeepsSerials(s: State, x: nat, n: nat, id: nat)
    requires id in s.lanes
    ensures id in Next(s, WriteDevice(x, n)).lanes
    ensures LaneSerials(Next(s, WriteDevice(x, n)).lanes[id]) == LaneSerials(s.lanes[id])
  {
    var l := s.lanes[id];
    if l.returning == [] {
      WriteKeepsLoad(l, if n < |l.copies| then n else |l.copies|);
    }
    hide LaneSerials;
  }

  lemma MoreInChannel(l: Lane, x: Slice)
    ensures LaneSerials(l.(chan := l.chan + [x])) == LaneSerials(l) + [x.serial]
  {
    assert SliceSerials(l.chan + [x]) == SliceSerials(l.chan) + [x.serial];
  }

  /** In every interleaving: whatever is routed to a session was handed to it at some moment while it was current and
      enabled, past the firewall and within its MTU, and it is neither lost nor handed on again: it is written, or
      about to be, or still in the session's batch or channel. */
  lemma RoutedWhileCurrent(es: seq<Step>, n: nat)
    requires n in Run(Init(), es).routed
    ensures var s, id := Run(Init(), es), Run(Init(), es).routed[n];
            && id in s.lanes && n in LaneSerials(s.lanes[id])
            && exists k | 0 <= k < |es| :: RoutedBy(Run(Init(), es[..k]), es[k], n, id)
  {
    hide Inv, Run, LaneSerials, RoutedBy;
    StartInv();
    RoutedFrom(Init(), es, n);
  }

  lemma StartInv()
    ensures Inv(Init()) && Init().routed == map[]
  {
  }

  lemma {:induction false} RoutedFrom(s0: State, es: seq<Step>, n: nat)
    requires Inv(s0) && s0.routed == map[] && n in Run(s0, es).routed
    ensures var s, id := Run(s0, es), Run(s0, es).routed[n];
            && id in s.lanes && n in LaneSerials(s.lanes[id])
            && exists k | 0 <= k < |es| :: RoutedBy(Run(s0, es[..k]), es[k], n, id)
    decreases |es|
  {
    hide Inv, Next, LaneSerials, RoutedBy;
    assert es != [];
    var i, s := |es| - 1, Run(s0, es[..|es| - 1]);
    assert es == es[..i] + [es[i]];
    RunKeeps(s0, es[..i]);
    RunAppend(s0, es[..i], es[i]);
    hide Run;
    if n in s.routed {
      RoutedFrom(s0, es[..i], n);
      NextKeepsRoute(s, es[i], n);
      NextKeepsSerials(s, es[i], s.routed[n]);
      var k :| 0 <= k < i && RoutedBy(Run(s0, es[..i][..k]), es[..i][k], n, s.routed[n]);
      assert es[..i][..k] == es[..k];
    } else {
      NextRoutes(s, es[i], n);
    }
  }

  lemma NextKeepsRoute(s: State, e: Step, n: nat)
    requires Inv(s) && n in s.routed
    ensures n in Next(s, e).routed && Next(s, e).routed[n] == s.routed[n]
  {
    assert s.queue != [] ==> Waiting(s)[0] == s.queue[0];
  }

  /** In every interleaving, and however little a device takes at a time: what a device has been given are packets
      read from the core, byte for byte, that were routed to its session while it was current, in the order
      they were read, none twice, and none left out: all that was routed to the session before has been given too. */
  lemma DeviceGetsWhatWasRead(es: seq<Step>, id: nat, i: nat)
    requires id in Run(Init(), es).lanes && i < |Run(Init(), es).lanes[id].written|
    ensures var s := Run(Init(), es);
            var w := s.lanes[id].written;
            && w[i].serial < |s.fromCore| && w[i].packet == s.fromCore[w[i].serial]
            && w[i].serial in s.routed && s.routed[w[i].serial] == id
            && (exists k | 0 <= k < |es| :: RoutedBy(Run(Init(), es[..k]), es[k], w[i].serial, id))
            && (forall j | i < j < |w| :: w[i].serial < w[j].serial)
            && forall n | n in s.routed && s.routed[n] == id && n < w[i].serial ::
                 exists j | 0 <= j < i :: w[j].serial == n
  {
    var s, l := Run(Init(), es), Run(Init(), es).lanes[id];
    RunKeeps(Init(), es);
    WrittenOfLane(s, id, i);
    hide Inv, Run, RoutedBy, LaneSerials, Increasing;
    RoutedWhileCurrent(es, l.written[i].serial);
    forall n | n in s.routed && s.routed[n] == id && n < l.written[i].serial
      ensures exists j | 0 <= j < i :: l.written[j].serial == n
    {
      RoutedWhileCurrent(es, n);
      NothingLeftOut(l, i, n);
    }
  }

  lemma WrittenOfLane(s: State, id: nat, i: nat)
    requires Inv(s) && id in s.lanes && i < |s.lanes[id].written|
    ensures var w := s.lanes[id].written;
            && w[i].serial < |s.fromCore| && w[i].packet == s.fromCore[w[i].serial]
            && w[i].serial in s.routed && s.routed[w[i].serial] == id
            && (forall j | i < j < |w| :: w[i].serial < w[j].serial)
            && Increasing(LaneSerials(s.lanes[id]))
  {
    CopiesOfLane(s, id);
    assert LaneOrdered(s, id);
    hide Inv;
    WrittenSerials(s.lanes[id]);
    assert LaneSerials(s.lanes[id])[i] in LaneSerials(s.lanes[id]);
  }

  lemma NothingLeftOut(l: Lane, i: nat, n: nat)
    requires Increasing(LaneSerials(l)) && i < |l.written| && n < l.written[i].serial && n in LaneSerials(l)
    ensures exists j | 0 <= j < i :: l.written[j].serial == n
  {
    WrittenSerials(l);
    var j :| 0 <= j < |LaneSerials(l)| && LaneSerials(l)[j] == n;
    hide LaneSerials;
    assert j < i;
    assert l.written[j].serial == n;
  }

  lemma WrittenSerials(l: Lane)
    ensures |l.written| <= |LaneSerials(l)| && forall j | 0 <= j < |l.written| ::
            LaneSerials(l)[j] == l.written[j].serial
  {
  }

  /** Where a packet can be held on its way. */
  datatype Spot = AtReader | InQueue(i: nat) | InChannel(id: nat, i: nat) | InBatch(id: nat, i: nat)
      | InReturning(id: nat, i: nat)

  ghost predicate Holds(s: State, p: Spot, x: Slice) {
    match p
    case AtReader => s.reader == Some(x)
    case InQueue(i) => i < |s.queue| && s.queue[i] == x
    case InChannel(id, i) => id in s.lanes && i < |s.lanes[id].chan| && s.lanes[id].chan[i] == x
    case InBatch(id, i) => id in s.lanes && i < |s.lanes[id].batch| && s.lanes[id].batch[i] == x
    case InReturning(id, i) => id in s.lanes && i < |s.lanes[id].returning| && s.lanes[id].returning[i] == x
  }

  /** The place of a spot among those waiting, or among those held in its lane. */
  ghost function Rank(s: State, p: Spot): nat
    requires !(p.AtReader? || p.InQueue?) ==> p.id in s.lanes
  {
    match p
    case AtReader => |s.queue|
    case InQueue(i) => i
    case InChannel(id, i) => |s.lanes[id].returning| + |s.lanes[id].batch| + i
    case InBatch(id, i) => |s.lanes[id].returning| + i
    case InReturning(id, i) => i
  }

  lemma WaitingHeld(s: State, p: Spot, x: Slice)
    requires Inv(s) && Holds(s, p, x) && (p.AtReader? || p.InQueue?)
    ensures Rank(s, p) < |Waiting(s)| && Waiting(s)[Rank(s, p)] == x && Owned(s, x) && x.serial !in s.routed
  {
  }

  lemma LaneHeld(s: State, p: Spot, x: Slice)
    requires Inv(s) && Holds(s, p, x) && !(p.AtReader? || p.InQueue?)
    ensures Owned(s, x) && x.serial in s.routed && s.routed[x.serial] == p.id
    ensures Increasing(LaneSerials(s.lanes[p.id])) && Returns(s.lanes[p.id])
    ensures Rank(s, p) < |Held(s.lanes[p.id])| && Held(s.lanes[p.id])[Rank(s, p)] == x
  {
    assert LaneOwned(s, p.id) && LaneOrdered(s, p.id);
    var l := s.lanes[p.id];
    assert p.InChannel? ==> Held(l)[|l.returning| + |l.batch| + p.i] == x;
    assert p.InBatch? ==> Held(l)[|l.returning| + p.i] == x;
    assert p.InReturning? ==> Held(l)[p.i] == x;
  }

  lemma OneHolder(s: State, p: Spot, x: Slice, q: Spot, y: Slice)
    requires Inv(s) && Holds(s, p, x) && Holds(s, q, y) && x.buf == y.buf
    ensures p == q
  {
    if p.AtReader? || p.InQueue? { WaitingHeld(s, p, x); } else { LaneHeld(s, p, x); }
    if q.AtReader? || q.InQueue? { WaitingHeld(s, q, y); } else { LaneHeld(s, q, y); }
    hide Inv, Waiting;
    assert x.serial == y.serial;
    if !(p.AtReader? || p.InQueue?) {
      HeldSerial(s.lanes[p.id], Rank(s, p));
      HeldSerial(s.lanes[p.id], Rank(s, q));
    }
    hide LaneSerials, Held, Returns;
    assert Rank(s, p) == Rank(s, q);
  }

  lemma HeldNotFree(s: State, p: Spot, x: Slice)
    requires Inv(s) && Holds(s, p, x)
    ensures x.buf !in s.pool && Owned(s, x)
  {
    if p.AtReader? || p.InQueue? { WaitingHeld(s, p, x); } else { LaneHeld(s, p, x); }
  }

  /** In every interleaving: a buffer that anyone holds is not free, holds what was read into it, and is held by
      nobody else. */
  lemma BuffersHaveOneHolder(es: seq<Step>)
    ensures var s := Run(Init(), es);
            && (forall p, x | Holds(s, p, x) :: x.buf !in s.pool && x.serial < |s.fromCore| && x.buf in s.memory
                                                && s.memory[x.buf] == s.fromCore[x.serial])
            && forall p, q, x, y | Holds(s, p, x) && Holds(s, q, y) && x.buf == y.buf :: p == q
  {
    RunKeeps(Init(), es);
    var s := Run(Init(), es);
    hide Inv, Run, Holds;
    forall p, x | Holds(s, p, x)
      ensures x.buf !in s.pool && Owned(s, x)
    {
      HeldNotFree(s, p, x);
    }
    forall p, q, x, y | Holds(s, p, x) && Holds(s, q, y) && x.buf == y.buf
      ensures p == q
    {
      OneHolder(s, p, x, q, y);
    }
  }

  /** The buffer that a step puts back into the pool, if any. */
  ghost function Puts(s: State, e: Step): Option<Buffer> {
    match e
    case ReadFails(buf) => if CanRead(s, buf) then Some(buf) else None
    case DropRead => if s.reader.Some? then Some(s.reader.value.buf) else None
    case Route(allowed) => if s.queue != [] && !Passes(s, s.queue[0], allowed) then Some(s.queue[0].buf) else None
    case GiveBack(id) => if GivesBack(s, id) then Some(s.lanes[id].returning[0].buf) else None
    case _ => None
  }

  /** What is in the pool before the step puts its buffer back. */
  ghost function PoolBeforePut(s: State, e: Step): set<Buffer> {
    match e
    case ReadCore(buf, _) => if CanRead(s, buf) then s.pool - {buf} else s.pool
    case ReadFails(buf) => if CanRead(s, buf) then s.pool - {buf} else s.pool
    case PoolDrops(buf) => s.pool - {buf}
    case _ => s.pool
  }

  /** In every interleaving, a buffer that is put back was not in the pool: none is ever put back twice. */
  lemma NoDoublePut(es: seq<Step>, e: Step)
    ensures var s, b := Run(Init(), es), Puts(Run(Init(), es), e);
            && Next(s, e).pool == PoolBeforePut(s, e) + (if b.Some? then {b.value} else {})
            && (b.Some? ==> b.value !in PoolBeforePut(s, e))
  {
    RunKeeps(Init(), es);
    hide Inv, Run, Puts, PoolBeforePut, Next;
    PutIsNew(Run(Init(), es), e);
  }

  lemma PutIsNew(s: State, e: Step)
    requires Inv(s)
    ensures var b := Puts(s, e);
            && Next(s, e).pool == PoolBeforePut(s, e) + (if b.Some? then {b.value} else {})
            && (b.Some? ==> b.value !in PoolBeforePut(s, e))
  {
    hide Inv, Passes;
    match e
    case DropRead => if s.reader.Some? { HeldNotFree(s, AtReader, s.reader.value); }
    case Route(_) => if s.queue != [] { HeldNotFree(s, InQueue(0), s.queue[0]); }
    case GiveBack(id) => if GivesBack(s, id) { HeldNotFree(s, InReturning(id, 0), s.lanes[id].returning[0]); }
    case _ =>
  }

  // ----- What else every step keeps -----

  /** Free buffers exist, the current session has a lane, and a lane has room for a batch. */
  ghost predicate ShapeInv(s: State) {
    && s.pool <= s.memory.Keys
    && (s.current.Some? ==> s.current.value in s.lanes)
    && forall id | id in s.lanes :: s.lanes[id].batchSize > 0
  }

  lemma NextKeepsShape(s: State, e: Step)
    requires Inv(s) && ShapeInv(s)
    ensures ShapeInv(Next(s, e))
  {
    hide Inv;
    match e
    case DropRead => if s.reader.Some? { HeldNotFree(s, AtReader, s.reader.value); }
    case Route(_) => if s.queue != [] { HeldNotFree(s, InQueue(0), s.queue[0]); }
    case GiveBack(id) => if GivesBack(s, id) { HeldNotFree(s, InReturning(id, 0), s.lanes[id].returning[0]); }
    case _ =>
  }

  lemma {:induction false} RunKeepsShape(s: State, es: seq<Step>)
    requires Inv(s) && ShapeInv(s)
    ensures ShapeInv(Run(s, es))
    decreases |es|
  {
    hide Inv, ShapeInv, Next;
    if es != [] {
      NextKeeps(s, es[0]);
      NextKeepsShape(s, es[0]);
      RunKeepsShape(Next(s, es[0]), es[1..]);
    }
  }

  lemma BatchInMemory(s: State, id: nat)
    requires Inv(s) && id in s.lanes
    ensures forall x | x in s.lanes[id].batch :: x.buf in s.memory
  {
    forall x | x in s.lanes[id].batch
      ensures x.buf in s.memory
    {
      var i :| 0 <= i < |s.lanes[id].batch| && s.lanes[id].batch[i] == x;
      HeldNotFree(s, InBatch(id, i), x);
    }
  }

  /** No channel ever holds more than it has room for, and no batch grows beyond its size. */
  ghost predicate WithinCapacity(s: State) {
    && |s.queue| <= QUEUE_SIZE
    && forall id | id in s.lanes ::
         && |s.lanes[id].chan| <= 4 * s.lanes[id].batchSize
         && |s.lanes[id].batch| + |s.lanes[id].returning| <= s.lanes[id].batchSize
  }

  lemma NextWithinCapacity(s: State, e: Step)
    requires WithinCapacity(s)
    ensures WithinCapacity(Next(s, e))
  {
  }

  lemma {:induction false} RunWithinCapacity(s: State, es: seq<Step>)
    requires WithinCapacity(s)
    ensures WithinCapacity(Run(s, es))
    decreases |es|
  {
    hide Next, WithinCapacity;
    if es != [] {
      NextWithinCapacity(s, es[0]);
      RunWithinCapacity(Next(s, es[0]), es[1..]);
    }
  }

  /** A packet may have been read before its session was attached: what counts is when it is routed. */
  lemma ReadBeforeAttach(packet: Packet)
    ensures var s := Run(Init(), [ReadCore(0, packet), Enqueue, Attach(1, 0, 1), Route(true)]);
            1 in s.lanes && s.lanes[1].chan == [Slice(0, 0)] && s.fromCore == [packet]
  {
    var es := [ReadCore(0, packet), Enqueue, Attach(1, 0, 1), Route(true)];
    var s1 := Next(Init(), es[0]);
    var s2 := Next(s1, es[1]);
    var s3 := Next(s2, es[2]);
    var s4 := Next(s3, es[3]);
    assert es[1..][1..] == es[2..] && es[2..][1..] == es[3..] && es[3..][1..] == [];
    assert s2.queue == [Slice(0, 0)] && s3.queue == [Slice(0, 0)];
    assert s4.lanes[1].chan == [Slice(0, 0)];
    hide Next;
    assert Run(s3, es[3..]) == Run(s4, []);
    assert Run(s2, es[2..]) == Run(s3, es[3..]);
    assert Run(s1, es[1..]) == Run(s2, es[2..]);
  }
}
