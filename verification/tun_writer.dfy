/** The loops at both ends of the pipeline: the router's hand-over, and a session's writer. */
module TunWriter {
  import opened Bits
  import opened TunPipeline
  import opened TunFates

  datatype WriteResult = Done | DeviceFailed | StillWriting

  /** The device has not failed. */
  predicate AllTaken(answers: seq<Option<nat>>) {
    forall a | a in answers :: a.Some?
  }

  /** The steps of a device that takes so many packets of what is left, time after time. */
  ghost function Writes(id: nat, answers: seq<Option<nat>>): seq<Step>
    requires AllTaken(answers)
  {
    seq(|answers|, i requires 0 <= i < |answers| => WriteDevice(id, answers[i].value))
  }

  /** How many of so many packets are left after a device has taken so many, time after time. */
  function LeftOver(count: nat, answers: seq<Option<nat>>): nat
    requires AllTaken(answers)
  {
    if answers == [] then count
    else
      var before, taken := LeftOver(count, answers[..|answers| - 1]), answers[|answers| - 1].value;
      if taken < before then before - taken else 0
  }

  /** The same step, time after time. */
  ghost function Repeat(e: Step, n: nat): seq<Step> {
    seq(n, _ => e)
  }

  /** A batch of `n` packets is copied, and then its buffers are given back. */
  ghost function CopySteps(id: nat, n: nat): seq<Step> {
    Repeat(CopyOut(id), n) + Repeat(GiveBack(id), n)
  }

  /** A copy behind `offset` free bytes: what a device that skips those bytes sees is the packet. */
  method OffsetCopy(packet: Packet, offset: nat) returns (seen: Packet)
    ensures seen == packet
  {
    var buf := new Byte[offset + |packet|](_ => 0);
    for k := 0 to |packet|
      invariant buf[offset..offset + k] == packet[..k]
    {
      buf[offset + k] := packet[k];
    }
    assert buf[offset..] == buf[offset..offset + |packet|] == packet[..|packet|] == packet;
    return buf[offset..];
  }

  lemma OnceMore(s: State, e: Step, n: nat)
    ensures Run(s, Repeat(e, n + 1)) == Next(Run(s, Repeat(e, n)), e)
  {
    assert Repeat(e, n + 1) == Repeat(e, n) + [e];
    RunAppend(s, Repeat(e, n), e);
  }

  lemma WriteOneMore(s: State, id: nat, answers: seq<Option<nat>>, n: nat)
    requires n < |answers| && AllTaken(answers[..n]) && answers[n].Some?
    ensures AllTaken(answers[..n + 1])
    ensures Run(s, Writes(id, answers[..n + 1])) ==
            Next(Run(s, Writes(id, answers[..n])), WriteDevice(id, answers[n].value))
  {
    assert answers[..n + 1] == answers[..n] + [answers[n]];
    assert Writes(id, answers[..n + 1]) == Writes(id, answers[..n]) + [WriteDevice(id, answers[n].value)];
    RunAppend(s, Writes(id, answers[..n]), WriteDevice(id, answers[n].value));
  }

  lemma {:induction false} RunConcat(s: State, es: seq<Step>, fs: seq<Step>)
    ensures Run(s, es + fs) == Run(Run(s, es), fs)
    decreases |es|
  {
    hide Next;
    if es == [] {
      assert es + fs == fs;
    } else {
      assert (es + fs)[1..] == es[1..] + fs;
      RunConcat(Next(s, es[0]), es[1..], fs);
    }
  }

  lemma NextValid(s: State, e: Step)
    requires Inv(s) && ShapeInv(s)
    ensures Inv(Next(s, e)) && ShapeInv(Next(s, e))
  {
    NextKeeps(s, e);
    NextKeepsShape(s, e);
  }

  lemma RunValid(s: State, es: seq<Step>)
    requires Inv(s) && ShapeInv(s)
    ensures Inv(Run(s, es)) && ShapeInv(Run(s, es))
  {
    RunKeeps(s, es);
    RunKeepsShape(s, es);
  }

  lemma RouteReady(s: State)
    requires Inv(s) && ShapeInv(s) && s.queue != []
    ensures s.queue[0].buf in s.memory && (s.current.Some? ==> s.current.value in s.lanes)
  {
    HeldNotFree(s, InQueue(0), s.queue[0]);
  }

  class Pipeline {
    const mwo: nat  // bytes a device wants free in front of a packet
    var memory: map<Buffer, Packet>
    var pool: set<Buffer>
    var reader: Option<Slice>
    var queue: seq<Slice>
    var current: Option<nat>
    var enabled: bool
    var lanes: map<nat, Lane>

    ghost var fromCore: seq<Packet>
    ghost var busy: map<Buffer, nat>
    ghost var routed: map<nat, nat>

    ghost function Model(): State
      reads this
    {
      State(memory, pool, reader, queue, current, enabled, lanes, fromCore, busy, routed)
    }

    ghost predicate Valid()
      reads this
    {
      Inv(Model()) && ShapeInv(Model())
    }

    constructor (mwo: nat)
      ensures Valid() && Model() == Init() && this.mwo == mwo
    {
      this.mwo := mwo;
      memory, pool, reader, queue, current, enabled, lanes := map[], {}, None, [], None, false, map[];
      fromCore, busy, routed := [], map[], map[];
    }

    /** One round of the reading loop: a buffer of the pool, or a new one if the pool is empty, gets the core's next
        packet, the `serial`-th, which is queued, or waits in its buffer if there is no room. If the core fails, or the
        stop signal is taken instead of queueing, the buffer goes back and the loop ends. */
    method QueueOne(made: Buffer, read: Option<Packet>, serial: nat, stops: bool) returns (buf: Buffer, goesOn: bool)
      requires Valid() && reader == None && made !in memory && serial == |fromCore|
      modifies this
      ensures Valid() && (if old(pool) == {} then buf == made else buf in old(pool))
      ensures Model() == if read == None then Next(old(Model()), ReadFails(buf))
                         else Next(Next(old(Model()), ReadCore(buf, read.value)), if stops then DropRead else Enqueue)
      ensures goesOn <==> read.Some? && !stops
      ensures goesOn ==> fromCore == old(fromCore) + [read.value] && memory == old(memory)[buf := read.value]
      ensures goesOn ==> if old(|queue|) < 256 then queue == old(queue) + [Slice(buf, serial)] && reader == None
                         else queue == old(queue) && reader == Some(Slice(buf, serial))
      ensures goesOn ==> pool == old(pool) - {buf}
      ensures !goesOn ==> queue == old(queue) && reader == None && pool == old(pool) + {buf}
    {
      hide Inv, ShapeInv, Next;
      ghost var s := Model();
      buf := GetBuffer(made);
      if read == None {
        NextValid(s, ReadFails(buf));
        ReadFailed(s, buf);
        return buf, false;
      }
      NextValid(s, ReadCore(buf, read.value));
      NextValid(Next(s, ReadCore(buf, read.value)), if stops then DropRead else Enqueue);
      hide CanRead;
      FillAndOffer(s, buf, read.value, serial, stops);
      return buf, !stops;
    }

    method FillAndOffer(ghost s: State, buf: Buffer, packet: Packet, serial: nat, stops: bool)
      requires CanRead(s, buf) && Model() == s.(pool := s.pool - {buf}) && serial == |fromCore|
      modifies this
      ensures Model() == Next(Next(s, ReadCore(buf, packet)), if stops then DropRead else Enqueue)
      ensures fromCore == old(fromCore) + [packet] && memory == old(memory)[buf := packet]
      ensures if stops then queue == old(queue) && reader == None && pool == old(pool) + {buf}
              else if old(|queue|) < 256 then
                queue == old(queue) + [Slice(buf, serial)] && reader == None && pool == old(pool)
              else queue == old(queue) && reader == Some(Slice(buf, serial)) && pool == old(pool)
    {
      hide Next;
      Fill(s, buf, packet, serial);
      Offer(stops);
    }

    method ReadFailed(ghost s: State, buf: Buffer)
      requires CanRead(s, buf) && Model() == s.(pool := s.pool - {buf})
      modifies this`memory, this`pool
      ensures Model() == Next(s, ReadFails(buf)) && pool == old(pool) + {buf}
    {
      memory := memory[buf := []];
      pool := pool + {buf};
      assert pool == s.pool + {buf};
    }

    /** Queues the packet just read, if there is room; on the stop signal gives its buffer back instead. */
    method Offer(stops: bool)
      requires reader.Some?
      modifies this`reader, this`queue, this`pool, this`busy
      ensures Model() == Next(old(Model()), if stops then DropRead else Enqueue)
      ensures if stops then queue == old(queue) && reader == None && pool == old(pool) + {old(reader).value.buf}
              else if old(|queue|) < 256 then
                queue == old(queue) + [old(reader).value] && reader == None && pool == old(pool)
              else queue == old(queue) && reader == old(reader) && pool == old(pool)
    {
      if stops {
        PutBack(reader.value.buf);
        reader := None;
      } else if |queue| < QUEUE_SIZE {
        queue := queue + [reader.value];
        reader := None;
      }
    }

    method GetBuffer(made: Buffer) returns (buf: Buffer)
      modifies this`pool
      ensures if old(pool) == {} then buf == made else buf in old(pool)
      ensures pool == old(pool) - {buf}
    {
      buf := made;
      if pool != {} {
        buf :| buf in pool;
        pool := pool - {buf};
      }
    }

    method Fill(ghost s: State, buf: Buffer, packet: Packet, serial: nat)
      requires CanRead(s, buf) && Model() == s.(pool := s.pool - {buf}) && serial == |fromCore|
      modifies this`memory, this`reader, this`busy, this`fromCore
      ensures Model() == Next(s, ReadCore(buf, packet)) && reader == Some(Slice(buf, serial))
      ensures memory == old(memory)[buf := packet] && fromCore == old(fromCore) + [packet]
    {
      memory := memory[buf := packet];
      reader := Some(Slice(buf, serial));
      busy := busy[buf := serial];
      fromCore := fromCore + [packet];
    }

    method PutBack(buf: Buffer)
      modifies this`pool, this`busy
      ensures Model() == Release(old(Model()), buf)
    {
      pool := pool + {buf};
      busy := busy - {buf};
    }

    /** Hands the oldest packet to the current session, or drops it: nobody to take it, too big, refused by the
        firewall, or no room. */
    method RoutePacket(allowed: bool)
      requires Valid() && queue != []
      modifies this
      ensures Valid() && Model() == Next(old(Model()), Route(allowed)) && queue == old(queue)[1..]
      ensures if MayPass(old(Model()), allowed) then
                var id, l := old(current).value, old(lanes)[old(current).value];
                lanes == old(lanes)[id := l.(chan := l.chan + [old(queue)[0]])] && pool == old(pool)
              else
                lanes == old(lanes) && pool == old(pool) + {old(queue)[0].buf}
    {
      hide Inv, ShapeInv;
      NextValid(Model(), Route(allowed));
      RouteReady(Model());
      RouteExactly(Model(), allowed);
      hide MayPass;
      var packet := queue[0];
      queue := queue[1..];
      if current == None || !enabled {
        PutBack(packet.buf);
        return;
      }
      var id := current.value;
      var session := lanes[id];
      if session.mtu > 0 && |memory[packet.buf]| > session.mtu {
        PutBack(packet.buf);
        return;
      }
      if !allowed {
        PutBack(packet.buf);
        return;
      }
      if |session.chan| < 4 * session.batchSize {
        lanes := lanes[id := session.(chan := session.chan + [packet])];
        routed := routed[packet.serial := id];
      } else {
        PutBack(packet.buf);
      }
    }

    method TakeNext(id: nat)
      requires id in lanes && lanes[id].copies == [] && lanes[id].returning == []
      requires lanes[id].chan != [] && |lanes[id].batch| < lanes[id].batchSize
      modifies this`lanes
      ensures Model() == Next(old(Model()), Take(id))
      ensures id in lanes
      ensures lanes[id] == old(lanes[id]).(chan := old(lanes[id].chan)[1..],
              batch := old(lanes[id].batch + [lanes[id].chan[0]]))
    {
      var l := lanes[id];
      lanes := lanes[id := l.(chan := l.chan[1..], batch := l.batch + [l.chan[0]])];
    }

    /** Takes what is in the channel, up to a batch. */
    method Drain(id: nat) returns (n: nat)
      requires id in lanes && lanes[id].copies == [] && lanes[id].returning == [] && lanes[id].batch == []
      modifies this`lanes
      ensures Model() == Run(old(Model()), Repeat(Take(id), n))
      ensures n == if old(|lanes[id].chan|) < old(lanes[id].batchSize) then old(|lanes[id].chan|)
              else old(lanes[id].batchSize)
      ensures id in lanes
      ensures lanes[id] == old(lanes[id]).(chan := old(lanes[id].chan)[n..], batch := old(lanes[id].chan)[..n])
    {
      n := 0;
      assert Repeat(Take(id), 0) == [];
      assert Model() == Run(Model(), []);
      hide Run, Repeat, Next;
      while lanes[id].chan != [] && |lanes[id].batch| < lanes[id].batchSize
        invariant id in lanes && Model() == Run(old(Model()), Repeat(Take(id), n))
        invariant n <= old(|lanes[id].chan|) && n <= lanes[id].batchSize
        invariant lanes[id] == old(lanes[id]).(chan := old(lanes[id].chan)[n..], batch := old(lanes[id].chan)[..n])
        decreases |lanes[id].chan|
      {
        OnceMore(old(Model()), Take(id), n);
        TakeNext(id);
        n := n + 1;
      }
    }

    method CopyNext(id: nat)
      requires id in lanes && lanes[id].batch != [] && lanes[id].batch[0].buf in memory
      modifies this`lanes
      ensures Model() == Next(old(Model()), CopyOut(id))
      ensures id in lanes
      ensures lanes[id] == old(lanes[id]).(batch := old(lanes[id].batch)[1..],
                                           returning := old(lanes[id].returning + [lanes[id].batch[0]]),
                                           copies := old(lanes[id].copies + [CopyOf(memory, lanes[id].batch[0])]))
    {
      var l := lanes[id];
      var packet := OffsetCopy(memory[l.batch[0].buf], mwo);
      lanes := lanes[id := l.(batch := l.batch[1..], returning := l.returning + [l.batch[0]],
                              copies := l.copies + [Copy(packet, l.batch[0].serial)])];
    }

    method GiveBackNext(id: nat)
      requires id in lanes && lanes[id].batch == [] && lanes[id].returning != []
      modifies this`lanes, this`pool, this`busy
      ensures Model() == Next(old(Model()), GiveBack(id))
      ensures id in lanes && lanes[id] == old(lanes[id]).(returning := old(lanes[id].returning)[1..])
    {
      var l := lanes[id];
      PutBack(l.returning[0].buf);
      lanes := lanes[id := l.(returning := l.returning[1..])];
    }

    /** Copies the batch out, each packet behind the free space its device wants. */
    method CopyAll(id: nat)
      requires id in lanes && lanes[id].copies == [] && lanes[id].returning == []
      requires forall x | x in lanes[id].batch :: x.buf in memory
      modifies this`lanes
      ensures Model() == Run(old(Model()), Repeat(CopyOut(id), old(|lanes[id].batch|)))
      ensures id in lanes
      ensures lanes[id] == old(lanes[id]).(batch := [], returning := old(lanes[id].batch),
                                           copies := CopiesOf(memory, old(lanes[id].batch)))
    {
      ghost var batch := lanes[id].batch;
      ghost var n := 0;
      assert Repeat(CopyOut(id), 0) == [];
      assert Model() == Run(Model(), []);
      hide Run, Repeat, Next;
      while lanes[id].batch != []
        invariant n <= |batch| && id in lanes && Model() == Run(old(Model()), Repeat(CopyOut(id), n))
        invariant lanes[id] == old(lanes[id]).(batch := batch[n..], returning := batch[..n],
                  copies := CopiesOf(memory, batch[..n]))
        decreases |lanes[id].batch|
      {
        assert batch[n] in batch && batch[..n + 1] == batch[..n] + [batch[n]];
        OnceMore(old(Model()), CopyOut(id), n);
        CopyNext(id);
        n := n + 1;
      }
      assert batch[..n] == batch;
    }

    /** Gives the buffers of a copied batch back, one after the other. */
    method GiveBackAll(id: nat)
      requires id in lanes && lanes[id].batch == []
      modifies this`lanes, this`pool, this`busy
      ensures Model() == Run(old(Model()), Repeat(GiveBack(id), old(|lanes[id].returning|)))
      ensures id in lanes && lanes[id] == old(lanes[id]).(returning := [])
    {
      ghost var returning := lanes[id].returning;
      ghost var n := 0;
      assert Repeat(GiveBack(id), 0) == [];
      assert Model() == Run(Model(), []);
      hide Run, Repeat, Next;
      while lanes[id].returning != []
        invariant n <= |returning| && id in lanes && Model() == Run(old(Model()), Repeat(GiveBack(id), n))
        invariant lanes[id] == old(lanes[id]).(returning := returning[n..])
        decreases |lanes[id].returning|
      {
        assert returning[n..][1..] == returning[n + 1..];
        OnceMore(old(Model()), GiveBack(id), n);
        GiveBackNext(id);
        n := n + 1;
      }
    }

    /** Copies the whole batch, and only then gives the buffers back. */
    method CopyBatch(id: nat)
      requires id in lanes && lanes[id].copies == [] && lanes[id].returning == []
      requires forall x | x in lanes[id].batch :: x.buf in memory
      modifies this`lanes, this`pool, this`busy
      ensures Model() == Run(old(Model()), CopySteps(id, old(|lanes[id].batch|)))
      ensures id in lanes && lanes[id] == old(lanes[id]).(batch := [], copies := CopiesOf(memory, old(lanes[id].batch)))
      ensures |lanes[id].copies| == old(|lanes[id].batch|)
    {
      hide Run, Repeat;
      ghost var n := |lanes[id].batch|;
      CopyAll(id);
      GiveBackAll(id);
      RunConcat(old(Model()), Repeat(CopyOut(id), n), Repeat(GiveBack(id), n));
    }

    /** The device has taken so many packets, or all that are left if it claims more. */
    method DeviceTakes(id: nat, written: nat)
      requires id in lanes && lanes[id].batch == [] && lanes[id].returning == []
      modifies this`lanes
      ensures Model() == Next(old(Model()), WriteDevice(id, written))
      ensures id in lanes
      ensures |lanes[id].copies| == old(if written < |lanes[id].copies| then |lanes[id].copies| - written else 0)
      ensures id in lanes && lanes[id].written + lanes[id].copies == old(lanes[id].written + lanes[id].copies)
      ensures lanes[id].chan == old(lanes[id].chan) && lanes[id].batch == [] && lanes[id].returning == []
    {
      var l := lanes[id];
      if written >= |l.copies| {
        assert l.copies[..|l.copies|] == l.copies && l.copies[|l.copies|..] == [];
        lanes := lanes[id := l.(copies := [], written := l.written + l.copies)];
      } else {
        lanes := lanes[id := l.(copies := l.copies[written..], written := l.written + l.copies[..written])];
      }
    }

    /** Offers a device what is left until it has taken everything or fails; here, for as many answers as it gives.
        However few packets it takes at a time, it gets each copy once and in order. */
    method WriteOut(id: nat, answers: seq<Option<nat>>) returns (r: WriteResult, n: nat)
      requires id in lanes && lanes[id].batch == [] && lanes[id].returning == []
      modifies this`lanes
      ensures n <= |answers| && AllTaken(answers[..n]) && Model() == Run(old(Model()), Writes(id, answers[..n]))
      ensures id in lanes && lanes[id].written + lanes[id].copies == old(lanes[id].written + lanes[id].copies)
      ensures lanes[id].chan == old(lanes[id].chan) && lanes[id].batch == [] && lanes[id].returning == []
      ensures |lanes[id].copies| == LeftOver(old(|lanes[id].copies|), answers[..n])
      ensures r == Done <==> lanes[id].copies == []
      ensures r == DeviceFailed ==> n < |answers| && answers[n] == None
      ensures r == StillWriting ==> n == |answers|
    {
      n := 0;
      assert Writes(id, answers[..0]) == [];
      assert Model() == Run(Model(), []);
      hide Run, Writes, Next;
      while lanes[id].copies != []
        invariant id in lanes && n <= |answers| && AllTaken(answers[..n])
                  && Model() == Run(old(Model()), Writes(id, answers[..n]))
        invariant lanes[id].written + lanes[id].copies == old(lanes[id].written + lanes[id].copies)
        invariant |lanes[id].copies| == LeftOver(old(|lanes[id].copies|), answers[..n])
        invariant lanes[id].chan == old(lanes[id].chan) && lanes[id].batch == [] && lanes[id].returning == []
        decreases |answers| - n
      {
        if n == |answers| {
          return StillWriting, n;
        }
        if answers[n] == None {
          return DeviceFailed, n;
        }
        WriteOneMore(old(Model()), id, answers, n);
        DeviceTakes(id, answers[n].value);
        assert answers[..n + 1][..n] == answers[..n];
        n := n + 1;
      }
      return Done, n;
    }

    /** One round of a session's writer, which waits for a packet: it takes up to a batch from its channel, copies
        it, gives the buffers back, and writes it out. What has been taken is on the device in order when the
        device has taken all, and the first part of it if the device fails. */
    method WriteRound(id: nat, answers: seq<Option<nat>>) returns (r: WriteResult, taken: nat, n: nat)
      requires Valid() && id in lanes && lanes[id].chan != []
      requires lanes[id].batch == [] && lanes[id].returning == [] && lanes[id].copies == []
      modifies this`lanes, this`pool, this`busy
      ensures Valid() && n <= |answers| && AllTaken(answers[..n])
      ensures Model() == Run(old(Model()), Repeat(Take(id), taken) + CopySteps(id, taken) + Writes(id, answers[..n]))
      ensures id in lanes && 0 < taken <= old(|lanes[id].chan|)
      ensures taken == if old(|lanes[id].chan|) < old(lanes[id].batchSize) then old(|lanes[id].chan|)
              else old(lanes[id].batchSize)
      ensures lanes[id].chan == old(lanes[id].chan)[taken..] && lanes[id].batch == [] && lanes[id].returning == []
      ensures lanes[id].written + lanes[id].copies ==
              old(lanes[id].written) + CopiesOf(memory, old(lanes[id].chan)[..taken])
      ensures |lanes[id].copies| == LeftOver(taken, answers[..n])
      ensures r == Done <==> lanes[id].copies == []
      ensures r == DeviceFailed ==> n < |answers| && answers[n] == None
      ensures r == StillWriting ==> n == |answers|
    {
      ghost var s0 := Model();
      hide Inv, ShapeInv, Run, Next, Repeat, CopySteps, Writes, CopiesOf;
      taken := Drain(id);
      RunValid(s0, Repeat(Take(id), taken));
      BatchInMemory(Model(), id);
      CopyBatch(id);
      RunConcat(s0, Repeat(Take(id), taken), CopySteps(id, taken));
      r, n := WriteOut(id, answers);
      RunConcat(s0, Repeat(Take(id), taken) + CopySteps(id, taken), Writes(id, answers[..n]));
      RunValid(s0, Repeat(Take(id), taken) + CopySteps(id, taken) + Writes(id, answers[..n]));
    }
  }
}
