/** What the router does with each packet, and what becomes of every packet read from the core. */
module TunFates {
  import opened Bits
  import opened TunPipeline

  /** The oldest packet that waits can be handed on: the firewall lets it in, a session is current and enabled, the
      packet fits its MTU, zero meaning any, and its channel is not full. */
  ghost predicate MayPass(s: State, allowed: bool) {
    && allowed && s.current.Some? && s.enabled && s.current.value in s.lanes
    && s.queue != [] && s.queue[0].serial < |s.fromCore|
    && var l := s.lanes[s.current.value];
       && (l.mtu == 0 || |s.fromCore[s.queue[0].serial]| <= l.mtu)
       && |l.chan| < 4 * l.batchSize
  }

  lemma HeadIsOwned(s: State)
    requires Inv(s) && s.queue != []
    ensures Owned(s, s.queue[0]) && s.queue[0].serial !in s.routed
  {
    WaitingHeld(s, InQueue(0), s.queue[0]);
  }

  /** Exactly then it is handed on, at the end of the session's channel; otherwise its buffer goes back, and no session
      gets anything. */
  lemma RouteExactly(s: State, allowed: bool)
    requires Inv(s) && ShapeInv(s) && s.queue != []
    ensures var s', x := Next(s, Route(allowed)), s.queue[0];
            && s'.queue == s.queue[1..] && s'.reader == s.reader && s'.fromCore == s.fromCore
            && s'.current == s.current && s'.enabled == s.enabled
            && if MayPass(s, allowed) then
                 var id := s.current.value;
                 && s'.lanes == s.lanes[id := s.lanes[id].(chan := s.lanes[id].chan + [x])]
                 && s'.routed == s.routed[x.serial := id] && s'.pool == s.pool
               else
                 s'.lanes == s.lanes && s'.routed == s.routed && s'.pool == s.pool + {x.buf}
  {
    HeadIsOwned(s);
    hide Inv;
  }

  /** What a message to the router changes: a new session is current and enabled, with an empty channel. */
  lemma SessionSteps(s: State, id: nat, mtu: nat, batchSize: nat, on: bool)
    requires ShapeInv(s) && id !in s.lanes
    ensures var s' := Next(s, Attach(id, mtu, batchSize));
            && s'.current == Some(id) && s'.enabled && s'.lanes.Keys == s.lanes.Keys + {id}
            && s'.lanes[id].mtu == mtu && s'.lanes[id].chan == [] && s'.lanes[id].written == []
            && s'.lanes[id].batchSize == (if batchSize > 0 then batchSize else 1)
            && forall x | x in s.lanes :: s'.lanes[x] == s.lanes[x]
    ensures Next(s, Detach) == s.(current := None, enabled := false)
    ensures Next(s, TunPipeline.SetEnabled(on)) == s.(enabled := on)
    ensures s.current.Some? ==>
              Next(s, TunPipeline.SetMTU(mtu)) ==
              s.(lanes := s.lanes[s.current.value := s.lanes[s.current.value].(mtu := mtu)])
  {
  }

  /** Packet `n` waits to be routed. */
  ghost predicate IsWaiting(s: State, n: nat) {
    exists i | 0 <= i < |Waiting(s)| :: Waiting(s)[i].serial == n
  }

  /** In this state the step drops packet `n`: the reader stops before it could queue the packet, or it is the oldest
      and may not pass. */
  ghost predicate DroppedBy(s: State, e: Step, n: nat) {
    || (e == DropRead && s.reader.Some? && s.reader.value.serial == n)
    || (e.Route? && s.queue != [] && s.queue[0].serial == n && !MayPass(s, e.allowed))
  }

  /** Read, and neither waiting nor handed on. */
  ghost predicate IsGone(s: State, n: nat) {
    n < |s.fromCore| && n !in s.routed && !IsWaiting(s, n)
  }

  lemma StepDrops(s: State, e: Step, n: nat)
    requires Inv(s) && ShapeInv(s) && IsGone(Next(s, e), n)
    ensures IsGone(s, n) || DroppedBy(s, e, n)
  {
    hide Inv, ShapeInv, MayPass;
    match e
    case ReadCore(buf, packet) => ReadWaits(s, buf, packet, n);
    case Enqueue => EnqueuedStillWaits(s);
    case DropRead => DropDrops(s, n);
    case Route(allowed) => RouteDrops(s, allowed, n);
    case _ => SameWaits(s, e, n);
  }

  lemma SameWaits(s: State, e: Step, n: nat)
    requires !(e.ReadCore? || e.Enqueue? || e.DropRead? || e.Route?) && IsGone(Next(s, e), n)
    ensures IsGone(s, n)
  {
    assert Waiting(Next(s, e)) == Waiting(s);
    hide Waiting;
  }

  lemma ReadWaits(s: State, buf: Buffer, packet: Packet, n: nat)
    requires IsGone(Next(s, ReadCore(buf, packet)), n)
    ensures IsGone(s, n)
  {
    var s' := Next(s, ReadCore(buf, packet));
    if s' != s {
      assert Waiting(s') == Waiting(s) + [Slice(buf, |s.fromCore|)];
      assert Waiting(s')[|Waiting(s)|].serial == |s.fromCore|;
      forall i | 0 <= i < |Waiting(s)|
        ensures Waiting(s)[i].serial != n
      {
        assert Waiting(s')[i] == Waiting(s)[i];
      }
    }
  }

  lemma DropDrops(s: State, n: nat)
    requires IsGone(Next(s, DropRead), n)
    ensures IsGone(s, n) || DroppedBy(s, DropRead, n)
  {
    var s' := Next(s, DropRead);
    if s.reader.Some? && s.reader.value.serial != n {
      assert Waiting(s) == Waiting(s') + [s.reader.value];
      forall i | 0 <= i < |Waiting(s)|
        ensures Waiting(s)[i].serial != n
      {
        assert i < |Waiting(s')| ==> Waiting(s)[i] == Waiting(s')[i];
      }
    }
  }

  lemma RouteDrops(s: State, allowed: bool, n: nat)
    requires Inv(s) && ShapeInv(s) && IsGone(Next(s, Route(allowed)), n)
    ensures IsGone(s, n) || DroppedBy(s, Route(allowed), n)
  {
    if s.queue != [] {
      RouteExactly(s, allowed);
      hide Inv, ShapeInv, MayPass, Next, Waiting;
      RestWaits(s, Next(s, Route(allowed)), n);
      hide IsWaiting;
    }
  }

  lemma RestWaits(s: State, s': State, n: nat)
    requires s.queue != [] && s'.queue == s.queue[1..] && s'.reader == s.reader
    ensures IsWaiting(s, n) ==> IsWaiting(s', n) || s.queue[0].serial == n
  {
    assert Waiting(s) == [s.queue[0]] + Waiting(s');
    if i :| 0 <= i < |Waiting(s)| && Waiting(s)[i].serial == n {
      assert i > 0 ==> Waiting(s)[i] == Waiting(s')[i - 1];
    }
  }

  /** In every interleaving, whatever has been read from the core waits, or was handed to a session, or was dropped at
      one moment for one of those reasons. */
  lemma {:induction false} EveryPacketHasAFate(es: seq<Step>, n: nat)
    requires n < |Run(Init(), es).fromCore|
    ensures var s := Run(Init(), es);
            || IsWaiting(s, n) || n in s.routed
            || exists k | 0 <= k < |es| :: DroppedBy(Run(Init(), es[..k]), es[k], n)
    decreases |es|
  {
    assert es != [];
    var i := |es| - 1;
    var s := Run(Init(), es[..i]);
    assert es == es[..i] + [es[i]];
    StartInv();
    StartShape();
    RunKeeps(Init(), es[..i]);
    RunKeepsShape(Init(), es[..i]);
    RunAppend(Init(), es[..i], es[i]);
    hide Run, Next, Inv, ShapeInv, DroppedBy, IsWaiting;
    if IsGone(Next(s, es[i]), n) {
      StepDrops(s, es[i], n);
      if IsGone(s, n) {
        EveryPacketHasAFate(es[..i], n);
        var k :| 0 <= k < i && DroppedBy(Run(Init(), es[..i][..k]), es[..i][k], n);
        assert es[..i][..k] == es[..k];
      }
    }
  }

  lemma StartShape()
    ensures ShapeInv(Init())
  {
  }
}
