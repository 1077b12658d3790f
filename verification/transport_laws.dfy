/** What every interleaving of transport manager steps keeps. */
module TransportLaws {
  import opened Bits
  import opened TransportSpec

  // ----- Ids and the forest of resources -----

  /** Ids are fresh, and what is tracked is exactly what has been wrapped and not closed. */
  ghost predicate IdsInv(s: State) {
    && s.history.network.Keys == s.history.wrapped.Keys
    && s.resources.Keys == s.history.wrapped.Keys - s.history.done
    && s.history.done <= s.history.wrapped.Keys && s.history.condemned <= s.history.wrapped.Keys
    && forall id | id in s.history.wrapped :: 1 <= id <= s.nextID
  }

  /** A resource's parent is older than it; a tracked child and its tracked parent link to each other and
      share host, mapping and network; only listeners have children. */
  ghost predicate Linked(s: State, id: nat)
    requires id in s.resources
  {
    var r := s.resources[id];
    && r.parent < id
    && (r.parent in s.resources ==>
          && id in s.resources[r.parent].children
          && s.resources[r.parent].kind == ListenerKind
          && s.resources[r.parent].host == r.host && s.resources[r.parent].mapping == r.mapping
          && id in s.history.network && r.parent in s.history.network
             && s.history.network[id] == s.history.network[r.parent])
    && (forall c | c in r.children :: c in s.resources && s.resources[c].parent == id)
    && (r.parent != 0 || r.children != {} ==> (r.kind == ConnKind <==> r.parent != 0))
    && (r.kind == ConnKind ==> r.children == {})
  }

  ghost predicate ForestInv(s: State) {
    && 0 !in s.resources
    && forall id | id in s.resources :: Linked(s, id)
  }

  // ----- Routing -----

  ghost predicate SnapshotsInv(matches: Matcher, s: State) {
    && DEFAULT_MAPPING !in s.mappings
    && (forall ss | ss in s.history.snapshots ::
          ss.version <= s.version
          && (ss.version == s.version ==>
                RoutesTo(matches, s, ss.host, ss.mapping, ss.network) && ss.transport in s.transports.Values))
    && (forall c | c in s.history.inFlight :: s.history.inFlight[c].0 in s.history.snapshots)
  }

  /** Everything tracked is on the network its host is routed to now, unless it is on some close list or was
      accepted from a listener that already was. */
  ghost predicate RoutedInv(matches: Matcher, s: State) {
    forall id | id in s.resources && id !in s.history.condemned && id !in s.history.late :: WellRouted(matches, s, id)
  }

  /** Only accepted connections can be late. */
  ghost predicate LateInv(s: State) {
    && s.history.late <= s.history.wrapped.Keys
    && forall id | id in s.history.late && id in s.resources :: s.resources[id].parent != 0
  }

  ghost predicate Inv(matches: Matcher, s: State) {
    IdsInv(s) && ForestInv(s) && SnapshotsInv(matches, s) && RoutedInv(matches, s) && LateInv(s)
  }

  // ----- Each step keeps the invariant -----

  lemma CondemnKeepsForest(s: State, s': State)
    requires IdsInv(s) && ForestInv(s) && LateInv(s)
    requires s'.resources == s.resources && s'.nextID == s.nextID && s'.history.wrapped == s.history.wrapped
    requires s'.history.network == s.history.network && s'.history.done == s.history.done
             && s'.history.late <= s.history.late
    requires s'.history.condemned <= s.history.wrapped.Keys
    ensures IdsInv(s') && ForestInv(s') && LateInv(s')
  {
    assert forall id | id in s.resources :: Linked(s, id) ==> Linked(s', id);
  }

  /** Changing the default network condemns whatever the default network carries. */
  lemma WithDefaultKeeps(matches: Matcher, s: State, network: Option<Network>)
    requires Inv(matches, s)
    ensures Inv(matches, WithDefault(s, network))
  {
    var s' := WithDefault(s, network);
    CondemnKeepsForest(s, s');
    forall id | id in s'.resources && id !in s'.history.condemned && id !in s'.history.late
      ensures WellRouted(matches, s', id)
    {
      assert WellRouted(matches, s, id);
    }
  }

  /** Adding or replacing a mapping condemns every host it matches; other hosts' best matches stand. */
  lemma WithMappingKeeps(matches: Matcher, s: State, pattern: string, network: Option<Network>)
    requires Inv(matches, s)
    ensures Inv(matches, WithMapping(matches, s, pattern, network))
  {
    var s' := WithMapping(matches, s, pattern, network);
    CondemnKeepsForest(s, s');
    forall id | id in s'.resources && id !in s'.history.condemned && id !in s'.history.late
      ensures WellRouted(matches, s', id)
    {
      assert WellRouted(matches, s, id);
      if s' != s {
        MappingElsewhere(matches, s, pattern, network, s.resources[id].host, s.resources[id].mapping);
      }
    }
  }

  /** A route survives a new pattern that does not match its host... */
  lemma MappingElsewhere(matches: Matcher, s: State, pattern: string, network: Option<Network>, host: string,
      mapping: string)
    requires !matches(pattern, host) && BestMatch(matches, s.mappings, host, mapping)
    ensures BestMatch(matches, s.mappings[pattern := network], host, mapping)
    ensures mapping != pattern || mapping == DEFAULT_MAPPING
  {
  }

  /** ... and the removal of a pattern it does not use. */
  lemma UnusedMapping(matches: Matcher, s: State, pattern: string, host: string, mapping: string)
    requires mapping != pattern && BestMatch(matches, s.mappings, host, mapping)
    ensures BestMatch(matches, s.mappings - {pattern}, host, mapping)
  {
  }

  lemma WithoutMappingKeeps(matches: Matcher, s: State, pattern: string)
    requires Inv(matches, s)
    ensures Inv(matches, WithoutMapping(s, pattern))
  {
    var s' := WithoutMapping(s, pattern);
    CondemnKeepsForest(s, s');
    forall id | id in s'.resources && id !in s'.history.condemned && id !in s'.history.late
      ensures WellRouted(matches, s', id)
    {
      assert WellRouted(matches, s, id);
      if s' != s {
        UnusedMapping(matches, s, pattern, s.resources[id].host, s.resources[id].mapping);
      }
    }
  }

  /** Steps that only touch transports, or close everything. */
  lemma SameRoutes(matches: Matcher, s: State, s': State)
    requires Inv(matches, s)
    requires s'.resources == s.resources && s'.nextID == s.nextID && s'.mappings == s.mappings
             && s'.defaultNet == s.defaultNet
    requires s'.version > s.version
    requires s'.history == s.history.(condemned := s'.history.condemned)
             && s.history.condemned <= s'.history.condemned <= s.history.wrapped.Keys
    ensures Inv(matches, s')
  {
    CondemnKeepsForest(s, s');
    forall id | id in s'.resources && id !in s'.history.condemned && id !in s'.history.late
      ensures WellRouted(matches, s', id)
    {
      assert WellRouted(matches, s, id);
    }
  }

  /** Steps of callers that have taken a snapshot or dialed, before they commit. */
  lemma OnlyCallers(matches: Matcher, s: State, s': State)
    requires Inv(matches, s)
    requires s' == s.(history := s.history.(snapshots := s'.history.snapshots, inFlight := s'.history.inFlight,
                                            rejected := s'.history.rejected, shut := s'.history.shut))
    requires SnapshotsInv(matches, s')
    ensures Inv(matches, s')
  {
    CondemnKeepsForest(s, s');
    forall id | id in s'.resources && id !in s'.history.condemned && id !in s'.history.late
      ensures WellRouted(matches, s', id)
    {
      assert WellRouted(matches, s, id);
    }
  }

  /** What a commit tracks is routed rightly, because nothing has changed since its snapshot. */
  lemma CommittedKeeps(matches: Matcher, s: State, c: Carrier)
    requires Inv(matches, s)
    ensures Inv(matches, Committed(s, c))
  {
    var s' := Committed(s, c);
    if c in s.history.inFlight {
      var (ss, kind) := s.history.inFlight[c];
      if s.closed || s.version != ss.version {
        OnlyCallers(matches, s, s');
      } else {
        CommittedLinked(matches, s, c);
        CommittedRouted(matches, s, c);
      }
    }
  }

  ghost predicate Commits(s: State, c: Carrier) {
    c in s.history.inFlight && !s.closed && s.version == s.history.inFlight[c].0.version
  }

  lemma CommittedLinked(matches: Matcher, s: State, c: Carrier)
    requires Inv(matches, s) && Commits(s, c)
    ensures IdsInv(Committed(s, c)) && ForestInv(Committed(s, c)) && LateInv(Committed(s, c))
  {
    var s' := Committed(s, c);
    forall x | x in s'.resources
      ensures Linked(s', x)
    {
      assert x != s.nextID + 1 ==> Linked(s, x);
    }
  }

  lemma CommittedRouted(matches: Matcher, s: State, c: Carrier)
    requires Inv(matches, s) && Commits(s, c)
    ensures SnapshotsInv(matches, Committed(s, c)) && RoutedInv(matches, Committed(s, c))
  {
    var s', ss := Committed(s, c), s.history.inFlight[c].0;
    assert RoutesTo(matches, s, ss.host, ss.mapping, ss.network);
    forall x | x in s'.resources && x !in s'.history.condemned && x !in s'.history.late
      ensures WellRouted(matches, s', x)
    {
      assert x != s.nextID + 1 ==> WellRouted(matches, s, x);
    }
  }

  lemma AcceptedKeeps(matches: Matcher, s: State, listener: nat, c: Carrier)
    requires Inv(matches, s)
    ensures Inv(matches, Accepted(s, listener, c))
  {
    var s' := Accepted(s, listener, c);
    if !Seen(s.history, c) {
      if !IsListener(s, listener) || listener !in s.history.network {
        OnlyCallers(matches, s, s');
      } else {
        AcceptedLinked(matches, s, listener, c);
        AcceptedRouted(matches, s, listener, c);
      }
    }
  }

  lemma AcceptedLinked(matches: Matcher, s: State, listener: nat, c: Carrier)
    requires Inv(matches, s) && IsListener(s, listener) && !Seen(s.history, c)
    ensures IdsInv(Accepted(s, listener, c)) && ForestInv(Accepted(s, listener, c)) && LateInv(Accepted(s, listener, c))
  {
    forall x | x in Accepted(s, listener, c).resources
      ensures Linked(Accepted(s, listener, c), x)
    {
      AcceptedLink(s, listener, c, x);
    }
    hide Linked, Seen;
  }

  lemma AcceptedLink(s: State, listener: nat, c: Carrier, x: nat)
    requires IdsInv(s) && ForestInv(s) && IsListener(s, listener) && !Seen(s.history, c)
    requires x in Accepted(s, listener, c).resources
    ensures Linked(Accepted(s, listener, c), x)
  {
    assert Linked(s, listener);
    assert x != s.nextID + 1 ==> Linked(s, x);
    hide Seen;
  }

  lemma AcceptedRouted(matches: Matcher, s: State, listener: nat, c: Carrier)
    requires Inv(matches, s) && IsListener(s, listener) && !Seen(s.history, c)
    ensures SnapshotsInv(matches, Accepted(s, listener, c)) && RoutedInv(matches, Accepted(s, listener, c))
  {
    var s' := Accepted(s, listener, c);
    var id := s.nextID + 1;
    forall x | x in s'.resources && x !in s'.history.condemned && x !in s'.history.late
      ensures WellRouted(matches, s', x)
    {
      if x == id {
        assert listener !in s.history.condemned;
        assert Linked(s, listener);
        assert WellRouted(matches, s, listener);
      } else {
        assert WellRouted(matches, s, x);
      }
    }
  }

  lemma UnlinkKeeps(s: State, id: nat)
    requires ForestInv(s) && id in s.resources
    ensures ForestInv(s.(resources := Unlink(s.resources, id)))
    ensures forall x | x in Unlink(s.resources, id) ::
              s.resources[x].(children := {}) == Unlink(s.resources, id)[x].(children := {})
    ensures Unlink(s.resources, id).Keys == s.resources.Keys - {id}
  {
    var s' := s.(resources := Unlink(s.resources, id));
    assert Linked(s, id);
    forall x | x in s'.resources
      ensures Linked(s', x)
    {
      assert Linked(s, x);
    }
  }

  lemma ClosedOneKeeps(matches: Matcher, s: State, id: nat)
    requires Inv(matches, s)
    ensures Inv(matches, ClosedOne(s, id))
  {
    var s' := ClosedOne(s, id);
    if id in s.history.wrapped && id !in s.history.done {
      UnlinkKeeps(s, id);
      assert forall x | x in s'.resources :: Linked(s.(resources := Unlink(s.resources, id)), x) ==> Linked(s', x);
      forall x | x in s'.resources && x !in s'.history.condemned && x !in s'.history.late
        ensures WellRouted(matches, s', x)
      {
        assert WellRouted(matches, s, x);
      }
    }
  }

  lemma StepKeeps(matches: Matcher, s: State, e: Event)
    requires Inv(matches, s)
    ensures Inv(matches, Step(matches, s, e))
  {
    match e
    case SetDefault(network) => WithDefaultKeeps(matches, s, network);
    case Map(pattern, network) => WithMappingKeeps(matches, s, pattern, network);
    case Unmap(pattern) => WithoutMappingKeeps(matches, s, pattern);
    case CloseManager => if !s.closed { SameRoutes(matches, s, Closed(s)); }
    case Register(schemes, transport) =>
      if CanRegister(s, schemes) { SameRoutes(matches, s, Registered(s, schemes, transport)); }
    case Unregister(scheme) =>
      if Unregistered(s, scheme) != s { SameRoutes(matches, s, Unregistered(s, scheme)); }
    case Snap(ss) => OnlyCallers(matches, s, Step(matches, s, e));
    case Answer(c, ss, kind) => OnlyCallers(matches, s, Step(matches, s, e));
    case Commit(c) => CommittedKeeps(matches, s, c);
    case Accept(listener, c) => AcceptedKeeps(matches, s, listener, c);
    case CloseOne(id) => ClosedOneKeeps(matches, s, id);
  }

  lemma {:induction false} RunKeeps(matches: Matcher, s: State, es: seq<Event>)
    requires Inv(matches, s)
    ensures Inv(matches, Run(matches, s, es))
    decreases |es|
  {
    hide Inv;
    if es != [] {
      StepKeeps(matches, s, es[0]);
      RunKeeps(matches, Step(matches, s, es[0]), es[1..]);
    }
  }

  // ----- Carriers -----

  /** Every carrier a transport or a listener has handed over is in one place: still with its caller, behind one
      resource id, or turned away. It has been closed at most once, and exactly if it was turned away or its
      wrapper was closed. */
  ghost predicate CarriersInv(s: State) {
    var h := s.history;
    && (forall c | c in h.inFlight :: c !in h.wrapped.Values && c !in h.rejected)
    && (forall c | c in h.rejected :: c !in h.wrapped.Values)
    && (forall i, j | i in h.wrapped && j in h.wrapped && h.wrapped[i] == h.wrapped[j] :: i == j)
    && (forall i, j | 0 <= i < j < |h.shut| :: h.shut[i] != h.shut[j])
    && (forall c :: c in h.shut <==> c in h.rejected || ClosedBehind(h, c))
    && h.done <= h.wrapped.Keys
  }

  ghost predicate ClosedBehind(h: History, c: Carrier) {
    exists id :: id in h.done && id in h.wrapped && h.wrapped[id] == c
  }

  lemma RejectKeepsCarriers(s: State, c: Carrier)
    requires CarriersInv(s) && c !in s.history.wrapped.Values && c !in s.history.rejected
    ensures CarriersInv(s.(history := Reject(s.history, c)))
  {
    var h, h' := s.history, Reject(s.history, c);
    assert c !in h.shut;
    assert forall x :: ClosedBehind(h', x) <==> ClosedBehind(h, x);
  }

  lemma WrapKeepsCarriers(s: State, s': State, id: nat, c: Carrier, network: Network)
    requires CarriersInv(s) && id !in s.history.wrapped && c !in s.history.wrapped.Values && c !in s.history.rejected
    requires s'.history == Wrap(s.history, id, c, network).(late := s'.history.late)
    ensures CarriersInv(s')
  {
    var h, h' := s.history, s'.history;
    forall x
      ensures ClosedBehind(h', x) <==> ClosedBehind(h, x)
    {
      if ClosedBehind(h, x) {
        var i :| i in h.done && i in h.wrapped && h.wrapped[i] == x;
        assert i in h'.done && i in h'.wrapped && h'.wrapped[i] == x;
      }
    }
    forall x | x in h'.wrapped.Values
      ensures x == c || x in h.wrapped.Values
    {
      var i :| i in h'.wrapped && h'.wrapped[i] == x;
      assert i != id ==> i in h.wrapped && h.wrapped[i] == x;
    }
  }

  lemma ClosedOneKeepsCarriers(s: State, id: nat)
    requires CarriersInv(s)
    ensures CarriersInv(ClosedOne(s, id))
  {
    var s' := ClosedOne(s, id);
    if s' != s {
      var h, h', c := s.history, s'.history, s.history.wrapped[id];
      assert c !in h.shut by {
        assert c in h.wrapped.Values;
      }
      assert ClosedBehind(h', c) by {
        assert id in h'.done && id in h'.wrapped && h'.wrapped[id] == c;
      }
      forall x
        ensures ClosedBehind(h', x) <==> ClosedBehind(h, x) || x == c
      {
        if ClosedBehind(h, x) {
          var i :| i in h.done && i in h.wrapped && h.wrapped[i] == x;
          assert i in h'.done && i in h'.wrapped && h'.wrapped[i] == x;
        }
      }
    }
  }

  lemma SameCarriers(s: State, s': State)
    requires CarriersInv(s)
    requires s'.history == s.history.(snapshots := s'.history.snapshots, condemned := s'.history.condemned,
             inFlight := s'.history.inFlight)
    requires forall c | c in s'.history.inFlight && c !in s.history.inFlight :: !Seen(s.history, c)
    ensures CarriersInv(s')
  {
    assert forall c :: ClosedBehind(s'.history, c) <==> ClosedBehind(s.history, c);
  }

  lemma StepKeepsCarriers(matches: Matcher, s: State, e: Event)
    requires CarriersInv(s) && IdsInv(s)
    ensures CarriersInv(Step(matches, s, e))
  {
    var s' := Step(matches, s, e);
    match e
    case Commit(c) => CommittedKeepsCarriers(s, c);
    case Accept(listener, c) => AcceptedKeepsCarriers(s, listener, c);
    case CloseOne(id) => ClosedOneKeepsCarriers(s, id);
    case _ => SameCarriers(s, s');
  }

  lemma CommittedKeepsCarriers(s: State, c: Carrier)
    requires CarriersInv(s) && IdsInv(s)
    ensures CarriersInv(Committed(s, c))
  {
    if Commits(s, c) {
      WrapKeepsCarriers(s, Committed(s, c), s.nextID + 1, c, s.history.inFlight[c].0.network);
    } else if c in s.history.inFlight {
      RejectKeepsCarriers(s, c);
    }
  }

  lemma AcceptedKeepsCarriers(s: State, listener: nat, c: Carrier)
    requires CarriersInv(s) && IdsInv(s)
    ensures CarriersInv(Accepted(s, listener, c))
  {
    if !Seen(s.history, c) {
      if !IsListener(s, listener) || listener !in s.history.network {
        RejectKeepsCarriers(s, c);
      } else {
        WrapKeepsCarriers(s, Accepted(s, listener, c), s.nextID + 1, c, s.history.network[listener]);
      }
    }
  }

  lemma {:induction false} RunKeepsCarriers(matches: Matcher, s: State, es: seq<Event>)
    requires Inv(matches, s) && CarriersInv(s)
    ensures CarriersInv(Run(matches, s, es))
    decreases |es|
  {
    if es != [] {
      StepKeeps(matches, s, es[0]);
      hide Inv, CarriersInv;
      assert IdsInv(s) by { InvIds(matches, s); }
      StepKeepsCarriers(matches, s, es[0]);
      RunKeepsCarriers(matches, Step(matches, s, es[0]), es[1..]);
    }
  }

  lemma InvIds(matches: Matcher, s: State)
    requires Inv(matches, s)
    ensures IdsInv(s)
  {
  }
}
