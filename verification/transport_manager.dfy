/** The transport manager, updated in place; map iteration takes its elements in any order. */
module TransportManagers {
  import opened Bits
  import opened TransportSpec
  import opened TransportLaws

  datatype Error = ErrNilTransport | ErrClosed | ErrNoNetwork | ErrUnsupportedScheme | ErrAlreadyRegistered
      | ErrInvalidPattern | ErrNetClosed

  datatype Result<+T> = Ok(value: T) | Err(error: Error)

  /** The number of literal characters and of wildcards of a pattern. */
  method PatternScore(pattern: string) returns (score: nat, wildcards: nat)
    ensures score == Score(pattern) && wildcards == Wildcards(pattern)
  {
    score, wildcards := 0, 0;
    for i := 0 to |pattern|
      invariant score == Score(pattern[..i]) && wildcards == Wildcards(pattern[..i])
    {
      assert pattern[..i + 1][..i] == pattern[..i];
      if IsWildcard(pattern[i]) {
        wildcards := wildcards + 1;
        continue;
      }
      score := score + 1;
    }
    assert pattern[..|pattern|] == pattern;
  }

  /** Wildcards are the stars, question marks and brackets of a pattern, and the score is all the rest. */
  lemma {:induction false} ScoresCoverPattern(p: string)
    ensures Score(p) + Wildcards(p) == |p|
    ensures Wildcards(p) == multiset(p)['*'] + multiset(p)['?'] + multiset(p)['['] + multiset(p)[']']
  {
    if p != "" {
      ScoresCoverPattern(p[..|p| - 1]);
      assert p == p[..|p| - 1] + [p[|p| - 1]];
    }
  }

  /** More literal characters make a pattern strictly more specific, and with as many, fewer wildcards do; any two
      patterns can be compared, and more specific than more specific is more specific. */
  lemma SpecificityOrder(p: string, q: string, r: string)
    ensures |p| - Wildcards(p) > |q| - Wildcards(q) ==> AtLeastAsSpecific(p, q) && !AtLeastAsSpecific(q, p)
    ensures |p| - Wildcards(p) == |q| - Wildcards(q) && Wildcards(p) < Wildcards(q) ==>
              AtLeastAsSpecific(p, q) && !AtLeastAsSpecific(q, p)
    ensures AtLeastAsSpecific(p, q) || AtLeastAsSpecific(q, p)
    ensures AtLeastAsSpecific(p, q) && AtLeastAsSpecific(q, r) ==> AtLeastAsSpecific(p, r)
  {
    ScoresCoverPattern(p);
    ScoresCoverPattern(q);
  }

  /** A list of what is in a set, each once. */
  ghost predicate Lists(l: seq<nat>, ids: set<nat>) {
    && (forall i | 0 <= i < |l| :: l[i] in ids)
    && (forall x | x in ids :: x in l)
    && (forall i, j | 0 <= i < j < |l| :: l[i] != l[j])
  }

  /** If a resource is chosen, so are its tracked children. */
  ghost predicate Hereditary(m: map<nat, Resource>, match_: Resource -> bool) {
    forall p, c | p in m && c in m[p].children && c in m && match_(m[p]) :: match_(m[c])
  }

  /** The first scheme that cannot be registered is number `i`. */
  ghost predicate FirstFault(names: seq<string>, taken: set<string>, i: nat) {
    && i < |names| && (names[i] == "" || names[i] in taken)
    && forall j | 0 <= j < i :: names[j] != "" && names[j] !in taken
  }

  /** The first fault is a scheme that is taken, not an empty one. */
  ghost predicate TakenFirst(names: seq<string>, taken: set<string>) {
    exists i: nat :: FirstFault(names, taken, i) && names[i] != ""
  }

  /** Which error a registration reports. */
  ghost predicate Reports(r: Result<()>, t: Option<nat>, closed: bool, names: seq<string>, taken: set<string>) {
    && (r == Err(ErrNilTransport) <==> t == None)
    && (r == Err(ErrClosed) <==> t.Some? && names != [] && closed)
    && (r == Err(ErrAlreadyRegistered) <==> t.Some? && !closed && TakenFirst(names, taken))
    && (r.Err? ==> r.error in {ErrNilTransport, ErrClosed, ErrAlreadyRegistered, ErrInvalidPattern})
  }

  /** What decides about dials, and how often it has changed. */
  datatype Settings = Settings(closed: bool, version: nat, defaultNet: Option<Network>,
                               mappings: map<string, Option<Network>>, transports: map<string, nat>)

  class Manager {
    const matches: Matcher
    const normalize: string -> string  // trimmed and in lower case
    const wellFormed: string -> bool  // whether a pattern parses

    var closed: bool
    var version: nat
    var nextID: nat
    var defaultNet: Option<Network>
    var transports: map<string, nat>
    var mappings: map<string, Option<Network>>
    var resources: map<nat, Resource>
    // The wrappers handed out, which of them have been closed, and the closes of the carriers themselves.
    var wrappers: map<nat, Carrier>
    var closedOnce: set<nat>
    var shut: seq<Carrier>

    ghost var snapshots: set<Snapshot>
    ghost var inFlight: map<Carrier, (Snapshot, Kind)>
    ghost var network: map<nat, Network>
    ghost var condemned: set<nat>
    ghost var late: set<nat>
    ghost var rejected: set<Carrier>

    ghost function Model(): State
      reads this
    {
      State(closed, version, nextID, defaultNet, transports, mappings, resources,
            History(snapshots, inFlight, wrappers, network, closedOnce, condemned, late, rejected, shut))
    }

    ghost function Set(): Settings
      reads this
    {
      Settings(closed, version, defaultNet, mappings, transports)
    }

    ghost predicate Valid()
      reads this
    {
      Inv(matches, Model()) && CarriersInv(Model())
    }

    constructor (matches: Matcher, normalize: string -> string, wellFormed: string -> bool, defaultNet: Option<Network>)
      ensures Valid() && Model() == Init(defaultNet)
      ensures this.matches == matches && this.normalize == normalize && this.wellFormed == wellFormed
    {
      this.matches, this.normalize, this.wellFormed, this.defaultNet := matches, normalize, wellFormed, defaultNet;
      closed, version, nextID := false, 0, 0;
      transports, mappings, resources := map[], map[], map[];
      wrappers, closedOnce, shut := map[], {}, [];
      snapshots, inFlight, network, condemned, late, rejected := {}, map[], map[], {}, {}, {};
    }

    // ----- Transports -----

    ghost function Normalized(schemes: seq<string>): seq<string> {
      seq(|schemes|, i requires 0 <= i < |schemes| => normalize(schemes[i]))
    }

    /** All schemes of a transport are registered, or none and the first fault is reported. */
    method RegisterTransport(t: Option<nat>, schemes: seq<string>) returns (r: Result<()>)
      requires Valid()
      modifies this
      ensures Valid()
      ensures Model() == if t == None then old(Model())
                         else Step(matches, old(Model()), Register(Normalized(schemes), t.value))
      ensures r.Ok? <==> t.Some? && CanRegister(old(Model()), Normalized(schemes))
      ensures Reports(r, t, old(closed), Normalized(schemes), old(transports).Keys)
      ensures r.Ok? ==> Set() == old(Set()).(version := old(version) + 1, transports := transports)
      ensures r.Ok? ==> transports.Keys == old(transports).Keys + set x | x in Normalized(schemes)
      ensures r.Ok? ==> forall x | x in transports ::
                transports[x] == if x in Normalized(schemes) then t.value else old(transports)[x]
      ensures r.Err? ==> Model() == old(Model())
    {
      hide Inv, CarriersInv, Reports;
      r := CheckRegistration(t, schemes);
      if t.Some? {
        StepKeeps(matches, Model(), Register(Normalized(schemes), t.value));
        KeepsCarriers(matches, Model(), Register(Normalized(schemes), t.value));
      }
      if r.Ok? {
        AddSchemes(schemes, t.value);
        version := version + 1;
      }
    }

    method CheckRegistration(t: Option<nat>, schemes: seq<string>) returns (r: Result<()>)
      ensures r.Ok? <==> t.Some? && CanRegister(Model(), Normalized(schemes))
      ensures Reports(r, t, closed, Normalized(schemes), transports.Keys)
    {
      if t == None {
        return Err(ErrNilTransport);
      }
      if |schemes| == 0 {
        return Err(ErrInvalidPattern);
      }
      if closed {
        return Err(ErrClosed);
      }
      hide FirstFault;
      r := CheckSchemes(schemes);
    }

    method CheckSchemes(schemes: seq<string>) returns (r: Result<()>)
      ensures r.Ok? <==> forall x | x in Normalized(schemes) :: x != "" && x !in transports
      ensures r == Err(ErrAlreadyRegistered) <==> TakenFirst(Normalized(schemes), transports.Keys)
      ensures r.Err? ==> r.error == ErrAlreadyRegistered || r.error == ErrInvalidPattern
    {
      ghost var names := Normalized(schemes);
      for i := 0 to |schemes|
        invariant forall j | 0 <= j < i :: names[j] != "" && names[j] !in transports
      {
        var scheme := normalize(schemes[i]);
        assert names[i] == scheme && scheme in names;
        assert scheme == "" || scheme in transports ==> FirstFault(names, transports.Keys, i);
        if scheme == "" {
          return Err(ErrInvalidPattern);
        }
        if scheme in transports {
          return Err(ErrAlreadyRegistered);
        }
      }
      return Ok(());
    }

    method AddSchemes(schemes: seq<string>, transport: nat)
      modifies this`transports
      ensures transports == old(transports) + AllTo(Normalized(schemes), transport)
    {
      ghost var names := Normalized(schemes);
      for i := 0 to |schemes|
        invariant transports == old(transports) + AllTo(names[..i], transport)
      {
        transports := transports[normalize(schemes[i]) := transport];
        assert names[..i + 1] == names[..i] + [normalize(schemes[i])];
      }
      assert names[..|schemes|] == names;
    }

    method UnregisterTransport(scheme: string)
      requires Valid()
      modifies this
      ensures Valid() && Model() == Step(matches, old(Model()), Unregister(normalize(scheme)))
      ensures if old(closed) || normalize(scheme) !in old(transports) then Model() == old(Model())
              else resources == old(resources)
                   && Set() == old(Set()).(version := old(version) + 1,
                                           transports := old(transports) - {normalize(scheme)})
    {
      hide Inv, CarriersInv;
      StepKeeps(matches, Model(), Unregister(normalize(scheme)));
      KeepsCarriers(matches, Model(), Unregister(normalize(scheme)));
      if closed {
        return;
      }
      var name := normalize(scheme);
      if name in transports {
        transports := transports - {name};
        version := version + 1;
      }
    }

    // ----- Routing -----

    /** A best match, whatever order the mappings are visited in. */
    method ResolveNetwork(host: string) returns (net: Option<Network>, mapping: string)
      requires DEFAULT_MAPPING !in mappings
      ensures BestMatch(matches, mappings, host, mapping)
      ensures net == NetworkOf(Model(), mapping)
      ensures if mapping == "" then net == defaultNet && forall p | p in mappings :: !matches(p, host)
              else mapping in mappings && matches(mapping, host) && net == mappings[mapping]
    {
      var bestPattern, bestScore: int, bestWildcards: int := "", -1, 0;
      var todo := mappings.Keys;
      while todo != {}
        invariant todo <= mappings.Keys
        invariant bestScore == -1 ==> bestPattern == "" && forall p | p in mappings.Keys - todo :: !matches(p, host)
        invariant bestScore != -1 ==> bestPattern in mappings && matches(bestPattern, host)
                                      && bestScore == Score(bestPattern) && bestWildcards == Wildcards(bestPattern)
        invariant bestScore != -1 ==> forall p | p in mappings.Keys - todo && matches(p, host) ::
                  AtLeastAsSpecific(bestPattern, p)
        decreases todo
      {
        var pattern :| pattern in todo;
        todo := todo - {pattern};
        if !matches(pattern, host) {
          continue;
        }
        var score, wildcards := PatternScore(pattern);
        if score > bestScore || (score == bestScore && wildcards < bestWildcards) {
          bestPattern, bestScore, bestWildcards := pattern, score, wildcards;
        }
      }
      if bestScore >= 0 {
        return mappings[bestPattern], bestPattern;
      }
      return defaultNet, DEFAULT_MAPPING;
    }

    method SnapshotFor(scheme: string, host: string) returns (r: Result<Snapshot>)
      requires Valid()
      modifies this`snapshots
      ensures Valid()
      ensures r.Ok? ==> IsSnapshot(matches, old(Model()), r.value) && r.value.host == host
                        && scheme in transports && r.value.transport == transports[scheme]
                        && Model() == Step(matches, old(Model()), Snap(r.value))
      ensures r.Ok? ==> r.value.version == version
                        && Some(r.value.network) == (if r.value.mapping == "" then defaultNet
                                                     else if r.value.mapping in mappings then mappings[r.value.mapping]
                                                     else None)
      ensures r.Err? ==> Model() == old(Model())
      ensures r == Err(ErrClosed) <==> closed
      ensures r == Err(ErrUnsupportedScheme) <==> !closed && scheme !in transports
      ensures r.Err? && !closed && scheme in transports ==>
                && r.error == ErrNoNetwork
                && exists m :: BestMatch(matches, mappings, host, m) && NetworkOf(Model(), m) == None
    {
      hide Inv, CarriersInv, Score, Wildcards;
      DefaultIsNoPattern(matches, Model());
      if closed {
        return Err(ErrClosed);
      }
      if scheme !in transports {
        return Err(ErrUnsupportedScheme);
      }
      var net, mapping := ResolveNetwork(host);
      if net == None {
        return Err(ErrNoNetwork);
      }
      var ss := Snapshot(version, transports[scheme], net.value, mapping, host);
      StepKeeps(matches, Model(), Snap(ss));
      KeepsCarriers(matches, Model(), Snap(ss));
      assert IsSnapshot(matches, Model(), ss);
      hide BestMatch;
      snapshots := snapshots + {ss};
      return Ok(ss);
    }

    // ----- Commit, accept, close -----

    method NextResourceID() returns (id: nat)
      modifies this`nextID
      ensures id == nextID == old(nextID) + 1
    {
      nextID := nextID + 1;
      id := nextID;
    }

    /** Closes a carrier that was never wrapped. */
    method TurnAway(c: Carrier)
      modifies this`shut, this`inFlight, this`rejected
      ensures Model() == old(Model()).(history := Reject(old(Model()).history, c))
    {
      inFlight := inFlight - {c};
      rejected := rejected + {c};
      shut := shut + [c];
    }

    /** Wraps a carrier under a new id and tracks it. */
    method Track(c: Carrier, r: Resource, ghost net: Network) returns (id: nat)
      modifies this`nextID, this`wrappers, this`resources, this`inFlight, this`network
      ensures id == old(nextID) + 1
      ensures Model() == old(Model()).(nextID := id, resources := old(resources)[id := r],
                                       history := Wrap(old(Model()).history, id, c, net))
    {
      id := NextResourceID();
      inFlight := inFlight - {c};
      wrappers := wrappers[id := c];
      network := network[id := net];
      resources := resources[id := r];
    }

    /** commitConn and commitListener: the id of the wrapper, or nothing when the caller has to try again; the
        caller then closes the carrier. */
    method CommitCarrier(ss: Snapshot, kind: Kind, c: Carrier) returns (id: Option<nat>)
      requires Valid() && c in inFlight && inFlight[c] == (ss, kind)
      modifies this
      ensures Valid() && Model() == Step(matches, old(Model()), Commit(c))
      ensures id == None <==> old(closed) || old(version) != ss.version
      ensures id.Some? ==> id.value == nextID && id.value in resources
      ensures id.Some? ==> id.value in wrappers && wrappers[id.value] == c
      ensures id.Some? ==> resources == old(resources)[id.value := Resource(kind, ss.host, ss.mapping, 0, {})]
      ensures id.Some? ==> id.value in network && network[id.value] == ss.network && shut == old(shut)
      ensures id == None ==> c in rejected && resources == old(resources) && shut == old(shut) + [c]
      ensures Set() == old(Set())
    {
      hide Inv, CarriersInv;
      StepKeeps(matches, Model(), Commit(c));
      KeepsCarriers(matches, Model(), Commit(c));
      if closed || version != ss.version {
        TurnAway(c);
        return None;
      }
      var n := Track(c, Resource(kind, ss.host, ss.mapping, 0, {}), ss.network);
      return Some(n);
    }

    /** A connection arrives at a tracked listener, or at one that is gone. */
    method RegisterAcceptedConn(parentID: nat, c: Carrier) returns (r: Result<nat>)
      requires Valid() && !Seen(Model().history, c)
      modifies this
      ensures Valid() && Model() == Step(matches, old(Model()), Accept(parentID, c))
      ensures r.Ok? <==> IsListener(old(Model()), parentID)
      ensures r.Ok? ==> r.value == nextID && r.value in resources && resources[r.value].parent == parentID
      ensures r.Ok? ==> Adopted(old(resources), resources, parentID, r.value)
      ensures r.Err? ==> r.error == ErrNetClosed && resources == old(resources) && shut == old(shut) + [c]
    {
      hide Inv, CarriersInv, Seen;
      StepKeeps(matches, Model(), Accept(parentID, c));
      KeepsCarriers(matches, Model(), Accept(parentID, c));
      if parentID !in resources || resources[parentID].kind != ListenerKind {
        TurnAway(c);
        return Err(ErrNetClosed);
      }
      OnNetwork(matches, Model(), parentID);
      var id := AdoptConn(parentID, c);
      return Ok(id);
    }

    /** Tracks a connection as a child of its listener. */
    method AdoptConn(parentID: nat, c: Carrier) returns (id: nat)
      requires IsListener(Model(), parentID) && parentID in network && parentID <= nextID && !Seen(Model().history, c)
      requires nextID + 1 !in resources
      modifies this
      ensures Model() == Accepted(old(Model()), parentID, c)
      ensures id == nextID && id in resources && resources[id].parent == parentID
      ensures Adopted(old(resources), resources, parentID, id)
    {
      hide Seen;
      var parent := resources[parentID];
      id := Track(c, Resource(ConnKind, parent.host, parent.mapping, parentID, {}), network[parentID]);
      late := if parentID in condemned then late + {id} else late;
      resources := resources[parentID := AddChild(resources[parentID], id)];
    }

    method UnregisterResource(id: nat)
      modifies this`resources
      ensures resources == Unlink(old(resources), id)
    {
      if id !in resources {
        return;
      }
      var res := resources[id];
      resources := resources - {id};
      if res.parent != 0 {
        if res.parent in resources {
          var parent := resources[res.parent];
          resources := resources[res.parent := parent.(children := parent.children - {id})];
        }
      }
    }

    /** Close of a tracked connection or listener. */
    method CloseWrapper(id: nat)
      requires Valid() && id in wrappers
      modifies this
      ensures Valid() && Model() == Step(matches, old(Model()), CloseOne(id))
      ensures SameSettings(old(Model()), Model()) && wrappers == old(wrappers) && Fewer(resources, old(resources), {id})
      ensures shut == if id in old(closedOnce) then old(shut) else old(shut) + [wrappers[id]]
    {
      hide Inv, CarriersInv;
      StepKeeps(matches, Model(), CloseOne(id));
      KeepsCarriers(matches, Model(), CloseOne(id));
      ClosedOneTracked(matches, Model(), id);
      if id !in closedOnce {
        closedOnce := closedOnce + {id};
        UnregisterResource(id);
        shut := shut + [wrappers[id]];
      }
    }

    // ----- Collecting what a mutation affects -----

    /** Lists a resource and, below it, everything not listed yet. */
    method CollectResourceTree(id: nat, closers: seq<nat>, seen: set<nat>, match_: Resource -> bool)
      returns (closers': seq<nat>, seen': set<nat>)
      requires Hereditary(resources, match_) && (id in resources ==> match_(resources[id]))
      requires seen <= resources.Keys && Lists(closers, seen)
      ensures seen <= seen' <= resources.Keys && Lists(closers', seen')
      ensures id in resources ==> id in seen'
      ensures forall x | x in seen' - seen :: match_(resources[x])
      decreases resources.Keys - seen, 1
    {
      if id in seen || id !in resources {
        return closers, seen;
      }
      closers', seen' := closers + [id], seen + {id};
      ListsMore(closers, seen, id);
      var todo := resources[id].children;
      while todo != {}
        invariant todo <= resources[id].children
        invariant seen + {id} <= seen' <= resources.Keys && Lists(closers', seen')
        invariant forall x | x in seen' - seen :: match_(resources[x])
        decreases todo
      {
        var child :| child in todo;
        todo := todo - {child};
        assert resources.Keys - seen' < resources.Keys - seen by {
          assert id in resources.Keys - seen && id !in resources.Keys - seen';
        }
        closers', seen' := CollectResourceTree(child, closers', seen', match_);
      }
    }

    /** Exactly the resources that are chosen, each once. */
    method CollectClosers(match_: Resource -> bool) returns (closers: seq<nat>)
      requires Hereditary(resources, match_)
      ensures Lists(closers, Chosen(resources, match_))
    {
      closers := [];
      var seen: set<nat> := {};
      var todo := resources.Keys;
      while todo != {}
        invariant todo <= resources.Keys && seen <= resources.Keys && Lists(closers, seen)
        invariant forall x | x in seen :: match_(resources[x])
        invariant forall x | x in resources.Keys - todo && match_(resources[x]) :: x in seen
        decreases todo
      {
        var id :| id in todo;
        todo := todo - {id};
        if !match_(resources[id]) {
          continue;
        }
        closers, seen := CollectResourceTree(id, closers, seen, match_);
      }
      assert seen == Chosen(resources, match_);
    }

    method CloseAll(closers: seq<nat>)
      requires Valid() && forall i | 0 <= i < |closers| :: closers[i] in wrappers
      modifies this
      ensures Valid() && Fewer(resources, old(resources), set x | x in closers) && SameSettings(old(Model()), Model())
      ensures closers == [] ==> Model() == old(Model())
    {
      hide Inv, CarriersInv, Step;
      for i := 0 to |closers|
        invariant Valid() && wrappers == old(wrappers) && Fewer(resources, old(resources), set x | x in closers[..i])
        invariant SameSettings(old(Model()), Model()) && (i == 0 ==> Model() == old(Model()))
      {
        CloseWrapper(closers[i]);
        assert closers[..i + 1] == closers[..i] + [closers[i]];
      }
      assert closers[..|closers|] == closers;
    }

    // ----- Mutators: the part under the lock, and then the closes -----

    method SetDefaultNetworkLocked(net: Option<Network>) returns (closers: seq<nat>)
      requires Valid()
      modifies this
      ensures Valid() && Model() == Step(matches, old(Model()), SetDefault(net)) && resources == old(resources)
      ensures Set() == if old(closed) then old(Set()) else old(Set()).(version := old(version) + 1, defaultNet := net)
      ensures Lists(closers, if old(closed) then {} else Chosen(resources, MappedBy(DEFAULT_MAPPING)))
      ensures forall x :: x in closers <==> !old(closed) && x in resources && resources[x].mapping == ""
      ensures forall x | x in closers :: x in wrappers
    {
      hide Inv, CarriersInv;
      StepKeeps(matches, Model(), SetDefault(net));
      KeepsCarriers(matches, Model(), SetDefault(net));
      ChildrenShareRoute(matches, Model());
      if closed {
        return [];
      }
      defaultNet := net;
      version := version + 1;
      closers := CollectClosers(MappedBy(DEFAULT_MAPPING));
      condemned := condemned + Chosen(resources, MappedBy(DEFAULT_MAPPING));
    }

    method MapNetworkLocked(pattern: string, net: Option<Network>) returns (closers: seq<nat>)
      requires Valid() && pattern != ""
      modifies this
      ensures Valid() && Model() == Step(matches, old(Model()), Map(pattern, net)) && resources == old(resources)
      ensures Set() == if old(closed) then old(Set())
                       else old(Set()).(version := old(version) + 1, mappings := old(mappings)[pattern := net])
      ensures Lists(closers, if old(closed) then {} else Chosen(resources, HostMatched(matches, pattern)))
      ensures forall x :: x in closers <==> !old(closed) && x in resources && matches(pattern, resources[x].host)
      ensures forall x | x in closers :: x in wrappers
    {
      hide Inv, CarriersInv;
      StepKeeps(matches, Model(), Map(pattern, net));
      KeepsCarriers(matches, Model(), Map(pattern, net));
      ChildrenShareRoute(matches, Model());
      if closed {
        return [];
      }
      mappings := mappings[pattern := net];
      version := version + 1;
      closers := CollectClosers(HostMatched(matches, pattern));
      condemned := condemned + Chosen(resources, HostMatched(matches, pattern));
    }

    method UnmapNetworkLocked(pattern: string) returns (closers: seq<nat>)
      requires Valid()
      modifies this
      ensures Valid() && Model() == Step(matches, old(Model()), Unmap(pattern)) && resources == old(resources)
      ensures Set() == if old(closed) || pattern !in old(mappings) then old(Set())
                       else old(Set()).(version := old(version) + 1, mappings := old(mappings) - {pattern})
      ensures Lists(closers, if old(closed) || pattern !in old(mappings) then {}
              else Chosen(resources, MappedBy(pattern)))
      ensures forall x :: x in closers <==>
                          !old(closed) && pattern in old(mappings) && x in resources && resources[x].mapping == pattern
      ensures forall x | x in closers :: x in wrappers
    {
      hide Inv, CarriersInv;
      StepKeeps(matches, Model(), Unmap(pattern));
      KeepsCarriers(matches, Model(), Unmap(pattern));
      ChildrenShareRoute(matches, Model());
      if closed || pattern !in mappings {
        return [];
      }
      mappings := mappings - {pattern};
      version := version + 1;
      closers := CollectClosers(MappedBy(pattern));
      condemned := condemned + Chosen(resources, MappedBy(pattern));
    }

    method CloseLocked() returns (closers: seq<nat>)
      requires Valid()
      modifies this
      ensures Valid() && Model() == Step(matches, old(Model()), CloseManager) && resources == old(resources)
      ensures Set() == if old(closed) then old(Set()) else old(Set()).(closed := true, version := old(version) + 1)
      ensures Lists(closers, if old(closed) then {} else Chosen(resources, Anything()))
      ensures forall x :: x in closers <==> !old(closed) && x in resources
      ensures forall x | x in closers :: x in wrappers
    {
      hide Inv, CarriersInv;
      StepKeeps(matches, Model(), CloseManager);
      KeepsCarriers(matches, Model(), CloseManager);
      ChildrenShareRoute(matches, Model());
      if closed {
        return [];
      }
      closed := true;
      version := version + 1;
      closers := CollectClosers(Anything());
      condemned := condemned + Chosen(resources, Anything());
    }

    /** Left to itself, a change of the default network leaves nothing on it. */
    method SetDefaultNetwork(net: Option<Network>)
      requires Valid()
      modifies this
      ensures Valid() && SameSettings(WithDefault(old(Model()), net), Model())
      ensures Set() == if old(closed) then old(Set()) else old(Set()).(version := old(version) + 1, defaultNet := net)
      ensures if old(closed) then Model() == old(Model())
              else Fewer(resources, old(resources), Chosen(old(resources), MappedBy(DEFAULT_MAPPING)))
      ensures !old(closed) ==> forall x :: x in resources <==> x in old(resources) && old(resources)[x].mapping != ""
    {
      hide Inv, CarriersInv;
      var closers := SetDefaultNetworkLocked(net);
      ListedSet(closers, if old(closed) then {} else Chosen(resources, MappedBy(DEFAULT_MAPPING)));
      CloseAll(closers);
    }

    /** Left to itself, a new mapping leaves no resource whose host it matches. */
    method MapNetwork(pattern: string, net: Option<Network>) returns (r: Result<()>)
      requires Valid()
      modifies this
      ensures Valid()
      ensures r == PatternError(old(closed), normalize(pattern))
      ensures r.Ok? ==> SameSettings(WithMapping(matches, old(Model()), normalize(pattern), net), Model())
      ensures r.Ok? ==>
                Set() == old(Set()).(version := old(version) + 1, mappings := old(mappings)[normalize(pattern) := net])
      ensures r.Ok? ==> Fewer(resources, old(resources),
              Chosen(old(resources), HostMatched(matches, normalize(pattern))))
      ensures r.Ok? ==>
                forall x :: x in resources <==>
                            x in old(resources) && !matches(normalize(pattern), old(resources)[x].host)
      ensures r.Err? ==> Model() == old(Model())
    {
      hide Inv, CarriersInv;
      var p := normalize(pattern);
      if p == "" || !wellFormed(p) {
        return Err(ErrInvalidPattern);
      }
      if closed {
        return Err(ErrClosed);
      }
      var closers := MapNetworkLocked(p, net);
      ListedSet(closers, Chosen(resources, HostMatched(matches, p)));
      CloseAll(closers);
      return Ok(());
    }

    /** Left to itself, removing a mapping leaves nothing that used it; without such a mapping nothing happens. */
    method UnmapNetwork(pattern: string) returns (r: Result<()>)
      requires Valid()
      modifies this
      ensures Valid()
      ensures r == PatternError(old(closed), normalize(pattern))
      ensures r.Ok? && normalize(pattern) in old(mappings) ==>
                && SameSettings(WithoutMapping(old(Model()), normalize(pattern)), Model())
                && Set() == old(Set()).(version := old(version) + 1, mappings := old(mappings) - {normalize(pattern)})
                && Fewer(resources, old(resources), Chosen(old(resources), MappedBy(normalize(pattern))))
                && forall x :: x in resources <==>
                               x in old(resources) && old(resources)[x].mapping != normalize(pattern)
      ensures r.Err? || normalize(pattern) !in old(mappings) ==> Model() == old(Model())
    {
      hide Inv, CarriersInv;
      var p := normalize(pattern);
      if p == "" || !wellFormed(p) {
        return Err(ErrInvalidPattern);
      }
      if closed {
        return Err(ErrClosed);
      }
      var closers := UnmapNetworkLocked(p);
      ListedSet(closers, if p !in old(mappings) then {} else Chosen(resources, MappedBy(p)));
      CloseAll(closers);
      return Ok(());
    }

    /** The answer to a change of the mappings: the pattern is looked at before the manager. */
    ghost function PatternError(wasClosed: bool, p: string): (r: Result<()>) {
      if p == "" || !wellFormed(p) then Err(ErrInvalidPattern) else if wasClosed then Err(ErrClosed) else Ok(())
    }

    /** Left to itself, Close leaves nothing tracked; on a closed manager nothing happens. */
    method Close()
      requires Valid()
      modifies this
      ensures Valid() && closed && SameSettings(Closed(old(Model())), Model())
      ensures Set() == if old(closed) then old(Set()) else old(Set()).(closed := true, version := old(version) + 1)
      ensures if old(closed) then Model() == old(Model()) else resources == map[]
    {
      hide Inv, CarriersInv;
      var closers := CloseLocked();
      ListedSet(closers, if old(closed) then {} else Chosen(resources, Anything()));
      CloseAll(closers);
    }
  }

  /** A new connection is tracked, on the listener's host and mapping, and the two link to each other. */
  ghost predicate Adopted(m: map<nat, Resource>, m': map<nat, Resource>, listener: nat, id: nat) {
    && listener in m && id !in m && m'.Keys == m.Keys + {id}
    && m'[id] == Resource(ConnKind, m[listener].host, m[listener].mapping, listener, {})
    && m'[listener] == m[listener].(children := m[listener].children + {id})
    && forall x | x in m && x != listener :: m'[x] == m[x]
  }

  /** Nothing has changed but what is tracked and what has been closed. */
  ghost predicate SameSettings(s: State, s': State) {
    && s'.closed == s.closed && s'.version == s.version && s'.nextID == s.nextID && s'.defaultNet == s.defaultNet
    && s'.transports == s.transports && s'.mappings == s.mappings && s'.history.condemned == s.history.condemned
  }

  lemma ListedSet(l: seq<nat>, ids: set<nat>)
    requires Lists(l, ids)
    ensures (set x | x in l) == ids
    ensures ids == {} ==> l == []
    ensures forall i | 0 <= i < |l| :: l[i] in ids
  {
    assert l != [] ==> l[0] in ids;
  }

  /** A tracked child is chosen with its parent by any choice made by host or mapping. */
  lemma ChildrenShareRoute(matches: Matcher, s: State)
    requires Inv(matches, s)
    ensures forall p, c | p in s.resources && c in s.resources[p].children :: c in s.resources
              && s.resources[c].host == s.resources[p].host && s.resources[c].mapping == s.resources[p].mapping
    ensures s.resources.Keys <= s.history.wrapped.Keys
  {
    forall p, c | p in s.resources && c in s.resources[p].children
      ensures c in s.resources && s.resources[c].host == s.resources[p].host
              && s.resources[c].mapping == s.resources[p].mapping
    {
      assert Linked(s, p);
      assert Linked(s, c);
    }
  }

  lemma DefaultIsNoPattern(matches: Matcher, s: State)
    requires Inv(matches, s)
    ensures DEFAULT_MAPPING !in s.mappings
  {
  }

  lemma KeepsCarriers(matches: Matcher, s: State, e: Event)
    requires Inv(matches, s) && CarriersInv(s)
    ensures CarriersInv(Step(matches, s, e))
  {
    InvIds(matches, s);
    StepKeepsCarriers(matches, s, e);
  }

  lemma OnNetwork(matches: Matcher, s: State, id: nat)
    requires Inv(matches, s) && id in s.resources
    ensures id in s.history.network && id <= s.nextID && s.nextID + 1 !in s.resources
  {
  }

  lemma ListsMore(l: seq<nat>, ids: set<nat>, x: nat)
    requires Lists(l, ids) && x !in ids
    ensures Lists(l + [x], ids + {x})
  {
    assert x in l + [x] by { assert (l + [x])[|l|] == x; }
    assert forall y | y in l :: y in l + [x];
  }

  /** What is left after some resources are closed: the others, with fewer children. */
  ghost predicate Fewer(m': map<nat, Resource>, m: map<nat, Resource>, gone: set<nat>) {
    m'.Keys == m.Keys - gone && forall x | x in m' :: m'[x].(children := {}) == m[x].(children := {})
  }

  lemma ClosedOneTracked(matches: Matcher, s: State, id: nat)
    requires Inv(matches, s) && id in s.history.wrapped
    ensures Fewer(ClosedOne(s, id).resources, s.resources, {id})
    ensures ClosedOne(s, id).history.condemned == s.history.condemned
  {
    if id in s.resources {
      UnlinkKeeps(s, id);
    }
  }
}
