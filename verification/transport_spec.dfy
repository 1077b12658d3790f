/** The transport manager as a state machine. One step is one section under the lock, one close of one wrapped
    connection or listener, or one answer of a transport; steps of different callers interleave freely. */
module TransportSpec {
  import opened Bits

  type Network = nat
  type Carrier = nat

  const DEFAULT_MAPPING := ""

  datatype Kind = ConnKind | ListenerKind

  datatype Resource = Resource(kind: Kind, host: string, mapping: string, parent: nat, children: set<nat>)

  datatype Snapshot = Snapshot(version: nat, transport: nat, network: Network, mapping: string, host: string)

  datatype State = State(
    closed: bool,
    version: nat,
    nextID: nat,
    defaultNet: Option<Network>,
    transports: map<string, nat>,
    mappings: map<string, Option<Network>>,
    resources: map<nat, Resource>,
    history: History)

  /** What has happened, beyond what the manager itself remembers.
      `inFlight`: carriers returned by a transport and not yet committed or given up;
      `wrapped`: the carrier behind every resource id ever given out, and `network` the network it was made on;
      `done`: wrappers whose Close has run; `condemned`: ids that some mutator has put on its close list;
      `late`: connections accepted from a listener that was already on a close list;
      `rejected`: carriers closed without having been wrapped; `shut`: underlying closes, in order. */
  datatype History = History(
    snapshots: set<Snapshot>,
    inFlight: map<Carrier, (Snapshot, Kind)>,
    wrapped: map<nat, Carrier>,
    network: map<nat, Network>,
    done: set<nat>,
    condemned: set<nat>,
    late: set<nat>,
    rejected: set<Carrier>,
    shut: seq<Carrier>)

  function Init(defaultNet: Option<Network>): State {
    State(false, 0, 0, defaultNet, map[], map[], map[], History({}, map[], map[], map[], {}, {}, {}, {}, []))
  }

  // ----- Routing -----

  /** `path.Match`, which decides whether a pattern matches a host. */
  type Matcher = (string, string) -> bool

  predicate IsWildcard(c: char) {
    c == '*' || c == '?' || c == '[' || c == ']'
  }

  /** The number of literal characters, and of wildcard characters, of a pattern. */
  function Score(p: string): nat {
    if p == "" then 0 else Score(p[..|p| - 1]) + if IsWildcard(p[|p| - 1]) then 0 else 1
  }

  function Wildcards(p: string): nat {
    if p == "" then 0 else Wildcards(p[..|p| - 1]) + if IsWildcard(p[|p| - 1]) then 1 else 0
  }

  /** `p` is at least as specific as `q`: more literals, or as many and no more wildcards. */
  predicate AtLeastAsSpecific(p: string, q: string) {
    Score(p) > Score(q) || (Score(p) == Score(q) && Wildcards(p) <= Wildcards(q))
  }

  /** The mapping a host may be routed by: a most specific matching pattern, or the default if none matches. */
  ghost predicate BestMatch(matches: Matcher, mappings: map<string, Option<Network>>, host: string, mapping: string) {
    if mapping == DEFAULT_MAPPING then forall p | p in mappings :: !matches(p, host)
    else
      && mapping in mappings && matches(mapping, host)
      && forall p | p in mappings && matches(p, host) :: AtLeastAsSpecific(mapping, p)
  }

  function NetworkOf(s: State, mapping: string): Option<Network> {
    if mapping == DEFAULT_MAPPING then s.defaultNet
    else if mapping in s.mappings then s.mappings[mapping]
    else None
  }

  /** Routing by `mapping` leads to `network` now. */
  ghost predicate RoutesTo(matches: Matcher, s: State, host: string, mapping: string, network: Network) {
    BestMatch(matches, s.mappings, host, mapping) && NetworkOf(s, mapping) == Some(network)
  }

  /** The resource is on the network its host is routed to now. */
  ghost predicate WellRouted(matches: Matcher, s: State, id: nat)
    requires id in s.resources
  {
    && id in s.history.network
    && RoutesTo(matches, s, s.resources[id].host, s.resources[id].mapping, s.history.network[id])
  }

  // ----- Steps -----

  datatype Event =
    | SetDefault(network: Option<Network>)
    | Map(pattern: string, target: Option<Network>)
    | Unmap(pattern: string)
    | CloseManager
    | Register(schemes: seq<string>, transport: nat)
    | Unregister(scheme: string)
    | Snap(snapshot: Snapshot)
    | Answer(carrier: Carrier, basis: Snapshot, kind: Kind)
    | Commit(carrier: Carrier)
    | Accept(listener: nat, carrier: Carrier)
    | CloseOne(id: nat)

  /** What a mutation affects. */
  function MappedBy(mapping: string): Resource -> bool {
    (r: Resource) => r.mapping == mapping
  }

  function HostMatched(matches: Matcher, pattern: string): Resource -> bool {
    (r: Resource) => matches(pattern, r.host)
  }

  function Anything(): Resource -> bool {
    (_: Resource) => true
  }

  function Chosen(m: map<nat, Resource>, match_: Resource -> bool): set<nat> {
    set id | id in m && match_(m[id])
  }

  /** Puts the chosen resources on a close list. */
  function Condemn(s: State, match_: Resource -> bool): State {
    s.(history := s.history.(condemned := s.history.condemned + Chosen(s.resources, match_)))
  }

  function WithDefault(s: State, network: Option<Network>): State {
    if s.closed then s
    else Condemn(s.(defaultNet := network, version := s.version + 1), MappedBy(DEFAULT_MAPPING))
  }

  function WithMapping(matches: Matcher, s: State, pattern: string, network: Option<Network>): State {
    if s.closed || pattern == "" then s
    else Condemn(s.(mappings := s.mappings[pattern := network], version := s.version + 1),
        HostMatched(matches, pattern))
  }

  function WithoutMapping(s: State, pattern: string): State {
    if s.closed || pattern !in s.mappings then s
    else Condemn(s.(mappings := s.mappings - {pattern}, version := s.version + 1), MappedBy(pattern))
  }

  function Closed(s: State): State {
    if s.closed then s else Condemn(s.(closed := true, version := s.version + 1), Anything())
  }

  predicate CanRegister(s: State, schemes: seq<string>) {
    !s.closed && |schemes| > 0 && forall x | x in schemes :: x != "" && x !in s.transports
  }

  function AllTo(schemes: seq<string>, transport: nat): map<string, nat> {
    map x | x in schemes :: transport
  }

  function Registered(s: State, schemes: seq<string>, transport: nat): State {
    if CanRegister(s, schemes) then
      s.(transports := s.transports + AllTo(schemes, transport), version := s.version + 1)
    else s
  }

  function Unregistered(s: State, scheme: string): State {
    if s.closed || scheme !in s.transports then s
    else s.(transports := s.transports - {scheme}, version := s.version + 1)
  }

  /** A snapshot that routing could yield now. */
  ghost predicate IsSnapshot(matches: Matcher, s: State, ss: Snapshot) {
    && !s.closed && ss.version == s.version && ss.transport in s.transports.Values
    && RoutesTo(matches, s, ss.host, ss.mapping, ss.network)
  }

  predicate Seen(h: History, c: Carrier) {
    c in h.inFlight || c in h.wrapped.Values || c in h.rejected
  }

  ghost function Answered(s: State, c: Carrier, ss: Snapshot, kind: Kind): State {
    if ss in s.history.snapshots && !Seen(s.history, c) then
      s.(history := s.history.(inFlight := s.history.inFlight[c := (ss, kind)]))
    else s
  }

  function Reject(h: History, c: Carrier): History {
    h.(inFlight := h.inFlight - {c}, rejected := h.rejected + {c}, shut := h.shut + [c])
  }

  function Wrap(h: History, id: nat, c: Carrier, network: Network): History {
    h.(inFlight := h.inFlight - {c}, wrapped := h.wrapped[id := c], network := h.network[id := network])
  }

  /** Tracks the carrier if nothing has changed since its snapshot, and closes it otherwise. */
  function Committed(s: State, c: Carrier): State {
    if c !in s.history.inFlight then s
    else
      var (ss, kind) := s.history.inFlight[c];
      if s.closed || s.version != ss.version then s.(history := Reject(s.history, c))
      else
        var id := s.nextID + 1;
        s.(nextID := id,
           resources := s.resources[id := Resource(kind, ss.host, ss.mapping, 0, {})],
           history := Wrap(s.history, id, c, ss.network))
  }

  predicate IsListener(s: State, id: nat) {
    id in s.resources && s.resources[id].kind == ListenerKind
  }

  function AddChild(r: Resource, child: nat): Resource {
    r.(children := r.children + {child})
  }

  /** A connection arrives at a listener: tracked as its child, or closed if the listener is gone. */
  function Accepted(s: State, listener: nat, c: Carrier): State {
    if Seen(s.history, c) then s
    else if !IsListener(s, listener) || listener !in s.history.network then s.(history := Reject(s.history, c))
    else
      var id, r := s.nextID + 1, s.resources[listener];
      var h := Wrap(s.history, id, c, s.history.network[listener]);
      s.(nextID := id,
         resources := s.resources[id := Resource(ConnKind, r.host, r.mapping, listener, {})][listener := AddChild(r,
             id)],
         history := h.(late := if listener in h.condemned then h.late + {id} else h.late))
  }

  /** Forgets a resource, also in its parent. */
  function Unlink(m: map<nat, Resource>, id: nat): map<nat, Resource> {
    if id !in m then m
    else
      var p := m[id].parent;
      if p != 0 && p != id && p in m then (m - {id})[p := m[p].(children := m[p].children - {id})] else m - {id}
  }

  /** Close of one wrapper: the first forgets the resource and closes the carrier, later ones do nothing. */
  function ClosedOne(s: State, id: nat): State {
    if id in s.history.wrapped && id !in s.history.done then
      s.(resources := Unlink(s.resources, id),
         history := s.history.(done := s.history.done + {id}, shut := s.history.shut + [s.history.wrapped[id]]))
    else s
  }

  ghost function Step(matches: Matcher, s: State, e: Event): State {
    match e
    case SetDefault(network) => WithDefault(s, network)
    case Map(pattern, network) => WithMapping(matches, s, pattern, network)
    case Unmap(pattern) => WithoutMapping(s, pattern)
    case CloseManager => Closed(s)
    case Register(schemes, transport) => Registered(s, schemes, transport)
    case Unregister(scheme) => Unregistered(s, scheme)
    case Snap(ss) =>
      if IsSnapshot(matches, s, ss) then s.(history := s.history.(snapshots := s.history.snapshots + {ss})) else s
    case Answer(c, ss, kind) => Answered(s, c, ss, kind)
    case Commit(c) => Committed(s, c)
    case Accept(listener, c) => Accepted(s, listener, c)
    case CloseOne(id) => ClosedOne(s, id)
  }

  ghost function Run(matches: Matcher, s: State, es: seq<Event>): State
    decreases |es|
  {
    if es == [] then s else Run(matches, Step(matches, s, es[0]), es[1..])
  }
}
