/** The peer fetcher: the aggregate list it hands out, and the contributions it is made of. */
module AutoPeer {
  import opened Bits

  const BUILTIN := "BUILTIN"

  type Peer = nat
  type Source = string

  /** A network as an interface value: its dynamic type, whether that type can be compared, and its identity. */
  datatype Network = Network(typeId: nat, comparable: bool, value: nat)

  /** A slice as reflect.DeepEqual sees it: nil is not the empty slice. */
  datatype Slice = NilSlice | MadeSlice(peers: seq<Peer>)

  function Peers(x: Slice): seq<Peer> {
    if x == NilSlice then [] else x.peers
  }

  /** clonePeers: a clone of nothing is nil. */
  function Clone(ps: seq<Peer>): Slice {
    if |ps| == 0 then NilSlice else MadeSlice(ps)
  }

  /** The same network, as far as Go can tell. */
  predicate SameNetwork(a: Option<Network>, b: Option<Network>) {
    if a == None || b == None then a == b
    else a.value.typeId == b.value.typeId && a.value.comparable && a.value == b.value
  }

  /** `builtin` is the parsed built-in document, if it parses. */
  datatype State = State(
    builtin: Option<seq<Peer>>,
    defaultNetwork: Option<Network>,
    order: seq<Source>,
    networks: map<Source, Option<Network>>,
    stored: map<Source, seq<Peer>>,
    peers: Slice)

  function Init(builtin: Option<seq<Peer>>): State {
    State(builtin, None, [], map[], map[], NilSlice)
  }

  function Effective(s: State, source: Source): Option<Network> {
    if source == BUILTIN then None
    else if source in s.networks then s.networks[source]
    else s.defaultNetwork
  }

  // ----- The aggregate, said independently of how it is kept -----

  function Contribution(s: State, source: Source): seq<Peer> {
    if source in s.stored then s.stored[source] else []
  }

  /** The stored contributions in the order of the sources; a source listed twice contributes twice. */
  function Aggregate(s: State, order: seq<Source>): seq<Peer> {
    if order == [] then [] else Aggregate(s, order[..|order| - 1]) + Contribution(s, order[|order| - 1])
  }

  /** A source that may contribute now. */
  predicate MayContribute(s: State, source: Source) {
    source in s.order && (source == BUILTIN || Effective(s, source).Some?)
  }

  /** The list handed out is nil when there is nothing in it. */
  predicate CleanList(s: State) {
    s.peers == Clone(Peers(s.peers))
  }

  /** Between operations, the list handed out is the aggregate, only sources that may contribute do, and the
      built-in source contributes exactly its document. */
  ghost predicate Inv(s: State) {
    && Peers(s.peers) == Aggregate(s, s.order) && CleanList(s)
    && (forall x | x in s.stored :: MayContribute(s, x))
    && (BUILTIN in s.order && s.builtin.Some? ==> BUILTIN in s.stored)
    && (BUILTIN in s.stored ==> s.builtin == Some(s.stored[BUILTIN]))
  }

  // ----- Operations -----

  function Active(s: State): map<Source, seq<Peer>> {
    map x | x in s.stored && MayContribute(s, x) :: s.stored[x]
  }

  /** What reconcileLocked leaves of the contributions. */
  function Reconciled(s: State): map<Source, seq<Peer>> {
    if BUILTIN in s.order && s.builtin.Some? then Active(s)[BUILTIN := s.builtin.value] else Active(s) - {BUILTIN}
  }

  /** rebuildPeersLocked: the list is replaced unless it is deeply equal to the new, non-nil one. */
  function Rebuilt(s: State): State {
    var updated := Aggregate(s, s.order);
    if s.peers == MadeSlice(updated) then s else s.(peers := Clone(updated))
  }

  predicate Changed(s: State) {
    s.peers != MadeSlice(Aggregate(s, s.order))
  }

  function Reconcile(s: State): State {
    Rebuilt(s.(stored := Reconciled(s)))
  }

  datatype Event =
    | Start
    | SetDefaultNetwork(network: Option<Network>)
    | SetSourceNetwork(source: Source, override: Option<Network>)
    | RemoveSourceNetwork(source: Source)
    | SetSources(sources: seq<Source>)
    | AddSource(source: Source)
    | RemoveSource(source: Source)
    | Fetched(source: Source, via: Network, result: seq<Peer>)

  function FirstIndex(xs: seq<Source>, x: Source): (i: nat)
    ensures i <= |xs| && (i < |xs| <==> x in xs) && (i < |xs| ==> xs[i] == x)
    ensures forall j | 0 <= j < i :: xs[j] != x
  {
    if xs == [] || xs[0] == x then 0 else 1 + FirstIndex(xs[1..], x)
  }

  function RemoveFirst(xs: seq<Source>, x: Source): seq<Source> {
    var i := FirstIndex(xs, x);
    if i < |xs| then xs[..i] + xs[i + 1..] else xs
  }

  /** A fetch that began earlier over `via` comes back: it is merged only if its source is still listed and is
      still fetched over the same network; if the network has changed, what was stored is dropped too. */
  function Merge(s: State, source: Source, via: Network, result: seq<Peer>): State {
    if source !in s.order then s
    else if source != BUILTIN && !(Effective(s, source).Some? && SameNetwork(Effective(s, source), Some(via))) then
      Rebuilt(s.(stored := s.stored - {source}))
    else Rebuilt(s.(stored := s.stored[source := result]))
  }

  function Step(s: State, e: Event): State {
    match e
    case Start => Reconcile(s)
    case SetDefaultNetwork(network) => Reconcile(s.(defaultNetwork := network))
    case SetSourceNetwork(source, network) => Reconcile(s.(networks := s.networks[source := network]))
    case RemoveSourceNetwork(source) => Reconcile(s.(networks := s.networks - {source}))
    case SetSources(sources) => Reconcile(s.(order := sources))
    case AddSource(source) => Reconcile(if source in s.order then s else s.(order := s.order + [source]))
    case RemoveSource(source) => Reconcile(s.(order := RemoveFirst(s.order, source), networks := s.networks - {source}))
    case Fetched(source, via, result) => if source == BUILTIN then s else Merge(s, source, via, result)
  }

  function Run(s: State, es: seq<Event>): State
    decreases |es|
  {
    if es == [] then s else Run(Step(s, es[0]), es[1..])
  }

  // ----- What every operation keeps -----

  lemma {:induction false} AggregateReadsStored(s: State, s': State, order: seq<Source>)
    requires forall x | x in order :: Contribution(s, x) == Contribution(s', x)
    ensures Aggregate(s, order) == Aggregate(s', order)
  {
    if order != [] {
      AggregateReadsStored(s, s', order[..|order| - 1]);
    }
  }

  /** The aggregate follows the order of the sources... */
  lemma {:induction false} AggregateInOrder(s: State, xs: seq<Source>, ys: seq<Source>)
    ensures Aggregate(s, xs + ys) == Aggregate(s, xs) + Aggregate(s, ys)
    decreases |ys|
  {
    if ys == [] {
      assert xs + ys == xs;
    } else {
      var n := |ys| - 1;
      assert (xs + ys)[..|xs + ys| - 1] == xs + ys[..n] && (xs + ys)[|xs + ys| - 1] == ys[n];
      AggregateInOrder(s, xs, ys[..n]);
      hide Contribution;
    }
  }

  /** ... and each contributes what is stored for it. */
  lemma AggregateOfOne(s: State, x: Source)
    ensures Aggregate(s, [x]) == if x in s.stored then s.stored[x] else []
  {
    assert [x][..0] == [];
    assert Aggregate(s, [x][..0]) == [];
  }

  lemma RebuiltIsAggregate(s: State)
    ensures Peers(Rebuilt(s).peers) == Aggregate(Rebuilt(s), s.order) && (CleanList(s) ==> CleanList(Rebuilt(s)))
    ensures Rebuilt(s) == s.(peers := Rebuilt(s).peers)
  {
    AggregateReadsStored(s, Rebuilt(s), s.order);
  }

  lemma ReconcileEstablishes(s: State)
    requires CleanList(s)
    ensures Inv(Reconcile(s))
  {
    RebuiltIsAggregate(s.(stored := Reconciled(s)));
  }

  lemma MergeKeeps(s: State, source: Source, via: Network, result: seq<Peer>)
    requires Inv(s) && source != BUILTIN
    ensures Inv(Merge(s, source, via, result))
  {
    RebuiltIsAggregate(s.(stored := s.stored - {source}));
    RebuiltIsAggregate(s.(stored := s.stored[source := result]));
    hide Rebuilt, Aggregate;
  }

  lemma StepKeepsInv(s: State, e: Event)
    requires Inv(s)
    ensures Inv(Step(s, e))
  {
    hide Reconcile, Merge;
    assert CleanList(s);
    hide Inv;
    match e
    case Start => ReconcileEstablishes(s);
    case SetDefaultNetwork(network) => ReconcileEstablishes(s.(defaultNetwork := network));
    case SetSourceNetwork(source, network) => ReconcileEstablishes(s.(networks := s.networks[source := network]));
    case RemoveSourceNetwork(source) => ReconcileEstablishes(s.(networks := s.networks - {source}));
    case SetSources(sources) => ReconcileEstablishes(s.(order := sources));
    case AddSource(source) => ReconcileEstablishes(if source in s.order then s else s.(order := s.order + [source]));
    case RemoveSource(source) =>
      ReconcileEstablishes(s.(order := RemoveFirst(s.order, source), networks := s.networks - {source}));
    case Fetched(source, via, result) => if source != BUILTIN { MergeKeeps(s, source, via, result); }
  }

  lemma {:induction false} RunKeepsInv(s: State, es: seq<Event>)
    requires Inv(s)
    ensures Inv(Run(s, es))
    decreases |es|
  {
    if es != [] {
      StepKeepsInv(s, es[0]);
      RunKeepsInv(Step(s, es[0]), es[1..]);
    }
  }

  /** After any operations, the list handed out is what the sources contribute, in their order; whoever contributes is
      listed and is built in or has a network; and the built-in source contributes its document. */
  lemma AggregateInvariant(builtin: Option<seq<Peer>>, es: seq<Event>)
    ensures var s := Run(Init(builtin), es);
            && Peers(s.peers) == Aggregate(s, s.order)
            && (forall x | x in s.stored :: x in s.order && (x == BUILTIN || Effective(s, x).Some?))
            && (BUILTIN in s.order && builtin.Some? ==> BUILTIN in s.stored && s.stored[BUILTIN] == builtin.value)
  {
    RunKeepsBuiltin(Init(builtin), es);
    RunKeepsInv(Init(builtin), es);
  }

  lemma {:induction false} RunKeepsBuiltin(s: State, es: seq<Event>)
    ensures Run(s, es).builtin == s.builtin
    decreases |es|
  {
    if es != [] {
      StepKeepsBuiltin(s, es[0]);
      hide Step;
      RunKeepsBuiltin(Step(s, es[0]), es[1..]);
    }
  }

  lemma StepKeepsBuiltin(s: State, e: Event)
    ensures Step(s, e).builtin == s.builtin
  {
    hide Aggregate, Reconciled, Clone;
  }

  /** Every peer handed out comes from a listed source that may contribute now. */
  lemma {:induction false} PeerHasSource(s: State, order: seq<Source>, p: Peer)
    requires p in Aggregate(s, order)
    ensures exists x | x in order :: x in s.stored && p in s.stored[x]
  {
    var last := order[|order| - 1];
    if p !in Contribution(s, last) {
      PeerHasSource(s, order[..|order| - 1], p);
    }
  }

  /** An update reports a change exactly if the list changed, or if it is empty: nil is never deeply equal to the
      fresh empty list, so an empty aggregate is reported as a change every time. */
  lemma ChangeReports(s: State)
    requires CleanList(s)
    ensures Changed(s) <==> Peers(Rebuilt(s).peers) != Peers(s.peers) || Peers(Rebuilt(s).peers) == []
    ensures !Changed(s) ==> Rebuilt(s) == s
    ensures CleanList(Rebuilt(s))
  {
  }

  /** What becomes of a result that comes back: stored exactly if the source is still listed and fetched over the
      identical network, which has to be of a type that can be compared; otherwise a listed source is left
      with nothing, and an unlisted one untouched. */
  lemma MergeDecides(s: State, source: Source, via: Network, result: seq<Peer>)
    requires source != BUILTIN
    ensures var s' := Merge(s, source, via, result);
            && s'.(peers := s.peers, stored := s.stored) == s
            && s'.stored - {source} == s.stored - {source}
            && (if source !in s.order then s' == s
                else if Effective(s, source) == Some(via) && via.comparable then
                  source in s'.stored && s'.stored[source] == result
                else source !in s'.stored)
  {
  }

  /** A change of the configuration drops exactly the contributions that may not stay. */
  lemma ReconcileKeepsOthers(s: State, x: Source)
    requires x != BUILTIN
    ensures x in Reconcile(s).stored <==> x in s.stored && MayContribute(s, x)
    ensures x in Reconcile(s).stored ==> Reconcile(s).stored[x] == s.stored[x]
    ensures MayContribute(Reconcile(s), x) <==> MayContribute(s, x)
  {
  }

  // ----- Where a contribution comes from -----

  /** A result of `x` comes back while its source is listed and its network is still the one fetched over. */
  ghost predicate Lands(s: State, e: Event, x: Source, result: seq<Peer>) {
    && e.Fetched? && e.source == x && e.result == result
    && x in s.order && Effective(s, x) == Some(e.via) && e.via.comparable
  }

  /** A contribution landed in this step, or was there before, may stay, and no other result of its source came. */
  lemma StepStores(s: State, e: Event, x: Source, result: seq<Peer>)
    requires Inv(s) && x != BUILTIN
    ensures var s' := Step(s, e);
            (x in s'.stored && s'.stored[x] == result)
            <==> Lands(s, e, x, result)
                 || (x in s.stored && s.stored[x] == result && !(e.Fetched? && e.source == x) && MayContribute(s', x))
    ensures Lands(s, e, x, result) ==> MayContribute(Step(s, e), x)
  {
    hide Inv, Reconcile, Merge;
    match e
    case Start => ReconcileKeepsOthers(s, x);
    case SetDefaultNetwork(network) => ReconcileKeepsOthers(s.(defaultNetwork := network), x);
    case SetSourceNetwork(source, network) => ReconcileKeepsOthers(s.(networks := s.networks[source := network]), x);
    case RemoveSourceNetwork(source) => ReconcileKeepsOthers(s.(networks := s.networks - {source}), x);
    case SetSources(sources) => ReconcileKeepsOthers(s.(order := sources), x);
    case AddSource(source) => ReconcileKeepsOthers(if source in s.order then s else s.(order := s.order + [source]), x);
    case RemoveSource(source) =>
      ReconcileKeepsOthers(s.(order := RemoveFirst(s.order, source), networks := s.networks - {source}), x);
    case Fetched(source, via, list) =>
      if source == BUILTIN {
        StoredMay(s, x);
      } else {
        MergeStores(s, source, via, list, x, result);
      }
  }

  lemma StoredMay(s: State, x: Source)
    requires Inv(s)
    ensures x in s.stored ==> MayContribute(s, x)
  {
  }

  lemma MergeStores(s: State, source: Source, via: Network, list: seq<Peer>, x: Source, result: seq<Peer>)
    requires Inv(s) && x != BUILTIN && source != BUILTIN
    ensures var s' := Merge(s, source, via, list);
            (x in s'.stored && s'.stored[x] == result)
            <==> Lands(s, Fetched(source, via, list), x, result)
                 || (x in s.stored && s.stored[x] == result && source != x && MayContribute(s', x))
    ensures MayContribute(Merge(s, source, via, list), x) <==> MayContribute(s, x)
  {
    StoredMay(s, x);
    MergeDecides(s, source, via, list);
    hide Inv, Merge;
    assert x != source ==> (x in s.stored <==> x in s.stored - {source});
  }

  lemma {:induction false} RunAppend(s: State, es: seq<Event>, e: Event)
    ensures Run(s, es + [e]) == Step(Run(s, es), e)
    decreases |es|
  {
    hide Step;
    if es == [] {
      assert [e][1..] == [];
      assert es + [e] == [e];
    } else {
      assert (es + [e])[1..] == es[1..] + [e];
      RunAppend(Step(s, es[0]), es[1..], e);
    }
  }

  /** After the operation numbered `j`, which brought no other result of `x`, it may contribute. */
  ghost predicate Stays(s: State, es: seq<Event>, j: nat, x: Source)
    requires j < |es|
  {
    !(es[j].Fetched? && es[j].source == x) && MayContribute(Run(s, es[..j + 1]), x)
  }

  /** The operation numbered `i` brought `x` the contribution that it has had ever since. */
  ghost predicate ComesFrom(s: State, es: seq<Event>, i: nat, x: Source, result: seq<Peer>) {
    && i < |es| && Lands(Run(s, es[..i]), es[i], x, result)
    && forall j | i < j < |es| :: Stays(s, es, j, x)
  }

  /** Exactly: a fetched source contributes a list if and only if that list came back while the source was listed
      and over the network it is fetched over, and since then the source could contribute at every moment and
      no other result of it came back. A stale result is never merged, and nothing else drops a contribution. */
  lemma {:induction false} StoredExactly(s: State, es: seq<Event>, x: Source, result: seq<Peer>)
    requires Inv(s) && x != BUILTIN && x !in s.stored
    ensures (x in Run(s, es).stored && Run(s, es).stored[x] == result)
       <==> exists i: nat :: ComesFrom(s, es, i, x, result)
    decreases |es|
  {
    hide Inv, Step, Lands, MayContribute;
    if es != [] {
      var n, t, e := |es| - 1, Run(s, es[..|es| - 1]), es[|es| - 1];
      assert es == es[..n] + [e] && es[..n + 1] == es;
      RunKeepsInv(s, es[..n]);
      RunAppend(s, es[..n], e);
      StepStores(t, e, x, result);
      StoredExactly(s, es[..n], x, result);
      hide Run;
      assert Lands(t, e, x, result) <==> ComesFrom(s, es, n, x, result);
      forall i: nat | i < n
        ensures ComesFrom(s, es, i, x, result) <==> ComesFrom(s, es[..n], i, x, result) && Stays(s, es, n, x)
      {
        ComesFromAppend(s, es, i, x, result);
      }
    }
  }

  lemma ComesFromAppend(s: State, es: seq<Event>, i: nat, x: Source, result: seq<Peer>)
    requires i < |es| - 1
    ensures var n := |es| - 1;
            ComesFrom(s, es, i, x, result) <==> ComesFrom(s, es[..n], i, x, result) && Stays(s, es, n, x)
  {
    var n := |es| - 1;
    assert es[..n][..i] == es[..i];
    forall j | i < j < n
      ensures Stays(s, es, j, x) <==> Stays(s, es[..n], j, x)
    {
      assert es[..n][..j + 1] == es[..j + 1];
    }
    hide Run, Lands, Stays;
  }

  /** Every peer handed out is in the built-in document, or in a result that landed and has stayed. */
  lemma PeerComesFrom(builtin: Option<seq<Peer>>, es: seq<Event>, p: Peer)
    requires p in Peers(Run(Init(builtin), es).peers)
    ensures || (builtin.Some? && p in builtin.value && BUILTIN in Run(Init(builtin), es).order)
            || exists i: nat, x :: i < |es| && es[i].Fetched? && p in es[i].result
                && ComesFrom(Init(builtin), es, i, x, es[i].result)
  {
    hide Inv, Run, Aggregate, Lands, Stays, Init;
    var s := Run(Init(builtin), es);
    var x := PeerHolder(builtin, es, p);
    if x != BUILTIN {
      InitClean(builtin);
      StoredExactly(Init(builtin), es, x, s.stored[x]);
      var i: nat :| ComesFrom(Init(builtin), es, i, x, s.stored[x]);
      ComesFromResult(Init(builtin), es, i, x, s.stored[x]);
    }
  }

  lemma InitClean(builtin: Option<seq<Peer>>)
    ensures Inv(Init(builtin)) && Init(builtin).stored == map[]
  {
  }

  lemma ComesFromResult(s: State, es: seq<Event>, i: nat, x: Source, result: seq<Peer>)
    requires ComesFrom(s, es, i, x, result)
    ensures i < |es| && es[i].Fetched? && es[i].result == result
  {
    hide Run, Stays;
  }

  lemma PeerHolder(builtin: Option<seq<Peer>>, es: seq<Event>, p: Peer) returns (x: Source)
    requires p in Peers(Run(Init(builtin), es).peers)
    ensures var s := Run(Init(builtin), es);
            x in s.order && x in s.stored && p in s.stored[x] && (x == BUILTIN ==> builtin == Some(s.stored[x]))
  {
    var s := Run(Init(builtin), es);
    InitClean(builtin);
    RunKeepsInv(Init(builtin), es);
    RunKeepsBuiltin(Init(builtin), es);
    hide Run, Aggregate;
    PeerHasSource(s, s.order, p);
    x :| x in s.order && x in s.stored && p in s.stored[x];
  }

  /** An operation reports a change exactly if the list has changed or is empty, and otherwise leaves it as it was. */
  predicate Reports(changed: bool, before: Slice, after: Slice) {
    (changed <==> Peers(after) != Peers(before) || Peers(after) == []) && (!changed ==> after == before)
  }

  /** The list has lost the first place of a source that it had, and nothing else. */
  ghost predicate WithoutFirst(before: seq<Source>, after: seq<Source>, x: Source) {
    if x !in before then after == before
    else exists i | 0 <= i < |before| :: before[i] == x && x !in before[..i] && after == before[..i] + before[i + 1..]
  }

  lemma RemovesFirst(xs: seq<Source>, x: Source)
    ensures WithoutFirst(xs, RemoveFirst(xs, x), x)
  {
    var i := FirstIndex(xs, x);
    if i < |xs| {
      assert x !in xs[..i];
    }
  }

  class Fetcher {
    const builtin: Option<seq<Peer>>
    var defaultNetwork: Option<Network>
    var sourceOrder: seq<Source>
    var sourceNetworks: map<Source, Option<Network>>
    var sourcePeers: map<Source, seq<Peer>>
    var peers: Slice

    ghost function Model(): State
      reads this
    {
      State(builtin, defaultNetwork, sourceOrder, sourceNetworks, sourcePeers, peers)
    }

    constructor (builtin: Option<seq<Peer>>)
      ensures Model() == Init(builtin) && Inv(Model())
    {
      this.builtin, defaultNetwork := builtin, None;
      sourceOrder, sourceNetworks, sourcePeers, peers := [], map[], map[], NilSlice;
    }

    method NetworkForSource(source: Source) returns (network: Option<Network>)
      ensures network == Effective(Model(), source)
      ensures source == "BUILTIN" ==> network == None
      ensures source != "BUILTIN" ==>
                network == if source in sourceNetworks then sourceNetworks[source] else defaultNetwork
    {
      if source == BUILTIN {
        return None;
      }
      if source in sourceNetworks {
        return sourceNetworks[source];
      }
      return defaultNetwork;
    }

    method RebuildPeers() returns (changed: bool)
      modifies this`peers
      ensures Model() == Rebuilt(old(Model())) && changed == Changed(old(Model()))
    {
      var updated: seq<Peer> := [];
      for i := 0 to |sourceOrder|
        invariant updated == Aggregate(Model(), sourceOrder[..i])
      {
        assert sourceOrder[..i + 1][..i] == sourceOrder[..i];
        updated := updated + if sourceOrder[i] in sourcePeers then sourcePeers[sourceOrder[i]] else [];
      }
      assert sourceOrder[..|sourceOrder|] == sourceOrder;
      if peers == MadeSlice(updated) {
        return false;
      }
      peers := Clone(updated);
      return true;
    }

    /** Drops what may no longer contribute, refreshes the built-in source, and rebuilds the list. */
    method ReconcileLocked() returns (changed: bool)
      requires CleanList(Model())
      modifies this`sourcePeers, this`peers
      ensures Inv(Model()) && Model() == Reconcile(old(Model()))
      ensures Reports(changed, old(peers), peers)
    {
      ReconcileEstablishes(Model());
      hide Inv, Active, Aggregate, Clone;
      DropInactive();
      RefreshBuiltin();
      assert sourcePeers == Reconciled(old(Model()));
      hide Reconciled;
      ghost var s := Model();
      changed := RebuildPeers();
      ChangeReports(s);
    }

    method RefreshBuiltin()
      modifies this`sourcePeers
      ensures sourcePeers == if BUILTIN in sourceOrder && builtin.Some? then old(sourcePeers)[BUILTIN := builtin.value]
                             else old(sourcePeers) - {BUILTIN}
    {
      if BUILTIN in sourceOrder {
        if builtin == None {
          sourcePeers := sourcePeers - {BUILTIN};
        } else {
          sourcePeers := sourcePeers[BUILTIN := builtin.value];
        }
      } else {
        sourcePeers := sourcePeers - {BUILTIN};
      }
    }

    method DropInactive()
      modifies this`sourcePeers
      ensures sourcePeers == Active(old(Model()))
    {
      ghost var s := Model();
      var todo := sourcePeers.Keys;
      while todo != {}
        invariant todo <= old(sourcePeers).Keys && Model() == s.(stored := sourcePeers)
        invariant forall x | x in sourcePeers :: x in old(sourcePeers) && sourcePeers[x] == old(sourcePeers)[x]
        invariant forall x | x in old(sourcePeers) ::
                    x in sourcePeers <==> x in todo || (x in sourceOrder && (x == BUILTIN || Effective(s, x).Some?))
        decreases todo
      {
        var source :| source in todo;
        todo := todo - {source};
        if source !in sourceOrder {
          sourcePeers := sourcePeers - {source};
          continue;
        }
        if source == BUILTIN {
          continue;
        }
        var network := NetworkForSource(source);
        if network == None {
          sourcePeers := sourcePeers - {source};
        }
      }
    }

    method SetDefaultNetwork(network: Option<Network>) returns (changed: bool)
      requires Inv(Model())
      modifies this
      ensures Inv(Model()) && Model() == Step(old(Model()), Event.SetDefaultNetwork(network))
      ensures defaultNetwork == network && sourceOrder == old(sourceOrder) && sourceNetworks == old(sourceNetworks)
      ensures Reports(changed, old(peers), peers)
    {
      defaultNetwork := network;
      changed := ReconcileLocked();
    }

    method SetSourceNetwork(source: Source, network: Option<Network>) returns (changed: bool)
      requires Inv(Model())
      modifies this
      ensures Inv(Model()) && Model() == Step(old(Model()), Event.SetSourceNetwork(source, network))
      ensures sourceNetworks == old(sourceNetworks)[source := network]
      ensures sourceOrder == old(sourceOrder) && defaultNetwork == old(defaultNetwork)
      ensures Reports(changed, old(peers), peers)
    {
      sourceNetworks := sourceNetworks[source := network];
      changed := ReconcileLocked();
    }

    method RemoveSourceNetwork(source: Source) returns (changed: bool)
      requires Inv(Model())
      modifies this
      ensures Inv(Model()) && Model() == Step(old(Model()), Event.RemoveSourceNetwork(source))
      ensures sourceNetworks == old(sourceNetworks) - {source}
      ensures sourceOrder == old(sourceOrder) && defaultNetwork == old(defaultNetwork)
      ensures Reports(changed, old(peers), peers)
    {
      sourceNetworks := sourceNetworks - {source};
      changed := ReconcileLocked();
    }

    method SetSources(sources: seq<Source>) returns (changed: bool)
      requires Inv(Model())
      modifies this
      ensures Inv(Model()) && Model() == Step(old(Model()), Event.SetSources(sources))
      ensures sourceOrder == sources && sourceNetworks == old(sourceNetworks) && defaultNetwork == old(defaultNetwork)
      ensures Reports(changed, old(peers), peers)
    {
      sourceOrder := sources;
      changed := ReconcileLocked();
    }

    method AddSource(source: Source) returns (changed: bool)
      requires Inv(Model())
      modifies this
      ensures Inv(Model()) && Model() == Step(old(Model()), Event.AddSource(source))
      ensures sourceOrder == old(sourceOrder) + if source in old(sourceOrder) then [] else [source]
      ensures sourceNetworks == old(sourceNetworks) && defaultNetwork == old(defaultNetwork)
      ensures Reports(changed, old(peers), peers)
    {
      if source !in sourceOrder {
        sourceOrder := sourceOrder + [source];
      }
      changed := ReconcileLocked();
    }

    method RemoveSource(source: Source) returns (changed: bool)
      requires Inv(Model())
      modifies this
      ensures Inv(Model()) && Model() == Step(old(Model()), Event.RemoveSource(source))
      ensures WithoutFirst(old(sourceOrder), sourceOrder, source)
      ensures sourceNetworks == old(sourceNetworks) - {source} && defaultNetwork == old(defaultNetwork)
      ensures Reports(changed, old(peers), peers)
    {
      assert CleanList(Model());
      hide WithoutFirst, RemoveFirst, Reports, Inv, Reconcile;
      DropFirst(source);
      sourceNetworks := sourceNetworks - {source};
      changed := ReconcileLocked();
    }

    method DropFirst(source: Source)
      modifies this`sourceOrder
      ensures sourceOrder == RemoveFirst(old(sourceOrder), source)
      ensures WithoutFirst(old(sourceOrder), sourceOrder, source)
    {
      hide WithoutFirst;
      RemovesFirst(sourceOrder, source);
      var idx := FirstIndex(sourceOrder, source);
      if idx < |sourceOrder| {
        sourceOrder := sourceOrder[..idx] + sourceOrder[idx + 1..];
      }
    }

    /** A fetch comes back. */
    method ReplaceSourcePeers(source: Source, via: Network, result: seq<Peer>) returns (changed: bool)
      requires Inv(Model()) && source != BUILTIN
      modifies this`sourcePeers, this`peers
      ensures Inv(Model()) && Model() == Step(old(Model()), Fetched(source, via, result))
      ensures if source in sourceOrder then Reports(changed, old(peers), peers) else !changed
    {
      assert CleanList(Model());
      hide Inv;
      MergeKeeps(Model(), source, via, result);
      if source !in sourceOrder {
        return false;
      }
      var network := NetworkForSource(source);
      if network == None || !SameNetwork(network, Some(via)) {
        sourcePeers := sourcePeers - {source};
      } else {
        sourcePeers := sourcePeers[source := result];
      }
      hide Aggregate;
      ghost var s := Model();
      changed := RebuildPeers();
      ChangeReports(s);
    }
  }
}
