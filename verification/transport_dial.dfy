/** The retry loop of Dial and Listen, while other callers of the manager do as they please. */
module TransportDial {
  import opened Bits
  import opened TransportSpec
  import opened TransportLaws
  import opened TransportManagers

  /** Steps of other callers: none of them handles one of our carriers. */
  ghost predicate Foreign(es: seq<Event>, mine: set<Carrier>) {
    forall i | 0 <= i < |es| :: ForeignStep(es[i], mine)
  }

  ghost predicate ForeignStep(e: Event, mine: set<Carrier>) {
    match e
    case Answer(c, _, _) => c !in mine
    case Commit(c) => c !in mine
    case Accept(_, c) => c !in mine
    case _ => true
  }

  /** What our call can rely on while others run. */
  ghost predicate Undisturbed(s: State, s': State, mine: set<Carrier>) {
    && s.version <= s'.version && (s.closed ==> s'.closed)
    && (s.version == s'.version ==> s.closed == s'.closed && s.transports == s'.transports)
    && s.history.snapshots <= s'.history.snapshots
    && (forall c | c in mine :: c in s.history.inFlight <==> c in s'.history.inFlight)
    && (forall c | c in mine :: Seen(s.history, c) <==> Seen(s'.history, c))
    && (forall c | c in mine && c in s.history.inFlight :: s'.history.inFlight[c] == s.history.inFlight[c])
    && (forall c | c in s.history.shut :: c in s'.history.shut)
  }

  lemma ForeignStepUndisturbed(matches: Matcher, s: State, e: Event, mine: set<Carrier>)
    requires ForeignStep(e, mine) && IdsInv(s)
    ensures Undisturbed(s, Step(matches, s, e), mine)
  {
    hide RoutesTo, Accepted, Committed, Seen;
    match e
    case Commit(x) => CommitUndisturbed(s, x, mine);
    case Answer(c, ss, kind) => AnswerUndisturbed(s, c, ss, kind, mine);
    case Accept(l, x) => AcceptUndisturbed(s, l, x, mine);
    case _ => SameSeen(s.history, Step(matches, s, e).history);
  }

  lemma SameSeen(h: History, h': History)
    requires h'.inFlight == h.inFlight && h'.wrapped == h.wrapped && h'.rejected == h.rejected
    ensures forall c :: Seen(h', c) <==> Seen(h, c)
  {
  }

  lemma AnswerUndisturbed(s: State, c: Carrier, ss: Snapshot, kind: Kind, mine: set<Carrier>)
    requires c !in mine
    ensures Undisturbed(s, TransportSpec.Answered(s, c, ss, kind), mine)
  {
  }

  lemma CommitUndisturbed(s: State, x: Carrier, mine: set<Carrier>)
    requires IdsInv(s) && x !in mine
    ensures Undisturbed(s, Committed(s, x), mine)
  {
    if Commits(s, x) {
      WrapUndisturbed(s.history, s.nextID + 1, x, s.history.inFlight[x].0.network, mine);
    }
  }

  lemma AcceptUndisturbed(s: State, l: nat, x: Carrier, mine: set<Carrier>)
    requires IdsInv(s) && x !in mine
    ensures Undisturbed(s, Accepted(s, l, x), mine)
  {
    if IsListener(s, l) && l in s.history.network {
      WrapUndisturbed(s.history, s.nextID + 1, x, s.history.network[l], mine);
    }
  }

  lemma WrapUndisturbed(h: History, id: nat, x: Carrier, network: Network, mine: set<Carrier>)
    requires id !in h.wrapped && x !in mine
    ensures forall c | c in mine :: Seen(h, c) <==> Seen(Wrap(h, id, x, network), c)
  {
    var h' := Wrap(h, id, x, network);
    forall c | c in mine
      ensures c in h.wrapped.Values <==> c in h'.wrapped.Values
    {
      if c in h.wrapped.Values {
        var i :| i in h.wrapped && h.wrapped[i] == c;
        assert h'.wrapped[i] == c;
      }
    }
  }

  lemma {:induction false} ForeignRunUndisturbed(matches: Matcher, s: State, es: seq<Event>, mine: set<Carrier>)
    requires Foreign(es, mine) && Inv(matches, s) && CarriersInv(s)
    ensures Undisturbed(s, Run(matches, s, es), mine)
    ensures Inv(matches, Run(matches, s, es)) && CarriersInv(Run(matches, s, es))
    decreases |es|
  {
    hide Inv, CarriersInv, Step;
    if es != [] {
      var s' := Step(matches, s, es[0]);
      InvIds(matches, s);
      ForeignStepUndisturbed(matches, s, es[0], mine);
      StepKeeps(matches, s, es[0]);
      KeepsCarriers(matches, s, es[0]);
      ForeignRunUndisturbed(matches, s', es[1..], mine);
      UndisturbedTwice(s, s', Run(matches, s', es[1..]), mine);
    }
  }

  lemma UndisturbedTwice(s: State, s': State, s'': State, mine: set<Carrier>)
    requires Undisturbed(s, s', mine) && Undisturbed(s', s'', mine)
    ensures Undisturbed(s, s'', mine)
  {
  }

  /** Other callers run: any steps of theirs may happen here. */
  method Others(m: Manager, ghost mine: set<Carrier>)
    requires m.Valid()
    modifies m
    ensures m.Valid() && exists es :: Foreign(es, mine) && m.Model() == Run(m.matches, old(m.Model()), es)
  {
    assert Foreign([], mine) && m.Model() == Run(m.matches, m.Model(), []);
  }

  method OthersRun(m: Manager, ghost mine: set<Carrier>)
    requires m.Valid()
    modifies m
    ensures m.Valid() && Undisturbed(old(m.Model()), m.Model(), mine)
  {
    ghost var s := m.Model();
    hide Inv, CarriersInv, Undisturbed;
    Others(m, mine);
    ghost var es :| Foreign(es, mine) && m.Model() == Run(m.matches, s, es);
    ForeignRunUndisturbed(m.matches, s, es, mine);
  }

  /** The transport has answered the call. */
  method Answered(m: Manager, c: Carrier, ss: Snapshot, kind: Kind)
    requires m.Valid() && ss in m.snapshots && !Seen(m.Model().history, c)
    modifies m`inFlight
    ensures m.Valid() && m.inFlight == old(m.inFlight)[c := (ss, kind)]
  {
    hide Inv, CarriersInv;
    StepKeeps(m.matches, m.Model(), Answer(c, ss, kind));
    KeepsCarriers(m.matches, m.Model(), Answer(c, ss, kind));
    m.inFlight := m.inFlight[c := (ss, kind)];
  }

  datatype Outcome = Connected(id: nat) | Failed(error: Error) | TransportFailed | Cancelled | StillTrying

  ghost function Carriers(answers: seq<Option<Carrier>>): set<Carrier> {
    set i | 0 <= i < |answers| && answers[i].Some? :: answers[i].value
  }

  /** Distinct carriers nobody has seen yet, from the `n`th answer on. */
  ghost predicate Unused(h: History, answers: seq<Option<Carrier>>, n: nat) {
    && (forall i | n <= i < |answers| && answers[i].Some? :: !Seen(h, answers[i].value))
    && (forall i, j | 0 <= i < j < |answers| && answers[i].Some? && answers[j].Some? ::
       answers[i].value != answers[j].value)
  }

  /** Carriers of the first `n` answers have all been closed. */
  ghost predicate AllShut(h: History, answers: seq<Option<Carrier>>, n: nat) {
    forall i | 0 <= i < n && i < |answers| && answers[i].Some? :: answers[i].value in h.shut
  }

  /** One round: snapshot, call the transport without the lock, commit. A carrier that cannot be committed is
      closed, and that happens only if the version has moved on. */
  method Attempt(m: Manager, scheme: string, host: string, kind: Kind, answer: Option<Carrier>,
      ghost others: set<Carrier>)
    returns (o: Outcome)
    requires m.Valid()
    requires answer.Some? ==> answer.value !in others && !Seen(m.Model().history, answer.value)
    modifies m
    ensures m.Valid() && Undisturbed(old(m.Model()), m.Model(), others)
    ensures o == StillTrying ==> answer.Some? && old(m.version) < m.version && answer.value in m.shut
    ensures o.Connected? ==> answer.Some? && Serves(m, o.id, answer.value, kind, host) && scheme in m.transports
    ensures o.Failed? ==> Explains(m, scheme, host, o.error)
    ensures o == TransportFailed ==> answer == None
    ensures o != Cancelled
  {
    hide Inv, CarriersInv, Step, Seen, Undisturbed;
    ghost var s0 := m.Model();
    ghost var all := others + (if answer.Some? then {answer.value} else {});
    var r := m.SnapshotFor(scheme, host);
    Snapped(m.matches, s0, m.Model(), r, all);
    Narrower(s0, m.Model(), all, others);
    if r.Err? {
      return Failed(r.error);
    }
    ghost var s1 := m.Model();
    OthersRun(m, all);
    ghost var s2 := m.Model();
    Narrower(s1, s2, all, others);
    UndisturbedTwice(s0, s1, s2, others);
    if answer == None {
      return TransportFailed;
    }
    StillThere(s0, s1, s2, r.value, answer.value, all);
    var id := AnswerAndCommit(m, r.value, kind, answer.value, others);
    UndisturbedTwice(s0, s2, m.Model(), others);
    UndisturbedTwice(s1, s2, m.Model(), others);
    if id == None {
      return StillTrying;
    }
    return Connected(id.value);
  }

  /** The part of a round after the transport has answered. */
  method AnswerAndCommit(m: Manager, ss: Snapshot, kind: Kind, c: Carrier, ghost others: set<Carrier>)
      returns (id: Option<nat>)
    requires m.Valid() && ss in m.snapshots && !Seen(m.Model().history, c) && c !in others
    requires ss.version <= m.version && (m.closed ==> ss.version < m.version)
    modifies m
    ensures m.Valid() && Undisturbed(old(m.Model()), m.Model(), others)
    ensures id == None ==> ss.version < m.version && c in m.shut
    ensures id.Some? ==> ss.version == m.version && Serves(m, id.value, c, kind, ss.host)
  {
    hide Inv, CarriersInv, Step, Seen, Undisturbed;
    ghost var s2 := m.Model();
    ghost var all := others + {c};
    Answered(m, c, ss, kind);
    ghost var s3 := m.Model();
    AnsweredUndisturbed(s2, s3, c, others);
    OthersRun(m, all);
    ghost var s4 := m.Model();
    Narrower(s3, s4, all, others);
    UndisturbedTwice(s2, s3, s4, others);
    AnswerStands(s2, s3, s4, ss, kind, c, all);
    id := m.CommitCarrier(ss, kind, c);
    InvIds(m.matches, s4);
    ForeignStepUndisturbed(m.matches, s4, Commit(c), others);
    UndisturbedTwice(s2, s4, m.Model(), others);
    if id == None {
      RetryMeansChange(m.matches, s4, m.Model(), ss, c);
    } else {
      FreshlyCommitted(m.matches, s4, c);
    }
  }

  /** The manager is open and tracks this carrier under the id, as what was asked for and for the host that was
      asked for, and that host is routed to the carrier's network now. */
  ghost predicate Serves(m: Manager, id: nat, c: Carrier, kind: Kind, host: string)
    reads m
  {
    && !m.closed && id in m.resources && id in m.wrappers && m.wrappers[id] == c
    && m.resources[id].kind == kind && m.resources[id].host == host && m.resources[id].parent == 0
    && WellRouted(m.matches, m.Model(), id)
  }

  /** The error is the reason why there is no snapshot for this scheme and host. */
  ghost predicate Explains(m: Manager, scheme: string, host: string, error: Error)
    reads m
  {
    if m.closed then error == ErrClosed
    else if scheme !in m.transports then error == ErrUnsupportedScheme
    else
      && error == ErrNoNetwork
      && exists p :: BestMatch(m.matches, m.mappings, host, p) && NetworkOf(m.Model(), p) == None
  }

  lemma Narrower(s: State, s': State, all: set<Carrier>, others: set<Carrier>)
    requires Undisturbed(s, s', all) && others <= all
    ensures Undisturbed(s, s', others)
  {
  }

  lemma Snapped(matches: Matcher, s: State, s': State, r: Result<Snapshot>, all: set<Carrier>)
    requires if r.Ok? then IsSnapshot(matches, s, r.value) && s' == Step(matches, s, Snap(r.value)) else s' == s
    ensures Undisturbed(s, s', all)
    ensures r.Ok? ==> r.value in s'.history.snapshots && r.value.version == s'.version == s.version && !s'.closed
  {
  }

  lemma StillThere(s0: State, s1: State, s2: State, ss: Snapshot, c: Carrier, all: set<Carrier>)
    requires Undisturbed(s0, s1, all) && Undisturbed(s1, s2, all) && c in all
    requires ss in s1.history.snapshots && !Seen(s0.history, c) && ss.version == s1.version && !s1.closed
    ensures ss in s2.history.snapshots && !Seen(s2.history, c)
    ensures ss.version <= s2.version && (s2.closed ==> ss.version < s2.version)
  {
  }

  lemma AnsweredUndisturbed(s: State, s': State, c: Carrier, others: set<Carrier>)
    requires s' == s.(history := s.history.(inFlight := s'.history.inFlight)) && c !in others
    requires s'.history.inFlight.Keys == s.history.inFlight.Keys + {c}
    requires forall x | x in s.history.inFlight && x != c :: s'.history.inFlight[x] == s.history.inFlight[x]
    ensures Undisturbed(s, s', others)
  {
  }

  lemma AnswerStands(s2: State, s3: State, s4: State, ss: Snapshot, kind: Kind, c: Carrier, all: set<Carrier>)
    requires c in all && Undisturbed(s3, s4, all)
    requires s3 == s2.(history := s2.history.(inFlight := s2.history.inFlight[c := (ss, kind)]))
    requires ss.version <= s2.version && (s2.closed ==> ss.version < s2.version)
    ensures c in s4.history.inFlight && s4.history.inFlight[c] == (ss, kind)
    ensures ss.version <= s4.version && (s4.closed ==> ss.version < s4.version)
  {
  }

  lemma RetryMeansChange(matches: Matcher, s4: State, s5: State, ss: Snapshot, c: Carrier)
    requires s5 == Step(matches, s4, Commit(c)) && c in s5.history.rejected && CarriersInv(s5)
    requires s4.closed || s4.version != ss.version
    requires ss.version <= s4.version && (s4.closed ==> ss.version < s4.version)
    ensures ss.version < s5.version && c in s5.history.shut
  {
  }

  lemma FreshlyCommitted(matches: Matcher, s: State, c: Carrier)
    requires Inv(matches, s) && Commits(s, c)
    ensures var s', (ss, kind) := Step(matches, s, Commit(c)), s.history.inFlight[c];
            && s'.nextID in s'.resources && !s'.closed && s'.version == ss.version
            && s'.resources[s'.nextID] == Resource(kind, ss.host, ss.mapping, 0, {})
            && WellRouted(matches, s', s'.nextID)
  {
    StepKeeps(matches, s, Commit(c));
  }

  /** Dial and Listen: try until a carrier could be committed, something failed or the caller gave up; here, for as
      many answers as the transport has. Every carrier handed over is returned or closed, and there are never
      more retries than changes to the manager during the call. */
  method Dial(m: Manager, scheme: string, host: string, kind: Kind, answers: seq<Option<Carrier>>, cancelled: seq<bool>)
    returns (o: Outcome, retries: nat, used: nat)
    requires m.Valid() && |cancelled| == |answers| && Unused(m.Model().history, answers, 0)
    modifies m
    ensures m.Valid() && used <= |answers| && used == retries + if o.Connected? then 1 else 0
    ensures old(m.version) + retries <= m.version
    ensures o.Connected? ==> answers[used - 1].Some? && Serves(m, o.id, answers[used - 1].value, kind, host)
    ensures o.Connected? ==> scheme in m.transports
    ensures o.Failed? ==> Explains(m, scheme, host, o.error)
    ensures forall i | 0 <= i < retries :: answers[i].Some? && answers[i].value in m.shut
    ensures forall i | 0 <= i < retries :: cancelled[i] <==> o == Cancelled && i == retries - 1
    ensures o == Cancelled ==> retries > 0
    ensures o == TransportFailed ==> used < |answers| && answers[used] == None
    ensures o == StillTrying ==> used == |answers|
  {
    hide Inv, CarriersInv, Seen;
    retries, used := 0, 0;
    while used < |answers|
      invariant m.Valid() && used <= |answers| && old(m.version) + retries <= m.version
      invariant used == retries && forall i | 0 <= i < retries :: !cancelled[i] && answers[i].Some?
      invariant Unused(m.Model().history, answers, used) && AllShut(m.Model().history, answers, used)
    {
      ghost var s := m.Model();
      OthersRun(m, Carriers(answers[used..]));
      StillUnused(s, m.Model(), answers, used);
      s := m.Model();
      ghost var others := Carriers(answers[used + 1..]);
      o := Attempt(m, scheme, host, kind, answers[used], others);
      OthersUnused(s, m.Model(), answers, used);
      if o.Connected? {
        used := used + 1;
        return;
      }
      if o != StillTrying {
        return;
      }
      retries := retries + 1;
      used := used + 1;
      if cancelled[used - 1] {
        return Cancelled, retries, used;
      }
    }
    return StillTrying, retries, used;
  }

  lemma StillUnused(s: State, s': State, answers: seq<Option<Carrier>>, n: nat)
    requires n <= |answers| && Unused(s.history, answers, n) && AllShut(s.history, answers, n)
    requires Undisturbed(s, s', Carriers(answers[n..]))
    ensures Unused(s'.history, answers, n) && AllShut(s'.history, answers, n)
  {
    forall i | n <= i < |answers| && answers[i].Some?
      ensures !Seen(s'.history, answers[i].value)
    {
      assert answers[n..][i - n] == answers[i];
    }
  }

  lemma OthersUnused(s: State, s': State, answers: seq<Option<Carrier>>, n: nat)
    requires n < |answers| && Unused(s.history, answers, n) && AllShut(s.history, answers, n)
    requires Undisturbed(s, s', Carriers(answers[n + 1..]))
    ensures Unused(s'.history, answers, n + 1) && AllShut(s'.history, answers, n)
    ensures answers[n].Some? ==> answers[n].value !in Carriers(answers[n + 1..])
  {
    forall i | n + 1 <= i < |answers| && answers[i].Some?
      ensures !Seen(s'.history, answers[i].value)
    {
      assert answers[n + 1..][i - n - 1] == answers[i];
    }
  }
}
