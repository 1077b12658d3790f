/** What callers of the transport manager may rely on, from the start and in every interleaving. */
module TransportTheorems {
  import opened Bits
  import opened TransportSpec
  import opened TransportLaws

  lemma StartInv(matches: Matcher, defaultNet: Option<Network>)
    ensures Inv(matches, Init(defaultNet)) && CarriersInv(Init(defaultNet))
  {
  }

  // ----- No resource survives on the wrong network -----

  /** A dialed connection or a listener that is not on a close list is on the network its host is routed to now. */
  lemma DialedOnRightNetwork(matches: Matcher, defaultNet: Option<Network>, es: seq<Event>, id: nat)
    requires var s := Run(matches, Init(defaultNet), es);
             id in s.resources && s.resources[id].parent == 0 && id !in s.history.condemned
    ensures WellRouted(matches, Run(matches, Init(defaultNet), es), id)
  {
    StartInv(matches, defaultNet);
    RunKeeps(matches, Init(defaultNet), es);
  }

  // Accepted connections, exactly.

  /** A connection arrives at a tracked listener whose host is no longer routed to the listener's network. */
  ghost predicate StrayAccept(matches: Matcher, s: State, e: Event) {
    && e.Accept? && IsListener(s, e.listener) && !Seen(s.history, e.carrier)
    && !WellRouted(matches, s, e.listener)
  }

  /** The ids given to such connections in a run. */
  ghost function Strays(matches: Matcher, s: State, es: seq<Event>): set<nat> {
    set i | 0 <= i < |es| && StrayAccept(matches, Run(matches, s, es[..i]), es[i]) ::
        Run(matches, s, es[..i]).nextID + 1
  }

  /** Whatever is tracked and not on a close list is on the network its host is routed to. */
  ghost predicate RoutedAll(matches: Matcher, s: State) {
    forall id | id in s.resources && id !in s.history.condemned :: WellRouted(matches, s, id)
  }

  function WithLate(s: State, late: set<nat>): State {
    s.(history := s.history.(late := late))
  }

  lemma {:induction false} RunAppend(matches: Matcher, s: State, es: seq<Event>, e: Event)
    ensures Run(matches, s, es + [e]) == Step(matches, Run(matches, s, es), e)
    decreases |es|
  {
    hide Step;
    if es == [] {
      assert [e][1..] == [];
      assert es + [e] == [e];
    } else {
      assert (es + [e])[1..] == es[1..] + [e];
      RunAppend(matches, Step(matches, s, es[0]), es[1..], e);
    }
  }

  /** No step looks at who came late. */
  lemma LateIsNotRead(matches: Matcher, s: State, late: set<nat>, e: Event)
    ensures var s', t' := Step(matches, s, e), Step(matches, WithLate(s, late), e);
            && t' == WithLate(s', t'.history.late)
            && t'.history.late == if e.Accept? && IsListener(s, e.listener) && !Seen(s.history, e.carrier)
                                     && e.listener in s.history.network && e.listener in s.history.condemned
                                  then late + {s.nextID + 1} else late
  {
    match e
    case Accept(l, c) => AcceptedLate(s, late, l, c);
    case Snap(_) | Answer(_, _, _) | Commit(_) | CloseOne(_) => CallersIgnoreLate(matches, s, late, e);
    case _ => MutatorsIgnoreLate(matches, s, late, e);
  }

  lemma CallersIgnoreLate(matches: Matcher, s: State, late: set<nat>, e: Event)
    requires e.Snap? || e.Answer? || e.Commit? || e.CloseOne?
    ensures Step(matches, WithLate(s, late), e) == WithLate(Step(matches, s, e), late)
  {
    match e
    case Snap(ss) => hide BestMatch;
    case _ => hide RoutesTo, Unlink;
  }

  lemma MutatorsIgnoreLate(matches: Matcher, s: State, late: set<nat>, e: Event)
    requires !(e.Snap? || e.Answer? || e.Commit? || e.Accept? || e.CloseOne?)
    ensures Step(matches, WithLate(s, late), e) == WithLate(Step(matches, s, e), late)
  {
    hide Chosen, AllTo;
  }

  lemma AcceptedLate(s: State, late: set<nat>, l: nat, c: Carrier)
    ensures var s', t' := Accepted(s, l, c), Accepted(WithLate(s, late), l, c);
            && t' == WithLate(s', t'.history.late)
            && t'.history.late == if IsListener(s, l) && !Seen(s.history, c)
                                     && l in s.history.network && l in s.history.condemned
                                  then late + {s.nextID + 1} else late
  {
  }

  /** If everything but some ids is on the right network, then after one more step everything is but those ids
      and a connection that strays in that step. */
  lemma StepKeepsExcept(matches: Matcher, s: State, e: Event, late: set<nat>)
    requires Inv(matches, s) && Inv(matches, WithLate(s, late))
    ensures var strays := if StrayAccept(matches, s, e) then {s.nextID + 1} else {};
            Inv(matches, WithLate(Step(matches, s, e), late + strays))
  {
    var t := WithLate(s, late);
    StepKeeps(matches, t, e);
    LateIsNotRead(matches, s, late, e);
    assert e.Accept? ==> Step(matches, s, e) == Accepted(s, e.listener, e.carrier);
    hide Step;
    if e.Accept? && IsListener(s, e.listener) && !Seen(s.history, e.carrier) {
      AcceptKeepsExcept(matches, s, e.listener, e.carrier, late);
    } else {
      assert late + {} == late;
    }
  }

  lemma AcceptKeepsExcept(matches: Matcher, s: State, listener: nat, c: Carrier, late: set<nat>)
    requires Inv(matches, s) && Inv(matches, WithLate(s, late)) && IsListener(s, listener) && !Seen(s.history, c)
    ensures Inv(matches, WithLate(Accepted(s, listener, c),
                                  late + if WellRouted(matches, s, listener) then {} else {s.nextID + 1}))
  {
    hide Inv, Accepted, WellRouted, Seen;
    var t' := Accepted(WithLate(s, late), listener, c);
    RoutedLikeListener(matches, s, listener, c, late);
    AcceptedKeeps(matches, WithLate(s, late), listener, c);
    AcceptedLate(s, late, listener, c);
    assert WithLate(t', late) == WithLate(Accepted(s, listener, c), late);
    assert late + {} == late;
    hide *;
    if WellRouted(matches, s, listener) && listener in s.history.condemned {
      NoLongerLate(matches, t', late, s.nextID + 1);
    }
  }

  lemma RoutedLikeListener(matches: Matcher, s: State, listener: nat, c: Carrier, late: set<nat>)
    requires Inv(matches, WithLate(s, late)) && IsListener(s, listener) && !Seen(s.history, c)
    ensures var t' := Accepted(WithLate(s, late), listener, c);
            && s.nextID + 1 in t'.resources
            && (WellRouted(matches, t', s.nextID + 1) <==> WellRouted(matches, s, listener))
    ensures listener in s.history.network && (listener !in s.history.condemned ==> WellRouted(matches, s, listener))
  {
    AcceptedRoutedLikeListener(matches, WithLate(s, late), listener, c);
  }

  lemma NoLongerLate(matches: Matcher, s: State, late: set<nat>, id: nat)
    requires Inv(matches, s) && id in s.resources && WellRouted(matches, s, id) && s.history.late <= late + {id}
             && late <= s.history.late
    ensures Inv(matches, WithLate(s, late))
  {
    var s' := WithLate(s, late);
    CondemnKeepsForest(s, s');
  }

  lemma {:induction false} RunKeepsExcept(matches: Matcher, s: State, es: seq<Event>)
    requires Inv(matches, s) && s.history.late == {}
    ensures Inv(matches, Run(matches, s, es)) && Inv(matches, WithLate(Run(matches, s, es), Strays(matches, s, es)))
    decreases |es|
  {
    hide Inv, Step, StrayAccept;
    if es == [] {
      assert WithLate(s, {}) == s && Strays(matches, s, es) == {};
    } else {
      var n := |es| - 1;
      assert es == es[..n] + [es[n]];
      RunKeepsExcept(matches, s, es[..n]);
      RunAppend(matches, s, es[..n], es[n]);
      StepKeeps(matches, Run(matches, s, es[..n]), es[n]);
      StepKeepsExcept(matches, Run(matches, s, es[..n]), es[n], Strays(matches, s, es[..n]));
      StraysAppend(matches, s, es);
    }
  }

  lemma StraysAppend(matches: Matcher, s: State, es: seq<Event>)
    requires es != []
    ensures var n := |es| - 1;
            var t := Run(matches, s, es[..n]);
            Strays(matches, s, es) ==
              Strays(matches, s, es[..n]) + if StrayAccept(matches, t, es[n]) then {t.nextID + 1} else {}
  {
    hide Run, StrayAccept;
    var n := |es| - 1;
    assert forall i | 0 <= i < n :: es[..n][..i] == es[..i] && es[..n][i] == es[i];
  }

  /** In every run, only connections that strayed when they were accepted can be on a wrong network without being
      on a close list. */
  lemma OnlyStraysAreMisrouted(matches: Matcher, defaultNet: Option<Network>, es: seq<Event>, id: nat)
    requires var s := Run(matches, Init(defaultNet), es);
             id in s.resources && id !in s.history.condemned && id !in Strays(matches, Init(defaultNet), es)
    ensures WellRouted(matches, Run(matches, Init(defaultNet), es), id)
  {
    StartInv(matches, defaultNet);
    RunKeepsExcept(matches, Init(defaultNet), es);
    hide Run, Strays;
    assert WellRouted(matches, WithLate(Run(matches, Init(defaultNet), es), Strays(matches, Init(defaultNet), es)), id);
  }

  /** A stray is on the wrong network as soon as it is accepted, and on nobody's close list. */
  lemma StrayIsMisrouted(matches: Matcher, s: State, e: Event)
    requires Inv(matches, s) && StrayAccept(matches, s, e)
    ensures !RoutedAll(matches, Step(matches, s, e))
  {
    AcceptedRoutedLikeListener(matches, s, e.listener, e.carrier);
    assert !WellRouted(matches, Step(matches, s, e), s.nextID + 1);
  }

  /** Exactly: nothing is ever on a wrong network without being on a close list, if and only if no connection is
      ever accepted from a listener that is on a wrong network at that moment. */
  lemma RightNetworkExactly(matches: Matcher, defaultNet: Option<Network>, es: seq<Event>)
    ensures (forall i | 0 <= i <= |es| :: RoutedAll(matches, Run(matches, Init(defaultNet), es[..i])))
       <==> (forall i | 0 <= i < |es| :: !StrayAccept(matches, Run(matches, Init(defaultNet), es[..i]), es[i]))
  {
    var s := Init(defaultNet);
    StartInv(matches, defaultNet);
    hide Inv, Step, Run, StrayAccept;
    if i :| 0 <= i < |es| && StrayAccept(matches, Run(matches, s, es[..i]), es[i]) {
      RunKeeps(matches, s, es[..i]);
      StrayIsMisrouted(matches, Run(matches, s, es[..i]), es[i]);
      assert es[..i + 1] == es[..i] + [es[i]];
      RunAppend(matches, s, es[..i], es[i]);
      assert !RoutedAll(matches, Run(matches, s, es[..i + 1]));
    }
    if forall i | 0 <= i < |es| :: !StrayAccept(matches, Run(matches, s, es[..i]), es[i]) {
      forall i | 0 <= i <= |es|
        ensures RoutedAll(matches, Run(matches, s, es[..i]))
      {
        assert forall j | 0 <= j < i :: es[..i][..j] == es[..j] && es[..i][j] == es[j];
        assert Strays(matches, s, es[..i]) == {};
        NoStraysNoneMisrouted(matches, defaultNet, es[..i]);
      }
    }
  }

  lemma NoStraysNoneMisrouted(matches: Matcher, defaultNet: Option<Network>, es: seq<Event>)
    requires Strays(matches, Init(defaultNet), es) == {}
    ensures RoutedAll(matches, Run(matches, Init(defaultNet), es))
  {
    hide Run, Strays;
    var s := Run(matches, Init(defaultNet), es);
    forall id | id in s.resources && id !in s.history.condemned
      ensures WellRouted(matches, s, id)
    {
      OnlyStraysAreMisrouted(matches, defaultNet, es, id);
    }
  }

  /** No tracked resource is waiting to be closed: every mutation so far has finished its closes. */
  ghost predicate Settled(s: State) {
    s.resources.Keys !! s.history.condemned
  }

  /** In particular, if every mutation has finished its closes by the time the next connection is accepted, or at
      least that of the listener in question, nothing is on a wrong network once all closes are done. */
  lemma NothingSurvivesOnWrongNetwork(matches: Matcher, defaultNet: Option<Network>, es: seq<Event>)
    requires forall i | 0 <= i < |es| && es[i].Accept? ::
               var s := Run(matches, Init(defaultNet), es[..i]);
               Settled(s) || es[i].listener !in s.history.condemned
    ensures var s := Run(matches, Init(defaultNet), es);
            RoutedAll(matches, s) && (Settled(s) ==> forall id | id in s.resources :: WellRouted(matches, s, id))
  {
    var s := Init(defaultNet);
    forall i | 0 <= i < |es|
      ensures !StrayAccept(matches, Run(matches, s, es[..i]), es[i])
    {
      StartInv(matches, defaultNet);
      RunKeeps(matches, s, es[..i]);
      StandingListenerIsRouted(matches, Run(matches, s, es[..i]), es[i]);
    }
    hide Run, StrayAccept;
    assert Strays(matches, s, es) == {};
    NoStraysNoneMisrouted(matches, defaultNet, es);
  }

  lemma StandingListenerIsRouted(matches: Matcher, s: State, e: Event)
    requires Inv(matches, s) && (e.Accept? ==> Settled(s) || e.listener !in s.history.condemned)
    ensures !StrayAccept(matches, s, e)
  {
    if e.Accept? && IsListener(s, e.listener) && !Seen(s.history, e.carrier) {
      AcceptedRoutedLikeListener(matches, s, e.listener, e.carrier);
    }
  }

  /** And a connection can escape: it is accepted between the moment its listener is put on a close
      list and the moment the listener is closed, and is left tracked on a network no longer in use. */
  function EscapeRun(): seq<Event> {
    var ss := Snapshot(1, 7, 10, DEFAULT_MAPPING, "h");
    [Register(["tcp"], 7), Snap(ss), Answer(100, ss, ListenerKind), Commit(100),
     SetDefault(Some(20)), Accept(1, 101), CloseOne(1)]
  }

  lemma AcceptedConnectionCanEscape(matches: Matcher)
    ensures var s := Run(matches, Init(Some(10)), EscapeRun());
            && 2 in s.resources && 2 !in s.history.condemned && Settled(s)
            && !WellRouted(matches, s, 2)
  {
    var es := EscapeRun();
    var s4 := ListeningState();
    RunThree(matches, Init(Some(10)), es);
    RunThree(matches, s4, es[4..]);
    ListenerCommitted(matches);
    assert es[3..][1..] == es[4..];
    hide Step;
    ListenerReplaced(matches);
    assert Run(matches, Init(Some(10)), es) == Step(matches, Step(matches, Step(matches, s4, es[4]), es[5]), es[6]);
  }

  /** A listener on network 10, dialed through the default network. */
  function ListeningState(): State {
    State(false, 1, 1, Some(10), map["tcp" := 7], map[], map[1 := Resource(ListenerKind, "h", DEFAULT_MAPPING, 0, {})],
          History({Snapshot(1, 7, 10, DEFAULT_MAPPING, "h")}, map[], map[1 := 100], map[1 := 10], {}, {}, {}, {}, []))
  }

  lemma ListenerCommitted(matches: Matcher)
    ensures var es := EscapeRun();
            Step(matches, Step(matches, Step(matches, Step(matches, Init(Some(10)), es[0]), es[1]), es[2]), es[3]) ==
                ListeningState()
  {
    var es := EscapeRun();
    var ss := Snapshot(1, 7, 10, DEFAULT_MAPPING, "h");
    var s1 := Init(Some(10)).(version := 1, transports := map["tcp" := 7]);
    assert AllTo(["tcp"], 7) == map["tcp" := 7];
    assert Step(matches, Init(Some(10)), es[0]) == s1;
    assert IsSnapshot(matches, s1, ss) by {
      assert s1.transports["tcp"] == 7;
    }
    var s2 := s1.(history := s1.history.(snapshots := {ss}));
    assert Step(matches, s1, es[1]) == s2;
    var s3 := s2.(history := s2.history.(inFlight := map[100 := (ss, ListenerKind)]));
    assert Step(matches, s2, es[2]) == s3;
    assert s3.history.inFlight - {100} == map[];
  }

  lemma ListenerReplaced(matches: Matcher)
    ensures var es := EscapeRun();
            var s := Step(matches, Step(matches, Step(matches, ListeningState(), es[4]), es[5]), es[6]);
            2 in s.resources && 2 !in s.history.condemned && Settled(s) && !WellRouted(matches, s, 2)
  {
    var s4 := ListeningState();
    var s5 := WithDefault(s4, Some(20));
    assert s5.history.condemned == {1};
    var s6 := Accepted(s5, 1, 101);
    assert s6.resources.Keys == {1, 2};
  }

  lemma RunThree(matches: Matcher, s: State, es: seq<Event>)
    requires |es| >= 3
    ensures Run(matches, s, es) == Run(matches, Step(matches, Step(matches, Step(matches, s, es[0]), es[1]), es[2]),
            es[3..])
  {
    hide Step;
    var s1 := Step(matches, s, es[0]);
    var s2 := Step(matches, s1, es[1]);
    assert es[1..][1..] == es[2..] && es[2..][1..] == es[3..] && es[1..][0] == es[1] && es[2..][0] == es[2];
    assert Run(matches, s, es) == Run(matches, s1, es[1..]);
    assert Run(matches, s1, es[1..]) == Run(matches, s2, es[2..]);
  }

  /** An accepted connection is rightly routed if and only if its listener was at that moment, and a listener
      that is not on a close list always is. */
  lemma AcceptedRoutedLikeListener(matches: Matcher, s: State, listener: nat, c: Carrier)
    requires Inv(matches, s) && IsListener(s, listener) && !Seen(s.history, c)
    ensures var s' := Accepted(s, listener, c);
            && s'.nextID == s.nextID + 1 && s'.nextID in s'.resources
            && s'.nextID !in s'.history.condemned + s.resources.Keys
            && (WellRouted(matches, s', s'.nextID) <==> WellRouted(matches, s, listener))
            && (WellRouted(matches, s', listener) <==> WellRouted(matches, s, listener))
    ensures listener !in s.history.condemned ==> WellRouted(matches, s, listener)
  {
    assert Linked(s, listener);
  }

  // ----- Nothing is dialed after Close -----

  /** A closed manager stays closed, and starts tracking something only when a listener whose own close has not
      run yet accepts a connection. */
  lemma ClosedManagerStep(matches: Matcher, s: State, e: Event)
    requires s.closed && IdsInv(s)
    ensures Step(matches, s, e).closed && Step(matches, s, e).version == s.version
    ensures Step(matches, s, e).resources.Keys - s.resources.Keys != {} <==>
            e.Accept? && IsListener(s, e.listener) && !Seen(s.history, e.carrier)
  {
    if e.Accept? && IsListener(s, e.listener) && !Seen(s.history, e.carrier) {
      assert s.nextID + 1 in Step(matches, s, e).resources.Keys - s.resources.Keys;
    } else {
      assert forall id | id in Step(matches, s, e).resources :: id in s.resources;
    }
  }

  /** No commit succeeds after Close: all that a later state tracks was tracked at Close or accepted since. */
  lemma {:induction false} NoCommitAfterClose(matches: Matcher, s: State, es: seq<Event>, id: nat)
    requires s.closed && Inv(matches, s)
    requires id in Run(matches, s, es).resources
    ensures Run(matches, s, es).closed
    ensures id in s.resources || Run(matches, s, es).resources[id].parent != 0
    decreases |es|
  {
    if es != [] {
      var s' := Step(matches, s, es[0]);
      StepKeeps(matches, s, es[0]);
      ClosedManagerStep(matches, s, es[0]);
      NoCommitAfterClose(matches, s', es[1..], id);
      if id in s'.resources {
        ParentFixed(matches, s', es[1..], id);
        assert es[0].Accept? || id in s.resources;
      }
    }
  }

  /** In every run: after Close the manager is closed for good, gives out no snapshot and commits nothing, and
      tracks nothing but what it tracked at Close and what listeners not closed yet have accepted since. */
  lemma CloseIsFinal(matches: Matcher, defaultNet: Option<Network>, es: seq<Event>, i: nat, j: nat)
    requires i < j <= |es| && es[i] == CloseManager
    ensures var s, t := Run(matches, Init(defaultNet), es[..i]), Run(matches, Init(defaultNet), es[..j]);
            && t.closed
            && (forall ss :: !IsSnapshot(matches, t, ss) && Step(matches, t, Snap(ss)) == t)
            && (forall c :: Step(matches, t, Commit(c)).resources == t.resources)
            && forall id | id in t.resources && t.resources[id].parent == 0 :: id in s.resources
  {
    var s := Run(matches, Init(defaultNet), es[..i]);
    var s' := Step(matches, s, CloseManager);
    var t := Run(matches, Init(defaultNet), es[..j]);
    StartInv(matches, defaultNet);
    RunKeeps(matches, Init(defaultNet), es[..i]);
    StepKeeps(matches, s, CloseManager);
    assert es[..j][..i] == es[..i] && es[..j] == es[..i] + [es[i]] + es[i + 1..j];
    RunAppend(matches, Init(defaultNet), es[..i], es[i]);
    RunConcat(matches, Init(defaultNet), es[..i] + [es[i]], es[i + 1..j]);
    ClosesManager(matches, s);
    RunStaysClosed(matches, s', es[i + 1..j]);
    forall id | id in t.resources && t.resources[id].parent == 0
      ensures id in s.resources
    {
      NoCommitAfterClose(matches, s', es[i + 1..j], id);
    }
    hide Inv, Run;
    NothingOnceClosed(matches, t);
  }

  lemma ClosesManager(matches: Matcher, s: State)
    ensures Step(matches, s, CloseManager).closed && Step(matches, s, CloseManager).resources == s.resources
  {
  }

  lemma NothingOnceClosed(matches: Matcher, t: State)
    requires t.closed
    ensures forall ss :: !IsSnapshot(matches, t, ss) && Step(matches, t, Snap(ss)) == t
    ensures forall c :: Step(matches, t, Commit(c)).resources == t.resources
  {
  }

  lemma {:induction false} RunStaysClosed(matches: Matcher, s: State, es: seq<Event>)
    requires s.closed && Inv(matches, s)
    ensures Run(matches, s, es).closed
    decreases |es|
  {
    if es != [] {
      InvIds(matches, s);
      StepKeeps(matches, s, es[0]);
      ClosedManagerStep(matches, s, es[0]);
      hide Step, Inv;
      RunStaysClosed(matches, Step(matches, s, es[0]), es[1..]);
    }
  }

  lemma {:induction false} RunConcat(matches: Matcher, s: State, es: seq<Event>, fs: seq<Event>)
    ensures Run(matches, s, es + fs) == Run(matches, Run(matches, s, es), fs)
    decreases |es|
  {
    hide Step;
    if es == [] {
      assert es + fs == fs;
    } else {
      assert (es + fs)[1..] == es[1..] + fs;
      RunConcat(matches, Step(matches, s, es[0]), es[1..], fs);
    }
  }

  /** What is known about an id never changes while it is tracked. */
  lemma {:induction false} ParentFixed(matches: Matcher, s: State, es: seq<Event>, id: nat)
    requires Inv(matches, s) && id in s.resources && id in Run(matches, s, es).resources
    ensures Run(matches, s, es).resources[id].(children := {}) == s.resources[id].(children := {})
    decreases |es|
  {
    if es != [] {
      var s' := Step(matches, s, es[0]);
      StepKeeps(matches, s, es[0]);
      TrackedWithin(matches, s, es[0], id);
      hide Step, Inv;
      if id !in s'.resources {
        GoneStaysGone(matches, s', es[1..], id);
      } else {
        ParentFixed(matches, s', es[1..], id);
        StepFixed(matches, s, es[0], id);
      }
    }
  }

  lemma TrackedWithin(matches: Matcher, s: State, e: Event, id: nat)
    requires Inv(matches, s) && id in s.resources
    ensures id <= Step(matches, s, e).nextID
  {
  }

  lemma StepFixed(matches: Matcher, s: State, e: Event, id: nat)
    requires Inv(matches, s) && id in s.resources && id in Step(matches, s, e).resources
    ensures Step(matches, s, e).resources[id].(children := {}) == s.resources[id].(children := {})
  {
    hide Inv, RoutesTo, Seen, Chosen, Committed, Accepted, ClosedOne;
    match e
    case CloseOne(x) => ClosedOneFixed(matches, s, x, id);
    case Commit(c) =>
      KnownId(matches, s, id);
      CommittedFixed(s, c, id);
    case Accept(listener, c) =>
      KnownId(matches, s, id);
      AcceptedFixed(s, listener, c, id);
    case _ =>
  }

  lemma CommittedFixed(s: State, c: Carrier, id: nat)
    requires id in s.resources && id <= s.nextID
    ensures id in Committed(s, c).resources && Committed(s, c).resources[id] == s.resources[id]
  {
  }

  lemma AcceptedFixed(s: State, listener: nat, c: Carrier, id: nat)
    requires id in s.resources && id <= s.nextID
    ensures var m := Accepted(s, listener, c).resources;
            id in m && m[id].(children := {}) == s.resources[id].(children := {})
  {
  }

  lemma ClosedOneFixed(matches: Matcher, s: State, x: nat, id: nat)
    requires Inv(matches, s) && id in s.resources && id in ClosedOne(s, x).resources
    ensures ClosedOne(s, x).resources[id].(children := {}) == s.resources[id].(children := {})
  {
    if x in s.resources {
      UnlinkKeeps(s, x);
    } else {
      UnlinkNothing(s.resources, x);
    }
    hide Inv, ForestInv, Unlink;
  }

  lemma KnownId(matches: Matcher, s: State, id: nat)
    requires Inv(matches, s) && id in s.resources
    ensures id <= s.nextID
  {
  }

  lemma UnlinkNothing(m: map<nat, Resource>, id: nat)
    requires id !in m
    ensures Unlink(m, id) == m
  {
  }

  /** An id that is no longer tracked is never given out again, so a child's link to a closed parent cannot
      come to mean another resource. */
  lemma {:induction false} GoneStaysGone(matches: Matcher, s: State, es: seq<Event>, id: nat)
    requires Inv(matches, s) && id <= s.nextID && id !in s.resources
    ensures id !in Run(matches, s, es).resources
    decreases |es|
  {
    if es != [] {
      StepKeeps(matches, s, es[0]);
      StepGone(matches, s, es[0], id);
      GoneStaysGone(matches, Step(matches, s, es[0]), es[1..], id);
    }
  }

  lemma StepGone(matches: Matcher, s: State, e: Event, id: nat)
    requires Inv(matches, s) && id <= s.nextID && id !in s.resources
    ensures id !in Step(matches, s, e).resources && id <= Step(matches, s, e).nextID
  {
    if e.CloseOne? && e.id in s.resources {
      UnlinkKeeps(s, e.id);
    }
  }

  // ----- Carriers are conserved -----

  /** A carrier handed over is never lost: it stays with its caller, behind an id, or turned away and closed. */
  lemma {:induction false} CarriersNeverLost(matches: Matcher, s: State, es: seq<Event>, c: Carrier)
    requires Inv(matches, s) && Seen(s.history, c)
    ensures Seen(Run(matches, s, es).history, c)
    decreases |es|
  {
    if es != [] {
      StepKeeps(matches, s, es[0]);
      StepKeepsSeen(matches, s, es[0], c);
      CarriersNeverLost(matches, Step(matches, s, es[0]), es[1..], c);
    }
  }

  lemma StepKeepsSeen(matches: Matcher, s: State, e: Event, c: Carrier)
    requires IdsInv(s) && Seen(s.history, c)
    ensures Seen(Step(matches, s, e).history, c)
  {
    match e
    case Commit(x) =>
      if Commits(s, x) {
        WrapKeepsSeen(s.history, s.nextID + 1, x, s.history.inFlight[x].0.network, c);
      }
    case Accept(l, x) =>
      if IsListener(s, l) && l in s.history.network {
        WrapKeepsSeen(s.history, s.nextID + 1, x, s.history.network[l], c);
      }
    case _ =>
  }

  lemma WrapKeepsSeen(h: History, id: nat, x: Carrier, network: Network, c: Carrier)
    requires Seen(h, c) && id !in h.wrapped
    ensures Seen(Wrap(h, id, x, network), c)
  {
    var h' := Wrap(h, id, x, network);
    if c in h.wrapped.Values {
      var i :| i in h.wrapped && h.wrapped[i] == c;
      assert h'.wrapped[i] == c;
    } else if c == x {
      assert h'.wrapped[id] == c;
    }
  }

  /** A carrier being committed ends up behind a new id, its transport being registered still, or closed. */
  lemma CommitDecides(matches: Matcher, s: State, c: Carrier)
    requires Inv(matches, s) && CarriersInv(s) && c in s.history.inFlight
    ensures var s' := Committed(s, c);
            && c !in s'.history.inFlight && CarriersInv(s')
            && (Commits(s, c) ==> s'.nextID in s'.resources && s'.history.wrapped[s'.nextID] == c)
            && (Commits(s, c) ==> c !in s'.history.shut
                                  && s.history.inFlight[c].0.transport in s'.transports.Values)
            && (!Commits(s, c) ==> s'.resources == s.resources && c in s'.history.rejected && c in s'.history.shut)
  {
    CommittedKeepsCarriers(s, c);
    var s' := Committed(s, c);
    if Commits(s, c) {
      NotShut(s, s', c);
    }
  }

  lemma NotShut(s: State, s': State, c: Carrier)
    requires CarriersInv(s) && c in s.history.inFlight && s'.history.shut == s.history.shut
    ensures c !in s'.history.shut
  {
    assert ClosedBehind(s.history, c) ==> c in s.history.wrapped.Values;
  }

  /** In every run a carrier is closed at most once, and only if it was turned away or its wrapper was closed. */
  lemma CarriersClosedOnce(matches: Matcher, defaultNet: Option<Network>, es: seq<Event>)
    ensures CarriersInv(Run(matches, Init(defaultNet), es))
  {
    StartInv(matches, defaultNet);
    RunKeepsCarriers(matches, Init(defaultNet), es);
  }
}
