/** The TUN supervisor: at most one device session at a time, whatever order its messages come in. */
module TunSupervisor {
  import opened Bits

  const DEFAULT_MTU: nat := 65535
  const MIN_MTU: nat := 1280

  datatype Phase = Detached | Attached | Stopped

  datatype Status = Status(phase: Phase, enabled: bool, attached: bool, kind: string, name: string, mtu: nat,
      mro: int, mwo: int)

  datatype Spec = Spec(kind: string, name: string, mtu: nat, mro: int, mwo: int, batch: nat)

  datatype Session = Session(id: nat, spec: Spec)

  datatype Report =
    | ReadError
    | WriteError
    | EventsClosed
    | DeviceEvent(up: bool, down: bool, mtuUpdate: bool, mtu: nat)

  /** `upstream` are the MTUs set on the core so far, `started` and `stopped` the sessions told to start and stop. */
  datatype State = State(
    desired: nat,
    status: Status,
    current: Option<Session>,
    nextID: nat,
    currentSessionID: nat,
    upstream: seq<nat>,
    started: seq<nat>,
    stopped: seq<nat>)

  function Supported(mtu: nat): nat {
    if mtu < MIN_MTU then MIN_MTU else mtu
  }

  /** The configured MTU, or the default for zero, capped by what the core can carry. */
  function DesiredMTU(configured: nat, maxMTU: nat): (mtu: nat)
    ensures mtu >= MIN_MTU
    ensures maxMTU >= MIN_MTU ==> mtu <= maxMTU
    ensures configured >= 1280 && (maxMTU == 0 || configured <= maxMTU) ==> mtu == configured
    ensures configured == 0 && (maxMTU == 0 || maxMTU >= 65535) ==> mtu == 65535
    ensures 1280 <= maxMTU <= 65535 && (configured == 0 || configured >= maxMTU) ==> mtu == maxMTU
  {
    var m := if configured == 0 then DEFAULT_MTU else configured;
    Supported(if maxMTU > 0 && maxMTU < m then maxMTU else m)
  }

  /** What the event loop reports for a device event: an MTU that cannot be read is reported as zero. */
  function EventReport(up: bool, down: bool, mtuUpdate: bool, read: Option<nat>): Report {
    DeviceEvent(up, down, mtuUpdate, if mtuUpdate && read.Some? then Supported(read.value) else 0)
  }

  function NoStatus(phase: Phase): Status {
    Status(phase, false, false, "", "", 0, 0, 0)
  }

  function Init(desired: nat): State {
    State(desired, NoStatus(Detached), None, 0, 0, [desired], [], [])
  }

  // ----- Messages -----

  datatype Message =
    | Attach(spec: Spec, replace: bool)
    | Detach
    | Stop
    | Reported(session: nat, report: Report)

  /** Attach is refused when stopped, or when something is attached and is not to be replaced. */
  predicate Refused(s: State, replace: bool) {
    s.status.phase == Stopped || (s.current.Some? && !replace)
  }

  function StatusOf(x: Spec): Status {
    Status(Attached, true, true, x.kind, x.name, x.mtu, x.mro, x.mwo)
  }

  function StopCurrent(s: State): seq<nat> {
    if s.current.Some? then s.stopped + [s.current.value.id] else s.stopped
  }

  function AfterAttach(s: State, spec: Spec, replace: bool): State {
    if Refused(s, replace) then s
    else
      var id := s.nextID + 1;
      State(s.desired, StatusOf(spec), Some(Session(id, spec)), id, id,
            s.upstream + [spec.mtu], s.started + [id], StopCurrent(s))
  }

  function AfterDetach(s: State, phase: Phase): State {
    s.(status := NoStatus(phase), current := None, currentSessionID := 0,
       upstream := s.upstream + [s.desired], stopped := StopCurrent(s))
  }

  function AfterReport(s: State, session: nat, r: Report): State {
    if s.current == None || s.current.value.id != session then s
    else match r
      case DeviceEvent(up, down, mtuUpdate, mtu) =>
        var enabled := if up then true else if down then false else s.status.enabled;
        if mtuUpdate then
          var c := s.current.value;
          s.(status := s.status.(enabled := enabled, mtu := mtu),
             current := Some(c.(spec := c.spec.(mtu := mtu))),
             upstream := s.upstream + [mtu])
        else s.(status := s.status.(enabled := enabled))
      case _ => AfterDetach(s, Detached)
  }

  /** Once stopped, the supervisor takes no more messages. */
  function Step(s: State, m: Message): State {
    if s.status.phase == Stopped then s
    else match m
      case Attach(spec, replace) => AfterAttach(s, spec, replace)
      case Detach => AfterDetach(s, Detached)
      case Stop => AfterDetach(s, Stopped)
      case Reported(session, r) => AfterReport(s, session, r)
  }

  function Run(s: State, ms: seq<Message>): State
    decreases |ms|
  {
    if ms == [] then s else Run(Step(s, ms[0]), ms[1..])
  }

  // ----- The invariant -----

  function UpTo(n: nat): seq<nat> {
    seq(n, i => i + 1)
  }

  /** The status shows the current session and nothing but it; sessions are numbered in the order they start,
      and every one but the current has been told to stop, once, in that order; the core was last given the
      MTU of the session, or else the desired one. */
  ghost predicate Inv(s: State) {
    && (s.status.attached <==> s.current.Some?) && (s.status.phase == Attached <==> s.current.Some?)
    && s.currentSessionID == (if s.current.Some? then s.current.value.id else 0)
    && (s.current.Some? ==>
          && s.current.value.id == s.nextID > 0
          && s.status.(enabled := true) == StatusOf(s.current.value.spec))
    && (s.current == None ==> s.status == NoStatus(s.status.phase))
    && s.started == UpTo(s.nextID)
    && s.stopped == UpTo(if s.current.Some? then s.nextID - 1 else s.nextID)
    && s.upstream != []
    && s.upstream[|s.upstream| - 1] == (if s.current.Some? then s.current.value.spec.mtu else s.desired)
  }

  lemma StepKeepsInv(s: State, m: Message)
    requires Inv(s)
    ensures Inv(Step(s, m))
  {
    assert UpTo(s.nextID + 1) == UpTo(s.nextID) + [s.nextID + 1];
    assert s.nextID > 0 ==> UpTo(s.nextID) == UpTo(s.nextID - 1) + [s.nextID];
  }

  lemma {:induction false} RunKeepsInv(s: State, ms: seq<Message>)
    requires Inv(s)
    ensures Inv(Run(s, ms))
    decreases |ms|
  {
    if ms != [] {
      StepKeepsInv(s, ms[0]);
      RunKeepsInv(Step(s, ms[0]), ms[1..]);
    }
  }

  /** For every order of messages from the start: the status shows the current session, its id is the one published,
      every session but the current was told to stop exactly once, and the core has its MTU or the desired one. */
  lemma SupervisorInvariant(desired: nat, ms: seq<Message>)
    ensures var s := Run(Init(desired), ms);
            && (s.status.attached <==> s.current.Some?)
            && (s.current.Some? ==> s.status.(enabled := true) == StatusOf(s.current.value.spec)
                                    && s.currentSessionID == s.current.value.id)
            && (s.current == None ==> s.currentSessionID == 0)
            && (forall i, j | 0 <= i < j < |s.started| :: s.started[i] < s.started[j])
            && (forall i, j | 0 <= i < j < |s.stopped| :: s.stopped[i] != s.stopped[j])
            && (forall id :: id in s.stopped <==> id in s.started && (s.current == None || s.current.value.id != id))
            && s.upstream != []
            && s.upstream[|s.upstream| - 1] == (if s.current.Some? then s.current.value.spec.mtu else desired)
  {
    RunKeepsInv(Init(desired), ms);
    RunKeepsDesired(Init(desired), ms);
    var s := Run(Init(desired), ms);
    forall id
      ensures id in s.stopped <==> id in s.started && (s.current == None || s.current.value.id != id)
    {
      InUpTo(s.nextID, id);
      InUpTo(if s.current.Some? then s.nextID - 1 else s.nextID, id);
    }
  }

  lemma InUpTo(n: nat, id: nat)
    ensures id in UpTo(n) <==> 1 <= id <= n
  {
    if 1 <= id <= n {
      assert UpTo(n)[id - 1] == id;
    }
  }

  lemma {:induction false} RunKeepsDesired(s: State, ms: seq<Message>)
    ensures Run(s, ms).desired == s.desired
    decreases |ms|
  {
    if ms != [] {
      RunKeepsDesired(Step(s, ms[0]), ms[1..]);
    }
  }

  /** A session that has ended cannot influence anything any more, not even through reports still on their way. */
  lemma {:induction false} EndedSessionIsMute(s: State, ms: seq<Message>, r: Report, id: nat)
    requires Inv(s) && 0 < id <= s.nextID && (s.current == None || s.current.value.id != id)
    ensures Step(Run(s, ms), Reported(id, r)) == Run(s, ms)
    decreases |ms|
  {
    if ms != [] {
      StepKeepsInv(s, ms[0]);
      EndedSessionIsMute(Step(s, ms[0]), ms[1..], r, id);
    }
  }

  /** Session numbers only grow, and one that was told to stop stays so. */
  lemma {:induction false} SessionsOnlyGrow(s: State, ms: seq<Message>)
    requires Inv(s)
    ensures s.nextID <= Run(s, ms).nextID && s.started <= Run(s, ms).started && s.stopped <= Run(s, ms).stopped
    decreases |ms|
  {
    if ms != [] {
      StepKeepsInv(s, ms[0]);
      SessionsOnlyGrow(Step(s, ms[0]), ms[1..]);
    }
  }

  /** Every MTU in force is one the network supports, unless a device could not tell its MTU; then it is zero. */
  ghost predicate MTUsInRange(s: State) {
    && s.desired >= MIN_MTU
    && (s.current.Some? ==> s.current.value.spec.mtu == 0 || s.current.value.spec.mtu >= MIN_MTU)
    && forall i | 0 <= i < |s.upstream| :: s.upstream[i] == 0 || s.upstream[i] >= MIN_MTU
  }

  ghost predicate ProperMessage(m: Message) {
    match m
    case Attach(spec, _) => spec.mtu >= MIN_MTU
    case Reported(_, r) => r.DeviceEvent? ==> exists read :: r == EventReport(r.up, r.down, r.mtuUpdate, read)
    case _ => true
  }

  lemma StepKeepsRange(s: State, m: Message)
    requires MTUsInRange(s) && ProperMessage(m)
    ensures MTUsInRange(Step(s, m))
  {
  }

  lemma {:induction false} RunKeepsRange(s: State, ms: seq<Message>)
    requires MTUsInRange(s) && forall i | 0 <= i < |ms| :: ProperMessage(ms[i])
    ensures MTUsInRange(Run(s, ms))
    decreases |ms|
  {
    if ms != [] {
      StepKeepsRange(s, ms[0]);
      RunKeepsRange(Step(s, ms[0]), ms[1..]);
    }
  }

  // ----- The handlers -----

  datatype Result = Ok | ErrClosedPipe | ErrAlreadyAttached(name: string)

  /** A device event of the current session enables or disables it, up winning over down, and sets its MTU; the session
      goes on. */
  ghost predicate EventTaken(s: State, s': State, r: Report)
    requires r.DeviceEvent?
  {
    && s.current.Some? && s'.current.Some?
    && s'.status.enabled == (r.up || (!r.down && s.status.enabled))
    && s'.current.value.id == s.current.value.id && s'.stopped == s.stopped && s'.started == s.started
    && s'.current.value.spec == s.current.value.spec.(mtu := if r.mtuUpdate then r.mtu else s.current.value.spec.mtu)
    && s'.upstream == s.upstream + (if r.mtuUpdate then [r.mtu] else [])
    && s'.status == s.status.(enabled := s'.status.enabled, mtu := if r.mtuUpdate then r.mtu else s.status.mtu)
  }

  class Supervisor {
    const configured: nat
    const maxMTU: nat
    var status: Status
    var current: Option<Session>
    var nextID: nat
    var currentSessionID: nat
    var upstream: seq<nat>
    var started: seq<nat>
    var stopped: seq<nat>

    ghost function Model(): State
      reads this
    {
      State(DesiredMTU(configured, maxMTU), status, current, nextID, currentSessionID, upstream, started, stopped)
    }

    constructor (configured: nat, maxMTU: nat)
      ensures Model() == Init(DesiredMTU(configured, maxMTU)) && Inv(Model())
    {
      this.configured, this.maxMTU := configured, maxMTU;
      status, current, nextID, currentSessionID := NoStatus(Detached), None, 0, 0;
      upstream, started, stopped := [DesiredMTU(configured, maxMTU)], [], [];
    }

    method NextSession(spec: Spec) returns (s: Session)
      modifies this`nextID
      ensures nextID == old(nextID) + 1 && s == Session(nextID, spec)
    {
      nextID := nextID + 1;
      s := Session(nextID, spec);
    }

    method HandleAttach(spec: Spec, replace: bool) returns (r: Result)
      requires Inv(Model())
      modifies this
      ensures Inv(Model()) && Model() == AfterAttach(old(Model()), spec, replace)
      ensures r == Ok <==> old(status).phase != Stopped && (old(current) == None || replace)
      ensures r == Ok ==> nextID == old(nextID) + 1 && currentSessionID == nextID
      ensures r == Ok ==> current == Some(Session(nextID, spec))
      ensures r == Ok ==> status == Status(Attached, true, true, spec.kind, spec.name, spec.mtu, spec.mro, spec.mwo)
      ensures r == Ok ==> upstream == old(upstream) + [spec.mtu] && started == old(started) + [nextID]
      ensures r == Ok ==> stopped == old(stopped) + if old(current).Some? then [old(current).value.id] else []
      ensures r != Ok ==> Model() == old(Model())
      ensures r == ErrClosedPipe <==> old(status).phase == Stopped
      ensures r.ErrAlreadyAttached? ==> old(current).Some? && r.name == old(current).value.spec.name && !replace
    {
      if status.phase == Stopped {
        return ErrClosedPipe;
      }
      StepKeepsInv(Model(), Attach(spec, replace));
      if current.Some? && !replace {
        return ErrAlreadyAttached(current.value.spec.name);
      }
      var next := NextSession(spec);
      started := started + [next.id];
      var previous := current;
      current := Some(next);
      currentSessionID := next.id;
      status := StatusOf(next.spec);
      upstream := upstream + [next.spec.mtu];
      if previous.Some? {
        stopped := stopped + [previous.value.id];
      }
      return Ok;
    }

    method DetachCurrent(phase: Phase)
      requires Inv(Model()) && status.phase != Stopped && phase != Attached
      modifies this
      ensures Inv(Model()) && Model() == AfterDetach(old(Model()), phase)
      ensures current == None && currentSessionID == 0 && status == Status(phase, false, false, "", "", 0, 0, 0)
      ensures upstream == old(upstream) + [DesiredMTU(configured, maxMTU)] && started == old(started)
      ensures stopped == old(stopped) + if old(current).Some? then [old(current).value.id] else []
    {
      StepKeepsInv(Model(), if phase == Stopped then Stop else Detach);
      if current.Some? {
        var previous := current.value;
        current := None;
        currentSessionID := 0;
        status := NoStatus(phase);
        upstream := upstream + [DesiredMTU(configured, maxMTU)];
        stopped := stopped + [previous.id];
        return;
      }
      status := NoStatus(phase);
      upstream := upstream + [DesiredMTU(configured, maxMTU)];
    }

    method HandleReport(session: nat, report: Report)
      requires Inv(Model()) && status.phase != Stopped
      modifies this
      ensures Inv(Model()) && Model() == AfterReport(old(Model()), session, report)
      ensures old(current) == None || old(current).value.id != session ==> Model() == old(Model())
      ensures old(current).Some? && old(current).value.id == session && !report.DeviceEvent? ==>
                current == None && status.phase == Detached && stopped == old(stopped) + [session]
      ensures old(current).Some? && old(current).value.id == session && report.DeviceEvent? ==>
                EventTaken(old(Model()), Model(), report)
    {
      StepKeepsInv(Model(), Reported(session, report));
      if current == None || current.value.id != session {
        return;
      }
      match report
      case DeviceEvent(up, down, mtuUpdate, mtu) =>
        if down {
          status := status.(enabled := false);
        }
        if up {
          status := status.(enabled := true);
        }
        if mtuUpdate {
          current := Some(current.value.(spec := current.value.spec.(mtu := mtu)));
          status := status.(mtu := mtu);
          upstream := upstream + [mtu];
        }
      case _ => DetachCurrent(Detached);
    }

    /** The supervisor's loop over the messages it gets; it ends with the first Stop. */
    method Supervise(ms: seq<Message>)
      requires Inv(Model())
      modifies this
      ensures Inv(Model()) && Model() == Run(old(Model()), ms)
      ensures status.phase == Stopped <==> old(status).phase == Stopped || Stop in ms
    {
      hide Inv, AfterAttach, AfterDetach, AfterReport;
      StoppedExactly(Model(), ms);
      var n := 0;
      while n < |ms|
        invariant n <= |ms| && Inv(Model()) && Run(Model(), ms[n..]) == Run(old(Model()), ms)
      {
        if status.phase == Stopped {
          StoppedStays(Model(), ms[n..]);
          return;
        }
        var m := ms[n];
        assert ms[n..][0] == m && ms[n..][1..] == ms[n + 1..];
        match m {
          case Attach(spec, replace) => var _ := HandleAttach(spec, replace);
          case Detach => DetachCurrent(Detached);
          case Stop => DetachCurrent(Stopped);
          case Reported(session, r) => HandleReport(session, r);
        }
        n := n + 1;
      }
    }
  }

  /** The supervisor is stopped exactly if it was or has been told to, and then has no session. */
  lemma {:induction false} StoppedExactly(s: State, ms: seq<Message>)
    requires Inv(s)
    ensures Run(s, ms).status.phase == Stopped <==> s.status.phase == Stopped || Stop in ms
    ensures Run(s, ms).status.phase == Stopped ==> Run(s, ms).current == None
    decreases |ms|
  {
    RunKeepsInv(s, ms);
    if ms != [] {
      StepKeepsInv(s, ms[0]);
      assert Stop in ms <==> ms[0] == Stop || Stop in ms[1..];
      StoppedExactly(Step(s, ms[0]), ms[1..]);
    }
  }

  lemma {:induction false} StoppedStays(s: State, ms: seq<Message>)
    requires s.status.phase == Stopped
    ensures Run(s, ms) == s
    decreases |ms|
  {
    if ms != [] {
      StoppedStays(s, ms[1..]);
    }
  }
}
