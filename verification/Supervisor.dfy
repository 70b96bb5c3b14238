/**
The epoch supervisor: viewerSession of dav-client and ownerSession of dav-owner.

Every lock region, channel operation and callback guard of the source is one atomic step.  A goroutine that is
between two such steps is recorded as parked: by session, epoch or report where its identity matters, by a count where
it does not.  PeerConnections are named by the epoch they were created for, sessions, ready channels and live state
reports by the order in which they came.  Time is in milliseconds and starts above zero.
*/
module Supervisor {
  import opened Wrappers

  const SDP_RACE_WINDOW := 30_000

  /** The viewer offers and keeps a ready channel; the owner answers and has none. */
  datatype Role = Viewer | Owner

  datatype PcState = Connected | Failed | Closed | Disconnected

  /** Where the run loop stands. */
  datatype Loop = Idle | Building | Offering | Backoff

  /** What the session object holds and everything created for it so far. */
  datatype Links = Links(
    role: Role,
    epoch: nat,
    pc: Option<nat>,
    mux: Option<nat>,
    ready: nat,
    // parked OnOpen callbacks and watchdogs
    dialing: set<nat>,
    installing: set<nat>,
    dropping: set<nat>,
    closing: set<nat>,
    watching: set<nat>,
    // what has been created and closed
    fired: set<nat>,
    captured: map<nat, nat>,
    dialled: seq<nat>,
    closedPcs: set<nat>,
    closedSessions: set<nat>,
    deadSessions: set<nat>,
    // PeerConnections that have reported Failed, and Closed, and those whose channel opened only after their end
    failed: set<nat>,
    shut: set<nat>,
    hopeless: set<nat>,
    channels: nat,
    closedChannels: set<nat>,
    panicked: bool
  )

  /**
  The relay policy, how many live reports of Connected or Failed there have been, and those of them whose callbacks are
  parked: about to reset the counter, or at one of the three steps of classifyAndMaybeEscalate.
  */
  datatype Policy = Policy(
    relayOnly: bool,
    fails: nat,
    lastRace: int,
    reports: nat,
    resets: set<nat>,
    classifies: set<nat>,
    counts: set<nat>,
    latches: set<nat>
  )

  datatype State = State(clock: int, loop: Loop, token: bool, requests: nat, policy: Policy, links: Links)

  /** What run and rebuild do. */
  datatype LoopEvent = Take | Build(ok: bool) | Offer(ok: bool) | Retry

  /** OnConnectionStateChange, what it does after its liveness test, and incoming signalling. */
  datatype NetEvent =
    | StateChange(epoch: nat, state: PcState)
    | Reset(report: nat)
    | Classify(report: nat)
    | Count(report: nat)
    | Latch(report: nat)
    | Request
    | Rejoined
    | Race

  /** OnOpen, what it does after its first guard, the watchdog, and the far end ending a session. */
  datatype TunnelEvent =
    | Open(epoch: nat)
    | DialDone(epoch: nat, ok: bool)
    | Install(session: nat)
    | CloseReady(session: nat)
    | Drop(session: nat)
    | Watchdog(session: nat)
    | Die(session: nat)

  datatype Event = Tick(now: int) | Loop(run: LoopEvent) | Net(net: NetEvent) | Tunnel(tunnel: TunnelEvent)

  function Init(role: Role, forced: bool, now: int): State {
    State(now, Idle, true, 0, Policy(forced, 0, 0, 0, {}, {}, {}, {}),
          Links(role, 0, None, None, 0, {}, {}, {}, {}, {}, {}, map[], [], {}, {}, {}, {}, {}, {}, 1, {}, false))
  }

  /** The first half of rebuild's lock region: close and forget what is installed. */
  function TearDown(l: Links): Links {
    l.(mux := None, pc := None,
       closedSessions := if l.mux.Some? then l.closedSessions + {l.mux.value} else l.closedSessions,
       closedPcs := if l.pc.Some? then l.closedPcs + {l.pc.value} else l.closedPcs)
  }

  /** The second half: a new PeerConnection, the next epoch and, for a viewer, the ready channel it will close. */
  function NextEpoch(l: Links): Links {
    var e := l.epoch + 1;
    if l.role.Owner? then l.(epoch := e, pc := Some(e))
    else
      var used := l.ready in l.closedChannels;
      var ready := if used then l.channels else l.ready;
      l.(epoch := e, pc := Some(e), ready := ready, channels := if used then l.channels + 1 else l.channels,
         captured := l.captured[e := ready])
  }

  /** Closed by this side, or reported Failed or Closed: nothing restarts such a PeerConnection. */
  predicate Over(l: Links, e: nat) {
    e in l.closedPcs || e in l.failed || e in l.shut
  }

  /** The channel of a PeerConnection that is over can still report that it opened, but nobody answers on it. */
  function Opened(l: Links, e: nat): Links {
    l.(fired := l.fired + {e}, dialing := if l.epoch == e then l.dialing + {e} else l.dialing,
       hopeless := if l.epoch == e && Over(l, e) then l.hopeless + {e} else l.hopeless)
  }

  function Dialled(l: Links, e: nat, ok: bool): Links {
    if !ok then l.(dialing := l.dialing - {e})
    else l.(dialing := l.dialing - {e}, dialled := l.dialled + [e], installing := l.installing + {|l.dialled|})
  }

  function Installed(l: Links, x: nat): Links
    requires x < |l.dialled|
  {
    if l.epoch != l.dialled[x] then l.(installing := l.installing - {x}, dropping := l.dropping + {x})
    else if l.role.Owner? then l.(installing := l.installing - {x}, mux := Some(x), watching := l.watching + {x})
    else l.(installing := l.installing - {x}, mux := Some(x), closing := l.closing + {x})
  }

  /** Closing a channel that is already closed ends the process. */
  function ReadyClosed(l: Links, x: nat): Links
    requires x < |l.dialled| && l.dialled[x] in l.captured
  {
    var c := l.captured[l.dialled[x]];
    if c in l.closedChannels then l.(panicked := true)
    else l.(closedChannels := l.closedChannels + {c}, closing := l.closing - {x}, watching := l.watching + {x})
  }

  function Dropped(l: Links, x: nat): Links {
    l.(dropping := l.dropping - {x}, closedSessions := l.closedSessions + {x})
  }

  /** The test at the head of classifyAndMaybeEscalate. */
  predicate RaceRecent(s: State) {
    s.policy.lastRace > 0 && s.clock - s.policy.lastRace < SDP_RACE_WINDOW
  }

  /** A PeerConnection that failed reports at most that it is closed, one that is closed nothing more. */
  predicate MayReport(l: Links, e: nat, st: PcState) {
    1 <= e <= l.epoch && e !in l.shut && (e in l.failed ==> st.Closed?)
  }

  function Reported(l: Links, e: nat, st: PcState): Links {
    match st
    case Failed => l.(failed := l.failed + {e})
    case Closed => l.(shut := l.shut + {e})
    case _ => l
  }

  /** The liveness guard of OnConnectionStateChange, and the branch it then takes. */
  function Guarded(s: State, e: nat, st: PcState): State {
    var p := s.policy;
    if s.links.epoch != e then s
    else match st
      case Connected => s.(policy := p.(reports := p.reports + 1, resets := p.resets + {p.reports}))
      case Failed => s.(policy := p.(reports := p.reports + 1, classifies := p.classifies + {p.reports}))
      case Closed => s.(requests := s.requests + 1)
      case Disconnected => s
  }

  function StateChanged(s: State, e: nat, st: PcState): State {
    Guarded(s.(links := Reported(s.links, e, st)), e, st)
  }

  function Classified(s: State, c: nat): State {
    var p := s.policy.(classifies := s.policy.classifies - {c});
    if RaceRecent(s) then s.(policy := p, requests := s.requests + 1)
    else s.(policy := p.(counts := p.counts + {c}))
  }

  function Counted(s: State, c: nat): State {
    var p := s.policy.(counts := s.policy.counts - {c}, fails := s.policy.fails + 1);
    if p.fails < 2 then s.(policy := p, requests := s.requests + 1)
    else s.(policy := p.(latches := p.latches + {c}))
  }

  function LoopStep(s: State, ev: LoopEvent): Option<State> {
    var l := s.links;
    match ev
    case Take => if s.loop.Idle? && s.token then Some(s.(token := false, loop := Building)) else None
    case Build(ok) =>
      if !s.loop.Building? then None
      else if !ok then Some(s.(links := TearDown(l), loop := Backoff))
      else Some(s.(links := NextEpoch(TearDown(l)), loop := if l.role.Owner? then Idle else Offering))
    case Offer(ok) => if s.loop.Offering? then Some(s.(loop := if ok then Idle else Backoff)) else None
    case Retry => if s.loop.Backoff? then Some(s.(loop := Idle, token := true)) else None
  }

  function NetStep(s: State, ev: NetEvent): Option<State> {
    var p := s.policy;
    match ev
    case StateChange(e, st) => if MayReport(s.links, e, st) then Some(StateChanged(s, e, st)) else None
    case Reset(c) =>
      if c in p.resets then Some(s.(policy := p.(resets := p.resets - {c}, fails := 0))) else None
    case Classify(c) => if c in p.classifies then Some(Classified(s, c)) else None
    case Count(c) => if c in p.counts then Some(Counted(s, c)) else None
    case Latch(c) =>
      if c in p.latches
      then Some(s.(policy := p.(latches := p.latches - {c}, relayOnly := true), requests := s.requests + 1))
      else None
    case Request => if s.requests == 0 then None else Some(s.(requests := s.requests - 1, token := true))
    case Rejoined => Some(s.(token := true))
    case Race => if s.links.epoch == 0 then None else Some(s.(policy := p.(lastRace := s.clock)))
  }

  function TunnelStep(s: State, ev: TunnelEvent): Option<State> {
    var l := s.links;
    match ev
    case Open(e) => if 1 <= e <= l.epoch && e !in l.fired then Some(s.(links := Opened(l, e))) else None
    case DialDone(e, ok) =>
      if e in l.dialing && (ok ==> e !in l.hopeless)
      then Some(s.(links := Dialled(l, e, ok), token := s.token || !ok)) else None
    case Install(x) => if x in l.installing && x < |l.dialled| then Some(s.(links := Installed(l, x))) else None
    case CloseReady(x) =>
      if x in l.closing && x < |l.dialled| && l.dialled[x] in l.captured
      then Some(s.(links := ReadyClosed(l, x))) else None
    case Drop(x) => if x in l.dropping then Some(s.(links := Dropped(l, x))) else None
    case Watchdog(x) =>
      if x in l.watching && (x in l.closedSessions || x in l.deadSessions)
      then Some(s.(links := l.(watching := l.watching - {x}), token := true)) else None
    case Die(x) =>
      if x < |l.dialled| then Some(s.(links := l.(deadSessions := l.deadSessions + {x}))) else None
  }

  /** One atomic step, or None when the event cannot happen in this state. */
  function Step(s: State, ev: Event): Option<State> {
    if s.links.panicked then None
    else match ev
      case Tick(now) => if s.clock <= now then Some(s.(clock := now)) else None
      case Loop(le) => LoopStep(s, le)
      case Net(ne) => NetStep(s, ne)
      case Tunnel(te) => TunnelStep(s, te)
  }

  /** The state after a whole run, or None when some event of it could not happen. */
  function Exec(s: State, evs: seq<Event>): Option<State> {
    if evs == [] then Some(s)
    else
      var n := |evs| - 1;
      match Exec(s, evs[..n])
      case None => None
      case Some(t) => Step(t, evs[n])
  }

  lemma {:induction false} ExecAppend(s: State, a: seq<Event>, b: seq<Event>)
    ensures Exec(s, a + b) == if Exec(s, a).None? then None else Exec(Exec(s, a).value, b)
    decreases |b|
  {
    if b == [] {
      assert a + b == a;
    } else {
      var n := |b| - 1;
      assert (a + b)[..|a + b| - 1] == a + b[..n];
      ExecAppend(s, a, b[..n]);
    }
  }

  lemma {:induction false} ExecPrefix(s: State, evs: seq<Event>, k: nat)
    requires k <= |evs| && Exec(s, evs).Some?
    ensures Exec(s, evs[..k]).Some?
  {
    assert evs == evs[..k] + evs[k..];
    ExecAppend(s, evs[..k], evs[k..]);
  }

  /** The part of a run between two of its points is a run between the states there. */
  lemma ExecBetween(s: State, evs: seq<Event>, k: nat, l: nat)
    requires k <= l <= |evs| && Exec(s, evs).Some?
    ensures Exec(s, evs[..k]).Some? && Exec(s, evs[..l]).Some?
    ensures Exec(Exec(s, evs[..k]).value, evs[k..l]) == Exec(s, evs[..l])
  {
    ExecPrefix(s, evs, k);
    ExecPrefix(s, evs, l);
    assert evs[..l] == evs[..k] + evs[k..l];
    ExecAppend(s, evs[..k], evs[k..l]);
  }

  lemma ExecLast(s: State, evs: seq<Event>)
    requires evs != [] && Exec(s, evs).Some?
    ensures var n := |evs| - 1;
      Exec(s, evs[..n]).Some? && Step(Exec(s, evs[..n]).value, evs[n]) == Exec(s, evs)
  {
  }

  /** The k-th event of a run is a step between the states around it. */
  lemma ExecAt(s: State, evs: seq<Event>, k: nat)
    requires k < |evs| && Exec(s, evs).Some?
    ensures Exec(s, evs[..k]).Some? && Exec(s, evs[..k + 1]).Some?
    ensures Step(Exec(s, evs[..k]).value, evs[k]) == Exec(s, evs[..k + 1])
  {
    var upTo := evs[..k + 1];
    ExecPrefix(s, evs, k + 1);
    assert upTo[..k] == evs[..k] && upTo[k] == evs[k];
    ExecLast(s, upTo);
  }

  lemma ExecSnoc(s: State, evs: seq<Event>, ev: Event)
    requires Exec(s, evs).Some?
    ensures Exec(s, evs + [ev]) == Step(Exec(s, evs).value, ev)
  {
    assert (evs + [ev])[..|evs|] == evs;
  }

  lemma ExecOne(s: State, ev: Event)
    ensures Exec(s, [ev]) == Step(s, ev)
  {
    assert [ev][..0] == [];
  }

  lemma ExecFour(s: State, a: Event, b: Event, c: Event, d: Event)
    requires Step(s, a).Some?
    requires Step(Step(s, a).value, b).Some?
    requires Step(Step(Step(s, a).value, b).value, c).Some?
    ensures Exec(s, [a, b, c, d]) == Step(Step(Step(Step(s, a).value, b).value, c).value, d)
  {
    ExecOne(s, a);
    ExecSnoc(s, [a], b);
    assert [a] + [b] == [a, b];
    ExecSnoc(s, [a, b], c);
    assert [a, b] + [c] == [a, b, c];
    ExecSnoc(s, [a, b, c], d);
    assert [a, b, c] + [d] == [a, b, c, d];
  }
}
