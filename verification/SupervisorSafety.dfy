/** What every reachable supervisor state keeps, and exactly when the ready channel is closed twice. */
module SupervisorSafety {
  import opened Wrappers
  import opened Supervisor

  predicate InFlight(l: Links, x: nat) {
    x in l.installing || x in l.dropping
  }

  /** Every PeerConnection but the one held is closed, and the one held belongs to the current epoch. */
  ghost predicate PcInv(l: Links) {
    && (l.pc.Some? ==> 1 <= l.pc.value == l.epoch)
    && (forall e :: e in l.closedPcs ==> 1 <= e <= l.epoch)
    && (forall e :: e in l.failed || e in l.shut ==> 1 <= e <= l.epoch)
    && (forall e | 1 <= e <= l.epoch :: e in l.closedPcs <==> l.pc != Some(e))
  }

  /** Each session is in exactly one place, was dialled once by its epoch, and only the current epoch's is held. */
  ghost predicate SessionInv(l: Links) {
    && (l.mux.Some? ==> l.mux.value < |l.dialled| && l.dialled[l.mux.value] == l.epoch)
    && (forall x :: x in l.installing || x in l.dropping || x in l.closing || x in l.watching ==> x < |l.dialled|)
    && (forall x :: x in l.closedSessions || x in l.deadSessions ==> x < |l.dialled|)
    && l.installing !! l.dropping && l.closing !! l.watching
    && (forall x | 0 <= x < |l.dialled| :: !InFlight(l, x) <==> (l.mux == Some(x) || x in l.closedSessions))
    && (l.mux.Some? ==> l.mux.value !in l.closedSessions)
    && (forall x :: x in l.closing || x in l.watching ==> !InFlight(l, x))
  }

  /** OnOpen fires once per epoch, so an epoch is either still dialling or has at most one session. */
  ghost predicate DialInv(l: Links) {
    && (forall e :: e in l.fired ==> 1 <= e <= l.epoch)
    && l.dialing <= l.fired && l.hopeless <= l.fired
    && (forall x | 0 <= x < |l.dialled| :: l.dialled[x] in l.fired && l.dialled[x] !in l.dialing)
    && (forall x, y | 0 <= x < y < |l.dialled| :: l.dialled[x] != l.dialled[y])
  }

  /** Every ready channel ever made is closed or is the present one. */
  ghost predicate ReadyInv(l: Links) {
    && l.ready < l.channels
    && (forall c :: c in l.closedChannels ==> c < l.channels)
    && (forall c | 0 <= c < l.channels :: c in l.closedChannels || c == l.ready)
    && (l.role.Owner? ==> l.closing == {})
    && (l.role.Viewer? ==>
         && (forall e :: e in l.captured <==> 1 <= e <= l.epoch)
         && (forall e :: e in l.captured ==> l.captured[e] < l.channels)
         && (l.epoch >= 1 ==> l.captured[l.epoch] == l.ready))
  }

  ghost predicate Inv(l: Links) {
    PcInv(l) && SessionInv(l) && DialInv(l) && ReadyInv(l)
  }

  lemma TearDownKeeps(l: Links)
    requires Inv(l)
    ensures Inv(TearDown(l))
  {
  }

  lemma NextEpochPc(l: Links)
    requires PcInv(l) && l.pc.None?
    ensures PcInv(NextEpoch(l))
  {
  }

  lemma NextEpochSession(l: Links)
    requires SessionInv(l) && DialInv(l) && l.mux.None?
    ensures SessionInv(NextEpoch(l)) && DialInv(NextEpoch(l))
  {
  }

  lemma NextEpochReady(l: Links)
    requires ReadyInv(l)
    ensures ReadyInv(NextEpoch(l))
  {
  }

  lemma NextEpochKeeps(l: Links)
    requires Inv(l) && l.pc.None? && l.mux.None?
    ensures Inv(NextEpoch(l))
  {
    NextEpochPc(l);
    NextEpochSession(l);
    NextEpochReady(l);
  }

  lemma OpenKeeps(l: Links, e: nat)
    requires Inv(l) && 1 <= e <= l.epoch && e !in l.fired
    ensures Inv(Opened(l, e))
  {
  }

  lemma DialDoneKeeps(l: Links, e: nat, ok: bool)
    requires Inv(l) && e in l.dialing
    ensures Inv(Dialled(l, e, ok))
  {
    var t := Dialled(l, e, ok);
    assert DialInv(t);
    assert SessionInv(t);
  }

  lemma InstallLate(l: Links, x: nat)
    requires SessionInv(l) && x in l.installing && l.dialled[x] != l.epoch
    ensures SessionInv(Installed(l, x))
  {
  }

  lemma InstallLive(l: Links, x: nat)
    requires SessionInv(l) && DialInv(l) && x in l.installing && l.dialled[x] == l.epoch
    ensures SessionInv(Installed(l, x))
  {
    assert l.mux.None?;
    var t := Installed(l, x);
    forall y | 0 <= y < |t.dialled|
      ensures !InFlight(t, y) <==> (t.mux == Some(y) || y in t.closedSessions)
    {
      assert InFlight(t, y) <==> y != x && InFlight(l, y);
    }
  }

  lemma InstallKeeps(l: Links, x: nat)
    requires Inv(l) && x in l.installing
    ensures Inv(Installed(l, x))
  {
    if l.dialled[x] == l.epoch { InstallLive(l, x); } else { InstallLate(l, x); }
    assert DialInv(Installed(l, x));
    assert PcInv(Installed(l, x));
    assert ReadyInv(Installed(l, x));
  }

  lemma CloseReadySession(l: Links, x: nat)
    requires SessionInv(l) && x in l.closing && l.dialled[x] in l.captured
    ensures SessionInv(ReadyClosed(l, x))
  {
  }

  lemma CloseReadyChannel(l: Links, x: nat)
    requires ReadyInv(l) && x in l.closing && x < |l.dialled| && l.dialled[x] in l.captured
    ensures ReadyInv(ReadyClosed(l, x))
  {
  }

  lemma CloseReadyKeeps(l: Links, x: nat)
    requires Inv(l) && x in l.closing && l.dialled[x] in l.captured
    ensures Inv(ReadyClosed(l, x))
  {
    CloseReadySession(l, x);
    CloseReadyChannel(l, x);
  }

  lemma DropKeeps(l: Links, x: nat)
    requires Inv(l) && x in l.dropping
    ensures Inv(Dropped(l, x))
  {
  }

  lemma TunnelKeeps(s: State, ev: TunnelEvent)
    requires Inv(s.links) && TunnelStep(s, ev).Some?
    ensures Inv(TunnelStep(s, ev).value.links)
  {
    var l := s.links;
    match ev
    case Open(e) => OpenKeeps(l, e);
    case DialDone(e, ok) => DialDoneKeeps(l, e, ok);
    case Install(x) => InstallKeeps(l, x);
    case CloseReady(x) => CloseReadyKeeps(l, x);
    case Drop(x) => DropKeeps(l, x);
    case Watchdog(x) => WatchdogKeeps(l, x);
    case Die(x) => DieKeeps(l, x);
  }

  lemma WatchdogKeeps(l: Links, x: nat)
    requires Inv(l)
    ensures Inv(l.(watching := l.watching - {x}))
  {
  }

  lemma DieKeeps(l: Links, x: nat)
    requires Inv(l) && x < |l.dialled|
    ensures Inv(l.(deadSessions := l.deadSessions + {x}))
  {
  }

  lemma ReportKeeps(l: Links, e: nat, st: PcState)
    requires Inv(l) && 1 <= e <= l.epoch
    ensures Inv(Reported(l, e, st))
  {
  }

  /** Of what comes in from outside, only a report touches the links. */
  lemma NetLinks(s: State, ev: NetEvent)
    requires NetStep(s, ev).Some?
    ensures NetStep(s, ev).value.links == if ev.StateChange? then Reported(s.links, ev.epoch, ev.state) else s.links
  {
  }

  /** And of what the loop does, only a build. */
  lemma LoopLinks(s: State, ev: LoopEvent)
    requires LoopStep(s, ev).Some?
    ensures LoopStep(s, ev).value.links ==
      if !ev.Build? then s.links else if ev.ok then NextEpoch(TearDown(s.links)) else TearDown(s.links)
  {
  }

  /** One step keeps the invariant, whatever the event. */
  lemma InvStep(s: State, ev: Event)
    requires Inv(s.links) && Step(s, ev).Some?
    ensures Inv(Step(s, ev).value.links)
  {
    match ev
    case Tick(_) =>
    case Loop(le) =>
      LoopLinks(s, le);
      TearDownKeeps(s.links);
      NextEpochKeeps(TearDown(s.links));
    case Tunnel(te) => TunnelKeeps(s, te);
    case Net(ne) =>
      NetLinks(s, ne);
      if ne.StateChange? { ReportKeeps(s.links, ne.epoch, ne.state); }
  }

  lemma {:induction false} InvRun(s: State, evs: seq<Event>)
    requires Inv(s.links) && Exec(s, evs).Some?
    ensures Inv(Exec(s, evs).value.links)
  {
    if evs != [] {
      var n := |evs| - 1;
      InvRun(s, evs[..n]);
      InvStep(Exec(s, evs[..n]).value, evs[n]);
    }
  }

  /**
  After any run from the start: at most one (PeerConnection, session) pair is held, both belong to the current
  epoch, everything else that was created is closed, and a session not yet closed is in flight or held, not both.
  */
  lemma OnePairAtATime(role: Role, forced: bool, now: int, evs: seq<Event>)
    requires Exec(Init(role, forced, now), evs).Some?
    ensures var l := Exec(Init(role, forced, now), evs).value.links;
      && (l.mux.Some? ==> l.mux.value < |l.dialled| && l.dialled[l.mux.value] == l.epoch)
      && (l.pc.Some? ==> l.pc.value == l.epoch)
      && (forall e | 1 <= e <= l.epoch :: e in l.closedPcs <==> l.pc != Some(e))
      && (forall x | 0 <= x < |l.dialled| ::
           && (InFlight(l, x) || l.mux == Some(x) || x in l.closedSessions)
           && !(InFlight(l, x) && l.mux == Some(x))
           && !(InFlight(l, x) && x in l.closedSessions)
           && !(l.mux == Some(x) && x in l.closedSessions))
  {
    InvRun(Init(role, forced, now), evs);
  }

  lemma StepGrows(s: State, ev: Event)
    requires Step(s, ev).Some?
    ensures var t := Step(s, ev).value.links; s.links.channels <= t.channels && s.links.role == t.role
  {
  }

  lemma {:induction false} RunGrows(s: State, evs: seq<Event>)
    requires Exec(s, evs).Some?
    ensures var t := Exec(s, evs).value.links; s.links.channels <= t.channels && s.links.role == t.role
  {
    if evs != [] {
      var n := |evs| - 1;
      ExecLast(s, evs);
      RunGrows(s, evs[..n]);
      StepGrows(Exec(s, evs[..n]).value, evs[n]);
    }
  }

  lemma HandedOut(s: State, evs: seq<Event>)
    requires Inv(s.links) && Exec(s, evs).Some?
    ensures var l := Exec(s, evs).value.links; s.links.ready in l.closedChannels || s.links.ready == l.ready
  {
    InvRun(s, evs);
    RunGrows(s, evs);
  }

  /** A channel handed out by snapshotMux at any moment of a run is closed by its end or is still the present one. */
  lemma NoStrandedWaiter(role: Role, forced: bool, now: int, evs: seq<Event>, k: nat)
    requires k <= |evs| && Exec(Init(role, forced, now), evs).Some?
    ensures Exec(Init(role, forced, now), evs[..k]).Some?
    ensures var handed, l := Exec(Init(role, forced, now), evs[..k]).value.links.ready,
                             Exec(Init(role, forced, now), evs).value.links;
      handed in l.closedChannels || handed == l.ready
  {
    var s := Init(role, forced, now);
    ExecBetween(s, evs, k, |evs|);
    assert evs[..|evs|] == evs;
    InvRun(s, evs[..k]);
    HandedOut(Exec(s, evs[..k]).value, evs[k..|evs|]);
  }

  /** Finishing the install of the current epoch leaves no open channel: every proxy goroutine ever parked wakes. */
  lemma InstallWakesAll(s: State, x: nat)
    requires Inv(s.links) && s.links.role.Viewer? && TunnelStep(s, CloseReady(x)).Some?
    requires s.links.dialled[x] == s.links.epoch
    requires !TunnelStep(s, CloseReady(x)).value.links.panicked
    ensures var t := TunnelStep(s, CloseReady(x)).value.links;
      forall c | 0 <= c < t.channels :: c in t.closedChannels
  {
  }

  /** Parked callbacks belong to reports that were made, and each is at one step only. */
  ghost predicate Named(p: Policy) {
    && (forall c :: c in p.resets || c in p.classifies || c in p.counts || c in p.latches ==> c < p.reports)
    && p.resets !! p.classifies !! p.counts !! p.latches
  }

  lemma NamedNet(s: State, ev: NetEvent)
    requires Named(s.policy) && NetStep(s, ev).Some?
    ensures Named(NetStep(s, ev).value.policy)
  {
  }

  lemma NamedStep(s: State, ev: Event)
    requires Named(s.policy) && Step(s, ev).Some?
    ensures Named(Step(s, ev).value.policy)
  {
    match ev
    case Net(ne) => NamedNet(s, ne);
    case _ =>
  }

  lemma {:induction false} NamedRun(s: State, evs: seq<Event>)
    requires Named(s.policy) && Exec(s, evs).Some?
    ensures Named(Exec(s, evs).value.policy)
  {
    if evs != [] {
      NamedRun(s, evs[..|evs| - 1]);
      NamedStep(Exec(s, evs[..|evs| - 1]).value, evs[|evs| - 1]);
    }
  }

  // ------------------------------------------------------------------------------------------------------------
  // Closing the ready channel twice
  // ------------------------------------------------------------------------------------------------------------

  /** A session is installed and the channel the next epoch would reuse is about to be closed for it. */
  ghost predicate Racy(l: Links) {
    exists x :: x in l.closing && x < |l.dialled| && l.dialled[x] in l.captured && l.captured[l.dialled[x]] == l.ready
  }

  /** The one OnOpen of the current epoch has run to the end of its install. */
  ghost predicate Spent(l: Links) {
    && l.epoch in l.fired && l.epoch !in l.dialing
    && forall x :: x in l.installing ==> x < |l.dialled| && l.dialled[x] != l.epoch
  }

  /** What holds as long as no epoch was started in a racy state. */
  ghost predicate Calm(l: Links) {
    && !l.panicked
    && (forall x :: x in l.closing ==> x < |l.dialled| && l.dialled[x] == l.epoch)
    && (l.closing != {} ==> l.ready !in l.closedChannels && Spent(l))
    && (l.role.Viewer? && l.ready in l.closedChannels ==> Spent(l))
    && (l.role.Viewer? && l.mux.Some? ==> l.ready in l.closedChannels || l.mux.value in l.closing)
  }

  /** A step that may start an epoch does so in a state that is not racy. */
  ghost predicate Careful(s: State, ev: Event) {
    ev == Loop(Build(true)) ==> !Racy(s.links)
  }

  lemma RacyWhileClosing(l: Links)
    requires Inv(l) && Calm(l) && l.closing != {}
    ensures Racy(l)
  {
    var x :| x in l.closing;
    assert l.captured[l.dialled[x]] == l.ready;
  }

  lemma CalmNextEpoch(l: Links)
    requires Inv(l) && Calm(l) && l.closing == {}
    ensures Calm(NextEpoch(TearDown(l)))
  {
  }

  lemma CalmTunnel(s: State, ev: TunnelEvent)
    requires Inv(s.links) && Calm(s.links) && TunnelStep(s, ev).Some?
    ensures Calm(TunnelStep(s, ev).value.links)
  {
    var l := s.links;
    match ev
    case Open(e) =>
    case DialDone(e, ok) =>
    case Install(x) => CalmInstall(l, x);
    case CloseReady(x) => CalmClose(l, x);
    case Drop(x) =>
    case Watchdog(x) =>
    case Die(x) =>
  }

  lemma CalmInstall(l: Links, x: nat)
    requires Inv(l) && Calm(l) && x in l.installing
    ensures Calm(Installed(l, x))
  {
    var t := Installed(l, x);
    if l.dialled[x] == l.epoch {
      assert l.closing == {};
      forall y | y in t.installing
        ensures y < |t.dialled| && t.dialled[y] != t.epoch
      {
        assert y < x || x < y;
      }
    }
  }

  lemma CalmClose(l: Links, x: nat)
    requires Inv(l) && Calm(l) && x in l.closing && l.dialled[x] in l.captured
    ensures Calm(ReadyClosed(l, x))
  {
    forall y | y in l.closing
      ensures y == x
    {
      assert y < x || x < y || x == y;
    }
  }

  lemma CalmReport(l: Links, e: nat, st: PcState)
    requires Calm(l)
    ensures Calm(Reported(l, e, st))
  {
  }

  lemma CalmTearDown(l: Links)
    requires Inv(l) && Calm(l)
    ensures Calm(TearDown(l))
  {
  }

  lemma CalmLoop(s: State, ev: LoopEvent)
    requires Inv(s.links) && Calm(s.links) && LoopStep(s, ev).Some? && Careful(s, Loop(ev))
    ensures Calm(LoopStep(s, ev).value.links)
  {
    LoopLinks(s, ev);
    if ev.Build? {
      CalmTearDown(s.links);
      if ev.ok {
        if s.links.closing != {} { RacyWhileClosing(s.links); }
        CalmNextEpoch(s.links);
      }
    }
  }

  lemma CalmStep(s: State, ev: Event)
    requires Inv(s.links) && Calm(s.links) && Step(s, ev).Some? && Careful(s, ev)
    ensures Calm(Step(s, ev).value.links)
  {
    match ev
    case Tick(_) =>
    case Loop(le) => CalmLoop(s, le);
    case Net(ne) =>
      NetLinks(s, ne);
      if ne.StateChange? { CalmReport(s.links, ne.epoch, ne.state); }
    case Tunnel(te) => CalmTunnel(s, te);
  }

  /** Every epoch of the run, from its k-th event on, is started in a state that is not racy. */
  ghost predicate CarefulFrom(s: State, evs: seq<Event>, k: nat) {
    forall i | k <= i < |evs| :: CarefulAt(s, evs, i)
  }

  ghost predicate CarefulAt(s: State, evs: seq<Event>, i: nat)
    requires i < |evs|
  {
    Exec(s, evs[..i]).Some? ==> Careful(Exec(s, evs[..i]).value, evs[i])
  }

  lemma CarefulPrefix(s: State, evs: seq<Event>, k: nat)
    requires evs != [] && CarefulFrom(s, evs, k)
    ensures CarefulFrom(s, evs[..|evs| - 1], k)
  {
    var n := |evs| - 1;
    forall i | k <= i < n
      ensures CarefulAt(s, evs[..n], i)
    {
      assert evs[..n][..i] == evs[..i];
      assert CarefulAt(s, evs, i);
    }
  }

  lemma {:induction false} CalmRun(s: State, evs: seq<Event>, k: nat)
    requires Inv(s.links) && k <= |evs| && Exec(s, evs).Some? && CarefulFrom(s, evs, k)
    requires Exec(s, evs[..k]).Some? && Calm(Exec(s, evs[..k]).value.links)
    ensures Calm(Exec(s, evs).value.links)
  {
    if |evs| == k {
      assert evs[..k] == evs;
    } else {
      var n := |evs| - 1;
      assert evs[..n][..k] == evs[..k];
      ExecLast(s, evs);
      CarefulPrefix(s, evs, k);
      CalmRun(s, evs[..n], k);
      InvRun(s, evs[..n]);
      assert CarefulAt(s, evs, n);
      CalmStep(Exec(s, evs[..n]).value, evs[n]);
    }
  }

  /** Runs that never start an epoch inside the window close each channel once, and a held session is announced. */
  lemma CarefulRunsCloseOnce(role: Role, forced: bool, now: int, evs: seq<Event>)
    requires Exec(Init(role, forced, now), evs).Some? && CarefulFrom(Init(role, forced, now), evs, 0)
    ensures var l := Exec(Init(role, forced, now), evs).value.links;
      && !l.panicked
      && (role.Viewer? && l.mux.Some? ==> l.ready in l.closedChannels || l.mux.value in l.closing)
  {
    RunGrows(Init(role, forced, now), evs);
    CalmRun(Init(role, forced, now), evs, 0);
  }

  /** No continuation that starts an epoch now, and is careful afterwards, ends the process. */
  ghost predicate SafeToBuild(s: State) {
    forall evs | |evs| > 0 && evs[0] == Loop(Build(true)) && CarefulFrom(s, evs, 1) && Exec(s, evs).Some? ::
      !Exec(s, evs).value.links.panicked
  }

  /** Two installed sessions are about to close the same open channel. */
  ghost predicate Doubled(l: Links, x: nat, y: nat) {
    && !l.panicked && x != y && x in l.closing && y in l.closing && x < |l.dialled| && y < |l.dialled|
    && l.dialled[x] in l.captured && l.dialled[y] in l.captured
    && l.captured[l.dialled[x]] == l.captured[l.dialled[y]] && l.captured[l.dialled[y]] !in l.closedChannels
  }

  lemma DoubledPanics(s: State, x: nat, y: nat)
    requires Doubled(s.links, x, y)
    ensures var after := Exec(s, [Tunnel(CloseReady(y)), Tunnel(CloseReady(x))]);
      after.Some? && after.value.links.panicked
  {
    ExecOne(s, Tunnel(CloseReady(y)));
    assert [Tunnel(CloseReady(y))] + [Tunnel(CloseReady(x))] == [Tunnel(CloseReady(y)), Tunnel(CloseReady(x))];
    ExecSnoc(s, [Tunnel(CloseReady(y))], Tunnel(CloseReady(x)));
  }

  /** The new epoch's channel opens, and its dial succeeds. */
  lemma ReuseInstalls(l: Links)
    requires Inv(l) && l.role.Viewer?
    ensures var m := NextEpoch(TearDown(l));
      var e, y := m.epoch, |m.dialled|;
      var o := Opened(m, e);
      var d := Dialled(o, e, true);
      && e !in m.fired && e in o.dialing && e !in o.hopeless
      && y in d.installing && y < |d.dialled| && d.dialled[y] == d.epoch
  {
  }

  lemma ReuseIsDoubled(l: Links, x: nat)
    requires Inv(l) && Calm(l) && l.role.Viewer? && x in l.closing
    ensures var m, y := NextEpoch(TearDown(l)), |l.dialled|;
      var d := Dialled(Opened(m, m.epoch), m.epoch, true);
      y < |d.dialled| && Doubled(Installed(d, y), x, y)
  {
    ReuseInstalls(l);
  }

  /** A new epoch started in the window reuses the open channel; its session is installed before the close. */
  lemma ReuseDoubles(s: State, x: nat) returns (evs: seq<Event>)
    requires Inv(s.links) && Calm(s.links) && s.links.role.Viewer? && s.loop.Building? && x in s.links.closing
    ensures var after := Exec(s, evs); after.Some? && Doubled(after.value.links, x, |s.links.dialled|)
    ensures |evs| == 4 && evs[0] == Loop(Build(true)) && Loop(Build(true)) !in evs[1..]
  {
    var l := s.links;
    var e, y := l.epoch + 1, |l.dialled|;
    ReuseInstalls(l);
    ReuseIsDoubled(l, x);
    evs := [Loop(Build(true)), Tunnel(Open(e)), Tunnel(DialDone(e, true)), Tunnel(Install(y))];
    ExecFour(s, evs[0], evs[1], evs[2], evs[3]);
  }

  /** The continuation that closes the shared channel twice: the new epoch announces before the old one does. */
  lemma CollisionPanics(s: State, x: nat) returns (evs: seq<Event>)
    requires Inv(s.links) && Calm(s.links) && s.links.role.Viewer? && s.loop.Building? && x in s.links.closing
    ensures Exec(s, evs).Some? && Exec(s, evs).value.links.panicked
    ensures |evs| > 0 && evs[0] == Loop(Build(true)) && Loop(Build(true)) !in evs[1..]
  {
    var first := ReuseDoubles(s, x);
    var y := |s.links.dialled|;
    DoubledPanics(Exec(s, first).value, x, y);
    ExecAppend(s, first, [Tunnel(CloseReady(y)), Tunnel(CloseReady(x))]);
    evs := first + [Tunnel(CloseReady(y)), Tunnel(CloseReady(x))];
  }

  lemma SafeExactlyWhenNotRacy(s: State)
    requires Inv(s.links) && Calm(s.links) && s.links.role.Viewer? && s.loop.Building?
    ensures SafeToBuild(s) <==> !Racy(s.links)
  {
    if Racy(s.links) {
      var x :| x in s.links.closing;
      var evs := CollisionPanics(s, x);
      assert CarefulFrom(s, evs, 1) by {
        forall i | 1 <= i < |evs|
          ensures CarefulAt(s, evs, i)
        {
          assert evs[i] in evs[1..];
        }
      }
      assert !SafeToBuild(s);
    } else {
      forall evs | |evs| > 0 && evs[0] == Loop(Build(true)) && CarefulFrom(s, evs, 1) && Exec(s, evs).Some?
        ensures !Exec(s, evs).value.links.panicked
      {
        ExecPrefix(s, evs, 1);
        assert evs[..1] == [evs[0]];
        ExecOne(s, evs[0]);
        CalmStep(s, evs[0]);
        CalmRun(s, evs, 1);
      }
    }
  }

  /**
  The exact condition, for every viewer run that got this far without starting an epoch inside the window: starting
  one now can lead to a double close if and only if the close of the present ready channel is still pending.
  */
  lemma DoubleCloseExactly(forced: bool, now: int, evs: seq<Event>)
    requires Exec(Init(Viewer, forced, now), evs).Some? && CarefulFrom(Init(Viewer, forced, now), evs, 0)
    requires Exec(Init(Viewer, forced, now), evs).value.loop.Building?
    ensures var s := Exec(Init(Viewer, forced, now), evs).value; SafeToBuild(s) <==> !Racy(s.links)
  {
    var s := Init(Viewer, forced, now);
    InvRun(s, evs);
    RunGrows(s, evs);
    CalmRun(s, evs, 0);
    SafeExactlyWhenNotRacy(Exec(s, evs).value);
  }

  lemma FirstDial(forced: bool, now: int) returns (evs: seq<Event>)
    ensures var after := Exec(Init(Viewer, forced, now), evs);
      && after.Some? && after.value.loop.Idle?
      && after.value.links == Opened(NextEpoch(Init(Viewer, forced, now).links), 1)
  {
    evs := [Loop(Take), Loop(Build(true)), Loop(Offer(true)), Tunnel(Open(1))];
    ExecFour(Init(Viewer, forced, now), evs[0], evs[1], evs[2], evs[3]);
  }

  lemma ReturnInWindow(s: State, forced: bool, now: int) returns (evs: seq<Event>)
    requires s.loop.Idle? && s.links == Opened(NextEpoch(Init(Viewer, forced, now).links), 1)
    ensures var after := Exec(s, evs);
      && after.Some? && after.value.loop.Building? && after.value.links.role.Viewer?
      && 0 in after.value.links.closing && Calm(after.value.links)
  {
    evs := [Tunnel(DialDone(1, true)), Tunnel(Install(0)), Net(Rejoined), Loop(Take)];
    ExecFour(s, evs[0], evs[1], evs[2], evs[3]);
  }

  /** Such a state is reachable: the peer returns between the install and the close. */
  lemma DoubleCloseReachable(forced: bool, now: int) returns (evs: seq<Event>)
    ensures Exec(Init(Viewer, forced, now), evs).Some? && Exec(Init(Viewer, forced, now), evs).value.links.panicked
  {
    var s := Init(Viewer, forced, now);
    var first := FirstDial(forced, now);
    var second := ReturnInWindow(Exec(s, first).value, forced, now);
    ExecAppend(s, first, second);
    InvRun(s, first + second);
    var third := CollisionPanics(Exec(s, first + second).value, 0);
    ExecAppend(s, first + second, third);
    evs := first + second + third;
  }
}
