/** Where rebuilds come from: none is lost, and each is paid for. */
module SupervisorAccounting {
  import opened Wrappers
  import opened Supervisor
  import opened SupervisorSafety
  import opened SupervisorHistory

  function Bit(b: bool): nat { if b then 1 else 0 }

  /** The one rebuild request an event brings into the system, if it brings one. */
  function Charge(s: State, ev: Event): nat {
    match ev
    case Loop(Build(ok)) => Bit(!ok)
    case Loop(Offer(ok)) => Bit(!ok)
    case Net(StateChange(e, st)) => Bit(s.links.epoch == e && (st.Failed? || st.Closed?))
    case Net(Rejoined) => 1
    case Tunnel(DialDone(_, ok)) => Bit(!ok)
    case Tunnel(Install(x)) => Bit(x < |s.links.dialled| && s.links.dialled[x] == s.links.epoch)
    case _ => 0
  }

  function Charges(s: State, evs: seq<Event>): nat {
    if evs == [] then 0
    else
      var n := |evs| - 1;
      Charges(s, evs[..n]) + (match Exec(s, evs[..n]) case None => 0 case Some(t) => Charge(t, evs[n]))
  }

  /** How many rebuilds the run loop has started. */
  function Starts(evs: seq<Event>): nat {
    if evs == [] then 0 else Starts(evs[..|evs| - 1]) + Bit(evs[|evs| - 1] == Loop(Take))
  }

  /** Watchdogs parked or about to be: each will ask for one rebuild. */
  function Watchers(l: Links): nat { |l.closing| + |l.watching| }

  /** Failure callbacks parked on their way to a request. */
  function Failures(p: Policy): nat { |p.classifies| + |p.counts| + |p.latches| }

  /** Rebuilds that are still to come from what is pending or parked. */
  function Owed(s: State): nat {
    Bit(s.token) + Parked(s) + Bit(s.loop.Backoff?) + Watchers(s.links)
  }

  lemma AddOne(a: set<nat>, x: nat)
    ensures |a + {x}| <= |a| + 1
  {
    if x in a { assert a + {x} == a; }
  }

  lemma InstallWatchers(l: Links, x: nat)
    requires x < |l.dialled|
    ensures Watchers(Installed(l, x)) <= Watchers(l) + Bit(l.dialled[x] == l.epoch)
  {
    AddOne(l.closing, x);
    AddOne(l.watching, x);
  }

  lemma CloseWatchers(l: Links, x: nat)
    requires x in l.closing && x < |l.dialled| && l.dialled[x] in l.captured
    ensures Watchers(ReadyClosed(l, x)) <= Watchers(l)
  {
    AddOne(l.watching, x);
  }

  lemma TakeOne(a: set<nat>, x: nat)
    requires x in a
    ensures |a - {x}| == |a| - 1
  {
  }

  lemma AccountInstall(s: State, x: nat)
    requires TunnelStep(s, Install(x)).Some?
    ensures Owed(TunnelStep(s, Install(x)).value) <= Owed(s) + Charge(s, Tunnel(Install(x)))
  {
    InstallWatchers(s.links, x);
  }

  lemma AccountClose(s: State, x: nat)
    requires TunnelStep(s, CloseReady(x)).Some?
    ensures Owed(TunnelStep(s, CloseReady(x)).value) <= Owed(s)
  {
    CloseWatchers(s.links, x);
  }

  lemma AccountWatchdog(s: State, x: nat)
    requires TunnelStep(s, Watchdog(x)).Some?
    ensures Owed(TunnelStep(s, Watchdog(x)).value) <= Owed(s)
  {
    TakeOne(s.links.watching, x);
  }

  lemma AccountDial(s: State, ev: TunnelEvent)
    requires TunnelStep(s, ev).Some? && !ev.Install? && !ev.CloseReady? && !ev.Watchdog?
    ensures Owed(TunnelStep(s, ev).value) <= Owed(s) + Charge(s, Tunnel(ev))
  {
    TunnelOnly(s, ev);
    assert Watchers(TunnelStep(s, ev).value.links) == Watchers(s.links);
  }

  lemma AccountTunnel(s: State, ev: TunnelEvent)
    requires TunnelStep(s, ev).Some?
    ensures Owed(TunnelStep(s, ev).value) <= Owed(s) + Charge(s, Tunnel(ev))
  {
    match ev
    case Install(x) => AccountInstall(s, x);
    case CloseReady(x) => AccountClose(s, x);
    case Watchdog(x) => AccountWatchdog(s, x);
    case _ => AccountDial(s, ev);
  }

  lemma TunnelOnly(s: State, ev: TunnelEvent)
    requires TunnelStep(s, ev).Some?
    ensures var t := TunnelStep(s, ev).value; t == s.(token := t.token, links := t.links)
  {
  }

  /** Requests parked, and the failures on their way to one. */
  function Parked(s: State): nat { s.requests + Failures(s.policy) }

  lemma AccountReport(s: State, e: nat, st: PcState)
    ensures Parked(StateChanged(s, e, st)) <= Parked(s) + Bit(s.links.epoch == e && (st.Failed? || st.Closed?))
    ensures Watchers(StateChanged(s, e, st).links) == Watchers(s.links) && StateChanged(s, e, st).token == s.token
    ensures StateChanged(s, e, st).loop == s.loop
  {
    AddOne(s.policy.classifies, s.policy.reports);
  }

  lemma AccountClassify(s: State, c: nat)
    requires c in s.policy.classifies
    ensures Parked(Classified(s, c)) <= Parked(s)
  {
    TakeOne(s.policy.classifies, c);
    AddOne(s.policy.counts, c);
  }

  lemma AccountCount(s: State, c: nat)
    requires c in s.policy.counts
    ensures Parked(Counted(s, c)) <= Parked(s)
  {
    TakeOne(s.policy.counts, c);
    AddOne(s.policy.latches, c);
  }

  lemma AccountLatch(s: State, c: nat)
    requires NetStep(s, Latch(c)).Some?
    ensures Parked(NetStep(s, Latch(c)).value) <= Parked(s)
  {
    TakeOne(s.policy.latches, c);
  }

  /** A callback on its way and the latch of relay-only touch nothing but what is parked. */
  lemma AccountPolicy(s: State, ev: NetEvent)
    requires NetStep(s, ev).Some? && (ev.Classify? || ev.Count? || ev.Latch?)
    ensures var t := NetStep(s, ev).value;
      Parked(t) <= Parked(s) && t == s.(policy := t.policy, requests := t.requests)
  {
    match ev
    case Classify(c) => AccountClassify(s, c);
    case Count(c) => AccountCount(s, c);
    case Latch(c) => AccountLatch(s, c);
  }

  lemma AccountNet(s: State, ev: NetEvent)
    requires NetStep(s, ev).Some?
    ensures Owed(NetStep(s, ev).value) <= Owed(s) + Charge(s, Net(ev))
  {
    if ev.StateChange? {
      AccountReport(s, ev.epoch, ev.state);
    } else if ev.Classify? || ev.Count? || ev.Latch? {
      AccountPolicy(s, ev);
    }
  }

  lemma AccountLoop(s: State, ev: LoopEvent)
    requires LoopStep(s, ev).Some?
    ensures Bit(ev == Take) + Owed(LoopStep(s, ev).value) <= Owed(s) + Charge(s, Loop(ev))
  {
    if ev.Build? { assert Watchers(NextEpoch(TearDown(s.links))) == Watchers(s.links); }
  }

  lemma AccountStep(s: State, ev: Event)
    requires Step(s, ev).Some?
    ensures Bit(ev == Loop(Take)) + Owed(Step(s, ev).value) <= Owed(s) + Charge(s, ev)
  {
    match ev
    case Loop(le) => AccountLoop(s, le);
    case Net(ne) => AccountNet(s, ne);
    case Tunnel(te) => AccountTunnel(s, te);
    case Tick(_) =>
  }

  /** Over every run, rebuilds started and still owed are covered by what was owed at first and what events brought. */
  lemma {:induction false} RebuildsArePaidFor(s: State, evs: seq<Event>)
    requires Exec(s, evs).Some?
    ensures Starts(evs) + Owed(Exec(s, evs).value) <= Owed(s) + Charges(s, evs)
  {
    if evs != [] {
      var n := |evs| - 1;
      ExecLast(s, evs);
      RebuildsArePaidFor(s, evs[..n]);
      AccountStep(Exec(s, evs[..n]).value, evs[n]);
    }
  }

  /**
  What an event of a run may ask for, told from the events alone: a failure, closing or install counts only in its own
  epoch, a dial error only if the dial was begun by a channel that opened in its own epoch.
  */
  ghost function Trouble(evs: seq<Event>, ev: Event): nat {
    match ev
    case Loop(Build(ok)) => Bit(!ok)
    case Loop(Offer(ok)) => Bit(!ok)
    case Net(StateChange(e, st)) => Bit(Built(evs) == e && (st.Failed? || st.Closed?))
    case Net(Rejoined) => 1
    case Tunnel(DialDone(e, ok)) => Bit(!ok && OpenedLive(evs, e))
    case Tunnel(Install(x)) => Bit(x < |Dials(evs)| && Dials(evs)[x] == Built(evs))
    case _ => 0
  }

  ghost function Troubles(evs: seq<Event>): nat {
    if evs == [] then 0 else Troubles(evs[..|evs| - 1]) + Trouble(evs[..|evs| - 1], evs[|evs| - 1])
  }

  lemma ChargeIsTrouble(s: State, ev: Event, evs: seq<Event>)
    requires Remembered(s.links, evs) && Step(s, ev).Some?
    ensures Charge(s, ev) == Trouble(evs, ev)
  {
    if ev.Tunnel? && ev.tunnel.DialDone? { assert ev.tunnel.epoch in s.links.dialing; }
  }

  lemma {:induction false} ChargesAreTroubles(role: Role, forced: bool, now: int, evs: seq<Event>)
    requires Exec(Init(role, forced, now), evs).Some?
    ensures Charges(Init(role, forced, now), evs) == Troubles(evs)
  {
    if evs != [] {
      var s0, front := Init(role, forced, now), evs[..|evs| - 1];
      ExecLast(s0, evs);
      ChargesAreTroubles(role, forced, now, front);
      RememberedRun(role, forced, now, front);
      ChargeIsTrouble(Exec(s0, front).value, evs[|evs| - 1], front);
    }
  }

  /** From the start of a session the only rebuild that is free is the first; each other one has its event. */
  lemma RebuildBound(role: Role, forced: bool, now: int, evs: seq<Event>)
    requires Exec(Init(role, forced, now), evs).Some?
    ensures Starts(evs) <= 1 + Troubles(evs)
  {
    RebuildsArePaidFor(Init(role, forced, now), evs);
    ChargesAreTroubles(role, forced, now, evs);
  }

  /** Some goroutine, the loop or the token still has a rebuild request to pass on. */
  predicate Pressing(s: State) {
    || s.token || s.requests > 0 || s.loop.Backoff?
    || s.policy.classifies != {} || s.policy.counts != {} || s.policy.latches != {}
  }

  /** The events after which a rebuild is being asked for. */
  predicate Asks(s: State, ev: Event) {
    match ev
    case Tunnel(Install(_)) => false
    case Tunnel(Watchdog(_)) => true
    case Net(Request) => true
    case Loop(Retry) => true
    case _ => Charge(s, ev) > 0
  }

  lemma PressingNet(s: State, ev: NetEvent)
    requires NetStep(s, ev).Some?
    ensures Pressing(s) ==> Pressing(NetStep(s, ev).value)
    ensures Asks(s, Net(ev)) ==> Pressing(NetStep(s, ev).value)
  {
    if ev.StateChange? && ev.state.Failed? && ev.epoch == s.links.epoch {
      assert s.policy.reports in NetStep(s, ev).value.policy.classifies;
    }
    if ev.Classify? && !RaceRecent(s) { assert ev.report in NetStep(s, ev).value.policy.counts; }
    if ev.Count? && s.policy.fails >= 1 { assert ev.report in NetStep(s, ev).value.policy.latches; }
    PressingParked(s, ev);
  }

  /** A parked callback stays parked until its own next step. */
  lemma PressingParked(s: State, ev: NetEvent)
    requires NetStep(s, ev).Some?
    ensures var p, q := s.policy, NetStep(s, ev).value.policy;
      && (forall c :: c in p.classifies && ev != Classify(c) ==> c in q.classifies)
      && (forall c :: c in p.counts && ev != Count(c) ==> c in q.counts)
      && (forall c :: c in p.latches && ev != Latch(c) ==> c in q.latches)
  {
  }

  lemma PressingStep(s: State, ev: Event)
    requires Step(s, ev).Some?
    ensures Pressing(s) ==> Pressing(Step(s, ev).value) || ev == Loop(Take)
    ensures Asks(s, ev) ==> Pressing(Step(s, ev).value)
  {
    if ev.Net? { PressingNet(s, ev.net); }
  }

  lemma {:induction false} PressingRun(s: State, evs: seq<Event>)
    requires Exec(s, evs).Some? && Pressing(s)
    ensures Pressing(Exec(s, evs).value) || Starts(evs) > 0
  {
    if evs != [] {
      var n := |evs| - 1;
      ExecLast(s, evs);
      PressingRun(s, evs[..n]);
      if Pressing(Exec(s, evs[..n]).value) { PressingStep(Exec(s, evs[..n]).value, evs[n]); }
    }
  }

  /** A run around its k-th event. */
  lemma SplitAt(s: State, evs: seq<Event>, k: nat) returns (t: State, u: State)
    requires Exec(s, evs).Some? && k < |evs|
    ensures Exec(s, evs[..k]) == Some(t) && Step(t, evs[k]) == Some(u) && Exec(u, evs[k + 1..]) == Exec(s, evs)
  {
    ExecAt(s, evs, k);
    t, u := Exec(s, evs[..k]).value, Exec(s, evs[..k + 1]).value;
    SplitRun(s, evs, k + 1);
  }

  lemma SplitRun(s: State, evs: seq<Event>, k: nat)
    requires k <= |evs| && Exec(s, evs[..k]).Some?
    ensures Exec(Exec(s, evs[..k]).value, evs[k..]) == Exec(s, evs)
  {
    assert evs == evs[..k] + evs[k..];
    ExecAppend(s, evs[..k], evs[k..]);
  }

  /**
  No request is lost: a live failure or closing, a refused dial, a failed build, the end of a back-off, a dead or closed
  session's watchdog and a peer's return each leave a request on its way until some later rebuild starts.
  */
  lemma NoRequestLost(s: State, evs: seq<Event>, k: nat) returns (t: State)
    requires Exec(s, evs).Some? && k < |evs|
    ensures Exec(s, evs[..k]) == Some(t)
    ensures Asks(t, evs[k]) ==> Pressing(Exec(s, evs).value) || Starts(evs[k + 1..]) > 0
  {
    var u: State;
    t, u := SplitAt(s, evs, k);
    PressingStep(t, evs[k]);
    if Pressing(u) { PressingRun(u, evs[k + 1..]); }
  }

  /** Nor is the one that run itself makes at the start. */
  lemma FirstRequestKept(role: Role, forced: bool, now: int, evs: seq<Event>)
    requires Exec(Init(role, forced, now), evs).Some?
    ensures Pressing(Exec(Init(role, forced, now), evs).value) || Starts(evs) > 0
  {
    PressingRun(Init(role, forced, now), evs);
  }

  /** A watched session is still watched, or its watchdog has asked and somebody is passing that on or has built. */
  lemma {:induction false} WatchedUntilAsked(s: State, evs: seq<Event>, x: nat)
    requires Exec(s, evs).Some? && x in s.links.watching
    ensures x in Exec(s, evs).value.links.watching || Pressing(Exec(s, evs).value) || Starts(evs) > 0
  {
    if evs != [] {
      var n := |evs| - 1;
      ExecLast(s, evs);
      WatchedUntilAsked(s, evs[..n], x);
      var t := Exec(s, evs[..n]).value;
      PressingStep(t, evs[n]);
      if x in t.links.watching { WatchStep(t, evs[n], x); }
    }
  }

  lemma WatchStep(s: State, ev: Event, x: nat)
    requires Step(s, ev).Some? && x in s.links.watching
    ensures x in Step(s, ev).value.links.watching || ev == Tunnel(Watchdog(x))
  {
  }

  /** The death of a watched session is not overlooked: its watchdog can still ask, has asked, or has been served. */
  lemma DeathIsServed(s: State, evs: seq<Event>, k: nat, x: nat) returns (t: State)
    requires Exec(s, evs).Some? && k < |evs| && evs[k] == Tunnel(Die(x))
    ensures Exec(s, evs[..k]) == Some(t)
    ensures x in t.links.watching ==>
      || (x in Exec(s, evs).value.links.watching && MayFire(Exec(s, evs).value, x))
      || Pressing(Exec(s, evs).value) || Starts(evs[k + 1..]) > 0
  {
    var u: State;
    t, u := SplitAt(s, evs, k);
    if x in t.links.watching { WatchedUntilAsked(u, evs[k + 1..], x); }
    DeadStayDead(u, evs[k + 1..], x);
  }

  /** The watchdog of x asks for a rebuild as its next step, unless the process has ended. */
  predicate MayFire(s: State, x: nat) {
    s.links.panicked || (Step(s, Tunnel(Watchdog(x))).Some? && Step(s, Tunnel(Watchdog(x))).value.token)
  }

  lemma {:induction false} DeadStayDead(s: State, evs: seq<Event>, x: nat)
    requires Exec(s, evs).Some? && x in s.links.deadSessions
    ensures x in Exec(s, evs).value.links.deadSessions
  {
    if evs != [] {
      ExecLast(s, evs);
      DeadStayDead(s, evs[..|evs| - 1], x);
      DeadStep(Exec(s, evs[..|evs| - 1]).value, evs[|evs| - 1]);
    }
  }

  lemma DeadStep(s: State, ev: Event)
    requires Step(s, ev).Some?
    ensures s.links.deadSessions <= Step(s, ev).value.links.deadSessions
  {
  }
}
