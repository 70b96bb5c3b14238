/** When rebuilding comes to rest: exactly which states can go on rebuilding although nothing goes wrong any more. */
module SupervisorQuiescence {
  import opened Wrappers
  import opened Supervisor
  import opened SupervisorSafety
  import opened SupervisorAccounting

  /** Nothing fails, nothing dies, nobody rejoins; what is parked, pending or under way may go on. */
  predicate Quiet(ev: Event) {
    match ev
    case Tick(_) => true
    case Loop(le) => (le.Build? ==> le.ok) && (le.Offer? ==> le.ok)
    case Net(ne) => !ne.Rejoined? && (ne.StateChange? ==> ne.state.Connected? || ne.state.Disconnected?)
    case Tunnel(te) => !te.Die? && (te.DialDone? ==> te.ok)
  }

  ghost predicate AllQuiet(evs: seq<Event>) {
    forall ev | ev in evs :: Quiet(ev)
  }

  /** The current epoch's channel may still open, its dial may still succeed, or its session waits to be installed. */
  ghost predicate MayInstall(l: Links) {
    && l.epoch >= 1
    && ((l.epoch !in l.fired && !Over(l, l.epoch)) || (l.epoch in l.dialing && l.epoch !in l.hopeless)
        || exists x :: x in l.installing && x < |l.dialled| && l.dialled[x] == l.epoch)
  }

  /** The close of the present ready channel is due for x, a session of this or an earlier epoch. */
  predicate ClosesReady(l: Links, x: nat) {
    x in l.closing && x < |l.dialled| && l.dialled[x] in l.captured && l.captured[l.dialled[x]] == l.ready
  }

  /**
  One more watchdog may start.  On the viewer's side that takes a close of the present ready channel, and only the first
  close survives: what has a closed channel to close never gets a watchdog.
  */
  ghost predicate Upcoming(l: Links) {
    match l.role
    case Owner => MayInstall(l)
    case Viewer => l.ready !in l.closedChannels && (MayInstall(l) || exists x :: ClosesReady(l, x))
  }

  ghost function LinkPotential(l: Links): nat {
    |l.watching| + Bit(Upcoming(l))
  }

  /**
  The rebuilds that may still be to come without trouble from outside.  A back-off and the token count once, because the
  request that ends the back-off finds the token there.
  */
  ghost function Potential(s: State): nat {
    Bit(s.token || s.loop.Backoff?) + Parked(s) + Bit(s.loop.Building?) + LinkPotential(s.links)
  }

  ghost predicate BoundedBy(s: State, n: nat) {
    forall evs | AllQuiet(evs) && Exec(s, evs).Some? :: Starts(evs) <= n
  }

  // ------------------------------------------------------------------------------------------------------------
  // At most one: the potential never grows
  // ------------------------------------------------------------------------------------------------------------

  lemma InstalledOnce(l: Links, x: nat)
    requires Inv(l) && x in l.installing && l.dialled[x] == l.epoch
    ensures MayInstall(l) && !MayInstall(Installed(l, x))
  {
    var t := Installed(l, x);
    forall y | y in t.installing
      ensures t.dialled[y] != t.epoch
    {
      assert x < y || y < x;
    }
  }

  lemma LateInstall(l: Links, x: nat)
    requires Inv(l) && x in l.installing && l.dialled[x] != l.epoch
    ensures LinkPotential(Installed(l, x)) <= LinkPotential(l)
  {
    assert forall y :: ClosesReady(Installed(l, x), y) == ClosesReady(l, y);
    assert MayInstall(Installed(l, x)) ==> MayInstall(l);
  }

  lemma LiveInstall(l: Links, x: nat)
    requires Inv(l) && x in l.installing && l.dialled[x] == l.epoch
    ensures LinkPotential(Installed(l, x)) <= LinkPotential(l)
  {
    InstalledOnce(l, x);
    AddOne(l.watching, x);
  }

  lemma InstallPotential(l: Links, x: nat)
    requires Inv(l) && x in l.installing
    ensures LinkPotential(Installed(l, x)) <= LinkPotential(l)
  {
    if l.dialled[x] == l.epoch { LiveInstall(l, x); } else { LateInstall(l, x); }
  }

  lemma OpenPotential(l: Links, e: nat)
    requires Inv(l) && 1 <= e <= l.epoch && e !in l.fired
    ensures LinkPotential(Opened(l, e)) <= LinkPotential(l)
  {
    assert MayInstall(Opened(l, e)) ==> MayInstall(l);
    assert forall x :: ClosesReady(Opened(l, e), x) == ClosesReady(l, x);
  }

  lemma DialPotential(l: Links, e: nat)
    requires Inv(l) && e in l.dialing && e !in l.hopeless
    ensures LinkPotential(Dialled(l, e, true)) <= LinkPotential(l)
  {
    var t := Dialled(l, e, true);
    if MayInstall(t) && e != l.epoch && l.epoch in l.fired && !(l.epoch in l.dialing && l.epoch !in l.hopeless) {
      var y :| y in t.installing && y < |t.dialled| && t.dialled[y] == t.epoch;
      assert y in l.installing;
    }
    assert forall x :: ClosesReady(t, x) ==> ClosesReady(l, x);
  }

  lemma ClosePotential(l: Links, x: nat)
    requires Inv(l) && x in l.closing && l.dialled[x] in l.captured
    ensures LinkPotential(ReadyClosed(l, x)) <= LinkPotential(l)
  {
    AddOne(l.watching, x);
    if l.captured[l.dialled[x]] in l.closedChannels {
      assert forall y :: ClosesReady(ReadyClosed(l, x), y) == ClosesReady(l, y);
    } else {
      assert ClosesReady(l, x);
    }
  }

  lemma DropPotential(l: Links, x: nat)
    ensures LinkPotential(Dropped(l, x)) == LinkPotential(l)
  {
    assert forall y :: ClosesReady(Dropped(l, x), y) == ClosesReady(l, y);
  }

  lemma WatchdogPotential(l: Links, x: nat)
    requires x in l.watching
    ensures LinkPotential(l.(watching := l.watching - {x})) == LinkPotential(l) - 1
  {
    TakeOne(l.watching, x);
    assert forall y :: ClosesReady(l.(watching := l.watching - {x}), y) == ClosesReady(l, y);
  }

  lemma TunnelPotential(s: State, ev: TunnelEvent)
    requires Inv(s.links) && TunnelStep(s, ev).Some? && Quiet(Tunnel(ev))
    ensures Potential(TunnelStep(s, ev).value) <= Potential(s)
  {
    var l := s.links;
    match ev
    case Open(e) => OpenPotential(l, e);
    case DialDone(e, _) => DialPotential(l, e);
    case Install(x) => InstallPotential(l, x);
    case CloseReady(x) => ClosePotential(l, x);
    case Drop(x) => DropPotential(l, x);
    case Watchdog(x) => WatchdogPotential(l, x);
  }

  lemma ParkedStep(s: State, ev: NetEvent)
    requires NetStep(s, ev).Some? && Quiet(Net(ev))
    ensures var t := NetStep(s, ev).value;
      && Bit(t.token) + Parked(t) <= Bit(s.token) + Parked(s) && Parked(t) <= Parked(s)
      && (!ev.Request? ==> t.token == s.token)
  {
    if ev.Classify? || ev.Count? || ev.Latch? { AccountPolicy(s, ev); }
  }

  lemma BuildPotential(l: Links)
    ensures LinkPotential(NextEpoch(TearDown(l))) <= |l.watching| + 1
  {
  }

  /** A report of success changes nothing that counts. */
  lemma ReportPotential(l: Links, e: nat, st: PcState)
    requires st.Connected? || st.Disconnected?
    ensures Reported(l, e, st) == l
  {
  }

  lemma NetElsewhere(s: State, ev: NetEvent)
    requires NetStep(s, ev).Some? && Quiet(Net(ev))
    ensures NetStep(s, ev).value.links == s.links && NetStep(s, ev).value.loop == s.loop
  {
    NetLinks(s, ev);
    if ev.StateChange? { ReportPotential(s.links, ev.epoch, ev.state); }
  }

  lemma FewerUnits(s: State, t: State)
    requires t.links == s.links && t.loop == s.loop
    requires Bit(t.token) + Parked(t) <= Bit(s.token) + Parked(s) && Parked(t) <= Parked(s)
    ensures Potential(t) <= Potential(s)
  {
  }

  lemma NetPotential(s: State, ev: NetEvent)
    requires NetStep(s, ev).Some? && Quiet(Net(ev))
    ensures Potential(NetStep(s, ev).value) <= Potential(s) && NetStep(s, ev).value.links == s.links
  {
    ParkedStep(s, ev);
    NetElsewhere(s, ev);
    FewerUnits(s, NetStep(s, ev).value);
  }

  lemma LoopPotential(s: State, ev: LoopEvent)
    requires LoopStep(s, ev).Some? && Quiet(Loop(ev))
    ensures Potential(LoopStep(s, ev).value) <= Potential(s)
  {
    BuildPotential(s.links);
  }

  /** No quiet step raises the potential. */
  lemma PotentialStep(s: State, ev: Event)
    requires Inv(s.links) && Step(s, ev).Some? && Quiet(ev)
    ensures Potential(Step(s, ev).value) <= Potential(s)
  {
    match ev
    case Tick(_) =>
    case Loop(le) => LoopPotential(s, le);
    case Net(ne) => NetPotential(s, ne);
    case Tunnel(te) => TunnelPotential(s, te);
  }

  predicate Ended(l: Links, x: nat) {
    x in l.closedSessions || x in l.deadSessions
  }

  /** A session that has ended and has, or may get, a watchdog to say so. */
  ghost predicate Smoulders(l: Links, x: nat) {
    && Ended(l, x)
    && (x in l.watching
        || ((l.role.Viewer? ==> l.ready !in l.closedChannels)
            && (ClosesReady(l, x) || (x in l.installing && x < |l.dialled| && l.dialled[x] == l.epoch))))
  }

  /** What there is will lead to a Take, not only to an install. */
  ghost predicate Hot(s: State) {
    s.token || s.loop.Backoff? || Parked(s) > 0 || exists x: nat :: Smoulders(s.links, x)
  }

  lemma ColdLinks(l: Links)
    requires Inv(l) && LinkPotential(l) == 0
    ensures forall x: nat :: !Smoulders(l, x)
  {
    assert l.watching == {};
  }

  lemma FreshIsCold(l: Links)
    requires Inv(l) && LinkPotential(l) == 0
    ensures forall x: nat :: !Smoulders(NextEpoch(TearDown(l)), x)
  {
    var t := NextEpoch(TearDown(l));
    assert l.watching == {};
    forall x: nat
      ensures !Smoulders(t, x)
    {
      assert x < |l.dialled| ==> l.dialled[x] in l.fired && 1 <= l.dialled[x] <= l.epoch;
      assert ClosesReady(t, x) ==> l.ready !in l.closedChannels && ClosesReady(l, x);
    }
  }

  lemma SmoulderStep(s: State, ev: TunnelEvent, x: nat)
    requires Inv(s.links) && TunnelStep(s, ev).Some? && Quiet(Tunnel(ev)) && Smoulders(TunnelStep(s, ev).value.links, x)
    ensures Smoulders(s.links, x)
  {
    var l := s.links;
    match ev
    case Install(y) => SmoulderInstall(l, y, x);
    case CloseReady(y) => SmoulderClose(l, y, x);
    case _ =>
  }

  lemma SmoulderInstall(l: Links, y: nat, x: nat)
    requires Inv(l) && y in l.installing && Smoulders(Installed(l, y), x)
    ensures Smoulders(l, x)
  {
    if x != y { assert x in Installed(l, y).closing <==> x in l.closing; }
  }

  lemma SmoulderClose(l: Links, y: nat, x: nat)
    requires Inv(l) && y in l.closing && y < |l.dialled| && l.dialled[y] in l.captured
    requires Smoulders(ReadyClosed(l, y), x)
    ensures Smoulders(l, x)
  {
    if x == y && l.captured[l.dialled[y]] !in l.closedChannels { assert ClosesReady(l, y); }
  }

  /** A unit of potential is used up by one Take, and what the rebuild then makes is sound. */
  lemma HotStep(s: State, ev: Event)
    requires Inv(s.links) && Step(s, ev).Some? && Quiet(ev) && Potential(s) <= 1
    ensures Bit(ev == Loop(Take)) + Bit(Hot(Step(s, ev).value)) <= Bit(Hot(s))
  {
    match ev
    case Tick(_) =>
    case Loop(le) => HotLoop(s, le);
    case Net(ne) =>
      ParkedStep(s, ne);
      NetPotential(s, ne);
    case Tunnel(te) => HotTunnel(s, te);
  }

  lemma HotLoop(s: State, ev: LoopEvent)
    requires Inv(s.links) && LoopStep(s, ev).Some? && Quiet(Loop(ev)) && Potential(s) <= 1
    ensures Bit(ev == Take) + Bit(Hot(LoopStep(s, ev).value)) <= Bit(Hot(s))
  {
    if ev.Take? { ColdLinks(s.links); }
    if ev.Build? { FreshIsCold(s.links); }
  }

  lemma HotTunnel(s: State, ev: TunnelEvent)
    requires Inv(s.links) && TunnelStep(s, ev).Some? && Quiet(Tunnel(ev))
    ensures Hot(TunnelStep(s, ev).value) ==> Hot(s)
  {
    if x: nat :| Smoulders(TunnelStep(s, ev).value.links, x) { SmoulderStep(s, ev, x); }
    if ev.Watchdog? { assert Smoulders(s.links, ev.session); }
  }

  lemma {:induction false} AtMostOne(s: State, evs: seq<Event>)
    requires Inv(s.links) && Exec(s, evs).Some? && AllQuiet(evs) && Potential(s) <= 1
    ensures Starts(evs) + Bit(Hot(Exec(s, evs).value)) <= 1 && Potential(Exec(s, evs).value) <= 1
  {
    if evs != [] {
      var n := |evs| - 1;
      ExecLast(s, evs);
      AtMostOne(s, evs[..n]);
      InvRun(s, evs[..n]);
      HotStep(Exec(s, evs[..n]).value, evs[n]);
      PotentialStep(Exec(s, evs[..n]).value, evs[n]);
    }
  }

  // ------------------------------------------------------------------------------------------------------------
  // Any number: a second unit keeps the loop going
  // ------------------------------------------------------------------------------------------------------------

  ghost predicate Leads(s: State, evs: seq<Event>, t: State, n: nat) {
    Exec(s, evs) == Some(t) && AllQuiet(evs) && Starts(evs) == n
  }

  /** Some quiet run from s to t starts n rebuilds. */
  ghost predicate Reaches(s: State, t: State, n: nat) {
    exists evs :: Leads(s, evs, t, n)
  }

  /** A relation between two states and a number of rebuilds, of which the lemmas below only use that it is closed. */
  type Walk = (State, State, nat) -> bool

  /** Holds of every quiet step, of standing still, and of one walk after another. */
  ghost predicate Closed(go: Walk) {
    && (forall s, ev, t | Step(s, ev) == Some(t) && Quiet(ev) :: go(s, t, Bit(ev == Loop(Take))))
    && (forall s :: go(s, s, 0))
    && (forall s, t, u, m: nat, n: nat | go(s, t, m) && go(t, u, n) :: go(s, u, m + n))
  }

  lemma ReachesIsClosed()
    ensures Closed(Reaches)
  {
    forall s, ev, t | Step(s, ev) == Some(t) && Quiet(ev)
      ensures Reaches(s, t, Bit(ev == Loop(Take)))
    {
      OneEvent(s, ev, t);
    }
    forall s: State
      ensures Reaches(s, s, 0)
    {
      assert Leads(s, [], s, 0);
    }
    forall s, t, u, m: nat, n: nat | Reaches(s, t, m) && Reaches(t, u, n)
      ensures Reaches(s, u, m + n)
    {
      TwoRuns(s, t, u, m, n);
    }
  }

  lemma OneEvent(s: State, ev: Event, t: State)
    requires Step(s, ev) == Some(t) && Quiet(ev)
    ensures Reaches(s, t, Bit(ev == Loop(Take)))
  {
    ExecOne(s, ev);
    assert [ev][..0] == [];
    assert Leads(s, [ev], t, Bit(ev == Loop(Take)));
  }

  lemma TwoRuns(s: State, t: State, u: State, m: nat, n: nat)
    requires Reaches(s, t, m) && Reaches(t, u, n)
    ensures Reaches(s, u, m + n)
  {
    var a :| Leads(s, a, t, m);
    var b :| Leads(t, b, u, n);
    ExecAppend(s, a, b);
    StartsAppend(a, b);
    assert Leads(s, a + b, u, m + n);
  }

  lemma {:induction false} StartsAppend(a: seq<Event>, b: seq<Event>)
    ensures Starts(a + b) == Starts(a) + Starts(b)
  {
    if b == [] {
      assert a + b == a;
    } else {
      assert (a + b)[..|a + b| - 1] == a + b[..|b| - 1];
      StartsAppend(a, b[..|b| - 1]);
    }
  }

  lemma One(go: Walk, s: State, ev: Event, t: State)
    requires Closed(go) && Step(s, ev) == Some(t) && Quiet(ev)
    ensures go(s, t, Bit(ev == Loop(Take)))
  {
  }

  lemma Then(go: Walk, s: State, t: State, u: State, m: nat, n: nat)
    requires Closed(go) && go(s, t, m) && go(t, u, n)
    ensures go(s, u, m + n)
  {
  }

  ghost predicate Good(s: State) {
    Inv(s.links) && Named(s.policy) && !s.links.panicked
  }

  /** What one tunnel step keeps on the way up: only the links change, and no watched session is lost. */
  ghost predicate Onward(go: Walk, s: State, t: State) {
    && Good(t) && t == s.(links := t.links) && go(s, t, 0)
    && s.links.watching <= t.links.watching && s.links.closedSessions == t.links.closedSessions
    && s.links.epoch == t.links.epoch && s.links.role == t.links.role
    && LinkPotential(t.links) == LinkPotential(s.links)
  }

  lemma OnwardStep(go: Walk, s: State, ev: TunnelEvent)
    requires Closed(go)
    requires Good(s) && TunnelStep(s, ev).Some? && Quiet(Tunnel(ev)) && !ev.Watchdog? && !ev.Drop?
    requires !TunnelStep(s, ev).value.links.panicked
    requires LinkPotential(TunnelStep(s, ev).value.links) == LinkPotential(s.links)
    ensures Onward(go, s, TunnelStep(s, ev).value)
  {
    TunnelKeeps(s, ev);
    TunnelOnly(s, ev);
    One(go, s, Tunnel(ev), TunnelStep(s, ev).value);
  }

  lemma OnwardThen(go: Walk, s: State, t: State, u: State)
    requires Closed(go)
    requires Onward(go, s, t) && Onward(go, t, u)
    ensures Onward(go, s, u)
  {
    Then(go, s, t, u, 0, 0);
  }

  /** The held session has a watchdog. */
  predicate Up(l: Links) {
    l.mux.Some? && l.mux.value in l.watching
  }

  /** A close of the ready channel could survive. */
  predicate Open(l: Links) {
    l.role.Viewer? ==> l.ready !in l.closedChannels
  }

  lemma Announce(go: Walk, s: State, x: nat) returns (t: State)
    requires Closed(go)
    requires Good(s) && Open(s.links) && ClosesReady(s.links, x)
    ensures Onward(go, s, t) && !Upcoming(t.links) && t.links.mux == s.links.mux && x in t.links.watching
  {
    var l := s.links;
    t := s.(links := ReadyClosed(l, x));
    assert l.role.Viewer? && x !in l.watching;
    assert |t.links.watching| == |l.watching| + 1;
    OnwardStep(go, s, CloseReady(x));
  }

  lemma OpenNow(go: Walk, s: State) returns (t: State)
    requires Closed(go)
    requires Good(s) && Open(s.links)
    requires s.links.epoch >= 1 && s.links.epoch !in s.links.fired && !Over(s.links, s.links.epoch)
    ensures Onward(go, s, t) && t.links.epoch in t.links.dialing && t.links.epoch !in t.links.hopeless && Open(t.links)
  {
    var e := s.links.epoch;
    t := s.(links := Opened(s.links, e));
    OnwardStep(go, s, TunnelEvent.Open(e));
  }

  lemma DialNow(go: Walk, s: State) returns (t: State, x: nat)
    requires Closed(go)
    requires Good(s) && s.links.epoch in s.links.dialing && s.links.epoch !in s.links.hopeless && Open(s.links)
    ensures Onward(go, s, t) && Open(t.links)
    ensures x in t.links.installing && x < |t.links.dialled| && t.links.dialled[x] == t.links.epoch
  {
    var e := s.links.epoch;
    x := |s.links.dialled|;
    t := s.(links := Dialled(s.links, e, true));
    assert 1 <= e;
    assert MayInstall(s.links) && MayInstall(t.links);
    OnwardStep(go, s, DialDone(e, true));
  }

  lemma InstallNow(go: Walk, s: State, x: nat) returns (t: State)
    requires Closed(go)
    requires Good(s) && x in s.links.installing && s.links.dialled[x] == s.links.epoch && Open(s.links)
    ensures Onward(go, s, t) && Up(t.links) && !Upcoming(t.links)
  {
    var l := s.links;
    var u := s.(links := Installed(l, x));
    InstalledOnce(l, x);
    assert x !in l.watching;
    if l.role.Viewer? {
      assert ClosesReady(u.links, x);
      OnwardStep(go, s, Install(x));
      t := Announce(go, u, x);
      OnwardThen(go, s, u, t);
    } else {
      assert |u.links.watching| == |l.watching| + 1;
      OnwardStep(go, s, Install(x));
      t := u;
    }
  }

  /** Whatever the current epoch still has to do, its session can be brought up. */
  lemma BringUp(go: Walk, s: State) returns (t: State)
    requires Closed(go)
    requires Good(s) && MayInstall(s.links) && Open(s.links)
    ensures Onward(go, s, t) && Up(t.links) && !Upcoming(t.links)
  {
    var l := s.links;
    if l.epoch !in l.fired && !Over(l, l.epoch) {
      var u := OpenNow(go, s);
      t := BringUpDialling(go, u);
      OnwardThen(go, s, u, t);
    } else if l.epoch in l.dialing && l.epoch !in l.hopeless {
      t := BringUpDialling(go, s);
    } else {
      var x :| x in l.installing && x < |l.dialled| && l.dialled[x] == l.epoch;
      t := InstallNow(go, s, x);
    }
  }

  lemma BringUpDialling(go: Walk, s: State) returns (t: State)
    requires Closed(go)
    requires Good(s) && s.links.epoch in s.links.dialing && s.links.epoch !in s.links.hopeless && Open(s.links)
    ensures Onward(go, s, t) && Up(t.links) && !Upcoming(t.links)
  {
    var u, x := DialNow(go, s);
    t := InstallNow(go, u, x);
    OnwardThen(go, s, u, t);
  }

  /** The watchdog that may still start is started. */
  lemma Settle(go: Walk, s: State) returns (t: State)
    requires Closed(go)
    requires Good(s)
    ensures Onward(go, s, t) && !Upcoming(t.links)
  {
    if !Upcoming(s.links) {
      t := s;
    } else if x :| s.links.role.Viewer? && ClosesReady(s.links, x) {
      t := Announce(go, s, x);
    } else {
      t := BringUp(go, s);
    }
  }

  lemma FreshMayInstall(l: Links)
    requires Inv(l)
    ensures var m := NextEpoch(TearDown(l)); MayInstall(m) && Open(m) && LinkPotential(m) == |l.watching| + 1
  {
  }

  /** The new PeerConnection of a rebuild, and the offer. */
  lemma Rebuilt(go: Walk, s: State) returns (o: State)
    requires Closed(go)
    requires Good(s) && s.loop.Building?
    ensures Good(o) && go(s, o, 0) && o == s.(loop := Idle, links := NextEpoch(TearDown(s.links)))
  {
    var l := s.links;
    var b := s.(links := NextEpoch(TearDown(l)), loop := if l.role.Owner? then Idle else Offering);
    InvStep(s, Loop(Build(true)));
    One(go, s, Loop(Build(true)), b);
    o := b.(loop := Idle);
    if l.role.Viewer? { One(go, b, Loop(Offer(true)), o); }
    Then(go, s, b, o, 0, 0);
  }

  /** The rebuild under way is finished and its session brought up; what was up is closed, and still watched. */
  lemma Renew(go: Walk, s: State) returns (t: State)
    requires Closed(go)
    requires Good(s) && s.loop.Building?
    ensures Good(t) && Up(t.links) && !Upcoming(t.links) && go(s, t, 0) && t == s.(loop := Idle, links := t.links)
    ensures s.links.watching <= t.links.watching
    ensures s.links.mux.Some? ==> s.links.mux.value in t.links.closedSessions
    ensures |t.links.watching| == |s.links.watching| + 1
  {
    var o := Rebuilt(go, s);
    FreshMayInstall(s.links);
    t := BringUp(go, o);
    Then(go, s, o, t, 0, 0);
  }

  // The units that are not the held session's watchdog: each can be made into the token.

  predicate Asking(s: State) {
    s.token || s.loop.Backoff? || Parked(s) > 0
  }

  lemma RequestNow(go: Walk, s: State) returns (t: State)
    requires Closed(go)
    requires Named(s.policy) && !s.links.panicked && s.requests > 0
    ensures Named(t.policy) && go(s, t, 0) && t == s.(requests := s.requests - 1, token := true)
  {
    t := s.(requests := s.requests - 1, token := true);
    One(go, s, Net(Request), t);
  }

  /** A parked failure is passed on until it is a parked request. */
  lemma PassOn(go: Walk, s: State) returns (t: State)
    requires Closed(go)
    requires Named(s.policy) && !s.links.panicked && Failures(s.policy) > 0
    ensures Named(t.policy) && go(s, t, 0) && t == s.(policy := t.policy, requests := s.requests + 1)
    ensures Parked(t) == Parked(s)
  {
    if c :| c in s.policy.latches {
      t := LatchNow(go, s, c);
    } else if c :| c in s.policy.counts {
      t := CountNow(go, s, c);
    } else {
      assert s.policy.classifies != {};
      var c :| c in s.policy.classifies;
      t := ClassifyNow(go, s, c);
    }
  }

  lemma NetNow(go: Walk, s: State, ev: NetEvent, t: State)
    requires Closed(go)
    requires Named(s.policy) && !s.links.panicked && NetStep(s, ev) == Some(t) && Quiet(Net(ev))
    ensures Named(t.policy) && go(s, t, 0)
  {
    NamedNet(s, ev);
    One(go, s, Net(ev), t);
  }

  lemma MoveOne(a: set<nat>, b: set<nat>, c: nat)
    requires c in a && c !in b
    ensures |a - {c}| + |b + {c}| == |a| + |b|
  {
  }

  lemma LatchNow(go: Walk, s: State, c: nat) returns (t: State)
    requires Closed(go)
    requires Named(s.policy) && !s.links.panicked && c in s.policy.latches
    ensures Named(t.policy) && go(s, t, 0) && t == s.(policy := t.policy, requests := s.requests + 1)
    ensures Parked(t) == Parked(s)
  {
    var p := s.policy;
    t := s.(policy := p.(latches := p.latches - {c}, relayOnly := true), requests := s.requests + 1);
    NetNow(go, s, Latch(c), t);
    TakeOne(p.latches, c);
  }

  lemma CountedParked(s: State, c: nat)
    requires Named(s.policy) && c in s.policy.counts
    ensures Parked(Counted(s, c)) == Parked(s)
  {
    TakeOne(s.policy.counts, c);
    MoveOne(s.policy.counts, s.policy.latches, c);
  }

  lemma CountedFirst(s: State, c: nat)
    requires s.policy.fails == 0
    ensures Counted(s, c) == s.(policy := Counted(s, c).policy, requests := s.requests + 1)
  {
  }

  lemma CountedSecond(s: State, c: nat)
    requires s.policy.fails >= 1
    ensures Counted(s, c) == s.(policy := Counted(s, c).policy) && c in Counted(s, c).policy.latches
  {
  }

  lemma CountRetries(go: Walk, s: State, c: nat) returns (t: State)
    requires Closed(go)
    requires Named(s.policy) && !s.links.panicked && c in s.policy.counts && s.policy.fails == 0
    ensures Named(t.policy) && go(s, t, 0) && t == s.(policy := t.policy, requests := s.requests + 1)
    ensures Parked(t) == Parked(s)
  {
    t := Counted(s, c);
    NetNow(go, s, Count(c), t);
    CountedParked(s, c);
    CountedFirst(s, c);
  }

  lemma CountLatches(go: Walk, s: State, c: nat) returns (t: State)
    requires Closed(go)
    requires Named(s.policy) && !s.links.panicked && c in s.policy.counts && s.policy.fails >= 1
    ensures Named(t.policy) && go(s, t, 0) && t == s.(policy := t.policy, requests := s.requests + 1)
    ensures Parked(t) == Parked(s)
  {
    var u := Counted(s, c);
    NetNow(go, s, Count(c), u);
    CountedParked(s, c);
    CountedSecond(s, c);
    t := LatchNow(go, u, c);
    Then(go, s, u, t, 0, 0);
  }

  lemma CountNow(go: Walk, s: State, c: nat) returns (t: State)
    requires Closed(go)
    requires Named(s.policy) && !s.links.panicked && c in s.policy.counts
    ensures Named(t.policy) && go(s, t, 0) && t == s.(policy := t.policy, requests := s.requests + 1)
    ensures Parked(t) == Parked(s)
  {
    if s.policy.fails == 0 { t := CountRetries(go, s, c); } else { t := CountLatches(go, s, c); }
  }

  lemma ClassifiedParked(s: State, c: nat)
    requires Named(s.policy) && c in s.policy.classifies
    ensures Parked(Classified(s, c)) == Parked(s)
  {
    TakeOne(s.policy.classifies, c);
    MoveOne(s.policy.classifies, s.policy.counts, c);
  }

  lemma ClassifyNow(go: Walk, s: State, c: nat) returns (t: State)
    requires Closed(go)
    requires Named(s.policy) && !s.links.panicked && c in s.policy.classifies
    ensures Named(t.policy) && go(s, t, 0) && t == s.(policy := t.policy, requests := s.requests + 1)
    ensures Parked(t) == Parked(s)
  {
    var u := Classified(s, c);
    NetNow(go, s, Classify(c), u);
    ClassifiedParked(s, c);
    if RaceRecent(s) {
      t := u;
    } else {
      t := CountNow(go, u, c);
      Then(go, s, u, t, 0, 0);
    }
  }

  /** Some unit becomes the token, and the loop is ready to take it; nothing else is used up. */
  lemma Raise(go: Walk, s: State) returns (t: State)
    requires Closed(go)
    requires Named(s.policy) && !s.links.panicked && Asking(s) && (s.loop.Idle? || s.loop.Backoff?)
    ensures Named(t.policy) && go(s, t, 0) && t.token && t.loop.Idle? && t.links == s.links
    ensures 1 + Parked(t) == Bit(s.token || s.loop.Backoff?) + Parked(s) || Parked(t) == Parked(s)
  {
    if s.loop.Backoff? {
      t := s.(loop := Idle, token := true);
      One(go, s, Loop(Retry), t);
    } else if s.token {
      t := s;
    } else if s.requests > 0 {
      t := RequestNow(go, s);
    } else {
      var u := PassOn(go, s);
      t := RequestNow(go, u);
    }
  }

  lemma Bark(go: Walk, s: State, x: nat) returns (t: State)
    requires Closed(go)
    requires Good(s) && x in s.links.watching && x in s.links.closedSessions
    ensures Good(t) && go(s, t, 0)
    ensures t == s.(token := true, links := s.links.(watching := s.links.watching - {x}))
    ensures LinkPotential(t.links) == LinkPotential(s.links) - 1 && Upcoming(t.links) == Upcoming(s.links)
  {
    t := s.(token := true, links := s.links.(watching := s.links.watching - {x}));
    InvStep(s, Tunnel(Watchdog(x)));
    WatchdogPotential(s.links, x);
    TakeOne(s.links.watching, x);
    One(go, s, Tunnel(Watchdog(x)), t);
  }

  /** A session is up and a token is pending. */
  ghost predicate Steady(s: State) {
    Good(s) && Up(s.links) && s.loop.Idle? && s.token
  }

  lemma TakeNow(go: Walk, s: State) returns (t: State)
    requires Closed(go)
    requires Good(s) && s.loop.Idle? && s.token
    ensures Good(t) && go(s, t, 1) && t == s.(token := false, loop := Building)
  {
    t := s.(token := false, loop := Building);
    One(go, s, Loop(Take), t);
  }

  /** One turn: the rebuild closes the session, a new one comes up, and the old one's watchdog asks for the next. */
  lemma Turn(go: Walk, s: State) returns (t: State)
    requires Closed(go)
    requires Steady(s)
    ensures Steady(t) && go(s, t, 1)
  {
    var x := s.links.mux.value;
    var b := TakeNow(go, s);
    var u := Renew(go, b);
    Then(go, s, b, u, 1, 0);
    t := Bark(go, u, x);
    Then(go, s, u, t, 1, 0);
  }

  lemma {:induction false} Turns(go: Walk, s: State, n: nat) returns (t: State)
    requires Closed(go)
    requires Steady(s)
    ensures Steady(t) && go(s, t, n)
    decreases n
  {
    if n == 0 {
      t := s;
    } else {
      var u := Turn(go, s);
      t := Turns(go, u, n - 1);
    }
  }

  /** Between rebuilds, with no watchdog left to start. */
  ghost predicate Resting(s: State) {
    Good(s) && !Upcoming(s.links) && (s.loop.Idle? || s.loop.Backoff?)
  }

  /** A watched session that is not held has been closed. */
  lemma OtherIsClosed(l: Links, x: nat)
    requires Inv(l) && x in l.watching && l.mux != Some(x)
    ensures x in l.closedSessions
  {
  }

  /** A session is up, and there is a second unit: it becomes the token. */
  lemma UpToSteady(go: Walk, s: State) returns (t: State)
    requires Closed(go)
    requires Resting(s) && Up(s.links) && Potential(s) >= 2
    ensures Steady(t) && go(s, t, 0)
  {
    var x := s.links.mux.value;
    if Asking(s) {
      t := Raise(go, s);
    } else {
      TakeOne(s.links.watching, x);
      var z :| z in s.links.watching - {x};
      OtherIsClosed(s.links, z);
      t := Bark(go, s, z);
    }
  }

  /** Some unit becomes the token; the others are all still there. */
  lemma Start(go: Walk, s: State) returns (t: State)
    requires Closed(go)
    requires Resting(s) && !Up(s.links) && Potential(s) >= 2
    ensures Good(t) && t.loop.Idle? && t.token && go(s, t, 0)
    ensures Parked(t) + |t.links.watching| >= 1
  {
    if Asking(s) {
      t := Raise(go, s);
    } else {
      var z :| z in s.links.watching;
      OtherIsClosed(s.links, z);
      t := Bark(go, s, z);
      TakeOne(s.links.watching, z);
    }
  }

  lemma StartToSteady(go: Walk, a: State) returns (t: State)
    requires Closed(go)
    requires Good(a) && a.loop.Idle? && a.token && Parked(a) + |a.links.watching| >= 1
    ensures Steady(t) && go(a, t, 1)
  {
    var b := TakeNow(go, a);
    var c := Renew(go, b);
    Then(go, a, b, c, 1, 0);
    t := UpToSteady(go, c);
    Then(go, a, c, t, 1, 0);
  }

  lemma RestingToSteady(go: Walk, s: State) returns (t: State, n: nat)
    requires Closed(go)
    requires Resting(s) && Potential(s) >= 2
    ensures Steady(t) && go(s, t, n)
  {
    if Up(s.links) {
      n := 0;
      t := UpToSteady(go, s);
    } else {
      n := 1;
      var a := Start(go, s);
      t := StartToSteady(go, a);
      Then(go, s, a, t, 0, 1);
    }
  }

  /** The loop finishes what it is doing. */
  lemma ToResting(go: Walk, s: State) returns (t: State)
    requires Closed(go)
    requires Good(s)
    ensures Resting(t) && go(s, t, 0) && Potential(t) >= Potential(s)
  {
    var a := Settle(go, s);
    match a.loop
    case Building =>
      t := Renew(go, a);
      Then(go, s, a, t, 0, 0);
    case Offering =>
      t := a.(loop := Idle);
      One(go, a, Loop(Offer(true)), t);
      Then(go, s, a, t, 0, 0);
    case _ =>
      t := a;
  }

  lemma TwoUnitsGoOn(go: Walk, s: State, n: nat) returns (t: State, m: nat)
    requires Closed(go)
    requires Good(s) && Potential(s) >= 2
    ensures go(s, t, m) && m >= n
  {
    var a, b, k := SteadyAhead(go, s);
    t := Turns(go, b, n);
    m := k + n;
  }

  lemma SteadyAhead(go: Walk, s: State) returns (a: State, b: State, k: nat)
    requires Closed(go)
    requires Good(s) && Potential(s) >= 2
    ensures Steady(b) && go(s, b, k)
  {
    a := ToResting(go, s);
    b, k := RestingToSteady(go, a);
  }

  /**
  Quiescence, exactly.  After any run that has not ended the process, the rebuilds still to come without trouble from
  outside are bounded if and only if the potential is at most one; then there is at most one.
  */
  lemma QuiescenceExactly(role: Role, forced: bool, now: int, evs: seq<Event>)
    requires Exec(Init(role, forced, now), evs).Some?
    ensures var s := Exec(Init(role, forced, now), evs).value;
      && ((exists n: nat :: BoundedBy(s, n)) <==> s.links.panicked || Potential(s) <= 1)
      && (Potential(s) <= 1 ==> BoundedBy(s, 1))
  {
    var s0 := Init(role, forced, now);
    var s := Exec(s0, evs).value;
    InvRun(s0, evs);
    NamedRun(s0, evs);
    if s.links.panicked { NothingAfterPanic(s); }
    if Potential(s) <= 1 { AtMostOneAhead(s); }
    if !s.links.panicked && Potential(s) >= 2 { NotBounded(s); }
  }

  lemma NothingAfterPanic(s: State)
    requires s.links.panicked
    ensures BoundedBy(s, 0)
  {
    forall evs | AllQuiet(evs) && Exec(s, evs).Some?
      ensures Starts(evs) <= 0
    {
      Stuck(s, evs);
    }
  }

  lemma {:induction false} Stuck(s: State, evs: seq<Event>)
    requires s.links.panicked
    ensures Exec(s, evs).Some? ==> evs == []
  {
    if evs != [] {
      var front := evs[..|evs| - 1];
      Stuck(s, front);
      assert Exec(s, front).Some? ==> Exec(s, front) == Some(s);
      assert Step(s, evs[|evs| - 1]).None?;
    }
  }

  lemma AtMostOneAhead(s: State)
    requires Inv(s.links) && Potential(s) <= 1
    ensures BoundedBy(s, 1)
  {
    forall evs | AllQuiet(evs) && Exec(s, evs).Some?
      ensures Starts(evs) <= 1
    {
      AtMostOne(s, evs);
    }
  }

  lemma NotBounded(s: State)
    requires Good(s) && Potential(s) >= 2
    ensures forall n: nat :: !BoundedBy(s, n)
  {
    ReachesIsClosed();
    forall n: nat
      ensures !BoundedBy(s, n)
    {
      var t, m := TwoUnitsGoOn(Reaches, s, n + 1);
      BeyondBound(s, t, m, n);
    }
  }

  lemma BeyondBound(s: State, t: State, m: nat, n: nat)
    requires Reaches(s, t, m) && m > n
    ensures !BoundedBy(s, n)
  {
    var evs :| Leads(s, evs, t, m);
    assert AllQuiet(evs) && Starts(evs) > n;
  }

  /** The first session comes up. */
  lemma FirstUp(go: Walk, s: State) returns (t: State)
    requires Closed(go)
    requires Good(s) && s.loop.Idle? && s.token
    ensures Good(t) && Up(t.links) && t.loop.Idle? && go(s, t, 1)
  {
    var a := TakeNow(go, s);
    t := Renew(go, a);
  }

  lemma RunOf(s: State, t: State, n: nat) returns (evs: seq<Event>)
    requires Reaches(s, t, n)
    ensures Exec(s, evs) == Some(t) && AllQuiet(evs) && Starts(evs) == n
  {
    evs :| Leads(s, evs, t, n);
  }

  /** The watchdog has no epoch guard: once a session is up, one return of the peer makes any number of rebuilds. */
  lemma OneReturnRebuildsForEver(role: Role, forced: bool, now: int, n: nat)
      returns (before: seq<Event>, after: seq<Event>)
    ensures AllQuiet(before) && AllQuiet(after)
    ensures Exec(Init(role, forced, now), before + [Net(Rejoined)] + after).Some?
    ensures Starts(before) == 1 && Starts(after) == n
  {
    var s := Init(role, forced, now);
    var b := UpFromStart(role, forced, now);
    before := RunOf(s, b, 1);
    var c := b.(token := true);
    ExecSnoc(s, before, Net(Rejoined));
    after := TurnsFrom(c, n);
    ExecAppend(s, before + [Net(Rejoined)], after);
  }

  lemma UpFromStart(role: Role, forced: bool, now: int) returns (t: State)
    ensures Good(t) && Up(t.links) && t.loop.Idle? && Reaches(Init(role, forced, now), t, 1)
  {
    ReachesIsClosed();
    t := FirstUp(Reaches, Init(role, forced, now));
  }

  lemma TurnsFrom(s: State, n: nat) returns (evs: seq<Event>)
    requires Steady(s)
    ensures Exec(s, evs).Some? && AllQuiet(evs) && Starts(evs) == n
  {
    ReachesIsClosed();
    var t := Turns(Reaches, s, n);
    evs := RunOf(s, t, n);
  }
}
