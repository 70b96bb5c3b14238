/**
The session object itself: its fields as the source keeps them, and one method for each of its lock regions and
callback bodies.  Every method takes the object's state from one to the next as one step of the supervisor does, so what
is proved of runs is about these methods in any interleaving; and each keeps the invariant that gives a caller, at any
time, one held pair of the current epoch.
*/
module Session {
  import opened Wrappers
  import opened Supervisor
  import opened SupervisorSafety

  lemma BuiltStep(s: State)
    requires Inv(s.links) && !s.links.panicked && s.loop.Building?
    ensures var t := s.(links := NextEpoch(TearDown(s.links)), loop := if s.links.role.Viewer? then Offering else Idle);
      Step(s, Loop(Build(true))) == Some(t) && Inv(t.links)
  {
    InvStep(s, Loop(Build(true)));
  }

  lemma FailedStep(s: State)
    requires Inv(s.links) && !s.links.panicked && s.loop.Building?
    ensures var t := s.(links := TearDown(s.links), loop := Backoff);
      Step(s, Loop(Build(false))) == Some(t) && Inv(t.links)
  {
    InvStep(s, Loop(Build(false)));
  }

  class Session {
    // guarded by mu
    var pc: Option<nat>
    var mux: Option<nat>
    var ready: nat
    var epoch: nat
    var consecutiveFails: nat
    // atomics and the one-slot rebuild channel
    var relayOnly: bool
    var lastSDPRace: int
    var rebuildPending: bool
    // the run loop, the clock, and the callbacks about to ask for a rebuild
    var loop: Loop
    var clock: int
    var requests: nat
    /** Callbacks parked on their way through the failure counter; the fields above override its first three. */
    var parked: Policy
    /** Goroutines parked in OnOpen, and all that was ever created; the fields above override its first four. */
    var world: Links

    ghost function LinksView(): Links
      reads this`epoch, this`pc, this`mux, this`ready, this`world
    {
      world.(epoch := epoch, pc := pc, mux := mux, ready := ready)
    }

    ghost function PolicyView(): Policy
      reads this`relayOnly, this`consecutiveFails, this`lastSDPRace, this`parked
    {
      parked.(relayOnly := relayOnly, fails := consecutiveFails, lastRace := lastSDPRace)
    }

    ghost function View(): State
      reads this
    {
      State(clock, loop, rebuildPending, requests, PolicyView(), LinksView())
    }

    /** What every reachable state keeps. */
    ghost predicate Valid()
      reads this
    {
      Inv(LinksView())
    }

    /** What that means for a caller: the pair held is of the current epoch and open, and no waiter is stranded. */
    lemma HeldIsCurrent()
      requires Valid()
      ensures mux.Some? ==>
        mux.value < |world.dialled| && world.dialled[mux.value] == epoch && mux.value !in world.closedSessions
      ensures pc.Some? ==> pc.value == epoch && pc.value !in world.closedPcs
      ensures forall c | 0 <= c < world.channels :: c in world.closedChannels || c == ready
    {
      var l := LinksView();
      assert SessionInv(l) && PcInv(l) && ReadyInv(l);
    }

    /** A new session whose run loop has just asked for its first build. */
    constructor (role: Role, forced: bool, now: int)
      ensures Valid() && View() == Init(role, forced, now)
    {
      pc, mux, ready, epoch, consecutiveFails := None, None, 0, 0, 0;
      relayOnly, lastSDPRace, rebuildPending := forced, 0, true;
      loop, clock, requests := Idle, now, 0;
      parked, world := Init(role, forced, now).policy, Init(role, forced, now).links;
    }

    method SnapshotMux() returns (m: Option<nat>, r: nat)
      requires Valid()
      ensures m == mux && r == ready
    {
      m, r := mux, ready;
    }

    /** A non-blocking send on a channel of capacity one. */
    method RequestRebuild()
      modifies this`rebuildPending
      ensures rebuildPending
    {
      if !rebuildPending {
        rebuildPending := true;
      }
    }

    /** The run loop takes the token. */
    method TakeToken()
      requires Valid() && !world.panicked && loop.Idle? && rebuildPending
      modifies this`rebuildPending, this`loop
      ensures Valid() && Step(old(View()), Loop(Take)) == Some(View())
    {
      rebuildPending := false;
      loop := Building;
    }

    /** The end of the back-off after an error. */
    method EndBackoff()
      requires Valid() && !world.panicked && loop.Backoff?
      modifies this`rebuildPending, this`loop
      ensures Valid() && Step(old(View()), Loop(Retry)) == Some(View())
    {
      loop := Idle;
      RequestRebuild();
    }

    /** The lock region of rebuild and buildPC; ok is whether the new PeerConnection could be made. */
    method Rebuild(ok: bool)
      requires Valid() && !world.panicked && loop.Building?
      modifies this`mux, this`pc, this`loop, this`epoch, this`ready, this`world
      ensures Valid() && Step(old(View()), Loop(Build(ok))) == Some(View())
    {
      ghost var before := View();
      ReplacePair(ok);
      if ok { BuiltStep(before); } else { FailedStep(before); }
    }

    method ReplacePair(ok: bool)
      modifies this`mux, this`pc, this`loop, this`epoch, this`ready, this`world
      ensures LinksView() == if ok then NextEpoch(TearDown(old(LinksView()))) else TearDown(old(LinksView()))
      ensures loop == if !ok then Backoff else if old(LinksView()).role.Viewer? then Offering else Idle
    {
      CloseCurrent();
      if ok {
        StartEpoch();
        loop := if world.role.Viewer? then Offering else Idle;
      } else {
        loop := Backoff;
      }
    }

    /** What rebuild does after its lock region: the tunnel channel and the offer. */
    method SendOffer(ok: bool)
      requires Valid() && !world.panicked && loop.Offering?
      modifies this`loop
      ensures Valid() && Step(old(View()), Loop(Offer(ok))) == Some(View())
    {
      loop := if ok then Idle else Backoff;
    }

    method CloseCurrent()
      modifies this`mux, this`pc, this`world
      ensures LinksView() == TearDown(old(LinksView()))
    {
      if mux.Some? {
        world := world.(closedSessions := world.closedSessions + {mux.value});
        mux := None;
      }
      if pc.Some? {
        world := world.(closedPcs := world.closedPcs + {pc.value});
        pc := None;
      }
    }

    /** The ready channel is replaced only once it is closed, so that early waiters are not left on a stale one. */
    method RenewReady()
      modifies this`ready, this`world
      ensures ready == if old(ready) in old(world.closedChannels) then old(world.channels) else old(ready)
      ensures world == if old(ready) in old(world.closedChannels)
                       then old(world).(channels := old(world.channels) + 1) else old(world)
    {
      if ready in world.closedChannels {
        ready := world.channels;
        world := world.(channels := world.channels + 1);
      }
    }

    method StartEpoch()
      modifies this`pc, this`epoch, this`ready, this`world
      ensures LinksView() == NextEpoch(old(LinksView()))
    {
      if world.role.Viewer? {
        RenewReady();
        world := world.(captured := world.captured[epoch + 1 := ready]);
      }
      epoch := epoch + 1;
      pc := Some(epoch);
    }

    /** OnConnectionStateChange up to the branch it takes. */
    method OnStateChange(e: nat, st: PcState)
      requires Valid() && !world.panicked && MayReport(LinksView(), e, st)
      modifies this`world, this`parked, this`requests
      ensures Valid() && Step(old(View()), Net(StateChange(e, st))) == Some(View())
    {
      ghost var before := View();
      world := Reported(world, e, st);
      Guard(e, st);
      InvStep(before, Net(StateChange(e, st)));
    }

    /** The liveness guard, and the branch. */
    method Guard(e: nat, st: PcState)
      modifies this`parked, this`requests
      ensures View() == Guarded(old(View()), e, st)
    {
      var live := epoch == e;
      if !live {
        return;
      }
      match st {
        case Connected =>
          parked := parked.(resets := parked.resets + {parked.reports}, reports := parked.reports + 1);
        case Disconnected =>
        case Failed =>
          parked := parked.(classifies := parked.classifies + {parked.reports}, reports := parked.reports + 1);
        case Closed =>
          requests := requests + 1;
      }
    }

    /** What the callback of a success does under the lock. */
    method ResetFails(c: nat)
      requires Valid() && !world.panicked && c in parked.resets
      modifies this`parked, this`consecutiveFails
      ensures Valid() && Step(old(View()), Net(Reset(c))) == Some(View())
    {
      parked := parked.(resets := parked.resets - {c});
      consecutiveFails := 0;
    }

    /** The head of classifyAndMaybeEscalate. */
    method TestRace(c: nat)
      requires Valid() && !world.panicked && c in parked.classifies
      modifies this`parked, this`requests
      ensures Valid() && Step(old(View()), Net(Classify(c))) == Some(View())
    {
      parked := parked.(classifies := parked.classifies - {c});
      if lastSDPRace > 0 {
        if clock - lastSDPRace < SDP_RACE_WINDOW {
          requests := requests + 1;
          return;
        }
      }
      parked := parked.(counts := parked.counts + {c});
    }

    /** Its lock region, and the test of the value read there. */
    method CountFailure(c: nat)
      requires Valid() && !world.panicked && c in parked.counts
      modifies this`parked, this`consecutiveFails, this`requests
      ensures Valid() && Step(old(View()), Net(Count(c))) == Some(View())
    {
      parked := parked.(counts := parked.counts - {c});
      consecutiveFails := consecutiveFails + 1;
      var fails := consecutiveFails;
      if fails < 2 {
        requests := requests + 1;
      } else {
        parked := parked.(latches := parked.latches + {c});
      }
    }

    /** Its compare-and-swap. */
    method Escalate(c: nat)
      requires Valid() && !world.panicked && c in parked.latches
      modifies this`parked, this`relayOnly, this`requests
      ensures Valid() && Step(old(View()), Net(Latch(c))) == Some(View())
    {
      parked := parked.(latches := parked.latches - {c});
      if !relayOnly {
        relayOnly := true;
      }
      requests := requests + 1;
    }

    /** requestRebuild at the end of a callback. */
    method PassRequest()
      requires Valid() && !world.panicked && requests > 0
      modifies this`requests, this`rebuildPending
      ensures Valid() && Step(old(View()), Net(Request)) == Some(View())
    {
      requests := requests - 1;
      RequestRebuild();
    }

    /** OnOpen up to its stale-epoch guard. */
    method OnOpen(e: nat)
      requires Valid() && !world.panicked && 1 <= e <= epoch && e !in world.fired
      modifies this`world
      ensures Valid() && Step(old(View()), Tunnel(Open(e))) == Some(View())
    {
      ghost var before := View();
      world := world.(fired := world.fired + {e});
      if epoch == e {
        var over := Over(world, e);
        world := world.(dialing := world.dialing + {e},
                        hopeless := if over then world.hopeless + {e} else world.hopeless);
      }
      InvStep(before, Tunnel(Open(e)));
    }

    /** tunnel.Dial or tunnel.Serve returns. */
    method DialReturns(e: nat, ok: bool)
      requires Valid() && !world.panicked && e in world.dialing && (ok ==> e !in world.hopeless)
      modifies this`world, this`rebuildPending
      ensures Valid() && Step(old(View()), Tunnel(DialDone(e, ok))) == Some(View())
    {
      ghost var before := View();
      world := world.(dialing := world.dialing - {e});
      if !ok {
        RequestRebuild();
      } else {
        world := world.(installing := world.installing + {|world.dialled|}, dialled := world.dialled + [e]);
      }
      InvStep(before, Tunnel(DialDone(e, ok)));
    }

    /** The second lock region of OnOpen. */
    method InstallSession(x: nat)
      requires Valid() && !world.panicked && x in world.installing && x < |world.dialled|
      modifies this`world, this`mux
      ensures Valid() && Step(old(View()), Tunnel(Install(x))) == Some(View())
    {
      ghost var before := View();
      world := world.(installing := world.installing - {x});
      if epoch != world.dialled[x] {
        world := world.(dropping := world.dropping + {x});
      } else {
        mux := Some(x);
        match world.role
        case Viewer => world := world.(closing := world.closing + {x});
        case Owner => world := world.(watching := world.watching + {x});
      }
      InvStep(before, Tunnel(Install(x)));
    }

    /** The session of an epoch that has passed is closed, outside the lock. */
    method DropLate(x: nat)
      requires Valid() && !world.panicked && x in world.dropping
      modifies this`world
      ensures Valid() && Step(old(View()), Tunnel(Drop(x))) == Some(View())
    {
      ghost var before := View();
      world := world.(dropping := world.dropping - {x}, closedSessions := world.closedSessions + {x});
      InvStep(before, Tunnel(Drop(x)));
    }

    /** What follows the second lock region: close(readyCh), and the start of the watchdog. */
    method AnnounceReady(x: nat)
      requires Valid() && !world.panicked && x in world.closing && x < |world.dialled|
      requires world.dialled[x] in world.captured
      modifies this`world
      ensures Valid() && Step(old(View()), Tunnel(CloseReady(x))) == Some(View())
    {
      ghost var before := View();
      var readyCh := world.captured[world.dialled[x]];
      if readyCh in world.closedChannels {
        world := world.(panicked := true);
      } else {
        world := world.(closedChannels := world.closedChannels + {readyCh}, closing := world.closing - {x},
                        watching := world.watching + {x});
      }
      InvStep(before, Tunnel(CloseReady(x)));
    }

    /** The watchdog's channel has closed. */
    method WatchdogFires(x: nat)
      requires Valid() && !world.panicked && x in world.watching
      requires x in world.closedSessions || x in world.deadSessions
      modifies this`world, this`rebuildPending
      ensures Valid() && Step(old(View()), Tunnel(Watchdog(x))) == Some(View())
    {
      ghost var before := View();
      world := world.(watching := world.watching - {x});
      RequestRebuild();
      InvStep(before, Tunnel(Watchdog(x)));
    }

    /** handleSignal: a "ready" envelope, or another, which the PeerConnection may refuse as stale. */
    method HandleSignal(rejoined: bool, refused: bool)
      requires Valid() && !world.panicked
      modifies this`rebuildPending, this`lastSDPRace
      ensures Valid()
      ensures rejoined ==> Step(old(View()), Net(Rejoined)) == Some(View())
      ensures !rejoined && pc.Some? && refused ==> Step(old(View()), Net(Race)) == Some(View())
      ensures !rejoined && !(pc.Some? && refused) ==> View() == old(View())
    {
      if rejoined {
        RequestRebuild();
        return;
      }
      if pc.None? {
        return;
      }
      if refused {
        lastSDPRace := clock;
      }
    }
  }
}
