/** What a session holds and dials, as the events of its history say. */
module SupervisorHistory {
  import opened Wrappers
  import opened Supervisor

  /** The epoch, by history: how many PeerConnections have been built. */
  function Built(evs: seq<Event>): nat {
    if evs == [] then 0 else Built(evs[..|evs| - 1]) + if evs[|evs| - 1] == Loop(Build(true)) then 1 else 0
  }

  /** The epoch each session was dialled in, in the order the dials returned. */
  function Dials(evs: seq<Event>): seq<nat> {
    if evs == [] then []
    else Dials(evs[..|evs| - 1]) + match evs[|evs| - 1] case Tunnel(DialDone(e, true)) => [e] case _ => []
  }

  /** The channel of epoch e opened while e was the current epoch. */
  ghost predicate OpenedLive(evs: seq<Event>, e: nat) {
    exists j :: 0 <= j < |evs| && OpensLive(evs, j, e)
  }

  predicate OpensLive(evs: seq<Event>, j: nat, e: nat)
    requires j < |evs|
  {
    evs[j] == Tunnel(Open(e)) && Built(evs[..j]) == e
  }

  predicate DialOver(evs: seq<Event>, e: nat) {
    Tunnel(DialDone(e, true)) in evs || Tunnel(DialDone(e, false)) in evs
  }

  /** The session installed last, in its own epoch, since the last rebuild. */
  function HeldMux(evs: seq<Event>): Option<nat> {
    if evs == [] then None
    else
      var front := evs[..|evs| - 1];
      match evs[|evs| - 1]
      case Loop(Build(_)) => None
      case Tunnel(Install(x)) =>
        if x < |Dials(front)| && Dials(front)[x] == Built(front) then Some(x) else HeldMux(front)
      case _ => HeldMux(front)
  }

  /** The PeerConnection of the last rebuild, if that could make one. */
  function HeldPc(evs: seq<Event>): Option<nat> {
    if evs == [] then None
    else match evs[|evs| - 1]
      case Loop(Build(ok)) => if ok then Some(Built(evs)) else None
      case _ => HeldPc(evs[..|evs| - 1])
  }

  ghost predicate Remembered(l: Links, evs: seq<Event>) {
    && l.epoch == Built(evs) && l.dialled == Dials(evs) && l.mux == HeldMux(evs) && l.pc == HeldPc(evs)
    && (forall e :: e in l.fired <==> Tunnel(Open(e)) in evs)
    && (forall e :: e in l.dialing <==> OpenedLive(evs, e) && !DialOver(evs, e))
    && (forall e | DialOver(evs, e) :: e in l.fired)
  }

  lemma Snoc(evs: seq<Event>, ev: Event)
    ensures (evs + [ev])[..|evs|] == evs && forall x :: x in evs + [ev] <==> x in evs || x == ev
  {
  }

  lemma OpenedLiveSnoc(evs: seq<Event>, ev: Event, e: nat)
    ensures OpenedLive(evs + [ev], e) <==> OpenedLive(evs, e) || (ev == Tunnel(Open(e)) && Built(evs) == e)
  {
    var all := evs + [ev];
    Snoc(evs, ev);
    forall j | 0 <= j < |evs|
      ensures OpensLive(all, j, e) <==> OpensLive(evs, j, e)
    {
      assert all[..j] == evs[..j];
    }
    assert OpensLive(all, |evs|, e) <==> ev == Tunnel(Open(e)) && Built(evs) == e;
  }

  /** What a step does to the epoch, the sessions and what is held. */
  lemma BuildStep(s: State, ok: bool)
    requires Step(s, Loop(Build(ok))).Some?
    ensures var l := Step(s, Loop(Build(ok))).value.links;
      && l.epoch == s.links.epoch + (if ok then 1 else 0) && l.dialled == s.links.dialled
      && l.mux == None && l.pc == if ok then Some(l.epoch) else None
  {
  }

  lemma InstallStep(s: State, x: nat)
    requires Step(s, Tunnel(Install(x))).Some?
    ensures var l := Step(s, Tunnel(Install(x))).value.links;
      && x < |s.links.dialled| && l.epoch == s.links.epoch && l.dialled == s.links.dialled && l.pc == s.links.pc
      && l.mux == if s.links.dialled[x] == s.links.epoch then Some(x) else s.links.mux
  {
  }

  predicate Replaces(ev: Event) {
    match ev
    case Loop(Build(_)) => true
    case Tunnel(Install(_)) => true
    case _ => false
  }

  lemma OtherStep(s: State, ev: Event)
    requires Step(s, ev).Some? && !Replaces(ev)
    ensures var l := Step(s, ev).value.links;
      && l.epoch == s.links.epoch && l.mux == s.links.mux && l.pc == s.links.pc
      && l.dialled == s.links.dialled + match ev case Tunnel(DialDone(e, true)) => [e] case _ => []
  {
  }

  lemma HeldStep(s: State, ev: Event, evs: seq<Event>)
    requires Remembered(s.links, evs) && Step(s, ev).Some?
    ensures var l, all := Step(s, ev).value.links, evs + [ev];
      l.epoch == Built(all) && l.dialled == Dials(all) && l.mux == HeldMux(all) && l.pc == HeldPc(all)
  {
    Snoc(evs, ev);
    match ev
    case Loop(Build(ok)) => BuildStep(s, ok);
    case Tunnel(Install(x)) => InstallStep(s, x);
    case _ => OtherStep(s, ev);
  }

  lemma OpenStep(s: State, e: nat)
    requires Step(s, Tunnel(Open(e))).Some?
    ensures var l := Step(s, Tunnel(Open(e))).value.links;
      && e !in s.links.fired && l.fired == s.links.fired + {e}
      && l.dialing == if s.links.epoch == e then s.links.dialing + {e} else s.links.dialing
  {
  }

  lemma DialStep(s: State, e: nat, ok: bool)
    requires Step(s, Tunnel(DialDone(e, ok))).Some?
    ensures var l := Step(s, Tunnel(DialDone(e, ok))).value.links;
      e in s.links.dialing && l.fired == s.links.fired && l.dialing == s.links.dialing - {e}
  {
  }

  lemma NoDialStep(s: State, ev: Event)
    requires Step(s, ev).Some? && !(ev.Tunnel? && (ev.tunnel.Open? || ev.tunnel.DialDone?))
    ensures var l := Step(s, ev).value.links; l.fired == s.links.fired && l.dialing == s.links.dialing
  {
  }

  /** What a step does to the channels that opened and the dials under way. */
  lemma FiredStep(s: State, ev: Event, e: nat)
    requires Step(s, ev).Some?
    ensures var l := Step(s, ev).value.links;
      && (e in l.fired <==> e in s.links.fired || ev == Tunnel(Open(e)))
      && (e in l.dialing <==>
           || (e in s.links.dialing && ev != Tunnel(DialDone(e, true)) && ev != Tunnel(DialDone(e, false)))
           || (ev == Tunnel(Open(e)) && s.links.epoch == e))
    ensures ev == Tunnel(DialDone(e, true)) || ev == Tunnel(DialDone(e, false)) ==> e in s.links.dialing
    ensures ev == Tunnel(Open(e)) ==> e !in s.links.fired
  {
    match ev
    case Tunnel(Open(x)) => OpenStep(s, x);
    case Tunnel(DialDone(x, ok)) => DialStep(s, x, ok);
    case _ => NoDialStep(s, ev);
  }

  lemma DialingStep(s: State, ev: Event, evs: seq<Event>, e: nat)
    requires Remembered(s.links, evs) && Step(s, ev).Some?
    ensures var l, all := Step(s, ev).value.links, evs + [ev];
      && (e in l.fired <==> Tunnel(Open(e)) in all)
      && (e in l.dialing <==> OpenedLive(all, e) && !DialOver(all, e))
      && (DialOver(all, e) ==> e in l.fired)
  {
    Snoc(evs, ev);
    OpenedLiveSnoc(evs, ev, e);
    FiredStep(s, ev, e);
    if OpenedLive(evs, e) { assert Tunnel(Open(e)) in evs; }
  }

  lemma RememberedStep(s: State, ev: Event, evs: seq<Event>)
    requires Remembered(s.links, evs) && Step(s, ev).Some?
    ensures Remembered(Step(s, ev).value.links, evs + [ev])
  {
    HeldStep(s, ev, evs);
    forall e
      ensures var l, all := Step(s, ev).value.links, evs + [ev];
        && (e in l.fired <==> Tunnel(Open(e)) in all)
        && (e in l.dialing <==> OpenedLive(all, e) && !DialOver(all, e))
        && (DialOver(all, e) ==> e in l.fired)
    {
      DialingStep(s, ev, evs, e);
    }
  }

  lemma {:induction false} RememberedRun(role: Role, forced: bool, now: int, evs: seq<Event>)
    requires Exec(Init(role, forced, now), evs).Some?
    ensures Remembered(Exec(Init(role, forced, now), evs).value.links, evs)
  {
    if evs != [] {
      var front := evs[..|evs| - 1];
      ExecLast(Init(role, forced, now), evs);
      RememberedRun(role, forced, now, front);
      RememberedStep(Exec(Init(role, forced, now), front).value, evs[|evs| - 1], front);
      assert evs == front + [evs[|evs| - 1]];
    }
  }

  /**
  After any run the epoch counts the builds; the session held is the last one installed in its own epoch since the last
  rebuild, the PeerConnection held that of the last rebuild, and each is held whenever there is such a one.
  */
  lemma HeldIsHistory(role: Role, forced: bool, now: int, evs: seq<Event>)
    requires Exec(Init(role, forced, now), evs).Some?
    ensures var l := Exec(Init(role, forced, now), evs).value.links;
      l.epoch == Built(evs) && l.mux == HeldMux(evs) && l.pc == HeldPc(evs)
  {
    RememberedRun(role, forced, now, evs);
  }

  /** And a dial is under way for exactly the epochs whose channel opened while they were current, until it returns. */
  lemma DialingIsHistory(role: Role, forced: bool, now: int, evs: seq<Event>, e: nat)
    requires Exec(Init(role, forced, now), evs).Some?
    ensures e in Exec(Init(role, forced, now), evs).value.links.dialing <==> OpenedLive(evs, e) && !DialOver(evs, e)
  {
    RememberedRun(role, forced, now, evs);
  }

  lemma ReturnsWhileDialling(s: State, ev: Event)
    requires Step(s, ev).Some? && ev.Tunnel? && ev.tunnel.DialDone?
    ensures ev.tunnel.epoch in s.links.dialing
  {
  }

  /** A late callback never dials: whatever dial returns, its channel opened while its epoch was the current one. */
  lemma DialsAreLive(role: Role, forced: bool, now: int, evs: seq<Event>, k: nat)
    requires Exec(Init(role, forced, now), evs).Some? && k < |evs|
    requires evs[k].Tunnel? && evs[k].tunnel.DialDone?
    ensures OpenedLive(evs[..k], evs[k].tunnel.epoch)
  {
    var s0 := Init(role, forced, now);
    ExecAt(s0, evs, k);
    ReturnsWhileDialling(Exec(s0, evs[..k]).value, evs[k]);
    DialingIsHistory(role, forced, now, evs[..k], evs[k].tunnel.epoch);
  }
}
