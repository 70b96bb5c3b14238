/** Exactly which overlap of callbacks can set or withhold relay-only against what was reported. */
module SupervisorOverlap {
  import opened Wrappers
  import opened Supervisor
  import opened SupervisorSafety
  import opened SupervisorRelay
  import opened SupervisorReports

  /** From its k-th event on the run is orderly. */
  ghost predicate OrderlyFrom(s: State, evs: seq<Event>, k: nat) {
    forall i | k <= i < |evs| :: OrderlyAt(s, evs, i)
  }

  lemma OrderlySnoc(s: State, evs: seq<Event>, k: nat, ev: Event)
    requires OrderlyFrom(s, evs, k) && Exec(s, evs).Some? && Orderly(Exec(s, evs).value, ev)
    ensures OrderlyFrom(s, evs + [ev], k)
  {
    var all := evs + [ev];
    forall i | k <= i < |all|
      ensures OrderlyAt(s, all, i)
    {
      assert all[..i] == evs[..i];
      if i < |evs| {
        assert OrderlyAt(s, evs, i);
      } else {
        assert evs[..i] == evs;
      }
    }
  }

  /** However a run goes on in order after these events, the law holds once what was let through has arrived. */
  ghost predicate LawAhead(s: State, forced: bool, base: seq<Event>) {
    forall evs | base <= evs && OrderlyFrom(s, evs, |base|) && Exec(s, evs).Some?
                 && Arrived(Exec(s, evs).value.policy) ::
      Law(forced, Exec(s, evs).value.policy, Observed(s, evs))
  }

  // ------------------------------------------------------------------------------------------------------------
  // Safe overlaps
  // ------------------------------------------------------------------------------------------------------------

  /** One more failure let through leaves two in a row in place, wherever it stands. */
  lemma {:induction false} SaidGrows(reports: seq<PcState>, passed: set<nat>, c: nat)
    ensures Streak(Said(reports, passed + {c})) >= Streak(Said(reports, passed))
    ensures TwoInARow(Said(reports, passed)) ==> TwoInARow(Said(reports, passed + {c}))
  {
    if reports != [] {
      var n := |reports| - 1;
      SaidGrows(reports[..n], passed, c);
      var a, b := Said(reports[..n], passed), Said(reports[..n], passed + {c});
      if reports[n].Connected? {
        OneMore(a, [Clear]);
        OneMore(b, [Clear]);
      } else {
        OneMore(a, [Hit]);
        OneMore(b, [Hit]);
        assert a + [] == a && b + [] == b;
      }
    }
  }

  lemma SaidGrowsBy(reports: seq<PcState>, passed: set<nat>, more: set<nat>)
    requires TwoInARow(Said(reports, passed)) && forall c, d | c in more && d in more :: c == d
    ensures TwoInARow(Said(reports, passed + more))
  {
    if c :| c in more {
      assert more == {c};
      SaidGrows(reports, passed, c);
    } else {
      assert passed + more == passed;
    }
  }

  lemma SaidGrowsOn(reports: seq<PcState>, passed: set<nat>, live: seq<PcState>)
    requires TwoInARow(Said(reports, passed)) && |live| <= 1
    ensures TwoInARow(Said(reports + live, passed))
  {
    if live == [] {
      assert reports + live == reports;
    } else {
      var said := Said(reports, passed);
      SaidSnoc(reports, passed, live[0]);
      TwoKept(said, Clear);
      TwoKept(said, Hit);
      assert said + [] == said;
    }
  }

  lemma ObservedStep(s: State, evs: seq<Event>, ev: Event)
    requires Started(s) && Exec(s, evs + [ev]).Some? && TwoInARow(Observed(s, evs))
    ensures TwoInARow(Observed(s, evs + [ev]))
  {
    RunStep(s, evs, ev);
    SaidGrowsBy(Reports(s, evs), Passed(s, evs), NewlyPassed(s, evs, ev));
    SaidGrowsOn(Reports(s, evs), Passed(s, evs) + NewlyPassed(s, evs, ev), LiveReport(Exec(s, evs).value, ev));
  }

  lemma {:induction false} ObservedGrows(s: State, base: seq<Event>, more: seq<Event>)
    requires Started(s) && Exec(s, base + more).Some? && TwoInARow(Observed(s, base))
    ensures TwoInARow(Observed(s, base + more))
    decreases |more|
  {
    if more == [] {
      assert base + more == base;
    } else {
      var front, ev := base + more[..|more| - 1], more[|more| - 1];
      assert base + more == front + [ev];
      RunsBefore(s, front, ev);
      ObservedGrows(s, base, more[..|more| - 1]);
      ObservedStep(s, front, ev);
    }
  }

  lemma RunsBefore(s: State, front: seq<Event>, ev: Event)
    requires Exec(s, front + [ev]).Some?
    ensures Exec(s, front).Some?
  {
    assert (front + [ev])[..|front|] == front;
  }

  lemma {:induction false} EscalatedKept(s: State, evs: seq<Event>)
    requires Exec(s, evs).Some? && Escalated(s.policy)
    ensures Escalated(Exec(s, evs).value.policy)
  {
    if evs != [] {
      ExecLast(s, evs);
      EscalatedKept(s, evs[..|evs| - 1]);
      PolicyStep(Exec(s, evs[..|evs| - 1]).value, evs[|evs| - 1]);
    }
  }

  /** After an orderly run: what the counter and the reports say. */
  lemma AfterOrderlyRun(role: Role, forced: bool, now: int, evs: seq<Event>)
    requires now > 0 && Exec(Init(role, forced, now), evs).Some? && OrderlyRun(Init(role, forced, now), evs)
    ensures var s, p := Init(role, forced, now), Exec(Init(role, forced, now), evs).value.policy;
      && Matched(p, Reports(s, evs), Passed(s, evs))
      && Agree(p, Marks(evs), Observed(s, evs), Reports(s, evs))
      && p.fails == Streak(Marks(evs)) && (Escalated(p) <==> forced || TwoInARow(Marks(evs)))
  {
    var s := Init(role, forced, now);
    MatchedRun(s, evs);
    AgreeRun(s, evs);
    RelayRefinesHistory(role, forced, now, evs);
  }

  lemma OrderlyOnce(s: State, base: seq<Event>, ev: Event, evs: seq<Event>)
    requires OrderlyRun(s, base) && Exec(s, base).Some? && Orderly(Exec(s, base).value, ev)
    requires base + [ev] <= evs && OrderlyFrom(s, evs, |base| + 1)
    ensures OrderlyRun(s, evs)
  {
    forall i | 0 <= i < |evs|
      ensures OrderlyAt(s, evs, i)
    {
      if i == |base| {
        assert evs[..i] == base && evs[i] == ev;
      } else if i < |base| {
        assert evs[..i] == base[..i] && evs[i] == base[i];
        assert OrderlyAt(s, base, i);
      }
    }
  }

  /**
  Relay-only is set or cannot be avoided: enough failures are counted or let through that one reset, if one is parked,
  leaves two of them in a row.
  */
  predicate Committed(p: Policy) {
    || Escalated(p)
    || (p.resets == {} && p.fails + |p.counts| >= 2)
    || (|p.resets| == 1 && p.fails + |p.counts| >= 3)
  }

  predicate Latched(p: Policy) {
    p.fails >= 2 ==> Escalated(p)
  }

  lemma CommittedReport(s: State, ev: NetEvent)
    requires Committed(s.policy) && Latched(s.policy) && ev.StateChange? && Orderly(s, Net(ev))
    ensures Committed(StateChanged(s, ev.epoch, ev.state).policy)
    ensures Latched(StateChanged(s, ev.epoch, ev.state).policy)
  {
  }

  lemma CommittedReset(p: Policy, c: nat)
    requires Committed(p) && Latched(p) && c in p.resets
    ensures Committed(p.(resets := p.resets - {c}, fails := 0)) && Latched(p.(resets := p.resets - {c}, fails := 0))
  {
    assert |p.resets - {c}| == |p.resets| - 1;
  }

  lemma CommittedClassify(s: State, c: nat)
    requires Committed(s.policy) && Latched(s.policy) && c in s.policy.classifies && Named(s.policy)
    ensures Committed(Classified(s, c).policy) && Latched(Classified(s, c).policy)
  {
    assert c !in s.policy.counts && |s.policy.counts + {c}| == |s.policy.counts| + 1;
  }

  lemma CommittedCount(s: State, c: nat)
    requires Committed(s.policy) && Latched(s.policy) && c in s.policy.counts
    ensures Committed(Counted(s, c).policy) && Latched(Counted(s, c).policy)
  {
    assert |s.policy.counts - {c}| == |s.policy.counts| - 1;
    assert s.policy.fails >= 1 ==> c in Counted(s, c).policy.latches;
  }

  predicate Tallies(ev: Event) {
    ev.Net? && (ev.net.StateChange? || ev.net.Reset? || ev.net.Classify? || ev.net.Count?)
  }

  /** Every other event leaves the counter and what is parked alone, or sets relay-only. */
  lemma NotTallied(s: State, ev: Event)
    requires Step(s, ev).Some? && !Tallies(ev)
    ensures var p := Step(s, ev).value.policy; p.relayOnly || p == s.policy.(lastRace := p.lastRace)
  {
  }

  lemma CommittedStep(s: State, ev: Event)
    requires Committed(s.policy) && Latched(s.policy) && Named(s.policy) && Step(s, ev).Some? && Orderly(s, ev)
    ensures Committed(Step(s, ev).value.policy) && Latched(Step(s, ev).value.policy)
  {
    match ev
    case Net(StateChange(_, _)) => CommittedReport(s, ev.net);
    case Net(Reset(c)) => CommittedReset(s.policy, c);
    case Net(Classify(c)) => CommittedClassify(s, c);
    case Net(Count(c)) => CommittedCount(s, c);
    case _ => NotTallied(s, ev);
  }

  lemma {:induction false} CommittedRun(s: State, evs: seq<Event>, k: nat)
    requires Started(s) && Exec(s, evs).Some? && k <= |evs| && OrderlyFrom(s, evs, k)
    requires Exec(s, evs[..k]).Some?
    requires Committed(Exec(s, evs[..k]).value.policy) && Latched(Exec(s, evs[..k]).value.policy)
    ensures Committed(Exec(s, evs).value.policy) && Latched(Exec(s, evs).value.policy)
    decreases |evs|
  {
    if k == |evs| {
      assert evs[..k] == evs;
    } else {
      var n := |evs| - 1;
      var front := evs[..n];
      ExecLast(s, evs);
      OrderlyFront(s, evs, k);
      assert front[..k] == evs[..k];
      CommittedRun(s, front, k);
      NamedRun(s, front);
      assert OrderlyAt(s, evs, n);
      CommittedStep(Exec(s, front).value, evs[n]);
    }
  }

  lemma OrderlyFront(s: State, evs: seq<Event>, k: nat)
    requires evs != [] && OrderlyFrom(s, evs, k)
    ensures OrderlyFrom(s, evs[..|evs| - 1], k)
  {
    var n := |evs| - 1;
    forall i | k <= i < n
      ensures OrderlyAt(s, evs[..n], i)
    {
      assert evs[..n][..i] == evs[..i];
      assert OrderlyAt(s, evs, i);
    }
  }

  lemma CommittedArrives(p: Policy)
    requires Committed(p) && Latched(p) && Arrived(p)
    ensures p.relayOnly
  {
  }

  /** With three failures counted or let through and not all counted, the reports already show two in a row. */
  lemma ThreeSaid(role: Role, forced: bool, now: int, base: seq<Event>)
    requires now > 0 && Exec(Init(role, forced, now), base).Some? && OrderlyRun(Init(role, forced, now), base)
    requires var p := Exec(Init(role, forced, now), base).value.policy; p.resets == {} && p.fails + |p.counts| >= 3
    ensures TwoInARow(Observed(Init(role, forced, now), base))
    ensures Latched(Exec(Init(role, forced, now), base).value.policy)
  {
    AfterOrderlyRun(role, forced, now, base);
    if Streak(Marks(base)) >= 2 { LongStreak(Marks(base)); }
  }

  /** A reset is parked with failures let through only after a run that was not orderly. */
  lemma ResetsExclude(role: Role, forced: bool, now: int, base: seq<Event>)
    requires now > 0 && Exec(Init(role, forced, now), base).Some? && OrderlyRun(Init(role, forced, now), base)
    requires var p := Exec(Init(role, forced, now), base).value.policy; p.resets != {} && p.fails + |p.counts| >= 3
    ensures Escalated(Exec(Init(role, forced, now), base).value.policy)
  {
    AfterOrderlyRun(role, forced, now, base);
    LongStreak(Marks(base));
  }

  /** From there on relay-only cannot be avoided. */
  lemma CommittedEnd(s0: State, base: seq<Event>, ev: NetEvent, evs: seq<Event>)
    requires Started(s0) && Exec(s0, base).Some? && base + [Net(ev)] <= evs && Exec(s0, evs).Some?
    requires OrderlyFrom(s0, evs, |base| + 1) && Arrived(Exec(s0, evs).value.policy)
    requires var s := Exec(s0, base).value;
      && !Orderly(s, Net(ev)) && s.policy.resets == {} && Latched(s.policy)
      && s.policy.fails + |s.policy.counts| >= 3 && Step(s, Net(ev)).Some?
    ensures Exec(s0, evs).value.policy.relayOnly
  {
    var all := base + [Net(ev)];
    assert evs[..|all|] == all;
    ExecSnoc(s0, base, Net(ev));
    NowCommitted(Exec(s0, base).value, ev);
    CommittedFrom(s0, all, evs);
  }

  lemma CommittedFrom(s0: State, all: seq<Event>, evs: seq<Event>)
    requires Started(s0) && Exec(s0, evs).Some? && all <= evs && OrderlyFrom(s0, evs, |all|) && Exec(s0, all).Some?
    requires Committed(Exec(s0, all).value.policy) && Latched(Exec(s0, all).value.policy)
    requires Arrived(Exec(s0, evs).value.policy)
    ensures Exec(s0, evs).value.policy.relayOnly
  {
    assert evs[..|all|] == all;
    CommittedRun(s0, evs, |all|);
    CommittedArrives(Exec(s0, evs).value.policy);
  }

  /** Three failures, counted or let through, before a success whose reset they meet: relay-only is set all the same. */
  lemma CommittedAhead(s0: State, base: seq<Event>, ev: NetEvent, evs: seq<Event>)
    requires Started(s0) && Exec(s0, base).Some? && base + [Net(ev)] <= evs && Exec(s0, evs).Some?
    requires OrderlyFrom(s0, evs, |base| + 1) && Arrived(Exec(s0, evs).value.policy)
    requires var s := Exec(s0, base).value;
      && !Orderly(s, Net(ev)) && s.policy.resets == {} && Latched(s.policy)
      && s.policy.fails + |s.policy.counts| >= 3 && Step(s, Net(ev)).Some?
    requires TwoInARow(Observed(s0, base))
    ensures Exec(s0, evs).value.policy.relayOnly && TwoInARow(Observed(s0, evs))
  {
    CommittedEnd(s0, base, ev, evs);
    ShorterPrefix(base, Net(ev), evs);
    SaidStays(s0, base, evs);
  }

  lemma ShorterPrefix(base: seq<Event>, ev: Event, evs: seq<Event>)
    requires base + [ev] <= evs
    ensures base <= evs
  {
    assert base == (base + [ev])[..|base|] == evs[..|base|];
  }

  lemma SaidStays(s: State, base: seq<Event>, evs: seq<Event>)
    requires Started(s) && Exec(s, evs).Some? && base <= evs && TwoInARow(Observed(s, base))
    ensures TwoInARow(Observed(s, evs))
  {
    assert evs == base + evs[|base|..];
    ObservedGrows(s, base, evs[|base|..]);
  }

  lemma NowCommitted(s: State, ev: NetEvent)
    requires !Orderly(s, Net(ev)) && s.policy.resets == {} && Latched(s.policy)
    requires s.policy.fails + |s.policy.counts| >= 3 && Step(s, Net(ev)).Some?
    ensures Committed(Step(s, Net(ev)).value.policy) && Latched(Step(s, Net(ev)).value.policy)
  {
    assert ev.StateChange? && ev.state.Connected?;
    assert Step(s, Net(ev)).value.policy.resets == {s.policy.reports};
  }

  /** The report meets no callback of the opposite kind, or relay-only is settled anyway. */
  predicate Harmless(s: State, ev: Event) {
    Orderly(s, ev) || Escalated(s.policy) || s.policy.fails + |s.policy.counts| >= 3
  }

  lemma SafeAhead(role: Role, forced: bool, now: int, base: seq<Event>, ev: NetEvent)
    requires now > 0 && Exec(Init(role, forced, now), base).Some? && OrderlyRun(Init(role, forced, now), base)
    requires Step(Exec(Init(role, forced, now), base).value, Net(ev)).Some?
    requires Harmless(Exec(Init(role, forced, now), base).value, Net(ev))
    ensures LawAhead(Init(role, forced, now), forced, base + [Net(ev)])
  {
    var s0 := Init(role, forced, now);
    var s := Exec(s0, base).value;
    forall evs | base + [Net(ev)] <= evs && OrderlyFrom(s0, evs, |base| + 1) && Exec(s0, evs).Some?
                 && Arrived(Exec(s0, evs).value.policy)
      ensures Law(forced, Exec(s0, evs).value.policy, Observed(s0, evs))
    {
      if Orderly(s, Net(ev)) {
        OrderlyOnce(s0, base, Net(ev), evs);
        ReportsDecideRelay(role, forced, now, evs);
      } else if Escalated(s.policy) {
        StillEscalated(role, forced, now, base, evs);
      } else if s.policy.resets == {} {
        ThreeSaid(role, forced, now, base);
        CommittedAhead(s0, base, ev, evs);
      } else {
        ResetsExclude(role, forced, now, base);
        StillEscalated(role, forced, now, base, evs);
      }
    }
  }

  lemma StillEscalated(role: Role, forced: bool, now: int, base: seq<Event>, evs: seq<Event>)
    requires now > 0 && Exec(Init(role, forced, now), base).Some? && OrderlyRun(Init(role, forced, now), base)
    requires Escalated(Exec(Init(role, forced, now), base).value.policy) && base <= evs
    requires Exec(Init(role, forced, now), evs).Some? && Arrived(Exec(Init(role, forced, now), evs).value.policy)
    ensures Law(forced, Exec(Init(role, forced, now), evs).value.policy, Observed(Init(role, forced, now), evs))
  {
    var s0 := Init(role, forced, now);
    AfterOrderlyRun(role, forced, now, base);
    ExecBetween(s0, evs, |base|, |evs|);
    assert evs[..|base|] == base && evs[..|evs|] == evs;
    EscalatedKept(Exec(s0, base).value, evs[|base|..|evs|]);
    if !forced { SaidStays(s0, base, evs); }
  }

  // ------------------------------------------------------------------------------------------------------------
  // Unsafe overlaps
  // ------------------------------------------------------------------------------------------------------------

  /** A relation of a state, the reports so far and the failures let through, of which only closure is used. */
  type Track = (State, seq<PcState>, set<nat>) -> bool

  function Lets(s: State, ev: Event): set<nat> {
    match ev
    case Net(Classify(c)) => if RaceRecent(s) then {} else {c}
    case _ => {}
  }

  ghost predicate Closed(go: Track) {
    forall s, ev, r, p | go(s, r, p) && Step(s, ev).Some? && Orderly(s, ev) ::
      go(Step(s, ev).value, r + LiveReport(s, ev), p + Lets(s, ev))
  }

  /** Reached by going on in order from base. */
  ghost predicate Ahead(s0: State, base: seq<Event>, s: State, r: seq<PcState>, p: set<nat>) {
    exists evs :: Along(s0, base, evs, s, r, p)
  }

  ghost predicate Along(s0: State, base: seq<Event>, evs: seq<Event>, s: State, r: seq<PcState>, p: set<nat>) {
    && base <= evs && OrderlyFrom(s0, evs, |base|)
    && Exec(s0, evs) == Some(s) && Reports(s0, evs) == r && Passed(s0, evs) == p
  }

  lemma AlongStep(s0: State, base: seq<Event>, evs: seq<Event>, s: State, r: seq<PcState>, p: set<nat>, ev: Event)
    requires Started(s0) && Along(s0, base, evs, s, r, p) && Step(s, ev).Some? && Orderly(s, ev)
    ensures Along(s0, base, evs + [ev], Step(s, ev).value, r + LiveReport(s, ev), p + Lets(s, ev))
  {
    ExecSnoc(s0, evs, ev);
    RunStep(s0, evs, ev);
    OrderlySnoc(s0, evs, |base|, ev);
  }

  lemma AheadIsClosed(s0: State, base: seq<Event>)
    requires Started(s0)
    ensures Closed((s, r, p) => Ahead(s0, base, s, r, p))
  {
    forall s, ev, r, p | Ahead(s0, base, s, r, p) && Step(s, ev).Some? && Orderly(s, ev)
      ensures Ahead(s0, base, Step(s, ev).value, r + LiveReport(s, ev), p + Lets(s, ev))
    {
      var evs :| Along(s0, base, evs, s, r, p);
      AlongStep(s0, base, evs, s, r, p, ev);
    }
  }

  /** Where the next steps start: what is parked is known, and the recorded race is not in the future. */
  ghost predicate Poised(go: Track, s: State, r: seq<PcState>, p: set<nat>) {
    go(s, r, p) && Matched(s.policy, r, p) && s.policy.lastRace <= s.clock && !s.links.panicked
  }

  ghost predicate Broken(go: Track, forced: bool) {
    exists s, r, p :: go(s, r, p) && Arrived(s.policy) && !Law(forced, s.policy, Said(r, p))
  }

  lemma Follow(go: Track, s: State, r: seq<PcState>, p: set<nat>, ev: Event, t: State)
    requires Closed(go) && go(s, r, p) && Step(s, ev) == Some(t) && Orderly(s, ev)
    ensures go(t, r + LiveReport(s, ev), p + Lets(s, ev))
  {
  }

  lemma Silent(go: Track, s: State, r: seq<PcState>, p: set<nat>, ev: Event, t: State)
    requires Closed(go) && Poised(go, s, r, p) && Step(s, ev) == Some(t) && LiveReport(s, ev) == [] && Lets(s, ev) == {}
    requires !(ev.Net? && ev.net.StateChange?) && t.policy.lastRace <= t.clock && !t.links.panicked
    requires ev.Net? ==> !ev.net.Classify?
    ensures Poised(go, t, r, p)
  {
    MatchedStep(s, ev, r, p, {});
    Follow(go, s, r, p, ev, t);
    assert r + [] == r && p + {} == p;
  }

  /** The policy after the callback of failure c has done all its work. */
  function Served(p: Policy, c: nat): Policy {
    p.(classifies := p.classifies - {c}, counts := p.counts - {c}, fails := p.fails + 1,
       relayOnly := p.relayOnly || p.fails >= 1)
  }

  /** A failure let through is counted, and if it is the second, the switch is set. */
  lemma ServeCounted(go: Track, s: State, r: seq<PcState>, p: set<nat>, c: nat) returns (t: State)
    requires Closed(go) && Poised(go, s, r, p) && c in s.policy.counts && s.policy.latches == {}
    ensures Poised(go, t, r, p) && t.links == s.links && t.policy == Served(s.policy, c) && t.requests > 0
  {
    var q := Served(s.policy, c);
    assert s.policy.classifies - {c} == s.policy.classifies;
    t := Counted(s, c);
    Silent(go, s, r, p, Net(Count(c)), t);
    if s.policy.fails >= 1 {
      var u := t;
      t := u.(policy := u.policy.(latches := u.policy.latches - {c}, relayOnly := true), requests := u.requests + 1);
      assert u.policy.latches - {c} == {};
      Silent(go, u, r, p, Net(Latch(c)), t);
    }
  }

  /** The window passes, and the failure's callback runs to its end. */
  lemma Serve(go: Track, s: State, r: seq<PcState>, p: set<nat>, c: nat) returns (t: State)
    requires Closed(go) && Poised(go, s, r, p)
    requires c in s.policy.classifies && s.policy.counts == {} && s.policy.latches == {}
    ensures Poised(go, t, r, p + {c}) && t.links == s.links && t.policy == Served(s.policy, c) && t.requests > 0
  {
    var later := s.(clock := s.clock + SDP_RACE_WINDOW);
    Silent(go, s, r, p, Tick(s.clock + SDP_RACE_WINDOW), later);
    var through := Classified(later, c);
    MatchedClassify(later, c, r, p);
    Follow(go, later, r, p, Net(Classify(c)), through);
    assert r + [] == r;
    assert through.policy.counts == {c};
    t := ServeCounted(go, through, r, p + {c}, c);
    assert {c} - {c} == {};
    assert s.policy.classifies - {c} - {c} == s.policy.classifies - {c};
  }

  /** All parked resets arrive. */
  lemma {:induction false} ResetAll(go: Track, s: State, r: seq<PcState>, p: set<nat>) returns (t: State)
    requires Closed(go) && Poised(go, s, r, p) && s.policy.resets != {}
    ensures Poised(go, t, r, p) && t.links == s.links && t.policy == s.policy.(resets := {}, fails := 0)
    ensures t.requests == s.requests
    decreases |s.policy.resets|
  {
    var c :| c in s.policy.resets;
    var u := s.(policy := s.policy.(resets := s.policy.resets - {c}, fails := 0));
    Silent(go, s, r, p, Net(Reset(c)), u);
    if u.policy.resets == {} {
      t := u;
    } else {
      t := ResetAll(go, u, r, p);
    }
  }

  /** A request that is parked leads to a rebuild, and so to a PeerConnection that has not reported anything. */
  lemma FreshPc(go: Track, s: State, r: seq<PcState>, p: set<nat>) returns (t: State)
    requires Closed(go) && Poised(go, s, r, p) && s.requests > 0 && PcInv(s.links)
    ensures Poised(go, t, r, p) && t.policy == s.policy
    ensures t.links.epoch == s.links.epoch + 1 && MayReport(t.links, t.links.epoch, Failed)
  {
    var b := ToBuilding(go, s, r, p);
    t := Step(b, Loop(Build(true))).value;
    Silent(go, b, r, p, Loop(Build(true)), t);
  }

  lemma ToBuilding(go: Track, s: State, r: seq<PcState>, p: set<nat>) returns (t: State)
    requires Closed(go) && Poised(go, s, r, p) && s.requests > 0
    ensures Poised(go, t, r, p) && t.policy == s.policy && t.links == s.links && t.loop.Building?
  {
    match s.loop
    case Building => t := s;
    case Backoff =>
      var a := s.(loop := Idle, token := true);
      Silent(go, s, r, p, Loop(Retry), a);
      t := a.(token := false, loop := Building);
      Silent(go, a, r, p, Loop(Take), t);
    case _ =>
      var a := s.(loop := Idle);
      if s.loop.Offering? { Silent(go, s, r, p, Loop(Offer(true)), a); }
      var b := a.(requests := a.requests - 1, token := true);
      Silent(go, a, r, p, Net(Request), b);
      t := b.(token := false, loop := Building);
      Silent(go, b, r, p, Loop(Take), t);
  }

  /** A live failure is reported when nothing has to be reset, and its callback runs to its end. */
  lemma FailAgain(go: Track, s: State, r: seq<PcState>, p: set<nat>) returns (t: State, q: set<nat>)
    requires Closed(go) && Poised(go, s, r, p) && MayReport(s.links, s.links.epoch, Failed)
    requires s.policy.resets == {} && s.policy.counts == {} && s.policy.latches == {}
    ensures Poised(go, t, r + [Failed], q) && Said(r + [Failed], q) == Said(r, p) + [Hit]
    ensures t.policy == Served(s.policy, |r|).(reports := |r| + 1) && t.requests > 0
    ensures t.links == Reported(s.links, s.links.epoch, Failed)
  {
    var ev := Net(StateChange(s.links.epoch, Failed));
    var n := |r|;
    var u := StateChanged(s, s.links.epoch, Failed);
    MatchedReport(s, s.links.epoch, Failed, r, p);
    Follow(go, s, r, p, ev, u);
    assert p + {} == p && LiveReport(s, ev) == [Failed];
    t := Serve(go, u, r + [Failed], p, n);
    q := p + {n};
    assert n !in s.policy.classifies && s.policy.classifies + {n} - {n} == s.policy.classifies - {n};
    LateHit(r, p);
  }

  lemma Breaks(go: Track, s: State, r: seq<PcState>, p: set<nat>)
    requires go(s, r, p) && Arrived(s.policy) && s.policy.relayOnly != TwoInARow(Said(r, p))
    ensures Broken(go, false)
  {
    assert !Law(false, s.policy, Said(r, p));
  }

  lemma LateHit(r: seq<PcState>, p: set<nat>)
    ensures Said(r + [Failed], p + {|r|}) == Said(r, p) + [Hit]
  {
    SaidSnoc(r, p + {|r|}, Failed);
    SaidIgnores(r, p, |r|);
  }

  /** A failure is reported while resets of earlier successes are still parked. */
  lemma FailureOverSuccess(go: Track, s: State, r: seq<PcState>, p: set<nat>)
    requires Closed(go) && Poised(go, s, r + [Failed], p) && PcInv(s.links) && !s.policy.relayOnly
    requires s.policy.resets != {} && s.policy.classifies == {|r|} && s.policy.counts == s.policy.latches == {}
    requires s.policy.fails <= 1 && Streak(Said(r, p)) == 0 && !TwoInARow(Said(r, p))
    ensures Broken(go, false)
  {
    var all, q := r + [Failed], p + {|r|};
    var t := Serve(go, s, all, p, |r|);
    LateHit(r, p);
    OneMore(Said(r, p), [Hit]);
    if s.policy.fails == 1 {
      Breaks(go, t, all, q);
    } else {
      AfterOne(go, t, all, q);
    }
  }

  /** The resets come after the failure was counted; the next failure, on a new PeerConnection, counts as the first. */
  lemma AfterOne(go: Track, s: State, r: seq<PcState>, p: set<nat>)
    requires Closed(go) && Poised(go, s, r, p) && PcInv(s.links) && s.requests > 0 && !s.policy.relayOnly
    requires s.policy.resets != {} && s.policy.counts == s.policy.latches == {}
    requires Streak(Said(r, p)) == 1
    ensures Broken(go, false)
  {
    var u := ResetAll(go, s, r, p);
    var f := FreshPc(go, u, r, p);
    var v, w := FailAgain(go, f, r, p);
    OneMore(Said(r, p), [Hit]);
    Breaks(go, v, r + [Failed], w);
  }

  /** The state after a live success met failures on their way to the counter. */
  ghost predicate Met(go: Track, s: State, r: seq<PcState>, p: set<nat>) {
    && Closed(go) && Poised(go, s, r + [Connected], p) && MayReport(s.links, s.links.epoch, Failed)
    && s.policy.resets == {|r|} && s.policy.latches == {} && !s.policy.relayOnly && s.policy.fails <= 1
    && Streak(Said(r, p)) == s.policy.fails + |s.policy.counts|
    && (TwoInARow(Said(r, p)) <==> s.policy.fails + |s.policy.counts| >= 2)
    && forall c | c in s.policy.classifies :: Trailing(r, c)
  }

  /** What the reports say after the success, and after one more failure on the same PeerConnection. */
  lemma SaidAfter(r: seq<PcState>, p: set<nat>)
    ensures Said(r + [Connected], p) == Said(r, p) + [Clear]
    ensures Streak(Said(r + [Connected], p)) == 0
    ensures TwoInARow(Said(r + [Connected], p)) <==> TwoInARow(Said(r, p))
    ensures TwoInARow(Said(r + [Connected], p) + [Hit]) <==> TwoInARow(Said(r, p))
  {
    SaidSnoc(r, p, Connected);
    OneMore(Said(r, p), [Clear]);
    OneMore(Said(r, p) + [Clear], [Hit]);
  }

  lemma OneLess(a: set<nat>, d: nat)
    requires d in a
    ensures |a - {d}| == |a| - 1 && (|a| == 1 ==> a - {d} == {})
  {
    if |a| == 1 { assert |a - {d}| == 0; }
  }

  /** The reset overtakes the second of two failures. */
  lemma SecondMet(go: Track, s: State, r: seq<PcState>, p: set<nat>)
    requires Closed(go) && Poised(go, s, r, p) && s.policy.resets != {} && s.policy.latches == {} && !s.policy.relayOnly
    requires |s.policy.counts| == 1 && TwoInARow(Said(r, p))
    ensures Broken(go, false)
  {
    var d :| d in s.policy.counts;
    OneLess(s.policy.counts, d);
    var t := ResetAll(go, s, r, p);
    var u := ServeCounted(go, t, r, p, d);
    Breaks(go, u, r, p);
  }

  /** The reset overtakes one of two failures. */
  lemma TwoMet(go: Track, s: State, r: seq<PcState>, p: set<nat>)
    requires Met(go, s, r, p) && s.policy.fails + |s.policy.counts| == 2
    ensures Broken(go, false)
  {
    var all := r + [Connected];
    SaidAfter(r, p);
    if s.policy.fails == 1 {
      SecondMet(go, s, all, p);
    } else {
      var d :| d in s.policy.counts;
      OneLess(s.policy.counts, d);
      var a := ServeCounted(go, s, all, p, d);
      SecondMet(go, a, all, p);
    }
  }

  /** The reset overtakes the only failure, and then one more is reported. */
  lemma OneMet(go: Track, s: State, r: seq<PcState>, p: set<nat>)
    requires Met(go, s, r, p) && s.policy.fails == 0 && |s.policy.counts| == 1
    ensures Broken(go, false)
  {
    var all := r + [Connected];
    SaidAfter(r, p);
    var d :| d in s.policy.counts;
    OneLess(s.policy.counts, d);
    var t := ResetAll(go, s, all, p);
    var u := ServeCounted(go, t, all, p, d);
    var v, w := FailAgain(go, u, all, p);
    Breaks(go, v, all + [Failed], w);
  }

  /** The reset overtakes a failure that has yet to be let through. */
  lemma LateMet(go: Track, s: State, r: seq<PcState>, p: set<nat>, d: nat)
    requires Met(go, s, r, p) && s.policy.counts == {} && d in s.policy.classifies
    ensures Broken(go, false)
  {
    var all, q := r + [Connected], p + {d};
    SaidLate(r, p, d);
    OneMore(Said(r, p), [Hit]);
    SaidAfter(r, q);
    var t := ResetAll(go, s, all, p);
    var u := Serve(go, t, all, p, d);
    if s.policy.fails == 1 {
      Breaks(go, u, all, q);
    } else {
      var v, w := FailAgain(go, u, all, q);
      Breaks(go, v, all + [Failed], w);
    }
  }

  /** A success is reported while failures that are or will be let through are still parked. */
  lemma SuccessOverFailure(go: Track, s: State, r: seq<PcState>, p: set<nat>)
    requires Met(go, s, r, p) && s.policy.fails + |s.policy.counts| <= 2
    requires s.policy.classifies != {} || s.policy.counts != {}
    ensures Broken(go, false)
  {
    if s.policy.fails + |s.policy.counts| == 2 {
      TwoMet(go, s, r, p);
    } else if s.policy.counts == {} {
      var d :| d in s.policy.classifies;
      LateMet(go, s, r, p, d);
    } else {
      OneMet(go, s, r, p);
    }
  }

  lemma BrokenAhead(s0: State, forced: bool, base: seq<Event>)
    requires Broken((s, r, p) => Ahead(s0, base, s, r, p), forced)
    ensures !LawAhead(s0, forced, base)
  {
    var s, r, p :| Ahead(s0, base, s, r, p) && Arrived(s.policy) && !Law(forced, s.policy, Said(r, p));
    var evs :| Along(s0, base, evs, s, r, p);
    assert Observed(s0, evs) == Said(r, p);
  }

  lemma StartAhead(s0: State, base: seq<Event>)
    requires Started(s0) && Exec(s0, base).Some?
    ensures Ahead(s0, base, Exec(s0, base).value, Reports(s0, base), Passed(s0, base))
  {
    assert Along(s0, base, base, Exec(s0, base).value, Reports(s0, base), Passed(s0, base));
  }

  /** What an orderly run leaves: the counter follows what was counted, the parked callbacks what was reported. */
  ghost predicate Tracked(s: State, told: seq<Mark>, r: seq<PcState>, p: set<nat>) {
    && Matched(s.policy, r, p) && PcInv(s.links) && s.policy.lastRace <= s.clock
    && Agree(s.policy, told, Said(r, p), r) && s.policy.fails == Streak(told)
  }

  lemma TrackedRun(role: Role, forced: bool, now: int, base: seq<Event>)
    requires now > 0 && OrderlyRun(Init(role, forced, now), base) && Exec(Init(role, forced, now), base).Some?
    ensures var s0 := Init(role, forced, now);
      var s := Exec(s0, base).value;
      Tracked(s, Marks(base), Reports(s0, base), Passed(s0, base))
      && (Escalated(s.policy) <==> forced || TwoInARow(Marks(base)))
  {
    var s0 := Init(role, forced, now);
    AfterOrderlyRun(role, forced, now, base);
    LastRaceIsLatest(s0, base);
    InvRun(s0, base);
  }

  /** A live report that meets opposite callbacks, and how it goes wrong from there. */
  lemma OverlapBreaks(go: Track, s: State, ev: NetEvent, told: seq<Mark>, r: seq<PcState>, p: set<nat>)
    requires Closed(go) && Step(s, Net(ev)).Some? && go(Step(s, Net(ev)).value, r + LiveReport(s, Net(ev)), p)
    requires Tracked(s, told, r, p) && LiveReport(s, Net(ev)) != [] && !Harmless(s, Net(ev)) && !TwoInARow(told)
    ensures Broken(go, false)
  {
    if Streak(told) >= 2 { LongStreak(told); }
    if ev.state.Failed? {
      FailureBreaks(go, s, ev.epoch, r, p);
    } else {
      SuccessBreaks(go, s, ev.epoch, r, p);
    }
  }

  lemma FailureBreaks(go: Track, s: State, e: nat, r: seq<PcState>, p: set<nat>)
    requires Closed(go) && Step(s, Net(StateChange(e, Failed))).Some? && e == s.links.epoch
    requires go(StateChanged(s, e, Failed), r + [Failed], p)
    requires Matched(s.policy, r, p) && PcInv(s.links) && s.policy.lastRace <= s.clock
    requires s.policy.resets != {} && s.policy.classifies == s.policy.counts == s.policy.latches == {}
    requires !s.policy.relayOnly && s.policy.fails <= 1 && Streak(Said(r, p)) == 0 && !TwoInARow(Said(r, p))
    ensures Broken(go, false)
  {
    MatchedReport(s, e, Failed, r, p);
    MetFailed(s, e);
    FailureOverSuccess(go, StateChanged(s, e, Failed), r, p);
  }

  lemma SuccessBreaks(go: Track, s: State, e: nat, r: seq<PcState>, p: set<nat>)
    requires Closed(go) && Step(s, Net(StateChange(e, Connected))).Some? && e == s.links.epoch
    requires go(StateChanged(s, e, Connected), r + [Connected], p)
    requires Matched(s.policy, r, p) && s.policy.lastRace <= s.clock
    requires s.policy.resets == {} && s.policy.latches == {} && !s.policy.relayOnly && s.policy.fails <= 1
    requires s.policy.fails + |s.policy.counts| <= 2 && (s.policy.classifies != {} || s.policy.counts != {})
    requires Streak(Said(r, p)) == s.policy.fails + |s.policy.counts|
    requires TwoInARow(Said(r, p)) <==> s.policy.fails + |s.policy.counts| >= 2
    requires forall c | c in s.policy.classifies :: Trailing(r, c)
    ensures Broken(go, false)
  {
    MatchedReport(s, e, Connected, r, p);
    MetConnected(s, e);
    SuccessOverFailure(go, StateChanged(s, e, Connected), r, p);
  }

  lemma MetFailed(s: State, e: nat)
    requires e == s.links.epoch && s.policy.classifies == {}
    ensures var q := StateChanged(s, e, Failed).policy;
      q == s.policy.(reports := s.policy.reports + 1, classifies := {s.policy.reports})
  {
  }

  lemma MetConnected(s: State, e: nat)
    requires e == s.links.epoch && s.policy.resets == {}
    ensures var q := StateChanged(s, e, Connected).policy;
      q == s.policy.(reports := s.policy.reports + 1, resets := {s.policy.reports})
  {
  }

  lemma UnsafeAhead(role: Role, forced: bool, now: int, base: seq<Event>, ev: NetEvent)
    requires now > 0 && Exec(Init(role, forced, now), base + [Net(ev)]).Some?
    requires OrderlyRun(Init(role, forced, now), base) && Exec(Init(role, forced, now), base).Some?
    requires var s := Exec(Init(role, forced, now), base).value;
      LiveReport(s, Net(ev)) != [] && !Harmless(s, Net(ev))
    ensures !LawAhead(Init(role, forced, now), forced, base + [Net(ev)])
  {
    var s0 := Init(role, forced, now);
    var all := base + [Net(ev)];
    AheadIsClosed(s0, all);
    JustAfter(s0, base, ev);
    BrokenFrom(role, forced, now, base, ev, (s, r, p) => Ahead(s0, all, s, r, p));
    BrokenAhead(s0, forced, all);
  }

  /** The state after the report is ahead of the run that ends with it. */
  lemma JustAfter(s0: State, base: seq<Event>, ev: NetEvent)
    requires Started(s0) && Exec(s0, base).Some? && Exec(s0, base + [Net(ev)]).Some? && ev.StateChange?
    ensures var s := Exec(s0, base).value;
      && Step(s, Net(ev)) == Exec(s0, base + [Net(ev)])
      && Ahead(s0, base + [Net(ev)], Exec(s0, base + [Net(ev)]).value,
               Reports(s0, base) + LiveReport(s, Net(ev)), Passed(s0, base))
  {
    RunStep(s0, base, Net(ev));
    StartAhead(s0, base + [Net(ev)]);
    assert Passed(s0, base) + {} == Passed(s0, base);
  }

  lemma BrokenFrom(role: Role, forced: bool, now: int, base: seq<Event>, ev: NetEvent, go: Track)
    requires now > 0 && OrderlyRun(Init(role, forced, now), base) && Exec(Init(role, forced, now), base).Some?
    requires Closed(go)
    requires var s0 := Init(role, forced, now);
      var s := Exec(s0, base).value;
      && LiveReport(s, Net(ev)) != [] && !Harmless(s, Net(ev)) && Step(s, Net(ev)).Some?
      && go(Step(s, Net(ev)).value, Reports(s0, base) + LiveReport(s, Net(ev)), Passed(s0, base))
    ensures Broken(go, forced)
  {
    var s0 := Init(role, forced, now);
    TrackedRun(role, forced, now, base);
    OverlapBreaks(go, Exec(s0, base).value, ev, Marks(base), Reports(s0, base), Passed(s0, base));
  }

  /**
  The exact condition, after every orderly run: with the next live report, the law holds for all orderly continuations
  if and only if the report meets no callback of the opposite kind, or relay-only is set or about to be, or three
  failures are counted or let through, so that the one reset they meet cannot keep two of them apart.
  */
  lemma OverlapExactly(role: Role, forced: bool, now: int, base: seq<Event>, ev: NetEvent)
    requires now > 0 && Exec(Init(role, forced, now), base).Some? && OrderlyRun(Init(role, forced, now), base)
    requires Exec(Init(role, forced, now), base + [Net(ev)]).Some?
    requires LiveReport(Exec(Init(role, forced, now), base).value, Net(ev)) != []
    ensures LawAhead(Init(role, forced, now), forced, base + [Net(ev)])
      <==> Harmless(Exec(Init(role, forced, now), base).value, Net(ev))
  {
    ExecSnoc(Init(role, forced, now), base, Net(ev));
    if Harmless(Exec(Init(role, forced, now), base).value, Net(ev)) {
      SafeAhead(role, forced, now, base, ev);
    } else {
      UnsafeAhead(role, forced, now, base, ev);
    }
  }

  // ------------------------------------------------------------------------------------------------------------
  // Such an overlap happens
  // ------------------------------------------------------------------------------------------------------------

  /** The first epoch is started. */
  lemma FirstEpoch(go: Track, s: State) returns (t: State)
    requires Closed(go) && Poised(go, s, [], {}) && s.loop.Idle? && s.token && s.links.epoch == 0 && PcInv(s.links)
    ensures Poised(go, t, [], {}) && t.policy == s.policy && t.links.epoch == 1
    ensures MayReport(t.links, 1, Failed) && PcInv(t.links)
  {
    var taken := s.(token := false, loop := Building);
    Silent(go, s, [], {}, Loop(Take), taken);
    t := Step(taken, Loop(Build(true))).value;
    Silent(go, taken, [], {}, Loop(Build(true)), t);
    NextEpochPc(TearDown(s.links));
  }

  /** The first PeerConnection fails and is counted; the second connects, and its reset is parked. */
  lemma HitThenClear(go: Track, s: State) returns (t: State, p: set<nat>)
    requires Closed(go) && Poised(go, s, [], {}) && s.links.epoch == 1 && MayReport(s.links, 1, Failed)
    requires PcInv(s.links) && s.policy == Policy(false, 0, s.policy.lastRace, 0, {}, {}, {}, {})
    ensures go(t, [Failed, Connected], p) && t.links.epoch == 2 && MayReport(t.links, 2, Failed) && !t.links.panicked
    ensures t.policy.resets == {1} && t.policy.latches == t.policy.counts == {} && !t.policy.relayOnly
    ensures t.policy.fails == 1
  {
    var u, q := FailAgain(go, s, [], {});
    assert [] + [Failed] == [Failed] && PcInv(u.links);
    var f := FreshPc(go, u, [Failed], q);
    var ev := Net(StateChange(2, Connected));
    t, p := StateChanged(f, 2, Connected), q;
    assert [Failed] + [Connected] == [Failed, Connected] && q + {} == q;
    Follow(go, f, [Failed], q, ev, t);
  }

  lemma BaseOf(s0: State, s: State, r: seq<PcState>, p: set<nat>) returns (evs: seq<Event>)
    requires Ahead(s0, [], s, r, p)
    ensures Exec(s0, evs) == Some(s) && OrderlyRun(s0, evs) && Reports(s0, evs) == r
  {
    evs :| Along(s0, [], evs, s, r, p);
    forall i | 0 <= i < |evs|
      ensures OrderlyAt(s0, evs, i)
    {
    }
  }

  lemma HitThenClearRun(role: Role, now: int) returns (evs: seq<Event>, t: State)
    requires now > 0
    ensures var s := Init(role, false, now);
      Exec(s, evs) == Some(t) && OrderlyRun(s, evs) && Reports(s, evs) == [Failed, Connected]
    ensures t.links.epoch == 2 && MayReport(t.links, 2, Failed) && !t.links.panicked
    ensures t.policy.resets == {1} && t.policy.fails == 1 && t.policy.counts == {} && !Escalated(t.policy)
  {
    var s0 := Init(role, false, now);
    AheadIsClosed(s0, []);
    StartAhead(s0, []);
    var go: Track := (s, r, p) => Ahead(s0, [], s, r, p);
    var a := FirstEpoch(go, s0);
    var p: set<nat>;
    t, p := HitThenClear(go, a);
    evs := BaseOf(s0, t, [Failed, Connected], p);
  }

  lemma BreakingRun(s: State, forced: bool, base: seq<Event>) returns (evs: seq<Event>)
    requires !LawAhead(s, forced, base)
    ensures base <= evs && OrderlyFrom(s, evs, |base|) && Exec(s, evs).Some? && Arrived(Exec(s, evs).value.policy)
    ensures !Law(forced, Exec(s, evs).value.policy, Observed(s, evs))
  {
    evs :| base <= evs && OrderlyFrom(s, evs, |base|) && Exec(s, evs).Some? && Arrived(Exec(s, evs).value.policy)
      && !Law(forced, Exec(s, evs).value.policy, Observed(s, evs));
  }

  /**
  The first PeerConnection fails, the second connects and then fails before the callback of its success has run: a run
  from the start whose outcome is not the one reported.
  */
  lemma ReorderedRun(role: Role, now: int) returns (evs: seq<Event>)
    requires now > 0
    ensures var s := Init(role, false, now);
      && Exec(s, evs).Some? && Arrived(Exec(s, evs).value.policy)
      && [Failed, Connected, Failed] <= Reports(s, evs)
      && !Law(false, Exec(s, evs).value.policy, Observed(s, evs))
  {
    var s0 := Init(role, false, now);
    var base, t := HitThenClearRun(role, now);
    var ev := StateChange(2, Failed);
    var all := base + [Net(ev)];
    ExecSnoc(s0, base, Net(ev));
    UnsafeAhead(role, false, now, base, ev);
    evs := BreakingRun(s0, false, all);
    RunStep(s0, base, Net(ev));
    assert evs[..|all|] == all && [Failed, Connected] + [Failed] == [Failed, Connected, Failed];
    ReportsGrow(s0, evs, |all|);
  }
}
