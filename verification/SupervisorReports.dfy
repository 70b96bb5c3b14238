/**
The relay policy against what can be observed: live reports of Connected and Failed, refused envelopes and the clock.
The counter sees the reports in the order in which their callbacks reach it, which need not be the order in which they
came; which overlaps of callbacks matter, and which do not, is decided here.
*/
module SupervisorReports {
  import opened Wrappers
  import opened Supervisor
  import opened SupervisorSafety
  import opened SupervisorRelay

  /** The report an event brings, if it is live and speaks of success or failure. */
  function LiveReport(s: State, ev: Event): seq<PcState> {
    match ev
    case Net(StateChange(e, st)) => if e == s.links.epoch && (st.Connected? || st.Failed?) then [st] else []
    case _ => []
  }

  /** All live reports of a run; a report's place here is its name. */
  function Reports(s: State, evs: seq<Event>): seq<PcState> {
    if evs == [] then []
    else
      var n := |evs| - 1;
      Reports(s, evs[..n]) + match Exec(s, evs[..n]) case None => [] case Some(t) => LiveReport(t, evs[n])
  }

  /** The failures whose callbacks, when they looked at the clock, saw no refused envelope in the window before. */
  ghost function Passed(s: State, evs: seq<Event>): set<nat> {
    if evs == [] then {}
    else
      var n := |evs| - 1;
      Passed(s, evs[..n]) + NewlyPassed(s, evs[..n], evs[n])
  }

  ghost function NewlyPassed(s: State, before: seq<Event>, ev: Event): set<nat> {
    match ev
    case Net(Classify(c)) =>
      if Exec(s, before).Some? && !RacedRecently(s, before, Exec(s, before).value.clock) then {c} else {}
    case _ => {}
  }

  /** What the reports say, in the order in which they came: failures that passed, and working connections. */
  function Said(reports: seq<PcState>, passed: set<nat>): seq<Mark> {
    if reports == [] then []
    else
      var n := |reports| - 1;
      Said(reports[..n], passed) + if reports[n].Connected? then [Clear] else if n in passed then [Hit] else []
  }

  ghost function Observed(s: State, evs: seq<Event>): seq<Mark> {
    Said(Reports(s, evs), Passed(s, evs))
  }

  lemma SaidSnoc(reports: seq<PcState>, passed: set<nat>, st: PcState)
    ensures Said(reports + [st], passed)
      == Said(reports, passed) + if st.Connected? then [Clear] else if |reports| in passed then [Hit] else []
  {
    assert (reports + [st])[..|reports|] == reports;
  }

  lemma {:induction false} SaidIgnores(reports: seq<PcState>, passed: set<nat>, c: nat)
    requires c >= |reports|
    ensures Said(reports, passed + {c}) == Said(reports, passed)
  {
    if reports != [] { SaidIgnores(reports[..|reports| - 1], passed, c); }
  }

  lemma Swap(m: seq<Mark>, x: seq<Mark>)
    requires x == [] || x == [Hit]
    ensures (m + [Hit]) + x == (m + x) + [Hit]
  {
  }

  /** With only failures after it, a failure that passes late is one more hit at the end. */
  lemma {:induction false} SaidLate(reports: seq<PcState>, passed: set<nat>, c: nat)
    requires c < |reports| && c !in passed && forall j | c <= j < |reports| :: reports[j].Failed?
    ensures Said(reports, passed + {c}) == Said(reports, passed) + [Hit]
  {
    var n := |reports| - 1;
    if c == n {
      SaidIgnores(reports[..n], passed, c);
      assert Said(reports, passed) == Said(reports[..n], passed);
    } else {
      SaidLate(reports[..n], passed, c);
      Swap(Said(reports[..n], passed), if n in passed then [Hit] else []);
    }
  }

  // ------------------------------------------------------------------------------------------------------------
  // Every counted failure has its own report
  // ------------------------------------------------------------------------------------------------------------

  /** Parked callbacks are of the right kind of report, and exactly the failures that passed go on to the counter. */
  ghost predicate Matched(p: Policy, reports: seq<PcState>, passed: set<nat>) {
    && Named(p) && p.reports == |reports|
    && (forall c | c in p.resets :: reports[c].Connected?)
    && (forall c | c in p.classifies :: reports[c].Failed? && c !in passed)
    && (forall c | c in p.counts :: reports[c].Failed? && c in passed)
    && (forall c | c in passed :: c < |reports| && reports[c].Failed?)
  }

  lemma MatchedReport(s: State, e: nat, st: PcState, reports: seq<PcState>, passed: set<nat>)
    requires Matched(s.policy, reports, passed)
    ensures Matched(StateChanged(s, e, st).policy, reports + LiveReport(s, Net(StateChange(e, st))), passed)
  {
  }

  lemma MatchedClassify(s: State, c: nat, reports: seq<PcState>, passed: set<nat>)
    requires Matched(s.policy, reports, passed) && c in s.policy.classifies
    ensures Matched(Classified(s, c).policy, reports, if RaceRecent(s) then passed else passed + {c})
  {
  }

  lemma MatchedOther(s: State, ev: NetEvent, reports: seq<PcState>, passed: set<nat>)
    requires Matched(s.policy, reports, passed) && NetStep(s, ev).Some? && !ev.StateChange? && !ev.Classify?
    ensures Matched(NetStep(s, ev).value.policy, reports, passed)
  {
    NamedNet(s, ev);
  }

  ghost predicate Started(s: State) {
    s.clock > 0 && s.policy.lastRace == 0 && Matched(s.policy, [], {})
  }

  lemma RunStep(s: State, evs: seq<Event>, ev: Event)
    requires Started(s) && Exec(s, evs + [ev]).Some?
    ensures Exec(s, evs).Some? && Step(Exec(s, evs).value, ev) == Exec(s, evs + [ev])
    ensures Reports(s, evs + [ev]) == Reports(s, evs) + LiveReport(Exec(s, evs).value, ev)
    ensures Passed(s, evs + [ev]) == Passed(s, evs) + NewlyPassed(s, evs, ev)
    ensures ev.Net? && ev.net.Classify? ==>
      NewlyPassed(s, evs, ev) == if RaceRecent(Exec(s, evs).value) then {} else {ev.net.report}
  {
    assert (evs + [ev])[..|evs|] == evs;
    ExecLast(s, evs + [ev]);
    RaceRecentIsHistory(s, evs);
  }

  lemma MatchedStep(s: State, ev: Event, reports: seq<PcState>, passed: set<nat>, more: set<nat>)
    requires Matched(s.policy, reports, passed) && Step(s, ev).Some?
    requires more == match ev case Net(Classify(c)) => if RaceRecent(s) then {} else {c} case _ => {}
    ensures Matched(Step(s, ev).value.policy, reports + LiveReport(s, ev), passed + more)
  {
    assert reports + [] == reports && passed + {} == passed;
    match ev
    case Net(StateChange(e, st)) => MatchedReport(s, e, st, reports, passed);
    case Net(Classify(c)) => MatchedClassify(s, c, reports, passed);
    case Net(ne) => MatchedOther(s, ne, reports, passed);
    case _ =>
  }

  lemma {:induction false} MatchedRun(s: State, evs: seq<Event>)
    requires Started(s) && Exec(s, evs).Some?
    ensures Matched(Exec(s, evs).value.policy, Reports(s, evs), Passed(s, evs))
  {
    if evs != [] {
      var n := |evs| - 1;
      assert evs == evs[..n] + [evs[n]];
      RunStep(s, evs[..n], evs[n]);
      MatchedRun(s, evs[..n]);
      MatchedStep(Exec(s, evs[..n]).value, evs[n], Reports(s, evs[..n]), Passed(s, evs[..n]),
                  NewlyPassed(s, evs[..n], evs[n]));
    }
  }

  /** The event that made report c. */
  ghost predicate MadeAt(s: State, evs: seq<Event>, i: nat, c: nat, st: PcState) {
    && i < |evs| && Exec(s, evs[..i]).Some?
    && |Reports(s, evs[..i])| == c && LiveReport(Exec(s, evs[..i]).value, evs[i]) == [st]
  }

  lemma {:induction false} ReportMade(s: State, evs: seq<Event>, c: nat) returns (i: nat)
    requires Exec(s, evs).Some? && c < |Reports(s, evs)|
    ensures MadeAt(s, evs, i, c, Reports(s, evs)[c])
  {
    var n := |evs| - 1;
    ExecLast(s, evs);
    if c < |Reports(s, evs[..n])| {
      i := ReportMade(s, evs[..n], c);
      assert evs[..n][..i] == evs[..i];
    } else {
      i := n;
    }
  }

  /** The event at which failure c was let through. */
  ghost predicate PassedAt(s: State, evs: seq<Event>, j: nat, c: nat) {
    && j < |evs| && evs[j] == Net(Classify(c)) && Exec(s, evs[..j]).Some?
    && !RacedRecently(s, evs[..j], Exec(s, evs[..j]).value.clock)
  }

  lemma {:induction false} PassMade(s: State, evs: seq<Event>, c: nat) returns (j: nat)
    requires c in Passed(s, evs)
    ensures PassedAt(s, evs, j, c)
  {
    var n := |evs| - 1;
    if c in Passed(s, evs[..n]) {
      j := PassMade(s, evs[..n], c);
      assert evs[..n][..j] == evs[..j];
    } else {
      j := n;
    }
  }

  /**
  Every increment of the counter belongs to one report: a Failed that was live when it was made, and whose own callback
  has since looked at the clock and found no refused envelope in the 30 s before.
  */
  lemma CountHasItsReport(role: Role, forced: bool, now: int, evs: seq<Event>, k: nat, c: nat) returns (i: nat, j: nat)
    requires now > 0 && Exec(Init(role, forced, now), evs).Some? && k < |evs| && evs[k] == Net(Count(c))
    ensures i < j < k
    ensures MadeAt(Init(role, forced, now), evs, i, c, Failed) && PassedAt(Init(role, forced, now), evs, j, c)
  {
    var s := Init(role, forced, now);
    CountPassed(s, evs, k, c);
    i, j := PassedHasReport(s, evs[..k], c);
    MadeLater(s, evs, k, i, c, Failed);
    PassedLater(s, evs, k, j, c);
  }

  lemma MadeLater(s: State, evs: seq<Event>, k: nat, i: nat, c: nat, st: PcState)
    requires k <= |evs| && MadeAt(s, evs[..k], i, c, st)
    ensures MadeAt(s, evs, i, c, st)
  {
    assert evs[..k][..i] == evs[..i];
  }

  lemma PassedLater(s: State, evs: seq<Event>, k: nat, j: nat, c: nat)
    requires k <= |evs| && PassedAt(s, evs[..k], j, c)
    ensures PassedAt(s, evs, j, c)
  {
    assert evs[..k][..j] == evs[..j];
  }

  lemma CountPassed(s: State, evs: seq<Event>, k: nat, c: nat)
    requires Started(s) && Exec(s, evs).Some? && k < |evs| && evs[k] == Net(Count(c))
    ensures Exec(s, evs[..k]).Some? && c in Passed(s, evs[..k])
  {
    var t, u := Moment(s, evs, k);
    MatchedRun(s, evs[..k]);
    CountNeedsPass(t, c);
  }

  lemma CountNeedsPass(t: State, c: nat)
    requires Step(t, Net(Count(c))).Some?
    ensures c in t.policy.counts
  {
  }

  lemma PassedHasReport(s: State, evs: seq<Event>, c: nat) returns (i: nat, j: nat)
    requires Started(s) && Exec(s, evs).Some? && c in Passed(s, evs)
    ensures i < j < |evs| && MadeAt(s, evs, i, c, Failed) && PassedAt(s, evs, j, c)
  {
    MatchedRun(s, evs);
    j := PassMade(s, evs, c);
    PassedNeedsReport(s, evs, j, c);
    i := ReportMade(s, evs[..j], c);
    ReportsGrow(s, evs, j);
    MadeLater(s, evs, j, i, c, Failed);
  }

  /** A report whose callback is past the counter. */
  predicate Done(p: Policy, c: nat) {
    c < p.reports && c !in p.classifies && c !in p.counts
  }

  lemma DoneStep(s: State, ev: Event, c: nat)
    requires Step(s, ev).Some? && Done(s.policy, c)
    ensures Done(Step(s, ev).value.policy, c)
  {
  }

  lemma {:induction false} DoneRun(s: State, evs: seq<Event>, c: nat)
    requires Exec(s, evs).Some? && Done(s.policy, c)
    ensures Done(Exec(s, evs).value.policy, c)
  {
    if evs != [] {
      ExecLast(s, evs);
      DoneRun(s, evs[..|evs| - 1], c);
      DoneStep(Exec(s, evs[..|evs| - 1]).value, evs[|evs| - 1], c);
    }
  }

  lemma DoneAfterCount(s: State, evs: seq<Event>, k: nat, l: nat, c: nat)
    requires Started(s) && Exec(s, evs).Some? && k < l < |evs| && evs[k] == Net(Count(c))
    ensures Exec(s, evs[..l]).Some? && Done(Exec(s, evs[..l]).value.policy, c)
  {
    JustDone(s, evs, k, c);
    ExecBetween(s, evs, k + 1, l);
    DoneRun(Exec(s, evs[..k + 1]).value, evs[k + 1..l], c);
  }

  lemma JustDone(s: State, evs: seq<Event>, k: nat, c: nat)
    requires Started(s) && Exec(s, evs).Some? && k < |evs| && evs[k] == Net(Count(c))
    ensures Exec(s, evs[..k + 1]).Some? && Done(Exec(s, evs[..k + 1]).value.policy, c)
  {
    var t, u := Moment(s, evs, k);
    CountDone(t, c);
  }

  lemma CountDone(t: State, c: nat)
    requires Named(t.policy) && c in t.policy.counts
    ensures Done(Counted(t, c).policy, c)
  {
  }

  /** The states around the k-th event. */
  lemma Moment(s: State, evs: seq<Event>, k: nat) returns (t: State, u: State)
    requires Started(s) && Exec(s, evs).Some? && k < |evs|
    ensures Exec(s, evs[..k]) == Some(t) && Exec(s, evs[..k + 1]) == Some(u) && Step(t, evs[k]) == Some(u)
    ensures Named(t.policy)
  {
    ExecPrefix(s, evs, k);
    ExecPrefix(s, evs, k + 1);
    assert evs[..k + 1] == evs[..k] + [evs[k]];
    t, u := Exec(s, evs[..k]).value, Exec(s, evs[..k + 1]).value;
    ExecSnoc(s, evs[..k], evs[k]);
    NamedRun(s, evs[..k]);
  }

  /** And no report is counted twice. */
  lemma CountedOnce(role: Role, forced: bool, now: int, evs: seq<Event>, k: nat, l: nat, c: nat)
    requires now > 0 && Exec(Init(role, forced, now), evs).Some? && k < l < |evs| && evs[k] == Net(Count(c))
    ensures evs[l] != Net(Count(c))
  {
    var s := Init(role, forced, now);
    DoneAfterCount(s, evs, k, l, c);
    var t, u := Moment(s, evs, l);
    DoneIsNotCounted(t, c);
  }

  lemma DoneIsNotCounted(t: State, c: nat)
    requires Done(t.policy, c)
    ensures Step(t, Net(Count(c))).None?
  {
  }

  lemma PassedNeedsReport(s: State, evs: seq<Event>, j: nat, c: nat)
    requires Started(s) && Exec(s, evs).Some? && PassedAt(s, evs, j, c)
    ensures c < |Reports(s, evs[..j])|
  {
    var t, u := Moment(s, evs, j);
    MatchedRun(s, evs[..j]);
    ClassifyNeedsReport(t, c);
  }

  lemma ClassifyNeedsReport(t: State, c: nat)
    requires Step(t, Net(Classify(c))).Some? && Named(t.policy)
    ensures c < t.policy.reports
  {
  }

  lemma {:induction false} ReportsGrow(s: State, evs: seq<Event>, k: nat)
    requires k <= |evs|
    ensures Reports(s, evs[..k]) <= Reports(s, evs)
    decreases |evs|
  {
    if k == |evs| {
      assert evs[..k] == evs;
    } else {
      var n := |evs| - 1;
      var front := evs[..n];
      assert front[..k] == evs[..k];
      ReportsGrow(s, front, k);
      PrefixOfMore(Reports(s, evs[..k]), Reports(s, front),
                   match Exec(s, front) case None => [] case Some(t) => LiveReport(t, evs[n]));
    }
  }

  lemma PrefixOfMore(a: seq<PcState>, b: seq<PcState>, more: seq<PcState>)
    requires a <= b
    ensures a <= b + more
  {
  }

  // ------------------------------------------------------------------------------------------------------------
  // The law, for runs in which opposite callbacks do not overlap
  // ------------------------------------------------------------------------------------------------------------

  /** No live failure is reported while a success is on its way to the counter, and no success while a failure is. */
  predicate Orderly(s: State, ev: Event) {
    && (LiveReport(s, ev) == [Connected] ==> s.policy.classifies == {} && s.policy.counts == {})
    && (LiveReport(s, ev) == [Failed] ==> s.policy.resets == {})
  }

  ghost predicate OrderlyAt(s: State, evs: seq<Event>, i: nat)
    requires i < |evs|
  {
    Exec(s, evs[..i]).Some? ==> Orderly(Exec(s, evs[..i]).value, evs[i])
  }

  ghost predicate OrderlyRun(s: State, evs: seq<Event>) {
    forall i | 0 <= i < |evs| :: OrderlyAt(s, evs, i)
  }

  /** What the counter has been told and what the reports say differ only by the callbacks still parked. */
  ghost predicate Agree(p: Policy, told: seq<Mark>, said: seq<Mark>, reports: seq<PcState>) {
    if p.resets != {} then
      p.classifies == {} && p.counts == {} && Streak(said) == 0 && (TwoInARow(said) <==> TwoInARow(told))
    else
      && Streak(said) == Streak(told) + |p.counts|
      && (TwoInARow(said) <==> TwoInARow(told) || Streak(told) + |p.counts| >= 2)
      && (forall c | c in p.classifies || c in p.counts :: Trailing(reports, c))
  }

  ghost predicate Trailing(reports: seq<PcState>, c: nat) {
    c < |reports| && forall j | c <= j < |reports| :: reports[j].Failed?
  }

  lemma AgreeSuccess(p: Policy, told: seq<Mark>, said: seq<Mark>, reports: seq<PcState>)
    requires Agree(p, told, said, reports) && p.classifies == {} && p.counts == {}
    ensures Agree(p.(reports := p.reports + 1, resets := p.resets + {p.reports}), told, said + [Clear],
                  reports + [Connected])
  {
    StreakSnoc(said, Clear);
    ClearAdds(said);
    if Streak(told) >= 2 { LongStreak(told); }
    assert p.reports in p.resets + {p.reports};
  }

  lemma AgreeFailure(p: Policy, told: seq<Mark>, said: seq<Mark>, reports: seq<PcState>)
    requires Agree(p, told, said, reports) && p.resets == {} && p.reports == |reports|
    ensures Agree(p.(reports := p.reports + 1, classifies := p.classifies + {p.reports}), told, said,
                  reports + [Failed])
  {
    forall c | Trailing(reports, c)
      ensures Trailing(reports + [Failed], c)
    {
    }
  }

  lemma AgreeReport(s: State, ev: NetEvent, told: seq<Mark>, reports: seq<PcState>, passed: set<nat>)
    requires Matched(s.policy, reports, passed) && Agree(s.policy, told, Said(reports, passed), reports)
    requires ev.StateChange? && Orderly(s, Net(ev))
    ensures var r := reports + LiveReport(s, Net(ev));
      Agree(StateChanged(s, ev.epoch, ev.state).policy, told, Said(r, passed), r)
  {
    var live, said := LiveReport(s, Net(ev)), Said(reports, passed);
    if live == [] {
      assert reports + live == reports;
    } else {
      SaidSnoc(reports, passed, ev.state);
      if ev.state.Connected? {
        AgreeSuccess(s.policy, told, said, reports);
      } else {
        AgreeFailure(s.policy, told, said, reports);
        assert said + [] == said;
      }
    }
  }

  lemma AgreeReset(p: Policy, c: nat, told: seq<Mark>, said: seq<Mark>, reports: seq<PcState>)
    requires Agree(p, told, said, reports) && c in p.resets
    ensures Agree(p.(resets := p.resets - {c}, fails := 0), told + [Clear], said, reports)
  {
    StreakSnoc(told, Clear);
    ClearAdds(told);
  }

  lemma AgreeClassify(s: State, c: nat, told: seq<Mark>, reports: seq<PcState>, passed: set<nat>)
    requires Matched(s.policy, reports, passed) && Agree(s.policy, told, Said(reports, passed), reports)
    requires c in s.policy.classifies
    ensures var more := if RaceRecent(s) then passed else passed + {c};
      Agree(Classified(s, c).policy, told, Said(reports, more), reports)
  {
    var p, said := s.policy, Said(reports, passed);
    assert p.resets == {} && Trailing(reports, c);
    if !RaceRecent(s) {
      SaidLate(reports, passed, c);
      StreakSnoc(said, Hit);
      HitCompletes(said);
      assert c !in p.counts && |p.counts + {c}| == |p.counts| + 1;
      if Streak(said) >= 2 { LongStreak(said); }
    }
  }

  lemma AgreeCount(s: State, c: nat, told: seq<Mark>, said: seq<Mark>, reports: seq<PcState>)
    requires Agree(s.policy, told, said, reports) && c in s.policy.counts
    ensures Agree(Counted(s, c).policy, told + [Hit], said, reports)
  {
    var p, q := s.policy, Counted(s, c).policy;
    OneMore(told, [Hit]);
    assert q.counts == p.counts - {c} && |p.counts - {c}| == |p.counts| - 1;
    assert q.resets == p.resets == {} && q.classifies == p.classifies;
    assert Streak(told) >= 1 ==> Streak(told) + |p.counts| >= 2;
    if Streak(told) + 1 >= 2 { assert TwoInARow(told + [Hit]); }
    if TwoInARow(told + [Hit]) && !TwoInARow(told) { assert Streak(told) >= 1; }
  }

  /** A step that reports nothing, lets nothing through and tells the counter nothing. */
  lemma AgreeOther(s: State, ev: Event, told: seq<Mark>, said: seq<Mark>, reports: seq<PcState>)
    requires Agree(s.policy, told, said, reports) && Step(s, ev).Some? && LiveReport(s, ev) == [] && MarkOf(ev) == []
    requires !(ev.Net? && ev.net.Classify?)
    ensures Agree(Step(s, ev).value.policy, told, said, reports)
  {
  }

  lemma AgreeTold(s: State, ev: NetEvent, told: seq<Mark>, said: seq<Mark>, reports: seq<PcState>)
    requires Agree(s.policy, told, said, reports) && NetStep(s, ev).Some? && (ev.Reset? || ev.Count?)
    ensures Agree(NetStep(s, ev).value.policy, told + MarkOf(Net(ev)), said, reports)
  {
    match ev
    case Reset(c) => AgreeReset(s.policy, c, told, said, reports);
    case Count(c) => AgreeCount(s, c, told, said, reports);
  }

  lemma AgreeStep(s: State, ev: Event, told: seq<Mark>, reports: seq<PcState>, passed: set<nat>, more: set<nat>)
    requires Matched(s.policy, reports, passed) && Agree(s.policy, told, Said(reports, passed), reports)
    requires Step(s, ev).Some? && Orderly(s, ev)
    requires more == match ev case Net(Classify(c)) => if RaceRecent(s) then {} else {c} case _ => {}
    ensures var r := reports + LiveReport(s, ev);
      Agree(Step(s, ev).value.policy, told + MarkOf(ev), Said(r, passed + more), r)
  {
    if ev.Net? && ev.net.Classify? {
      AgreeClassify(s, ev.net.report, told, reports, passed);
      Same(told, reports, passed);
    } else if ev.Net? && ev.net.StateChange? {
      AgreeReport(s, ev.net, told, reports, passed);
      Same(told, reports, passed);
    } else if ev.Net? && (ev.net.Reset? || ev.net.Count?) {
      AgreeTold(s, ev.net, told, Said(reports, passed), reports);
      Same(told, reports, passed);
    } else {
      AgreeOther(s, ev, told, Said(reports, passed), reports);
      Same(told, reports, passed);
    }
  }

  lemma Same(told: seq<Mark>, reports: seq<PcState>, passed: set<nat>)
    ensures told + [] == told && reports + [] == reports && passed + {} == passed
  {
  }

  lemma AgreeStart(s: State)
    requires Started(s) && s.policy.resets == s.policy.counts == s.policy.classifies == {}
    ensures Agree(s.policy, Marks([]), Observed(s, []), Reports(s, []))
  {
  }

  lemma {:induction false} AgreeRun(s: State, evs: seq<Event>)
    requires Started(s) && Exec(s, evs).Some? && OrderlyRun(s, evs)
    requires s.policy.resets == s.policy.counts == s.policy.classifies == {}
    ensures Agree(Exec(s, evs).value.policy, Marks(evs), Observed(s, evs), Reports(s, evs))
  {
    if evs == [] {
      AgreeStart(s);
    } else {
      var front, ev := evs[..|evs| - 1], evs[|evs| - 1];
      assert evs == front + [ev];
      OrderlyPrefix(s, evs);
      ExecLast(s, evs);
      AgreeRun(s, front);
      assert OrderlyAt(s, evs, |front|);
      AgreeSnoc(s, front, ev);
    }
  }

  lemma AgreeSnoc(s: State, front: seq<Event>, ev: Event)
    requires Started(s) && Exec(s, front).Some? && Exec(s, front + [ev]).Some? && Orderly(Exec(s, front).value, ev)
    requires Agree(Exec(s, front).value.policy, Marks(front), Observed(s, front), Reports(s, front))
    ensures var evs := front + [ev];
      Agree(Exec(s, evs).value.policy, Marks(evs), Observed(s, evs), Reports(s, evs))
  {
    RunStep(s, front, ev);
    MatchedRun(s, front);
    AgreeStep(Exec(s, front).value, ev, Marks(front), Reports(s, front), Passed(s, front), NewlyPassed(s, front, ev));
    MarksLast(front + [ev]);
    assert (front + [ev])[..|front|] == front;
  }

  lemma OrderlyPrefix(s: State, evs: seq<Event>)
    requires evs != [] && OrderlyRun(s, evs)
    ensures OrderlyRun(s, evs[..|evs| - 1])
  {
    var n := |evs| - 1;
    forall i | 0 <= i < n
      ensures OrderlyAt(s, evs[..n], i)
    {
      assert evs[..n][..i] == evs[..i];
      assert OrderlyAt(s, evs, i);
    }
  }

  /** Relay-only is set exactly if it was forced or two failures in a row were reported. */
  ghost predicate Law(forced: bool, p: Policy, said: seq<Mark>) {
    p.relayOnly <==> forced || TwoInARow(said)
  }

  /** Nothing that was let through is still on its way to the counter or to the switch. */
  predicate Arrived(p: Policy) {
    p.counts == {} && p.latches == {}
  }

  /**
  In every run in which opposite callbacks do not overlap, once the failures let through have arrived: relay-only is set
  exactly when it was forced or two live failures, neither preceded by a refused envelope within the window, were
  reported with no live success between them.
  */
  lemma ReportsDecideRelay(role: Role, forced: bool, now: int, evs: seq<Event>)
    requires now > 0 && Exec(Init(role, forced, now), evs).Some? && OrderlyRun(Init(role, forced, now), evs)
    requires Arrived(Exec(Init(role, forced, now), evs).value.policy)
    ensures Law(forced, Exec(Init(role, forced, now), evs).value.policy, Observed(Init(role, forced, now), evs))
  {
    var s := Init(role, forced, now);
    RelayRefinesHistory(role, forced, now, evs);
    AgreeRun(s, evs);
    if Streak(Marks(evs)) >= 2 { LongStreak(Marks(evs)); }
  }
}
