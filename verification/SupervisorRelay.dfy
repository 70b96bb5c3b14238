/** When a session falls back to relay-only transport, as a property of its history. */
module SupervisorRelay {
  import opened Wrappers
  import opened Supervisor
  import opened SupervisorSafety

  /** What the failure counter sees: a counted failure, or a working connection. */
  datatype Mark = Hit | Clear

  function Marks(evs: seq<Event>): seq<Mark> {
    if evs == [] then []
    else
      var n := |evs| - 1;
      Marks(evs[..n]) + MarkOf(evs[n])
  }

  /** Two counted failures with no working connection between them. */
  ghost predicate TwoInARow(m: seq<Mark>) {
    exists i: nat, j: nat :: PairAt(m, i, j)
  }

  /** The run of hits at the end. */
  function Streak(m: seq<Mark>): nat {
    if m == [] || m[|m| - 1] == Clear then 0 else 1 + Streak(m[..|m| - 1])
  }

  ghost predicate PairAt(m: seq<Mark>, i: nat, j: nat) {
    i < j < |m| && m[i] == Hit && m[j] == Hit && Clear !in m[i..j]
  }

  /** A pair further back is not disturbed by one more mark, and a pair that is not further back ends with it. */
  lemma PairsOfSnoc(m: seq<Mark>, x: Mark, i: nat, j: nat)
    ensures j < |m| ==> (PairAt(m + [x], i, j) <==> PairAt(m, i, j))
    ensures PairAt(m + [x], i, j) ==> j < |m| || (j == |m| && x == Hit)
  {
    if i < j < |m| { assert (m + [x])[i..j] == m[i..j]; }
  }

  lemma TwoKept(m: seq<Mark>, x: Mark)
    requires TwoInARow(m)
    ensures TwoInARow(m + [x])
  {
    var i: nat, j: nat :| PairAt(m, i, j);
    PairsOfSnoc(m, x, i, j);
    assert PairAt(m + [x], i, j);
  }

  lemma StreakCompletes(m: seq<Mark>)
    requires Streak(m) >= 1
    ensures TwoInARow(m + [Hit])
  {
    var n := |m|;
    assert (m + [Hit])[n - 1..n] == [Hit];
    assert PairAt(m + [Hit], n - 1, n);
  }

  lemma LastPairNeedsStreak(m: seq<Mark>, i: nat)
    requires PairAt(m + [Hit], i, |m|)
    ensures Streak(m) >= 1
  {
    var h, n := m + [Hit], |m|;
    assert h[n - 1] in h[i..n];
  }

  /** One more hit makes two in a row exactly when the streak was already running, or they were there before. */
  lemma HitCompletes(m: seq<Mark>)
    ensures TwoInARow(m + [Hit]) <==> TwoInARow(m) || Streak(m) >= 1
  {
    if TwoInARow(m) { TwoKept(m, Hit); }
    if Streak(m) >= 1 { StreakCompletes(m); }
    if TwoInARow(m + [Hit]) {
      var i: nat, j: nat :| PairAt(m + [Hit], i, j);
      PairsOfSnoc(m, Hit, i, j);
      if j == |m| { LastPairNeedsStreak(m, i); }
    }
  }

  lemma ClearAdds(m: seq<Mark>)
    ensures TwoInARow(m + [Clear]) <==> TwoInARow(m)
  {
    if TwoInARow(m) { TwoKept(m, Clear); }
    if TwoInARow(m + [Clear]) {
      var i: nat, j: nat :| PairAt(m + [Clear], i, j);
      PairsOfSnoc(m, Clear, i, j);
      assert PairAt(m, i, j);
    }
  }

  lemma StreakSnoc(m: seq<Mark>, x: Mark)
    ensures Streak(m + [x]) == if x == Hit then Streak(m) + 1 else 0
  {
    assert (m + [x])[..|m|] == m;
  }

  /** A streak of two is two in a row. */
  lemma LongStreak(m: seq<Mark>)
    requires Streak(m) >= 2
    ensures TwoInARow(m)
  {
    var n := |m| - 1;
    assert m == m[..n] + [Hit];
    StreakCompletes(m[..n]);
  }

  function MarkOf(ev: Event): seq<Mark> {
    match ev
    case Net(Count(_)) => [Hit]
    case Net(Reset(_)) => [Clear]
    case _ => []
  }

  predicate Escalated(p: Policy) {
    p.relayOnly || p.latches != {}
  }

  lemma PolicyNet(s: State, ev: NetEvent)
    requires NetStep(s, ev).Some?
    ensures var p, q, m := s.policy, NetStep(s, ev).value.policy, MarkOf(Net(ev));
      && q.fails == (if m == [Hit] then p.fails + 1 else if m == [Clear] then 0 else p.fails)
      && (Escalated(q) <==> Escalated(p) || (m == [Hit] && p.fails >= 1))
      && (p.relayOnly ==> q.relayOnly)
  {
    match ev
    case Count(c) => if s.policy.fails >= 1 { assert c in NetStep(s, ev).value.policy.latches; }
    case _ =>
  }

  lemma PolicyStep(s: State, ev: Event)
    requires Step(s, ev).Some?
    ensures var p, q, m := s.policy, Step(s, ev).value.policy, MarkOf(ev);
      && q.fails == (if m == [Hit] then p.fails + 1 else if m == [Clear] then 0 else p.fails)
      && (Escalated(q) <==> Escalated(p) || (m == [Hit] && p.fails >= 1))
      && (p.relayOnly ==> q.relayOnly)
  {
    match ev
    case Net(ne) => PolicyNet(s, ne);
    case _ =>
  }

  lemma OneMore(m: seq<Mark>, x: seq<Mark>)
    requires x == [] || x == [Hit] || x == [Clear]
    ensures Streak(m + x) == (if x == [Hit] then Streak(m) + 1 else if x == [Clear] then 0 else Streak(m))
    ensures TwoInARow(m + x) <==> TwoInARow(m) || (x == [Hit] && Streak(m) >= 1)
  {
    if x == [] {
      assert m + x == m;
    } else {
      StreakSnoc(m, x[0]);
      if x == [Hit] { HitCompletes(m); } else { ClearAdds(m); }
    }
  }

  lemma MarksLast(evs: seq<Event>)
    requires evs != []
    ensures Marks(evs) == Marks(evs[..|evs| - 1]) + MarkOf(evs[|evs| - 1])
  {
  }

  /**
  The relay policy is a function of the marks: relay-only is set, or its setting is parked, exactly when it was forced
  at the start or the history has two counted failures in a row.  Once nothing is parked, it is set exactly then.
  */
  lemma {:induction false} RelayRefinesHistory(role: Role, forced: bool, now: int, evs: seq<Event>)
    requires Exec(Init(role, forced, now), evs).Some?
    ensures var p := Exec(Init(role, forced, now), evs).value.policy;
      && p.fails == Streak(Marks(evs))
      && (Escalated(p) <==> forced || TwoInARow(Marks(evs)))
  {
    if evs != [] {
      var n := |evs| - 1;
      ExecLast(Init(role, forced, now), evs);
      RelayRefinesHistory(role, forced, now, evs[..n]);
      PolicyStep(Exec(Init(role, forced, now), evs[..n]).value, evs[n]);
      MarksLast(evs);
      OneMore(Marks(evs[..n]), MarkOf(evs[n]));
    }
  }

  /** Relay-only is never taken back. */
  lemma {:induction false} RelaySticks(s: State, evs: seq<Event>)
    requires Exec(s, evs).Some? && s.policy.relayOnly
    ensures Exec(s, evs).value.policy.relayOnly
  {
    if evs != [] {
      var n := |evs| - 1;
      ExecLast(s, evs);
      RelaySticks(s, evs[..n]);
      PolicyStep(Exec(s, evs[..n]).value, evs[n]);
    }
  }

  /** The clock reading at which the k-th event of a run happened. */
  function TimeOf(s: State, evs: seq<Event>, k: nat): int
    requires k < |evs|
  {
    match Exec(s, evs[..k]) case None => 0 case Some(t) => t.clock
  }

  /** Some stale envelope was refused less than the window before the present. */
  ghost predicate RacedRecently(s: State, evs: seq<Event>, now: int) {
    exists k :: 0 <= k < |evs| && evs[k] == Net(Race) && now - TimeOf(s, evs, k) < 30_000
  }

  lemma ClockStep(s: State, ev: Event)
    requires Step(s, ev).Some?
    ensures var t := Step(s, ev).value;
      s.clock <= t.clock && t.policy.lastRace == if ev == Net(Race) then s.clock else s.policy.lastRace
  {
  }

  lemma TimesLast(s: State, evs: seq<Event>)
    requires evs != []
    ensures var n := |evs| - 1;
      forall k | 0 <= k < n :: TimeOf(s, evs, k) == TimeOf(s, evs[..n], k) && evs[..n][k] == evs[k]
  {
    var n := |evs| - 1;
    forall k | 0 <= k < n
      ensures TimeOf(s, evs, k) == TimeOf(s, evs[..n], k)
    {
      assert evs[..n][..k] == evs[..k];
    }
  }

  /** The recorded instant is that of the last race, and no race is later than the clock. */
  lemma {:induction false} LastRaceIsLatest(s: State, evs: seq<Event>)
    requires s.clock > 0 && s.policy.lastRace == 0 && Exec(s, evs).Some?
    ensures var t := Exec(s, evs).value;
      && t.clock >= s.clock
      && (forall k | 0 <= k < |evs| && evs[k] == Net(Race) :: 0 < TimeOf(s, evs, k) <= t.policy.lastRace)
      && (t.policy.lastRace != 0 ==>
           exists k :: 0 <= k < |evs| && evs[k] == Net(Race) && TimeOf(s, evs, k) == t.policy.lastRace)
      && t.policy.lastRace <= t.clock
  {
    if evs != [] {
      var n := |evs| - 1;
      ExecLast(s, evs);
      LastRaceIsLatest(s, evs[..n]);
      var u := Exec(s, evs[..n]).value;
      ClockStep(u, evs[n]);
      TimesLast(s, evs);
      assert TimeOf(s, evs, n) == u.clock;
    }
  }

  /** The test the classifier makes is a test of the history. */
  lemma RaceRecentIsHistory(s: State, evs: seq<Event>)
    requires s.clock > 0 && s.policy.lastRace == 0 && Exec(s, evs).Some?
    ensures var t := Exec(s, evs).value; RaceRecent(t) <==> RacedRecently(s, evs, t.clock)
  {
    LastRaceIsLatest(s, evs);
    var t := Exec(s, evs).value;
    if t.policy.lastRace != 0 {
      var k :| 0 <= k < |evs| && evs[k] == Net(Race) && TimeOf(s, evs, k) == t.policy.lastRace;
    }
  }

  /** The classifier lets a failure through to the counter exactly when no race happened within the window before. */
  lemma ClassifierRefinesHistory(role: Role, forced: bool, now: int, evs: seq<Event>, c: nat)
    requires now > 0 && Exec(Init(role, forced, now), evs).Some?
    requires c in Exec(Init(role, forced, now), evs).value.policy.classifies
    ensures var s := Exec(Init(role, forced, now), evs).value;
      c in Classified(s, c).policy.counts || RacedRecently(Init(role, forced, now), evs, s.clock)
    ensures var s := Exec(Init(role, forced, now), evs).value;
      c in Classified(s, c).policy.counts ==> !RacedRecently(Init(role, forced, now), evs, s.clock)
  {
    var s0 := Init(role, forced, now);
    RaceRecentIsHistory(s0, evs);
    NamedRun(s0, evs);
  }
}
