/**
The signalling client with any number of Sends and one Recv in flight.  The write lock covers a whole Send and the
redial of a Recv; Recv reads the connection field without it.
*/
module ClientRuns {
  import opened Wrappers
  import opened Client

  /** Who holds the write lock, and how far it has come. */
  datatype Holder = First(tag: nat) | Redial(tag: nat) | Second(tag: nat) | RecvRedial

  /** Between two reads, blocked in one on a connection, waiting for the lock, or returned for good. */
  datatype Reader = Ready | Reading(conn: nat) | Waiting | Stopped

  datatype State = State(conn: Option<nat>, dialled: nat, closed: bool, gaveUp: bool, lock: Option<Holder>,
                         trying: bool, reader: Reader, log: seq<Written>, entered: set<nat>,
                         results: map<nat, bool>, panicked: bool)

  datatype Event =
    | Send(tag: nat)
    | Write(result: WriteResult)
    | Try
    | Dial(attempt: Attempt)
    | GiveUp
    | Close
    | Read
    | Arrive
    | ReadFails(recoverable: bool)
    | Relock

  /** A client as Dial hands it out. */
  function Init(conn: nat, dialled: nat, log: seq<Written>): State {
    State(Some(conn), dialled, false, false, None, false, Ready, log, {}, map[], false)
  }

  predicate Fresh(s: State) {
    s.conn.Some? && s == Init(s.conn.value, s.dialled, s.log) && Started(s.conn.value, s.dialled, s.log)
  }

  function Returns(s: State, tag: nat, ok: bool): State {
    s.(lock := None, results := s.results[tag := ok])
  }

  /** A WriteJSON of the lock holder. */
  function Wrote(s: State, result: WriteResult): Option<State> {
    match s.lock
    case Some(First(tag)) =>
      if s.conn.None? then Some(s.(panicked := true))
      else if result.Fine? then Some(Returns(s.(log := s.log + [Written(s.conn.value, Data(tag))]), tag, true))
      else if result.Fatal? then Some(Returns(s, tag, false))
      else Some(s.(conn := None, lock := Some(Redial(tag))))
    case Some(Second(tag)) =>
      if s.conn.None? then Some(s.(panicked := true))
      else if result.Fine? then Some(Returns(s.(log := s.log + [Written(s.conn.value, Data(tag))]), tag, true))
      else Some(Returns(s, tag, false))
    case _ => None
  }

  /** The redial loop finds the client open and dials; Close may come before the attempt is over. */
  function DialTurn(s: State, a: Attempt): Option<State> {
    var t := s.(trying := false, dialled := if a.DialFails? then s.dialled else s.dialled + 1);
    if !s.trying then None
    else if !a.Connects? then Some(t)
    else
      var got := t.(conn := Some(s.dialled), log := s.log + [Written(s.dialled, Join)]);
      match s.lock
      case Some(Redial(tag)) => Some(got.(lock := Some(Second(tag))))
      case Some(RecvRedial) => Some(got.(lock := None, reader := Ready))
      case _ => None
  }

  /** The redial loop finds the client closed. */
  function Abandon(s: State): Option<State> {
    if !s.closed || s.trying then None
    else match s.lock
      case Some(Redial(tag)) => Some(Returns(s.(gaveUp := true), tag, false))
      case Some(RecvRedial) => Some(s.(gaveUp := true, lock := None, reader := Stopped))
      case _ => None
  }

  function Step(s: State, ev: Event): Option<State> {
    if s.panicked then None
    else match ev
      case Send(tag) =>
        if s.lock.Some? || tag in s.entered then None
        else Some(s.(lock := Some(First(tag)), entered := s.entered + {tag}))
      case Write(result) => Wrote(s, result)
      case Try => if Redialling(s) && !s.closed && !s.trying then Some(s.(trying := true)) else None
      case Dial(attempt) => DialTurn(s, attempt)
      case GiveUp => Abandon(s)
      case Close => Some(s.(closed := true))
      case Read =>
        if !s.reader.Ready? then None
        else Some(match s.conn case None => s.(panicked := true) case Some(c) => s.(reader := Reading(c)))
      case Arrive => if s.reader.Reading? then Some(s.(reader := Ready)) else None
      case ReadFails(recoverable) =>
        if s.reader.Reading? then Some(s.(reader := if recoverable then Waiting else Stopped)) else None
      case Relock =>
        if s.reader.Waiting? && s.lock.None? then Some(s.(conn := None, lock := Some(RecvRedial))) else None
  }

  function Exec(s0: State, evs: seq<Event>): Option<State>
    decreases |evs|
  {
    if evs == [] then Some(s0)
    else match Exec(s0, evs[..|evs| - 1])
      case None => None
      case Some(s) => Step(s, evs[|evs| - 1])
  }

  predicate Redialling(s: State) {
    s.lock.Some? && (s.lock.value.Redial? || s.lock.value.RecvRedial?)
  }

  /** How often an envelope was written without error. */
  function Times(log: seq<Written>, tag: nat): nat {
    if log == [] then 0
    else Times(log[..|log| - 1], tag) + if log[|log| - 1].frame == Data(tag) then 1 else 0
  }

  /** There is no connection exactly while somebody redials, and after a redial gave up. */
  predicate Connected(s: State) {
    && (s.conn.None? <==> Redialling(s) || s.gaveUp)
    && (s.trying ==> Redialling(s))
    && (s.gaveUp ==> s.closed && !s.trying)
    && (s.gaveUp ==> !(s.lock.Some? && s.lock.value.Second?))
  }

  ghost predicate Joined(s: State) {
    && JoinFirst(s.log)
    && (forall w | w in s.log :: w.conn < s.dialled)
    && (s.conn.Some? ==> Written(s.conn.value, Join) in s.log)
  }

  /** The Send that holds the lock. */
  function Current(s: State): Option<nat> {
    if s.lock.None? || s.lock.value.RecvRedial? then None else Some(s.lock.value.tag)
  }

  /** An envelope has been written once if its Send returned nil, and not at all otherwise. */
  ghost predicate Tallied(s: State, tag: nat) {
    Counts(s, tag, Times(s.log, tag))
  }

  ghost predicate Counts(s: State, tag: nat, times: nat) {
    && times == (if tag in s.results && s.results[tag] then 1 else 0)
    && (tag in s.results ==> tag in s.entered && Current(s) != Some(tag))
    && (Current(s) == Some(tag) ==> tag in s.entered)
  }

  /** The frame a step writes, if it writes one. */
  function NewFrame(s: State, ev: Event): seq<Written> {
    match ev
    case Write(result) =>
      if s.conn.Some? && result.Fine? && Current(s).Some? then [Written(s.conn.value, Data(Current(s).value))] else []
    case Dial(a) => if a.Connects? then [Written(s.dialled, Join)] else []
    case _ => []
  }

  lemma LogStep(s: State, ev: Event)
    requires Step(s, ev).Some?
    ensures Step(s, ev).value.log == s.log + NewFrame(s, ev)
  {
  }

  lemma ConnectedStep(s: State, ev: Event)
    requires Connected(s) && Step(s, ev).Some?
    ensures Connected(Step(s, ev).value)
  {
  }

  lemma TimesSnoc(log: seq<Written>, w: Written, tag: nat)
    ensures Times(log + [w], tag) == Times(log, tag) + if w.frame == Data(tag) then 1 else 0
  {
    assert (log + [w])[..|log|] == log;
  }

  lemma CountsReturn(s: State, log: seq<Written>, tag: nat, times: nat, mine: nat, ok: bool)
    requires Counts(s, tag, times) && Current(s) == Some(mine)
    ensures Counts(Returns(s.(log := log), mine, ok), tag, times + if ok && mine == tag then 1 else 0)
  {
  }

  lemma CountsWrite(s: State, result: WriteResult, tag: nat, times: nat)
    requires Counts(s, tag, times) && Wrote(s, result).Some?
    ensures Counts(Wrote(s, result).value, tag,
                   times + if s.conn.Some? && result.Fine? && Current(s) == Some(tag) then 1 else 0)
  {
    var mine := Current(s).value;
    if s.conn.Some? {
      if result.Fine? {
        CountsReturn(s, s.log + [Written(s.conn.value, Data(mine))], tag, times, mine, true);
      } else {
        CountsReturn(s, s.log, tag, times, mine, false);
      }
    }
  }

  lemma CountsStep(s: State, ev: Event, tag: nat, times: nat)
    requires Counts(s, tag, times) && Step(s, ev).Some?
    ensures Counts(Step(s, ev).value, tag,
                   times + if NewFrame(s, ev) != [] && NewFrame(s, ev)[0].frame == Data(tag) then 1 else 0)
  {
    if ev.Write? { CountsWrite(s, ev.result, tag, times); }
  }

  lemma TalliedStep(s: State, ev: Event, tag: nat)
    requires Tallied(s, tag) && Step(s, ev).Some?
    ensures Tallied(Step(s, ev).value, tag)
  {
    CountsStep(s, ev, tag, Times(s.log, tag));
    LogStep(s, ev);
    if NewFrame(s, ev) == [] {
      assert s.log + [] == s.log;
    } else {
      TimesSnoc(s.log, NewFrame(s, ev)[0], tag);
    }
  }

  lemma JoinedWrite(s: State, result: WriteResult)
    requires Joined(s) && Wrote(s, result).Some?
    ensures Joined(Wrote(s, result).value)
  {
    if s.conn.Some? { JoinFirstExtends(s.log, Written(s.conn.value, Data(s.lock.value.tag))); }
  }

  lemma JoinedDial(s: State, a: Attempt)
    requires Joined(s) && DialTurn(s, a).Some?
    ensures Joined(DialTurn(s, a).value)
  {
    JoinFirstExtends(s.log, Written(s.dialled, Join));
  }

  lemma JoinedStep(s: State, ev: Event)
    requires Joined(s) && Step(s, ev).Some?
    ensures Joined(Step(s, ev).value)
  {
    match ev
    case Write(result) => JoinedWrite(s, result);
    case Dial(a) => JoinedDial(s, a);
    case _ =>
  }

  lemma KeptAtStart(s0: State, tag: nat)
    requires Fresh(s0)
    ensures Connected(s0) && Joined(s0) && Tallied(s0, tag)
  {
    var w := Written(s0.conn.value, Join);
    TimesSnoc([], w, tag);
    TimesSnoc([w], w, tag);
    assert [] + [w] == [w] && [w] + [w] == [w, w];
  }

  lemma {:induction false} RunKeeps(s0: State, evs: seq<Event>, tag: nat)
    requires Fresh(s0) && Exec(s0, evs).Some?
    ensures Connected(Exec(s0, evs).value) && Joined(Exec(s0, evs).value) && Tallied(Exec(s0, evs).value, tag)
    decreases |evs|
  {
    if evs == [] {
      KeptAtStart(s0, tag);
    } else {
      var n := |evs| - 1;
      RunKeeps(s0, evs[..n], tag);
      var s := Exec(s0, evs[..n]).value;
      ConnectedStep(s, evs[n]);
      JoinedStep(s, evs[n]);
      TalliedStep(s, evs[n], tag);
    }
  }

  /** However Sends, the Recv and their redials interleave, the first frame on every connection is the join. */
  lemma JoinIsFirst(s0: State, evs: seq<Event>)
    requires Fresh(s0) && Exec(s0, evs).Some?
    ensures JoinFirst(Exec(s0, evs).value.log)
  {
    RunKeeps(s0, evs, 0);
  }

  /** A Send that returned nil wrote its envelope exactly once; one that failed or has not returned, never. */
  lemma SentExactlyOnce(s0: State, evs: seq<Event>, tag: nat)
    requires Fresh(s0) && Exec(s0, evs).Some?
    ensures var s := Exec(s0, evs).value;
      Times(s.log, tag) == if tag in s.results && s.results[tag] then 1 else 0
  {
    RunKeeps(s0, evs, tag);
  }

  /** The unlocked read of a Recv meets no connection exactly while somebody redials, or once a redial has given up. */
  lemma ReadPanicsExactly(s0: State, evs: seq<Event>)
    requires Fresh(s0) && Exec(s0, evs).Some? && !Exec(s0, evs).value.panicked && Exec(s0, evs).value.reader.Ready?
    ensures var s := Exec(s0, evs).value;
      Step(s, Read).value.panicked <==> Redialling(s) || s.gaveUp
  {
    RunKeeps(s0, evs, 0);
  }

  /** A Send, which holds the lock, meets no connection exactly once a redial has given up. */
  lemma WritePanicsExactly(s0: State, evs: seq<Event>, result: WriteResult)
    requires Fresh(s0) && Exec(s0, evs).Some? && !Exec(s0, evs).value.panicked
    requires Wrote(Exec(s0, evs).value, result).Some?
    ensures var s := Exec(s0, evs).value;
      Step(s, Write(result)).value.panicked <==> s.gaveUp
  {
    RunKeeps(s0, evs, 0);
  }

  /** So a Recv called while a Send redials ends the process, though nobody closed the client. */
  lemma OpenClientCanPanic(s0: State, tag: nat)
    requires Fresh(s0)
    ensures var after := Exec(s0, [Send(tag), Write(Recoverable), Read]);
      after.Some? && after.value.panicked && !after.value.closed
  {
    var evs := [Send(tag), Write(Recoverable), Read];
    assert evs[..2] == [Send(tag), Write(Recoverable)] && evs[..2][..1] == [Send(tag)] && [Send(tag)][..0] == [];
    assert Exec(s0, [Send(tag)]) == Step(s0, Send(tag));
    assert Exec(s0, evs[..2]) == Step(Exec(s0, [Send(tag)]).value, Write(Recoverable));
  }

  // ------------------------------------------------------------------------------------------------------------
  // When a Send returns, and what
  // ------------------------------------------------------------------------------------------------------------

  /** The Send that took the lock last. */
  function Sender(evs: seq<Event>): Option<nat> {
    if evs == [] then None
    else match evs[|evs| - 1] case Send(tag) => Some(tag) case _ => Sender(evs[..|evs| - 1])
  }

  /** How often a Send has tried to write its envelope. */
  function Writes(evs: seq<Event>, tag: nat): nat {
    if evs == [] then 0
    else
      var front := evs[..|evs| - 1];
      Writes(front, tag) + if evs[|evs| - 1].Write? && Sender(front) == Some(tag) then 1 else 0
  }

  /** The event, in this history, that makes the Send return: nil for a write that went through. */
  function Ending(evs: seq<Event>, ev: Event, tag: nat): Option<bool> {
    if Sender(evs) != Some(tag) then None
    else match ev
      case Write(result) =>
        if result.Fine? then Some(true) else if result.Fatal? || Writes(evs, tag) > 0 then Some(false) else None
      case GiveUp => Some(false)
      case _ => None
  }

  /** What the Send has returned: decided by the first such event. */
  function Outcome(evs: seq<Event>, tag: nat): Option<bool> {
    if evs == [] then None
    else
      var front := evs[..|evs| - 1];
      if Outcome(front, tag).Some? then Outcome(front, tag) else Ending(front, evs[|evs| - 1], tag)
  }

  function Returned(s: State, tag: nat): Option<bool> {
    if tag in s.results then Some(s.results[tag]) else None
  }

  /** The lock is held by the last sender, unless it has returned; how often it has written says how far it is. */
  ghost predicate Turn(s: State, evs: seq<Event>, tag: nat) {
    && Returned(s, tag) == Outcome(evs, tag)
    && (Current(s) == Some(tag) ==> Sender(evs) == Some(tag) && tag !in s.results)
    && (Sender(evs) == Some(tag) ==> Current(s) == Some(tag) || tag in s.results)
    && (Sender(evs) == Some(tag) || tag in s.results || Writes(evs, tag) > 0 ==> tag in s.entered)
    && (Current(s) == Some(tag) ==> (Writes(evs, tag) == 0 <==> s.lock.value.First?))
  }

  lemma HistorySnoc(evs: seq<Event>, ev: Event, tag: nat)
    ensures var all := evs + [ev];
      && Sender(all) == (if ev.Send? then Some(ev.tag) else Sender(evs))
      && Writes(all, tag) == Writes(evs, tag) + (if ev.Write? && Sender(evs) == Some(tag) then 1 else 0)
      && Outcome(all, tag) == if Outcome(evs, tag).Some? then Outcome(evs, tag) else Ending(evs, ev, tag)
  {
    assert (evs + [ev])[..|evs|] == evs;
  }

  lemma TurnSend(s: State, evs: seq<Event>, tag: nat, t: nat)
    requires Turn(s, evs, tag) && Step(s, Send(t)).Some?
    ensures Turn(Step(s, Send(t)).value, evs + [Send(t)], tag)
  {
    HistorySnoc(evs, Send(t), tag);
  }

  /** A write either makes its Send return or sends it to its redial. */
  lemma WriteReturns(s: State, result: WriteResult)
    requires Step(s, Write(result)).Some? && !Step(s, Write(result)).value.panicked
    ensures Current(s).Some?
    ensures var t, mine := Step(s, Write(result)).value, Current(s).value;
      && t.entered == s.entered
      && if result.Recoverable? && s.lock.value.First?
         then t.results == s.results && t.lock == Some(Redial(mine))
         else t.results == s.results[mine := result.Fine?] && t.lock == None
  {
  }

  lemma TurnWrite(s: State, evs: seq<Event>, tag: nat, result: WriteResult)
    requires Turn(s, evs, tag) && Step(s, Write(result)).Some? && !Step(s, Write(result)).value.panicked
    requires Current(s).Some? ==> Turn(s, evs, Current(s).value)
    ensures Turn(Step(s, Write(result)).value, evs + [Write(result)], tag)
  {
    HistorySnoc(evs, Write(result), tag);
    WriteReturns(s, result);
  }

  lemma TurnGiveUp(s: State, evs: seq<Event>, tag: nat)
    requires Turn(s, evs, tag) && Step(s, GiveUp).Some?
    requires Current(s).Some? ==> Turn(s, evs, Current(s).value)
    ensures Turn(Step(s, GiveUp).value, evs + [GiveUp], tag)
  {
    HistorySnoc(evs, GiveUp, tag);
  }

  /** Every other event leaves the Sends where they are; a redial that connects goes on to the second write. */
  lemma OtherKeeps(s: State, ev: Event)
    requires Step(s, ev).Some? && !ev.Send? && !ev.Write? && !ev.GiveUp?
    ensures var t := Step(s, ev).value;
      && t.results == s.results && t.entered == s.entered && Current(t) == Current(s)
      && (Current(s).Some? ==> (t.lock.value.First? <==> s.lock.value.First?))
  {
  }

  lemma TurnOther(s: State, evs: seq<Event>, tag: nat, ev: Event)
    requires Turn(s, evs, tag) && Step(s, ev).Some? && !ev.Send? && !ev.Write? && !ev.GiveUp?
    ensures Turn(Step(s, ev).value, evs + [ev], tag)
  {
    HistorySnoc(evs, ev, tag);
    OtherKeeps(s, ev);
  }

  lemma PanicStays(s: State, ev: Event)
    requires Step(s, ev).Some?
    ensures !s.panicked
  {
  }

  lemma {:induction false} TurnRun(s0: State, evs: seq<Event>, tag: nat)
    requires Fresh(s0) && Exec(s0, evs).Some? && !Exec(s0, evs).value.panicked
    ensures Turn(Exec(s0, evs).value, evs, tag)
    decreases |evs|
  {
    if evs != [] {
      var front, ev := evs[..|evs| - 1], evs[|evs| - 1];
      var s := Exec(s0, front).value;
      assert evs == front + [ev];
      PanicStays(s, ev);
      TurnRun(s0, front, tag);
      if Current(s).Some? { TurnRun(s0, front, Current(s).value); }
      match ev
      case Send(t) => TurnSend(s, front, tag, t);
      case Write(result) => TurnWrite(s, front, tag, result);
      case GiveUp => TurnGiveUp(s, front, tag);
      case _ => TurnOther(s, front, tag, ev);
    }
  }

  /**
  A Send returns nil at its first write that goes through; it returns an error at a write that fails for good, at its
  second write if that fails at all, and when its redial gives up; and until then it has not returned.
  */
  lemma SendReturns(s0: State, evs: seq<Event>, tag: nat)
    requires Fresh(s0) && Exec(s0, evs).Some? && !Exec(s0, evs).value.panicked
    ensures Returned(Exec(s0, evs).value, tag) == Outcome(evs, tag)
  {
    TurnRun(s0, evs, tag);
  }

  lemma ExecSnoc(s0: State, evs: seq<Event>, ev: Event)
    requires Exec(s0, evs).Some?
    ensures Exec(s0, evs + [ev]) == Step(Exec(s0, evs).value, ev)
  {
    assert (evs + [ev])[..|evs|] == evs;
  }

  lemma ExecTwo(s0: State, evs: seq<Event>, a: Event, b: Event)
    requires Exec(s0, evs).Some? && Step(Exec(s0, evs).value, a).Some?
    ensures Exec(s0, evs + [a, b]) == Step(Step(Exec(s0, evs).value, a).value, b)
  {
    var one := evs + [a];
    assert evs + [a, b] == one + [b];
    ExecSnoc(s0, evs, a);
    ExecSnoc(s0, one, b);
  }

  /** The redial of an open client connects at its next attempt. */
  lemma RedialConnects(s: State)
    requires Redialling(s) && !s.closed && !s.trying && !s.panicked
    ensures Step(s, Try) == Some(s.(trying := true))
    ensures var t := Step(s.(trying := true), Dial(Connects));
      t == Some(s.(dialled := s.dialled + 1, conn := Some(s.dialled), log := s.log + [Written(s.dialled, Join)],
                   lock := if Current(s).Some? then Some(Second(Current(s).value)) else None,
                   reader := if Current(s).Some? then s.reader else Ready))
  {
  }

  lemma StartRedial(s0: State, tag: nat)
    requires Fresh(s0)
    ensures Exec(s0, [Send(tag), Write(Recoverable)])
      == Some(s0.(conn := None, lock := Some(Redial(tag)), entered := {tag}))
  {
    ExecTwo(s0, [], Send(tag), Write(Recoverable));
    assert [] + [Send(tag), Write(Recoverable)] == [Send(tag), Write(Recoverable)] && {} + {tag} == {tag};
  }

  /** A Send whose first write fails redials, joins on the new connection, and writes there. */
  lemma SendRecovers(s0: State, tag: nat)
    requires Fresh(s0)
    ensures var after := Exec(s0, [Send(tag), Write(Recoverable)] + [Try, Dial(Connects)] + [Write(Fine)]);
      && after.Some? && after.value.conn == Some(s0.dialled) && after.value.results == map[tag := true]
      && after.value.log == s0.log + [Written(s0.dialled, Join), Written(s0.dialled, Data(tag))]
  {
    var first := [Send(tag), Write(Recoverable)];
    StartRedial(s0, tag);
    RedialConnects(Exec(s0, first).value);
    ExecTwo(s0, first, Try, Dial(Connects));
    ExecSnoc(s0, first + [Try, Dial(Connects)], Write(Fine));
  }

  lemma StartReread(s0: State)
    requires Fresh(s0)
    ensures Exec(s0, [Read, ReadFails(true)] + [Relock])
      == Some(s0.(conn := None, lock := Some(RecvRedial), reader := Waiting))
  {
    ExecTwo(s0, [], Read, ReadFails(true));
    assert [] + [Read, ReadFails(true)] == [Read, ReadFails(true)];
    ExecSnoc(s0, [Read, ReadFails(true)], Relock);
  }

  /** A Recv whose read fails redials, joins on the new connection, and reads there. */
  lemma RecvRecovers(s0: State)
    requires Fresh(s0)
    ensures var after := Exec(s0, [Read, ReadFails(true)] + [Relock] + [Try, Dial(Connects)] + [Read]);
      && after.Some? && after.value.conn == Some(s0.dialled) && after.value.reader == Reading(s0.dialled)
      && after.value.log == s0.log + [Written(s0.dialled, Join)] && after.value.lock.None?
  {
    var first := [Read, ReadFails(true)] + [Relock];
    StartReread(s0);
    RedialConnects(Exec(s0, first).value);
    ExecTwo(s0, first, Try, Dial(Connects));
    ExecSnoc(s0, first + [Try, Dial(Connects)], Read);
  }
}
