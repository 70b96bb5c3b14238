/** The desktop app's view of a child process: its pipes cut into lines, a ring of the last lines, a status word. */
module LogPipe {
  import opened Wrappers

  const CAPACITY := 200
  const SHOWN := 30

  /** strings.TrimRight(s, "\r") */
  function TrimCR(s: string): string {
    if s != "" && s[|s| - 1] == '\r' then TrimCR(s[..|s| - 1]) else s
  }

  /** The finished lines of a stream, and what has come since the last newline. */
  datatype Scanned = Scanned(lines: seq<string>, tail: string)

  function Scan(s: string): Scanned {
    if s == "" then Scanned([], "")
    else
      var before, c := Scan(s[..|s| - 1]), s[|s| - 1];
      if c == '\n' then Scanned(before.lines + [TrimCR(before.tail)], "")
      else Scanned(before.lines, before.tail + [c])
  }

  /** The lines of a whole stream; the last piece, if no newline ends it, is kept as it is. */
  function Lines(s: string): seq<string> {
    Scan(s).lines + if Scan(s).tail == "" then [] else [Scan(s).tail]
  }

  function Whole(chunks: seq<string>): string {
    if chunks == [] then "" else Whole(chunks[..|chunks| - 1]) + chunks[|chunks| - 1]
  }

  function Last(log: seq<string>, n: nat): seq<string> {
    if |log| <= n then log else log[|log| - n..]
  }

  /** strings.IndexByte(s, '\n'), or the length. */
  function NewlineAt(s: string): (i: nat)
    ensures i <= |s| && '\n' !in s[..i] && (i < |s| ==> s[i] == '\n')
  {
    if s == "" || s[0] == '\n' then 0
    else
      var i := 1 + NewlineAt(s[1..]);
      assert s[..i] == [s[0]] + s[1..][..i - 1];
      i
  }

  lemma {:induction false} ScanPlain(a: string, b: string)
    requires '\n' !in b
    ensures Scan(a + b) == Scanned(Scan(a).lines, Scan(a).tail + b)
  {
    if b == "" {
      assert a + b == a;
    } else {
      var n := |b| - 1;
      assert (a + b)[..|a + b| - 1] == a + b[..n];
      ScanPlain(a, b[..n]);
      assert b == b[..n] + [b[n]];
    }
  }

  lemma ScanLine(a: string, b: string)
    requires '\n' !in b
    ensures Scan(a + b + "\n") == Scanned(Scan(a).lines + [TrimCR(Scan(a).tail + b)], "")
  {
    ScanPlain(a, b);
    var s := a + b + "\n";
    assert s[..|s| - 1] == a + b;
  }

  /** Cutting off the first line of what is left over. */
  lemma CutScans(seen: string, partial: string, at: nat)
    requires at < |partial| && '\n' !in partial[..at] && partial[at] == '\n' && Scan(seen).tail == ""
    ensures Scan(seen + partial[..at] + "\n") == Scanned(Scan(seen).lines + [TrimCR(partial[..at])], "")
    ensures seen + partial[..at] + "\n" + partial[at + 1..] == seen + partial
  {
    var line := partial[..at];
    ScanLine(seen, line);
    assert "" + line == line;
    Rejoin(partial, at);
    Associate(seen, line, "\n", partial[at + 1..]);
  }

  lemma Associate(a: string, b: string, c: string, d: string)
    ensures a + b + c + d == a + (b + c + d)
  {
  }

  lemma Rejoin(partial: string, at: nat)
    requires at < |partial| && partial[at] == '\n'
    ensures partial[..at] + "\n" + partial[at + 1..] == partial
  {
  }

  /** Lines as a program prints them, each with some number of carriage returns before its newline. */
  function Printed(lines: seq<string>, crs: seq<nat>): string
    requires |crs| == |lines|
  {
    if lines == [] then ""
    else
      var n := |lines| - 1;
      Printed(lines[..n], crs[..n]) + (lines[n] + seq(crs[n], _ => '\r')) + "\n"
  }

  lemma {:induction false} TrimDropsCRs(s: string, k: nat)
    requires s == "" || s[|s| - 1] != '\r'
    ensures TrimCR(s + seq(k, _ => '\r')) == s
  {
    var t := s + seq(k, _ => '\r');
    if k == 0 {
      assert t == s;
    } else {
      assert t[..|t| - 1] == s + seq(k - 1, _ => '\r');
      TrimDropsCRs(s, k - 1);
    }
  }

  lemma PrintedStep(before: string, line: string, k: nat)
    requires Scan(before).tail == "" && '\n' !in line && (line == "" || line[|line| - 1] != '\r')
    ensures Scan(before + (line + seq(k, _ => '\r')) + "\n") == Scanned(Scan(before).lines + [line], "")
  {
    var b := line + seq(k, _ => '\r');
    ScanLine(before, b);
    TrimDropsCRs(line, k);
    assert "" + b == b;
  }

  /** A line that printing and trimming leave alone. */
  predicate Printable(line: string) {
    '\n' !in line && (line == "" || line[|line| - 1] != '\r')
  }

  /** Whatever newline style a child uses, the lines it printed are the lines logged. */
  lemma {:induction false} PrintedLinesComeBack(lines: seq<string>, crs: seq<nat>)
    requires |crs| == |lines| && forall i | 0 <= i < |lines| :: Printable(lines[i])
    ensures Scan(Printed(lines, crs)) == Scanned(lines, "")
  {
    if lines != [] {
      var n := |lines| - 1;
      var front := lines[..n];
      PrintedLinesComeBack(front, crs[..n]);
      PrintedStep(Printed(front, crs[..n]), lines[n], crs[n]);
      PrintedLast(lines, crs);
      FrontAndLast(lines);
    }
  }

  /** And what follows the last newline is a line of its own, kept as it is, carriage returns and all, unless empty. */
  lemma LinesOf(lines: seq<string>, crs: seq<nat>, tail: string)
    requires |crs| == |lines| && (forall i | 0 <= i < |lines| :: Printable(lines[i])) && '\n' !in tail
    ensures Lines(Printed(lines, crs) + tail) == lines + if tail == "" then [] else [tail]
  {
    PrintedLinesComeBack(lines, crs);
    ScanPlain(Printed(lines, crs), tail);
    assert "" + tail == tail;
  }

  lemma {:induction false} TrimSplits(s: string) returns (k: nat)
    ensures s == TrimCR(s) + seq(k, _ => '\r') && (TrimCR(s) == "" || TrimCR(s)[|TrimCR(s)| - 1] != '\r')
    ensures '\n' !in s ==> '\n' !in TrimCR(s)
  {
    if s != "" && s[|s| - 1] == '\r' {
      var n := |s| - 1;
      k := TrimSplits(s[..n]);
      assert seq(k + 1, _ => '\r') == seq(k, _ => '\r') + ['\r'];
      assert s == s[..n] + ['\r'];
      k := k + 1;
    } else {
      k := 0;
      assert s == s + seq(0, _ => '\r');
    }
  }

  lemma PrintedSnoc(lines: seq<string>, crs: seq<nat>, line: string, k: nat)
    requires |crs| == |lines|
    ensures Printed(lines + [line], crs + [k]) == Printed(lines, crs) + (line + seq(k, _ => '\r')) + "\n"
  {
    assert (lines + [line])[..|lines|] == lines && (crs + [k])[..|crs|] == crs;
  }

  /** Every stream is of that form, so this says what the lines of any stream are. */
  lemma {:induction false} EveryStream(s: string) returns (lines: seq<string>, crs: seq<nat>, tail: string)
    ensures |crs| == |lines| && (forall i | 0 <= i < |lines| :: Printable(lines[i])) && '\n' !in tail
    ensures s == Printed(lines, crs) + tail
  {
    if s == "" {
      lines, crs, tail := [], [], "";
    } else {
      var n := |s| - 1;
      lines, crs, tail := EveryStream(s[..n]);
      assert s == s[..n] + [s[n]];
      if s[n] == '\n' {
        var k := TrimSplits(tail);
        PrintedSnoc(lines, crs, TrimCR(tail), k);
        lines, crs, tail := lines + [TrimCR(tail)], crs + [k], "";
      } else {
        tail := tail + [s[n]];
      }
    }
  }

  lemma FrontAndLast(lines: seq<string>)
    requires lines != []
    ensures lines == lines[..|lines| - 1] + [lines[|lines| - 1]]
  {
  }

  lemma PrintedLast(lines: seq<string>, crs: seq<nat>)
    requires |crs| == |lines| && lines != []
    ensures var n := |lines| - 1;
      Printed(lines, crs) == Printed(lines[..n], crs[..n]) + (lines[n] + seq(crs[n], _ => '\r')) + "\n"
  {
  }

  lemma LastPush(log: seq<string>, line: string)
    ensures Last(log + [line], CAPACITY) == Last(Last(log, CAPACITY) + [line], CAPACITY)
  {
  }

  /** The end of the log, and all of it if it is short. */
  lemma LastIsEnd(log: seq<string>, n: nat)
    ensures |Last(log, n)| == if |log| < n then |log| else n
    ensures log == log[..|log| - |Last(log, n)|] + Last(log, n)
  {
  }

  lemma LastOfLast(log: seq<string>)
    ensures Last(Last(log, CAPACITY), SHOWN) == Last(log, SHOWN)
  {
  }

  // The status word.

  function Contains(s: string, sub: string): bool {
    sub <= s || (s != "" && Contains(s[1..], sub))
  }

  predicate StandsAt(s: string, sub: string, i: nat) {
    i + |sub| <= |s| && s[i..i + |sub|] == sub
  }

  /** strings.Contains: the piece stands somewhere. */
  lemma {:induction false} ContainsExactly(s: string, sub: string)
    ensures Contains(s, sub) <==> exists i: nat :: StandsAt(s, sub, i)
  {
    assert sub <= s <==> StandsAt(s, sub, 0);
    if s != "" {
      ContainsExactly(s[1..], sub);
      forall i: nat
        ensures StandsAt(s[1..], sub, i) <==> StandsAt(s, sub, i + 1)
      {
        assert i + 1 + |sub| <= |s| ==> s[1..][i..i + |sub|] == s[i + 1..i + 1 + |sub|];
      }
      if i: nat :| StandsAt(s, sub, i) {
        if i > 0 { assert StandsAt(s[1..], sub, i - 1); }
      }
    }
  }

  function NextStatus(was: string, line: string): string {
    if Contains(line, "waiting for viewer") then "waiting"
    else if Contains(line, "paired with owner") || Contains(line, "paired with viewer") then
      if was != "connected" then "paired" else was
    else if Contains(line, "tunnel up") then "connected"
    else if Contains(line, "state=failed") || Contains(line, "state=closed") then
      if was != "connected" then "reconnecting" else was
    else if Contains(line, "ice selected") && (Contains(line, "local=relay") || Contains(line, "remote=relay")) then
      "connected (via relay)"
    else was
  }

  /** What moves the status: a line pushed, or the child's exit. */
  datatype Event = Line(text: string) | Exited

  function Moved(was: string, e: Event): string {
    match e case Line(text) => NextStatus(was, text) case Exited => "stopped"
  }

  function StatusAfter(first: string, h: seq<Event>): string {
    if h == [] then first
    else Moved(StatusAfter(first, h[..|h| - 1]), h[|h| - 1])
  }

  function Texts(h: seq<Event>): seq<string> {
    if h == [] then []
    else Texts(h[..|h| - 1]) + match h[|h| - 1] case Line(text) => [text] case Exited => []
  }

  predicate MentionsPairing(line: string) {
    Contains(line, "paired with owner") || Contains(line, "paired with viewer")
  }

  /** The first marker in the line is "tunnel up". */
  predicate Connecting(e: Event) {
    e.Line? && Contains(e.text, "tunnel up") && !Contains(e.text, "waiting for viewer") && !MentionsPairing(e.text)
  }

  /** The first marker in the line takes any status away from "connected". */
  predicate Disconnecting(e: Event) {
    match e
    case Exited => true
    case Line(text) =>
      || Contains(text, "waiting for viewer")
      || (&& !MentionsPairing(text) && !Contains(text, "tunnel up")
          && !Contains(text, "state=failed") && !Contains(text, "state=closed")
          && Contains(text, "ice selected") && (Contains(text, "local=relay") || Contains(text, "remote=relay")))
  }

  ghost predicate Up(h: seq<Event>) {
    exists i :: UpSince(h, i)
  }

  ghost predicate UpSince(h: seq<Event>, i: int) {
    0 <= i < |h| && Connecting(h[i]) && forall j | i < j < |h| :: !Disconnecting(h[j])
  }

  /**
  The banner says connected exactly when the tunnel came up and nothing since was an exit, a wait or a switch to the
  relay: a failed or closed link does not take the word back.
  */
  lemma {:induction false} ConnectedExactly(first: string, h: seq<Event>)
    requires first != "connected"
    ensures StatusAfter(first, h) == "connected" <==> Up(h)
  {
    if h != [] {
      var g, e := h[..|h| - 1], h[|h| - 1];
      ConnectedExactly(first, g);
      StatusMoves(StatusAfter(first, g), e);
      StatusLast(first, h);
      UpLast(h);
    }
  }

  lemma StatusLast(first: string, h: seq<Event>)
    requires h != []
    ensures StatusAfter(first, h) == Moved(StatusAfter(first, h[..|h| - 1]), h[|h| - 1])
  {
  }

  lemma UpLast(h: seq<Event>)
    requires h != []
    ensures Up(h) <==> Connecting(h[|h| - 1]) || (Up(h[..|h| - 1]) && !Disconnecting(h[|h| - 1]))
  {
    var n := |h| - 1;
    var g := h[..n];
    forall i | 0 <= i < n
      ensures UpSince(h, i) <==> UpSince(g, i) && !Disconnecting(h[n])
    {
      assert g[i] == h[i] && forall j | i < j < n :: g[j] == h[j];
    }
    assert UpSince(h, n) <==> Connecting(h[n]);
  }

  lemma StatusMoves(was: string, e: Event)
    ensures Moved(was, e) == "connected" <==> (Connecting(e) || (was == "connected" && !Disconnecting(e)))
  {
    Words();
  }

  lemma Words()
    ensures "connected" !in {"waiting", "paired", "reconnecting", "connected (via relay)", "stopped"}
  {
    assert |"connected"| == 9 && |"waiting"| == 7 && |"paired"| == 6 && |"reconnecting"| == 12;
    assert |"connected (via relay)"| == 21 && |"stopped"| == 7;
  }

  /** The markers in the order they are looked for, and the word each stands for. */
  const MARKERS: seq<(string, string)> := [
    ("waiting for viewer", "waiting"),
    ("paired with owner", "paired"),
    ("paired with viewer", "paired"),
    ("tunnel up", "connected"),
    ("state=failed", "reconnecting"),
    ("state=closed", "reconnecting")
  ]

  function FirstWord(text: string, markers: seq<(string, string)>): Option<string> {
    if markers == [] then None
    else if Contains(text, markers[0].0) then Some(markers[0].1)
    else FirstWord(text, markers[1..])
  }

  function RelayWord(text: string): Option<string> {
    if Contains(text, "ice selected") && (Contains(text, "local=relay") || Contains(text, "remote=relay"))
    then Some("connected (via relay)") else None
  }

  /** The word that an event stands for, if it stands for one. */
  function Word(e: Event): Option<string> {
    match e
    case Exited => Some("stopped")
    case Line(text) => if FirstWord(text, MARKERS).Some? then FirstWord(text, MARKERS) else RelayWord(text)
  }

  /** These two words do not take "connected" back. */
  predicate Yields(word: string) { word == "paired" || word == "reconnecting" }

  ghost predicate Sets(h: seq<Event>, i: int) {
    0 <= i < |h| && Word(h[i]).Some? && !(Yields(Word(h[i]).value) && Up(h[..i]))
  }

  lemma FirstWordAt(text: string, markers: seq<(string, string)>, k: nat)
    requires k < |markers|
    ensures FirstWord(text, markers[k..])
      == if Contains(text, markers[k].0) then Some(markers[k].1) else FirstWord(text, markers[k + 1..])
  {
    assert markers[k..][1..] == markers[k + 1..];
  }

  lemma WordOfLine(text: string)
    ensures Word(Line(text)) ==
      if Contains(text, "waiting for viewer") then Some("waiting")
      else if Contains(text, "paired with owner") || Contains(text, "paired with viewer") then Some("paired")
      else if Contains(text, "tunnel up") then Some("connected")
      else if Contains(text, "state=failed") || Contains(text, "state=closed") then Some("reconnecting")
      else RelayWord(text)
  {
    FirstWordAt(text, MARKERS, 0);
    FirstWordAt(text, MARKERS, 1);
    FirstWordAt(text, MARKERS, 2);
    FirstWordAt(text, MARKERS, 3);
    FirstWordAt(text, MARKERS, 4);
    FirstWordAt(text, MARKERS, 5);
    assert MARKERS[0..] == MARKERS && MARKERS[6..] == [];
  }

  lemma MovedByWord(was: string, e: Event)
    ensures Moved(was, e) == match Word(e)
      case None => was
      case Some(word) => if Yields(word) && was == "connected" then was else word
  {
    if e.Line? { WordOfLine(e.text); }
    Words();
  }

  lemma SetsBefore(h: seq<Event>)
    requires h != []
    ensures var n := |h| - 1; forall j | 0 <= j < n :: (Sets(h, j) <==> Sets(h[..n], j)) && h[..n][j] == h[j]
  {
    var n := |h| - 1;
    forall j | 0 <= j < n
      ensures Sets(h, j) <==> Sets(h[..n], j)
    {
      assert h[..n][..j] == h[..j];
    }
  }

  lemma StatusOne(first: string, h: seq<Event>)
    requires first != "connected" && h != []
    ensures var n := |h| - 1;
      StatusAfter(first, h) == if Sets(h, n) then Word(h[n]).value else StatusAfter(first, h[..n])
  {
    var n := |h| - 1;
    ConnectedExactly(first, h[..n]);
    StatusLast(first, h);
    MovedByWord(StatusAfter(first, h[..n]), h[n]);
  }

  /** The status is the word of the last event that sets it, and the first status if none does. */
  lemma {:induction false} StatusExactly(first: string, h: seq<Event>, i: int)
    requires first != "connected" && -1 <= i < |h| && (i >= 0 ==> Sets(h, i)) && forall j | i < j < |h| :: !Sets(h, j)
    ensures StatusAfter(first, h) == if i >= 0 then Word(h[i]).value else first
  {
    if h != [] {
      var n := |h| - 1;
      StatusOne(first, h);
      SetsBefore(h);
      if i < n { StatusExactly(first, h[..n], i); }
    }
  }

  // One child.

  class Subprocess {
    var logLines: seq<string>
    var lastStatus: string
    /** Milliseconds; zero until the child is started. */
    var started: nat
    var mountPath: string
    ghost var history: seq<Event>
    ghost var first: string

    ghost predicate Valid()
      reads this
    {
      logLines == Last(Texts(history), CAPACITY) && lastStatus == StatusAfter(first, history)
    }

    constructor (status: string)
      ensures Valid() && history == [] && first == status && started == 0 && mountPath == ""
    {
      logLines, lastStatus, started, mountPath, history, first := [], status, 0, "", [], status;
    }

    method PushLogLine(line: string)
      requires Valid()
      modifies this
      ensures Valid() && first == old(first)
      ensures history == old(history) + [Line(line)]
      ensures logLines == Last(old(logLines) + [line], CAPACITY)
    {
      LastPush(Texts(history), line);
      assert (history + [Line(line)])[..|history|] == history;
      logLines := logLines + [line];
      if |logLines| > CAPACITY {
        logLines := logLines[|logLines| - CAPACITY..];
      }
      if Contains(line, "waiting for viewer") {
        lastStatus := "waiting";
      } else if Contains(line, "paired with owner") || Contains(line, "paired with viewer") {
        if lastStatus != "connected" {
          lastStatus := "paired";
        }
      } else if Contains(line, "tunnel up") {
        lastStatus := "connected";
      } else if Contains(line, "state=failed") || Contains(line, "state=closed") {
        if lastStatus != "connected" {
          lastStatus := "reconnecting";
        }
      } else if Contains(line, "ice selected") {
        if Contains(line, "local=relay") || Contains(line, "remote=relay") {
          lastStatus := "connected (via relay)";
        }
      }
      history := history + [Line(line)];
    }

    /** The child's exit, as launch records it. */
    method Exit()
      requires Valid()
      modifies this
      ensures Valid() && first == old(first) && history == old(history) + [Exited]
    {
      assert (history + [Exited])[..|history|] == history;
      assert Texts(history + [Exited]) == Texts(history);
      lastStatus := "stopped";
      history := history + [Exited];
    }

    method AllLogs() returns (out: seq<string>)
      requires Valid()
      ensures out == Last(Texts(history), 200)
    {
      return logLines;
    }

    method Snapshot(now: nat) returns (state: string, uptimeSecs: nat, logs: seq<string>, mount: string)
      requires Valid() && started <= now
      ensures state == StatusAfter(first, history) && mount == mountPath
      ensures started == 0 ==> uptimeSecs == 0
      ensures started != 0 ==> uptimeSecs * 1000 <= now - started < (uptimeSecs + 1) * 1000
      ensures logs == Last(Texts(history), 30)
    {
      state, uptimeSecs, mount := lastStatus, 0, mountPath;
      if started != 0 {
        uptimeSecs := (now - started) / 1000;
      }
      var n := |logLines|;
      LastOfLast(Texts(history));
      logs := if n > SHOWN then logLines[n - SHOWN..] else logLines;
    }

    /** Reads until the pipe fails; the last of the chunks is the one that came with the error. */
    method PipeToLog(chunks: seq<string>)
      requires Valid() && chunks != []
      modifies this
      ensures Valid() && first == old(first)
      ensures Texts(history) == old(Texts(history)) + Lines(Whole(chunks))
    {
      ghost var before := Texts(history);
      var partial := "";
      ghost var seen := "";
      for i := 0 to |chunks|
        invariant Valid() && first == old(first)
        invariant Caught(history, before, seen, partial, Whole(chunks[..i])) && '\n' !in partial
      {
        assert chunks[..i + 1][..i] == chunks[..i];
        CatchRead(history, before, seen, partial, Whole(chunks[..i]), chunks[i]);
        partial := partial + chunks[i];
        while true
          invariant Valid() && first == old(first)
          invariant Caught(history, before, seen, partial, Whole(chunks[..i + 1]))
          decreases |partial|
        {
          var at := NewlineAt(partial);
          if at == |partial| {
            assert partial[..at] == partial;
            break;
          }
          CatchCut(history, before, seen, partial, Whole(chunks[..i + 1]), at);
          PushLogLine(TrimCR(partial[..at]));
          seen := seen + partial[..at] + "\n";
          partial := partial[at + 1..];
        }
      }
      assert chunks[..|chunks|] == chunks;
      CatchEnd(history, before, seen, partial, Whole(chunks));
      if partial != "" {
        PushLogLine(partial);
      }
    }
  }

  /** The history goes on from before with the lines of what was seen; the rest of the stream is left over. */
  ghost predicate Caught(h: seq<Event>, before: seq<string>, seen: string, partial: string, stream: string) {
    seen + partial == stream && Scan(seen).tail == "" && Texts(h) == before + Scan(seen).lines
  }

  lemma CatchRead(h: seq<Event>, before: seq<string>, seen: string, partial: string, stream: string, data: string)
    requires Caught(h, before, seen, partial, stream)
    ensures Caught(h, before, seen, partial + data, stream + data)
  {
    assert seen + (partial + data) == (seen + partial) + data;
  }

  lemma CatchCut(h: seq<Event>, before: seq<string>, seen: string, partial: string, stream: string, at: nat)
    requires Caught(h, before, seen, partial, stream)
    requires at < |partial| && '\n' !in partial[..at] && partial[at] == '\n'
    ensures Caught(h + [Line(TrimCR(partial[..at]))], before, seen + partial[..at] + "\n", partial[at + 1..], stream)
  {
    CutScans(seen, partial, at);
    Pushing(h, TrimCR(partial[..at]));
  }

  lemma CatchEnd(h: seq<Event>, before: seq<string>, seen: string, partial: string, stream: string)
    requires Caught(h, before, seen, partial, stream) && '\n' !in partial
    ensures Texts(if partial == "" then h else h + [Line(partial)]) == before + Lines(stream)
  {
    ScanPlain(seen, partial);
    assert "" + partial == partial;
    Pushing(h, partial);
  }

  lemma Pushing(h: seq<Event>, line: string)
    ensures Texts(h + [Line(line)]) == Texts(h) + [line]
  {
    assert (h + [Line(line)])[..|h|] == h;
  }

  // The two pipes of one child push into the same log, line by line, in any order.

  /** stream is all that was read; seen the part of it already cut into lines. */
  datatype Pipe = Pipe(stream: string, seen: string, partial: string, failed: bool, done: bool)

  datatype Pushed = Pushed(pipe: nat, line: string)

  datatype Shared = Shared(pipes: seq<Pipe>, log: seq<Pushed>)

  datatype Act = Read(pipe: nat, data: string, failed: bool) | Cut(pipe: nat) | Flush(pipe: nat)

  function Start(n: nat): Shared {
    Shared(seq(n, _ => Pipe("", "", "", false, false)), [])
  }

  function Move(s: Shared, a: Act): Shared {
    if a.pipe >= |s.pipes| then s
    else
      var p := s.pipes[a.pipe];
      match a
      case Read(id, data, failed) =>
        if p.failed || '\n' in p.partial then s
        else s.(pipes := s.pipes[id := Pipe(p.stream + data, p.seen, p.partial + data, failed, false)])
      case Cut(id) =>
        var at := NewlineAt(p.partial);
        if at == |p.partial| then s
        else Shared(s.pipes[id := p.(seen := p.seen + p.partial[..at] + "\n", partial := p.partial[at + 1..])],
                    s.log + [Pushed(id, TrimCR(p.partial[..at]))])
      case Flush(id) =>
        if !p.failed || p.done || '\n' in p.partial then s
        else Shared(s.pipes[id := p.(done := true)], s.log + if p.partial == "" then [] else [Pushed(id, p.partial)])
  }

  function Moves(s: Shared, acts: seq<Act>): Shared {
    if acts == [] then s else Move(Moves(s, acts[..|acts| - 1]), acts[|acts| - 1])
  }

  /** The lines one pipe pushed. */
  function From(log: seq<Pushed>, id: nat): seq<string> {
    if log == [] then []
    else
      var e := log[|log| - 1];
      From(log[..|log| - 1], id) + if e.pipe == id then [e.line] else []
  }

  ghost predicate PipeInv(s: Shared, id: nat) {
    id < |s.pipes| ==>
      var p := s.pipes[id];
      && p.seen + p.partial == p.stream && Scan(p.seen).tail == ""
      && (p.done ==> p.failed && '\n' !in p.partial)
      && From(s.log, id) == if p.done then Lines(p.stream) else Scan(p.seen).lines
  }

  lemma FromPush(log: seq<Pushed>, e: Pushed, id: nat)
    ensures From(log + [e], id) == From(log, id) + if e.pipe == id then [e.line] else []
  {
    assert (log + [e])[..|log|] == log;
  }

  lemma ReadKeeps(s: Shared, a: Act, id: nat)
    requires PipeInv(s, id) && a.Read?
    ensures PipeInv(Move(s, a), id)
  {
    if a.pipe < |s.pipes| {
      var p := s.pipes[a.pipe];
      assert p.seen + (p.partial + a.data) == (p.seen + p.partial) + a.data;
    }
  }

  lemma CutKeeps(s: Shared, a: Act, id: nat)
    requires PipeInv(s, id) && a.Cut?
    ensures PipeInv(Move(s, a), id)
  {
    if a.pipe < |s.pipes| {
      var p := s.pipes[a.pipe];
      var at := NewlineAt(p.partial);
      if at < |p.partial| {
        FromPush(s.log, Pushed(a.pipe, TrimCR(p.partial[..at])), id);
        if a.pipe == id { CutScans(p.seen, p.partial, at); }
      }
    }
  }

  lemma FlushKeeps(s: Shared, a: Act, id: nat)
    requires PipeInv(s, id) && a.Flush?
    ensures PipeInv(Move(s, a), id)
  {
    if a.pipe < |s.pipes| {
      var p := s.pipes[a.pipe];
      FromPush(s.log, Pushed(a.pipe, p.partial), id);
      assert s.log + [] == s.log;
      if '\n' !in p.partial {
        ScanPlain(p.seen, p.partial);
        assert "" + p.partial == p.partial;
      }
    }
  }

  lemma MoveKeeps(s: Shared, a: Act, id: nat)
    requires PipeInv(s, id)
    ensures PipeInv(Move(s, a), id)
  {
    match a
    case Read(_, _, _) => ReadKeeps(s, a, id);
    case Cut(_) => CutKeeps(s, a, id);
    case Flush(_) => FlushKeeps(s, a, id);
  }

  lemma {:induction false} PipesRun(n: nat, acts: seq<Act>, id: nat)
    requires id < n
    ensures |Moves(Start(n), acts).pipes| == n && PipeInv(Moves(Start(n), acts), id)
  {
    if acts != [] {
      PipesRun(n, acts[..|acts| - 1], id);
      MoveKeeps(Moves(Start(n), acts[..|acts| - 1]), acts[|acts| - 1], id);
    }
  }

  /**
  However the pipes' reads and pushes interleave, each pipe contributes, in order, the lines of what it read and
  nothing else: all of them once it has ended, and until then those already finished.
  */
  lemma PipesDoNotMix(n: nat, acts: seq<Act>, id: nat)
    requires id < n
    ensures var s := Moves(Start(n), acts);
      && |s.pipes| == n
      && From(s.log, id) <= Lines(s.pipes[id].stream)
      && (s.pipes[id].done ==> From(s.log, id) == Lines(s.pipes[id].stream))
  {
    PipesRun(n, acts, id);
    var p := Moves(Start(n), acts).pipes[id];
    ScanPrefix(p.seen, p.partial);
  }

  lemma {:induction false} ScanPrefix(a: string, b: string)
    ensures Scan(a).lines <= Scan(a + b).lines
  {
    if b == "" {
      assert a + b == a;
    } else {
      assert (a + b)[..|a + b| - 1] == a + b[..|b| - 1];
      ScanPrefix(a, b[..|b| - 1]);
    }
  }
}
