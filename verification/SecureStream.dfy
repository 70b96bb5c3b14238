/** End to end: the encrypted, chunked, framed and re-cut stream is a plain queue of bytes. */
module SecureStream {
  import opened Wrappers
  import opened Frames
  import opened PeerConn
  import opened SecureConn

  /** Chunks as Write cuts them. */
  ghost predicate Sendable(chunks: seq<Bytes>) {
    forall x | x in chunks :: 0 < |x| <= MAX_PAYLOAD
  }

  lemma SealedFits(c: Cipher, n: nat, x: Bytes)
    requires Correct(c) && |x| <= MAX_PAYLOAD
    ensures |c.seal(n, x)| <= MAX_FRAME && Seal(c, n, x) == PrintFrame(c.seal(n, x))
    ensures |Seal(c, n, x)| == |x| + TAG + 2 <= MAX_MSG
    ensures c.unseal(n, c.seal(n, x)) == Some(x)
  {
    assert Sealed(c, n, x);
  }

  lemma OpenSealed(c: Cipher, n: nat, x: Bytes, tail: Bytes)
    requires Correct(c) && |x| <= MAX_PAYLOAD
    ensures var raw := Seal(c, n, x) + tail;
      Whole(raw) && c.unseal(n, FirstFrame(raw)) == Some(x) && AfterFirst(raw) == tail
  {
    SealedFits(c, n, x);
    FirstOfPrinted(c.seal(n, x), tail);
  }

  lemma SealAllFirst(c: Cipher, n: nat, chunks: seq<Bytes>)
    requires chunks != []
    ensures Flatten(SealAll(c, n, chunks)) == Seal(c, n, chunks[0]) + Flatten(SealAll(c, n + 1, chunks[1..]))
  {
    assert SealAll(c, n, chunks)[1..] == SealAll(c, n + 1, chunks[1..]);
  }

  lemma Regroup(a: Bytes, b: Bytes, c: Bytes)
    ensures (a + b) + c == a + (b + c)
  {
  }

  // ------------------------------------------------------------------------------------------------------------
  // Runs without faults
  // ------------------------------------------------------------------------------------------------------------

  /**
  Both ends of one direction.  The channel below delivers messages in order; cutting them into reads only regroups
  rx.pending, the bytes sent and not yet taken.  accepted is what Write has taken, delivered what Read has handed out.
  */
  datatype Link = Link(nonce: nat, rx: Rx, accepted: Bytes, delivered: Bytes)

  datatype Event = Write(p: Bytes) | Read(room: nat)

  function Start(): Link { Link(0, Rx(0, [], []), [], []) }

  /** A whole Write, sent without fault. */
  function AfterWrite(c: Cipher, l: Link, p: Bytes): Link {
    var chunks := Chunks(p, MAX_PAYLOAD);
    l.(nonce := l.nonce + |chunks|, accepted := l.accepted + p,
       rx := l.rx.(pending := l.rx.pending + Flatten(SealAll(c, l.nonce, chunks))))
  }

  /** A Read that finds nothing whole would wait; it changes nothing. */
  function AfterRead(c: Cipher, l: Link, room: nat): Link {
    match ReadStep(c, l.rx, room)
    case None => l
    case Some(r) => l.(rx := r.1, delivered := l.delivered + r.0)
  }

  function Next(c: Cipher, l: Link, ev: Event): Link {
    match ev
    case Write(p) => AfterWrite(c, l, p)
    case Read(room) => AfterRead(c, l, room)
  }

  function Run(c: Cipher, evs: seq<Event>): Link {
    if evs == [] then Start() else Next(c, Run(c, evs[..|evs| - 1]), evs[|evs| - 1])
  }

  /** The bytes in flight are frames of the sender, one for each counter value between the two ends. */
  ghost predicate InStep(c: Cipher, l: Link, chunks: seq<Bytes>) {
    && Sendable(chunks)
    && l.nonce == l.rx.nonce + |chunks|
    && l.rx.pending == Flatten(SealAll(c, l.rx.nonce, chunks))
    && l.delivered + l.rx.buf + Flatten(chunks) == l.accepted
  }

  lemma {:induction false} SealAllAppend(c: Cipher, n: nat, a: seq<Bytes>, b: seq<Bytes>)
    ensures SealAll(c, n, a + b) == SealAll(c, n, a) + SealAll(c, n + |a|, b)
    decreases |a|
  {
    if a == [] {
      assert a + b == b;
    } else {
      assert (a + b)[1..] == a[1..] + b;
      SealAllAppend(c, n + 1, a[1..], b);
    }
  }

  /** The sender adds these chunks. */
  function Send(c: Cipher, l: Link, chunks: seq<Bytes>): Link {
    l.(nonce := l.nonce + |chunks|, accepted := l.accepted + Flatten(chunks),
       rx := l.rx.(pending := l.rx.pending + Flatten(SealAll(c, l.nonce, chunks))))
  }

  lemma SendInStep(c: Cipher, l: Link, chunks: seq<Bytes>, more: seq<Bytes>)
    requires InStep(c, l, chunks) && Sendable(more)
    ensures InStep(c, Send(c, l, more), chunks + more)
  {
    SealAllAppend(c, l.rx.nonce, chunks, more);
    FlattenAppend(SealAll(c, l.rx.nonce, chunks), SealAll(c, l.nonce, more));
    FlattenAppend(chunks, more);
    Regroup(l.delivered + l.rx.buf, Flatten(chunks), Flatten(more));
    SendableBoth(chunks, more);
  }

  lemma WriteInStep(c: Cipher, l: Link, chunks: seq<Bytes>, p: Bytes)
    requires InStep(c, l, chunks)
    ensures InStep(c, AfterWrite(c, l, p), chunks + Chunks(p, MAX_PAYLOAD))
  {
    ChunksSmall(p, MAX_PAYLOAD);
    ChunksCover(p, MAX_PAYLOAD);
    SendInStep(c, l, chunks, Chunks(p, MAX_PAYLOAD));
  }

  lemma SendableBoth(a: seq<Bytes>, b: seq<Bytes>)
    requires Sendable(a) && Sendable(b)
    ensures Sendable(a + b)
  {
  }

  lemma TakeKeep(p: Bytes, room: nat)
    ensures Take(p, room) + Keep(p, room) == p
  {
  }

  lemma ReadInStep(c: Cipher, l: Link, chunks: seq<Bytes>, room: nat)
    requires Correct(c) && l.nonce <= NONCE_LIMIT && InStep(c, l, chunks)
    ensures InStep(c, AfterRead(c, l, room), if l.rx.buf == [] && chunks != [] then chunks[1..] else chunks)
  {
    var t := AfterRead(c, l, room);
    if l.rx.buf != [] {
      TakeKeep(l.rx.buf, room);
      Regroup(l.delivered, Take(l.rx.buf, room), Keep(l.rx.buf, room));
    } else if chunks != [] {
      var x := chunks[0];
      SealAllFirst(c, l.rx.nonce, chunks);
      OpenSealed(c, l.rx.nonce, x, Flatten(SealAll(c, l.rx.nonce + 1, chunks[1..])));
      TakeKeep(x, room);
      assert t.delivered == l.delivered + Take(x, room) && t.rx.buf == Keep(x, room);
      Regroup(l.delivered, Take(x, room), Keep(x, room));
      assert l.delivered + [] == l.delivered;
      Regroup(l.delivered, x, Flatten(chunks[1..]));
    }
  }

  lemma {:induction false} RunInStep(c: Cipher, evs: seq<Event>) returns (chunks: seq<Bytes>)
    requires Correct(c) && Run(c, evs).nonce <= NONCE_LIMIT
    ensures InStep(c, Run(c, evs), chunks)
  {
    if evs == [] {
      chunks := [];
    } else {
      var n := |evs| - 1;
      var l := Run(c, evs[..n]);
      chunks := RunInStep(c, evs[..n]);
      match evs[n] {
        case Write(p) =>
          WriteInStep(c, l, chunks, p);
          chunks := chunks + Chunks(p, MAX_PAYLOAD);
        case Read(room) =>
          ReadInStep(c, l, chunks, room);
          chunks := if l.rx.buf == [] && chunks != [] then chunks[1..] else chunks;
      }
    }
  }

  lemma FlattenSomething(chunks: seq<Bytes>)
    requires Sendable(chunks) && chunks != []
    ensures Flatten(chunks) != []
  {
    assert chunks[0] in chunks;
  }

  /**
  Stream refinement.  For every mix of Write sizes and Read buffer sizes, what has been read is a prefix of what has
  been written; it is all of it exactly when nothing is buffered and nothing in flight; and at every moment the
  sender's counter is the receiver's plus the number of frames in flight.
  */
  lemma StreamIsAQueue(c: Cipher, evs: seq<Event>)
    requires Correct(c) && Run(c, evs).nonce <= NONCE_LIMIT
    ensures var l := Run(c, evs);
      && l.delivered <= l.accepted
      && (l.delivered == l.accepted <==> l.rx.buf == [] && l.rx.pending == [])
      && l.nonce == l.rx.nonce + |Parse(l.rx.pending)| && Rest(l.rx.pending) == []
  {
    var l := Run(c, evs);
    var chunks := RunInStep(c, evs);
    InFlight(c, l.rx.nonce, chunks);
    if l.delivered == l.accepted {
      assert |l.rx.buf| + |Flatten(chunks)| == 0;
      if chunks != [] { FlattenSomething(chunks); }
    }
    if l.rx.pending == [] && l.rx.buf == [] {
      assert Parse(l.rx.pending) == [];
      assert chunks == [];
      assert l.delivered + [] + [] == l.delivered;
    }
  }

  lemma SomethingLeft(c: Cipher, l: Link, chunks: seq<Bytes>, room: nat)
    requires Correct(c) && l.nonce <= NONCE_LIMIT && InStep(c, l, chunks) && room > 0 && l.delivered != l.accepted
    ensures |AfterRead(c, l, room).delivered| > |l.delivered| && AfterRead(c, l, room).accepted == l.accepted
  {
    if l.rx.buf == [] {
      assert l.delivered + [] + Flatten([]) == l.delivered;
      assert chunks != [];
      var x := chunks[0];
      SealAllFirst(c, l.rx.nonce, chunks);
      OpenSealed(c, l.rx.nonce, x, Flatten(SealAll(c, l.rx.nonce + 1, chunks[1..])));
      assert x in chunks;
    }
  }

  /** While something written has not been read, a Read with room for a byte brings at least one. */
  lemma ReadMakesProgress(c: Cipher, evs: seq<Event>, room: nat)
    requires Correct(c) && Run(c, evs).nonce <= NONCE_LIMIT && room > 0
    requires Run(c, evs).delivered != Run(c, evs).accepted
    ensures |Run(c, evs + [Read(room)]).delivered| > |Run(c, evs).delivered|
    ensures Run(c, evs + [Read(room)]).accepted == Run(c, evs).accepted
    ensures Run(c, evs + [Read(room)]).nonce == Run(c, evs).nonce
  {
    assert (evs + [Read(room)])[..|evs|] == evs;
    var chunks := RunInStep(c, evs);
    SomethingLeft(c, Run(c, evs), chunks, room);
  }

  /** So whatever has been written can be read, with a buffer of any size. */
  lemma {:induction false} EverythingArrives(c: Cipher, evs: seq<Event>, room: nat) returns (more: seq<Event>)
    requires Correct(c) && Run(c, evs).nonce <= NONCE_LIMIT && room > 0
    ensures forall ev | ev in more :: ev == Read(room)
    ensures Run(c, evs + more).delivered == Run(c, evs + more).accepted == Run(c, evs).accepted
    decreases |Run(c, evs).accepted| - |Run(c, evs).delivered|
  {
    StreamIsAQueue(c, evs);
    if Run(c, evs).delivered == Run(c, evs).accepted {
      more := [];
      assert evs + [] == evs;
    } else {
      var one := evs + [Read(room)];
      ReadMakesProgress(c, evs, room);
      StreamIsAQueue(c, one);
      var rest := EverythingArrives(c, one, room);
      more := [Read(room)] + rest;
      assert evs + more == one + rest;
    }
  }

  /** Sealed chunks are whole frames, one each. */
  lemma {:induction false} InFlight(c: Cipher, n: nat, chunks: seq<Bytes>)
    requires Correct(c) && Sendable(chunks)
    ensures |Parse(Flatten(SealAll(c, n, chunks)))| == |chunks| && Rest(Flatten(SealAll(c, n, chunks))) == []
    decreases |chunks|
  {
    if chunks != [] {
      var more := Flatten(SealAll(c, n + 1, chunks[1..]));
      SealAllFirst(c, n, chunks);
      SealedFits(c, n, chunks[0]);
      FirstOfPrinted(c.seal(n, chunks[0]), more);
      InFlight(c, n + 1, chunks[1..]);
      ParseFirst(Seal(c, n, chunks[0]) + more);
    }
  }

  // ------------------------------------------------------------------------------------------------------------
  // Faults, losses and a meddling channel
  // ------------------------------------------------------------------------------------------------------------

  /**
  What the sender has put under each counter value: a chunk whose frame was sent, or None for a value used up by a
  chunk whose frame never left.
  */
  type Log = seq<Option<Bytes>>

  function Accepted(log: Log): Bytes {
    if log == [] then []
    else Accepted(log[..|log| - 1]) + (match log[|log| - 1] case None => [] case Some(x) => x)
  }

  /** Nobody but the sender makes frames that open: if this one does, it is the one sent under this counter value. */
  ghost predicate Genuine(c: Cipher, log: Log, n: nat, ct: Bytes) {
    match c.unseal(n, ct)
    case None => true
    case Some(p) => n < |log| && log[n] == Some(p)
  }

  /** The receiver, with an arbitrary byte stream below it. */
  datatype Receiver = Receiver(rx: Rx, log: Log, delivered: Bytes)

  /** The sender goes on, the bytes below become anything at all, or somebody reads. */
  datatype Mishap = Sends(entry: Option<Bytes>) | Arrives(raw: Bytes) | Reads(room: nat)

  function AfterMishap(c: Cipher, r: Receiver, m: Mishap): Receiver {
    match m
    case Sends(x) => r.(log := r.log + [x])
    case Arrives(raw) => r.(rx := r.rx.(pending := raw))
    case Reads(room) =>
      match ReadStep(c, r.rx, room)
      case None => r
      case Some(s) => r.(rx := s.1, delivered := r.delivered + s.0)
  }

  function Ordeal(c: Cipher, ms: seq<Mishap>): Receiver {
    if ms == [] then Receiver(Rx(0, [], []), [], []) else AfterMishap(c, Ordeal(c, ms[..|ms| - 1]), ms[|ms| - 1])
  }

  ghost predicate NoForgery(c: Cipher, ms: seq<Mishap>) {
    forall i | 0 <= i < |ms| && ms[i].Reads? ::
      var r := Ordeal(c, ms[..i]);
      Whole(r.rx.pending) ==> Genuine(c, r.log, r.rx.nonce, FirstFrame(r.rx.pending))
  }

  /** What has been opened is the log from its start, with no gap. */
  ghost predicate Caught(r: Receiver) {
    && r.rx.nonce <= |r.log|
    && (forall i | 0 <= i < r.rx.nonce :: r.log[i].Some?)
    && r.delivered + r.rx.buf == Accepted(r.log[..r.rx.nonce])
  }

  lemma {:induction false} AcceptedGrows(log: Log, k: nat)
    requires k <= |log|
    ensures Accepted(log[..k]) <= Accepted(log)
    decreases |log|
  {
    if k == |log| {
      assert log[..k] == log;
    } else {
      var n := |log| - 1;
      assert log[..n][..k] == log[..k];
      AcceptedGrows(log[..n], k);
    }
  }

  lemma CaughtStep(c: Cipher, r: Receiver, m: Mishap)
    requires Caught(r)
    requires m.Reads? && Whole(r.rx.pending) ==> Genuine(c, r.log, r.rx.nonce, FirstFrame(r.rx.pending))
    ensures Caught(AfterMishap(c, r, m))
  {
    match m
    case Sends(x) => assert (r.log + [x])[..r.rx.nonce] == r.log[..r.rx.nonce];
    case Arrives(raw) =>
    case Reads(room) =>
      if r.rx.buf != [] {
        TakeKeep(r.rx.buf, room);
        Regroup(r.delivered, Take(r.rx.buf, room), Keep(r.rx.buf, room));
      } else if ReadStep(c, r.rx, room).Some? {
        var p := c.unseal(r.rx.nonce, FirstFrame(r.rx.pending)).value;
        var n := r.rx.nonce;
        assert r.log[..n + 1][..n] == r.log[..n];
        TakeKeep(p, room);
        Regroup(r.delivered, Take(p, room), Keep(p, room));
        assert r.delivered + [] == r.delivered;
      }
  }

  /**
  Failed sends, deadlines inside a frame, closes that lose queued messages, and any rewriting of the bytes below: as
  long as no frame is forged, what has been read is a prefix of what Write accepted, and nothing is read past the
  first counter value whose frame never left.
  */
  lemma {:induction false} PrefixUnderAnyFault(c: Cipher, ms: seq<Mishap>)
    requires NoForgery(c, ms)
    ensures Caught(Ordeal(c, ms)) && Ordeal(c, ms).delivered <= Accepted(Ordeal(c, ms).log)
  {
    if ms != [] {
      var n := |ms| - 1;
      assert NoForgery(c, ms[..n]) by {
        forall i | 0 <= i < n
          ensures ms[..n][..i] == ms[..i]
        {
        }
      }
      PrefixUnderAnyFault(c, ms[..n]);
      CaughtStep(c, Ordeal(c, ms[..n]), ms[n]);
    }
    var r := Ordeal(c, ms);
    AcceptedGrows(r.log, r.rx.nonce);
    assert r.delivered <= r.delivered + r.rx.buf;
  }

  // ------------------------------------------------------------------------------------------------------------
  // Sizes and roles
  // ------------------------------------------------------------------------------------------------------------

  lemma {:induction false} SealedLength(c: Cipher, n: nat, chunks: seq<Bytes>)
    requires Correct(c) && Sendable(chunks)
    ensures |SealAll(c, n, chunks)| == |chunks|
    ensures |Flatten(SealAll(c, n, chunks))| == |Flatten(chunks)| + 18 * |chunks|
    ensures forall f | f in SealAll(c, n, chunks) :: 18 < |f| <= 16338
    decreases |chunks|
  {
    if chunks != [] {
      SealAllFirst(c, n, chunks);
      SealedFits(c, n, chunks[0]);
      SealedLength(c, n + 1, chunks[1..]);
    }
  }

  /**
  A Write of L bytes makes L / 16320 messages, rounded up, each a whole frame of at most 16338 bytes that its length
  field and one message can hold, and L + 18 bytes per message in all.
  */
  lemma SizeArithmetic(c: Cipher, n: nat, p: Bytes)
    requires Correct(c)
    ensures var fs := SealAll(c, n, Chunks(p, MAX_PAYLOAD));
      && |p| <= |fs| * 16320 < |p| + 16320
      && |Flatten(fs)| == |p| + 18 * |fs|
      && forall f | f in fs :: |f| <= 16338 && |f| <= MAX_FRAME && Chunks(f, MAX_MSG) == [f]
  {
    var chunks := Chunks(p, MAX_PAYLOAD);
    ChunksSmall(p, MAX_PAYLOAD);
    ChunksCover(p, MAX_PAYLOAD);
    ChunksCount(p, MAX_PAYLOAD);
    SealedLength(c, n, chunks);
    forall f | f in SealAll(c, n, chunks)
      ensures Chunks(f, MAX_MSG) == [f]
    {
      SingleChunk(f);
    }
  }

  /** How doHandshake assigns the two cipher states it gets: first sealing, then opening. */
  function Assign(initiator: bool, cs0: Cipher, cs1: Cipher): (Cipher, Cipher) {
    if initiator then (cs0, cs1) else (cs1, cs0)
  }

  /**
  The initiator seals under the first of the two and opens under the second, the responder the other way round; so each
  end opens with what the other seals with, and both directions are queues.
  */
  lemma BothDirections(cs0: Cipher, cs1: Cipher, there: seq<Event>, back: seq<Event>)
    requires Correct(cs0) && Correct(cs1)
    requires Run(Assign(true, cs0, cs1).0, there).nonce <= NONCE_LIMIT
    requires Run(Assign(false, cs0, cs1).0, back).nonce <= NONCE_LIMIT
    ensures Assign(true, cs0, cs1).0 == Assign(false, cs0, cs1).1 == cs0
    ensures Assign(false, cs0, cs1).0 == Assign(true, cs0, cs1).1 == cs1
    ensures var l := Run(Assign(false, cs0, cs1).1, there); l.delivered <= l.accepted
    ensures var l := Run(Assign(true, cs0, cs1).1, back); l.delivered <= l.accepted
  {
    StreamIsAQueue(cs0, there);
    StreamIsAQueue(cs1, back);
  }

  /** The cipher assumption can be met. */
  lemma CorrectCiphersExist() returns (c: Cipher)
    ensures Correct(c)
  {
    var tag: Bytes := [0, 0, 0, 0, 0, 0, 0, 0, 0, 0, 0, 0, 0, 0, 0, 0];
    c := Cipher((n: nat, p: Bytes) => p + tag,
                (n: nat, ct: Bytes) => if |ct| < TAG then None else Some(ct[..|ct| - TAG]));
    forall n: nat, p: Bytes
      ensures Sealed(c, n, p)
    {
      assert (p + tag)[..|p|] == p;
    }
  }
}
